/** Histories which show that the stale limit cannot be loosened, nor the condition for a
    backoff dropped. */
module EnvelopeLimits {
  import opened EnvelopeBackoff
  import opened EnvelopeRetry
  import opened Wrappers

  const NOTHING := World(0, map[], multiset{}, multiset{}, [], multiset{}, 2, 2, map[], {})

  function Ones(k: nat): seq<Id> { seq(k, _ => 1) }

  lemma OneMore(k: nat)
    ensures Ones(k) + [1] == Ones(k + 1) && Ones(k + 1)[1..] == Ones(k) && Ones(k + 1)[0] == 1
  {
  }

  /** No run is more than one second over the limit. */
  ghost predicate JustLate(w: World) {
    forall r <- w.runs :: Secs(w.now) <= w.runs[r].stamp + STALE + 1
  }

  ghost predicate Reaches(ws: seq<World>, ss: seq<Step>, w: World) {
    History(ws, ss) && ws[|ss|] == w && forall v <- ws :: JustLate(v)
  }

  lemma Goes(ws: seq<World>, ss: seq<Step>, w: World, s: Step, w': World)
    requires Reaches(ws, ss, w) && Next(w, s) == Some(w') && JustLate(w')
    ensures Reaches(ws + [w'], ss + [s], w')
  {
    Extended(ws, ss, s, w');
    hide History, JustLate, Next;
  }

  /** One pending envelope, inserted and sent at time 0. */
  lemma SentOnce() returns (ws: seq<World>, ss: seq<Step>, w: World)
    ensures Reaches(ws, ss, w) && w == NOTHING.(rows := map[1 := Row(Pending, None, 0, None)], queue := Ones(1))
    ensures forall v <- ws :: v.runs == map[]
  {
    var v := Next(NOTHING, Insert(1)).value;
    w := Next(v, Send(1)).value;
    ws, ss := [NOTHING, v, w], [Insert(1), Send(1)];
    assert w.unsent == multiset{} && w.queue == [1] == Ones(1);
    assert History(ws, ss);
  }

  /** The poller reads it. */
  lemma IsRead(vs: seq<World>, ts: seq<Step>, v: World) returns (ws: seq<World>, ss: seq<Step>, w: World)
    requires Reaches(vs, ts, v) && v.batch == multiset{} && v.now == 0 && v.rows == map[1 := Row(Pending, None, 0, None)]
    ensures Reaches(ws, ss, w) && w == v.(batch := multiset{1}) && ws == vs + [w]
  {
    var s := Read([1], 0);
    assert IsBatch(v.rows, 0, s.ids);
    w := Next(v, s).value;
    ws, ss := vs + [w], ts + [s];
    assert JustLate(v) && JustLate(w);
    hide History, JustLate;
    Goes(vs, ts, v, s, w);
  }

  /** `k` messages for it in the channel. */
  lemma {:induction false} Sent(k: nat) returns (ws: seq<World>, ss: seq<Step>, w: World)
    requires 0 < k < CAPACITY
    ensures Reaches(ws, ss, w) && w == NOTHING.(rows := map[1 := Row(Pending, None, 0, None)], queue := Ones(k))
    ensures forall v <- ws :: v.runs == map[]
  {
    if k == 1 {
      ws, ss, w := SentOnce();
    } else {
      var vs, ts, v := Sent(k - 1);
      var us, rs, u := IsRead(vs, ts, v);
      OneMore(k - 1);
      w := Next(u, Offer(1)).value;
      assert JustLate(w);
      hide Next, Reaches, JustLate;
      Goes(us, rs, u, Offer(1), w);
      ws, ss := us + [w], rs + [Offer(1)];
    }
  }

  /** The world after an idle worker has taken a message and claimed the envelope. */
  function AfterClaim(w: World, r: RunId): World
    requires 1 in w.rows && w.queue != [] && w.idle > 0
  {
    w.(queue := w.queue[1..], idle := w.idle - 1, rows := w.rows[1 := Claimed(w.rows[1], Secs(w.now))],
       runs := w.runs[r := Run(1, Secs(w.now))], usedRuns := w.usedRuns + {r})
  }

  lemma IsClaimed(vs: seq<World>, ts: seq<Step>, v: World, r: RunId) returns (ws: seq<World>, ss: seq<Step>, w: World)
    requires Reaches(vs, ts, v) && v.queue != [] && v.queue[0] == 1 && v.hands == multiset{} && v.idle > 0
    requires 1 in v.rows && Claimable(v.rows[1], Secs(v.now)) && r !in v.usedRuns
    ensures Reaches(ws, ss, w) && w == AfterClaim(v, r) && |ws| == |vs| + 2
    ensures exists u: World | u.runs == v.runs && u.now == v.now :: ws == vs + [u] + [w]
  {
    var claim := Claim(1, r, Secs(v.now), Secs(v.now));
    var u := Next(v, Take).value;
    w := Next(u, claim).value;
    assert u.hands == multiset{1} && w.hands == multiset{};
    ws, ss := vs + [u] + [w], ts + [Take] + [claim];
    assert JustLate(v) && JustLate(u) && JustLate(w);
    hide Next, JustLate, History, Claimable, Claimed;
    Goes(vs, ts, v, Take, u);
    Goes(vs + [u], ts + [Take], u, claim, w);
  }

  /** A run that is still there one second after its limit, and `k` more messages. */
  lemma StuckRun(k: nat) returns (ws: seq<World>, ss: seq<Step>, w: World)
    requires k < 10
    ensures Reaches(ws, ss, w)
    ensures w == NOTHING.(now := 61 * SECOND, rows := map[1 := Row(Processing, Some(0), 0, None)], queue := Ones(k), idle := 1,
                          runs := map[0 := Run(1, 0)], usedRuns := {0})
  {
    var vs, ts, v := Sent(k + 1);
    OneMore(k);
    var us, rs, u := IsClaimed(vs, ts, v, 0);
    w := Next(u, Tick(61 * SECOND)).value;
    assert JustLate(w);
    hide Reaches, Next, JustLate;
    Goes(us, rs, u, Tick(61 * SECOND), w);
    ws, ss := us + [w], rs + [Tick(61 * SECOND)];
  }

  /** Of two runs on one envelope, the second succeeds and then the first fails. */
  lemma SucceedsAndFails(vs: seq<World>, ts: seq<Step>, v: World) returns (ws: seq<World>, ss: seq<Step>, u: World, w: World)
    requires Reaches(vs, ts, v) && v.now == 61 * SECOND && v.runs == map[0 := Run(1, 0)][1 := Run(1, 61)]
    requires 1 in v.rows && v.rows[1].attempts == 0
    ensures Reaches(ws, ss, w) && ws == vs + [u] + [w] && |ss| == |ts| + 2
    ensures 1 in u.rows && u.rows[1].state == Done && 1 in w.rows && w.rows[1].state == Failed
  {
    u := Next(v, Succeed(1)).value;
    w := Next(u, Fail(0, 61)).value;
    assert JustLate(u) && JustLate(w);
    hide Next, JustLate, History;
    Goes(vs, ts, v, Succeed(1), u);
    Goes(vs + [u], ts + [Succeed(1)], u, Fail(0, 61), w);
    ws, ss := vs + [u] + [w], ts + [Succeed(1)] + [Fail(0, 61)];
  }

  /** One second too many is enough: a run that outlives the limit by a second overlaps
      with another one, and fails an envelope that is done already. */
  lemma SlowRunReopensADoneEnvelope() returns (ws: seq<World>, ss: seq<Step>, m: nat)
    ensures History(ws, ss) && forall v <- ws :: JustLate(v)
    ensures m + 2 == |ss|
    ensures 0 in ws[m].runs && 1 in ws[m].runs && ws[m].runs[0].envelope == ws[m].runs[1].envelope == 1
    ensures 1 in ws[m + 1].rows && ws[m + 1].rows[1].state == Done
    ensures 1 in ws[m + 2].rows && ws[m + 2].rows[1].state == Failed
  {
    var vs, ts, v := StuckRun(1);
    OneMore(0);
    var us, rs, a := IsClaimed(vs, ts, v, 1);
    var b, c: World;
    ws, ss, b, c := SucceedsAndFails(us, rs, a);
    hide Next, JustLate;
    m := |rs|;
    assert ws[m] == a && ws[m + 1] == b && ws[m + 2] == c;
  }

  /** The stuck run's envelope after `k` failures of other runs. */
  lemma {:induction false} FailsOften(k: nat) returns (ws: seq<World>, ss: seq<Step>, w: World)
    requires k <= 5
    ensures Reaches(ws, ss, w) && w.now == 61 * SECOND && w.queue == Ones(5 - k) && w.hands == multiset{} && w.idle == 1
    ensures (forall r <- w.usedRuns :: r <= k) && w.runs == map[0 := Run(1, 0)]
    ensures 1 in w.rows && w.rows[1].attempts == k
    ensures k < 5 ==> Claimable(w.rows[1], 61)
    ensures k == 5 ==> w.rows[1].state == Dead
  {
    if k == 0 {
      ws, ss, w := StuckRun(5);
    } else {
      var vs, ts, v := FailsOften(k - 1);
      OneMore(5 - k);
      var us, rs, u := IsClaimed(vs, ts, v, k);
      w := Next(u, Fail(k, 61)).value;
      assert JustLate(w);
      hide Reaches, Delay, JustLate;
      Goes(us, rs, u, Fail(k, 61), w);
      ws, ss := us + [w], rs + [Fail(k, 61)];
    }
  }

  /** Nor does the fifth failure end it then: the late run fails a dead envelope once more. */
  lemma SlowRunFailsADeadEnvelope() returns (ws: seq<World>, ss: seq<Step>)
    ensures History(ws, ss) && ss != [] && forall v <- ws :: JustLate(v)
    ensures var n := |ss|;
            && 1 in ws[n - 1].rows && ws[n - 1].rows[1].state == Dead && Failures(ws, ss, n - 1, 1) == 5
            && 1 in ws[n].rows && ws[n].rows[1].state == Dead && Failures(ws, ss, n, 1) == 6
  {
    var vs, ts, v := FailsOften(5);
    var w := Next(v, Fail(0, 61)).value;
    Goes(vs, ts, v, Fail(0, 61), w);
    ws, ss := vs + [w], ts + [Fail(0, 61)];
    assert ws[|ts|] == v && ws[|ts| + 1] == w;
    AttemptsAreFailures(ws, ss, |ts|, 1);
    AttemptsAreFailures(ws, ss, |ts| + 1, 1);
  }

  /** A first run that fails at once, whatever else is on its way. */
  lemma FailsAtOnce(vs: seq<World>, ts: seq<Step>, v: World) returns (ws: seq<World>, ss: seq<Step>, w: World)
    requires Reaches(vs, ts, v) && v.queue != [] && v.queue[0] == 1 && v.hands == multiset{} && v.idle > 0 && v.now == 0
    requires v.rows == map[1 := Row(Pending, None, 0, None)] && v.usedRuns == {} && forall u <- vs :: u.runs == map[]
    ensures History(ws, ss) && ss != [] && ws[|ss|] == w && forall u <- ws :: Timely(u, 1)
    ensures LastFailedAt(ws, ss, |ss| - 1, |ss|, 1) && BacksOff(w, 1)
    ensures w.unsent == v.unsent && w.batch == v.batch && w.queue == v.queue[1..] && w.hands == multiset{}
  {
    var us, rs, u := IsClaimed(vs, ts, v, 0);
    var fail := Fail(0, 0);
    DelaysDouble(0);
    hide Delay;
    w := Next(u, fail).value;
    assert Fails(u, fail, 1) && Entry(w.rows, 1) == Some(MarkedFailed(u.rows[1], 0)) && BacksOff(w, 1);
    Goes(us, rs, u, fail, w);
    assert Timely(u, 1) && Timely(w, 1);
    hide Next, MarkedFailed, Fails, BacksOff, JustLate;
    ws, ss := us + [w], rs + [fail];
    assert ws[|ss| - 1] == u && ws[|ss|] == w && ss[|ss| - 1] == fail;
  }

  /** So a second message in the channel does let a worker claim a failed envelope before
      its time, with no run late at all. */
  lemma QueuedOfferSkipsTheBackoff() returns (ws: seq<World>, ss: seq<Step>)
    ensures History(ws, ss) && ss != [] && (forall v <- ws :: Timely(v, 1)) && CanSkip(ws, ss, 1)
    ensures 1 in ws[|ss|].queue
  {
    var vs, ts, v := Sent(2);
    OneMore(1);
    OneMore(0);
    var w: World;
    ws, ss, w := FailsAtOnce(vs, ts, v);
    assert w.queue[0] == 1;
    hide History, LastFailedAt, BacksOff, CanSkip, Timely;
    BackoffHoldsUnlessOutstanding(ws, ss, 1);
  }

  /** And so does one that the poller has read and not yet offered, though the channel and
      all hands are empty when the failure is recorded. */
  lemma ReadOfferSkipsTheBackoff() returns (ws: seq<World>, ss: seq<Step>)
    ensures History(ws, ss) && ss != [] && (forall v <- ws :: Timely(v, 1)) && CanSkip(ws, ss, 1)
    ensures ws[|ss|].queue == [] && ws[|ss|].hands == ws[|ss|].unsent == multiset{}
  {
    var vs, ts, v := Sent(1);
    var us, rs, u := IsRead(vs, ts, v);
    OneMore(0);
    var w: World;
    ws, ss, w := FailsAtOnce(us, rs, u);
    assert 1 in w.batch;
    hide History, LastFailedAt, BacksOff, CanSkip, Timely;
    BackoffHoldsUnlessOutstanding(ws, ss, 1);
  }
}
