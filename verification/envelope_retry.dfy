/** Stored envelopes: claimed by workers, retried with backoff, given up after five
    failures, offered again by the poller. */
module EnvelopeRetry {
  import opened Wrappers

  type Id = int
  type RunId = nat

  /** Seconds after which a run counts as stuck and its envelope may be claimed again. */
  const STALE: int := 60
  const LAST_ATTEMPT: nat := 4

  const SECOND: int := 1_000_000_000

  function Secs(nanos: int): int { nanos / SECOND }

  datatype State = Pending | Processing | Failed | Done | Dead

  datatype Row = Row(state: State, startedAt: Option<int>, attempts: nat, nextAttemptAt: Option<int>)

  datatype Run = Run(envelope: Id, stamp: int)

  /** What the channel to the workers holds at most. */
  const CAPACITY: nat := 10_000

  /** An envelope's id goes to a worker by way of `unsent`, which are inserted and still to
      be sent by their request, or of `batch`, which the poller has read and still has to
      offer; then through `queue`, the channel; to `hands`, which are received and still to
      be claimed. `idle` workers wait for a message. */
  datatype World = World(
    now: int,
    rows: map<Id, Row>,
    unsent: multiset<Id>,
    batch: multiset<Id>,
    queue: seq<Id>,
    hands: multiset<Id>,
    idle: nat,
    workers: nat,
    runs: map<RunId, Run>,
    usedRuns: set<RunId>)

  // ------------------------------------------------------------------ statements --

  function Pow2(n: nat): nat { if n == 0 then 1 else 2 * Pow2(n - 1) }

  function Least(a: nat, b: nat): nat { if a < b then a else b }

  function Delay(attempts: nat): nat { Least(300, 5 * Pow2(Least(attempts, 8))) }

  predicate Final(row: Row) { row.state == Done || row.state == Dead }

  predicate Claimable(row: Row, t: int) {
    || row.state == Pending || row.state == Failed
    || (row.state == Processing && row.startedAt.Some? && row.startedAt.value < t - STALE)
  }

  predicate Due(row: Row, t: int) {
    row.nextAttemptAt.Some? && row.nextAttemptAt.value <= t
  }

  predicate Offered(row: Row, t: int) {
    || (row.state == Pending && (row.nextAttemptAt.None? || Due(row, t)))
    || (row.state == Failed && Due(row, t))
    || (row.state == Processing && row.startedAt.Some? && row.startedAt.value < t - STALE)
  }

  function Claimed(row: Row, stamp: int): Row { row.(state := Processing, startedAt := Some(stamp)) }

  function MarkedFailed(row: Row, t: int): Row {
    row.(attempts := row.attempts + 1,
         state := if row.attempts >= LAST_ATTEMPT then Dead else Failed,
         nextAttemptAt := if row.attempts >= LAST_ATTEMPT then None else Some(t + Delay(row.attempts)))
  }

  const BATCH: nat := 50

  /** The rows a poll's query may give: LIMIT without an order. */
  predicate IsBatch(rows: map<Id, Row>, t: int, batch: seq<Id>) {
    && |batch| <= BATCH
    && (forall i, j | 0 <= i < j < |batch| :: batch[i] != batch[j])
    && (forall id <- batch :: id in rows && Offered(rows[id], t))
    && (|batch| < BATCH ==> forall id <- rows | Offered(rows[id], t) :: id in batch)
  }

  /** The row has waited for its time, or its run has been going for more than a minute. */
  predicate IsDue(row: Row, t: int) {
    match row.state
    case Pending => row.nextAttemptAt.Some? ==> row.nextAttemptAt.value <= t
    case Failed => row.nextAttemptAt.Some? && row.nextAttemptAt.value <= t
    case Processing => row.startedAt.Some? && t - row.startedAt.value > 60
    case _ => false
  }

  /** A worker may claim the row: it waits, or its run has been going for more than a minute. */
  predicate MayBeClaimed(row: Row, t: int) {
    match row.state
    case Pending => true
    case Failed => true
    case Processing => row.startedAt.Some? && t - row.startedAt.value > 60
    case _ => false
  }

  /** The delays that occur: 5, 10, 20 and 40 seconds. Neither cap is ever reached. */
  lemma DelaysDouble(attempts: nat)
    requires attempts < LAST_ATTEMPT
    ensures Delay(attempts) == 5 * Pow2(attempts) <= 40
  {
  }

  class EnvelopeTable {
    var rows: map<Id, Row>
    /** The bounded channel to the workers. */
    var channel: seq<Id>
    const capacity: nat

    constructor (capacity: nat)
      ensures rows == map[] && channel == [] && this.capacity == capacity
    {
      rows, channel, this.capacity := map[], [], capacity;
    }

    /** The claim of `process_envelope`: one row, and only if it is free or stuck. */
    method Claim(id: Id, stamp: int, t: int) returns (claimed: bool)
      modifies this`rows
      ensures claimed <==>
                id in old(rows) &&
                var row := old(rows)[id];
                || row.state == Pending || row.state == Failed
                || (row.state == Processing && row.startedAt.Some? && row.startedAt.value < t - 60)
      ensures rows == if claimed then
                        old(rows)[id := Row(Processing, Some(stamp), old(rows)[id].attempts, old(rows)[id].nextAttemptAt)]
                      else old(rows)
    {
      claimed := id in rows && Claimable(rows[id], t);
      if claimed {
        rows := rows[id := rows[id].(state := Processing, startedAt := Some(stamp))];
      }
    }

    /** The update is by id alone: it does not ask in what state the row is. */
    method MarkFailed(id: Id, t: int)
      modifies this`rows
      ensures rows.Keys == old(rows).Keys && forall k <- old(rows) | k != id :: rows[k] == old(rows)[k]
      ensures id in old(rows) ==>
                var attempts := old(rows)[id].attempts;
                rows[id] == if attempts >= 4 then Row(Dead, old(rows)[id].startedAt, attempts + 1, None)
                            else Row(Failed, old(rows)[id].startedAt, attempts + 1, Some(t + 5 * Pow2(attempts)))
    {
      if id !in rows { return; }
      var attempts := rows[id].attempts;
      if attempts < LAST_ATTEMPT { DelaysDouble(attempts); }
      var row := rows[id].(attempts := attempts + 1);
      if attempts >= LAST_ATTEMPT {
        row := row.(state := Dead, nextAttemptAt := None);
      } else {
        row := row.(state := Failed, nextAttemptAt := Some(t + Delay(attempts)));
      }
      rows := rows[id := row];
    }

    /** One message, with nobody else about: a claimed envelope ends done, failed or dead. */
    method ProcessEnvelope(id: Id, stamp: int, t: int, succeeds: bool, end: int)
      modifies this`rows
      ensures rows.Keys == old(rows).Keys && forall k <- old(rows) | k != id :: rows[k] == old(rows)[k]
      ensures id in old(rows) && !MayBeClaimed(old(rows)[id], t) ==> rows[id] == old(rows)[id]
      ensures id in old(rows) && MayBeClaimed(old(rows)[id], t) ==>
                && rows[id].startedAt == Some(stamp)
                && rows[id].attempts == old(rows)[id].attempts + (if succeeds then 0 else 1)
                && rows[id].state == (if succeeds then Done else if rows[id].attempts >= 5 then Dead else Failed)
                && (rows[id].state == Failed ==> rows[id].nextAttemptAt == Some(end + 5 * Pow2(rows[id].attempts - 1)))
    {
      var claimed := Claim(id, stamp, t);
      if !claimed { return; }
      if succeeds {
        rows := rows[id := rows[id].(state := Done)];
      } else {
        MarkFailed(id, end);
      }
    }

    /** Offers what the query gave, in its order, as far as the channel takes it. */
    method PollEnvelopes(t: int, batch: seq<Id>)
      requires IsBatch(rows, t, batch) && |channel| <= capacity
      modifies this`channel
      ensures channel == old(channel) + batch[..Least(|batch|, capacity - |old(channel)|)]
      ensures forall id <- channel[|old(channel)|..] :: id in rows && IsDue(rows[id], t)
      ensures |batch| < 50 && |old(channel)| + |batch| <= capacity ==> forall id <- rows | IsDue(rows[id], t) :: id in channel
    {
      ghost var room := capacity - |channel|;
      for i := 0 to |batch|
        invariant channel == old(channel) + batch[..Least(i, room)]
      {
        if |channel| < capacity {
          channel := channel + [batch[i]];
        }
      }
    }
  }

  // ----------------------------------------------------------------------- steps --

  /** `Send` and `Offer` are `try_send`: a message for a full channel is dropped. `Forget`
      ends a request before it sends. `Claim` is the update of a worker that took the
      message before: `stamp` is the time it read, `t` the database's own reading; in
      `ClaimFails` the update gives an error. `Vanish` ends a run without a trace: its last
      update failed. */
  datatype Step =
    | Tick(nanos: nat)
    | Insert(id: Id)
    | Send(id: Id)
    | Forget(id: Id)
    | Retire(id: Id)
    | Read(ids: seq<Id>, t: int)
    | Offer(id: Id)
    | Take
    | Claim(id: Id, r: RunId, stamp: int, t: int)
    | ClaimFails(id: Id)
    | Succeed(r: RunId)
    | Fail(r: RunId, t: int)
    | Vanish(r: RunId)
    | Restart

  function TrySend(queue: seq<Id>, id: Id): seq<Id> {
    if |queue| < CAPACITY then queue + [id] else queue
  }

  /** How a message for an envelope comes about and is sent. */
  function Dispatch(w: World, s: Step): Option<World> {
    match s
    case Insert(id) =>
      if id in w.rows then None
      else Some(w.(rows := w.rows[id := Row(Pending, None, 0, None)], unsent := w.unsent + multiset{id}))
    case Send(id) =>
      if id !in w.unsent then None
      else Some(w.(unsent := w.unsent - multiset{id}, queue := TrySend(w.queue, id)))
    case Forget(id) => if id !in w.unsent then None else Some(w.(unsent := w.unsent - multiset{id}))
    case Read(ids, t) =>
      if w.batch != multiset{} || t > Secs(w.now) || !IsBatch(w.rows, t, ids) then None
      else Some(w.(batch := multiset(ids)))
    case Offer(id) =>
      if id !in w.batch then None
      else Some(w.(batch := w.batch - multiset{id}, queue := TrySend(w.queue, id)))
    case _ => None
  }

  /** How a worker takes a message and tries to claim its envelope. */
  function Receive(w: World, s: Step): Option<World> {
    match s
    case Take =>
      if w.queue == [] || w.idle == 0 then None
      else Some(w.(queue := w.queue[1..], hands := w.hands + multiset{w.queue[0]}, idle := w.idle - 1))
    case Claim(id, r, stamp, t) =>
      if id !in w.hands || r in w.usedRuns || stamp > t || t > Secs(w.now) then None
      else if id in w.rows && Claimable(w.rows[id], t) then
        Some(w.(hands := w.hands - multiset{id}, rows := w.rows[id := Claimed(w.rows[id], stamp)],
                runs := w.runs[r := Run(id, stamp)], usedRuns := w.usedRuns + {r}))
      else Some(w.(hands := w.hands - multiset{id}, idle := w.idle + 1))
    case ClaimFails(id) =>
      if id !in w.hands then None
      else Some(w.(hands := w.hands - multiset{id}, idle := w.idle + 1))
    case _ => None
  }

  /** How a run ends. */
  function Finish(w: World, s: Step): Option<World> {
    match s
    case Succeed(r) =>
      if r !in w.runs then None
      else
        var id := w.runs[r].envelope;
        Some(w.(runs := w.runs - {r}, idle := w.idle + 1,
                rows := if id in w.rows then w.rows[id := w.rows[id].(state := Done)] else w.rows))
    case Fail(r, t) =>
      if r !in w.runs || t > Secs(w.now) then None
      else
        var id := w.runs[r].envelope;
        Some(w.(runs := w.runs - {r}, idle := w.idle + 1,
                rows := if id in w.rows then w.rows[id := MarkedFailed(w.rows[id], t)] else w.rows))
    case Vanish(r) => if r !in w.runs then None else Some(w.(runs := w.runs - {r}, idle := w.idle + 1))
    case _ => None
  }

  /** The state after a step, or nothing when the step cannot happen. */
  function Next(w: World, s: Step): Option<World> {
    match s
    case Tick(nanos) => Some(w.(now := w.now + nanos))
    case Retire(id) =>
      if id !in w.rows || !Final(w.rows[id]) then None else Some(w.(rows := w.rows - {id}))
    case Restart =>
      Some(w.(runs := map[], unsent := multiset{}, batch := multiset{}, queue := [], hands := multiset{}, idle := w.workers))
    case Insert(_) => Dispatch(w, s)
    case Send(_) => Dispatch(w, s)
    case Forget(_) => Dispatch(w, s)
    case Read(_, _) => Dispatch(w, s)
    case Offer(_) => Dispatch(w, s)
    case Take => Receive(w, s)
    case Claim(_, _, _, _) => Receive(w, s)
    case ClaimFails(_) => Receive(w, s)
    case _ => Finish(w, s)
  }

  ghost predicate Initial(w: World) {
    && w.rows == map[] && w.unsent == w.batch == w.hands == multiset{} && w.queue == []
    && w.idle == w.workers && w.runs == map[] && w.usedRuns == {}
  }

  /** `ws` are the states, `ss[i]` leads from `ws[i]` to `ws[i + 1]`. */
  ghost predicate History(ws: seq<World>, ss: seq<Step>) {
    && |ws| == |ss| + 1
    && Initial(ws[0])
    && forall i | 0 <= i < |ss| :: Next(ws[i], ss[i]) == Some(ws[i + 1])
  }

  /** No run of this envelope has outlived the stale limit. */
  ghost predicate Timely(w: World, id: Id) {
    forall r <- w.runs | w.runs[r].envelope == id :: Secs(w.now) <= w.runs[r].stamp + STALE
  }

  // ----------------------------------------------------------------------- moves --

  /** What a step does to rows and runs. */
  ghost predicate Moves(w: World, s: Step, w': World) {
    match s
    case Insert(id) =>
      id !in w.rows && w'.rows == w.rows[id := Row(Pending, None, 0, None)] && SameRuns(w, w')
    case Retire(id) => id in w.rows && Final(w.rows[id]) && w'.rows == w.rows - {id} && SameRuns(w, w')
    case Claim(id, r, stamp, t) =>
      if id in w.rows && Claimable(w.rows[id], t) then
        && r !in w.usedRuns && stamp <= t <= Secs(w.now) && w'.rows == w.rows[id := Claimed(w.rows[id], stamp)]
        && w'.runs == w.runs[r := Run(id, stamp)] && w'.usedRuns == w.usedRuns + {r}
      else w'.rows == w.rows && SameRuns(w, w')
    case Succeed(r) =>
      && EndsRun(w, w', r)
      && var id := w.runs[r].envelope;
         w'.rows == if id in w.rows then w.rows[id := w.rows[id].(state := Done)] else w.rows
    case Fail(r, t) =>
      && EndsRun(w, w', r) && t <= Secs(w.now)
      && var id := w.runs[r].envelope;
         w'.rows == if id in w.rows then w.rows[id := MarkedFailed(w.rows[id], t)] else w.rows
    case Vanish(r) => EndsRun(w, w', r) && w'.rows == w.rows
    case Restart => w'.rows == w.rows && w'.runs == map[] && w'.usedRuns == w.usedRuns
    case _ => w'.rows == w.rows && SameRuns(w, w')
  }

  ghost predicate SameRuns(w: World, w': World) {
    w'.runs == w.runs && w'.usedRuns == w.usedRuns
  }

  ghost predicate EndsRun(w: World, w': World, r: RunId) {
    r in w.runs && w'.runs == w.runs - {r} && w'.usedRuns == w.usedRuns
  }

  lemma DispatchMoves(w: World, s: Step, w': World)
    requires Dispatch(w, s) == Some(w')
    ensures Moves(w, s, w') && w'.now == w.now
  {
    hide IsBatch, TrySend, Claimable;
  }

  lemma ReceiveMoves(w: World, s: Step, w': World)
    requires Receive(w, s) == Some(w')
    ensures Moves(w, s, w') && w'.now == w.now
  {
    hide Claimable, Claimed;
  }

  lemma FinishMoves(w: World, s: Step, w': World)
    requires Finish(w, s) == Some(w')
    ensures Moves(w, s, w') && w'.now == w.now
    ensures w'.unsent == w.unsent && w'.batch == w.batch && w'.queue == w.queue && w'.hands == w.hands
  {
    hide MarkedFailed;
  }

  /** The messages on their way make no difference to that. */
  lemma StepMoves(w: World, s: Step, w': World)
    requires Next(w, s) == Some(w')
    ensures Moves(w, s, w') && w.now <= w'.now
  {
    hide Dispatch, Receive, Finish;
    if Dispatch(w, s) == Some(w') {
      DispatchMoves(w, s, w');
    } else if Receive(w, s) == Some(w') {
      ReceiveMoves(w, s, w');
    } else if Finish(w, s) == Some(w') {
      FinishMoves(w, s, w');
    }
  }

  // -------------------------------------------------------------------- counting --

  /** The step records a failure of the row. */
  predicate Fails(w: World, s: Step, id: Id) {
    s.Fail? && s.r in w.runs && w.runs[s.r].envelope == id && id in w.rows
  }

  /** The failures among the first `n` steps since the row was inserted. */
  function Failures(ws: seq<World>, ss: seq<Step>, n: nat, id: Id): nat
    requires |ws| == |ss| + 1 && n <= |ss|
  {
    if n == 0 || ss[n - 1] == Insert(id) then 0
    else Failures(ws, ss, n - 1, id) + if Fails(ws[n - 1], ss[n - 1], id) then 1 else 0
  }

  lemma AttemptsStep(w: World, s: Step, w': World, id: Id)
    requires Next(w, s) == Some(w') && id in w'.rows
    ensures if s == Insert(id) then w'.rows[id].attempts == 0
            else id in w.rows && w'.rows[id].attempts == w.rows[id].attempts + if Fails(w, s, id) then 1 else 0
  {
    StepMoves(w, s, w');
    hide Next;
  }

  /** However runs overlap, a row's attempts are exactly the failures recorded for it. */
  lemma {:induction false} AttemptsAreFailures(ws: seq<World>, ss: seq<Step>, n: nat, id: Id)
    requires History(ws, ss) && n <= |ss| && id in ws[n].rows
    ensures ws[n].rows[id].attempts == Failures(ws, ss, n, id)
  {
    hide Next;
    assert n > 0;
    AttemptsStep(ws[n - 1], ss[n - 1], ws[n], id);
    hide Fails;
    if ss[n - 1] != Insert(id) {
      AttemptsAreFailures(ws, ss, n - 1, id);
    }
  }

  /** Done and dead envelopes are never claimed nor offered. */
  lemma FinalRowsAreLeftAlone(row: Row, t: int)
    requires Final(row)
    ensures !Claimable(row, t) && !Offered(row, t)
  {
  }

  // ------------------------------------------------------------------- exclusion --

  /** A live run is the one its row was claimed by. */
  ghost predicate RunOk(w: World, r: RunId)
    requires r in w.runs
  {
    var run := w.runs[r];
    run.envelope in w.rows && w.rows[run.envelope].state == Processing && w.rows[run.envelope].startedAt == Some(run.stamp)
  }

  ghost predicate RowOk(row: Row) {
    && (row.state == Dead <==> row.attempts == LAST_ATTEMPT + 1)
    && row.attempts <= LAST_ATTEMPT + 1
  }

  ghost predicate Exclusive(w: World, id: Id) {
    && w.runs.Keys <= w.usedRuns
    && (forall r <- w.runs | w.runs[r].envelope == id :: RunOk(w, r))
    && (forall r <- w.runs, q <- w.runs :: w.runs[r].envelope == w.runs[q].envelope == id ==> r == q)
    && (id in w.rows ==> RowOk(w.rows[id]))
  }

  /** A timely run's envelope is not to be claimed. */
  lemma TooYoung(w: World, id: Id, q: RunId, t: int)
    requires Exclusive(w, id) && Timely(w, id) && q in w.runs && w.runs[q].envelope == id && t <= Secs(w.now)
    ensures id in w.rows && !Claimable(w.rows[id], t)
  {
    assert RunOk(w, q);
  }

  lemma OwnStamp(w: World, s: Step, w': World, id: Id)
    requires Moves(w, s, w') && s.Claim? && s.id == id && id in w.rows && Claimable(w.rows[id], s.t)
    ensures s.r in w'.runs && RunOk(w', s.r)
  {
  }

  lemma NewRunIsAlone(w: World, s: Step, w': World, r: RunId, id: Id)
    requires Exclusive(w, id) && Timely(w, id) && Moves(w, s, w') && r in w'.runs && w'.runs[r].envelope == id && r !in w.runs
    ensures RunOk(w', r) && s.Claim? && s.r == r && forall q <- w.runs :: w.runs[q].envelope != id
  {
    assert s.Claim? && s.r == r && s.id == id && s.t <= Secs(w.now) && id in w.rows && Claimable(w.rows[id], s.t);
    OwnStamp(w, s, w', id);
    hide Claimable;
    hide Moves;
    forall q | q in w.runs ensures w.runs[q].envelope != id {
      if w.runs[q].envelope == id {
        TooYoung(w, id, q, s.t);
      }
    }
  }

  lemma OldRunGoesOn(w: World, s: Step, w': World, r: RunId, id: Id)
    requires Exclusive(w, id) && Timely(w, id) && Moves(w, s, w') && r in w'.runs && r in w.runs && w'.runs[r].envelope == id
    ensures RunOk(w', r) && w.runs[r] == w'.runs[r]
  {
    if s.Claim? {
      hide MarkedFailed, RowOk;
      assert w.runs[r] == w'.runs[r] && RunOk(w, r);
    } else if s.Succeed? || s.Fail? {
      hide Claimable, Timely, MarkedFailed, RowOk;
      assert RunOk(w, r) && s.r != r && w.runs[s.r].envelope != id;
    } else {
      hide Claimable, Timely, MarkedFailed, RowOk;
      assert RunOk(w, r);
    }
  }

  /** A run that goes on keeps its row: it is too young for its envelope to be claimed. */
  lemma RunOkStep(w: World, s: Step, w': World, r: RunId, id: Id)
    requires Exclusive(w, id) && Timely(w, id) && Next(w, s) == Some(w') && r in w'.runs && w'.runs[r].envelope == id
    ensures RunOk(w', r)
    ensures r !in w.runs ==> s.Claim? && s.r == r && forall q <- w.runs :: w.runs[q].envelope != id
    ensures r in w.runs ==> w.runs[r] == w'.runs[r]
  {
    StepMoves(w, s, w');
    hide Next, Moves, Exclusive, Timely, RunOk;
    if r in w.runs {
      OldRunGoesOn(w, s, w', r, id);
    } else {
      NewRunIsAlone(w, s, w', r, id);
    }
  }

  lemma RowOkStep(w: World, s: Step, w': World, id: Id)
    requires Exclusive(w, id) && Next(w, s) == Some(w')
    ensures id in w'.rows ==> RowOk(w'.rows[id])
    ensures w'.runs.Keys <= w'.usedRuns
  {
    StepMoves(w, s, w');
    hide Next;
    if (s.Succeed? || s.Fail?) && w.runs[s.r].envelope == id {
      assert RunOk(w, s.r);
    }
  }

  lemma ExclusiveStep(w: World, s: Step, w': World, id: Id)
    requires Exclusive(w, id) && Timely(w, id) && Next(w, s) == Some(w')
    ensures Exclusive(w', id)
  {
    hide Next, Timely;
    RowOkStep(w, s, w', id);
    forall r <- w'.runs | w'.runs[r].envelope == id
      ensures RunOk(w', r)
      ensures r !in w.runs ==> s.Claim? && s.r == r && forall q <- w.runs :: w.runs[q].envelope != id
      ensures r in w.runs ==> w.runs[r] == w'.runs[r]
    {
      RunOkStep(w, s, w', r, id);
    }
    hide RunOk, RowOk;
  }

  lemma {:induction false} AlwaysExclusive(ws: seq<World>, ss: seq<Step>, n: nat, id: Id)
    requires History(ws, ss) && n < |ws|
    requires forall i | 0 <= i < n :: Timely(ws[i], id)
    ensures Exclusive(ws[n], id)
  {
    hide Next, Timely;
    if n > 0 {
      AlwaysExclusive(ws, ss, n - 1, id);
      ExclusiveStep(ws[n - 1], ss[n - 1], ws[n], id);
    }
  }

  /** If no run of an envelope outlives the stale limit, no two runs work on it. */
  lemma OneRunPerEnvelope(ws: seq<World>, ss: seq<Step>, n: nat, id: Id, r: RunId, q: RunId)
    requires History(ws, ss) && n < |ws|
    requires forall i | 0 <= i < n :: Timely(ws[i], id)
    requires r in ws[n].runs && q in ws[n].runs && ws[n].runs[r].envelope == ws[n].runs[q].envelope == id
    ensures r == q
  {
    AlwaysExclusive(ws, ss, n, id);
  }

  /** And then the fifth failure, and only it, makes an envelope dead. */
  lemma FifthFailureIsDeath(ws: seq<World>, ss: seq<Step>, n: nat, id: Id)
    requires History(ws, ss) && n <= |ss| && id in ws[n].rows
    requires forall i | 0 <= i < n :: Timely(ws[i], id)
    ensures Failures(ws, ss, n, id) <= 5
    ensures ws[n].rows[id].state == Dead <==> Failures(ws, ss, n, id) == 5
  {
    AlwaysExclusive(ws, ss, n, id);
    AttemptsAreFailures(ws, ss, n, id);
  }

  /** And done and dead rows stay as they are until they are retired. */
  lemma FinalRowsStay(ws: seq<World>, ss: seq<Step>, n: nat, id: Id)
    requires History(ws, ss) && n < |ss| && id in ws[n].rows && Final(ws[n].rows[id])
    requires forall i | 0 <= i < n :: Timely(ws[i], id)
    ensures Entry(ws[n + 1].rows, id) == (if ss[n] == Retire(id) then None else Entry(ws[n].rows, id))
  {
    AlwaysExclusive(ws, ss, n, id);
    FinalRowStep(ws[n], ss[n], ws[n + 1], id);
  }

  lemma FinalRowStep(w: World, s: Step, w': World, id: Id)
    requires Exclusive(w, id) && Next(w, s) == Some(w') && id in w.rows && Final(w.rows[id])
    ensures Entry(w'.rows, id) == (if s == Retire(id) then None else Entry(w.rows, id))
  {
    StepMoves(w, s, w');
    hide Next;
  }
}
