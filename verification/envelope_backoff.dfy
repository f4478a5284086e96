/** When a failed envelope is tried again: what the delays hold back, and what they do not. */
module EnvelopeBackoff {
  import opened EnvelopeRetry
  import opened Wrappers

  /** Step `i` failed the row for the last time before `n`, and nothing changed it since. */
  ghost predicate LastFailedAt(ws: seq<World>, ss: seq<Step>, i: nat, n: nat, id: Id)
    requires |ws| == |ss| + 1
  {
    && i < n <= |ss| && Fails(ws[i], ss[i], id) && ws[i].rows[id].attempts < LAST_ATTEMPT
    && forall k | i < k <= n :: Entry(ws[k].rows, id) == Some(MarkedFailed(ws[i].rows[id], ss[i].t))
  }

  lemma FailedStep(w: World, s: Step, w': World, id: Id)
    requires Next(w, s) == Some(w') && id in w'.rows && w'.rows[id].state == Failed
    ensures || (id in w.rows && w'.rows[id] == w.rows[id])
            || (Fails(w, s, id) && w.rows[id].attempts < LAST_ATTEMPT && w'.rows[id] == MarkedFailed(w.rows[id], s.t))
  {
    StepMoves(w, s, w');
    hide Next;
  }

  lemma {:induction false} FailedRowsWait(ws: seq<World>, ss: seq<Step>, n: nat, id: Id) returns (i: nat)
    requires History(ws, ss) && n <= |ss| && id in ws[n].rows && ws[n].rows[id].state == Failed
    ensures LastFailedAt(ws, ss, i, n, id)
  {
    assert n > 0;
    FailedStep(ws[n - 1], ss[n - 1], ws[n], id);
    hide Next, MarkedFailed, Fails;
    if id in ws[n - 1].rows && ws[n].rows[id] == ws[n - 1].rows[id] {
      i := FailedRowsWait(ws, ss, n - 1, id);
    } else {
      i := n - 1;
    }
  }

  // ------------------------------------------------------------------- the poller --

  lemma OfferedIsDue(row: Row, t: int)
    ensures Offered(row, t) <==> IsDue(row, t)
  {
  }

  /** The poller reads only envelopes that are due, and if it reads less than 50, all of them. */
  lemma ReadsAreDue(ws: seq<World>, ss: seq<Step>, n: nat, id: Id)
    requires History(ws, ss) && n < |ss| && ss[n].Read? && id in ws[n].rows
    ensures id in ss[n].ids ==> IsDue(ws[n].rows[id], ss[n].t)
    ensures |ss[n].ids| < 50 && IsDue(ws[n].rows[id], ss[n].t) ==> id in ss[n].ids
  {
    OfferedIsDue(ws[n].rows[id], ss[n].t);
    assert Next(ws[n], ss[n]) == Some(ws[n + 1]);
  }

  /** The times in a row are past, or at most the longest delay away. */
  ghost predicate Dated(w: World, id: Id) {
    id in w.rows ==>
      match w.rows[id].state
      case Pending => w.rows[id].nextAttemptAt.None?
      case Processing => w.rows[id].startedAt.Some? && w.rows[id].startedAt.value <= Secs(w.now)
      case Failed => w.rows[id].nextAttemptAt.Some? && w.rows[id].nextAttemptAt.value <= Secs(w.now) + 40
      case _ => true
  }

  lemma FailDated(w: World, s: Step, w': World, id: Id)
    requires s.Fail? && Dated(w, id) && Moves(w, s, w') && w.now <= w'.now
    ensures Dated(w', id)
  {
    hide Delay, Claimable;
    if s.r in w.runs && w.runs[s.r].envelope == id && id in w.rows && w.rows[id].attempts < LAST_ATTEMPT {
      DelaysDouble(w.rows[id].attempts);
    }
  }

  lemma OthersDated(w: World, s: Step, w': World, id: Id)
    requires !s.Fail? && Dated(w, id) && Moves(w, s, w') && w.now <= w'.now && (s.Claim? ==> s.stamp <= Secs(w.now))
    ensures Dated(w', id)
  {
    hide MarkedFailed, Claimable;
  }

  lemma DatedStep(w: World, s: Step, w': World, id: Id)
    requires Dated(w, id) && Next(w, s) == Some(w')
    ensures Dated(w', id)
  {
    StepMoves(w, s, w');
    ClaimsArePast(w, s, w');
    hide Next, Moves, Dated;
    if s.Fail? {
      FailDated(w, s, w', id);
    } else {
      OthersDated(w, s, w', id);
    }
  }

  lemma ClaimsArePast(w: World, s: Step, w': World)
    requires Next(w, s) == Some(w')
    ensures s.Claim? ==> s.stamp <= Secs(w.now)
  {
  }

  lemma {:induction false} RowsAreDated(ws: seq<World>, ss: seq<Step>, n: nat, id: Id)
    requires History(ws, ss) && n <= |ss|
    ensures Dated(ws[n], id)
  {
    hide Next;
    if n > 0 {
      hide Dated;
      RowsAreDated(ws, ss, n - 1, id);
      DatedStep(ws[n - 1], ss[n - 1], ws[n], id);
    }
  }

  /** No envelope is stranded: one that is neither done nor dead and that nothing has touched
      for a minute, because its worker died, its message was lost or the server restarted,
      is in the next read that is not full. */
  lemma StrandedEnvelopesAreRead(ws: seq<World>, ss: seq<Step>, k: nat, n: nat, id: Id)
    requires History(ws, ss) && k <= n < |ss| && ss[n].Read? && |ss[n].ids| < 50 && ss[n].t > Secs(ws[k].now) + 60
    requires id in ws[n].rows && Entry(ws[k].rows, id) == Entry(ws[n].rows, id)
    requires ws[n].rows[id].state != Done && ws[n].rows[id].state != Dead
    ensures id in ss[n].ids
  {
    hide Next;
    RowsAreDated(ws, ss, k, id);
    ReadsAreDue(ws, ss, n, id);
  }

  /** The poller never reads a failed envelope before its time: at least 5 seconds after
      its first failure was recorded, 10 after the second, 20 after the third, 40 after
      the fourth. */
  lemma FailedEnvelopesAreOfferedLate(ws: seq<World>, ss: seq<Step>, n: nat, id: Id) returns (i: nat)
    requires History(ws, ss) && n < |ss|
    requires ss[n].Read? && id in ss[n].ids && id in ws[n].rows && ws[n].rows[id].state == Failed
    ensures LastFailedAt(ws, ss, i, n, id)
    ensures ss[n].t >= ss[i].t + 5 * Pow2(ws[i].rows[id].attempts)
  {
    i := FailedRowsWait(ws, ss, n, id);
    assert Next(ws[n], ss[n]) == Some(ws[n + 1]);
    DelaysDouble(ws[i].rows[id].attempts);
  }

  /** The row failed, and its time has not come. */
  predicate BacksOff(w: World, id: Id) {
    id in w.rows && w.rows[id].state == Failed && !Due(w.rows[id], Secs(w.now))
  }

  /** The messages for an envelope on their way to a claim. */
  function Outstanding(w: World, id: Id): nat {
    w.unsent[id] + w.batch[id] + multiset(w.queue)[id] + w.hands[id]
  }

  /** Step `n` claims the envelope before its time. */
  ghost predicate ClaimsEarly(ws: seq<World>, ss: seq<Step>, n: nat, id: Id)
    requires |ws| == |ss| + 1
  {
    && n < |ss| && ss[n].Claim? && ss[n].id == id && BacksOff(ws[n], id)
    && id in ws[n + 1].rows && ws[n + 1].rows[id].state == Processing
  }

  lemma TakeFirst(queue: seq<Id>)
    requires queue != []
    ensures multiset(queue) == multiset{queue[0]} + multiset(queue[1..])
  {
    assert queue == [queue[0]] + queue[1..];
  }

  ghost predicate Fewer(w: World, w': World, id: Id) {
    Outstanding(w', id) <= Outstanding(w, id) && w'.unsent[id] <= w.unsent[id] && w'.batch[id] <= w.batch[id]
  }

  lemma ReadOutstanding(w: World, s: Step, w': World, id: Id)
    requires s.Read? && Dispatch(w, s) == Some(w') && BacksOff(w, id)
    ensures Fewer(w, w', id)
  {
    hide Secs;
    assert id !in s.ids && multiset(s.ids)[id] == 0;
  }

  lemma DispatchOutstanding(w: World, s: Step, w': World, id: Id)
    requires Dispatch(w, s) == Some(w') && BacksOff(w, id)
    ensures Fewer(w, w', id)
  {
    if s.Read? {
      ReadOutstanding(w, s, w', id);
    } else if s.Insert? {
      hide IsBatch, Offered, TrySend;
    } else if s.Forget? {
      hide IsBatch, Offered, TrySend, BacksOff;
    } else {
      hide IsBatch, Offered, BacksOff;
      SendOutstanding(w, s, w', id);
    }
  }

  /** A message only goes from one place to the next, or is dropped. */
  lemma SendOutstanding(w: World, s: Step, w': World, id: Id)
    requires (s.Send? || s.Offer?) && Dispatch(w, s) == Some(w')
    ensures Fewer(w, w', id)
  {
    hide IsBatch;
    assert multiset(w.queue + [s.id]) == multiset(w.queue) + multiset{s.id};
  }

  lemma ReceiveOutstanding(w: World, s: Step, w': World, id: Id)
    requires Receive(w, s) == Some(w')
    ensures Fewer(w, w', id)
  {
    hide Claimable;
    if s.Take? { TakeFirst(w.queue); }
  }

  /** While it backs off, an envelope's messages become fewer and only move on. */
  lemma OutstandingStep(w: World, s: Step, w': World, id: Id)
    requires Next(w, s) == Some(w') && BacksOff(w, id)
    ensures Fewer(w, w', id)
  {
    hide Dispatch, Receive, Finish, BacksOff;
    if Dispatch(w, s) == Some(w') {
      DispatchOutstanding(w, s, w', id);
    } else if Receive(w, s) == Some(w') {
      ReceiveOutstanding(w, s, w', id);
    } else if Finish(w, s) == Some(w') {
      hide Moves;
      FinishMoves(w, s, w');
    }
  }

  lemma {:induction false} OutstandingShrinks(ws: seq<World>, ss: seq<Step>, i: nat, k: nat, n: nat, id: Id)
    requires History(ws, ss) && LastFailedAt(ws, ss, i, n, id) && i < k <= n && BacksOff(ws[n], id)
    ensures Outstanding(ws[n], id) <= Outstanding(ws[k], id) && BacksOff(ws[k], id)
    ensures ws[n].unsent[id] <= ws[k].unsent[id] && ws[n].batch[id] <= ws[k].batch[id]
    decreases n - k
  {
    hide Next, Moves, MarkedFailed, Fails, Outstanding;
    assert Entry(ws[k].rows, id) == Entry(ws[n].rows, id);
    if k < n {
      OutstandingShrinks(ws, ss, i, k + 1, n, id);
      StepMoves(ws[k], ss[k], ws[k + 1]);
      assert Entry(ws[k].rows, id) == Entry(ws[k + 1].rows, id);
      OutstandingStep(ws[k], ss[k], ws[k + 1], id);
    }
  }

  /** A worker only claims a failed envelope before its time if a message for it was on its
      way when the failure was recorded. */
  lemma EarlyClaimsWereOutstanding(ws: seq<World>, ss: seq<Step>, n: nat, id: Id) returns (i: nat)
    requires History(ws, ss) && ClaimsEarly(ws, ss, n, id)
    ensures LastFailedAt(ws, ss, i, n, id) && Outstanding(ws[i + 1], id) > 0
  {
    i := FailedRowsWait(ws, ss, n, id);
    OutstandingShrinks(ws, ss, i, i + 1, n, id);
    assert Next(ws[n], ss[n]) == Some(ws[n + 1]);
  }

  /** And the poller only sends one before its time if it had read the row before the
      failure was recorded. */
  lemma EarlyOffersWereRead(ws: seq<World>, ss: seq<Step>, n: nat, id: Id) returns (i: nat)
    requires History(ws, ss) && n < |ss| && ss[n] == Offer(id) && BacksOff(ws[n], id)
    ensures LastFailedAt(ws, ss, i, n, id) && id in ws[i + 1].batch
  {
    i := FailedRowsWait(ws, ss, n, id);
    OutstandingShrinks(ws, ss, i, i + 1, n, id);
    assert Next(ws[n], ss[n]) == Some(ws[n + 1]);
  }

  // ------------------------------------------------------- when a backoff holds --

  lemma {:induction false} FreshRun(used: set<RunId>) returns (r: RunId)
    ensures forall q <- used :: q < r
    decreases used
  {
    r := 0;
    if q :| q in used {
      var m := FreshRun(used - {q});
      r := if q < m then m else q + 1;
      assert forall p <- used :: p == q || p in used - {q};
    }
  }

  lemma Extended(ws: seq<World>, ss: seq<Step>, s: Step, w: World)
    requires History(ws, ss) && Next(ws[|ws| - 1], s) == Some(w)
    ensures History(ws + [w], ss + [s])
  {
  }

  /** A history that goes on from step `n`, with no time passing, no failure and nothing
      happening to the envelope. */
  ghost predicate Quiet(ws: seq<World>, ss: seq<Step>, n: nat, id: Id) {
    && History(ws, ss) && n <= |ss|
    && forall k | n <= k <= |ss| :: ws[k].now == ws[n].now && Entry(ws[k].rows, id) == Entry(ws[n].rows, id)
  }

  ghost predicate Continues(ws: seq<World>, ss: seq<Step>, vs: seq<World>, ts: seq<Step>) {
    |ws| <= |vs| && |ss| <= |ts| && vs[..|ws|] == ws && ts[..|ss|] == ss
  }

  lemma Onward(ws: seq<World>, ss: seq<Step>, n: nat, id: Id, s: Step, w: World)
    requires Quiet(ws, ss, n, id) && Next(ws[|ss|], s) == Some(w)
    requires w.now == ws[|ss|].now && Entry(w.rows, id) == Entry(ws[|ss|].rows, id)
    ensures Quiet(ws + [w], ss + [s], n, id)
  {
    Extended(ws, ss, s, w);
    hide Next;
    forall k | n <= k <= |ss| + 1
      ensures (ws + [w])[k].now == ws[n].now && Entry((ws + [w])[k].rows, id) == Entry(ws[n].rows, id)
    {
      assert ws[|ss|].now == ws[n].now && Entry(ws[|ss|].rows, id) == Entry(ws[n].rows, id);
    }
  }

  /** A worker without anything to do takes the first message. */
  lemma TakeOne(ws: seq<World>, ss: seq<Step>, n: nat, id: Id) returns (vs: seq<World>, ts: seq<Step>)
    requires Quiet(ws, ss, n, id) && ws[|ss|].queue != [] && ws[|ss|].idle > 0
    ensures Quiet(vs, ts, n, id) && Continues(ws, ss, vs, ts) && |vs| == |ws| + 1
    ensures var w, v := ws[|ss|], vs[|ts|];
            && v == w.(queue := w.queue[1..], hands := w.hands + multiset{w.queue[0]}, idle := w.idle - 1)
  {
    var v := Next(ws[|ss|], Take).value;
    vs, ts := ws + [v], ss + [Take];
    Onward(ws, ss, n, id, Take, v);
  }

  /** A worker with another envelope's message in hand is done with it. */
  lemma Handle(ws: seq<World>, ss: seq<Step>, n: nat, id: Id, other: Id) returns (vs: seq<World>, ts: seq<Step>)
    requires Quiet(ws, ss, n, id) && other in ws[|ss|].hands && other != id
    ensures Quiet(vs, ts, n, id) && Continues(ws, ss, vs, ts)
    ensures var w, v := ws[|ss|], vs[|ts|];
            && v.queue == w.queue && v.unsent == w.unsent && v.batch == w.batch
            && v.hands == w.hands - multiset{other} && v.idle == w.idle + 1
  {
    var w := ws[|ss|];
    var r := FreshRun(w.usedRuns);
    var claim := Claim(other, r, Secs(w.now), Secs(w.now));
    var u := Next(w, claim).value;
    vs, ts := ws + [u], ss + [claim];
    Onward(ws, ss, n, id, claim, u);
    if r in u.runs && u.idle == w.idle {
      var v := Next(u, Succeed(r)).value;
      assert vs[|ts|] == u;
      Onward(vs, ts, n, id, Succeed(r), v);
      vs, ts := vs + [v], ts + [Succeed(r)];
    }
  }

  lemma ContinuesTrans(ws: seq<World>, ss: seq<Step>, vs: seq<World>, ts: seq<Step>, us: seq<World>, rs: seq<Step>)
    requires Continues(ws, ss, vs, ts) && Continues(vs, ts, us, rs)
    ensures Continues(ws, ss, us, rs)
  {
    assert us[..|ws|] == us[..|vs|][..|ws|] && rs[..|ss|] == rs[..|ts|][..|ss|];
  }

  /** A message in the channel comes into a worker's hands. */
  lemma {:induction false} Arrives(ws: seq<World>, ss: seq<Step>, n: nat, id: Id) returns (vs: seq<World>, ts: seq<Step>)
    requires Quiet(ws, ss, n, id) && id in ws[|ss|].queue && ws[|ss|].idle > 0
    ensures Quiet(vs, ts, n, id) && Continues(ws, ss, vs, ts) && id in vs[|ts|].hands
    decreases |ws[|ss|].queue|
  {
    assert |ws| == |ss| + 1;
    hide Next, History, Quiet, Continues;
    var first := ws[|ss|].queue[0];
    vs, ts := TakeOne(ws, ss, n, id);
    if first != id {
      assert id in ws[|ss|].queue[1..];
      var us, rs := Handle(vs, ts, n, id, first);
      ContinuesTrans(ws, ss, vs, ts, us, rs);
      vs, ts := Arrives(us, rs, n, id);
      ContinuesTrans(ws, ss, us, rs, vs, ts);
    }
  }

  /** There comes to be room in the channel. */
  lemma MakeRoom(ws: seq<World>, ss: seq<Step>, n: nat, id: Id) returns (vs: seq<World>, ts: seq<Step>)
    requires Quiet(ws, ss, n, id) && ws[|ss|].idle > 0 && id !in ws[|ss|].queue && |ws[|ss|].queue| <= CAPACITY
    ensures Quiet(vs, ts, n, id) && Continues(ws, ss, vs, ts)
    ensures var w, v := ws[|ss|], vs[|ts|];
            v.unsent == w.unsent && v.batch == w.batch && v.idle > 0 && |v.queue| < CAPACITY
  {
    vs, ts := ws, ss;
    var queue := ws[|ss|].queue;
    if |queue| == CAPACITY {
      assert queue[0] in queue;
      hide Next, History, Quiet, Continues;
      vs, ts := TakeOne(ws, ss, n, id);
      var us, rs := Handle(vs, ts, n, id, queue[0]);
      ContinuesTrans(ws, ss, vs, ts, us, rs);
      vs, ts := us, rs;
    }
  }

  /** A message still to be sent comes into the channel. */
  lemma IsSent(ws: seq<World>, ss: seq<Step>, n: nat, id: Id) returns (vs: seq<World>, ts: seq<Step>)
    requires Quiet(ws, ss, n, id) && (id in ws[|ss|].unsent || id in ws[|ss|].batch)
    requires ws[|ss|].idle > 0 && id !in ws[|ss|].queue && |ws[|ss|].queue| <= CAPACITY
    ensures Quiet(vs, ts, n, id) && Continues(ws, ss, vs, ts) && id in vs[|ts|].queue && vs[|ts|].idle > 0
  {
    var us, rs := MakeRoom(ws, ss, n, id);
    var u := us[|rs|];
    var s := if id in u.unsent then Send(id) else Offer(id);
    var v := Next(u, s).value;
    Onward(us, rs, n, id, s, v);
    vs, ts := us + [v], rs + [s];
    hide Next, History, Quiet;
    assert v.queue[|u.queue|] == id;
    assert Continues(us, rs, vs, ts);
    ContinuesTrans(ws, ss, us, rs, vs, ts);
  }

  lemma {:induction false} ChannelIsBounded(ws: seq<World>, ss: seq<Step>, n: nat)
    requires History(ws, ss) && n <= |ss|
    ensures |ws[n].queue| <= CAPACITY
  {
    if n > 0 {
      ChannelIsBounded(ws, ss, n - 1);
      ChannelStep(ws[n - 1], ss[n - 1], ws[n]);
    }
  }

  lemma ChannelStep(w: World, s: Step, w': World)
    requires Next(w, s) == Some(w') && |w.queue| <= CAPACITY
    ensures |w'.queue| <= CAPACITY
  {
  }

  /** Wherever the message is, a worker can come to hold it. */
  lemma ComesToHand(ws: seq<World>, ss: seq<Step>, id: Id) returns (vs: seq<World>, ts: seq<Step>)
    requires History(ws, ss) && Outstanding(ws[|ss|], id) > 0 && ws[|ss|].idle > 0
    ensures Quiet(vs, ts, |ss|, id) && Continues(ws, ss, vs, ts) && id in vs[|ts|].hands
  {
    vs, ts := ws, ss;
    ChannelIsBounded(ws, ss, |ss|);
    assert Quiet(ws, ss, |ss|, id) && Continues(ws, ss, vs, ts);
    hide Next, History, Quiet, Continues;
    var w := ws[|ss|];
    if id !in w.hands {
      if id !in w.queue {
        vs, ts := IsSent(ws, ss, |ss|, id);
      }
      var us, rs := Arrives(vs, ts, |ss|, id);
      ContinuesTrans(ws, ss, vs, ts, us, rs);
      vs, ts := us, rs;
    }
  }

  /** The history goes on in such a way that the failure just recorded is skipped. */
  ghost predicate CanSkip(ws: seq<World>, ss: seq<Step>, id: Id)
    requires |ws| == |ss| + 1 && ss != []
  {
    exists vs, ts :: Continues(ws, ss, vs, ts) && IsSkipped(vs, ts, |ss| - 1, id)
  }

  /** Step `n` claims the envelope before its time after step `i` failed it. */
  ghost predicate Skips(ws: seq<World>, ss: seq<Step>, i: nat, n: nat, id: Id) {
    History(ws, ss) && ClaimsEarly(ws, ss, n, id) && LastFailedAt(ws, ss, i, n, id)
  }

  ghost predicate IsSkipped(ws: seq<World>, ss: seq<Step>, i: nat, id: Id) {
    exists n: nat :: Skips(ws, ss, i, n, id)
  }

  /** So the backoff of a failure holds, whatever happens next, exactly if no message for
      the envelope is on its way when the failure is recorded. */
  lemma BackoffHoldsUnlessOutstanding(ws: seq<World>, ss: seq<Step>, id: Id)
    requires History(ws, ss) && ss != [] && LastFailedAt(ws, ss, |ss| - 1, |ss|, id) && BacksOff(ws[|ss|], id)
    ensures CanSkip(ws, ss, id) <==> Outstanding(ws[|ss|], id) > 0
  {
    if CanSkip(ws, ss, id) {
      var vs: seq<World>, ts: seq<Step> :| Continues(ws, ss, vs, ts) && IsSkipped(vs, ts, |ss| - 1, id);
      var n: nat :| Skips(vs, ts, |ss| - 1, n, id);
      SkippedWasOutstanding(ws, ss, vs, ts, n, id);
    }
    if Outstanding(ws[|ss|], id) > 0 {
      OutstandingCanSkip(ws, ss, id);
    }
  }

  lemma SkippedWasOutstanding(ws: seq<World>, ss: seq<Step>, vs: seq<World>, ts: seq<Step>, n: nat, id: Id)
    requires |ws| == |ss| + 1 && ss != [] && Skips(vs, ts, |ss| - 1, n, id) && Continues(ws, ss, vs, ts)
    ensures Outstanding(ws[|ss|], id) > 0
  {
    OutstandingShrinks(vs, ts, |ss| - 1, |ss|, n, id);
    assert Next(vs[n], ts[n]) == Some(vs[n + 1]);
    assert vs[|ss|] == vs[..|ws|][|ss|] == ws[|ss|];
  }

  lemma StillFailed(ws: seq<World>, ss: seq<Step>, vs: seq<World>, ts: seq<Step>, id: Id)
    requires History(ws, ss) && ss != [] && LastFailedAt(ws, ss, |ss| - 1, |ss|, id) && BacksOff(ws[|ss|], id)
    requires Quiet(vs, ts, |ss|, id) && Continues(ws, ss, vs, ts)
    ensures LastFailedAt(vs, ts, |ss| - 1, |ts|, id) && BacksOff(vs[|ts|], id)
  {
    hide Next, MarkedFailed, Fails;
    var i := |ss| - 1;
    assert vs[i] == vs[..|ws|][i] == ws[i] && vs[i + 1] == vs[..|ws|][i + 1] == ws[i + 1] && ts[i] == ts[..|ss|][i] == ss[i];
    assert Entry(vs[|ts|].rows, id) == Entry(vs[|ss|].rows, id);
  }

  lemma OutstandingCanSkip(ws: seq<World>, ss: seq<Step>, id: Id)
    requires History(ws, ss) && ss != [] && LastFailedAt(ws, ss, |ss| - 1, |ss|, id) && BacksOff(ws[|ss|], id)
    requires Outstanding(ws[|ss|], id) > 0
    ensures CanSkip(ws, ss, id)
  {
    assert Next(ws[|ss| - 1], ss[|ss| - 1]) == Some(ws[|ss|]);
    var vs, ts := ComesToHand(ws, ss, id);
    StillFailed(ws, ss, vs, ts, id);
    ClaimsInHand(vs, ts, |ss| - 1, id);
    var v := vs[|ts|];
    var us, rs :| Skips(us, rs, |ss| - 1, |ts|, id) && Continues(vs, ts, us, rs);
    hide Skips;
    ContinuesTrans(ws, ss, vs, ts, us, rs);
  }

  /** A worker with the message in hand claims the envelope, and need not wait. */
  lemma ClaimsInHand(ws: seq<World>, ss: seq<Step>, i: nat, id: Id)
    requires History(ws, ss) && id in ws[|ss|].hands && LastFailedAt(ws, ss, i, |ss|, id) && BacksOff(ws[|ss|], id)
    ensures exists vs, ts | Skips(vs, ts, i, |ss|, id) :: Continues(ws, ss, vs, ts)
  {
    var w := ws[|ss|];
    var r := FreshRun(w.usedRuns);
    var s := Claim(id, r, Secs(w.now), Secs(w.now));
    var v := Next(w, s).value;
    Extended(ws, ss, s, v);
    var vs, ts := ws + [v], ss + [s];
    assert vs[|ss|] == w && vs[|ss| + 1] == v && ts[|ss|] == s;
    assert ClaimsEarly(vs, ts, |ss|, id);
    hide Next, MarkedFailed, Fails, ClaimsEarly, History;
    assert vs[i] == ws[i] && ts[i] == ss[i];
    assert LastFailedAt(vs, ts, i, |ss|, id);
    assert Skips(vs, ts, i, |ss|, id) && Continues(ws, ss, vs, ts);
  }
}
