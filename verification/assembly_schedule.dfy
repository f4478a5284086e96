/** Leases and queue order against the clock: prompt workers convert alone, and a
    queued row is overtaken at most once by each other row. */
module AssemblySchedule {
  import opened Wrappers
  import opened Octets
  import opened StagingDisk
  import opened AssemblyTable
  import opened AssemblyMachine
  import opened AssemblyMoves
  import opened AssemblySafety
  import opened AssemblyChunks
  import opened AssemblyRuns
  import opened AssemblyLease

  // --------------------------------------------------------------- exclusion --

  /** Between the claim and the publish. */
  predicate AtWork(w: World, o: Owner) {
    o in w.workers && !w.workers[o].phase.Cleaning?
  }

  /** The worker, while at work, is at most LEASE_SECONDS past its last lease write. */
  ghost predicate Prompt(w: World, o: Owner) {
    AtWork(w, o) ==> Secs(w.now) <= w.workers[o].renewedAt + LEASE_SECONDS
  }

  ghost predicate HoldsOwn(w: World, o: Owner)
    requires o in w.workers
  {
    var me := w.workers[o];
    Holds(w.rows, me.id, o) && w.rows[me.id].leaseUntil == Some(me.renewedAt + LEASE_SECONDS)
  }

  lemma OwnLeaseStep(env: Env, w: World, o: Owner, work: WorkerAct, q: Worker, e: Effect)
    requires o in w.workers && Possible(w, e) && WorkerMoves(env, w, o, w.workers[o], work, Some(q), e)
    requires AtWork(w, o) ==> HoldsOwn(w, o)
    ensures !q.phase.Cleaning? ==>
              Holds(Apply(w, e).rows, q.id, o) && Apply(w, e).rows[q.id].leaseUntil == Some(q.renewedAt + LEASE_SECONDS)
  {
  }

  /** A lease that has not run out is not taken over, and no other statement ends it. */
  lemma OthersLeaseStep(rows: Table, stmt: Statement, o: Owner, id: Id, until: int, now: int)
    requires Allowed(rows, stmt) && Holds(rows, id, o) && rows[id].leaseUntil == Some(until) && now <= until
    requires stmt.ClaimRow? ==> stmt.t <= now
    requires stmt.RenewRow? || stmt.PublishRow? ==> stmt.owner != o
    ensures Holds(Execute(rows, stmt), id, o) && Execute(rows, stmt)[id].leaseUntil == Some(until)
  {
  }

  /** Lease writes are made by their own workers, with readings not after the present. */
  lemma LeaseWritesAreSigned(env: Env, w: World, s: Step, e: Effect, w': World)
    requires Moves(env, w, s, e, w') && e.Sql?
    ensures e.stmt.RenewRow? || e.stmt.PublishRow? ==> s.ByWorker? && e.stmt.owner == s.o
    ensures e.stmt.ClaimRow? ==> s.TakeJob? && e.stmt.t <= Secs(w.now)
  {
  }

  lemma ExclusiveMoves(env: Env, w: World, s: Step, e: Effect, w': World, o: Owner)
    requires Prompt(w, o) && (AtWork(w, o) ==> HoldsOwn(w, o)) && Moves(env, w, s, e, w')
    ensures AtWork(w', o) ==> HoldsOwn(w', o)
  {
    hide ClientMoves, WorkerMoves, CleanerMoves;
    if AtWork(w', o) {
      if s.ByWorker? && s.o == o {
        OwnLeaseStep(env, w, o, s.work, w'.workers[o], e);
      } else if o in w.workers && e.Sql? && !(s.TakeJob? && s.o == o) {
        LeaseWritesAreSigned(env, w, s, e, w');
        OthersLeaseStep(w.rows, e.stmt, o, w.workers[o].id, w.workers[o].renewedAt + LEASE_SECONDS, Secs(w.now));
      }
    }
  }

  /** A worker that has always written its lease in time holds it, from its claim to its
      publish, whatever the other workers do. */
  lemma {:induction false} PromptWorkersHoldTheirLeases(env: Env, ws: seq<World>, ss: seq<Step>, n: nat, o: Owner)
    requires Run(env, ws, ss) && n < |ws|
    requires forall i | 0 <= i < n :: Prompt(ws[i], o)
    ensures AtWork(ws[n], o) ==> HoldsOwn(ws[n], o)
  {
    hide Next, Moves, HoldsOwn, Prompt, AtWork;
    if n > 0 {
      PromptWorkersHoldTheirLeases(env, ws, ss, n - 1, o);
      var e := StepMoves(env, ws[n - 1], ss[n - 1], ws[n]);
      ExclusiveMoves(env, ws[n - 1], ss[n - 1], e, ws[n], o);
    } else {
      NobodyAtWork(ws[0], o);
    }
  }

  lemma NobodyAtWork(w: World, o: Owner)
    requires Initial(w)
    ensures !AtWork(w, o)
  {
  }

  /** So two workers that do never convert the same row at a time. */
  lemma OneWorkerPerJob(env: Env, ws: seq<World>, ss: seq<Step>, n: nat, o: Owner, p: Owner)
    requires Run(env, ws, ss) && n < |ws|
    requires forall i | 0 <= i < n :: Prompt(ws[i], o) && Prompt(ws[i], p)
    requires AtWork(ws[n], o) && AtWork(ws[n], p) && ws[n].workers[o].id == ws[n].workers[p].id
    ensures o == p
  {
    hide Next, Initial, Prompt;
    PromptWorkersHoldTheirLeases(env, ws, ss, n, o);
    PromptWorkersHoldTheirLeases(env, ws, ss, n, p);
  }

  /** Such a worker, while it converts, can always renew its lease. */
  lemma WorkersCanRenew(env: Env, ws: seq<World>, ss: seq<Step>, n: nat, o: Owner) returns (w': World)
    requires Run(env, ws, ss) && n < |ws| && o in ws[n].workers && !ws[n].workers[o].lost
    requires ws[n].workers[o].phase.Reading? || ws[n].workers[o].phase.Storing?
    requires forall i | 0 <= i < n :: Prompt(ws[i], o)
    ensures Next(env, ws[n], ByWorker(o, Heartbeat(Secs(ws[n].now)))) == Some(w')
    ensures var id := ws[n].workers[o].id;
            && id in w'.rows && w'.rows == ws[n].rows[id := ws[n].rows[id].(leaseUntil := Some(Secs(ws[n].now) + LEASE_SECONDS))]
            && o in w'.workers && w'.workers[o].renewedAt == Secs(ws[n].now)
  {
    PromptWorkersHoldTheirLeases(env, ws, ss, n, o);
    w' := Renews(env, ws[n], o);
  }

  lemma Renews(env: Env, w: World, o: Owner) returns (w': World)
    requires AtWork(w, o) && HoldsOwn(w, o) && !w.workers[o].lost && (w.workers[o].phase.Reading? || w.workers[o].phase.Storing?)
    ensures Next(env, w, ByWorker(o, Heartbeat(Secs(w.now)))) == Some(w')
    ensures var id := w.workers[o].id;
            && id in w'.rows && w'.rows == w.rows[id := w.rows[id].(leaseUntil := Some(Secs(w.now) + LEASE_SECONDS))]
            && o in w'.workers && w'.workers[o].renewedAt == Secs(w.now)
  {
    w' := Next(env, w, ByWorker(o, Heartbeat(Secs(w.now)))).value;
  }

  // --------------------------------------------------------------- dead workers --

  /** No lease runs longer than LEASE_SECONDS from now. */
  ghost predicate ShortLease(w: World, id: Id) {
    id in w.rows && w.rows[id].state == Processing ==>
      w.rows[id].leaseUntil.Some? && w.rows[id].leaseUntil.value <= Secs(w.now) + LEASE_SECONDS
  }

  lemma ShortLeaseStep(env: Env, w: World, s: Step, e: Effect, w': World, id: Id)
    requires ShortLease(w, id) && Moves(env, w, s, e, w')
    ensures ShortLease(w', id)
  {
    if e.Sql? { ReadingsArePast(env, w, s, e, w'); }
    hide ClientMoves, WorkerMoves, CleanerMoves, ClientsMove, WorkersMove, CleanersMove;
  }

  lemma ReadingsArePast(env: Env, w: World, s: Step, e: Effect, w': World)
    requires Moves(env, w, s, e, w') && e.Sql?
    ensures e.stmt.ClaimRow? || e.stmt.RenewRow? ==> e.stmt.t <= Secs(w.now)
  {
  }

  lemma {:induction false} LeasesAreShort(env: Env, ws: seq<World>, ss: seq<Step>, n: nat, id: Id)
    requires Run(env, ws, ss) && n < |ws|
    ensures ShortLease(ws[n], id)
  {
    hide Next, Moves;
    if n > 0 {
      hide ShortLease;
      LeasesAreShort(env, ws, ss, n - 1, id);
      var e := StepMoves(env, ws[n - 1], ss[n - 1], ws[n]);
      ShortLeaseStep(env, ws[n - 1], ss[n - 1], e, ws[n], id);
    }
  }

  /** A job whose worker died, or let its lease be, is free again LEASE_SECONDS later, and
      then the claim finds a row to take. */
  lemma AbandonedJobsAreTakenUp(env: Env, ws: seq<World>, ss: seq<Step>, n: nat, m: nat, id: Id)
    requires Run(env, ws, ss) && n <= m < |ws| && id in ws[n].rows && Entry(ws[m].rows, id) == Entry(ws[n].rows, id)
    requires ws[n].rows[id].state == Pending || ws[n].rows[id].state == Processing
    requires Secs(ws[m].now) > Secs(ws[n].now) + LEASE_SECONDS
    ensures Free(ws[m].rows[id], Secs(ws[m].now)) && exists next :: FirstInLine(ws[m].rows, Secs(ws[m].now), next)
  {
    hide Next;
    LeasesAreShort(env, ws, ss, n, id);
    ClaimFindsWork(ws[m].rows, Secs(ws[m].now));
    var next :| IsNext(ws[m].rows, Secs(ws[m].now), next);
    ClaimTakesTheFirst(ws[m].rows, Secs(ws[m].now), next);
  }

  // -------------------------------------------------------------- queue order --

  /** The row waits from state `a` to state `b`, queued in second `u`. */
  ghost predicate Waits(ws: seq<World>, a: int, b: int, id: Id, u: int) {
    0 <= a <= b < |ws| &&
    forall k | a <= k <= b :: id in ws[k].rows && ws[k].rows[id].state == Pending && ws[k].rows[id].updatedAt == u
  }

  /** The row, if it is there at all, sorts behind everything queued in second `u`. */
  ghost predicate Behind(w: World, id: Id, u: int) {
    && id in w.usedIds && NotAdmitted(w.clients, id)
    && (id in w.rows && Active(w.rows[id]) ==> w.rows[id].updatedAt > u)
  }

  lemma BehindStep(env: Env, w: World, s: Step, w': World, id: Id, u: int)
    requires Next(env, w, s) == Some(w') && Behind(w, id, u)
    requires s.TakeJob? && s.id == id ==> s.t > u
    ensures Behind(w', id, u)
  {
    hide Next, Moves;
    SettledStep(env, w, s, w', id);
    var e := StepMoves(env, w, s, w');
    BehindMoves(env, w, s, e, w', id, u);
  }

  lemma BehindMoves(env: Env, w: World, s: Step, e: Effect, w': World, id: Id, u: int)
    requires Moves(env, w, s, e, w') && Behind(w, id, u)
    requires s.TakeJob? && s.id == id ==> s.t > u
    ensures id in w'.rows && Active(w'.rows[id]) ==> w'.rows[id].updatedAt > u
  {
    UnprotectedStep(env, w, s, e, w', id);
  }

  /** A waiting row is claimable, so only rows that sort before it are taken. */
  lemma TakenRowsSortFirst(env: Env, w: World, s: Step, w': World, waiting: Id)
    requires Next(env, w, s) == Some(w') && s.TakeJob? && s.id != waiting
    requires waiting in w.rows && w.rows[waiting].state == Pending
    ensures s.id in w.rows && Active(w.rows[s.id]) && w.rows[s.id].updatedAt <= w.rows[waiting].updatedAt
    ensures w'.rows[s.id].updatedAt == s.t
  {
  }

  lemma {:induction false} BehindWhileWaiting(env: Env, ws: seq<World>, ss: seq<Step>, i: nat, n: nat, waiting: Id, id: Id, u: int)
    requires Run(env, ws, ss) && Waits(ws, i, n, waiting, u)
    requires Behind(ws[i], id, u) && id != waiting
    ensures Behind(ws[n], id, u)
    ensures forall k | i <= k < n :: !Takes(ss, k, id)
    decreases n
  {
    hide Next, NotAdmitted, Initial;
    if i < n {
      BehindWhileWaiting(env, ws, ss, i, n - 1, waiting, id, u);
      if Takes(ss, n - 1, id) {
        TakenRowsSortFirst(env, ws[n - 1], ss[n - 1], ws[n], waiting);
      }
      BehindStep(env, ws[n - 1], ss[n - 1], ws[n], id, u);
    }
  }

  lemma TakeLeavesBehind(env: Env, w: World, s: Step, w': World, u: int)
    requires Ids(w) && Next(env, w, s) == Some(w') && s.TakeJob? && s.t > u
    ensures Behind(w', s.id, u)
  {
  }

  /** Bounded overtaking: once a claim reads a later second than the one a row was
      queued in, the row it takes was queued no later than the waiting one and is not
      taken again before it, whether its worker dies or not. */
  lemma OvertakenAtMostOnce(env: Env, ws: seq<World>, ss: seq<Step>, a: nat, b: nat, waiting: Id, u: int, i: nat, id: Id)
    requires Run(env, ws, ss) && Waits(ws, a, b, waiting, u)
    requires a <= i < b && Takes(ss, i, id) && id != waiting && ss[i].t > u
    ensures id in ws[i].rows && ws[i].rows[id].updatedAt <= u
    ensures forall k | i < k < b :: !Takes(ss, k, id)
  {
    hide Next, Initial, Ids;
    RunKeepsIds(env, ws, ss, i);
    TakenRowsSortFirst(env, ws[i], ss[i], ws[i + 1], waiting);
    TakeLeavesBehind(env, ws[i], ss[i], ws[i + 1], u);
    BehindWhileWaiting(env, ws, ss, i + 1, b, waiting, id, u);
  }

  // ------------------------------------------------------------ no starvation --

  /** The rows that still sort before the waiting one. */
  ghost function Ahead(w: World, waiting: Id, u: int): set<Id> {
    set id | id in w.rows && id != waiting && Active(w.rows[id]) && w.rows[id].updatedAt <= u
  }

  function ClaimsBetween(ss: seq<Step>, a: nat, b: nat): nat
    requires a <= b <= |ss|
    decreases b
  {
    if a == b then 0 else ClaimsBetween(ss, a, b - 1) + if ss[b - 1].TakeJob? then 1 else 0
  }

  /** Every reading bound from now on is of a later second. */
  predicate ReadsAfter(s: Step, u: int) {
    (s.TakeJob? ==> s.t > u) && (s.ByClient? && s.act.AddRow? ==> s.act.t > u)
  }

  lemma AheadMoves(env: Env, w: World, s: Step, e: Effect, w': World, waiting: Id, u: int, id: Id)
    requires Moves(env, w, s, e, w') && id in Ahead(w', waiting, u)
    requires ReadsAfter(s, u)
    ensures id in Ahead(w, waiting, u) && !(s.TakeJob? && s.id == id)
  {
  }

  lemma AheadStep(env: Env, w: World, s: Step, w': World, waiting: Id, u: int)
    requires Next(env, w, s) == Some(w') && ReadsAfter(s, u)
    requires waiting in w.rows && w.rows[waiting].state == Pending && w.rows[waiting].updatedAt == u
    requires waiting in w'.rows && w'.rows[waiting].state == Pending
    ensures Ahead(w', waiting, u) <= Ahead(w, waiting, u) - (if s.TakeJob? then {s.id} else {})
    ensures s.TakeJob? ==> s.id in Ahead(w, waiting, u)
  {
    var e := StepMoves(env, w, s, w');
    forall id | id in Ahead(w', waiting, u)
      ensures id in Ahead(w, waiting, u) && !(s.TakeJob? && s.id == id)
    {
      AheadMoves(env, w, s, e, w', waiting, u, id);
    }
    if s.TakeJob? {
      TakenRowsSortFirst(env, w, s, w', waiting);
    }
  }

  /** No starvation: before a waiting row is taken, workers take at most as many rows
      as sorted before it when it began to wait. */
  lemma {:induction false} WaitingIsBounded(env: Env, ws: seq<World>, ss: seq<Step>, a: nat, b: nat, waiting: Id, u: int)
    requires Run(env, ws, ss) && Waits(ws, a, b, waiting, u)
    requires forall k | a <= k < b :: ReadsAfter(ss[k], u)
    ensures ClaimsBetween(ss, a, b) + |Ahead(ws[b], waiting, u)| <= |Ahead(ws[a], waiting, u)|
    decreases b
  {
    hide Next, Ahead, Initial;
    if a < b {
      WaitingIsBounded(env, ws, ss, a, b - 1, waiting, u);
      AheadStep(env, ws[b - 1], ss[b - 1], ws[b], waiting, u);
      var before, after := Ahead(ws[b - 1], waiting, u), Ahead(ws[b], waiting, u);
      if ss[b - 1].TakeJob? {
        SubsetSize(after, before - {ss[b - 1].id});
      } else {
        SubsetSize(after, before);
      }
    }
  }

  lemma SubsetSize<T>(a: set<T>, b: set<T>)
    requires a <= b
    ensures |a| <= |b|
  {
    assert b == a + (b - a);
  }
}
