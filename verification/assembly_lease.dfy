/** Leases: who may write a row, how often, and in which order rows are taken. */
module AssemblyLease {
  import opened Wrappers
  import opened Octets
  import opened StagingDisk
  import opened AssemblyTable
  import opened AssemblyMachine
  import opened AssemblyMoves
  import opened AssemblySafety
  import opened AssemblyChunks
  import opened AssemblyRuns

  /** Step `i` publishes the row: the update found its row. */
  ghost predicate Publishes(ws: seq<World>, ss: seq<Step>, i: int, id: Id, o: Owner)
    requires |ws| == |ss| + 1
  {
    && 0 <= i < |ss| && ss[i].ByWorker? && ss[i].work.PublishResult? && ss[i].o == o
    && o in ws[i].workers && ws[i].workers[o].id == id && Holds(ws[i].rows, id, o)
  }

  ghost predicate Takes(ss: seq<Step>, i: int, id: Id) {
    0 <= i < |ss| && ss[i].TakeJob? && ss[i].id == id
  }

  // ---------------------------------------------------- writes of the holder --

  lemma PublishSettles(env: Env, w: World, s: Step, w': World, id: Id)
    requires Ids(w) && Next(env, w, s) == Some(w')
    requires s.ByWorker? && s.work.PublishResult? && s.o in w.workers && w.workers[s.o].id == id && Holds(w.rows, id, s.o)
    ensures Settled(w', id)
  {
    RowsAreNotAdmitted(w, id);
    SettledStep(env, w, s, w', id);
  }

  /** A row is published at most once. */
  lemma PublishedOnce(env: Env, ws: seq<World>, ss: seq<Step>, i: nat, j: nat, id: Id, o: Owner, p: Owner)
    requires Run(env, ws, ss) && Publishes(ws, ss, i, id, o) && Publishes(ws, ss, j, id, p)
    ensures i == j && o == p
  {
    hide Next, Initial, Ids;
    var first, last := if i < j then i else j, if i < j then j else i;
    if first < last {
      RunKeepsIds(env, ws, ss, first);
      PublishSettles(env, ws[first], ss[first], ws[first + 1], id);
      SettledForGood(env, ws, ss, first + 1, last, id);
    }
  }

  /** `o` took a job once and does not hold `id`: it never will. */
  ghost predicate Displaced(w: World, id: Id, o: Owner) {
    o in w.usedOwners && !(id in w.rows && w.rows[id].leaseOwner == Some(o))
  }

  lemma DisplacedStep(env: Env, w: World, s: Step, w': World, id: Id, o: Owner)
    requires Next(env, w, s) == Some(w') && Displaced(w, id, o)
    ensures Displaced(w', id, o)
    ensures s.ByWorker? && s.o == o ==> Entry(w'.rows, id) == Entry(w.rows, id)
  {
    hide Next, Displaced;
    var e := StepMoves(env, w, s, w');
    DisplacedMoves(env, w, s, e, w', id, o);
  }

  lemma DisplacedMoves(env: Env, w: World, s: Step, e: Effect, w': World, id: Id, o: Owner)
    requires Shared(w, s, e, w') && WorkersMove(env, w, s, e, w'.workers) && ClientsMove(w, s, e, w'.clients)
    requires e.Sql? ==> s.ByClient? || s.ByWorker? || s.TakeJob?
    requires Displaced(w, id, o)
    ensures Displaced(w', id, o)
    ensures s.ByWorker? && s.o == o ==> Entry(w'.rows, id) == Entry(w.rows, id)
  {
  }

  lemma {:induction false} DisplacedForGood(env: Env, ws: seq<World>, ss: seq<Step>, i: nat, n: nat, id: Id, o: Owner)
    requires Run(env, ws, ss) && i <= n < |ws| && Displaced(ws[i], id, o)
    ensures Displaced(ws[n], id, o)
  {
    hide Next, Displaced, Initial;
    if i < n {
      DisplacedForGood(env, ws, ss, i, n - 1, id, o);
      DisplacedStep(env, ws[n - 1], ss[n - 1], ws[n], id, o);
    }
  }

  /** A worker whose job was taken over never changes the row again, however long its
      conversion still runs. */
  lemma TakeoverIsFinal(env: Env, ws: seq<World>, ss: seq<Step>, i: nat, j: nat, id: Id, o: Owner)
    requires Run(env, ws, ss) && i < j < |ss|
    requires Takes(ss, i, id) && ss[i].o != o && o in ws[i].usedOwners
    requires ss[j].ByWorker? && ss[j].o == o
    ensures Entry(ws[j + 1].rows, id) == Entry(ws[j].rows, id)
  {
    assert ws[i + 1].rows[id].leaseOwner == Some(ss[i].o) && o in ws[i + 1].usedOwners;
    DisplacedForGood(env, ws, ss, i + 1, j, id, o);
    DisplacedStep(env, ws[j], ss[j], ws[j + 1], id, o);
  }

  lemma HeldStep(env: Env, w: World, s: Step, w': World, id: Id, o: Owner)
    requires Ids(w) && Next(env, w, s) == Some(w') && Holds(w'.rows, id, o)
    ensures Holds(w.rows, id, o) || (s.TakeJob? && s.id == id && s.o == o)
    ensures Holds(w.rows, id, o) ==> !(s.TakeJob? && s.id == id)
  {
    hide Next;
    var e := StepMoves(env, w, s, w');
    HeldMoves(env, w, s, e, w', id, o);
  }

  lemma HeldMoves(env: Env, w: World, s: Step, e: Effect, w': World, id: Id, o: Owner)
    requires TableOk(w.rows, w.usedIds, w.usedOwners) && Shared(w, s, e, w') && WorkersMove(env, w, s, e, w'.workers)
    requires e.Sql? && e.stmt.ClaimRow? ==> s.TakeJob?
    requires Holds(w'.rows, id, o)
    ensures Holds(w.rows, id, o) || (s.TakeJob? && s.id == id && s.o == o)
    ensures Holds(w.rows, id, o) ==> !(s.TakeJob? && s.id == id)
  {
  }

  /** The holder of a lease is the last one who took the job. */
  lemma {:induction false} HolderTookLast(env: Env, ws: seq<World>, ss: seq<Step>, n: nat, id: Id, o: Owner) returns (i: nat)
    requires Run(env, ws, ss) && n < |ws| && Holds(ws[n].rows, id, o)
    ensures i < n && Takes(ss, i, id) && ss[i].o == o
    ensures forall k | i < k < n :: !Takes(ss, k, id)
  {
    hide Next, Ids;
    assert n > 0;
    RunKeepsIds(env, ws, ss, n - 1);
    HeldStep(env, ws[n - 1], ss[n - 1], ws[n], id, o);
    if Holds(ws[n - 1].rows, id, o) {
      i := HolderTookLast(env, ws, ss, n - 1, id, o);
    } else {
      i := n - 1;
    }
  }

  /** So whoever publishes a row took it, and nobody took it since. */
  lemma OnlyTheHolderPublishes(env: Env, ws: seq<World>, ss: seq<Step>, n: nat, id: Id, o: Owner)
    requires Run(env, ws, ss) && Publishes(ws, ss, n, id, o)
    ensures exists i :: Takes(ss, i, id) && i < n && ss[i].o == o && forall k | i < k < n :: !Takes(ss, k, id)
  {
    hide Next, Initial;
    var i := HolderTookLast(env, ws, ss, n, id, o);
  }

  // ------------------------------------------------------------- crash loops --

  /** Step `i` takes the job and starts converting it. */
  predicate StartsConversion(ws: seq<World>, ss: seq<Step>, i: nat, id: Id)
    requires |ws| == |ss| + 1
  {
    && i < |ss| && ss[i].TakeJob? && ss[i].id == id
    && ss[i].o in ws[i + 1].workers && ws[i + 1].workers[ss[i].o].phase.Reading?
  }

  function Conversions(ws: seq<World>, ss: seq<Step>, n: nat, id: Id): nat
    requires |ws| == |ss| + 1 && n <= |ss|
  {
    if n == 0 then 0
    else Conversions(ws, ss, n - 1, id) + if StartsConversion(ws, ss, n - 1, id) then 1 else 0
  }

  ghost predicate NeverClaimed(w: World, id: Id) {
    id !in w.usedIds || !NotAdmitted(w.clients, id)
  }

  lemma ClaimsStep(env: Env, w: World, s: Step, w': World, id: Id)
    requires Ids(w) && Next(env, w, s) == Some(w')
    ensures NeverClaimed(w', id) ==> NeverClaimed(w, id)
    ensures id in w'.rows && id !in w.rows ==> NeverClaimed(w, id)
    ensures id in w'.rows && id in w.rows ==>
              w'.rows[id].claims == w.rows[id].claims + if s.TakeJob? && s.id == id then 1 else 0
    ensures s.TakeJob? && s.id == id ==>
              id in w.rows && id in w'.rows && !NeverClaimed(w, id)
              && s.o in w'.workers && (w'.workers[s.o].phase.Reading? <==> w.rows[id].claims < MAX_CLAIMS)
  {
    hide Next, Moves;
    var e := StepMoves(env, w, s, w');
    if id in w.rows { RowsAreNotAdmitted(w, id); }
    ClaimsMoves(env, w, s, e, w', id);
  }

  lemma ClaimsMoves(env: Env, w: World, s: Step, e: Effect, w': World, id: Id)
    requires Moves(env, w, s, e, w')
    requires id in w.rows ==> id in w.usedIds && NotAdmitted(w.clients, id)
    ensures NeverClaimed(w', id) ==> NeverClaimed(w, id)
    ensures id in w'.rows && id !in w.rows ==> NeverClaimed(w, id)
    ensures id in w'.rows && id in w.rows ==>
              w'.rows[id].claims == w.rows[id].claims + if s.TakeJob? && s.id == id then 1 else 0
    ensures s.TakeJob? && s.id == id ==>
              id in w.rows && id in w'.rows && !NeverClaimed(w, id)
              && s.o in w'.workers && (w'.workers[s.o].phase.Reading? <==> w.rows[id].claims < MAX_CLAIMS)
  {
    if !NeverClaimed(w, id) {
      NotAdmittedStep(w, s, e, w', id);
    }
  }

  /** However often workers die, at most MAX_CLAIMS conversions of a row are started. */
  lemma {:induction false} ConversionsAreBounded(env: Env, ws: seq<World>, ss: seq<Step>, n: nat, id: Id)
    requires Run(env, ws, ss) && n <= |ss|
    ensures Conversions(ws, ss, n, id) <= MAX_CLAIMS
    ensures id in ws[n].rows ==> Conversions(ws, ss, n, id) <= ws[n].rows[id].claims
    ensures NeverClaimed(ws[n], id) ==> Conversions(ws, ss, n, id) == 0
  {
    hide Next, Ids, Initial, NeverClaimed;
    if n > 0 {
      ConversionsAreBounded(env, ws, ss, n - 1, id);
      RunKeepsIds(env, ws, ss, n - 1);
      ClaimsStep(env, ws[n - 1], ss[n - 1], ws[n], id);
    }
  }
}
