/** Why a job fails, why a request is refused, and what a success names: each from a step of
    the worker or the request itself. */
module AssemblyCauses {
  import opened Wrappers
  import opened Hex
  import opened Octets
  import opened StagingDisk
  import opened AssemblyTable
  import opened AssemblyMachine
  import opened AssemblyMoves
  import opened AssemblySafety
  import opened AssemblyRuns
  import opened AssemblyAnswers
  import opened AssemblyReceipts
  import opened AssemblyExpiry
  import opened AssemblyProgress

  // ------------------------------------------------------------------ failed jobs --

  /** Step `j` spoils the job of worker `o`: it was claimed too often, a chunk is not there
      or makes the file too large, the file has another checksum, or its conversion fails. */
  ghost predicate SpoiltAt(env: Env, ws: seq<World>, ss: seq<Step>, j: int, o: Owner)
    requires |ws| == |ss| + 1
  {
    && 0 <= j < |ss|
    && (|| (ss[j].TakeJob? && ss[j].o == o && ss[j].id in ws[j].rows && ws[j].rows[ss[j].id].claims >= MAX_CLAIMS)
        || (ss[j].ByWorker? && ss[j].o == o && o in ws[j].workers && SpoilsIn(env, ws[j], ws[j].workers[o], ss[j].work)))
  }

  ghost predicate SpoilsIn(env: Env, w: World, me: Worker, work: WorkerAct) {
    match work
    case ReadChunk =>
      && me.phase.Reading? && |me.phase.parts| < |me.chunks|
      && var h := me.chunks[|me.phase.parts|];
         !Readable(w.disk, me.id, h) || |Concat(me.phase.parts) + Contents(w.disk, me.id, h)| > env.maxBytes
    case CheckSum(_) =>
      me.phase.Reading? && |me.phase.parts| >= |me.chunks| && env.sha1(Concat(me.phase.parts)) != me.key.checksum
    case ConversionFails(_) => true
    case _ => false
  }

  lemma OwnWorkStep(env: Env, w: World, o: Owner, work: WorkerAct, w': World)
    requires Next(env, w, ByWorker(o, work)) == Some(w') && o in w'.workers
    ensures o in w.workers && WorkOf(env, w, o, w.workers[o], work).Some?
    ensures WorkOf(env, w, o, w.workers[o], work).value.me == Some(w'.workers[o])
  {
    hide WorkOf;
  }

  lemma OthersWorkStep(env: Env, w: World, s: Step, w': World, o: Owner)
    requires Next(env, w, s) == Some(w') && o in w'.workers && !(s.ByWorker? && s.o == o)
    ensures if s.TakeJob? && s.o == o then
              && s.id in w.rows && w'.workers[o].id == s.id && w'.workers[o].chunks == w.rows[s.id].chunks
              && (if w.rows[s.id].claims >= MAX_CLAIMS then w'.workers[o].phase.Finished? && w'.workers[o].phase.outcome.Err?
                  else w'.workers[o].phase == Reading([]))
            else o in w.workers && w'.workers[o] == w.workers[o]
  {
    var e := StepMoves(env, w, s, w');
    hide Next, ClientMoves, WorkerMoves, CleanerMoves, ClientsMove, CleanersMove, Shared;
  }

  lemma Spoils(env: Env, w: World, o: Owner, me: Worker, work: WorkerAct, q: Worker)
    requires WorkOf(env, w, o, me, work).Some? && WorkOf(env, w, o, me, work).value.me == Some(q)
    requires q.phase.Finished? && q.phase.outcome.Err?
    ensures (me.phase.Finished? && me.phase.outcome.Err?) || SpoilsIn(env, w, me, work)
  {
    if work.ReadChunk? && me.phase.Reading? && |me.phase.parts| < |me.chunks| {
      var h := me.chunks[|me.phase.parts|];
      if Readable(w.disk, me.id, h) {
        var more := me.phase.parts + [Contents(w.disk, me.id, h)];
        assert more[..|more| - 1] == me.phase.parts;
      }
    }
  }

  lemma {:induction false} FailuresAreSpoilt(env: Env, ws: seq<World>, ss: seq<Step>, n: nat, o: Owner) returns (j: nat)
    requires Run(env, ws, ss) && n < |ws| && o in ws[n].workers
    requires ws[n].workers[o].phase.Finished? && ws[n].workers[o].phase.outcome.Err?
    ensures j < n && SpoiltAt(env, ws, ss, j, o)
  {
    hide Next, WorkOf, SpoilsIn, Initial;
    StartsIdle(env, ws, ss);
    var w, s := ws[n - 1], ss[n - 1];
    j := n - 1;
    if s.ByWorker? && s.o == o {
      OwnWorkStep(env, w, o, s.work, ws[n]);
      Spoils(env, w, o, w.workers[o], s.work, ws[n].workers[o]);
      if w.workers[o].phase.Finished? && w.workers[o].phase.outcome.Err? {
        j := FailuresAreSpoilt(env, ws, ss, n - 1, o);
      }
    } else {
      OthersWorkStep(env, w, s, ws[n], o);
      if !(s.TakeJob? && s.o == o) {
        j := FailuresAreSpoilt(env, ws, ss, n - 1, o);
      }
    }
  }

  lemma StartsIdle(env: Env, ws: seq<World>, ss: seq<Step>)
    requires Run(env, ws, ss)
    ensures ws[0].workers == map[] && ws[0].clients == map[] && ws[0].rows == map[]
  {
  }

  /** Every error that is published has a cause among its worker's own steps. */
  lemma ErrorsHaveCauses(env: Env, ws: seq<World>, ss: seq<Step>, i: nat, key: Key, result: AssemblyResult, t: int) returns (j: nat)
    requires Run(env, ws, ss) && FailedAt(ws, ss, i, key, result, t)
    ensures j < i && SpoiltAt(env, ws, ss, j, ss[i].o)
  {
    hide Next;
    j := FailuresAreSpoilt(env, ws, ss, i, ss[i].o);
  }

  // ------------------------------------------------------------ what a success names --

  /** The kinds worker `o` stored among the first `n` steps, in order. */
  function StoredBy(ss: seq<Step>, o: Owner, n: nat): seq<ArtifactKey>
    requires n <= |ss|
  {
    if n == 0 then []
    else
      StoredBy(ss, o, n - 1) +
      if ss[n - 1].ByWorker? && ss[n - 1].o == o && ss[n - 1].work.StoreArtifact? then [ss[n - 1].work.kind] else []
  }

  ghost predicate NamesStored(me: Worker, stored: seq<ArtifactKey>) {
    match me.phase
    case Reading(_) => stored == []
    case Storing(_, _, kinds) => kinds == stored
    case Finished(_, outcome) => outcome.Ok? ==> multiset(outcome.value.artifacts) == multiset(stored)
    case Cleaning => true
  }

  lemma StoresOne(env: Env, w: World, o: Owner, me: Worker, work: WorkerAct, q: Worker, stored: seq<ArtifactKey>)
    requires WorkOf(env, w, o, me, work).Some? && WorkOf(env, w, o, me, work).value.me == Some(q) && NamesStored(me, stored)
    ensures NamesStored(q, stored + if work.StoreArtifact? then [work.kind] else [])
  {
    assert stored + [] == stored;
  }

  lemma {:induction false} NothingStored(env: Env, ws: seq<World>, ss: seq<Step>, n: nat, o: Owner)
    requires Run(env, ws, ss) && n < |ws| && o !in ws[n].usedOwners
    ensures StoredBy(ss, o, n) == []
  {
    hide Next, Moves, Initial, Ids;
    if n > 0 {
      var e := StepMoves(env, ws[n - 1], ss[n - 1], ws[n]);
      RunKeepsIds(env, ws, ss, n - 1);
      OwnersAreUsed(env, ws[n - 1], ss[n - 1], e, ws[n]);
      NothingStored(env, ws, ss, n - 1, o);
    }
  }

  lemma OwnersAreUsed(env: Env, w: World, s: Step, e: Effect, w': World)
    requires Ids(w) && Moves(env, w, s, e, w')
    ensures w.usedOwners <= w'.usedOwners
    ensures s.ByWorker? ==> s.o in w.usedOwners
  {
    hide ClientMoves, WorkerMoves, CleanerMoves;
  }

  lemma {:induction false} WorkersNameWhatTheyStored(env: Env, ws: seq<World>, ss: seq<Step>, n: nat, o: Owner)
    requires Run(env, ws, ss) && n < |ws| && o in ws[n].workers
    ensures NamesStored(ws[n].workers[o], StoredBy(ss, o, n))
  {
    hide Next, WorkOf, Initial, NamesStored;
    StartsIdle(env, ws, ss);
    var w, s := ws[n - 1], ss[n - 1];
    if s.ByWorker? && s.o == o {
      OwnWorkStep(env, w, o, s.work, ws[n]);
      WorkersNameWhatTheyStored(env, ws, ss, n - 1, o);
      StoresOne(env, w, o, w.workers[o], s.work, ws[n].workers[o], StoredBy(ss, o, n - 1));
    } else {
      OthersWorkStep(env, w, s, ws[n], o);
      if s.TakeJob? && s.o == o {
        TakersAreNew(env, w, s, ws[n]);
        NothingStored(env, ws, ss, n - 1, o);
        NamesNothing(ws[n].workers[o]);
      } else {
        WorkersNameWhatTheyStored(env, ws, ss, n - 1, o);
      }
      assert StoredBy(ss, o, n - 1) + [] == StoredBy(ss, o, n - 1);
    }
  }

  lemma NamesNothing(me: Worker)
    requires me.phase == Reading([]) || (me.phase.Finished? && me.phase.outcome.Err?)
    ensures NamesStored(me, [])
  {
  }

  lemma TakersAreNew(env: Env, w: World, s: Step, w': World)
    requires Next(env, w, s) == Some(w') && s.TakeJob?
    ensures s.o !in w.usedOwners
  {
  }

  /** A success names exactly the artifacts that its worker stored. */
  lemma SuccessesNameWhatWasStored(env: Env, ws: seq<World>, ss: seq<Step>, i: nat, key: Key, result: AssemblyResult)
    requires Run(env, ws, ss) && PublishedAt(env, ws, ss, i, key, result)
    ensures multiset(result.artifacts) == multiset(StoredBy(ss, ss[i].o, i))
  {
    hide Next;
    WorkersNameWhatTheyStored(env, ws, ss, i, ss[i].o);
  }

  // -------------------------------------------------------------- refused requests --

  /** Step `j` refuses the request: it names no chunks, or one that is no hash, or pinning
      or inserting fails. */
  ghost predicate RefusedAt(ws: seq<World>, ss: seq<Step>, j: int, c: nat, request: Request, detail: string)
    requires |ws| == |ss| + 1
  {
    && 0 <= j < |ss| && ss[j].ByClient? && ss[j].c == c
    && match ss[j].act
       case Admit(_) =>
         || (request.chunks == [] && detail == "no chunks in request")
         || (request.chunks != [] && !WellFormed(request) && detail == "invalid chunk hash")
       case PinFails(why) => detail == why
       case AddFails(why) => detail == why
       case _ => false
  }

  /** The answer the request has, or will have once it has removed its directory. */
  function AnswerInHand(p: ClientPhase): Option<Answer> {
    if p.Answered? || p.Discarding? then Some(p.answer) else None
  }

  lemma Refuses(w: World, me: Client, act: ClientAct, detail: string)
    requires PlanOf(w, me, act).Some? && AnswerInHand(PlanOf(w, me, act).value.phase) == Some(Failed(detail))
    requires me.phase.Judging? ==> me.phase.row.result.Some?
    requires me.phase.Checking? && me.phase.usable ==> !me.phase.result.response.Failed?
    ensures || AnswerInHand(me.phase) == Some(Failed(detail))
            || (act.Admit? && me.request.chunks == [] && detail == "no chunks in request")
            || (act.Admit? && me.request.chunks != [] && !WellFormed(me.request) && detail == "invalid chunk hash")
            || act == PinFails(detail) || act == AddFails(detail)
  {
    assert WellFormed(me.request) <==> me.request.chunks != [] && forall h <- me.request.chunks :: IsSha1Hex(h);
    assert ChunksOf(me.request) == [] <==> me.request.chunks == [];
  }

  /** A request that is refused was malformed, or met an error, at a step of its own. */
  lemma {:induction false} RefusalsHaveCauses(env: Env, ws: seq<World>, ss: seq<Step>, n: nat, c: nat, detail: string) returns (j: nat)
    requires Run(env, ws, ss) && n < |ws| && c in ws[n].clients && AnswerInHand(ws[n].clients[c].phase) == Some(Failed(detail))
    ensures j < n && RefusedAt(ws, ss, j, c, ws[n].clients[c].request, detail)
  {
    hide Next, PlanOf, WellFormed, Initial;
    StartsIdle(env, ws, ss);
    var w, s := ws[n - 1], ss[n - 1];
    j := n - 1;
    if s.ByClient? && s.c == c {
      OwnStep(env, w, c, s.act, ws[n]);
      RequestsAreTold(env, ws, ss, n - 1, c);
      Refuses(w, w.clients[c], s.act, detail);
      if AnswerInHand(w.clients[c].phase) == Some(Failed(detail)) {
        j := RefusalsHaveCauses(env, ws, ss, n - 1, c, detail);
      }
    } else {
      OthersStep(env, w, s, ws[n], c);
      j := RefusalsHaveCauses(env, ws, ss, n - 1, c, detail);
    }
  }

  /** 40 digits `0-9a-f`. */
  predicate IsName(h: string) { |h| == 40 && forall x <- h :: '0' <= x <= '9' || 'a' <= x <= 'f' }

  lemma NamesAreLower(r: Request)
    requires WellFormed(r)
    ensures ChunksOf(r) != [] && forall h <- ChunksOf(r) :: IsName(h)
  {
    forall h <- ChunksOf(r) ensures IsName(h) {
      var i :| 0 <= i < |r.chunks| && h == Lower(r.chunks[i]);
      assert r.chunks[i] in r.chunks;
      forall x <- h ensures '0' <= x <= '9' || 'a' <= x <= 'f' {
        var k :| 0 <= k < |h| && x == h[k];
        assert r.chunks[i][k] in r.chunks[i];
      }
    }
  }

  lemma PinsWellFormed(w: World, me: Client, act: ClientAct)
    requires PlanOf(w, me, act).Some? && var q := PlanOf(w, me, act).value.phase; q.Pinning? || q.Inserting?
    ensures me.phase.Pinning? || me.phase.Inserting? || WellFormed(me.request)
  {
  }

  lemma {:induction false} PinnedRequestsAreWellFormed(env: Env, ws: seq<World>, ss: seq<Step>, n: nat, c: nat)
    requires Run(env, ws, ss) && n < |ws| && c in ws[n].clients && (ws[n].clients[c].phase.Pinning? || ws[n].clients[c].phase.Inserting?)
    ensures WellFormed(ws[n].clients[c].request)
  {
    hide Next, PlanOf, WellFormed, Initial;
    StartsIdle(env, ws, ss);
    var w, s := ws[n - 1], ss[n - 1];
    if s.ByClient? && s.c == c {
      OwnStep(env, w, c, s.act, ws[n]);
      PinsWellFormed(w, w.clients[c], s.act);
      if w.clients[c].phase.Pinning? || w.clients[c].phase.Inserting? {
        PinnedRequestsAreWellFormed(env, ws, ss, n - 1, c);
      }
    } else {
      OthersStep(env, w, s, ws[n], c);
      PinnedRequestsAreWellFormed(env, ws, ss, n - 1, c);
    }
  }

  lemma NewRowsAreAsked(env: Env, w: World, s: Step, e: Effect, w': World, id: Id)
    requires Moves(env, w, s, e, w') && id in w'.rows
    ensures || (id in w.rows && w'.rows[id].key == w.rows[id].key && w'.rows[id].chunks == w.rows[id].chunks)
            || (s.ByClient? && s.c in w.clients && w.clients[s.c].phase.Inserting?
                && w'.rows[id].key == KeyOf(w.clients[s.c].request) && w'.rows[id].chunks == ChunksOf(w.clients[s.c].request))
  {
    if e.Sql? && e.stmt.InsertRow? {
      InsertsAreOwn(env, w, s, e, w');
    }
    hide WorkerMoves, CleanerMoves, KeyOf, ChunksOf;
  }

  /** Every row asks for at least one chunk, by names of 40 lower-case digits. */
  lemma {:induction false} RowsAreWellFormed(env: Env, ws: seq<World>, ss: seq<Step>, n: nat, id: Id)
    requires Run(env, ws, ss) && n < |ws| && id in ws[n].rows
    ensures ws[n].rows[id].chunks != [] && forall h <- ws[n].rows[id].chunks :: IsName(h)
  {
    hide Next, Moves, Initial, IsName, WellFormed;
    StartsIdle(env, ws, ss);
    var e := StepMoves(env, ws[n - 1], ss[n - 1], ws[n]);
    NewRowsAreAsked(env, ws[n - 1], ss[n - 1], e, ws[n], id);
    if id in ws[n - 1].rows && ws[n].rows[id].chunks == ws[n - 1].rows[id].chunks {
      RowsAreWellFormed(env, ws, ss, n - 1, id);
    } else {
      PinnedRequestsAreWellFormed(env, ws, ss, n - 1, ss[n - 1].c);
      NamesAreLower(ws[n - 1].clients[ss[n - 1].c].request);
    }
  }
}
