/** What every step of the assembly queue keeps. */
module AssemblySafety {
  import opened Wrappers
  import opened Octets
  import opened StagingDisk
  import opened AssemblyTable
  import opened AssemblyMachine
  import opened AssemblyMoves

  // ------------------------------------------------------------- the table --

  ghost predicate RowOk(r: Row, owners: set<Owner>) {
    && (r.leaseOwner.Some? <==> r.state == Processing)
    && (r.leaseUntil.Some? <==> r.state == Processing)
    && (r.leaseOwner.Some? ==> r.leaseOwner.value in owners)
    && (r.state == Success ==> r.result.Some? && r.result.value.response.Completed?)
    && (r.state == Failure ==> r.result.Some? && r.result.value.response.Rejected?)
  }

  ghost predicate TableOk(rows: Table, ids: set<Id>, owners: set<Owner>) {
    && rows.Keys <= ids
    && KeysUnique(rows)
    && forall id <- rows :: RowOk(rows[id], owners)
  }

  /** The life of one row: queued, claimed, renewed, published, expired. */
  ghost predicate RowEvolves(before: Option<Row>, after: Option<Row>) {
    || before == after
    || (before.None? && after.Some? && after.value.state == Pending && after.value.claims == 0)
    || (before.Some? && after.None? && !Active(before.value))
    || (before.Some? && after.Some? && Active(before.value) && after.value.state != Pending
        && after.value.key == before.value.key && after.value.chunks == before.value.chunks
        && before.value.claims <= after.value.claims)
  }

  lemma ExecuteEvolves(rows: Table, stmt: Statement, id: Id)
    requires Allowed(rows, stmt)
    ensures RowEvolves(Entry(rows, id), Entry(Execute(rows, stmt), id))
  {
  }

  /** Only the insert adds a row, and never beside another one for its key. */
  lemma ExecuteKeepsTable(rows: Table, stmt: Statement, ids: set<Id>, owners: set<Owner>)
    requires Allowed(rows, stmt) && TableOk(rows, ids, owners)
    requires stmt.InsertRow? ==> stmt.id in ids
    requires stmt.PublishRow? ==> if stmt.success then stmt.result.response.Completed? else stmt.result.response.Rejected?
    ensures TableOk(Execute(rows, stmt), ids, owners + if stmt.ClaimRow? then {stmt.owner} else {})
  {
  }

  // ------------------------------------------------------------ identities --

  /** The staging directory a request still answers for. */
  function OwnDir(p: ClientPhase): Option<Id> {
    if p.Pinning? || p.Inserting? || p.Discarding? then Some(p.id) else None
  }

  /** A request's directory belongs to no row and to no job. */
  ghost predicate OwnIdFree(w: World, p: ClientPhase) {
    && (OwnDir(p).Some? ==>
          && OwnDir(p).value in w.usedIds
          && OwnDir(p).value !in w.rows
          && forall o <- w.workers :: w.workers[o].id != OwnDir(p).value)
    && (p.Discarding? ==> !p.answer.Completed?)
  }

  ghost predicate OwnIdsDistinct(clients: map<nat, Client>) {
    forall c <- clients, d <- clients | OwnDir(clients[c].phase).Some? ::
      OwnDir(clients[c].phase) == OwnDir(clients[d].phase) ==> c == d
  }

  ghost predicate ClientIds(w: World) {
    && w.clients.Keys <= w.usedClients
    && (forall c <- w.clients :: OwnIdFree(w, w.clients[c].phase))
    && OwnIdsDistinct(w.clients)
  }

  ghost predicate WorkerOk(rows: Table, ids: set<Id>, o: Owner, me: Worker) {
    && me.id in ids
    && (Holds(rows, me.id, o) ==> rows[me.id].key == me.key && rows[me.id].chunks == me.chunks)
    && (me.phase.Finished? && me.phase.outcome.Ok? ==> me.phase.outcome.value.response.Completed?)
    && (me.phase.Cleaning? ==> !(me.id in rows && Active(rows[me.id])))
  }

  ghost predicate WorkerIds(w: World) {
    && w.workers.Keys <= w.usedOwners
    && forall o <- w.workers :: WorkerOk(w.rows, w.usedIds, o, w.workers[o])
  }

  ghost predicate DirIds(w: World) {
    && w.disk.staging.Keys <= w.usedIds
    && forall k <- w.cleaners | !w.cleaners[k].phase.Scanning? :: w.cleaners[k].phase.id in w.usedIds
  }

  ghost predicate Ids(w: World) {
    && TableOk(w.rows, w.usedIds, w.usedOwners)
    && ClientIds(w)
    && WorkerIds(w)
    && DirIds(w)
  }

  lemma InitIds(w: World)
    requires Initial(w)
    ensures Ids(w)
  {
  }

  lemma RowsStep(env: Env, w: World, s: Step, e: Effect, w': World)
    requires Ids(w) && Moves(env, w, s, e, w')
    ensures TableOk(w'.rows, w'.usedIds, w'.usedOwners)
    ensures forall id :: RowEvolves(Entry(w.rows, id), Entry(w'.rows, id))
  {
    if e.Sql? {
      ExecuteKeepsTable(w.rows, e.stmt, w.usedIds, w.usedOwners);
      forall id ensures RowEvolves(Entry(w.rows, id), Entry(w'.rows, id)) {
        ExecuteEvolves(w.rows, e.stmt, id);
      }
    }
  }

  /** All the identity bookkeeping needs of a request's move. */
  lemma OwnDirMoves(w: World, me: Client, act: ClientAct, q: ClientPhase, e: Effect)
    requires ClientMoves(w, me, act, q, e)
    requires me.phase.Discarding? ==> !me.phase.answer.Completed?
    ensures q.Discarding? ==> !q.answer.Completed?
    ensures match e
            case Mint(id) => OwnDir(me.phase).None? && OwnDir(q) == Some(id)
            case Sql(InsertRow(id, key, chunks, t)) =>
              OwnDir(me.phase) == Some(id) && OwnDir(q) == if KeyTaken(w.rows, key) then Some(id) else None
            case Sql(ExpireRow(_)) => OwnDir(q).None?
            case Sql(_) => false
            case _ => OwnDir(q).None? || OwnDir(q) == OwnDir(me.phase)
  {
  }

  /** Jobs are only ever taken from rows. */
  lemma JobsComeFromRows(env: Env, w: World, s: Step, e: Effect, w': World, o: Owner)
    requires Moves(env, w, s, e, w') && o in w'.workers
    ensures (o in w.workers && w'.workers[o].id == w.workers[o].id) || w'.workers[o].id in w.rows
  {
  }

  /** Rows are only inserted by the request whose directory they name. */
  lemma InsertsAreOwn(env: Env, w: World, s: Step, e: Effect, w': World)
    requires Moves(env, w, s, e, w') && e.Sql? && e.stmt.InsertRow?
    ensures s.ByClient? && s.c in w.clients && OwnDir(w.clients[s.c].phase) == Some(e.stmt.id)
  {
  }

  /** A request's move keeps its own directory its own. */
  lemma OwnIdMoved(env: Env, w: World, s: Step, e: Effect, w': World, c: nat)
    requires Ids(w) && Moves(env, w, s, e, w') && c in w'.clients && s.ByClient? && s.c == c
    ensures OwnIdFree(w', w'.clients[c].phase)
    ensures var own := OwnDir(w'.clients[c].phase);
            own.None? || own == OwnDir(w.clients[c].phase) || (e.Mint? && own == Some(e.id))
  {
    hide WorkerMoves, CleanerMoves, CleanersMove, DirIds, OwnIdsDistinct, ClientMoves;
    assert OwnIdFree(w, w.clients[c].phase);
    OwnDirMoves(w, w.clients[c], s.act, w'.clients[c].phase, e);
  }

  /** And nobody else's step takes it. */
  lemma OwnIdKept(env: Env, w: World, s: Step, e: Effect, w': World, c: nat)
    requires Ids(w) && Moves(env, w, s, e, w') && c in w'.clients && c in w.clients && !(s.ByClient? && s.c == c)
    ensures w'.clients[c] == w.clients[c] && OwnIdFree(w', w.clients[c].phase)
  {
    hide ClientMoves, WorkerMoves, CleanerMoves, CleanersMove, DirIds, WorkerIds;
    assert OwnIdFree(w, w.clients[c].phase);
    forall o <- w'.workers
      ensures (o in w.workers && w'.workers[o].id == w.workers[o].id) || w'.workers[o].id in w.rows
    {
      JobsComeFromRows(env, w, s, e, w', o);
    }
    hide WorkersMove;
    if e.Sql? && e.stmt.InsertRow? {
      InsertsAreOwn(env, w, s, e, w');
    }
  }

  lemma OwnIdStep(env: Env, w: World, s: Step, e: Effect, w': World, c: nat)
    requires Ids(w) && Moves(env, w, s, e, w') && c in w'.clients
    ensures OwnIdFree(w', w'.clients[c].phase)
    ensures var own := OwnDir(w'.clients[c].phase);
            || own.None?
            || (c in w.clients && own == OwnDir(w.clients[c].phase))
            || (e.Mint? && s.ByClient? && s.c == c && own == Some(e.id))
  {
    hide Ids, WorkersMove, CleanersMove, ClientMoves;
    if s.ByClient? && s.c == c {
      OwnIdMoved(env, w, s, e, w', c);
    } else if c in w.clients {
      OwnIdKept(env, w, s, e, w', c);
    }
  }

  lemma OwnDirsAreUsed(w: World)
    requires ClientIds(w)
    ensures forall c <- w.clients :: OwnDir(w.clients[c].phase).Some? ==> OwnDir(w.clients[c].phase).value in w.usedIds
  {
    forall c <- w.clients ensures OwnDir(w.clients[c].phase).Some? ==> OwnDir(w.clients[c].phase).value in w.usedIds {
      assert OwnIdFree(w, w.clients[c].phase);
    }
  }

  lemma ClientIdsStep(env: Env, w: World, s: Step, e: Effect, w': World)
    requires Ids(w) && Moves(env, w, s, e, w')
    ensures ClientIds(w')
  {
    hide ClientMoves, WorkerMoves, CleanerMoves, WorkersMove, CleanersMove, WorkerIds, TableOk, OwnIdFree;
    OwnDirsAreUsed(w);
    forall c <- w'.clients
      ensures OwnIdFree(w', w'.clients[c].phase)
      ensures var own := OwnDir(w'.clients[c].phase);
              || own.None?
              || (c in w.clients && own == OwnDir(w.clients[c].phase))
              || (e.Mint? && s.ByClient? && s.c == c && own == Some(e.id))
    {
      OwnIdStep(env, w, s, e, w', c);
    }
  }

  lemma OwnWorkStep(env: Env, w: World, o: Owner, me: Worker, work: WorkerAct, q: Worker, e: Effect)
    requires Possible(w, e) && WorkerMoves(env, w, o, me, work, Some(q), e) && WorkerOk(w.rows, w.usedIds, o, me)
    ensures WorkerOk(Apply(w, e).rows, w.usedIds, o, q)
    ensures q.id == me.id
  {
  }

  lemma OthersWorkStep(rows: Table, ids: set<Id>, o: Owner, me: Worker, stmt: Statement)
    requires Allowed(rows, stmt) && WorkerOk(rows, ids, o, me)
    requires stmt.ClaimRow? ==> stmt.owner != o
    requires stmt.InsertRow? ==> stmt.id != me.id
    ensures WorkerOk(Execute(rows, stmt), ids, o, me)
  {
  }

  /** A claim is made for a new owner, who becomes a worker on just that row. */
  lemma ClaimsAreNew(env: Env, w: World, s: Step, e: Effect, w': World)
    requires Moves(env, w, s, e, w') && e.Sql? && e.stmt.ClaimRow?
    ensures s.TakeJob? && e.stmt.owner == s.o && s.o !in w.usedOwners
  {
  }

  /** A row is only published by the worker on it, with what its conversion came to. */
  lemma PublishesAreSigned(env: Env, w: World, s: Step, e: Effect, w': World)
    requires Moves(env, w, s, e, w') && e.Sql? && e.stmt.PublishRow?
    ensures s.ByWorker? && s.work == PublishResult(e.stmt.t) && e.stmt.owner == s.o && s.o in w.workers
    ensures var me := w.workers[s.o];
            && e.stmt.id == me.id && me.phase.Finished? && e.stmt.success == me.phase.outcome.Ok?
            && e.stmt.result == ResultOf(w, me.phase.outcome)
  {
  }

  /** Only a publish settles a row. */
  lemma SettledByPublish(rows: Table, stmt: Statement, id: Id)
    requires Allowed(rows, stmt)
    requires var after := Execute(rows, stmt);
             id in after && (after[id].state == Success || after[id].state == Failure) && !(id in rows && rows[id] == after[id])
    ensures stmt.PublishRow? && stmt.id == id && Holds(rows, id, stmt.owner)
    ensures Execute(rows, stmt)[id] ==
              rows[id].(state := if stmt.success then Success else Failure, result := Some(stmt.result),
                        leaseOwner := None, leaseUntil := None, updatedAt := stmt.t)
  {
  }

  lemma TakenJobOk(env: Env, w: World, s: Step, e: Effect, w': World)
    requires TableOk(w.rows, w.usedIds, w.usedOwners) && Moves(env, w, s, e, w') && s.TakeJob?
    ensures s.o in w'.workers && WorkerOk(w'.rows, w'.usedIds, s.o, w'.workers[s.o])
  {
    hide ClientMoves, WorkerMoves, CleanerMoves, CleanersMove;
  }

  lemma OwnWorkKept(env: Env, w: World, s: Step, e: Effect, w': World, o: Owner)
    requires Ids(w) && Moves(env, w, s, e, w') && s.ByWorker? && s.o == o && o in w'.workers
    ensures WorkerOk(w'.rows, w'.usedIds, o, w'.workers[o])
  {
    hide ClientMoves, WorkerMoves, CleanerMoves, CleanersMove, TableOk, ClientIds, DirIds;
    OwnWorkStep(env, w, o, w.workers[o], s.work, w'.workers[o], e);
  }

  lemma OthersWorkKept(env: Env, w: World, s: Step, e: Effect, w': World, o: Owner)
    requires Ids(w) && Moves(env, w, s, e, w') && o in w'.workers && !((s.ByWorker? || s.TakeJob?) && s.o == o)
    ensures WorkerOk(w'.rows, w'.usedIds, o, w'.workers[o])
  {
    hide ClientMoves, WorkerMoves, CleanerMoves, CleanersMove, TableOk, DirIds;
    assert o in w.workers && w'.workers[o] == w.workers[o] && WorkerOk(w.rows, w.usedIds, o, w.workers[o]);
    if e.Sql? {
      if e.stmt.ClaimRow? { ClaimsAreNew(env, w, s, e, w'); }
      if e.stmt.InsertRow? {
        InsertsAreOwn(env, w, s, e, w');
        assert OwnIdFree(w, w.clients[s.c].phase);
      }
      hide ClientIds, WorkerIds;
      OthersWorkStep(w.rows, w.usedIds, o, w.workers[o], e.stmt);
    }
  }

  lemma WorkerIdsStep(env: Env, w: World, s: Step, e: Effect, w': World)
    requires Ids(w) && Moves(env, w, s, e, w')
    ensures WorkerIds(w')
  {
    hide ClientMoves, WorkerMoves, CleanerMoves, CleanersMove, TableOk, ClientIds, DirIds;
    forall o <- w'.workers ensures WorkerOk(w'.rows, w'.usedIds, o, w'.workers[o]) {
      if s.ByWorker? && s.o == o {
        OwnWorkKept(env, w, s, e, w', o);
      } else if s.TakeJob? && s.o == o {
        TakenJobOk(env, w, s, e, w');
      } else {
        OthersWorkKept(env, w, s, e, w', o);
      }
    }
    hide WorkerOk;
  }

  /** Staging directories are only made by the request that answers for them. */
  lemma MkdirsAreOwn(env: Env, w: World, s: Step, e: Effect, w': World)
    requires Moves(env, w, s, e, w') && e.Fs? && e.op.Mkdir?
    ensures s.ByClient? && s.c in w.clients && OwnDir(w.clients[s.c].phase) == Some(e.op.id) && e.op.now == w.now
  {
  }

  /** A cleanup only has directories in hand that it found. */
  lemma ExaminedExist(env: Env, w: World, s: Step, e: Effect, w': World, k: nat)
    requires Moves(env, w, s, e, w') && k in w'.cleaners && !w'.cleaners[k].phase.Scanning?
    ensures var id := w'.cleaners[k].phase.id;
            id in w.disk.staging || (k in w.cleaners && !w.cleaners[k].phase.Scanning? && w.cleaners[k].phase.id == id)
  {
    hide ClientsMove, WorkersMove;
  }

  lemma PerformAddsDirs(d: Disk, op: FsOp)
    requires Permitted(d, op)
    ensures Perform(d, op).staging.Keys <= d.staging.Keys + if op.Mkdir? then {op.id} else {}
  {
  }

  lemma DirIdsStep(env: Env, w: World, s: Step, e: Effect, w': World)
    requires Ids(w) && Moves(env, w, s, e, w')
    ensures DirIds(w')
  {
    hide ClientMoves, WorkerMoves, CleanerMoves, TableOk, WorkerIds, OwnIdsDistinct;
    forall k <- w'.cleaners | !w'.cleaners[k].phase.Scanning? ensures w'.cleaners[k].phase.id in w'.usedIds {
      ExaminedExist(env, w, s, e, w', k);
    }
    hide ClientsMove, WorkersMove, CleanersMove;
    if e.Fs? {
      PerformAddsDirs(w.disk, e.op);
      if e.op.Mkdir? {
        MkdirsAreOwn(env, w, s, e, w');
        assert OwnIdFree(w, w.clients[s.c].phase);
      }
      hide Perform;
    }
  }

  lemma IdsStep(env: Env, w: World, s: Step, e: Effect, w': World)
    requires Ids(w) && Moves(env, w, s, e, w')
    ensures Ids(w')
  {
    hide Moves, TableOk, ClientIds, WorkerIds, DirIds;
    RowsStep(env, w, s, e, w');
    ClientIdsStep(env, w, s, e, w');
    WorkerIdsStep(env, w, s, e, w');
    DirIdsStep(env, w, s, e, w');
  }
}
