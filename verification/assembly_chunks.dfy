/** Pinned chunks survive: whatever uploads, retention and cleanup do, a queued or
    running job finds every chunk it was admitted with. */
module AssemblyChunks {
  import opened Wrappers
  import opened Octets
  import opened StagingDisk
  import opened AssemblyTable
  import opened AssemblyMachine
  import opened AssemblyMoves
  import opened AssemblySafety

  // --------------------------------------------------------------- the disk --

  lemma PerformKeepsContents(d: Disk, op: FsOp)
    requires Permitted(d, op)
    ensures ContentsKept(d, Perform(d, op))
  {
  }

  lemma PerformKeepsNames(d: Disk, op: FsOp, sha1: Bytes -> string)
    requires Permitted(d, op) && ContentAddressed(d, sha1)
    requires op.Write? ==> sha1(op.bytes) == op.hash
    ensures ContentAddressed(Perform(d, op), sha1)
  {
  }

  /** Only the removal of a directory, or of a file in it, takes a staged name away,
      and only a link gives a staged name another inode. */
  lemma PerformKeepsStaged(d: Disk, op: FsOp, id: nat, hash: string)
    requires Permitted(d, op) && Staged(d, id, hash)
    requires (op.Unlink? || op.Rmdir?) ==> op.id != id
    ensures Staged(Perform(d, op), id, hash)
    ensures op != HardLink(id, hash) ==> Perform(d, op).staging[id].files[hash] == d.staging[id].files[hash]
  {
  }

  // ---------------------------------------------------------- the invariant --

  ghost predicate AllStaged(d: Disk, id: nat, chunks: seq<string>, n: nat)
    requires n <= |chunks|
  {
    forall q | 0 <= q < n :: Staged(d, id, chunks[q])
  }

  predicate Admitted(p: ClientPhase) { p.Pinning? || p.Inserting? }

  ghost predicate PinOk(d: Disk, now: int, me: Client) {
    var p := me.phase;
    var chunks := ChunksOf(me.request);
    && (Admitted(p) ==> p.since <= now && (p.id in d.staging ==> p.since <= d.staging[p.id].mtime))
    && (p.Pinning? ==> p.done <= |chunks| && (p.missing == [] ==> AllStaged(d, p.id, chunks, p.done)))
    && (p.Inserting? ==> AllStaged(d, p.id, chunks, |chunks|))
  }

  /** No admission is still filling or about to enqueue the directory. */
  ghost predicate NotAdmitted(clients: map<nat, Client>, id: Id) {
    forall c <- clients :: !(Admitted(clients[c].phase) && clients[c].phase.id == id)
  }

  ghost predicate CleanerOk(env: Env, w: World, me: Cleaner, id: Id) {
    && me.cutoff <= w.now - env.retention
    && (!me.phase.Scanning? && me.phase.id == id ==> NotAdmitted(w.clients, id))
    && (me.phase == Condemned(id) ==> !(id in w.rows && Active(w.rows[id])))
  }

  ghost predicate JobStaged(w: World, id: Id) {
    id in w.rows && Active(w.rows[id]) ==> AllStaged(w.disk, id, w.rows[id].chunks, |w.rows[id].chunks|)
  }

  ghost predicate Fills(w: World, c: nat, id: Id) {
    c in w.clients && Admitted(w.clients[c].phase) && w.clients[c].phase.id == id
  }

  /** What is kept for one directory. */
  ghost predicate Pins(env: Env, w: World, id: Id) {
    && ContentAddressed(w.disk, env.sha1)
    && JobStaged(w, id)
    && (forall c | Fills(w, c, id) :: PinOk(w.disk, w.now, w.clients[c]))
    && (forall k <- w.cleaners :: CleanerOk(env, w, w.cleaners[k], id))
  }

  /** The admission that fills the directory, if one does, has taken less than the
      retention so far. */
  ghost predicate Timely(env: Env, w: World, id: Id) {
    forall c | Fills(w, c, id) :: w.now - w.clients[c].phase.since < env.retention
  }

  // --------------------------------------------------------------- the step --

  ghost predicate Protected(w: World, id: Id) {
    (id in w.rows && Active(w.rows[id])) || !NotAdmitted(w.clients, id)
  }

  /** Nobody is ever entitled to remove anything from a protected directory. */
  lemma ProtectedDirsAreKept(env: Env, w: World, s: Step, e: Effect, w': World, id: Id)
    requires Ids(w) && Pins(env, w, id) && Moves(env, w, s, e, w')
    requires Protected(w, id)
    ensures e.Fs? && (e.op.Unlink? || e.op.Rmdir?) ==> e.op.id != id
  {
  }

  lemma NamesStep(env: Env, w: World, s: Step, e: Effect, w': World)
    requires ContentAddressed(w.disk, env.sha1) && Moves(env, w, s, e, w')
    ensures ContentAddressed(w'.disk, env.sha1) && ContentsKept(w.disk, w'.disk)
  {
    if e.Fs? {
      PerformKeepsContents(w.disk, e.op);
      PerformKeepsNames(w.disk, e.op, env.sha1);
    }
  }

  lemma StagedStep(env: Env, w: World, s: Step, e: Effect, w': World, id: Id, hash: string)
    requires Ids(w) && Pins(env, w, id) && Moves(env, w, s, e, w')
    requires Protected(w, id) && Staged(w.disk, id, hash)
    ensures Staged(w'.disk, id, hash)
    ensures id in w.rows ==> w'.disk.staging[id].files[hash] == w.disk.staging[id].files[hash]
  {
    ProtectedDirsAreKept(env, w, s, e, w', id);
    if e.Fs? {
      PerformKeepsStaged(w.disk, e.op, id, hash);
    }
  }

  /** Pinning goes on where it was: skipped names are staged already, links stage
      theirs, and only a complete pin reaches the insert. */
  lemma OwnPinStep(w: World, me: Client, act: ClientAct, q: ClientPhase, e: Effect)
    requires Possible(w, e) && ClientMoves(w, me, act, q, e) && PinOk(w.disk, w.now, me)
    requires w.disk.staging.Keys <= w.usedIds
    ensures PinOk(Apply(w, e).disk, w.now, me.(phase := q))
  {
  }

  lemma OthersPinStep(d: Disk, now: int, now': int, me: Client, op: FsOp)
    requires Permitted(d, op) && PinOk(d, now, me) && now <= now'
    requires op.Mkdir? ==> op.now == now
    requires Admitted(me.phase) && (op.Unlink? || op.Rmdir?) ==> op.id != me.phase.id
    ensures PinOk(Perform(d, op), now', me)
  {
  }

  /** A request that fills a directory did so before, unless it has just begun. */
  lemma FillsBefore(w: World, act: ClientAct, e: Effect, q: ClientPhase, c: nat)
    requires c in w.clients && ClientMoves(w, w.clients[c], act, q, e) && Admitted(q) && Admitted(w.clients[c].phase)
    ensures Fills(w, c, q.id)
  {
  }

  lemma OwnFill(env: Env, w: World, s: Step, e: Effect, w': World, id: Id, c: nat)
    requires Ids(w) && Pins(env, w, id) && Moves(env, w, s, e, w') && Fills(w', c, id) && s.ByClient? && s.c == c
    ensures PinOk(w'.disk, w'.now, w'.clients[c])
  {
    hide WorkerMoves, CleanerMoves, TableOk, ClientIds, WorkerIds;
    var me, q := w.clients[c], w'.clients[c].phase;
    if Admitted(me.phase) {
      FillsBefore(w, s.act, e, q, c);
    }
    hide ClientMoves;
    assert PinOk(w.disk, w.now, me);
    OwnPinStep(w, me, s.act, q, e);
  }

  lemma OthersFill(env: Env, w: World, s: Step, e: Effect, w': World, id: Id, c: nat)
    requires Ids(w) && Pins(env, w, id) && Moves(env, w, s, e, w') && Fills(w', c, id) && !(s.ByClient? && s.c == c)
    ensures PinOk(w'.disk, w'.now, w'.clients[c])
  {
    hide ClientMoves, WorkerMoves, CleanerMoves;
    if c in w.clients {
      assert Fills(w, c, id) && w'.clients[c] == w.clients[c];
      if e.Fs? {
        ProtectedDirsAreKept(env, w, s, e, w', id);
        if e.op.Mkdir? { MkdirsAreOwn(env, w, s, e, w'); }
        OthersPinStep(w.disk, w.now, w'.now, w.clients[c], e.op);
      }
    }
  }

  lemma JobStagedStep(env: Env, w: World, s: Step, e: Effect, w': World, id: Id)
    requires Ids(w) && Pins(env, w, id) && Moves(env, w, s, e, w')
    ensures JobStaged(w', id)
  {
    if id in w'.rows && Active(w'.rows[id]) {
      if id in w.rows {
        RowsStep(env, w, s, e, w');
        assert RowEvolves(Entry(w.rows, id), Entry(w'.rows, id));
        hide Moves, Ids;
        forall q | 0 <= q < |w'.rows[id].chunks| ensures Staged(w'.disk, id, w'.rows[id].chunks[q]) {
          StagedStep(env, w, s, e, w', id, w'.rows[id].chunks[q]);
        }
      } else {
        NewJobIsStaged(env, w, s, e, w', id);
      }
    }
  }

  lemma NewJobIsStaged(env: Env, w: World, s: Step, e: Effect, w': World, id: Id)
    requires Pins(env, w, id) && Moves(env, w, s, e, w') && id !in w.rows && id in w'.rows
    ensures AllStaged(w'.disk, id, w'.rows[id].chunks, |w'.rows[id].chunks|)
  {
    assert Fills(w, s.c, id) && PinOk(w.disk, w.now, w.clients[s.c]);
  }

  /** A directory old enough to be examined is not being filled: its time is at least
      the start of the admission, and the cutoff is a whole retention ago. */
  lemma OldDirsAreNotAdmitted(env: Env, w: World, me: Cleaner, id: Id)
    requires Pins(env, w, id) && Timely(env, w, id) && CleanerOk(env, w, me, id)
    requires id in w.disk.staging && w.disk.staging[id].mtime <= me.cutoff
    ensures NotAdmitted(w.clients, id)
  {
    forall c <- w.clients ensures !(Admitted(w.clients[c].phase) && w.clients[c].phase.id == id) {
      if Fills(w, c, id) { assert PinOk(w.disk, w.now, w.clients[c]); }
    }
  }

  /** Admissions under fresh ids only: a used id that is not admitted never is again. */
  lemma NotAdmittedStep(w: World, s: Step, e: Effect, w': World, id: Id)
    requires Shared(w, s, e, w') && ClientsMove(w, s, e, w'.clients)
    requires id in w.usedIds && NotAdmitted(w.clients, id)
    ensures NotAdmitted(w'.clients, id)
    ensures !(s.ByClient? && e.Sql? && e.stmt.InsertRow? && e.stmt.id == id)
  {
  }

  lemma InactiveStep(rows: Table, stmt: Statement, id: Id)
    requires Allowed(rows, stmt) && !(id in rows && Active(rows[id]))
    requires stmt.InsertRow? ==> stmt.id != id
    ensures !(id in Execute(rows, stmt) && Active(Execute(rows, stmt)[id]))
  {
  }

  /** So a directory nobody answers for is never answered for again. */
  lemma UnprotectedStep(env: Env, w: World, s: Step, e: Effect, w': World, id: Id)
    requires Moves(env, w, s, e, w')
    requires id in w.usedIds && NotAdmitted(w.clients, id)
    ensures NotAdmitted(w'.clients, id)
    ensures !(id in w.rows && Active(w.rows[id])) ==> !(id in w'.rows && Active(w'.rows[id]))
  {
    NotAdmittedStep(w, s, e, w', id);
    if e.Sql? && !(id in w.rows && Active(w.rows[id])) {
      InactiveStep(w.rows, e.stmt, id);
    }
  }

  /** A row that is over, and not about to be inserted either. */
  ghost predicate Settled(w: World, id: Id) {
    id in w.usedIds && NotAdmitted(w.clients, id) && !(id in w.rows && Active(w.rows[id]))
  }

  lemma SettledStep(env: Env, w: World, s: Step, w': World, id: Id)
    requires Next(env, w, s) == Some(w')
    requires id in w.usedIds && NotAdmitted(w.clients, id)
    ensures id in w'.usedIds && NotAdmitted(w'.clients, id)
    ensures Settled(w, id) ==> Settled(w', id)
  {
    hide Next, NotAdmitted;
    var e := StepMoves(env, w, s, w');
    UnprotectedStep(env, w, s, e, w', id);
  }

  lemma CleanerStepOk(env: Env, w: World, s: Step, e: Effect, w': World, id: Id, k: nat)
    requires Ids(w) && Pins(env, w, id) && Timely(env, w, id) && Moves(env, w, s, e, w') && k in w'.cleaners
    ensures CleanerOk(env, w', w'.cleaners[k], id)
  {
    hide ClientMoves, WorkerMoves, JobStaged, PinOk, TableOk, ClientIds, WorkerIds;
    var me := w'.cleaners[k];
    if !me.phase.Scanning? && me.phase.id == id {
      if w.cleaners[k].phase.Scanning? {
        OldDirsAreNotAdmitted(env, w, w.cleaners[k], id);
      }
      UnprotectedStep(env, w, s, e, w', id);
    }
  }

  lemma PinsStep(env: Env, w: World, s: Step, e: Effect, w': World, id: Id)
    requires Ids(w) && Pins(env, w, id) && Timely(env, w, id) && Moves(env, w, s, e, w')
    ensures Pins(env, w', id)
  {
    hide Moves, Ids, Timely, JobStaged, PinOk, CleanerOk, Fills;
    NamesStep(env, w, s, e, w');
    JobStagedStep(env, w, s, e, w', id);
    forall c | Fills(w', c, id) ensures c in w'.clients && PinOk(w'.disk, w'.now, w'.clients[c]) {
      assert c in w'.clients by { FilledBy(w', c, id); }
      if s.ByClient? && s.c == c {
        OwnFill(env, w, s, e, w', id, c);
      } else {
        OthersFill(env, w, s, e, w', id, c);
      }
    }
    forall k <- w'.cleaners ensures CleanerOk(env, w', w'.cleaners[k], id) {
      CleanerStepOk(env, w, s, e, w', id, k);
    }
  }

  lemma FilledBy(w: World, c: nat, id: Id)
    requires Fills(w, c, id)
    ensures c in w.clients
  {
  }
}
