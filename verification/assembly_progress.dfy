/** What a request and a job come to when nothing interferes: from any state, by their own
    steps alone. */
module AssemblyProgress {
  import opened Wrappers
  import opened Hex
  import opened Octets
  import opened StagingDisk
  import opened AssemblyTable
  import opened AssemblyMachine

  /** The state after the steps, if all of them can happen. */
  function After(env: Env, w: World, steps: seq<Step>): Option<World> {
    if steps == [] then Some(w)
    else
      match After(env, w, steps[..|steps| - 1])
      case None => None
      case Some(v) => Next(env, v, steps[|steps| - 1])
  }

  lemma AfterNext(env: Env, w: World, steps: seq<Step>, s: Step)
    requires After(env, w, steps).Some?
    ensures After(env, w, steps + [s]) == Next(env, After(env, w, steps).value, s)
  {
    hide Next;
    assert (steps + [s])[..|steps|] == steps;
  }

  lemma {:induction false} AfterJoin(env: Env, w: World, a: seq<Step>, b: seq<Step>)
    requires After(env, w, a).Some?
    ensures After(env, w, a + b) == After(env, After(env, w, a).value, b)
    decreases |b|
  {
    hide Next;
    if b == [] {
      assert a + b == a;
    } else {
      AfterJoin(env, w, a, b[..|b| - 1]);
      assert (a + b)[..|a + b| - 1] == a + b[..|b| - 1];
    }
  }

  /** All steps are the request's own. */
  predicate Own(steps: seq<Step>, c: nat) { forall s <- steps :: s.ByClient? && s.c == c }

  /** The request's phase, and nothing else, has changed. */
  function Moved(w: World, c: nat, phase: ClientPhase): World
    requires c in w.clients
  {
    w.(clients := w.clients[c := w.clients[c].(phase := phase)])
  }

  lemma MovedTwice(w: World, c: nat, p: ClientPhase, q: ClientPhase)
    requires c in w.clients
    ensures c in Moved(w, c, p).clients && Moved(w, c, p).clients[c] == w.clients[c].(phase := p)
    ensures Moved(Moved(w, c, p), c, q) == Moved(w, c, q)
  {
  }

  /** One step of the request without effect on anything shared. */
  lemma Turn(env: Env, w: World, c: nat, act: ClientAct, phase: ClientPhase)
    requires c in w.clients && PlanOf(w, w.clients[c], act) == Some(ClientPlan(phase, Nothing)) && !act.Vanish?
    ensures Next(env, w, ByClient(c, act)) == Some(Moved(w, c, phase))
  {
    hide PlanOf;
  }

  lemma OneStep(env: Env, w: World, c: nat, x: ClientAct) returns (steps: seq<Step>)
    ensures After(env, w, steps) == Next(env, w, ByClient(c, x)) && Own(steps, c)
  {
    hide Next;
    assert After(env, w, []) == Some(w);
    AfterNext(env, w, [], ByClient(c, x));
    steps := [] + [ByClient(c, x)];
  }

  lemma TwoSteps(env: Env, w: World, c: nat, x: ClientAct, y: ClientAct) returns (steps: seq<Step>)
    requires Next(env, w, ByClient(c, x)).Some?
    ensures After(env, w, steps) == Next(env, Next(env, w, ByClient(c, x)).value, ByClient(c, y)) && Own(steps, c)
  {
    hide Next;
    assert After(env, w, []) == Some(w);
    AfterNext(env, w, [], ByClient(c, x));
    AfterNext(env, w, [] + [ByClient(c, x)], ByClient(c, y));
    steps := [] + [ByClient(c, x)] + [ByClient(c, y)];
  }

  // ------------------------------------------------------------------- receipts --

  /** Every artifact of the receipt has a canonical row and its file. */
  predicate AllThere(w: World, result: AssemblyResult) {
    forall a <- result.artifacts :: a in w.canon && w.canon[a] in w.files
  }

  /** The receipt is a success of this version, or an error less than a minute old. */
  predicate Current(w: World, row: Row) {
    && row.result.Some?
    && ((row.state == Success && row.result.value.version == w.version)
        || (row.state == Failure && Secs(w.now) < row.updatedAt + ERROR_RETENTION_SECONDS))
  }

  lemma OneArtifact(env: Env, w: World, c: nat) returns (steps: seq<Step>, p: ClientPhase)
    requires c in w.clients && w.clients[c].phase.Checking? && w.clients[c].phase.path.None?
    requires var p := w.clients[c].phase; p.pos < |p.result.artifacts| && AllThere(w, p.result)
    ensures p == w.clients[c].phase.(pos := w.clients[c].phase.pos + 1)
    ensures After(env, w, steps) == Some(Moved(w, c, p)) && Own(steps, c)
  {
    hide PinChunks, Enqueue;
    p := w.clients[c].phase;
    var a := p.result.artifacts[p.pos];
    var q := p.(path := Some(w.canon[a]));
    Turn(env, w, c, CheckPath, q);
    var v := Moved(w, c, q);
    p := p.(pos := p.pos + 1);
    Turn(env, v, c, CheckFile, p);
    assert Moved(v, c, p) == Moved(w, c, p);
    steps := TwoSteps(env, w, c, CheckPath, CheckFile);
    hide Next;
  }

  lemma {:induction false} AllArtifacts(env: Env, w: World, c: nat) returns (steps: seq<Step>)
    requires c in w.clients && w.clients[c].phase.Checking? && w.clients[c].phase.path.None?
    requires var p := w.clients[c].phase; p.pos <= |p.result.artifacts| && AllThere(w, p.result) && p.usable
    ensures After(env, w, steps) == Some(Moved(w, c, Answered(w.clients[c].phase.result.response))) && Own(steps, c)
    decreases |w.clients[c].phase.result.artifacts| - w.clients[c].phase.pos
  {
    hide PinChunks, Enqueue;
    var p := w.clients[c].phase;
    if p.pos < |p.result.artifacts| {
      var first, q := OneArtifact(env, w, c);
      var v := Moved(w, c, q);
      var rest := AllArtifacts(env, v, c);
      hide Next;
      AfterJoin(env, w, first, rest);
      steps := first + rest;
      assert Moved(v, c, Answered(p.result.response)) == Moved(w, c, Answered(p.result.response));
    } else {
      Turn(env, w, c, Conclude, Answered(p.result.response));
      steps := OneStep(env, w, c, Conclude);
    }
  }

  /** A request for a file whose receipt is current and whose artifacts are all there can
      answer with that receipt, and touches nothing. */
  lemma CurrentReceiptIsAnswered(env: Env, w: World, c: nat, id: Id) returns (steps: seq<Step>)
    requires c in w.clients && w.clients[c].phase.Start? && id in w.rows && w.rows[id].key == KeyOf(w.clients[c].request)
    requires Current(w, w.rows[id]) && AllThere(w, w.rows[id].result.value)
    ensures After(env, w, steps) == Some(Moved(w, c, Answered(w.rows[id].result.value.response))) && Own(steps, c)
  {
    hide PinChunks, Enqueue;
    var row := w.rows[id];
    Turn(env, w, c, Lookup(Some(id)), Judging(id, row));
    var v := Moved(w, c, Judging(id, row));
    var checking := Checking(id, row.result.value, true, 0, None);
    Turn(env, v, c, Judge(Secs(w.now)), checking);
    var u := Moved(v, c, checking);
    var rest := AllArtifacts(env, u, c);
    var first := TwoSteps(env, w, c, Lookup(Some(id)), Judge(Secs(w.now)));
    hide Next, Moved;
    AfterJoin(env, w, first, rest);
    steps := first + rest;
    assert Moved(u, c, Answered(row.result.value.response)) == Moved(w, c, Answered(row.result.value.response)) by {
      assert u.(clients := w.clients) == w;
    }
  }

  // ------------------------------------------------------------------ admissions --

  /** Of the first `done` chunks, those uploaded are linked into the directory and the
      others are listed; otherwise the disk is as it was. */
  ghost predicate Pinned(base: Disk, d: Disk, id: Id, chunks: seq<string>, done: nat, missing: seq<string>)
    requires done <= |chunks|
  {
    && d.uploads == base.uploads && d.inodes == base.inodes && d.staging - {id} == base.staging - {id}
    && (forall h | h in chunks[..done] && h in base.uploads :: Staged(d, id, h) && d.staging[id].files[h] == base.uploads[h])
    && (forall h :: h in missing <==> h in chunks[..done] && h !in base.uploads)
  }

  /** Only the disk and the request's phase have changed. */
  ghost predicate OnlyDisk(w: World, w': World, c: nat, phase: ClientPhase)
    requires c in w.clients
  {
    w' == Moved(w, c, phase).(disk := w'.disk)
  }

  lemma OnlyDiskTwice(w: World, v: World, u: World, c: nat, p: ClientPhase, q: ClientPhase)
    requires c in w.clients && OnlyDisk(w, v, c, p) && OnlyDisk(v, u, c, q)
    ensures OnlyDisk(w, u, c, q)
  {
  }

  lemma OnlyDiskKeeps(w: World, v: World, c: nat, p: ClientPhase)
    requires c in w.clients && OnlyDisk(w, v, c, p)
    ensures c in v.clients && v.clients[c] == w.clients[c].(phase := p) && v.rows == w.rows && v.now == w.now
  {
  }

  lemma DiskTurn(env: Env, w: World, c: nat, act: ClientAct, phase: ClientPhase, op: FsOp)
    requires c in w.clients && PlanOf(w, w.clients[c], act) == Some(ClientPlan(phase, Fs(op))) && !act.Vanish? && Permitted(w.disk, op)
    ensures Next(env, w, ByClient(c, act)) == Some(Moved(w, c, phase).(disk := Perform(w.disk, op)))
  {
    hide PlanOf, Perform;
  }

  lemma PinnedAgain(base: Disk, d: Disk, id: Id, chunks: seq<string>, done: nat, missing: seq<string>)
    requires done < |chunks| && Pinned(base, d, id, chunks, done, missing) && chunks[done] in chunks[..done]
    ensures Pinned(base, d, id, chunks, done + 1, missing)
  {
    assert chunks[..done + 1] == chunks[..done] + [chunks[done]];
  }

  lemma PinnedMake(base: Disk, d: Disk, id: Id, chunks: seq<string>, done: nat, missing: seq<string>, now: int)
    requires done < |chunks| && Pinned(base, d, id, chunks, done, missing)
    ensures var made := Perform(d, Mkdir(id, chunks[done], now));
            && (CanLink(made, id, chunks[done]) <==> chunks[done] in base.uploads)
            && Pinned(base, made, id, chunks, done, missing)
  {
  }

  lemma PinnedLink(base: Disk, d: Disk, id: Id, chunks: seq<string>, done: nat, missing: seq<string>)
    requires done < |chunks| && Pinned(base, d, id, chunks, done, missing) && CanLink(d, id, chunks[done])
    ensures Pinned(base, Perform(d, HardLink(id, chunks[done])), id, chunks, done + 1, missing)
  {
    assert chunks[..done + 1] == chunks[..done] + [chunks[done]];
  }

  lemma PinnedMissing(base: Disk, d: Disk, id: Id, chunks: seq<string>, done: nat, missing: seq<string>)
    requires done < |chunks| && Pinned(base, d, id, chunks, done, missing) && chunks[done] !in base.uploads
    ensures Pinned(base, d, id, chunks, done + 1, missing + [chunks[done]])
  {
    assert chunks[..done + 1] == chunks[..done] + [chunks[done]];
  }

  lemma LinkOne(env: Env, w: World, c: nat, base: Disk) returns (w': World, p: ClientPhase)
    requires c in w.clients && w.clients[c].phase.Pinning? && w.clients[c].phase.made
    requires var p, chunks := w.clients[c].phase, ChunksOf(w.clients[c].request);
             && p.done < |chunks| && Pinned(base, w.disk, p.id, chunks, p.done, p.missing)
             && (CanLink(w.disk, p.id, chunks[p.done]) <==> chunks[p.done] in base.uploads)
    ensures p.Pinning? && p == w.clients[c].phase.(done := w.clients[c].phase.done + 1, made := false, missing := p.missing)
    ensures Pinned(base, w'.disk, p.id, ChunksOf(w.clients[c].request), p.done, p.missing)
    ensures Next(env, w, ByClient(c, Link)) == Some(w') && OnlyDisk(w, w', c, p)
  {
    hide ChunksOf, Pinned, Perform, CanLink, Next, ConsultReceipt, Enqueue;
    var me, chunks := w.clients[c].phase, ChunksOf(w.clients[c].request);
    var h := chunks[me.done];
    if h in base.uploads {
      PinnedLink(base, w.disk, me.id, chunks, me.done, me.missing);
      p := me.(done := me.done + 1, made := false);
      DiskTurn(env, w, c, Link, p, HardLink(me.id, h));
      w' := Moved(w, c, p).(disk := Perform(w.disk, HardLink(me.id, h)));
    } else {
      PinnedMissing(base, w.disk, me.id, chunks, me.done, me.missing);
      p := me.(done := me.done + 1, made := false, missing := me.missing + [h]);
      Turn(env, w, c, Link, p);
      w' := Moved(w, c, p);
    }
  }

  /** One new chunk is linked or listed. */
  lemma PinOne(env: Env, w: World, c: nat, base: Disk) returns (steps: seq<Step>, w': World, p: ClientPhase)
    requires c in w.clients && w.clients[c].phase.Pinning? && !w.clients[c].phase.made
    requires var p, chunks := w.clients[c].phase, ChunksOf(w.clients[c].request);
             p.done < |chunks| && Pinned(base, w.disk, p.id, chunks, p.done, p.missing) && chunks[p.done] !in chunks[..p.done]
    ensures p.Pinning? && p == w.clients[c].phase.(done := w.clients[c].phase.done + 1, missing := p.missing)
    ensures Pinned(base, w'.disk, p.id, ChunksOf(w.clients[c].request), p.done, p.missing)
    ensures After(env, w, steps) == Some(w') && Own(steps, c) && OnlyDisk(w, w', c, p)
  {
    hide ChunksOf, Pinned, Perform, CanLink, Next, ConsultReceipt, Enqueue;
    var me, chunks := w.clients[c].phase, ChunksOf(w.clients[c].request);
    var h := chunks[me.done];
    var made := me.(made := true);
    var d := Perform(w.disk, Mkdir(me.id, h, w.now));
    PinnedMake(base, w.disk, me.id, chunks, me.done, me.missing, w.now);
    DiskTurn(env, w, c, MakeParent, made, Mkdir(me.id, h, w.now));
    var v := Moved(w, c, made).(disk := d);
    assert OnlyDisk(w, v, c, made);
    OnlyDiskKeeps(w, v, c, made);
    hide OnlyDisk, PinChunks;
    w', p := LinkOne(env, v, c, base);
    OnlyDiskTwice(w, v, w', c, made, p);
    steps := TwoSteps(env, w, c, MakeParent, Link);
  }

  lemma PinNext(env: Env, w: World, c: nat, base: Disk) returns (steps: seq<Step>, w': World, p: ClientPhase)
    requires c in w.clients && w.clients[c].phase.Pinning? && !w.clients[c].phase.made
    requires var p, chunks := w.clients[c].phase, ChunksOf(w.clients[c].request);
             p.done < |chunks| && Pinned(base, w.disk, p.id, chunks, p.done, p.missing)
    ensures p.Pinning? && p == w.clients[c].phase.(done := w.clients[c].phase.done + 1, missing := p.missing)
    ensures Pinned(base, w'.disk, p.id, ChunksOf(w.clients[c].request), p.done, p.missing)
    ensures After(env, w, steps) == Some(w') && Own(steps, c) && OnlyDisk(w, w', c, p)
  {
    hide ChunksOf, Pinned, Next;
    var me, chunks := w.clients[c].phase, ChunksOf(w.clients[c].request);
    if chunks[me.done] in chunks[..me.done] {
      p := me.(done := me.done + 1);
      PinnedAgain(base, w.disk, p.id, chunks, me.done, me.missing);
      Turn(env, w, c, SkipSeen, p);
      w' := Moved(w, c, p);
      steps := OneStep(env, w, c, SkipSeen);
    } else {
      steps, w', p := PinOne(env, w, c, base);
    }
  }

  lemma {:induction false} PinRest(env: Env, w: World, c: nat, base: Disk) returns (steps: seq<Step>, w': World, p: ClientPhase)
    requires c in w.clients && w.clients[c].phase.Pinning? && !w.clients[c].phase.made
    requires var p, chunks := w.clients[c].phase, ChunksOf(w.clients[c].request);
             p.done <= |chunks| && Pinned(base, w.disk, p.id, chunks, p.done, p.missing)
    ensures p.Pinning? && p == w.clients[c].phase.(done := |ChunksOf(w.clients[c].request)|, missing := p.missing)
    ensures Pinned(base, w'.disk, p.id, ChunksOf(w.clients[c].request), p.done, p.missing)
    ensures After(env, w, steps) == Some(w') && Own(steps, c) && OnlyDisk(w, w', c, p)
    decreases |ChunksOf(w.clients[c].request)| - w.clients[c].phase.done
  {
    hide ChunksOf, Pinned, Next;
    p := w.clients[c].phase;
    steps, w' := [], w;
    if p.done < |ChunksOf(w.clients[c].request)| {
      var first, v, q := PinNext(env, w, c, base);
      var rest: seq<Step>;
      OnlyDiskKeeps(w, v, c, q);
      hide OnlyDisk;
      rest, w', p := PinRest(env, v, c, base);
      OnlyDiskTwice(w, v, w', c, q, p);
      AfterJoin(env, w, first, rest);
      steps := first + rest;
    }
  }

  lemma UnlinkOne(env: Env, w: World, c: nat, hash: string) returns (steps: seq<Step>, w': World)
    requires c in w.clients && w.clients[c].phase.Discarding?
    requires var p := w.clients[c].phase; p.id in w.disk.staging && hash in w.disk.staging[p.id].files
    ensures After(env, w, steps) == Some(w') && Own(steps, c) && OnlyDisk(w, w', c, w.clients[c].phase)
    ensures var id := w.clients[c].phase.id;
            && w'.disk == w.disk.(staging := w'.disk.staging) && w'.disk.staging - {id} == w.disk.staging - {id}
            && id in w'.disk.staging && w'.disk.staging[id].files == w.disk.staging[id].files - {hash}
  {
    hide Next, ConsultReceipt, PinChunks;
    var p := w.clients[c].phase;
    DiskTurn(env, w, c, UnlinkOwn(hash), p, Unlink(p.id, hash));
    w' := Moved(w, c, p).(disk := Perform(w.disk, Unlink(p.id, hash)));
    steps := OneStep(env, w, c, UnlinkOwn(hash));
  }

  lemma RemoveOwn(env: Env, w: World, c: nat) returns (steps: seq<Step>, w': World)
    requires c in w.clients && w.clients[c].phase.Discarding?
    requires var p := w.clients[c].phase; p.id in w.disk.staging ==> w.disk.staging[p.id].files == map[]
    ensures After(env, w, steps) == Some(w') && Own(steps, c)
    ensures var p := w.clients[c].phase;
            OnlyDisk(w, w', c, Answered(p.answer)) && w'.disk == w.disk.(staging := w.disk.staging - {p.id})
  {
    hide Next, ConsultReceipt, PinChunks;
    var p := w.clients[c].phase;
    DiskTurn(env, w, c, EndDiscard(true), Answered(p.answer), Rmdir(p.id));
    w' := Moved(w, c, Answered(p.answer)).(disk := Perform(w.disk, Rmdir(p.id)));
    steps := OneStep(env, w, c, EndDiscard(true));
  }

  /** The request removes its directory, file by file. */
  lemma {:induction false} Discard(env: Env, w: World, c: nat) returns (steps: seq<Step>, w': World)
    requires c in w.clients && w.clients[c].phase.Discarding?
    ensures After(env, w, steps) == Some(w') && Own(steps, c)
    ensures var p := w.clients[c].phase;
            OnlyDisk(w, w', c, Answered(p.answer)) && w'.disk == w.disk.(staging := w.disk.staging - {p.id})
    decreases if w.clients[c].phase.id in w.disk.staging then |w.disk.staging[w.clients[c].phase.id].files| else 0
  {
    hide Next;
    var p := w.clients[c].phase;
    if p.id in w.disk.staging && w.disk.staging[p.id].files != map[] {
      var files := w.disk.staging[p.id].files;
      var hash :| hash in files;
      assert files.Keys == (files - {hash}).Keys + {hash};
      var first, v := UnlinkOne(env, w, c, hash);
      OnlyDiskKeeps(w, v, c, p);
      hide OnlyDisk;
      var rest: seq<Step>;
      rest, w' := Discard(env, v, c);
      OnlyDiskTwice(w, v, w', c, p, Answered(p.answer));
      AfterJoin(env, w, first, rest);
      steps := first + rest;
    } else {
      steps, w' := RemoveOwn(env, w, c);
    }
  }

  /** Ids so far are used up. */
  ghost predicate IdsAreUsed(w: World) { w.rows.Keys <= w.usedIds && w.disk.staging.Keys <= w.usedIds }

  lemma {:induction false} FreshId(used: set<Id>) returns (id: Id)
    ensures forall q <- used :: q < id
    decreases used
  {
    id := 0;
    if q :| q in used {
      var m := FreshId(used - {q});
      id := if q < m then m else q + 1;
      assert forall p <- used :: p == q || p in used - {q};
    }
  }

  /** The debug id a request gives, or none. */
  function IdText(r: Request): string { if r.debugId.Some? then r.debugId.value else "" }

  /** Two requests are for the same file exactly if project, checksum and the digits of the
      debug id agree, in whatever case. */
  lemma RequestsAreTheSame(r: Request, q: Request)
    ensures KeyOf(r) == KeyOf(q) <==>
              && r.project == q.project
              && |r.checksum| == |q.checksum| && (forall i | 0 <= i < |r.checksum| :: SameLetter(r.checksum[i], q.checksum[i]))
              && NormalizeDebugId(IdText(r)) == NormalizeDebugId(IdText(q))
  {
    LowerIgnoresCase(r.checksum, q.checksum);
    hide Lower, SameLetter;
  }

  /** The names are 40 hexadecimal digits each, and there are some. */
  predicate WellFormed(r: Request) {
    r.chunks != [] && forall h <- r.chunks :: |h| == 40 && forall x <- h :: '0' <= x <= '9' || 'a' <= x <= 'f' || 'A' <= x <= 'F'
  }

  lemma FindsNothing(w: World, me: Client)
    requires me.phase.Start? && forall i <- w.rows :: w.rows[i].key != KeyOf(me.request)
    ensures PlanOf(w, me, Lookup(None)) == Some(ClientPlan(Admitting, Nothing))
  {
    hide PinChunks, Enqueue, KeyOf;
  }

  /** The request starts to pin: it found no row. */
  lemma Begins(env: Env, w: World, c: nat, id: Id) returns (steps: seq<Step>, w': World)
    requires c in w.clients && w.clients[c].phase.Start? && (forall i <- w.rows :: w.rows[i].key != KeyOf(w.clients[c].request))
    requires WellFormed(w.clients[c].request) && id !in w.usedIds
    ensures After(env, w, steps) == Some(w') && Own(steps, c)
    ensures w' == Moved(w, c, Pinning(id, w.now, 0, false, [])).(usedIds := w.usedIds + {id})
  {
    FindsNothing(w, w.clients[c]);
    MovedTwice(w, c, Admitting, Pinning(id, w.now, 0, false, []));
    assert Moved(w, c, Admitting).now == w.now && Moved(w, c, Admitting).usedIds == w.usedIds;
    hide Next, PlanOf, WellFormed, KeyOf, Moved;
    Turn(env, w, c, Lookup(None), Admitting);
    Mints(env, Moved(w, c, Admitting), c, id);
    steps := TwoSteps(env, w, c, Lookup(None), Admit(id));
    w' := Moved(w, c, Pinning(id, w.now, 0, false, [])).(usedIds := w.usedIds + {id});
  }

  lemma Mints(env: Env, w: World, c: nat, id: Id)
    requires c in w.clients && w.clients[c].phase.Admitting? && WellFormed(w.clients[c].request) && id !in w.usedIds
    ensures Next(env, w, ByClient(c, Admit(id))) == Some(Moved(w, c, Pinning(id, w.now, 0, false, [])).(usedIds := w.usedIds + {id}))
  {
    var request := w.clients[c].request;
    assert request.chunks[0] in request.chunks && ChunksOf(request) != [];
    assert forall h <- request.chunks :: IsSha1Hex(h);
  }

  /** All that is left once the chunks are pinned: the row, or the answer which are missing. */
  lemma Settles(env: Env, w: World, c: nat) returns (steps: seq<Step>, w': World)
    requires c in w.clients && w.clients[c].phase.Pinning? && !w.clients[c].phase.made
    requires w.clients[c].phase.done == |ChunksOf(w.clients[c].request)| && w.clients[c].phase.id !in w.rows
    requires forall i <- w.rows :: w.rows[i].key != KeyOf(w.clients[c].request)
    ensures After(env, w, steps) == Some(w') && Own(steps, c)
    ensures var p, request := w.clients[c].phase, w.clients[c].request;
            if p.missing == [] then
              w' == Moved(w, c, Answered(Assembling)).(
                      rows := w.rows[p.id := Row(KeyOf(request), ChunksOf(request), Pending, None, None, None, Secs(w.now), 0)])
            else
              OnlyDisk(w, w', c, Answered(NotFound(p.missing))) && w'.disk == w.disk.(staging := w.disk.staging - {p.id})
  {
    hide Next, ConsultReceipt, KeyOf, ChunksOf;
    var p := w.clients[c].phase;
    if p.missing == [] {
      Turn(env, w, c, EndPin, Inserting(p.id, p.since));
      steps := TwoSteps(env, w, c, EndPin, AddRow(Secs(w.now)));
      w' := Inserts(env, Moved(w, c, Inserting(p.id, p.since)), c);
    } else {
      Turn(env, w, c, EndPin, Discarding(p.id, NotFound(p.missing)));
      var first := OneStep(env, w, c, EndPin);
      var v := Moved(w, c, Discarding(p.id, NotFound(p.missing)));
      var rest: seq<Step>;
      rest, w' := Discard(env, v, c);
      AfterJoin(env, w, first, rest);
      steps := first + rest;
    }
  }

  lemma Inserts(env: Env, w: World, c: nat) returns (w': World)
    requires c in w.clients && w.clients[c].phase.Inserting? && w.clients[c].phase.id !in w.rows
    requires forall i <- w.rows :: w.rows[i].key != KeyOf(w.clients[c].request)
    ensures Next(env, w, ByClient(c, AddRow(Secs(w.now)))) == Some(w')
    ensures var p, request := w.clients[c].phase, w.clients[c].request;
            w' == Moved(w, c, Answered(Assembling)).(
                    rows := w.rows[p.id := Row(KeyOf(request), ChunksOf(request), Pending, None, None, None, Secs(w.now), 0)])
  {
    hide ConsultReceipt, PinChunks, KeyOf, ChunksOf;
    w' := Next(env, w, ByClient(c, AddRow(Secs(w.now)))).value;
  }

  lemma PinnedAll(base: Disk, d: Disk, id: Id, chunks: seq<string>, missing: seq<string>)
    requires Pinned(base, d, id, chunks, |chunks|, missing)
    ensures d.uploads == base.uploads && d.inodes == base.inodes
    ensures id !in base.staging ==> d.(staging := d.staging - {id}) == base
    ensures missing == [] <==> forall h <- chunks :: h in base.uploads
    ensures missing == [] ==> forall h <- chunks :: Staged(d, id, h) && d.staging[id].files[h] == base.uploads[h]
    ensures forall h :: h in missing <==> h in chunks && h !in base.uploads
  {
    assert chunks[..|chunks|] == chunks;
    assert missing == [] || missing[0] in missing;
    assert base.staging - {id} == base.staging || id in base.staging;
  }

  /** It has pinned what there is. */
  lemma PinsAll(env: Env, w: World, c: nat, id: Id) returns (steps: seq<Step>, u: World, p: ClientPhase)
    requires c in w.clients && w.clients[c].phase.Start? && (forall i <- w.rows :: w.rows[i].key != KeyOf(w.clients[c].request))
    requires WellFormed(w.clients[c].request) && id !in w.usedIds
    ensures After(env, w, steps) == Some(u) && Own(steps, c)
    ensures var chunks := ChunksOf(w.clients[c].request);
            && p.Pinning? && p == Pinning(id, w.now, |chunks|, false, p.missing) && Pinned(w.disk, u.disk, id, chunks, |chunks|, p.missing)
    ensures u == Moved(w, c, p).(disk := u.disk, usedIds := w.usedIds + {id})
  {
    hide Next, KeyOf, ChunksOf, WellFormed;
    var begin, v := Begins(env, w, c, id);
    assert Pinned(w.disk, v.disk, id, ChunksOf(w.clients[c].request), 0, []);
    hide Pinned;
    var pin: seq<Step>;
    pin, u, p := PinRest(env, v, c, w.disk);
    AfterJoin(env, w, begin, pin);
    steps := begin + pin;
  }

  /** A well-formed request for a file without a receipt can queue it, if all its chunks
      are uploaded: the row is for its key and its chunks, and they are staged. Otherwise
      it can answer exactly which are not, and leaves everything as it was. */
  lemma RequestsAreAdmitted(env: Env, w: World, c: nat) returns (steps: seq<Step>, w': World, id: Id)
    requires c in w.clients && w.clients[c].phase.Start? && (forall i <- w.rows :: w.rows[i].key != KeyOf(w.clients[c].request))
    requires WellFormed(w.clients[c].request) && IdsAreUsed(w)
    ensures After(env, w, steps) == Some(w') && Own(steps, c) && c in w'.clients && id !in w.usedIds
    ensures var request, chunks := w.clients[c].request, ChunksOf(w.clients[c].request);
            if forall h <- chunks :: h in w.disk.uploads then
              && w'.clients[c].phase == Answered(Assembling)
              && w'.rows == w.rows[id := Row(KeyOf(request), chunks, Pending, None, None, None, Secs(w.now), 0)]
              && w'.disk.uploads == w.disk.uploads && w'.disk.inodes == w.disk.inodes
              && (forall h <- chunks :: Staged(w'.disk, id, h) && w'.disk.staging[id].files[h] == w.disk.uploads[h])
            else
              && w'.rows == w.rows && w'.disk == w.disk
              && w'.clients[c].phase.Answered? && w'.clients[c].phase.answer.NotFound?
              && forall h :: h in w'.clients[c].phase.answer.missing <==> h in chunks && h !in w.disk.uploads
    ensures w' == w.(clients := w'.clients, rows := w'.rows, disk := w'.disk, usedIds := w.usedIds + {id})
    ensures w'.clients == w.clients[c := w'.clients[c]]
  {
    hide Next, KeyOf, ChunksOf, WellFormed;
    id := FreshId(w.usedIds);
    var chunks := ChunksOf(w.clients[c].request);
    hide Pinned, Staged;
    var pin, u, p := PinsAll(env, w, c, id);
    var end: seq<Step>;
    end, w' := Settles(env, u, c);
    AfterJoin(env, w, pin, end);
    steps := pin + end;
    PinnedAll(w.disk, u.disk, id, chunks, p.missing);
  }
}
