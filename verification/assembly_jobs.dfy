/** What a job comes to when nothing interferes, and the whole way of a file: asked for,
    converted, asked for again. */
module AssemblyJobs {
  import opened Wrappers
  import opened Hex
  import opened Octets
  import opened StagingDisk
  import opened AssemblyTable
  import opened AssemblyMachine
  import opened AssemblyProgress

  /** All steps are the worker's own. */
  predicate OwnWork(steps: seq<Step>, o: Owner) {
    forall s <- steps :: (s.ByWorker? && s.o == o) || (s.TakeJob? && s.o == o)
  }

  function Working(w: World, o: Owner, phase: WorkerPhase): World
    requires o in w.workers
  {
    w.(workers := w.workers[o := w.workers[o].(phase := phase)])
  }

  lemma OneJobStep(env: Env, w: World, o: Owner, work: WorkerAct) returns (steps: seq<Step>)
    ensures After(env, w, steps) == Next(env, w, ByWorker(o, work)) && OwnWork(steps, o)
  {
    hide Next;
    assert After(env, w, []) == Some(w);
    AfterNext(env, w, [], ByWorker(o, work));
    steps := [] + [ByWorker(o, work)];
  }

  lemma JobTurn(env: Env, w: World, o: Owner, work: WorkerAct, phase: WorkerPhase)
    requires o in w.workers
    requires WorkOf(env, w, o, w.workers[o], work) == Some(WorkerPlan(Some(w.workers[o].(phase := phase)), Nothing))
    ensures Next(env, w, ByWorker(o, work)) == Some(Working(w, o, phase))
  {
    hide WorkOf;
  }

  // -------------------------------------------------------------------- reading --

  /** Concatenation puts the parts one after another. */
  lemma {:induction false} ConcatJoins(a: seq<Bytes>, b: seq<Bytes>)
    ensures Concat(a + b) == Concat(a) + Concat(b)
    decreases |b|
  {
    if b == [] {
      assert a + b == a;
    } else {
      var rest, last := b[..|b| - 1], b[|b| - 1];
      ConcatJoins(a, rest);
      assert (a + b)[..|a + b| - 1] == a + rest && (a + b)[|a + b| - 1] == last;
    }
  }

  lemma ConcatOne(x: Bytes)
    ensures Concat([]) == [] && Concat([x]) == x
  {
    assert [x][..0] == [] && Concat([]) + x == x;
  }

  predicate AllReadable(d: Disk, id: Id, chunks: seq<string>) {
    forall h <- chunks :: Readable(d, id, h)
  }

  /** The contents of the chunks, in order. */
  function PartsOf(d: Disk, id: Id, chunks: seq<string>): (parts: seq<Bytes>)
    requires AllReadable(d, id, chunks)
    ensures |parts| == |chunks| && forall i | 0 <= i < |chunks| :: parts[i] == Contents(d, id, chunks[i])
  {
    seq(|chunks|, i requires 0 <= i < |chunks| => Contents(d, id, chunks[i]))
  }

  lemma PrefixFits(parts: seq<Bytes>, k: nat)
    requires k <= |parts|
    ensures |Concat(parts[..k])| <= |Concat(parts)|
  {
    assert parts[..k] + parts[k..] == parts;
    ConcatJoins(parts[..k], parts[k..]);
  }

  /** One chunk more is read, or it is the one that is too much. */
  lemma ReadNext(env: Env, w: World, o: Owner) returns (steps: seq<Step>, phase: WorkerPhase)
    requires o in w.workers && w.workers[o].phase.Reading? && AllReadable(w.disk, w.workers[o].id, w.workers[o].chunks)
    requires var me := w.workers[o];
             |me.phase.parts| < |me.chunks| && me.phase.parts == PartsOf(w.disk, me.id, me.chunks)[..|me.phase.parts|]
    ensures After(env, w, steps) == Some(Working(w, o, phase)) && OwnWork(steps, o)
    ensures var me := w.workers[o];
            var more := PartsOf(w.disk, me.id, me.chunks)[..|me.phase.parts| + 1];
            if |Concat(more)| <= env.maxBytes then phase == Reading(more) else phase.Finished? && phase.outcome.Err?
  {
    hide Next;
    var me := w.workers[o];
    var k := |me.phase.parts|;
    var all := PartsOf(w.disk, me.id, me.chunks);
    assert me.chunks[k] in me.chunks && all[..k + 1] == all[..k] + [all[k]];
    phase := if |Concat(all[..k + 1])| <= env.maxBytes then Reading(all[..k + 1])
             else Finished(all[..k + 1], Err("assembled file exceeds uploads.max_bytes"));
    JobTurn(env, w, o, ReadChunk, phase);
    steps := OneJobStep(env, w, o, ReadChunk);
  }

  lemma WorkingTwice(w: World, o: Owner, p: WorkerPhase, q: WorkerPhase)
    requires o in w.workers
    ensures o in Working(w, o, p).workers && Working(w, o, p).workers[o] == w.workers[o].(phase := p)
    ensures Working(Working(w, o, p), o, q) == Working(w, o, q) && Working(w, o, p).disk == w.disk
  {
  }

  lemma {:induction false} ReadRest(env: Env, w: World, o: Owner) returns (steps: seq<Step>, phase: WorkerPhase)
    requires o in w.workers && w.workers[o].phase.Reading? && AllReadable(w.disk, w.workers[o].id, w.workers[o].chunks)
    requires var me := w.workers[o];
             |me.phase.parts| <= |me.chunks| && me.phase.parts == PartsOf(w.disk, me.id, me.chunks)[..|me.phase.parts|]
             && |Concat(me.phase.parts)| <= env.maxBytes
    ensures After(env, w, steps) == Some(Working(w, o, phase)) && OwnWork(steps, o)
    ensures var me := w.workers[o];
            var all := PartsOf(w.disk, me.id, me.chunks);
            if |Concat(all)| <= env.maxBytes then phase == Reading(all) else phase.Finished? && phase.outcome.Err?
    decreases |w.workers[o].chunks| - |w.workers[o].phase.parts|
  {
    hide Next, Concat, Working;
    var me := w.workers[o];
    var all, k := PartsOf(w.disk, me.id, me.chunks), |me.phase.parts|;
    WorkingTwice(w, o, me.phase, me.phase);
    if k == |me.chunks| {
      assert all[..k] == all;
      steps, phase := [], me.phase;
      WorkingSame(w, o);
    } else {
      var first: seq<Step>;
      first, phase := ReadNext(env, w, o);
      steps := first;
      PrefixFits(all, k + 1);
      if phase.Reading? {
        WorkingTwice(w, o, phase, phase);
        var v := Working(w, o, phase);
        var rest, q := ReadRest(env, v, o);
        WorkingTwice(w, o, phase, q);
        AfterJoin(env, w, first, rest);
        steps, phase := first + rest, q;
      }
    }
  }

  lemma WorkingSame(w: World, o: Owner)
    requires o in w.workers
    ensures Working(w, o, w.workers[o].phase) == w
  {
  }

  // -------------------------------------------------------------------- storing --

  /** What the conversion of the file comes to: its name and its artifacts, each under the
      path its canonical row then has. */
  datatype Outcome = Outcome(name: string, artifacts: seq<(ArtifactKey, string)>)

  function KindsOf(artifacts: seq<(ArtifactKey, string)>): (kinds: seq<ArtifactKey>)
    ensures |kinds| == |artifacts| && forall i | 0 <= i < |kinds| :: kinds[i] == artifacts[i].0
  {
    seq(|artifacts|, i requires 0 <= i < |artifacts| => artifacts[i].0)
  }

  /** The kinds stored so far have their canonical rows and files. */
  ghost predicate AllStored(w: World, kinds: seq<ArtifactKey>) {
    forall a <- kinds :: a in w.canon && w.canon[a] in w.files
  }

  lemma StoredStays(w: World, w': World, kinds: seq<ArtifactKey>)
    requires w'.canon == w.canon && w'.files == w.files
    ensures AllStored(w, kinds) ==> AllStored(w', kinds)
  {
  }

  /** Nothing but the canonical artifacts and the worker's phase has changed. */
  ghost predicate OnlyStore(w: World, w': World, o: Owner, phase: WorkerPhase)
    requires o in w.workers
  {
    w' == Working(w, o, phase).(canon := w'.canon, files := w'.files)
  }

  lemma StoreNext(env: Env, w: World, o: Owner, kind: ArtifactKey, path: string) returns (steps: seq<Step>, w': World, phase: WorkerPhase)
    requires o in w.workers && w.workers[o].phase.Storing? && AllStored(w, w.workers[o].phase.stored)
    ensures After(env, w, steps) == Some(w') && OwnWork(steps, o) && OnlyStore(w, w', o, phase)
    ensures var p := w.workers[o].phase; phase == Storing(p.parts, p.name, p.stored + [kind]) && AllStored(w', phase.stored)
  {
    var p := w.workers[o].phase;
    phase := p.(stored := p.stored + [kind]);
    steps := OneJobStep(env, w, o, StoreArtifact(kind, path));
    w' := Working(w, o, phase).(canon := w.canon[kind := path], files := w.files + {path});
    assert WorkOf(env, w, o, w.workers[o], StoreArtifact(kind, path)) ==
           Some(WorkerPlan(Some(w.workers[o].(phase := phase)), Canonical(kind, path)));
  }

  lemma {:induction false} StoreRest(env: Env, w: World, o: Owner, artifacts: seq<(ArtifactKey, string)>)
      returns (steps: seq<Step>, w': World, phase: WorkerPhase)
    requires o in w.workers && w.workers[o].phase.Storing? && AllStored(w, w.workers[o].phase.stored)
    ensures After(env, w, steps) == Some(w') && OwnWork(steps, o) && OnlyStore(w, w', o, phase)
    ensures var p := w.workers[o].phase;
            phase == Storing(p.parts, p.name, p.stored + KindsOf(artifacts)) && AllStored(w', phase.stored)
    decreases |artifacts|
  {
    hide Next, AllStored;
    var p := w.workers[o].phase;
    if artifacts == [] {
      steps, w', phase := [], w, p;
      assert p.stored + KindsOf(artifacts) == p.stored;
      WorkingSame(w, o);
    } else {
      var first, v, q := StoreNext(env, w, o, artifacts[0].0, artifacts[0].1);
      var rest: seq<Step>;
      rest, w', phase := StoreRest(env, v, o, artifacts[1..]);
      AfterJoin(env, w, first, rest);
      steps := first + rest;
      assert p.stored + KindsOf(artifacts) == p.stored + [artifacts[0].0] + KindsOf(artifacts[1..]);
    }
  }

  // ---------------------------------------------------------------- the whole job --

  /** The staged chunks, one after another. */
  function FileOf(d: Disk, id: Id, chunks: seq<string>): Bytes
    requires AllReadable(d, id, chunks)
  {
    Concat(PartsOf(d, id, chunks))
  }

  /** The file is within the limit and has the checksum asked for. */
  predicate Good(env: Env, key: Key, file: Bytes) {
    |file| <= env.maxBytes && env.sha1(file) == key.checksum
  }

  function ReceiptFor(key: Key, outcome: Outcome, version: nat): AssemblyResult {
    AssemblyResult(Completed(key.checksum, outcome.name), KindsOf(outcome.artifacts), version)
  }

  lemma OnlyStoreThrough(w: World, v: World, u: World, o: Owner, p: WorkerPhase, q: WorkerPhase)
    requires o in w.workers && OnlyStore(w, v, o, p) && OnlyStore(v, u, o, q)
    ensures OnlyStore(w, u, o, q) && u.workers[o] == w.workers[o].(phase := q) && u.version == w.version
  {
  }

  lemma OnlyStoreOwn(w: World, o: Owner, p: WorkerPhase)
    requires o in w.workers
    ensures OnlyStore(w, Working(w, o, p), o, p) && Working(w, o, p).workers[o] == w.workers[o].(phase := p)
    ensures Working(w, o, p).canon == w.canon && Working(w, o, p).files == w.files && Working(w, o, p).version == w.version
  {
  }

  /** The checksum is right, and the artifacts are stored. */
  lemma StoresAll(env: Env, w: World, o: Owner, outcome: Outcome) returns (steps: seq<Step>, u: World, phase: WorkerPhase)
    requires o in w.workers && w.workers[o].phase.Reading? && |w.workers[o].phase.parts| == |w.workers[o].chunks|
    requires env.sha1(Concat(w.workers[o].phase.parts)) == w.workers[o].key.checksum
    ensures After(env, w, steps) == Some(u) && OwnWork(steps, o) && OnlyStore(w, u, o, phase)
    ensures phase == Storing(w.workers[o].phase.parts, outcome.name, KindsOf(outcome.artifacts)) && AllStored(u, phase.stored)
  {
    hide Next, Concat;
    var me := w.workers[o];
    var storing := Storing(me.phase.parts, outcome.name, []);
    JobTurn(env, w, o, CheckSum(outcome.name), storing);
    var first := OneJobStep(env, w, o, CheckSum(outcome.name));
    OnlyStoreOwn(w, o, storing);
    var v := Working(w, o, storing);
    assert AllStored(v, []);
    hide AllStored, Working, OnlyStore;
    var more: seq<Step>;
    more, u, phase := StoreRest(env, v, o, outcome.artifacts);
    OnlyStoreThrough(w, v, u, o, storing, phase);
    assert [] + KindsOf(outcome.artifacts) == KindsOf(outcome.artifacts);
    AfterJoin(env, w, first, more);
    steps := first + more;
  }

  /** The conversion of a good file, once all of it is read. */
  lemma Converts(env: Env, w: World, o: Owner, outcome: Outcome) returns (steps: seq<Step>, w': World, phase: WorkerPhase)
    requires o in w.workers && w.workers[o].phase.Reading? && |w.workers[o].phase.parts| == |w.workers[o].chunks|
    requires env.sha1(Concat(w.workers[o].phase.parts)) == w.workers[o].key.checksum
    ensures After(env, w, steps) == Some(w') && OwnWork(steps, o) && OnlyStore(w, w', o, phase)
    ensures phase.Finished? && phase.outcome == Ok(ReceiptFor(w.workers[o].key, outcome, w.version))
    ensures AllStored(w', KindsOf(outcome.artifacts))
  {
    hide Next, Concat, AllStored;
    var u, q := w, w.workers[o].phase;
    steps, u, q := StoresAll(env, w, o, outcome);
    phase := Finished(q.parts, Ok(ReceiptFor(w.workers[o].key, outcome, w.version)));
    var end := EndConversion(KindsOf(outcome.artifacts));
    JobTurn(env, u, o, end, phase);
    var last := OneJobStep(env, u, o, end);
    w' := Working(u, o, phase);
    OnlyStoreOwn(u, o, phase);
    hide Working, OnlyStore, ReceiptFor;
    OnlyStoreThrough(w, u, w', o, q, phase);
    StoredStays(u, w', KindsOf(outcome.artifacts));
    AfterJoin(env, w, steps, last);
    steps := steps + last;
  }

  /** A conversion without interference: it succeeds exactly for a good file. */
  lemma Finishes(env: Env, w: World, o: Owner, outcome: Outcome) returns (steps: seq<Step>, w': World, phase: WorkerPhase)
    requires o in w.workers && w.workers[o].phase == Reading([]) && AllReadable(w.disk, w.workers[o].id, w.workers[o].chunks)
    ensures After(env, w, steps) == Some(w') && OwnWork(steps, o) && OnlyStore(w, w', o, phase) && phase.Finished?
    ensures var me := w.workers[o];
            if Good(env, me.key, FileOf(w.disk, me.id, me.chunks))
            then phase.outcome == Ok(ReceiptFor(me.key, outcome, w.version)) && AllStored(w', KindsOf(outcome.artifacts))
            else phase.outcome.Err?
  {
    hide Next, Concat, AllStored, ReceiptFor;
    var me := w.workers[o];
    var all := PartsOf(w.disk, me.id, me.chunks);
    ConcatOne([]);
    assert all[..0] == [];
    var q: WorkerPhase;
    steps, q := ReadRest(env, w, o);
    WorkingTwice(w, o, q, q);
    var v := Working(w, o, q);
    if q.Finished? {
      w', phase := v, q;
    } else if env.sha1(Concat(all)) == me.key.checksum {
      var rest: seq<Step>;
      rest, w', phase := Converts(env, v, o, outcome);
      AfterJoin(env, w, steps, rest);
      steps := steps + rest;
    } else {
      phase := Mismatch(env, v, o, outcome.name);
      var rest := OneJobStep(env, v, o, CheckSum(outcome.name));
      AfterJoin(env, w, steps, rest);
      steps, w' := steps + rest, Working(v, o, phase);
    }
  }

  lemma Mismatch(env: Env, w: World, o: Owner, name: string) returns (phase: WorkerPhase)
    requires o in w.workers && w.workers[o].phase.Reading? && |w.workers[o].phase.parts| == |w.workers[o].chunks|
    requires env.sha1(Concat(w.workers[o].phase.parts)) != w.workers[o].key.checksum
    ensures phase.Finished? && phase.outcome.Err? && Next(env, w, ByWorker(o, CheckSum(name))) == Some(Working(w, o, phase))
  {
    phase := Finished(w.workers[o].phase.parts, Err("checksum mismatch"));
    JobTurn(env, w, o, CheckSum(name), phase);
  }

  /** The publish of a worker that holds its lease. */
  lemma Publishes(env: Env, w: World, o: Owner) returns (steps: seq<Step>, w': World)
    requires o in w.workers && w.workers[o].phase.Finished? && !w.workers[o].lost
    requires var id := w.workers[o].id;
             id in w.rows && w.rows[id].state == Processing && w.rows[id].leaseOwner == Some(o)
    ensures After(env, w, steps) == Some(w') && OwnWork(steps, o)
    ensures var me := w.workers[o];
            && w' == Working(w, o, Cleaning).(rows := w'.rows)
            && w'.rows == w.rows[me.id := w.rows[me.id].(
                 state := if me.phase.outcome.Ok? then Success else Failure,
                 result := Some(if me.phase.outcome.Ok? then me.phase.outcome.value
                                else AssemblyResult(Rejected(me.phase.outcome.error), [], w.version)),
                 leaseOwner := None, leaseUntil := None, updatedAt := Secs(w.now))]
  {
    steps := OneJobStep(env, w, o, PublishResult(Secs(w.now)));
    w' := Next(env, w, ByWorker(o, PublishResult(Secs(w.now)))).value;
  }

  /** The claim of the row that is next in order. */
  lemma Takes(env: Env, w: World, o: Owner, id: Id) returns (steps: seq<Step>, w': World)
    requires o !in w.usedOwners && IsNext(w.rows, Secs(w.now), id)
    ensures After(env, w, steps) == Some(w') && OwnWork(steps, o)
    ensures var row := w.rows[id];
            && w'.rows == w.rows[id := row.(state := Processing, leaseOwner := Some(o), leaseUntil := Some(Secs(w.now) + LEASE_SECONDS),
                                            updatedAt := Secs(w.now), claims := row.claims + 1)]
            && o in w'.workers && w'.workers == w.workers[o := w'.workers[o]]
            && w'.workers[o] == Worker(id, row.key, row.chunks, Secs(w.now), false, w'.workers[o].phase)
            && (if row.claims < MAX_CLAIMS then w'.workers[o].phase == Reading([])
                else w'.workers[o].phase.Finished? && w'.workers[o].phase.outcome.Err?)
            && w' == w.(rows := w'.rows, workers := w'.workers, usedOwners := w.usedOwners + {o})
  {
    var s := TakeJob(o, id, Secs(w.now));
    w' := Next(env, w, s).value;
    hide Next;
    assert After(env, w, []) == Some(w);
    AfterNext(env, w, [], s);
    steps := [] + [s];
  }

  /** The row as its worker leaves it. */
  ghost predicate PublishedAs(env: Env, w: World, row: Row, after: Row, good: bool, outcome: Outcome) {
    && after.key == row.key && after.chunks == row.chunks && after.claims == row.claims + 1
    && after.leaseOwner.None? && after.leaseUntil.None? && after.updatedAt == Secs(w.now) && after.result.Some?
    && if good then after.state == Success && after.result.value == ReceiptFor(row.key, outcome, w.version)
       else after.state == Failure && after.result.value.response.Rejected? && after.result.value.artifacts == []
  }

  /** A job without interference is published: as a success with the artifacts it stored
      exactly if it was claimed less than MAX_CLAIMS times and its staged chunks make a good
      file, as an error otherwise. No other row changes. */
  lemma JobsAreConverted(env: Env, w: World, o: Owner, id: Id, outcome: Outcome) returns (steps: seq<Step>, w': World)
    requires o !in w.usedOwners && FirstInLine(w.rows, Secs(w.now), id) && AllReadable(w.disk, id, w.rows[id].chunks)
    ensures After(env, w, steps) == Some(w') && OwnWork(steps, o)
    ensures id in w'.rows && w'.rows == w.rows[id := w'.rows[id]]
    ensures var good := w.rows[id].claims < MAX_CLAIMS && Good(env, w.rows[id].key, FileOf(w.disk, id, w.rows[id].chunks));
            && PublishedAs(env, w, w.rows[id], w'.rows[id], good, outcome)
            && (good ==> AllStored(w', KindsOf(outcome.artifacts)))
    ensures w'.disk == w.disk && w'.version == w.version && w'.clients == w.clients && w'.now == w.now
    ensures o in w'.workers && w'.workers[o].phase.Cleaning? && w'.workers[o].id == id
  {
    hide Next, Good, AllStored, ReceiptFor, FileOf, KindsOf;
    ClaimTakesTheFirst(w.rows, Secs(w.now), id);
    var v: World;
    steps, v := Takes(env, w, o, id);
    hide IsNext, FirstInLine;
    var u, phase := v, v.workers[o].phase;
    if phase == Reading([]) {
      var more: seq<Step>;
      more, u, phase := Finishes(env, v, o, outcome);
      AfterJoin(env, w, steps, more);
      steps := steps + more;
    }
    var last: seq<Step>;
    last, w' := Publishes(env, u, o);
    StoredStays(u, w', KindsOf(outcome.artifacts));
    AfterJoin(env, w, steps, last);
    steps := steps + last;
  }

  /** A worker that has published can remove the job's directory and be done. */
  lemma {:induction false} JobsAreCleanedUp(env: Env, w: World, o: Owner) returns (steps: seq<Step>, w': World)
    requires o in w.workers && w.workers[o].phase.Cleaning?
    ensures After(env, w, steps) == Some(w') && OwnWork(steps, o)
    ensures w' == w.(workers := w.workers - {o}, disk := w.disk.(staging := w.disk.staging - {w.workers[o].id}))
    decreases if w.workers[o].id in w.disk.staging then |w.disk.staging[w.workers[o].id].files| else 0
  {
    var id := w.workers[o].id;
    if id in w.disk.staging && w.disk.staging[id].files != map[] {
      var files := w.disk.staging[id].files;
      var hash :| hash in files;
      assert files.Keys == (files - {hash}).Keys + {hash};
      var v := UnlinksOne(env, w, o, hash);
      hide Next;
      var first := OneJobStep(env, w, o, UnlinkJob(hash));
      var rest: seq<Step>;
      rest, w' := JobsAreCleanedUp(env, v, o);
      AfterJoin(env, w, first, rest);
      steps := first + rest;
    } else {
      steps := OneJobStep(env, w, o, EndJob(true));
      w' := EndsJob(env, w, o);
    }
  }

  lemma UnlinksOne(env: Env, w: World, o: Owner, hash: string) returns (w': World)
    requires o in w.workers && w.workers[o].phase.Cleaning?
    requires var id := w.workers[o].id; id in w.disk.staging && hash in w.disk.staging[id].files
    ensures Next(env, w, ByWorker(o, UnlinkJob(hash))) == Some(w') && w' == w.(disk := w'.disk)
    ensures var id := w.workers[o].id;
            && w'.disk == w.disk.(staging := w'.disk.staging) && w'.disk.staging - {id} == w.disk.staging - {id}
            && id in w'.disk.staging && w'.disk.staging[id].files == w.disk.staging[id].files - {hash}
  {
    w' := Next(env, w, ByWorker(o, UnlinkJob(hash))).value;
    assert w.workers[o := w.workers[o]] == w.workers;
  }

  lemma EndsJob(env: Env, w: World, o: Owner) returns (w': World)
    requires o in w.workers && w.workers[o].phase.Cleaning?
    requires var id := w.workers[o].id; id in w.disk.staging ==> w.disk.staging[id].files == map[]
    ensures Next(env, w, ByWorker(o, EndJob(true))) == Some(w')
    ensures w' == w.(workers := w.workers - {o}, disk := w.disk.(staging := w.disk.staging - {w.workers[o].id}))
  {
    w' := Next(env, w, ByWorker(o, EndJob(true))).value;
  }

  // --------------------------------------------------------------- the whole way --

  /** The uploaded chunks, one after another. */
  function UploadedFile(d: Disk, chunks: seq<string>): Bytes
    requires forall h <- chunks :: h in d.uploads && d.uploads[h] in d.inodes
  {
    Concat(seq(|chunks|, i requires 0 <= i < |chunks| => d.inodes[d.uploads[chunks[i]]].bytes))
  }

  lemma StagedIsUploaded(base: Disk, d: Disk, id: Id, chunks: seq<string>)
    requires forall h <- chunks :: h in base.uploads && base.uploads[h] in base.inodes
    requires d.inodes == base.inodes && forall h <- chunks :: Staged(d, id, h) && d.staging[id].files[h] == base.uploads[h]
    ensures AllReadable(d, id, chunks) && FileOf(d, id, chunks) == UploadedFile(base, chunks)
  {
    assert AllReadable(d, id, chunks);
    assert PartsOf(d, id, chunks) == seq(|chunks|, i requires 0 <= i < |chunks| => base.inodes[base.uploads[chunks[i]]].bytes);
  }

  /** The uploaded chunks of the request make the file it asks for. */
  ghost predicate IsUploaded(env: Env, w: World, request: Request) {
    var chunks := ChunksOf(request);
    && (forall h <- chunks :: h in w.disk.uploads && w.disk.uploads[h] in w.disk.inodes)
    && |UploadedFile(w.disk, chunks)| <= env.maxBytes && env.sha1(UploadedFile(w.disk, chunks)) == Lower(request.checksum)
  }

  /** Nobody has asked for the file, and no other job waits or goes on. */
  ghost predicate NothingElse(w: World, request: Request) {
    IdsAreUsed(w) && forall i <- w.rows :: w.rows[i].key != KeyOf(request) && !Active(w.rows[i])
  }

  lemma QueuedIsGood(env: Env, w: World, v: World, request: Request, id: Id)
    requires IsUploaded(env, w, request) && NothingElse(w, request)
    requires v.disk.inodes == w.disk.inodes && id !in w.rows
    requires v.rows == w.rows[id := Row(KeyOf(request), ChunksOf(request), Pending, None, None, None, Secs(w.now), 0)]
    requires forall h <- ChunksOf(request) :: Staged(v.disk, id, h) && v.disk.staging[id].files[h] == w.disk.uploads[h]
    ensures FirstInLine(v.rows, Secs(v.now), id)
    ensures AllReadable(v.disk, id, ChunksOf(request)) && Good(env, KeyOf(request), FileOf(v.disk, id, ChunksOf(request)))
  {
    StagedIsUploaded(w.disk, v.disk, id, ChunksOf(request));
    hide UploadedFile, FileOf, Lower, ChunksOf, AllReadable;
  }

  lemma FilesAreConverted(env: Env, w: World, c: nat, o: Owner, outcome: Outcome) returns (steps: seq<Step>, u: World, id: Id)
    requires c in w.clients && w.clients[c].phase.Start? && WellFormed(w.clients[c].request) && o !in w.usedOwners
    requires NothingElse(w, w.clients[c].request) && IsUploaded(env, w, w.clients[c].request)
    ensures After(env, w, steps) == Some(u) && c in u.clients && u.clients == w.clients[c := u.clients[c]]
    ensures u.clients[c].phase == Answered(Assembling) && u.version == w.version && AllStored(u, KindsOf(outcome.artifacts))
    ensures id in u.rows && u.rows[id].key == KeyOf(w.clients[c].request) && u.rows[id].state == Success
    ensures u.rows[id].result == Some(ReceiptFor(u.rows[id].key, outcome, w.version))
  {
    hide Next, Good, KeyOf, ChunksOf, WellFormed, AllReadable, UploadedFile, FileOf, Staged, AllStored, ReceiptFor, FirstInLine;
    var v: World;
    steps, v, id := RequestsAreAdmitted(env, w, c);
    QueuedIsGood(env, w, v, w.clients[c].request, id);
    hide NothingElse, IsUploaded;
    var more: seq<Step>;
    more, u := JobsAreConverted(env, v, o, id, outcome);
    AfterJoin(env, w, steps, more);
    steps := steps + more;
  }

  /** A file whose chunks are uploaded can be asked for, converted, and asked for again by
      anybody, who is told that it is there: its name, its checksum, its artifacts. */
  lemma FilesAreAssembled(env: Env, w: World, c: nat, d: nat, o: Owner, outcome: Outcome) returns (steps: seq<Step>, w': World)
    requires c in w.clients && d in w.clients && c != d && w.clients[c].phase.Start? && w.clients[d].phase.Start?
    requires WellFormed(w.clients[c].request) && KeyOf(w.clients[d].request) == KeyOf(w.clients[c].request) && o !in w.usedOwners
    requires NothingElse(w, w.clients[c].request) && IsUploaded(env, w, w.clients[c].request)
    ensures After(env, w, steps) == Some(w') && c in w'.clients && d in w'.clients
    ensures w'.clients[c].phase == Answered(Assembling)
    ensures w'.clients[d].phase == Answered(Completed(Lower(w.clients[c].request.checksum), outcome.name))
    ensures AllStored(w', KindsOf(outcome.artifacts))
  {
    assert KeyOf(w.clients[c].request).checksum == Lower(w.clients[c].request.checksum);
    hide Next, KeyOf, WellFormed, NothingElse, IsUploaded;
    var u: World;
    var id: Id;
    steps, u, id := FilesAreConverted(env, w, c, o, outcome);
    var more := CurrentReceiptIsAnswered(env, u, d, id);
    AfterJoin(env, w, steps, more);
    steps, w' := steps + more, Moved(u, d, Answered(u.rows[id].result.value.response));
    hide After;
  }
}
