/** How sharp the time limits of the queue are: runs that miss one by nothing, or by a
    second, and what goes wrong in them. */
module AssemblyLimits {
  import opened Wrappers
  import opened Hex
  import opened Octets
  import opened StagingDisk
  import opened AssemblyTable
  import opened AssemblyMachine
  import opened AssemblyMoves
  import opened AssemblyChunks
  import opened AssemblySchedule

  /** A chunk hash as `request` normalizes it. */
  predicate IsChunkName(h: string) { IsSha1Hex(h) && Lower(h) == h }

  function Ask(h: string): Request { Request(0, "", None, [h]) }

  const EMPTY := World(0, 0, map[], Disk(map[], map[], map[]), map[], {}, map[], map[], map[], {}, {}, {})

  lemma Extended(env: Env, ws: seq<World>, ss: seq<Step>, s: Step, w: World)
    requires Run(env, ws, ss) && Next(env, ws[|ws| - 1], s) == Some(w)
    ensures Run(env, ws + [w], ss + [s])
  {
    hide Next, Initial;
  }

  lemma ChunksOfAsk(h: string)
    requires IsChunkName(h)
    ensures ChunksOf(Ask(h)) == [h]
  {
  }

  /** What the steps below need to know of a state. */
  ghost predicate Idle(w: World, now: int) {
    w.now == now && w.version == 0 && w.workers == map[] && w.cleaners == map[] && w.usedOwners == {}
  }

  ghost predicate AskedBy(w: World, h: string, phase: ClientPhase) {
    w.clients.Keys == {0} && w.clients[0] == Client(Ask(h), phase)
  }

  /** No admission has taken longer than the retention, and no worker is more than a
      second over its lease. */
  ghost predicate JustLate(env: Env, v: World) {
    && (forall c <- v.clients | Admitted(v.clients[c].phase) :: v.now - v.clients[c].phase.since <= env.retention)
    && (forall o <- v.workers | AtWork(v, o) :: Secs(v.now) <= v.workers[o].renewedAt + LEASE_SECONDS + 1)
  }

  /** A run so far: its states, its steps and where it is. */
  ghost predicate Reaches(env: Env, ws: seq<World>, ss: seq<Step>, w: World) {
    Run(env, ws, ss) && ws != [] && ws[|ws| - 1] == w && forall v <- ws :: JustLate(env, v)
  }

  lemma Goes(env: Env, ws: seq<World>, ss: seq<Step>, w: World, s: Step, w': World)
    requires Reaches(env, ws, ss, w) && Next(env, w, s) == Some(w') && JustLate(env, w')
    ensures Reaches(env, ws + [w'], ss + [s], w')
  {
    Extended(env, ws, ss, s, w');
    hide Run, JustLate, Next;
  }

  lemma Arrives(env: Env, h: string, bytes: Bytes) returns (ws: seq<World>, ss: seq<Step>, w: World)
    requires env.sha1(bytes) == h
    ensures Reaches(env, ws, ss, w)
    ensures Idle(w, 0) && AskedBy(w, h, Start) && w.rows == map[] && w.usedIds == {} && w.disk.uploads.Keys == {h} && w.disk.staging == map[]
  {
    var upload, arrive := OnUploads(Write(h, 0, bytes, 0)), Arrive(0, Ask(h));
    var w1 := Next(env, EMPTY, upload).value;
    w := Next(env, w1, arrive).value;
    ws, ss := [EMPTY], [];
    assert Reaches(env, ws, ss, EMPTY);
    Goes(env, ws, ss, EMPTY, upload, w1);
    Goes(env, ws + [w1], ss + [upload], w1, arrive, w);
    ws, ss := ws + [w1] + [w], ss + [upload] + [arrive];
  }

  /** One step of the request. */
  lemma Asks(env: Env, ws: seq<World>, ss: seq<Step>, w: World, act: ClientAct, plan: ClientPlan)
      returns (ws': seq<World>, ss': seq<Step>, w': World)
    requires Reaches(env, ws, ss, w) && 0 in w.clients && !act.Vanish?
    requires PlanOf(w, w.clients[0], act) == Some(plan) && Possible(w, plan.effect)
    requires w.workers == map[] && w.clients.Keys == {0} && (Admitted(plan.phase) ==> w.now - plan.phase.since <= env.retention)
    ensures Reaches(env, ws', ss', w')
    ensures w' == Apply(w, plan.effect).(clients := w.clients[0 := w.clients[0].(phase := plan.phase)])
  {
    hide PlanOf, Possible, Apply, Reaches;
    w' := Apply(w, plan.effect).(clients := w.clients[0 := w.clients[0].(phase := plan.phase)]);
    ApplyFrame(w, plan.effect);
    assert JustLate(env, w');
    hide JustLate;
    assert ClientStep(w, 0, act) == Some(w');
    hide ClientStep;
    Goes(env, ws, ss, w, ByClient(0, act), w');
    ws', ss' := ws + [w'], ss + [ByClient(0, act)];
  }

  lemma Admits(env: Env, h: string, bytes: Bytes) returns (ws: seq<World>, ss: seq<Step>, w: World)
    requires env.sha1(bytes) == h && IsChunkName(h) && env.retention >= 0
    ensures Reaches(env, ws, ss, w)
    ensures Idle(w, 0) && AskedBy(w, h, Pinning(0, 0, 0, false, [])) && w.rows == map[] && w.usedIds == {0}
    ensures w.disk.uploads.Keys == {h} && w.disk.staging == map[]
  {
    ws, ss, w := Arrives(env, h, bytes);
    ChunksOfAsk(h);
    hide Reaches;
    ws, ss, w := Asks(env, ws, ss, w, Lookup(None), ClientPlan(Admitting, Nothing));
    ws, ss, w := Asks(env, ws, ss, w, Admit(0), ClientPlan(Pinning(0, 0, 0, false, []), Mint(0)));
  }

  /** The request has pinned its chunk at time 0 and is about to insert its row. */
  lemma Pins(env: Env, h: string, bytes: Bytes) returns (ws: seq<World>, ss: seq<Step>, w: World)
    requires env.sha1(bytes) == h && IsChunkName(h) && env.retention >= 0
    ensures Reaches(env, ws, ss, w)
    ensures Idle(w, 0) && AskedBy(w, h, Inserting(0, 0)) && w.rows == map[] && w.usedIds == {0}
    ensures 0 in w.disk.staging && w.disk.staging[0].files.Keys == {h} && w.disk.staging[0].mtime == 0
  {
    ws, ss, w := Admits(env, h, bytes);
    ChunksOfAsk(h);
    hide Reaches;
    ws, ss, w := Asks(env, ws, ss, w, MakeParent, ClientPlan(Pinning(0, 0, 0, true, []), Fs(Mkdir(0, h, 0))));
    ws, ss, w := Asks(env, ws, ss, w, Link, ClientPlan(Pinning(0, 0, 1, false, []), Fs(HardLink(0, h))));
    ws, ss, w := Asks(env, ws, ss, w, EndPin, ClientPlan(Inserting(0, 0), Nothing));
  }

  // ------------------------------------------------------------------ retention --

  /** The cleanup condemns the directory a whole retention after it was made. */
  lemma Condemns(env: Env, h: string, bytes: Bytes) returns (ws: seq<World>, ss: seq<Step>, w: World)
    requires env.sha1(bytes) == h && IsChunkName(h) && env.retention >= 0
    ensures Reaches(env, ws, ss, w)
    ensures w.now == env.retention && w.workers == map[] && AskedBy(w, h, Inserting(0, 0)) && w.rows == map[]
    ensures 0 in w.disk.staging && w.disk.staging[0].files.Keys == {h}
    ensures 0 in w.cleaners && w.cleaners[0].phase == Condemned(0)
  {
    ws, ss, w := Pins(env, h, bytes);
    var w1 := Next(env, w, Tick(env.retention)).value;
    var w2 := Next(env, w1, StartCleanup(0)).value;
    var w3 := Next(env, w2, ByCleaner(0, Examine(0))).value;
    var w4 := Next(env, w3, ByCleaner(0, CheckActive)).value;
    assert JustLate(env, w1) && JustLate(env, w2) && JustLate(env, w3) && JustLate(env, w4);
    hide Reaches, JustLate;
    Goes(env, ws, ss, w, Tick(env.retention), w1);
    ws, ss := ws + [w1], ss + [Tick(env.retention)];
    Goes(env, ws, ss, w1, StartCleanup(0), w2);
    ws, ss := ws + [w2], ss + [StartCleanup(0)];
    Goes(env, ws, ss, w2, ByCleaner(0, Examine(0)), w3);
    ws, ss := ws + [w3], ss + [ByCleaner(0, Examine(0))];
    Goes(env, ws, ss, w3, ByCleaner(0, CheckActive), w4);
    ws, ss, w := ws + [w4], ss + [ByCleaner(0, CheckActive)], w4;
  }

  /** An admission that takes exactly the retention, in any deployment, can end with a
      queued job whose chunk is gone: `Timely` cannot be weakened to `<=`. */
  lemma SlowAdmissionLosesItsChunk(env: Env, h: string, bytes: Bytes) returns (ws: seq<World>, ss: seq<Step>, w: World)
    requires env.sha1(bytes) == h && IsChunkName(h) && env.retention >= 0
    ensures Run(env, ws, ss) && w in ws
    ensures forall v <- ws, c <- v.clients | Admitted(v.clients[c].phase) :: v.now - v.clients[c].phase.since <= env.retention
    ensures 0 in w.rows && Active(w.rows[0]) && w.rows[0].chunks == [h] && !Staged(w.disk, 0, h)
  {
    ws, ss, w := Condemns(env, h, bytes);
    ChunksOfAsk(h);
    var row := InsertRow(0, KeyOf(Ask(h)), [h], 0);
    ws, ss, w := Asks(env, ws, ss, w, AddRow(0), ClientPlan(Answered(Assembling), Sql(row)));
    var last := Next(env, w, ByCleaner(0, UnlinkDir(h))).value;
    assert JustLate(env, last);
    Goes(env, ws, ss, w, ByCleaner(0, UnlinkDir(h)), last);
    ws, ss, w := ws + [last], ss + [ByCleaner(0, UnlinkDir(h))], last;
  }

  // ---------------------------------------------------------------------- leases --

  lemma Queues(env: Env, h: string, bytes: Bytes) returns (ws: seq<World>, ss: seq<Step>, w: World)
    requires env.sha1(bytes) == h && IsChunkName(h) && env.retention >= 0
    ensures Reaches(env, ws, ss, w)
    ensures Idle(w, 0) && AskedBy(w, h, Answered(Assembling))
    ensures w.rows.Keys == {0} && w.rows[0].state == Pending && w.rows[0].claims == 0
  {
    ws, ss, w := Pins(env, h, bytes);
    ChunksOfAsk(h);
    var row := InsertRow(0, KeyOf(Ask(h)), [h], 0);
    ws, ss, w := Asks(env, ws, ss, w, AddRow(0), ClientPlan(Answered(Assembling), Sql(row)));
  }

  /** A worker one second late with its lease, in any deployment, can find another one
      converting the same row: `Prompt` cannot be weakened by a second. */
  lemma LateWorkerIsNotAlone(env: Env, h: string, bytes: Bytes) returns (ws: seq<World>, ss: seq<Step>, w: World)
    requires env.sha1(bytes) == h && IsChunkName(h) && env.retention >= 0
    ensures Run(env, ws, ss) && w in ws
    ensures forall v <- ws, o <- v.workers | AtWork(v, o) :: Secs(v.now) <= v.workers[o].renewedAt + LEASE_SECONDS + 1
    ensures AtWork(w, 0) && AtWork(w, 1) && w.workers[0].id == w.workers[1].id
  {
    ws, ss, w := Queues(env, h, bytes);
    var late := 61 * NANOS_PER_SECOND;
    var w1 := Next(env, w, TakeJob(0, 0, 0)).value;
    var w2 := Next(env, w1, Tick(late)).value;
    var w3 := Next(env, w2, TakeJob(1, 0, 61)).value;
    assert JustLate(env, w1) && JustLate(env, w2) && JustLate(env, w3);
    Goes(env, ws, ss, w, TakeJob(0, 0, 0), w1);
    ws, ss := ws + [w1], ss + [TakeJob(0, 0, 0)];
    Goes(env, ws, ss, w1, Tick(late), w2);
    ws, ss := ws + [w2], ss + [Tick(late)];
    Goes(env, ws, ss, w2, TakeJob(1, 0, 61), w3);
    ws, ss, w := ws + [w3], ss + [TakeJob(1, 0, 61)], w3;
  }
}
