/** What a step of the assembly queue amounts to, whoever takes it: one effect on
    the shared state, and one move of the actor entitled to that effect. */
module AssemblyMoves {
  import opened Wrappers
  import opened Octets
  import opened StagingDisk
  import opened AssemblyTable
  import opened AssemblyMachine

  /** A request's moves, by the effect they have. */
  ghost predicate ClientMoves(w: World, me: Client, act: ClientAct, q: ClientPhase, e: Effect) {
    var p := me.phase;
    var chunks := ChunksOf(me.request);
    match e
    case Nothing =>
      || (p.Start? && q == Admitting)
      || (p.Start? && q == Answered(Assembling))
      || (p.Start? && q.Judging? && q.receipt in w.rows && q.row == w.rows[q.receipt]
          && q.row.key == KeyOf(me.request) && !Active(q.row))
      || (p.Judging? && q.Answered? && q.answer.Failed?)
      || (p.Judging? && q.Checking? && q.receipt == p.receipt && p.row.result == Some(q.result)
          && q.pos == 0 && q.path.None?
          && (q.usable && p.row.state == Success ==> q.result.version == w.version))
      || (p.Checking? && q.Expiring? && q.receipt == p.receipt)
      || (act.CheckPath? && p.Checking? && p.path.None? && p.pos < |p.result.artifacts| && p.result.artifacts[p.pos] in w.canon
          && q == p.(path := Some(w.canon[p.result.artifacts[p.pos]])))
      || (act.CheckFile? && p.Checking? && p.path.Some? && p.path.value in w.files && q == p.(pos := p.pos + 1, path := None))
      || (act.Conclude? && p.Checking? && p.path.None? && p.pos >= |p.result.artifacts| && p.usable
          && q == Answered(p.result.response))
      || (p.Admitting? && q.Answered? && q.answer.Failed?)
      || (p.Pinning? && !p.made && p.done < |chunks| && chunks[p.done] in chunks[..p.done] && q == p.(done := p.done + 1))
      || (p.Pinning? && p.done < |chunks| && q == p.(done := p.done + 1, made := false, missing := p.missing + [chunks[p.done]]))
      || (p.Pinning? && p.done >= |chunks| && p.missing == [] && q == Inserting(p.id, p.since))
      || ((p.Pinning? || p.Inserting?) && q.Discarding? && q.id == p.id && (q.answer.Failed? || q.answer.NotFound?))
      || (p.Discarding? && q == Answered(p.answer))
    case Mint(id) => p.Admitting? && q == Pinning(id, w.now, 0, false, [])
    case Sql(InsertRow(id, key, cs, t)) =>
      && act == AddRow(t) && p.Inserting? && id == p.id && key == KeyOf(me.request) && cs == chunks && t <= Secs(w.now)
      && q == if KeyTaken(w.rows, key) then Discarding(id, Assembling) else Answered(Assembling)
    case Sql(ExpireRow(id)) => p == Expiring(id) && q.Admitting?
    case Fs(Mkdir(id, hash, now)) =>
      && p.Pinning? && !p.made && id == p.id && p.done < |chunks| && hash == chunks[p.done] && now == w.now
      && q == p.(made := true)
    case Fs(HardLink(id, hash)) =>
      && p.Pinning? && p.made && id == p.id && p.done < |chunks| && hash == chunks[p.done]
      && q == p.(done := p.done + 1, made := false)
    case Fs(Unlink(id, hash)) => p.Discarding? && id == p.id && q == p
    case Fs(Rmdir(id)) => p.Discarding? && id == p.id && q == Answered(p.answer)
    case _ => false
  }

  /** A worker's moves; `q` is nothing once it returned or died. */
  ghost predicate WorkerMoves(env: Env, w: World, o: Owner, me: Worker, work: WorkerAct, q: Option<Worker>, e: Effect) {
    match e
    case Nothing =>
      || q.None?
      || (Converting(me.phase) && q == Some(me.(lost := true)))
      || (me.phase.Reading? && |me.phase.parts| < |me.chunks| && Readable(w.disk, me.id, me.chunks[|me.phase.parts|])
          && (var more := me.phase.parts + [Contents(w.disk, me.id, me.chunks[|me.phase.parts|])];
              || (q == Some(me.(phase := Reading(more))) && |Concat(more)| <= env.maxBytes)
              || (q.Some? && q.value == me.(phase := q.value.phase) && q.value.phase.Finished? && q.value.phase.outcome.Err?)))
      || (me.phase.Reading? && |me.phase.parts| >= |me.chunks| && env.sha1(Concat(me.phase.parts)) == me.key.checksum
          && q.Some? && q.value.phase.Storing? && q.value == me.(phase := Storing(me.phase.parts, q.value.phase.name, [])))
      || (work.EndConversion? && me.phase.Storing? && multiset(work.listed) == multiset(me.phase.stored)
          && q == Some(me.(phase := Finished(me.phase.parts, Ok(AssemblyResult(
               Completed(me.key.checksum, me.phase.name), work.listed, w.version))))))
      || (Converting(me.phase) && q.Some? && q.value == me.(phase := q.value.phase)
          && q.value.phase.Finished? && q.value.phase.outcome.Err?)
    case Canonical(kind, path) =>
      me.phase.Storing? && q == Some(me.(phase := me.phase.(stored := me.phase.stored + [kind])))
    case Sql(RenewRow(id, owner, t)) =>
      && owner == o && id == me.id && Holds(w.rows, id, o) && Converting(me.phase) && !me.lost && t <= Secs(w.now)
      && q == Some(me.(renewedAt := t))
    case Sql(PublishRow(id, owner, success, result, t)) =>
      && work == PublishResult(t) && owner == o && id == me.id && me.phase.Finished? && !me.lost && t <= Secs(w.now)
      && success == me.phase.outcome.Ok? && result == ResultOf(w, me.phase.outcome)
      && q == if Holds(w.rows, id, o) then Some(me.(phase := Cleaning)) else None
    case Fs(Unlink(id, hash)) => me.phase.Cleaning? && id == me.id && q == Some(me)
    case Fs(Rmdir(id)) => me.phase.Cleaning? && id == me.id && q.None?
    case _ => false
  }

  ghost predicate CleanerMoves(w: World, me: Cleaner, q: CleanerPhase, e: Effect) {
    var p := me.phase;
    match e
    case Nothing =>
      || (p.Scanning? && q.Examined? && q.id in w.disk.staging && w.disk.staging[q.id].mtime <= me.cutoff)
      || (p.Examined? && q.Scanning?)
      || (p.Examined? && q == Condemned(p.id) && !(p.id in w.rows && Active(w.rows[p.id])))
    case Fs(Unlink(id, hash)) => p == Condemned(id) && q == p
    case Fs(Rmdir(id)) => p == Condemned(id) && q.Scanning?
    case _ => false
  }

  /** What the effect does to the shared state. */
  ghost predicate Shared(w: World, s: Step, e: Effect, w': World) {
    && Possible(w, e)
    && var after := Apply(w, e);
       && w'.rows == after.rows && w'.disk == after.disk && w'.usedIds == after.usedIds
       && w'.now == w.now + (if s.Tick? then s.nanos else 0)
       && w'.usedOwners == w.usedOwners + (if s.TakeJob? then {s.o} else {})
       && w'.usedClients == w.usedClients + (if s.Arrive? then {s.c} else {})
       && (!s.Restart? ==> w'.version == w.version)
  }

  ghost predicate ClientsMove(w: World, s: Step, e: Effect, clients: map<nat, Client>) {
    match s
    case ByClient(c, act) =>
      c in w.clients &&
      (if c !in clients then e == Nothing && clients == w.clients - {c}
       else clients == w.clients[c := w.clients[c].(phase := clients[c].phase)]
            && ClientMoves(w, w.clients[c], act, clients[c].phase, e))
    case Arrive(c, request) => e == Nothing && c !in w.usedClients && clients == w.clients[c := Client(request, Start)]
    case Restart(_) => e == Nothing && clients == map[]
    case _ => clients == w.clients
  }

  ghost predicate WorkersMove(env: Env, w: World, s: Step, e: Effect, workers: map<Owner, Worker>) {
    match s
    case ByWorker(o, work) =>
      && o in w.workers
      && workers == (if o in workers then w.workers[o := workers[o]] else w.workers - {o})
      && WorkerMoves(env, w, o, w.workers[o], work, Entry(workers, o), e)
    case TakeJob(o, id, t) =>
      && e == Sql(ClaimRow(id, o, t)) && o !in w.usedOwners && t <= Secs(w.now) && id in w.rows
      && workers == w.workers[o := Worker(id, w.rows[id].key, w.rows[id].chunks, t, false,
           if w.rows[id].claims + 1 > MAX_CLAIMS then Finished([], Err("processing was interrupted")) else Reading([]))]
    case Restart(_) => e == Nothing && workers == map[]
    case _ => workers == w.workers
  }

  ghost predicate CleanersMove(env: Env, w: World, s: Step, e: Effect, cleaners: map<nat, Cleaner>) {
    match s
    case ByCleaner(k, clean) =>
      k in w.cleaners &&
      (if k !in cleaners then e == Nothing && cleaners == w.cleaners - {k}
       else cleaners == w.cleaners[k := w.cleaners[k].(phase := cleaners[k].phase)]
            && CleanerMoves(w, w.cleaners[k], cleaners[k].phase, e))
    case StartCleanup(k) =>
      e == Nothing && k !in w.cleaners && cleaners == w.cleaners[k := Cleaner(w.now - env.retention, Scanning)]
    case Restart(_) => e == Nothing && cleaners == map[]
    case _ => cleaners == w.cleaners
  }

  /** The whole step. */
  ghost predicate Moves(env: Env, w: World, s: Step, e: Effect, w': World) {
    && Shared(w, s, e, w')
    && ClientsMove(w, s, e, w'.clients)
    && WorkersMove(env, w, s, e, w'.workers)
    && CleanersMove(env, w, s, e, w'.cleaners)
    && (s.OnUploads? ==> e == Fs(s.op) && UploadOp(env, w, s.op))
    && (s.PublishElsewhere? ==> e == Canonical(s.kind, s.path))
    && (s.Tick? || s.LoseArtifact? ==> e == Nothing)
  }

  lemma ApplyFrame(w: World, e: Effect)
    requires Possible(w, e)
    ensures var a := Apply(w, e);
            && a.now == w.now && a.version == w.version && a.clients == w.clients && a.workers == w.workers
            && a.cleaners == w.cleaners && a.usedOwners == w.usedOwners && a.usedClients == w.usedClients
  {
  }

  lemma ConsultMoves(w: World, me: Client, act: ClientAct)
    requires IsConsulting(act) && ConsultReceipt(w, me, act).Some?
    ensures var plan := ConsultReceipt(w, me, act).value; ClientMoves(w, me, act, plan.phase, plan.effect)
  {
  }

  lemma PinMoves(w: World, me: Client, act: ClientAct)
    requires IsPinning(act) && PinChunks(w, me, act).Some?
    ensures var plan := PinChunks(w, me, act).value; ClientMoves(w, me, act, plan.phase, plan.effect)
  {
  }

  lemma EnqueueMoves(w: World, me: Client, act: ClientAct)
    requires !IsConsulting(act) && !IsPinning(act) && Enqueue(w, me, act).Some?
    ensures var plan := Enqueue(w, me, act).value; ClientMoves(w, me, act, plan.phase, plan.effect)
  {
  }

  lemma WorkMoves(env: Env, w: World, o: Owner, me: Worker, work: WorkerAct)
    requires WorkOf(env, w, o, me, work).Some?
    ensures var plan := WorkOf(env, w, o, me, work).value; WorkerMoves(env, w, o, me, work, plan.me, plan.effect)
  {
  }

  lemma CleanMoves(w: World, me: Cleaner, clean: CleanerAct)
    requires CleanPlan(w, me, clean).Some?
    ensures var plan := CleanPlan(w, me, clean).value; CleanerMoves(w, me, plan.phase, plan.effect)
  {
  }

  lemma ClientApplied(env: Env, w: World, c: nat, act: ClientAct, plan: ClientPlan, w': World)
    requires c in w.clients && Possible(w, plan.effect)
    requires ClientMoves(w, w.clients[c], act, plan.phase, plan.effect)
    requires w' == Apply(w, plan.effect).(clients := w.clients[c := w.clients[c].(phase := plan.phase)])
    ensures Moves(env, w, ByClient(c, act), plan.effect, w')
  {
    ApplyFrame(w, plan.effect);
    assert w'.clients[c].phase == plan.phase;
  }

  lemma ClientStepMoves(env: Env, w: World, c: nat, act: ClientAct, w': World) returns (e: Effect)
    requires ClientStep(w, c, act) == Some(w')
    ensures Moves(env, w, ByClient(c, act), e, w')
  {
    e := Nothing;
    if !act.Vanish? {
      var me := w.clients[c];
      var plan := PlanOf(w, me, act).value;
      if IsConsulting(act) {
        ConsultMoves(w, me, act);
      } else if IsPinning(act) {
        PinMoves(w, me, act);
      } else {
        EnqueueMoves(w, me, act);
      }
      ClientApplied(env, w, c, act, plan, w');
      e := plan.effect;
    }
  }

  lemma WorkerApplied(env: Env, w: World, o: Owner, work: WorkerAct, plan: WorkerPlan, w': World)
    requires o in w.workers && Possible(w, plan.effect)
    requires WorkerMoves(env, w, o, w.workers[o], work, plan.me, plan.effect)
    requires w' == Apply(w, plan.effect).(workers := if plan.me.Some? then w.workers[o := plan.me.value] else w.workers - {o})
    ensures Moves(env, w, ByWorker(o, work), plan.effect, w')
  {
    ApplyFrame(w, plan.effect);
    assert Entry(w'.workers, o) == plan.me;
  }

  lemma WorkerStepMoves(env: Env, w: World, o: Owner, work: WorkerAct, w': World) returns (e: Effect)
    requires WorkerStep(env, w, o, work) == Some(w')
    ensures Moves(env, w, ByWorker(o, work), e, w')
  {
    var plan := WorkOf(env, w, o, w.workers[o], work).value;
    WorkMoves(env, w, o, w.workers[o], work);
    WorkerApplied(env, w, o, work, plan, w');
    e := plan.effect;
  }

  lemma CleanerApplied(env: Env, w: World, k: nat, clean: CleanerAct, plan: CleanerPlan, w': World)
    requires k in w.cleaners && Possible(w, plan.effect)
    requires CleanerMoves(w, w.cleaners[k], plan.phase, plan.effect)
    requires w' == Apply(w, plan.effect).(cleaners := w.cleaners[k := w.cleaners[k].(phase := plan.phase)])
    ensures Moves(env, w, ByCleaner(k, clean), plan.effect, w')
  {
  }

  lemma CleanerStepMoves(env: Env, w: World, k: nat, clean: CleanerAct, w': World) returns (e: Effect)
    requires CleanerStep(w, k, clean) == Some(w')
    ensures Moves(env, w, ByCleaner(k, clean), e, w')
  {
    e := Nothing;
    if !clean.Stop? {
      var plan := CleanPlan(w, w.cleaners[k], clean).value;
      CleanMoves(w, w.cleaners[k], clean);
      CleanerApplied(env, w, k, clean, plan, w');
      e := plan.effect;
    }
  }

  lemma StepMoves(env: Env, w: World, s: Step, w': World) returns (e: Effect)
    requires Next(env, w, s) == Some(w')
    ensures Moves(env, w, s, e, w')
  {
    hide ClientStep, WorkerStep, CleanerStep, ClientMoves, WorkerMoves, CleanerMoves;
    match s
    case ByClient(c, act) => e := ClientStepMoves(env, w, c, act, w');
    case ByWorker(o, work) => e := WorkerStepMoves(env, w, o, work, w');
    case ByCleaner(k, clean) => e := CleanerStepMoves(env, w, k, clean, w');
    case TakeJob(o, id, t) => e := Sql(ClaimRow(id, o, t));
    case OnUploads(op) => e := Fs(op);
    case PublishElsewhere(kind, path) => e := Canonical(kind, path);
    case _ => e := Nothing;
  }
}
