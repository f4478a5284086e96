/** The durable assembly queue as a state machine.  One step is one SQL statement,
    one file-system operation, one clock tick or one crash, so everything that can
    happen between two operations of an actor happens between two of its steps.

    The clock counts nanoseconds and never goes back.  A statement binds whole
    seconds read from the clock some time before it runs: the reading is the step's
    `t`, and only `t <= Secs(now)` is known of it. */
module AssemblyMachine {
  import opened Wrappers
  import opened Hex
  import opened Octets
  import opened StagingDisk
  import opened AssemblyTable

  const NANOS_PER_SECOND: int := 1_000_000_000

  function Secs(now: int): int { now / NANOS_PER_SECOND }

  /** What the deployment fixes: the chunk hash, `uploads.max_bytes` and the retention
      (in nanoseconds) that both cleanups are run with. */
  datatype Env = Env(sha1: Bytes -> string, maxBytes: nat, retention: int)

  datatype Request = Request(project: int, checksum: string, debugId: Option<string>, chunks: seq<string>)

  function KeyOf(r: Request): Key {
    Key(r.project, Lower(r.checksum),
        match r.debugId case Some(id) => NormalizeDebugId(id) case None => "")
  }

  function ChunksOf(r: Request): seq<string> {
    seq(|r.chunks|, i requires 0 <= i < |r.chunks| => Lower(r.chunks[i]))
  }

  datatype ClientPhase =
    | Start
    | Judging(receipt: Id, row: Row)
    | Checking(receipt: Id, result: AssemblyResult, usable: bool, pos: nat, path: Option<string>)
    | Expiring(receipt: Id)
    | Admitting
    | Pinning(id: Id, since: int, done: nat, made: bool, missing: seq<string>)
    | Inserting(id: Id, since: int)
    | Discarding(id: Id, answer: Answer)
    | Answered(answer: Answer)

  datatype Client = Client(request: Request, phase: ClientPhase)

  datatype WorkerPhase =
    | Reading(parts: seq<Bytes>)
    | Storing(parts: seq<Bytes>, name: string, stored: seq<ArtifactKey>)
    | Finished(parts: seq<Bytes>, outcome: Result<AssemblyResult, string>)
    | Cleaning

  /** `renewedAt` is the clock reading bound into the worker's last lease write. */
  datatype Worker = Worker(id: Id, key: Key, chunks: seq<string>, renewedAt: int, lost: bool, phase: WorkerPhase)

  datatype CleanerPhase = Scanning | Examined(id: Id) | Condemned(id: Id)
  datatype Cleaner = Cleaner(cutoff: int, phase: CleanerPhase)

  datatype World = World(
    now: int,
    version: nat,
    rows: Table,
    disk: Disk,
    canon: map<ArtifactKey, string>,
    files: set<string>,
    clients: map<nat, Client>,
    workers: map<Owner, Worker>,
    cleaners: map<nat, Cleaner>,
    usedIds: set<Id>,
    usedOwners: set<Owner>,
    usedClients: set<nat>)

  /** `Vanish` is the last of a request: if it is dropped while its chunks are pinned, the
      pinning goes on, and it vanishes when that is over. */
  datatype ClientAct =
    | Lookup(found: Option<Id>)
    | Judge(t: int)
    | CheckPath
    | CheckFile
    | Conclude
    | ExpireReceipt
    | Admit(id: Id)
    | SkipSeen
    | MakeParent
    | Link
    | PinFails(detail: string)
    | EndPin
    | AddRow(t: int)
    | AddFails(detail: string)
    | UnlinkOwn(hash: string)
    | EndDiscard(removed: bool)
    | Vanish

  datatype WorkerAct =
    | ReadChunk
    | CheckSum(name: string)
    | StoreArtifact(kind: ArtifactKey, path: string)
    | EndConversion(listed: seq<ArtifactKey>)
    | ConversionFails(detail: string)
    | Heartbeat(t: int)
    | HeartbeatFails
    | GiveUp
    | PublishResult(t: int)
    | PublishFails
    | UnlinkJob(hash: string)
    | EndJob(removed: bool)
    | Die

  datatype CleanerAct =
    | Examine(id: Id)
    | CheckActive
    | UnlinkDir(hash: string)
    | RemoveDir
    | Stop

  datatype Step =
    | Tick(nanos: nat)
    | OnUploads(op: FsOp)
    | PublishElsewhere(kind: ArtifactKey, path: string)
    | LoseArtifact(path: string)
    | Restart(version: nat)
    | Arrive(c: nat, request: Request)
    | ByClient(c: nat, act: ClientAct)
    | TakeJob(o: Owner, id: Id, t: int)
    | ByWorker(o: Owner, work: WorkerAct)
    | StartCleanup(k: nat)
    | ByCleaner(k: nat, clean: CleanerAct)

  function Concat(parts: seq<Bytes>): Bytes {
    if parts == [] then [] else Concat(parts[..|parts| - 1]) + parts[|parts| - 1]
  }

  // --------------------------------------------------------------- effects --

  /** What one step does outside the actor's own memory: at most one thing. */
  datatype Effect =
    | Nothing
    | Sql(stmt: Statement)
    | Fs(op: FsOp)
    | Mint(id: Id)
    | Canonical(kind: ArtifactKey, path: string)

  predicate Possible(w: World, e: Effect) {
    match e
    case Sql(stmt) => Allowed(w.rows, stmt)
    case Fs(op) => Permitted(w.disk, op)
    case Mint(id) => id !in w.usedIds
    case _ => true
  }

  function Apply(w: World, e: Effect): World
    requires Possible(w, e)
  {
    match e
    case Nothing => w
    case Sql(stmt) => w.(rows := Execute(w.rows, stmt))
    case Fs(op) => w.(disk := Perform(w.disk, op))
    case Mint(id) => w.(usedIds := w.usedIds + {id})
    case Canonical(kind, path) => w.(canon := w.canon[kind := path], files := w.files + {path})
  }

  // ---------------------------------------------------------------- client --

  datatype ClientPlan = ClientPlan(phase: ClientPhase, effect: Effect)

  function Move(phase: ClientPhase): Option<ClientPlan> { Some(ClientPlan(phase, Nothing)) }

  /** The part of `request` before any staging directory exists. */
  function ConsultReceipt(w: World, me: Client, act: ClientAct): Option<ClientPlan> {
    var p := me.phase;
    match act
    case Lookup(found) =>
      if !p.Start? then None
      else if found.None? then if KeyTaken(w.rows, KeyOf(me.request)) then None else Move(Admitting)
      else if found.value !in w.rows || w.rows[found.value].key != KeyOf(me.request) then None
      else Move(if Active(w.rows[found.value]) then Answered(Assembling) else Judging(found.value, w.rows[found.value]))
    case Judge(t) =>
      if !p.Judging? || t > Secs(w.now) then None
      else if p.row.result.None? then Move(Answered(Failed("assembly receipt has no result")))
      else
        var result := p.row.result.value;
        var usable := if p.row.state == Success then result.version == w.version
                      else p.row.updatedAt + ERROR_RETENTION_SECONDS > t;
        Move(Checking(p.receipt, result, usable, 0, None))
    case CheckPath =>
      if !p.Checking? || p.path.Some? || p.pos >= |p.result.artifacts| then None
      else Move(if p.result.artifacts[p.pos] in w.canon
                then p.(path := Some(w.canon[p.result.artifacts[p.pos]]))
                else Expiring(p.receipt))
    case CheckFile =>
      if !p.Checking? || p.path.None? then None
      else Move(if p.path.value in w.files then p.(pos := p.pos + 1, path := None) else Expiring(p.receipt))
    case Conclude =>
      if !p.Checking? || p.path.Some? || p.pos < |p.result.artifacts| then None
      else Move(if p.usable then Answered(p.result.response) else Expiring(p.receipt))
    case ExpireReceipt => if !p.Expiring? then None else Some(ClientPlan(Admitting, Sql(ExpireRow(p.receipt))))
    case _ => None
  }

  /** `pin_chunks`, after the request was checked and given an id. */
  function PinChunks(w: World, me: Client, act: ClientAct): Option<ClientPlan> {
    var p := me.phase;
    var chunks := ChunksOf(me.request);
    match act
    case Admit(id) =>
      if !p.Admitting? || id in w.usedIds then None
      else if chunks == [] then Move(Answered(Failed("no chunks in request")))
      else if exists h <- me.request.chunks :: !IsSha1Hex(h) then Move(Answered(Failed("invalid chunk hash")))
      else Some(ClientPlan(Pinning(id, w.now, 0, false, []), Mint(id)))
    case SkipSeen =>
      if !p.Pinning? || p.made || p.done >= |chunks| || chunks[p.done] !in chunks[..p.done] then None
      else Move(p.(done := p.done + 1))
    case MakeParent =>
      if !p.Pinning? || p.made || p.done >= |chunks| || chunks[p.done] in chunks[..p.done] then None
      else Some(ClientPlan(p.(made := true), Fs(Mkdir(p.id, chunks[p.done], w.now))))
    case Link =>
      if !p.Pinning? || !p.made || p.done >= |chunks| then None
      else if CanLink(w.disk, p.id, chunks[p.done]) then
        Some(ClientPlan(p.(done := p.done + 1, made := false), Fs(HardLink(p.id, chunks[p.done]))))
      else
        Move(p.(done := p.done + 1, made := false, missing := p.missing + [chunks[p.done]]))
    case PinFails(detail) => if !p.Pinning? then None else Move(Discarding(p.id, Failed(detail)))
    case EndPin =>
      if !p.Pinning? || p.made || p.done < |chunks| then None
      else Move(if p.missing == [] then Inserting(p.id, p.since) else Discarding(p.id, NotFound(p.missing)))
    case _ => None
  }

  /** The insert, and removing the directory when there is no row to keep it for. */
  function Enqueue(w: World, me: Client, act: ClientAct): Option<ClientPlan> {
    var p := me.phase;
    match act
    case AddRow(t) =>
      if !p.Inserting? || t > Secs(w.now) then None
      else Some(ClientPlan(if KeyTaken(w.rows, KeyOf(me.request)) then Discarding(p.id, Assembling) else Answered(Assembling),
                           Sql(InsertRow(p.id, KeyOf(me.request), ChunksOf(me.request), t))))
    case AddFails(detail) => if !p.Inserting? then None else Move(Discarding(p.id, Failed(detail)))
    case UnlinkOwn(hash) => if !p.Discarding? then None else Some(ClientPlan(p, Fs(Unlink(p.id, hash))))
    case EndDiscard(removed) =>
      if !p.Discarding? then None
      else if removed then Some(ClientPlan(Answered(p.answer), Fs(Rmdir(p.id))))
      else Move(Answered(p.answer))
    case _ => None
  }

  predicate IsConsulting(act: ClientAct) {
    act.Lookup? || act.Judge? || act.CheckPath? || act.CheckFile? || act.Conclude? || act.ExpireReceipt?
  }

  predicate IsPinning(act: ClientAct) {
    act.Admit? || act.SkipSeen? || act.MakeParent? || act.Link? || act.PinFails? || act.EndPin?
  }

  function PlanOf(w: World, me: Client, act: ClientAct): Option<ClientPlan> {
    if IsConsulting(act) then ConsultReceipt(w, me, act)
    else if IsPinning(act) then PinChunks(w, me, act)
    else Enqueue(w, me, act)
  }

  function ClientStep(w: World, c: nat, act: ClientAct): Option<World> {
    if c !in w.clients then None
    else if act.Vanish? then Some(w.(clients := w.clients - {c}))
    else
      match PlanOf(w, w.clients[c], act)
      case None => None
      case Some(plan) =>
        if !Possible(w, plan.effect) then None
        else Some(Apply(w, plan.effect).(clients := w.clients[c := w.clients[c].(phase := plan.phase)]))
  }

  // ---------------------------------------------------------------- worker --

  /** `me` is what is left of the worker: nothing once it returned or died. */
  datatype WorkerPlan = WorkerPlan(me: Option<Worker>, effect: Effect)

  function Turn(me: Worker, phase: WorkerPhase): Option<WorkerPlan> {
    Some(WorkerPlan(Some(me.(phase := phase)), Nothing))
  }

  /** `assemble_one`: it goes on whether or not the lease is still held. */
  function Convert(env: Env, w: World, me: Worker, act: WorkerAct): Option<WorkerPlan> {
    var p := me.phase;
    match act
    case ReadChunk =>
      if !p.Reading? || |p.parts| >= |me.chunks| then None
      else if !Readable(w.disk, me.id, me.chunks[|p.parts|]) then
        Turn(me, Finished(p.parts, Err("assembly staging chunks missing")))
      else
        var more := p.parts + [Contents(w.disk, me.id, me.chunks[|p.parts|])];
        Turn(me, if |Concat(more)| > env.maxBytes
                 then Finished(more, Err("assembled file exceeds uploads.max_bytes"))
                 else Reading(more))
    case CheckSum(name) =>
      if !p.Reading? || |p.parts| < |me.chunks| then None
      else Turn(me, if env.sha1(Concat(p.parts)) != me.key.checksum then Finished(p.parts, Err("checksum mismatch"))
                    else Storing(p.parts, name, []))
    case StoreArtifact(kind, path) =>
      if !p.Storing? then None
      else Some(WorkerPlan(Some(me.(phase := p.(stored := p.stored + [kind]))), Canonical(kind, path)))
    case EndConversion(listed) =>
      if !p.Storing? || multiset(listed) != multiset(p.stored) then None
      else Turn(me, Finished(p.parts, Ok(AssemblyResult(Completed(me.key.checksum, p.name), listed, w.version))))
    case ConversionFails(detail) => if !Converting(p) then None else Turn(me, Finished(p.parts, Err(detail)))
    case _ => None
  }

  predicate Converting(p: WorkerPhase) { p.Reading? || p.Storing? }

  /** The heartbeat task beside the conversion. */
  function Beat(w: World, o: Owner, me: Worker, act: WorkerAct): Option<WorkerPlan> {
    if !Converting(me.phase) || me.lost then None
    else
      match act
      case Heartbeat(t) =>
        if t > Secs(w.now) then None
        else if Holds(w.rows, me.id, o) then Some(WorkerPlan(Some(me.(renewedAt := t)), Sql(RenewRow(me.id, o, t))))
        else Some(WorkerPlan(Some(me.(lost := true)), Nothing))
      case HeartbeatFails => Some(WorkerPlan(Some(me.(lost := true)), Nothing))
      case _ => None
  }

  function ResultOf(w: World, outcome: Result<AssemblyResult, string>): AssemblyResult {
    match outcome
    case Ok(result) => result
    case Err(detail) => AssemblyResult(Rejected(detail), [], w.version)
  }

  /** The rest of `run_job` once the conversion is over. */
  function Settle(w: World, o: Owner, me: Worker, act: WorkerAct): Option<WorkerPlan> {
    var p := me.phase;
    match act
    case GiveUp => if me.lost && p.Finished? then Some(WorkerPlan(None, Nothing)) else None
    case PublishResult(t) =>
      if me.lost || !p.Finished? || t > Secs(w.now) then None
      else Some(WorkerPlan(if Holds(w.rows, me.id, o) then Some(me.(phase := Cleaning)) else None,
                           Sql(PublishRow(me.id, o, p.outcome.Ok?, ResultOf(w, p.outcome), t))))
    case PublishFails => if me.lost || !p.Finished? then None else Some(WorkerPlan(None, Nothing))
    case UnlinkJob(hash) => if !p.Cleaning? then None else Some(WorkerPlan(Some(me), Fs(Unlink(me.id, hash))))
    case EndJob(removed) =>
      if !p.Cleaning? then None else Some(WorkerPlan(None, if removed then Fs(Rmdir(me.id)) else Nothing))
    case Die => Some(WorkerPlan(None, Nothing))
    case _ => None
  }

  predicate IsConversion(act: WorkerAct) {
    act.ReadChunk? || act.CheckSum? || act.StoreArtifact? || act.EndConversion? || act.ConversionFails?
  }

  function WorkOf(env: Env, w: World, o: Owner, me: Worker, act: WorkerAct): Option<WorkerPlan> {
    if IsConversion(act) then Convert(env, w, me, act)
    else if act.Heartbeat? || act.HeartbeatFails? then Beat(w, o, me, act)
    else Settle(w, o, me, act)
  }

  function WorkerStep(env: Env, w: World, o: Owner, act: WorkerAct): Option<World> {
    if o !in w.workers then None
    else
      match WorkOf(env, w, o, w.workers[o], act)
      case None => None
      case Some(plan) =>
        if !Possible(w, plan.effect) then None
        else Some(Apply(w, plan.effect).(workers := if plan.me.Some? then w.workers[o := plan.me.value] else w.workers - {o}))
  }

  /** The claim: a row over MAX_CLAIMS goes straight to publishing an error. */
  function TakeJobStep(w: World, o: Owner, id: Id, t: int): Option<World> {
    if o in w.usedOwners || t > Secs(w.now) || !IsNext(w.rows, t, id) then None
    else
      var row := w.rows[id];
      var phase := if row.claims + 1 > MAX_CLAIMS then Finished([], Err("processing was interrupted")) else Reading([]);
      Some(Apply(w, Sql(ClaimRow(id, o, t))).(
             workers := w.workers[o := Worker(id, row.key, row.chunks, t, false, phase)],
             usedOwners := w.usedOwners + {o}))
  }

  // --------------------------------------------------------------- cleanup --

  datatype CleanerPlan = CleanerPlan(phase: CleanerPhase, effect: Effect)

  function CleanPlan(w: World, me: Cleaner, act: CleanerAct): Option<CleanerPlan> {
    var p := me.phase;
    match act
    case Examine(id) =>
      if p.Scanning? && id in w.disk.staging && w.disk.staging[id].mtime <= me.cutoff
      then Some(CleanerPlan(Examined(id), Nothing)) else None
    case CheckActive =>
      if !p.Examined? then None
      else Some(CleanerPlan(if p.id in w.rows && Active(w.rows[p.id]) then Scanning else Condemned(p.id), Nothing))
    case UnlinkDir(hash) => if !p.Condemned? then None else Some(CleanerPlan(p, Fs(Unlink(p.id, hash))))
    case RemoveDir => if !p.Condemned? then None else Some(CleanerPlan(Scanning, Fs(Rmdir(p.id))))
    case Stop => None
  }

  function CleanerStep(w: World, k: nat, act: CleanerAct): Option<World> {
    if k !in w.cleaners then None
    else if act.Stop? then Some(w.(cleaners := w.cleaners - {k}))
    else
      match CleanPlan(w, w.cleaners[k], act)
      case None => None
      case Some(plan) =>
        if !Possible(w, plan.effect) then None
        else Some(Apply(w, plan.effect).(cleaners := w.cleaners[k := w.cleaners[k].(phase := plan.phase)]))
  }

  // ------------------------------------------------------------------ runs --

  /** Uploading, refreshing and retiring a chunk; an uploaded name is its content's hash. */
  predicate UploadOp(env: Env, w: World, op: FsOp) {
    match op
    case Write(hash, inode, bytes, now) => env.sha1(bytes) == hash && now == w.now
    case Touch(hash, now) => now == w.now
    case Remove(hash) => true
    case _ => false
  }

  /** The state after a step, or nothing when the step cannot happen. */
  function Next(env: Env, w: World, s: Step): Option<World> {
    match s
    case Tick(nanos) => Some(w.(now := w.now + nanos))
    case OnUploads(op) => if UploadOp(env, w, op) && Permitted(w.disk, op) then Some(Apply(w, Fs(op))) else None
    case PublishElsewhere(kind, path) => Some(Apply(w, Canonical(kind, path)))
    case LoseArtifact(path) => Some(w.(files := w.files - {path}))
    case Restart(version) => Some(w.(version := version, clients := map[], workers := map[], cleaners := map[]))
    case Arrive(c, request) =>
      if c in w.usedClients then None
      else Some(w.(clients := w.clients[c := Client(request, Start)], usedClients := w.usedClients + {c}))
    case ByClient(c, act) => ClientStep(w, c, act)
    case TakeJob(o, id, t) => TakeJobStep(w, o, id, t)
    case ByWorker(o, work) => WorkerStep(env, w, o, work)
    case StartCleanup(k) =>
      if k in w.cleaners then None
      else Some(w.(cleaners := w.cleaners[k := Cleaner(w.now - env.retention, Scanning)]))
    case ByCleaner(k, clean) => CleanerStep(w, k, clean)
  }

  ghost predicate Initial(w: World) {
    && w.rows == map[] && w.disk == Disk(map[], map[], map[])
    && w.clients == map[] && w.workers == map[] && w.cleaners == map[]
    && w.usedIds == {} && w.usedOwners == {} && w.usedClients == {}
  }

  /** A run: `ws` are the states, `ss[i]` leads from `ws[i]` to `ws[i + 1]`. */
  ghost predicate Run(env: Env, ws: seq<World>, ss: seq<Step>) {
    && |ws| == |ss| + 1
    && Initial(ws[0])
    && forall i | 0 <= i < |ss| :: Next(env, ws[i], ss[i]) == Some(ws[i + 1])
  }
}
