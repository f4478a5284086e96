/** The cache of mapped symbol files in front of the artifact store. */
module MappingCache {
  import opened Octets
  import opened Wrappers
  import opened ByteCappedLru
  import opened LruHistory
  import AS = ArtifactStore
  import opened ArtifactSelection

  /** The mapping kept for the path, or a new one of the file as it is now. */
  method GetMmap(cache: Cache<AS.Path, Bytes>, files: map<AS.Path, Bytes>, path: AS.Path) returns (mapping: Option<Bytes>)
    requires forall p <- files :: |files[p]| < WORD
    modifies cache
    ensures var hit := Lookup(old(cache.Contents()), path); mapping == if hit.Some? then hit else Entry(files, path)
    ensures var used := AfterGet(old(cache.Contents()), path);
            cache.Contents() ==
              if Lookup(old(cache.Contents()), path).None? && path in files
              then AfterPut(used, Slot(path, files[path], |files[path]|)) else used
  {
    mapping := cache.Get(path);
    if mapping.Some? { return; }
    if path !in files { return None; }
    var file := files[path];
    cache.Put(path, file, |file|);
    return Some(file);
  }

  // ----------------------------------------------------------------- joint runs --

  /** Store, cache, and the mappings that readers have taken but not cached yet: the cache
      is locked for the lookup and for the put, not for the mapping between them. */
  datatype Joint = Joint(store: AS.Store, cache: State<AS.Path, Bytes>, taken: map<nat, (AS.Path, Bytes)>)

  datatype Act =
    | OnStore(event: Event)
    | LookUp(path: AS.Path)
    | MapFile(reader: nat, path: AS.Path)
    | Keep(reader: nat)
    | Configure(entries: NonZero, bytes: usize)

  /** `MapFile` finds no file, or maps it as it is now; `Keep` caches what was mapped. */
  function Do(tools: AS.Tools, j: Joint, act: Act): Joint {
    match act
    case OnStore(event) => j.(store := Apply(tools, j.store, event))
    case LookUp(path) => j.(cache := AfterGet(j.cache, path))
    case MapFile(reader, path) =>
      if path in j.store.files && |j.store.files[path]| < WORD
      then j.(taken := j.taken[reader := (path, j.store.files[path])]) else j
    case Keep(reader) =>
      if reader in j.taken && |j.taken[reader].1| < WORD
      then j.(cache := AfterPut(j.cache, Slot(j.taken[reader].0, j.taken[reader].1, |j.taken[reader].1|)), taken := j.taken - {reader})
      else j
    case Configure(entries, bytes) => j.(cache := AfterResize(j.cache, entries, bytes))
  }

  function JointRun(tools: AS.Tools, j: Joint, acts: seq<Act>): Joint {
    if acts == [] then j else Do(tools, JointRun(tools, j, acts[..|acts| - 1]), acts[|acts| - 1])
  }

  function EventsOf(acts: seq<Act>): seq<Event> {
    if acts == [] then []
    else EventsOf(acts[..|acts| - 1]) + if acts[|acts| - 1].OnStore? then [acts[|acts| - 1].event] else []
  }

  lemma JointNext(tools: AS.Tools, j: Joint, acts: seq<Act>, act: Act)
    ensures JointRun(tools, j, acts + [act]) == Do(tools, JointRun(tools, j, acts), act)
    ensures !act.OnStore? ==> EventsOf(acts + [act]) == EventsOf(acts)
  {
    hide Do;
    assert (acts + [act])[..|acts|] == acts;
    assert EventsOf(acts) + [] == EventsOf(acts);
  }

  /** A `get_mmap` that nothing interrupts is a lookup and, on a miss, a mapping and a put. */
  lemma GetMmapIsThreeActs(tools: AS.Tools, j: Joint, path: AS.Path, reader: nat)
    requires (forall p <- j.store.files :: |j.store.files[p]| < WORD) && j.taken == map[]
    ensures var used := AfterGet(j.cache, path);
            JointRun(tools, j, [LookUp(path), MapFile(reader, path), Keep(reader)]) ==
              j.(cache := if path in j.store.files then AfterPut(used, Slot(path, j.store.files[path], |j.store.files[path]|)) else used)
  {
    hide AfterGet, AfterPut, Do;
    JointNext(tools, j, [], LookUp(path));
    JointNext(tools, j, [LookUp(path)], MapFile(reader, path));
    JointNext(tools, j, [LookUp(path), MapFile(reader, path)], Keep(reader));
    assert [] + [LookUp(path)] == [LookUp(path)] && [LookUp(path)] + [MapFile(reader, path)] == [LookUp(path), MapFile(reader, path)];
    assert [LookUp(path), MapFile(reader, path)] + [Keep(reader)] == [LookUp(path), MapFile(reader, path), Keep(reader)];
    ThreeActs(tools, j, path, reader);
  }

  lemma ThreeActs(tools: AS.Tools, j: Joint, path: AS.Path, reader: nat)
    requires (forall p <- j.store.files :: |j.store.files[p]| < WORD) && j.taken == map[]
    ensures var used := AfterGet(j.cache, path);
            Do(tools, Do(tools, Do(tools, j, LookUp(path)), MapFile(reader, path)), Keep(reader)) ==
              j.(cache := if path in j.store.files then AfterPut(used, Slot(path, j.store.files[path], |j.store.files[path]|)) else used)
  {
    hide AfterGet, AfterPut;
    if path in j.store.files {
      assert map[reader := (path, j.store.files[path])] - {reader} == map[];
    }
  }

  // ------------------------------------------------------------------- freshness --

  /** The path had these bytes at some moment of the store's history. */
  ghost predicate WasRead(tools: AS.Tools, s: AS.Store, events: seq<Event>, path: AS.Path, bytes: Bytes) {
    exists n | 0 <= n <= |events| :: Entry(After(tools, s, events[..n]).files, path) == Some(bytes)
  }

  lemma ReadEarlier(tools: AS.Tools, s: AS.Store, events: seq<Event>, more: seq<Event>, path: AS.Path, bytes: Bytes)
    requires WasRead(tools, s, events, path, bytes)
    ensures WasRead(tools, s, events + more, path, bytes)
  {
    hide After;
    var n :| 0 <= n <= |events| && Entry(After(tools, s, events[..n]).files, path) == Some(bytes);
    assert (events + more)[..n] == events[..n];
  }

  /** Every put stored a mapping taken of its file at some earlier moment. */
  ghost predicate MappedEarlier(tools: AS.Tools, s: AS.Store, events: seq<Event>, ops: seq<Op<AS.Path, Bytes>>) {
    forall op <- ops :: op.PutOp? ==> WasRead(tools, s, events, op.slot.key, op.slot.value)
  }

  /** What a joint run is to the store and to the cache: a history of each, tied by what
      was put in and what is held. */
  ghost predicate Follows(tools: AS.Tools, j: Joint, acts: seq<Act>, ops: seq<Op<AS.Path, Bytes>>) {
    var now := JointRun(tools, j, acts);
    && now.store == After(tools, j.store, EventsOf(acts))
    && now.cache == Run(j.cache, ops)
    && MappedEarlier(tools, j.store, EventsOf(acts), ops)
    && forall r <- now.taken :: WasRead(tools, j.store, EventsOf(acts), now.taken[r].0, now.taken[r].1)
  }

  lemma RunNext(s: State<AS.Path, Bytes>, ops: seq<Op<AS.Path, Bytes>>, op: Op<AS.Path, Bytes>)
    ensures Run(s, ops + [op]) == LruHistory.Step(Run(s, ops), op)
  {
    hide LruHistory.Step;
    assert (ops + [op])[..|ops|] == ops;
  }

  lemma AfterNext(tools: AS.Tools, s: AS.Store, events: seq<Event>, e: Event)
    ensures After(tools, s, events + [e]) == Apply(tools, After(tools, s, events), e)
  {
    hide Apply;
    assert (events + [e])[..|events|] == events;
  }

  lemma FollowsEvent(tools: AS.Tools, j: Joint, acts: seq<Act>, ops: seq<Op<AS.Path, Bytes>>, e: Event)
    requires Follows(tools, j, acts, ops)
    ensures Follows(tools, j, acts + [OnStore(e)], ops)
  {
    var all, events := acts + [OnStore(e)], EventsOf(acts);
    assert all[..|acts|] == acts && EventsOf(all) == events + [e];
    AfterNext(tools, j.store, events, e);
    var now := JointRun(tools, j, acts);
    hide After, Run, WasRead, Apply;
    forall op <- ops | op.PutOp? ensures WasRead(tools, j.store, events + [e], op.slot.key, op.slot.value) {
      ReadEarlier(tools, j.store, events, [e], op.slot.key, op.slot.value);
    }
    forall r <- now.taken ensures WasRead(tools, j.store, events + [e], now.taken[r].0, now.taken[r].1) {
      ReadEarlier(tools, j.store, events, [e], now.taken[r].0, now.taken[r].1);
    }
  }

  /** A cache call after the others: a put needs its mapping to have been taken. */
  lemma FollowsCall(tools: AS.Tools, j: Joint, acts: seq<Act>, ops: seq<Op<AS.Path, Bytes>>, act: Act, op: Op<AS.Path, Bytes>)
    requires Follows(tools, j, acts, ops) && !act.OnStore?
    requires var now, next := JointRun(tools, j, acts), Do(tools, JointRun(tools, j, acts), act);
             && next.store == now.store && next.cache == LruHistory.Step(now.cache, op)
             && forall r <- next.taken :: r in now.taken && next.taken[r] == now.taken[r]
    requires op.PutOp? ==> WasRead(tools, j.store, EventsOf(acts), op.slot.key, op.slot.value)
    ensures Follows(tools, j, acts + [act], ops + [op])
  {
    JointNext(tools, j, acts, act);
    RunNext(j.cache, ops, op);
    hide Do, After, Run, JointRun, LruHistory.Step, WasRead;
  }

  lemma FollowsMapping(tools: AS.Tools, j: Joint, acts: seq<Act>, ops: seq<Op<AS.Path, Bytes>>, reader: nat, path: AS.Path)
    requires Follows(tools, j, acts, ops)
    ensures Follows(tools, j, acts + [MapFile(reader, path)], ops)
  {
    JointNext(tools, j, acts, MapFile(reader, path));
    hide After, Run, JointRun;
    var now, events := JointRun(tools, j, acts), EventsOf(acts);
    if path in now.store.files {
      assert events[..|events|] == events;
      assert WasRead(tools, j.store, events, path, now.store.files[path]);
    }
    hide WasRead;
  }

  lemma FollowsOther(tools: AS.Tools, j: Joint, acts: seq<Act>, ops: seq<Op<AS.Path, Bytes>>, act: Act)
      returns (ops': seq<Op<AS.Path, Bytes>>)
    requires Follows(tools, j, acts, ops) && !act.OnStore?
    ensures Follows(tools, j, acts + [act], ops')
  {
    hide After, Run, JointRun, AfterGet, AfterPut, AfterResize, WasRead;
    var now := JointRun(tools, j, acts);
    match act {
      case LookUp(path) =>
        ops' := ops + [GetOp(path)];
        FollowsCall(tools, j, acts, ops, act, GetOp(path));
      case MapFile(reader, path) =>
        ops' := ops;
        FollowsMapping(tools, j, acts, ops, reader, path);
      case Keep(reader) =>
        if reader in now.taken && |now.taken[reader].1| < WORD {
          var slot := Slot(now.taken[reader].0, now.taken[reader].1, |now.taken[reader].1|);
          ops' := ops + [PutOp(slot)];
          FollowsCall(tools, j, acts, ops, act, PutOp(slot));
        } else {
          ops' := ops;
          JointNext(tools, j, acts, act);
        }
      case Configure(entries, bytes) =>
        ops' := ops + [ResizeOp(entries, bytes)];
        FollowsCall(tools, j, acts, ops, act, ResizeOp(entries, bytes));
    }
  }

  /** Every joint run is a history of the store and one of the cache, in which every put
      was of a mapping taken earlier. */
  lemma {:induction false} RunsAreFollowed(tools: AS.Tools, j: Joint, acts: seq<Act>) returns (ops: seq<Op<AS.Path, Bytes>>)
    requires j.taken == map[]
    ensures Follows(tools, j, acts, ops)
  {
    if acts == [] {
      ops := [];
    } else {
      var rest, act := acts[..|acts| - 1], acts[|acts| - 1];
      ops := RunsAreFollowed(tools, j, rest);
      assert rest + [act] == acts;
      hide Follows;
      if act.OnStore? {
        FollowsEvent(tools, j, rest, ops, act.event);
      } else {
        ops := FollowsOther(tools, j, rest, ops, act);
      }
    }
  }

  /** However uploads, crashes, losses, lookups, mappings and puts interleave, a hit on a
      content path gives what reading the file now would give. */
  lemma HitsAreFresh(tools: AS.Tools, j: Joint, acts: seq<Act>, path: AS.Path)
    requires Collisionless(tools) && Truthful(tools, j.store) && j.cache.slots == [] && j.taken == map[]
    requires path.Content? && path in JointRun(tools, j, acts).store.files
    requires Lookup(JointRun(tools, j, acts).cache, path).Some?
    ensures Lookup(JointRun(tools, j, acts).cache, path) == Some(JointRun(tools, j, acts).store.files[path])
  {
    hide Run, After, Truthful, Collisionless, JointRun;
    var ops := RunsAreFollowed(tools, j, acts);
    var events := EventsOf(acts);
    var slots := Run(j.cache, ops).slots;
    var slot := slots[Find(slots, path)];
    ValuesAreLatest(j.cache, ops, slot);
    var i :| 0 <= i < |ops| && ops[i] == PutOp(slot);
    assert ops[i] in ops;
    var n :| 0 <= n <= |events| && Entry(After(tools, j.store, events[..n]).files, slot.key) == Some(slot.value);
    MappingsStayFresh(tools, j.store, events[..n], events, path);
  }
}
