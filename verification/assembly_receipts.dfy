/** An `ok` answer is never made up: a lease holder published it, from chunks that
    hash to the checksum, and every artifact it lists was there when looked for. */
module AssemblyReceipts {
  import opened Wrappers
  import opened Octets
  import opened StagingDisk
  import opened AssemblyTable
  import opened AssemblyMachine
  import opened AssemblyMoves
  import opened AssemblySafety
  import opened AssemblyChunks
  import opened AssemblyRuns

  // -------------------------------------------------------------- conversions --

  /** The parts read so far are the contents of the first chunks, within the limit. */
  ghost predicate PartsOk(env: Env, chunks: seq<string>, parts: seq<Bytes>) {
    && |parts| <= |chunks|
    && (forall q | 0 <= q < |parts| :: env.sha1(parts[q]) == chunks[q])
    && |Concat(parts)| <= env.maxBytes
  }

  /** The whole file: all chunks in order, and their concatenation has the checksum. */
  ghost predicate FileOk(env: Env, key: Key, chunks: seq<string>, parts: seq<Bytes>) {
    PartsOk(env, chunks, parts) && |parts| == |chunks| && env.sha1(Concat(parts)) == key.checksum
  }

  ghost predicate ConversionOk(env: Env, version: nat, me: Worker) {
    match me.phase
    case Reading(parts) => PartsOk(env, me.chunks, parts)
    case Storing(parts, _, _) => FileOk(env, me.key, me.chunks, parts)
    case Finished(parts, outcome) =>
      outcome.Ok? ==> FileOk(env, me.key, me.chunks, parts) && outcome.value.version == version
    case Cleaning => true
  }

  lemma ConversionStep(env: Env, w: World, o: Owner, me: Worker, work: WorkerAct, q: Worker, e: Effect)
    requires ContentAddressed(w.disk, env.sha1) && WorkerMoves(env, w, o, me, work, Some(q), e)
    requires ConversionOk(env, w.version, me)
    ensures ConversionOk(env, w.version, q)
  {
  }

  ghost predicate Conversions(env: Env, w: World) {
    ContentAddressed(w.disk, env.sha1) && forall o <- w.workers :: ConversionOk(env, w.version, w.workers[o])
  }

  lemma ConversionsMove(env: Env, w: World, s: Step, e: Effect, w': World)
    requires Conversions(env, w) && Moves(env, w, s, e, w')
    ensures Conversions(env, w')
  {
    NamesStep(env, w, s, e, w');
    forall o <- w'.workers ensures ConversionOk(env, w'.version, w'.workers[o]) {
      if s.ByWorker? && s.o == o {
        ConversionStep(env, w, o, w.workers[o], s.work, w'.workers[o], e);
      } else if s.TakeJob? && s.o == o {
        assert Concat([]) == [];
      }
    }
  }

  lemma {:induction false} RunKeepsConversions(env: Env, ws: seq<World>, ss: seq<Step>, n: nat)
    requires Run(env, ws, ss) && n < |ws|
    ensures Conversions(env, ws[n])
  {
    hide Next, Moves;
    if n > 0 {
      RunKeepsConversions(env, ws, ss, n - 1);
      var e := StepMoves(env, ws[n - 1], ss[n - 1], ws[n]);
      ConversionsMove(env, ws[n - 1], ss[n - 1], e, ws[n]);
    }
  }

  // ----------------------------------------------------------------- receipts --

  /** Step `i`: the holder of the lease on a row for `key` publishes `result`, having
      verified the file. */
  ghost predicate PublishedAt(env: Env, ws: seq<World>, ss: seq<Step>, i: int, key: Key, result: AssemblyResult)
    requires |ws| == |ss| + 1
  {
    && 0 <= i < |ss| && ss[i].ByWorker? && ss[i].work.PublishResult? && ss[i].o in ws[i].workers
    && var me := ws[i].workers[ss[i].o];
       && Holds(ws[i].rows, me.id, ss[i].o) && ws[i].rows[me.id].key == key
       && me.phase.Finished? && me.phase.outcome == Ok(result) && result.version == ws[i].version
       && FileOk(env, key, ws[i].rows[me.id].chunks, me.phase.parts)
  }

  ghost predicate PublishedBefore(env: Env, ws: seq<World>, ss: seq<Step>, n: int, key: Key, result: AssemblyResult)
    requires |ws| == |ss| + 1
  {
    exists i :: i < n && PublishedAt(env, ws, ss, i, key, result)
  }

  lemma SuccessMoves(env: Env, w: World, s: Step, e: Effect, w': World, id: Id)
    requires Moves(env, w, s, e, w') && Ids(w)
    requires id in w'.rows && w'.rows[id].state == Success
    requires !(id in w.rows && w.rows[id] == w'.rows[id])
    ensures s.ByWorker? && s.work.PublishResult? && s.o in w.workers && w.workers[s.o].id == id && Holds(w.rows, id, s.o)
    ensures w.workers[s.o].phase.Finished? && w.workers[s.o].phase.outcome.Ok?
    ensures w'.rows[id].result == Some(w.workers[s.o].phase.outcome.value) && w'.rows[id].key == w.rows[id].key
  {
    hide ClientMoves, WorkerMoves, CleanerMoves, ClientsMove, WorkersMove, CleanersMove, Ids;
    SettledByPublish(w.rows, e.stmt, id);
    PublishesAreSigned(env, w, s, e, w') by {
      assert Moves(env, w, s, e, w');
    }
  }

  lemma Later(env: Env, ws: seq<World>, ss: seq<Step>, n: int, m: int, key: Key, result: AssemblyResult)
    requires |ws| == |ss| + 1 && n <= m && PublishedBefore(env, ws, ss, n, key, result)
    ensures PublishedBefore(env, ws, ss, m, key, result)
  {
  }

  lemma SuccessStep(env: Env, ws: seq<World>, ss: seq<Step>, n: nat, id: Id)
    requires Run(env, ws, ss) && n < |ss|
    requires id in ws[n + 1].rows && ws[n + 1].rows[id].state == Success
    requires !(id in ws[n].rows && ws[n].rows[id] == ws[n + 1].rows[id])
    ensures ws[n + 1].rows[id].result.Some?
    ensures PublishedAt(env, ws, ss, n, ws[n + 1].rows[id].key, ws[n + 1].rows[id].result.value)
  {
    hide Next, Moves;
    RunKeepsIds(env, ws, ss, n);
    RunKeepsConversions(env, ws, ss, n);
    var e := StepMoves(env, ws[n], ss[n], ws[n + 1]);
    SuccessMoves(env, ws[n], ss[n], e, ws[n + 1], id);
    var o := ss[n].o;
    assert ConversionOk(env, ws[n].version, ws[n].workers[o]);
    assert WorkerOk(ws[n].rows, ws[n].usedIds, o, ws[n].workers[o]);
  }

  /** Every stored success was published by a lease holder. */
  lemma {:induction false} ReceiptsArePublished(env: Env, ws: seq<World>, ss: seq<Step>, n: nat, id: Id)
    requires Run(env, ws, ss) && n < |ws|
    requires id in ws[n].rows && ws[n].rows[id].state == Success
    ensures ws[n].rows[id].result.Some?
    ensures PublishedBefore(env, ws, ss, n, ws[n].rows[id].key, ws[n].rows[id].result.value)
  {
    hide Next, PublishedAt;
    assert n > 0;
    if id in ws[n - 1].rows && ws[n - 1].rows[id] == ws[n].rows[id] {
      ReceiptsArePublished(env, ws, ss, n - 1, id);
      Later(env, ws, ss, n - 1, n, ws[n].rows[id].key, ws[n].rows[id].result.value);
    } else {
      SuccessStep(env, ws, ss, n - 1, id);
    }
  }

  // ------------------------------------------------------------------ answers --

  /** Request `c` read the canonical path of `a` at step `j` and found the file at `k`. */
  ghost predicate SeenBy(ws: seq<World>, ss: seq<Step>, c: nat, a: ArtifactKey, j: int, k: int)
    requires |ws| == |ss| + 1
  {
    && 0 <= j < k < |ss| && ss[j] == ByClient(c, CheckPath) && ss[k] == ByClient(c, CheckFile)
    && a in ws[j].canon && ws[j].canon[a] in ws[k].files
  }

  ghost predicate Seen(ws: seq<World>, ss: seq<Step>, n: int, c: nat, a: ArtifactKey)
    requires |ws| == |ss| + 1
  {
    exists j, k :: k < n && SeenBy(ws, ss, c, a, j, k)
  }

  /** The path in hand was read by this request. */
  ghost predicate PathRead(ws: seq<World>, ss: seq<Step>, n: int, c: nat, a: ArtifactKey, path: string)
    requires |ws| == |ss| + 1
  {
    exists j :: 0 <= j < n && j < |ss| && ss[j] == ByClient(c, CheckPath) && a in ws[j].canon && ws[j].canon[a] == path
  }

  ghost predicate Followed(env: Env, ws: seq<World>, ss: seq<Step>, n: int, c: nat, me: Client)
    requires |ws| == |ss| + 1 && 0 <= n < |ws|
  {
    var p := me.phase;
    var key := KeyOf(me.request);
    && (p.Judging? && p.row.state == Success ==>
          p.row.result.Some? && PublishedBefore(env, ws, ss, n, key, p.row.result.value))
    && (p.Judging? && p.row.state != Success && p.row.result.Some? ==> !p.row.result.value.response.Completed?)
    && (p.Checking? && p.result.response.Completed? ==> PublishedBefore(env, ws, ss, n, key, p.result))
    && (p.Checking? && p.result.response.Completed? && p.usable ==> p.result.version == ws[n].version)
    && (p.Checking? ==> p.pos <= |p.result.artifacts| && (p.path.Some? ==> p.pos < |p.result.artifacts|))
    && (p.Checking? ==> forall q | 0 <= q < p.pos :: Seen(ws, ss, n, c, p.result.artifacts[q]))
    && (p.Checking? && p.path.Some? ==> PathRead(ws, ss, n, c, p.result.artifacts[p.pos], p.path.value))
  }

  lemma FollowedLater(env: Env, ws: seq<World>, ss: seq<Step>, n: nat, c: nat, me: Client)
    requires |ws| == |ss| + 1 && n < |ss| && Followed(env, ws, ss, n, c, me)
    requires ws[n + 1].version == ws[n].version
    ensures Followed(env, ws, ss, n + 1, c, me)
  {
  }

  lemma FollowLookup(env: Env, ws: seq<World>, ss: seq<Step>, n: nat, c: nat, me: Client, q: ClientPhase)
    requires Run(env, ws, ss) && n < |ss| && q.Judging?
    requires q.receipt in ws[n].rows && q.row == ws[n].rows[q.receipt] && q.row.key == KeyOf(me.request) && !Active(q.row)
    ensures Followed(env, ws, ss, n + 1, c, me.(phase := q))
  {
    assert RowOk(q.row, ws[n].usedOwners) by {
      RunKeepsIds(env, ws, ss, n);
    }
    if q.row.state == Success {
      ReceiptsArePublished(env, ws, ss, n, q.receipt);
      Later(env, ws, ss, n, n + 1, KeyOf(me.request), q.row.result.value);
    }
  }

  lemma FollowFile(env: Env, ws: seq<World>, ss: seq<Step>, n: nat, c: nat, me: Client)
    requires |ws| == |ss| + 1 && n < |ss| && ss[n] == ByClient(c, CheckFile)
    requires me.phase.Checking? && me.phase.path.Some? && me.phase.path.value in ws[n].files
    requires Followed(env, ws, ss, n, c, me)
    ensures Seen(ws, ss, n + 1, c, me.phase.result.artifacts[me.phase.pos])
  {
    var p := me.phase;
    var a := p.result.artifacts[p.pos];
    var j :| 0 <= j < n && j < |ss| && ss[j] == ByClient(c, CheckPath) && a in ws[j].canon && ws[j].canon[a] == p.path.value;
    assert SeenBy(ws, ss, c, a, j, n);
  }

  /** How a request comes to be checking an artifact. */
  ghost predicate ChecksOn(w: World, me: Client, act: ClientAct, q: ClientPhase) {
    var p := me.phase;
    && q.Checking?
    && (|| (p.Judging? && p.row.result == Some(q.result) && q.pos == 0 && q.path.None?
            && (q.usable && p.row.state == Success ==> q.result.version == w.version))
        || (act.CheckPath? && p.Checking? && p.path.None? && p.pos < |p.result.artifacts| && p.result.artifacts[p.pos] in w.canon
            && q == p.(path := Some(w.canon[p.result.artifacts[p.pos]])))
        || (act.CheckFile? && p.Checking? && p.path.Some? && p.path.value in w.files
            && q == p.(pos := p.pos + 1, path := None)))
  }

  lemma CheckingMoves(w: World, me: Client, act: ClientAct, q: ClientPhase, e: Effect)
    requires ClientMoves(w, me, act, q, e) && q.Checking?
    ensures ChecksOn(w, me, act, q)
  {
  }

  lemma FollowCheck(env: Env, ws: seq<World>, ss: seq<Step>, n: nat, c: nat, me: Client, act: ClientAct, q: ClientPhase)
    requires |ws| == |ss| + 1 && n < |ss| && ss[n] == ByClient(c, act) && ws[n + 1].version == ws[n].version
    requires ChecksOn(ws[n], me, act, q) && Followed(env, ws, ss, n, c, me)
    ensures Followed(env, ws, ss, n + 1, c, me.(phase := q))
  {
    FollowedLater(env, ws, ss, n, c, me);
    if act.CheckFile? && me.phase.Checking? {
      FollowFile(env, ws, ss, n, c, me);
    }
  }

  /** One move of a request extends what it has been following. */
  lemma FollowMove(env: Env, ws: seq<World>, ss: seq<Step>, n: nat, c: nat, me: Client, act: ClientAct, q: ClientPhase, e: Effect)
    requires Run(env, ws, ss) && n < |ss| && ss[n] == ByClient(c, act)
    requires ws[n + 1].version == ws[n].version
    requires ClientMoves(ws[n], me, act, q, e) && Followed(env, ws, ss, n, c, me)
    ensures Followed(env, ws, ss, n + 1, c, me.(phase := q))
  {
    if q.Judging? {
      FollowLookup(env, ws, ss, n, c, me, q);
    } else if q.Checking? {
      CheckingMoves(ws[n], me, act, q, e);
      FollowCheck(env, ws, ss, n, c, me, act, q);
    }
  }

  lemma {:induction false} RequestsAreFollowed(env: Env, ws: seq<World>, ss: seq<Step>, n: nat, c: nat)
    requires Run(env, ws, ss) && n < |ws| && c in ws[n].clients
    ensures Followed(env, ws, ss, n, c, ws[n].clients[c])
  {
    hide Next;
    assert n > 0;
    var e := StepMoves(env, ws[n - 1], ss[n - 1], ws[n]);
    if c in ws[n - 1].clients && !ss[n - 1].Restart? {
      RequestsAreFollowed(env, ws, ss, n - 1, c);
      if ss[n - 1].ByClient? && ss[n - 1].c == c {
        FollowMove(env, ws, ss, n - 1, c, ws[n - 1].clients[c], ss[n - 1].act, ws[n].clients[c].phase, e);
      } else {
        FollowedLater(env, ws, ss, n - 1, c, ws[n - 1].clients[c]);
      }
    }
  }

  lemma CompletedMoves(w: World, me: Client, act: ClientAct, q: ClientPhase, e: Effect)
    requires ClientMoves(w, me, act, q, e) && q.Answered? && q.answer.Completed?
    requires me.phase.Discarding? ==> !me.phase.answer.Completed?
    ensures act.Conclude? && me.phase.Checking? && me.phase.path.None? && me.phase.usable
    ensures me.phase.pos >= |me.phase.result.artifacts| && q.answer == me.phase.result.response
  {
  }

  /** Whenever a request answers ok, the lease holder of a row for its key published
      that very answer before, under the version of processing that answers now, from
      chunks within the limit whose concatenation hashes to the checksum; and this
      request found a canonical file for every artifact listed. */
  lemma OkAnswersAreBacked(env: Env, ws: seq<World>, ss: seq<Step>, n: nat, c: nat, act: ClientAct) returns (result: AssemblyResult)
    requires Run(env, ws, ss) && n < |ss| && ss[n] == ByClient(c, act)
    requires c in ws[n + 1].clients && ws[n + 1].clients[c].phase.Answered? && ws[n + 1].clients[c].phase.answer.Completed?
    ensures ws[n + 1].clients[c].phase.answer == result.response
    ensures PublishedBefore(env, ws, ss, n, KeyOf(ws[n + 1].clients[c].request), result)
    ensures result.version == ws[n + 1].version
    ensures forall a <- result.artifacts :: Seen(ws, ss, n, c, a)
  {
    RequestsAreFollowed(env, ws, ss, n, c);
    var e := StepMoves(env, ws[n], ss[n], ws[n + 1]);
    assert OwnIdFree(ws[n], ws[n].clients[c].phase) by {
      RunKeepsIds(env, ws, ss, n);
    }
    CompletedMoves(ws[n], ws[n].clients[c], act, ws[n + 1].clients[c].phase, e);
    result := ws[n].clients[c].phase.result;
  }
}
