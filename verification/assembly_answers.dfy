/** The answers that are not ok: an error is one a lease holder published in the last
    minute, chunks called missing could not be linked, and `assembling` means a row. */
module AssemblyAnswers {
  import opened Wrappers
  import opened Octets
  import opened StagingDisk
  import opened AssemblyTable
  import opened AssemblyMachine
  import opened AssemblyMoves
  import opened AssemblySafety
  import opened AssemblyChunks
  import opened AssemblyRuns

  // ------------------------------------------------------------------- failures --

  /** Step `i`: the holder of the lease on a row for `key` publishes an error, with the
      clock reading `t`. */
  ghost predicate FailedAt(ws: seq<World>, ss: seq<Step>, i: int, key: Key, result: AssemblyResult, t: int)
    requires |ws| == |ss| + 1
  {
    && 0 <= i < |ss| && ss[i].ByWorker? && ss[i].work == PublishResult(t) && ss[i].o in ws[i].workers
    && var me := ws[i].workers[ss[i].o];
       && Holds(ws[i].rows, me.id, ss[i].o) && ws[i].rows[me.id].key == key
       && me.phase.Finished? && me.phase.outcome.Err? && result == ResultOf(ws[i], me.phase.outcome)
  }

  ghost predicate FailedBefore(ws: seq<World>, ss: seq<Step>, n: int, key: Key, result: AssemblyResult, t: int)
    requires |ws| == |ss| + 1
  {
    exists i :: i < n && FailedAt(ws, ss, i, key, result, t)
  }

  lemma FailureMoves(env: Env, w: World, s: Step, e: Effect, w': World, id: Id)
    requires Moves(env, w, s, e, w') && Ids(w)
    requires id in w'.rows && w'.rows[id].state == Failure && !(id in w.rows && w.rows[id] == w'.rows[id])
    ensures s.ByWorker? && s.work.PublishResult? && s.o in w.workers && w.workers[s.o].id == id && Holds(w.rows, id, s.o)
    ensures w.workers[s.o].phase.Finished? && w.workers[s.o].phase.outcome.Err?
    ensures w'.rows[id] == w.rows[id].(state := Failure, result := Some(ResultOf(w, w.workers[s.o].phase.outcome)),
                                       leaseOwner := None, leaseUntil := None, updatedAt := s.work.t)
  {
    hide ClientMoves, WorkerMoves, CleanerMoves, ClientsMove, WorkersMove, CleanersMove, Ids;
    SettledByPublish(w.rows, e.stmt, id);
    PublishesAreSigned(env, w, s, e, w') by {
      assert Moves(env, w, s, e, w');
    }
  }

  lemma ErrorStep(env: Env, ws: seq<World>, ss: seq<Step>, n: nat, id: Id)
    requires Run(env, ws, ss) && n < |ss|
    requires id in ws[n + 1].rows && ws[n + 1].rows[id].state == Failure
    requires !(id in ws[n].rows && ws[n].rows[id] == ws[n + 1].rows[id])
    ensures ws[n + 1].rows[id].result.Some?
    ensures FailedAt(ws, ss, n, ws[n + 1].rows[id].key, ws[n + 1].rows[id].result.value, ws[n + 1].rows[id].updatedAt)
  {
    hide Next, Moves, Ids, Initial;
    RunKeepsIds(env, ws, ss, n);
    var e := StepMoves(env, ws[n], ss[n], ws[n + 1]);
    FailureMoves(env, ws[n], ss[n], e, ws[n + 1], id);
  }

  lemma NoRowsAtFirst(env: Env, ws: seq<World>, ss: seq<Step>)
    requires Run(env, ws, ss)
    ensures ws[0].rows == map[]
  {
  }

  /** Every stored error was published by a lease holder, at the row's time. */
  lemma {:induction false} ErrorsArePublished(env: Env, ws: seq<World>, ss: seq<Step>, n: nat, id: Id)
    requires Run(env, ws, ss) && n < |ws| && id in ws[n].rows && ws[n].rows[id].state == Failure
    ensures ws[n].rows[id].result.Some?
    ensures FailedBefore(ws, ss, n, ws[n].rows[id].key, ws[n].rows[id].result.value, ws[n].rows[id].updatedAt)
  {
    hide Next, Initial, FailedAt;
    NoRowsAtFirst(env, ws, ss);
    var row := ws[n].rows[id];
    if id in ws[n - 1].rows && ws[n - 1].rows[id] == row {
      ErrorsArePublished(env, ws, ss, n - 1, id);
      var i :| i < n - 1 && FailedAt(ws, ss, i, row.key, row.result.value, row.updatedAt);
      assert i < n;
    } else {
      ErrorStep(env, ws, ss, n - 1, id);
    }
  }

  // -------------------------------------------------------------- what is in hand --

  /** An error published at `t`, judged by this request at a reading less than a minute later. */
  ghost predicate RecentError(ws: seq<World>, ss: seq<Step>, n: int, c: nat, key: Key, result: AssemblyResult)
    requires |ws| == |ss| + 1
  {
    exists j, t, u :: 0 <= j < n && j < |ss| && ss[j] == ByClient(c, Judge(u)) && u < t + ERROR_RETENTION_SECONDS
                      && FailedBefore(ws, ss, j, key, result, t)
  }

  /** Step `j`: this request tried to link just this chunk into its own directory and could
      not. */
  ghost predicate SoughtAt(ws: seq<World>, ss: seq<Step>, j: int, c: nat, h: string)
    requires |ws| == |ss| + 1
  {
    && 0 <= j < |ss| && ss[j] == ByClient(c, Link) && c in ws[j].clients && ws[j].clients[c].phase.Pinning?
    && var p, chunks := ws[j].clients[c].phase, ChunksOf(ws[j].clients[c].request);
       p.made && p.done < |chunks| && chunks[p.done] == h && !CanLink(ws[j].disk, p.id, h)
  }

  ghost predicate Sought(ws: seq<World>, ss: seq<Step>, n: int, c: nat, h: string)
    requires |ws| == |ss| + 1
  {
    exists j :: j < n && SoughtAt(ws, ss, j, c, h)
  }

  /** Step `j`: this request's own lookup found a row of the key pending or processing, or
      its own insert left one in the table, its own or the one it ran into. */
  ghost predicate QueuedAt(ws: seq<World>, ss: seq<Step>, j: int, c: nat, key: Key)
    requires |ws| == |ss| + 1
  {
    && 0 <= j < |ss| && ss[j].ByClient? && ss[j].c == c
    && (|| (ss[j].act.Lookup? && ss[j].act.found.Some? && ss[j].act.found.value in ws[j].rows
            && ws[j].rows[ss[j].act.found.value].key == key && Active(ws[j].rows[ss[j].act.found.value]))
        || (ss[j].act.AddRow? && KeyTaken(ws[j + 1].rows, key)))
  }

  ghost predicate Queued(ws: seq<World>, ss: seq<Step>, n: int, c: nat, key: Key)
    requires |ws| == |ss| + 1
  {
    exists j :: j < n && QueuedAt(ws, ss, j, c, key)
  }

  ghost predicate AnswerOk(ws: seq<World>, ss: seq<Step>, n: int, c: nat, me: Client, answer: Answer)
    requires |ws| == |ss| + 1
  {
    match answer
    case Assembling => Queued(ws, ss, n, c, KeyOf(me.request))
    case NotFound(missing) => missing != [] && forall h <- missing :: h in ChunksOf(me.request) && Sought(ws, ss, n, c, h)
    case Rejected(_) => exists result: AssemblyResult :: result.response == answer && RecentError(ws, ss, n, c, KeyOf(me.request), result)
    case _ => true
  }

  ghost predicate Told(ws: seq<World>, ss: seq<Step>, n: int, c: nat, me: Client)
    requires |ws| == |ss| + 1
  {
    var p := me.phase;
    && (p.Judging? ==> !Active(p.row) && p.row.result.Some?)
    && (p.Judging? && p.row.state == Success ==> p.row.result.value.response.Completed?)
    && (p.Judging? && p.row.state == Failure ==>
          p.row.result.value.response.Rejected? && FailedBefore(ws, ss, n, KeyOf(me.request), p.row.result.value, p.row.updatedAt))
    && (p.Checking? && p.usable ==>
          p.result.response.Completed? || (p.result.response.Rejected? && RecentError(ws, ss, n, c, KeyOf(me.request), p.result)))
    && (p.Pinning? ==> forall h <- p.missing :: h in ChunksOf(me.request) && Sought(ws, ss, n, c, h))
    && (p.Discarding? ==> AnswerOk(ws, ss, n, c, me, p.answer))
    && (p.Answered? ==> AnswerOk(ws, ss, n, c, me, p.answer))
  }

  lemma ToldLater(ws: seq<World>, ss: seq<Step>, n: int, m: int, c: nat, me: Client)
    requires |ws| == |ss| + 1 && n <= m && Told(ws, ss, n, c, me)
    ensures Told(ws, ss, m, c, me)
  {
    hide FailedAt, SoughtAt, QueuedAt;
  }

  lemma ToldLookup(env: Env, ws: seq<World>, ss: seq<Step>, n: nat, c: nat, me: Client, found: Option<Id>, q: ClientPhase)
    requires Run(env, ws, ss) && n < |ss| && ss[n] == ByClient(c, Lookup(found))
    requires ConsultReceipt(ws[n], me, Lookup(found)) == Some(ClientPlan(q, Nothing))
    ensures Told(ws, ss, n + 1, c, me.(phase := q))
  {
    hide Next, FailedAt;
    if q.Judging? {
      assert RowOk(q.row, ws[n].usedOwners) by {
        RunKeepsIds(env, ws, ss, n);
      }
      if q.row.state == Failure {
        ErrorsArePublished(env, ws, ss, n, q.receipt);
        var i :| i < n && FailedAt(ws, ss, i, q.row.key, q.row.result.value, q.row.updatedAt);
        assert i < n + 1;
      }
    }
    if q == Answered(Assembling) {
      assert QueuedAt(ws, ss, n, c, KeyOf(me.request));
    }
  }

  lemma ToldJudge(ws: seq<World>, ss: seq<Step>, n: nat, c: nat, me: Client, t: int, q: ClientPhase)
    requires |ws| == |ss| + 1 && n < |ss| && ss[n] == ByClient(c, Judge(t)) && Told(ws, ss, n, c, me)
    requires ConsultReceipt(ws[n], me, Judge(t)) == Some(ClientPlan(q, Nothing))
    ensures Told(ws, ss, n + 1, c, me.(phase := q))
  {
    hide FailedBefore;
  }

  lemma ToldCheck(ws: seq<World>, ss: seq<Step>, n: nat, c: nat, me: Client, act: ClientAct, plan: ClientPlan)
    requires |ws| == |ss| + 1 && n < |ss| && Told(ws, ss, n, c, me)
    requires act.CheckPath? || act.CheckFile? || act.Conclude? || act.ExpireReceipt?
    requires ConsultReceipt(ws[n], me, act) == Some(plan)
    ensures Told(ws, ss, n + 1, c, me.(phase := plan.phase))
  {
    ToldLater(ws, ss, n, n + 1, c, me);
    hide FailedBefore, RecentError;
  }

  lemma ToldPin(ws: seq<World>, ss: seq<Step>, n: nat, c: nat, me: Client, act: ClientAct, plan: ClientPlan)
    requires |ws| == |ss| + 1 && n < |ss| && ss[n] == ByClient(c, act) && Told(ws, ss, n, c, me)
    requires c in ws[n].clients && ws[n].clients[c] == me && IsPinning(act) && PinChunks(ws[n], me, act) == Some(plan)
    ensures Told(ws, ss, n + 1, c, me.(phase := plan.phase))
  {
    ToldLater(ws, ss, n, n + 1, c, me);
    var p := me.phase;
    if act.Link? && plan.phase.missing != p.missing {
      assert SoughtAt(ws, ss, n, c, ChunksOf(me.request)[p.done]);
      assert Sought(ws, ss, n + 1, c, ChunksOf(me.request)[p.done]);
    }
    hide CanLink, ChunksOf, Sought;
  }

  lemma ToldEnqueue(ws: seq<World>, ss: seq<Step>, n: nat, c: nat, me: Client, act: ClientAct, plan: ClientPlan)
    requires |ws| == |ss| + 1 && n < |ss| && ss[n] == ByClient(c, act) && Told(ws, ss, n, c, me)
    requires Enqueue(ws[n], me, act) == Some(plan) && Possible(ws[n], plan.effect) && ws[n + 1].rows == Apply(ws[n], plan.effect).rows
    ensures Told(ws, ss, n + 1, c, me.(phase := plan.phase))
  {
    ToldLater(ws, ss, n, n + 1, c, me);
    if act.AddRow? {
      assert KeyTaken(ws[n].rows, KeyOf(me.request)) || ws[n + 1].rows[me.phase.id].key == KeyOf(me.request);
      assert QueuedAt(ws, ss, n, c, KeyOf(me.request));
    }
    hide Sought, RecentError, QueuedAt;
  }

  lemma {:induction false} RequestsAreTold(env: Env, ws: seq<World>, ss: seq<Step>, n: nat, c: nat)
    requires Run(env, ws, ss) && n < |ws| && c in ws[n].clients
    ensures Told(ws, ss, n, c, ws[n].clients[c])
  {
    assert n > 0;
    var w, s := ws[n - 1], ss[n - 1];
    var e := StepMoves(env, w, s, ws[n]);
    if s.ByClient? && s.c == c {
      var me := w.clients[c];
      RequestsAreTold(env, ws, ss, n - 1, c);
      var plan := PlanOf(w, me, s.act).value;
      assert ws[n].clients[c] == me.(phase := plan.phase) && ws[n].rows == Apply(w, plan.effect).rows && Possible(w, plan.effect);
      hide Next, Told, ConsultReceipt, PinChunks, Enqueue;
      if s.act.Lookup? {
        LookupPlans(w, me, s.act.found);
        ToldLookup(env, ws, ss, n - 1, c, me, s.act.found, plan.phase);
      } else if s.act.Judge? {
        JudgePlans(w, me, s.act.t);
        ToldJudge(ws, ss, n - 1, c, me, s.act.t, plan.phase);
      } else if IsConsulting(s.act) {
        ToldCheck(ws, ss, n - 1, c, me, s.act, plan);
      } else if IsPinning(s.act) {
        ToldPin(ws, ss, n - 1, c, me, s.act, plan);
      } else {
        ToldEnqueue(ws, ss, n - 1, c, me, s.act, plan);
      }
    } else if c in w.clients && !s.Restart? {
      RequestsAreTold(env, ws, ss, n - 1, c);
      ToldLater(ws, ss, n - 1, n, c, w.clients[c]);
    }
  }

  lemma LookupPlans(w: World, me: Client, found: Option<Id>)
    ensures var plan := ConsultReceipt(w, me, Lookup(found)); plan.Some? ==> plan.value.effect == Nothing
  {
  }

  lemma JudgePlans(w: World, me: Client, t: int)
    ensures var plan := ConsultReceipt(w, me, Judge(t)); plan.Some? ==> plan.value.effect == Nothing
  {
  }

  /** Whatever a request is told is so. An error was published for its key by a lease
      holder, less than ERROR_RETENTION_SECONDS before the time this request read. Each
      chunk called missing was asked for and could not be linked. `assembling` was said
      because this request itself found a row for the key, or inserted or ran into one. */
  lemma AnswersAreTrue(env: Env, ws: seq<World>, ss: seq<Step>, n: nat, c: nat)
    requires Run(env, ws, ss) && n < |ws| && c in ws[n].clients && ws[n].clients[c].phase.Answered?
    ensures AnswerOk(ws, ss, n, c, ws[n].clients[c], ws[n].clients[c].phase.answer)
  {
    hide AnswerOk;
    RequestsAreTold(env, ws, ss, n, c);
  }

  // -------------------------------------------------------------- missing chunks --

  /** A request about to link has the parent of its target. */
  ghost predicate ParentMade(w: World, c: nat)
    requires c in w.clients
  {
    var p, chunks := w.clients[c].phase, ChunksOf(w.clients[c].request);
    p.Pinning? && p.made && p.done < |chunks| ==>
      p.id in w.disk.staging && Shard(chunks[p.done]) in w.disk.staging[p.id].shards
  }

  lemma ParentMadeByOwn(w: World, act: ClientAct, e: Effect, c: nat, q: ClientPhase)
    requires c in w.clients && ClientMoves(w, w.clients[c], act, q, e) && Possible(w, e)
    requires q.Pinning? && q.made
    ensures var chunks := ChunksOf(w.clients[c].request);
            q.done < |chunks| ==>
              q.id in Apply(w, e).disk.staging && Shard(chunks[q.done]) in Apply(w, e).disk.staging[q.id].shards
  {
  }

  lemma ShardsStay(d: Disk, op: FsOp, id: Id, shard: string)
    requires Permitted(d, op) && id in d.staging && shard in d.staging[id].shards && op != Rmdir(id)
    ensures id in Perform(d, op).staging && shard in Perform(d, op).staging[id].shards
  {
  }

  lemma ParentMadeStep(env: Env, w: World, s: Step, e: Effect, w': World, c: nat)
    requires Ids(w) && Moves(env, w, s, e, w') && c in w'.clients && w'.clients[c].phase.Pinning?
    requires c in w.clients ==> ParentMade(w, c)
    requires Pins(env, w, w'.clients[c].phase.id)
    ensures ParentMade(w', c)
  {
    hide WorkerMoves, CleanerMoves, ClientMoves;
    var q := w'.clients[c].phase;
    if q.made {
      if s.ByClient? && s.c == c {
        ParentMadeByOwn(w, s.act, e, c, q);
      } else if c in w.clients && e.Fs? {
        assert Fills(w, c, q.id);
        ProtectedDirsAreKept(env, w, s, e, w', q.id);
        if q.done < |ChunksOf(w.clients[c].request)| {
          ShardsStay(w.disk, e.op, q.id, Shard(ChunksOf(w.clients[c].request)[q.done]));
        }
      }
    }
  }

  /** The request's own admission has taken less than the retention so far. */
  ghost predicate OwnTimely(env: Env, w: World, c: nat) {
    c in w.clients && Admitted(w.clients[c].phase) ==> w.now - w.clients[c].phase.since < env.retention
  }

  lemma FillsStep(env: Env, w: World, s: Step, e: Effect, w': World, c: nat, id: Id)
    requires Moves(env, w, s, e, w') && Fills(w', c, id)
    ensures Fills(w, c, id) || id !in w.usedIds
    ensures w.usedIds <= w'.usedIds
  {
    hide WorkerMoves, CleanerMoves;
  }

  /** Whoever fills a directory has done so since its id exists. */
  lemma {:induction false} FilledSince(env: Env, ws: seq<World>, ss: seq<Step>, i: nat, j: nat, c: nat, id: Id)
    requires Run(env, ws, ss) && i <= j < |ws| && Fills(ws[j], c, id)
    ensures Fills(ws[i], c, id) || id !in ws[i].usedIds
    decreases j
  {
    hide Next, Moves, Fills, Initial;
    if i < j {
      var e := StepMoves(env, ws[j - 1], ss[j - 1], ws[j]);
      FillsStep(env, ws[j - 1], ss[j - 1], e, ws[j], c, id);
      if Fills(ws[j - 1], c, id) {
        FilledSince(env, ws, ss, i, j - 1, c, id);
      } else {
        UsedIdsGrow(env, ws, ss, i, j - 1);
      }
    }
  }

  lemma {:induction false} UsedIdsGrow(env: Env, ws: seq<World>, ss: seq<Step>, i: nat, j: nat)
    requires Run(env, ws, ss) && i <= j < |ws|
    ensures ws[i].usedIds <= ws[j].usedIds
  {
    hide Next, Initial;
    if i < j {
      UsedIdsGrow(env, ws, ss, i, j - 1);
      var e := StepMoves(env, ws[j - 1], ss[j - 1], ws[j]);
      hide ClientsMove, WorkersMove, CleanersMove;
    }
  }

  /** A directory is filled in time if the request that fills it keeps in time. */
  lemma OwnTimeIsEnough(env: Env, ws: seq<World>, ss: seq<Step>, i: nat, j: nat, c: nat, id: Id)
    requires Run(env, ws, ss) && i <= j < |ws| && Fills(ws[j], c, id) && OwnTimely(env, ws[i], c)
    ensures Timely(env, ws[i], id)
  {
    hide Next, Initial;
    RunKeepsIds(env, ws, ss, i);
    FilledSince(env, ws, ss, i, j, c, id);
    forall b | Fills(ws[i], b, id) ensures b == c {
      OnlyOneFills(ws[i], b, c, id);
    }
  }

  lemma OnlyOneFills(w: World, b: nat, c: nat, id: Id)
    requires Ids(w) && Fills(w, b, id) && (Fills(w, c, id) || id !in w.usedIds)
    ensures b == c
  {
    assert OwnIdFree(w, w.clients[b].phase);
    assert OwnDir(w.clients[b].phase) == Some(id);
  }

  lemma {:induction false} ParentIsMade(env: Env, ws: seq<World>, ss: seq<Step>, n: nat, c: nat)
    requires Run(env, ws, ss) && n < |ws| && c in ws[n].clients && ws[n].clients[c].phase.Pinning?
    requires forall i | 0 <= i < n :: OwnTimely(env, ws[i], c)
    ensures ParentMade(ws[n], c)
  {
    hide Next, OwnTimely, Moves, Ids;
    assert n > 0;
    var id := ws[n].clients[c].phase.id;
    assert Fills(ws[n], c, id);
    forall i | 0 <= i < n ensures Timely(env, ws[i], id) {
      OwnTimeIsEnough(env, ws, ss, i, n, c, id);
    }
    RunKeepsPins(env, ws, ss, n - 1, id);
    RunKeepsIds(env, ws, ss, n - 1);
    var e := StepMoves(env, ws[n - 1], ss[n - 1], ws[n]);
    hide Fills, Pins, Timely, Initial;
    if c in ws[n - 1].clients && ws[n - 1].clients[c].phase.Pinning? {
      ParentIsMade(env, ws, ss, n - 1, c);
    }
    ParentMadeStep(env, ws[n - 1], ss[n - 1], e, ws[n], c);
  }

  /** If its admission took less than the retention, a chunk a request was told is missing
      was not uploaded when the request came to link it. */
  lemma MissingChunksWereNotUploaded(env: Env, ws: seq<World>, ss: seq<Step>, n: nat, c: nat, h: string) returns (j: nat)
    requires Run(env, ws, ss) && n < |ws| && c in ws[n].clients
    requires ws[n].clients[c].phase.Answered? && ws[n].clients[c].phase.answer.NotFound?
    requires h in ws[n].clients[c].phase.answer.missing
    requires forall i | 0 <= i < n :: OwnTimely(env, ws[i], c)
    ensures j < n && SoughtAt(ws, ss, j, c, h) && h !in ws[j].disk.uploads
  {
    AnswersAreTrue(env, ws, ss, n, c);
    hide Next, Initial, OwnTimely;
    j :| 0 <= j < n && SoughtAt(ws, ss, j, c, h);
    ParentIsMade(env, ws, ss, j, c);
  }
}
