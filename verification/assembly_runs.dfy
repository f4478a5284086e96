/** The assembly queue over whole runs. */
module AssemblyRuns {
  import opened Wrappers
  import opened Octets
  import opened StagingDisk
  import opened AssemblyTable
  import opened AssemblyMachine
  import opened AssemblyMoves
  import opened AssemblySafety
  import opened AssemblyChunks

  lemma {:induction false} RunKeepsIds(env: Env, ws: seq<World>, ss: seq<Step>, n: nat)
    requires Run(env, ws, ss) && n < |ws|
    ensures Ids(ws[n])
  {
    hide Next, Moves, Ids, Initial;
    if n == 0 {
      InitIds(ws[0]);
    } else {
      RunKeepsIds(env, ws, ss, n - 1);
      var e := StepMoves(env, ws[n - 1], ss[n - 1], ws[n]);
      IdsStep(env, ws[n - 1], ss[n - 1], e, ws[n]);
    }
  }

  /** No interleaving ever leaves two rows for one (project, checksum, debug id). */
  lemma OneRowPerKey(env: Env, ws: seq<World>, ss: seq<Step>, n: nat, i: Id, j: Id)
    requires Run(env, ws, ss) && n < |ws|
    requires i in ws[n].rows && j in ws[n].rows && ws[n].rows[i].key == ws[n].rows[j].key
    ensures i == j
  {
    hide Next, Initial;
    RunKeepsIds(env, ws, ss, n);
  }

  /** No statement deletes a pending or processing row, changes what it was asked for,
      or touches a published one except to expire it. */
  lemma RowsLiveOnce(env: Env, ws: seq<World>, ss: seq<Step>, n: nat, id: Id)
    requires Run(env, ws, ss) && n < |ss|
    ensures RowEvolves(Entry(ws[n].rows, id), Entry(ws[n + 1].rows, id))
  {
    hide Next, Moves, Ids, Initial, RowEvolves;
    RunKeepsIds(env, ws, ss, n);
    var e := StepMoves(env, ws[n], ss[n], ws[n + 1]);
    RowsStep(env, ws[n], ss[n], e, ws[n + 1]);
  }

  lemma LoserStep(env: Env, w: World, s: Step, e: Effect, w': World, c: nat)
    requires Ids(w) && Shared(w, s, e, w') && ClientsMove(w, s, e, w'.clients)
    requires s.ByClient? && s.c == c && c in w.clients && w.clients[c].phase.Discarding?
    ensures w'.rows == w.rows
    ensures forall id: nat | id != w.clients[c].phase.id :: Entry(w'.disk.staging, id) == Entry(w.disk.staging, id)
  {
  }

  /** A request that lost the insert, or whose chunks are missing, removes its own
      directory: no row names it and every other directory stays as it was. */
  lemma LosersRemoveTheirOwn(env: Env, ws: seq<World>, ss: seq<Step>, n: nat, c: nat)
    requires Run(env, ws, ss) && n < |ss|
    requires ss[n].ByClient? && ss[n].c == c && c in ws[n].clients && ws[n].clients[c].phase.Discarding?
    ensures ws[n + 1].rows == ws[n].rows
    ensures var own := ws[n].clients[c].phase.id;
            && own !in ws[n].rows
            && (forall d <- ws[n].clients | d != c :: OwnDir(ws[n].clients[d].phase) != Some(own))
            && (forall id: nat | id != own :: Entry(ws[n + 1].disk.staging, id) == Entry(ws[n].disk.staging, id))
  {
    hide Next, Initial;
    RunKeepsIds(env, ws, ss, n);
    var e := StepMoves(env, ws[n], ss[n], ws[n + 1]);
    LoserStep(env, ws[n], ss[n], e, ws[n + 1], c);
    assert OwnIdFree(ws[n], ws[n].clients[c].phase);
    assert OwnDir(ws[n].clients[c].phase) == Some(ws[n].clients[c].phase.id);
  }

  // ------------------------------------------------------------------ pins --

  lemma {:induction false} RunKeepsPins(env: Env, ws: seq<World>, ss: seq<Step>, n: nat, id: Id)
    requires Run(env, ws, ss) && n < |ws|
    requires forall i | 0 <= i < n :: Timely(env, ws[i], id)
    ensures Pins(env, ws[n], id)
  {
    hide Next, Moves, Ids, Timely;
    if n > 0 {
      RunKeepsPins(env, ws, ss, n - 1, id);
      RunKeepsIds(env, ws, ss, n - 1);
      var e := StepMoves(env, ws[n - 1], ss[n - 1], ws[n]);
      PinsStep(env, ws[n - 1], ss[n - 1], e, ws[n], id);
    }
  }

  lemma {:induction false} SettledForGood(env: Env, ws: seq<World>, ss: seq<Step>, i: nat, n: nat, id: Id)
    requires Run(env, ws, ss) && i <= n < |ws| && Settled(ws[i], id)
    ensures Settled(ws[n], id)
  {
    hide Next, NotAdmitted, Initial;
    if i < n {
      SettledForGood(env, ws, ss, i, n - 1, id);
      SettledStep(env, ws[n - 1], ss[n - 1], ws[n], id);
    }
  }

  lemma RowsAreNotAdmitted(w: World, id: Id)
    requires Ids(w) && id in w.rows
    ensures id in w.usedIds && NotAdmitted(w.clients, id)
  {
  }

  /** If its own admission took less than the retention, a queued or running job finds,
      between any two moments of its life, every chunk it asked for staged, under its
      hash, with the same bytes, however slow other admissions are. */
  lemma {:induction false} QueuedJobsKeepTheirChunks(env: Env, ws: seq<World>, ss: seq<Step>, i: nat, n: nat, id: Id, q: nat)
    requires Run(env, ws, ss) && i <= n < |ws|
    requires forall j | 0 <= j < n :: Timely(env, ws[j], id)
    requires id in ws[i].rows && id in ws[n].rows && Active(ws[n].rows[id]) && q < |ws[n].rows[id].chunks|
    ensures ws[i].rows[id].chunks == ws[n].rows[id].chunks
    ensures var hash := ws[n].rows[id].chunks[q];
            && Readable(ws[i].disk, id, hash) && Readable(ws[n].disk, id, hash)
            && Contents(ws[n].disk, id, hash) == Contents(ws[i].disk, id, hash)
            && env.sha1(Contents(ws[n].disk, id, hash)) == hash
    decreases n
  {
    hide Next, Moves, Initial, Timely, Ids;
    RunKeepsPins(env, ws, ss, n, id);
    assert Staged(ws[n].disk, id, ws[n].rows[id].chunks[q]);
    if i < n {
      RunKeepsPins(env, ws, ss, n - 1, id);
      RunKeepsIds(env, ws, ss, n - 1);
      var e := StepMoves(env, ws[n - 1], ss[n - 1], ws[n]);
      RowsLiveOnce(env, ws, ss, n - 1, id);
      RowStillThere(env, ws, ss, i, n, id);
      QueuedJobsKeepTheirChunks(env, ws, ss, i, n - 1, id, q);
      StagedStep(env, ws[n - 1], ss[n - 1], e, ws[n], id, ws[n].rows[id].chunks[q]);
      NamesStep(env, ws[n - 1], ss[n - 1], e, ws[n]);
    }
  }

  lemma {:induction false} NotAdmittedForGood(env: Env, ws: seq<World>, ss: seq<Step>, i: nat, n: nat, id: Id)
    requires Run(env, ws, ss) && i <= n < |ws| && id in ws[i].usedIds && NotAdmitted(ws[i].clients, id)
    ensures id in ws[n].usedIds && NotAdmitted(ws[n].clients, id)
  {
    hide Next, NotAdmitted, Initial;
    if i < n {
      NotAdmittedForGood(env, ws, ss, i, n - 1, id);
      SettledStep(env, ws[n - 1], ss[n - 1], ws[n], id);
    }
  }

  /** An active row that was in the table before has been active ever since. */
  lemma RowStillThere(env: Env, ws: seq<World>, ss: seq<Step>, i: nat, n: nat, id: Id)
    requires Run(env, ws, ss) && i < n < |ws|
    requires id in ws[i].rows && id in ws[n].rows && Active(ws[n].rows[id])
    ensures id in ws[n - 1].rows && Active(ws[n - 1].rows[id])
  {
    hide Next, NotAdmitted, Initial, Ids;
    assert id in ws[i].usedIds && NotAdmitted(ws[i].clients, id) by {
      RunKeepsIds(env, ws, ss, i);
      RowsAreNotAdmitted(ws[i], id);
    }
    NotAdmittedForGood(env, ws, ss, i, n - 1, id);
    SettledStep(env, ws[n - 1], ss[n - 1], ws[n], id);
  }
}
