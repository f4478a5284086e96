/** When a finished receipt is given out, and when it is expired and the file asked for
    again: from what the request itself read, step by step. */
module AssemblyExpiry {
  import opened Wrappers
  import opened Octets
  import opened StagingDisk
  import opened AssemblyTable
  import opened AssemblyMachine
  import opened AssemblyMoves

  /** Step `l`: this request's lookup found the finished row `id` of its key. */
  ghost predicate FoundAt(ws: seq<World>, ss: seq<Step>, l: int, c: nat, id: Id)
    requires |ws| == |ss| + 1
  {
    && 0 <= l < |ss| && ss[l] == ByClient(c, Lookup(Some(id))) && c in ws[l].clients && id in ws[l].rows
    && ws[l].rows[id].key == KeyOf(ws[l].clients[c].request)
    && (ws[l].rows[id].state == Success || ws[l].rows[id].state == Failure)
  }

  /** How many files this request looked for from step `l` on, before step `n`. */
  function FilesSought(ss: seq<Step>, c: nat, l: int, n: int): nat
    requires 0 <= l && n <= |ss|
    decreases n - l
  {
    if n <= l then 0 else FilesSought(ss, c, l, n - 1) + if ss[n - 1] == ByClient(c, CheckFile) then 1 else 0
  }

  /** Step `j` reads the clock and the version, and the receipt is an error a minute old or
      a success of another version. */
  ghost predicate OutdatedAt(ws: seq<World>, ss: seq<Step>, j: int, c: nat, row: Row)
    requires |ws| == |ss| + 1
  {
    && 0 <= j < |ss| && ss[j].ByClient? && ss[j].c == c && ss[j].act.Judge? && row.result.Some?
    && ((row.state == Failure && ss[j].act.t >= row.updatedAt + ERROR_RETENTION_SECONDS)
        || (row.state == Success && row.result.value.version != ws[j].version))
  }

  /** Step `j` looks up the next artifact of the receipt, and there is no canonical one. */
  ghost predicate UnknownAt(ws: seq<World>, ss: seq<Step>, l: nat, j: int, c: nat, row: Row)
    requires |ws| == |ss| + 1
  {
    && 0 <= j < |ss| && ss[j] == ByClient(c, CheckPath) && row.result.Some?
    && var k := FilesSought(ss, c, l, j);
       k < |row.result.value.artifacts| && row.result.value.artifacts[k] !in ws[j].canon
  }

  /** Step `i` looked up the next artifact of the receipt and found this path. */
  ghost predicate PathReadAt(ws: seq<World>, ss: seq<Step>, l: nat, i: int, c: nat, row: Row, k: nat, path: string)
    requires |ws| == |ss| + 1
  {
    && l < i < |ss| && ss[i] == ByClient(c, CheckPath) && FilesSought(ss, c, l, i) == k && row.result.Some?
    && k < |row.result.value.artifacts|
    && row.result.value.artifacts[k] in ws[i].canon && ws[i].canon[row.result.value.artifacts[k]] == path
  }

  /** Step `j` looks for the file of that artifact, under the path read before, and it is
      not there. */
  ghost predicate LostAt(ws: seq<World>, ss: seq<Step>, l: nat, j: int, c: nat, row: Row)
    requires |ws| == |ss| + 1
  {
    && 0 <= j < |ss| && ss[j] == ByClient(c, CheckFile)
    && exists i, path :: i < j && PathReadAt(ws, ss, l, i, c, row, FilesSought(ss, c, l, j), path) && path !in ws[j].files
  }

  ghost predicate CauseAt(ws: seq<World>, ss: seq<Step>, l: nat, j: int, c: nat, row: Row)
    requires |ws| == |ss| + 1
  {
    OutdatedAt(ws, ss, j, c, row) || UnknownAt(ws, ss, l, j, c, row) || LostAt(ws, ss, l, j, c, row)
  }

  /** Since step `l` something spoke against the receipt. */
  ghost predicate Doubted(ws: seq<World>, ss: seq<Step>, l: nat, n: int, c: nat, row: Row)
    requires |ws| == |ss| + 1
  {
    exists j :: l < j < n && CauseAt(ws, ss, l, j, c, row)
  }

  // --------------------------------------------------------------------- tracing --

  predicate Consulting(p: ClientPhase) { p.Judging? || p.Checking? || p.Expiring? }

  function ReceiptOf(p: ClientPhase): Id
    requires Consulting(p)
  {
    p.receipt
  }

  /** The next artifact's path was read once, or not yet. */
  ghost predicate OnlyPath(ws: seq<World>, ss: seq<Step>, l: nat, n: int, c: nat, row: Row, k: nat, path: Option<string>)
    requires |ws| == |ss| + 1
  {
    forall i, q | i < n && PathReadAt(ws, ss, l, i, c, row, k, q) :: path == Some(q)
  }

  /** What the request holds in mind is what it read since step `l`. */
  ghost predicate Traced(ws: seq<World>, ss: seq<Step>, n: int, c: nat, me: Client, l: nat)
    requires |ws| == |ss| + 1 && 0 <= n <= |ss|
  {
    var p := me.phase;
    Consulting(p) && FoundAt(ws, ss, l, c, ReceiptOf(p)) && l < n && KeyOf(me.request) == ws[l].rows[ReceiptOf(p)].key &&
    var row := ws[l].rows[ReceiptOf(p)];
    match p
    case Judging(_, r) => r == row && FilesSought(ss, c, l, n) == 0 && (forall i | l < i < n :: ss[i] != ByClient(c, CheckPath)) && !Doubted(ws, ss, l, n, c, row)
    case Checking(_, result, usable, pos, path) =>
      && row.result == Some(result) && pos == FilesSought(ss, c, l, n) && pos <= |result.artifacts|
      && (usable <==> !Doubted(ws, ss, l, n, c, row))
      && (path.Some? ==> exists i :: i < n && PathReadAt(ws, ss, l, i, c, row, pos, path.value))
      && OnlyPath(ws, ss, l, n, c, row, pos, path)
    case Expiring(_) => Doubted(ws, ss, l, n, c, row)
    case _ => false
  }

  lemma OwnStep(env: Env, w: World, c: nat, act: ClientAct, w': World)
    requires Next(env, w, ByClient(c, act)) == Some(w') && c in w'.clients
    ensures c in w.clients && PlanOf(w, w.clients[c], act).Some?
    ensures var plan := PlanOf(w, w.clients[c], act).value;
            && Possible(w, plan.effect) && w'.rows == Apply(w, plan.effect).rows
            && w'.clients[c] == w.clients[c].(phase := plan.phase)
  {
    hide PlanOf;
  }

  lemma OthersStep(env: Env, w: World, s: Step, w': World, c: nat)
    requires Next(env, w, s) == Some(w') && c in w'.clients && !(s.ByClient? && s.c == c)
    ensures if s.Arrive? && s.c == c then w'.clients[c].phase == Start && c !in w.usedClients
            else c in w.clients && w'.clients[c] == w.clients[c]
  {
    var e := StepMoves(env, w, s, w');
    hide Next, ClientMoves, WorkerMoves, CleanerMoves, WorkersMove, CleanersMove, Shared;
  }

  lemma ConsultsOnly(w: World, me: Client, act: ClientAct)
    requires PlanOf(w, me, act).Some? && Consulting(PlanOf(w, me, act).value.phase)
    ensures IsConsulting(act) && PlanOf(w, me, act) == ConsultReceipt(w, me, act) && PlanOf(w, me, act).value.effect == Nothing
  {
  }

  lemma DoubtStep(ws: seq<World>, ss: seq<Step>, l: nat, n: nat, c: nat, row: Row)
    requires |ws| == |ss| + 1 && n < |ss| && l < n
    ensures Doubted(ws, ss, l, n + 1, c, row) <==> Doubted(ws, ss, l, n, c, row) || CauseAt(ws, ss, l, n, c, row)
  {
    hide CauseAt;
    if Doubted(ws, ss, l, n + 1, c, row) {
      var j :| l < j < n + 1 && CauseAt(ws, ss, l, j, c, row);
      assert j < n || j == n;
    }
  }

  lemma NoCause(ws: seq<World>, ss: seq<Step>, l: nat, n: nat, c: nat, row: Row)
    requires |ws| == |ss| + 1 && n < |ss| && !(ss[n].ByClient? && ss[n].c == c && (ss[n].act.Judge? || ss[n].act.CheckPath? || ss[n].act.CheckFile?))
    ensures !CauseAt(ws, ss, l, n, c, row)
  {
  }

  lemma TraceLater(ws: seq<World>, ss: seq<Step>, n: nat, c: nat, me: Client, l: nat)
    requires |ws| == |ss| + 1 && n < |ss| && Traced(ws, ss, n, c, me, l) && !(ss[n].ByClient? && ss[n].c == c)
    ensures Traced(ws, ss, n + 1, c, me, l)
  {
    var row := ws[l].rows[ReceiptOf(me.phase)];
    DoubtStep(ws, ss, l, n, c, row);
    NoCause(ws, ss, l, n, c, row);
    hide Doubted, CauseAt, PathReadAt;
  }


  // ---------------------------------------------------------------- one own step --

  lemma TraceLookup(ws: seq<World>, ss: seq<Step>, n: nat, c: nat, me: Client, found: Option<Id>)
    requires |ws| == |ss| + 1 && n < |ss| && ss[n] == ByClient(c, Lookup(found)) && c in ws[n].clients && ws[n].clients[c] == me
    requires var plan := ConsultReceipt(ws[n], me, Lookup(found)); plan.Some? && Consulting(plan.value.phase)
    ensures Traced(ws, ss, n + 1, c, me.(phase := ConsultReceipt(ws[n], me, Lookup(found)).value.phase), n)
  {
    hide CauseAt;
    assert FilesSought(ss, c, n, n) == 0 && FilesSought(ss, c, n, n + 1) == 0;
    assert FoundAt(ws, ss, n, c, found.value);
  }

  lemma {:induction false} SoughtGrows(ss: seq<Step>, c: nat, l: nat, i: int, n: nat)
    requires i <= n <= |ss|
    ensures FilesSought(ss, c, l, i) <= FilesSought(ss, c, l, n)
    decreases n
  {
    if i < n && l < n {
      SoughtGrows(ss, c, l, i, n - 1);
    }
  }

  lemma TraceJudge(ws: seq<World>, ss: seq<Step>, n: nat, c: nat, me: Client, t: int, l: nat)
    requires |ws| == |ss| + 1 && n < |ss| && ss[n] == ByClient(c, Judge(t)) && Traced(ws, ss, n, c, me, l)
    requires var plan := ConsultReceipt(ws[n], me, Judge(t)); plan.Some? && Consulting(plan.value.phase)
    ensures Traced(ws, ss, n + 1, c, me.(phase := ConsultReceipt(ws[n], me, Judge(t)).value.phase), l)
  {
    var row := ws[l].rows[ReceiptOf(me.phase)];
    DoubtStep(ws, ss, l, n, c, row);
    hide Doubted;
  }

  lemma TracePath(ws: seq<World>, ss: seq<Step>, n: nat, c: nat, me: Client, l: nat)
    requires |ws| == |ss| + 1 && n < |ss| && ss[n] == ByClient(c, CheckPath) && Traced(ws, ss, n, c, me, l)
    requires var plan := ConsultReceipt(ws[n], me, CheckPath); plan.Some? && Consulting(plan.value.phase)
    ensures Traced(ws, ss, n + 1, c, me.(phase := ConsultReceipt(ws[n], me, CheckPath).value.phase), l)
  {
    var row := ws[l].rows[ReceiptOf(me.phase)];
    DoubtStep(ws, ss, l, n, c, row);
    var p := me.phase;
    hide Doubted;
    if p.result.artifacts[p.pos] in ws[n].canon {
      assert PathReadAt(ws, ss, l, n, c, row, p.pos, ws[n].canon[p.result.artifacts[p.pos]]);
    }
  }

  lemma FoundIsNotLost(ws: seq<World>, ss: seq<Step>, n: nat, c: nat, l: nat, row: Row, k: nat, path: string)
    requires |ws| == |ss| + 1 && n < |ss| && ss[n] == ByClient(c, CheckFile) && k == FilesSought(ss, c, l, n)
    requires (exists i :: i < n && PathReadAt(ws, ss, l, i, c, row, k, path)) && OnlyPath(ws, ss, l, n, c, row, k, Some(path))
    ensures CauseAt(ws, ss, l, n, c, row) <==> path !in ws[n].files
  {
    hide PathReadAt;
  }

  lemma NextIsUnread(ws: seq<World>, ss: seq<Step>, n: nat, c: nat, l: nat, row: Row, k: nat)
    requires |ws| == |ss| + 1 && n < |ss| && l < n && ss[n] == ByClient(c, CheckFile) && k == FilesSought(ss, c, l, n)
    ensures FilesSought(ss, c, l, n + 1) == k + 1 && OnlyPath(ws, ss, l, n + 1, c, row, k + 1, None)
  {
    forall i | l < i < n + 1 ensures FilesSought(ss, c, l, i) != k + 1 {
      SoughtGrows(ss, c, l, i, n);
    }
  }

  lemma TraceFile(ws: seq<World>, ss: seq<Step>, n: nat, c: nat, me: Client, l: nat)
    requires |ws| == |ss| + 1 && n < |ss| && ss[n] == ByClient(c, CheckFile) && Traced(ws, ss, n, c, me, l)
    requires var plan := ConsultReceipt(ws[n], me, CheckFile); plan.Some? && Consulting(plan.value.phase)
    ensures Traced(ws, ss, n + 1, c, me.(phase := ConsultReceipt(ws[n], me, CheckFile).value.phase), l)
  {
    var row := ws[l].rows[ReceiptOf(me.phase)];
    var p := me.phase;
    DoubtStep(ws, ss, l, n, c, row);
    FoundIsNotLost(ws, ss, n, c, l, row, p.pos, p.path.value);
    NextIsUnread(ws, ss, n, c, l, row, p.pos);
    var i :| i < n && PathReadAt(ws, ss, l, i, c, row, p.pos, p.path.value);
    hide Doubted, CauseAt, OnlyPath, FilesSought;
  }

  lemma TraceConclude(ws: seq<World>, ss: seq<Step>, n: nat, c: nat, me: Client, l: nat)
    requires |ws| == |ss| + 1 && n < |ss| && ss[n] == ByClient(c, Conclude) && Traced(ws, ss, n, c, me, l)
    requires var plan := ConsultReceipt(ws[n], me, Conclude); plan.Some? && Consulting(plan.value.phase)
    ensures Traced(ws, ss, n + 1, c, me.(phase := ConsultReceipt(ws[n], me, Conclude).value.phase), l)
  {
    var row := ws[l].rows[ReceiptOf(me.phase)];
    DoubtStep(ws, ss, l, n, c, row);
    hide Doubted, PathReadAt;
  }

  lemma TraceOwn(ws: seq<World>, ss: seq<Step>, n: nat, c: nat, me: Client, act: ClientAct, l: nat)
    requires |ws| == |ss| + 1 && n < |ss| && ss[n] == ByClient(c, act) && !act.Lookup? && IsConsulting(act)
    requires Traced(ws, ss, n, c, me, l)
    requires var plan := ConsultReceipt(ws[n], me, act); plan.Some? && Consulting(plan.value.phase)
    ensures Traced(ws, ss, n + 1, c, me.(phase := ConsultReceipt(ws[n], me, act).value.phase), l)
  {
    match act
    case Judge(t) => TraceJudge(ws, ss, n, c, me, t, l);
    case CheckPath => TracePath(ws, ss, n, c, me, l);
    case CheckFile => TraceFile(ws, ss, n, c, me, l);
    case Conclude => TraceConclude(ws, ss, n, c, me, l);
    case _ =>
  }

  lemma ConsultsOn(w: World, me: Client, act: ClientAct)
    requires ConsultReceipt(w, me, act).Some? && Consulting(ConsultReceipt(w, me, act).value.phase) && !act.Lookup?
    ensures Consulting(me.phase)
  {
  }

  /** At every point of every run, a request that considers a receipt found it at some step,
      and what it holds in mind is what it read since. */
  lemma {:induction false} ConsultationsAreTraced(env: Env, ws: seq<World>, ss: seq<Step>, n: nat, c: nat) returns (l: nat)
    requires Run(env, ws, ss) && n < |ws| && c in ws[n].clients && Consulting(ws[n].clients[c].phase)
    ensures Traced(ws, ss, n, c, ws[n].clients[c], l)
  {
    hide Next, Traced, ConsultReceipt, PlanOf;
    assert n > 0;
    var w, s := ws[n - 1], ss[n - 1];
    if s.ByClient? && s.c == c {
      OwnStep(env, w, c, s.act, ws[n]);
      var me := w.clients[c];
      ConsultsOnly(w, me, s.act);
      if s.act.Lookup? {
        TraceLookup(ws, ss, n - 1, c, me, s.act.found);
        l := n - 1;
      } else {
        ConsultsOn(w, me, s.act);
        l := ConsultationsAreTraced(env, ws, ss, n - 1, c);
        TraceOwn(ws, ss, n - 1, c, me, s.act, l);
      }
    } else {
      OthersStep(env, w, s, ws[n], c);
      l := ConsultationsAreTraced(env, ws, ss, n - 1, c);
      TraceLater(ws, ss, n - 1, c, w.clients[c], l);
    }
  }

  // -------------------------------------------------------------------- verdicts --

  lemma ExpiresOwn(env: Env, w: World, c: nat, w': World)
    requires Next(env, w, ByClient(c, ExpireReceipt)) == Some(w')
    ensures c in w.clients && w.clients[c].phase.Expiring?
    ensures var id := w.clients[c].phase.receipt;
            w'.rows == if id in w.rows && (w.rows[id].state == Success || w.rows[id].state == Failure) then w.rows - {id} else w.rows
  {
  }

  /** A request expires a receipt only with cause: it found it as an error a minute old or
      as a success of another version, or an artifact of it had no canonical row or no
      file. It deletes that row alone, and only if it is still finished. */
  lemma ExpiryHasCause(env: Env, ws: seq<World>, ss: seq<Step>, n: nat, c: nat) returns (l: nat, id: Id, j: nat)
    requires Run(env, ws, ss) && n < |ss| && ss[n] == ByClient(c, ExpireReceipt)
    ensures FoundAt(ws, ss, l, c, id) && l < j < n && CauseAt(ws, ss, l, j, c, ws[l].rows[id])
    ensures ws[n + 1].rows ==
              if id in ws[n].rows && (ws[n].rows[id].state == Success || ws[n].rows[id].state == Failure)
              then ws[n].rows - {id} else ws[n].rows
  {
    ExpiresOwn(env, ws[n], c, ws[n + 1]);
    l := ConsultationsAreTraced(env, ws, ss, n, c);
    id := ws[n].clients[c].phase.receipt;
    var row := ws[l].rows[id];
    hide Next, CauseAt;
    var k :| l < k < n && CauseAt(ws, ss, l, k, c, row);
    j := k;
  }

  lemma ConcludesOwn(env: Env, w: World, c: nat, w': World)
    requires Next(env, w, ByClient(c, Conclude)) == Some(w')
    ensures c in w.clients && w.clients[c].phase.Checking? && c in w'.clients
    ensures var p := w.clients[c].phase;
            && p.pos >= |p.result.artifacts|
            && w'.clients[c].phase == if p.usable then Answered(p.result.response) else Expiring(p.receipt)
  {
  }

  /** Once all its artifacts were found, a receipt is answered exactly if nothing spoke
      against it. */
  lemma ReceiptsAreAnswered(env: Env, ws: seq<World>, ss: seq<Step>, n: nat, c: nat) returns (l: nat, id: Id)
    requires Run(env, ws, ss) && n < |ss| && ss[n] == ByClient(c, Conclude)
    ensures l < n && FoundAt(ws, ss, l, c, id) && ws[l].rows[id].result.Some? && c in ws[n + 1].clients
    ensures var row := ws[l].rows[id];
            && FilesSought(ss, c, l, n) == |row.result.value.artifacts|
            && (ws[n + 1].clients[c].phase == Answered(row.result.value.response) <==> !Doubted(ws, ss, l, n, c, row))
            && (Doubted(ws, ss, l, n, c, row) ==> ws[n + 1].clients[c].phase == Expiring(id))
  {
    ConcludesOwn(env, ws[n], c, ws[n + 1]);
    l := ConsultationsAreTraced(env, ws, ss, n, c);
    id := ws[n].clients[c].phase.receipt;
    hide Next, Doubted, PathReadAt, OnlyPath, FilesSought;
  }

  // ------------------------------------------------------------------- admissions --

  /** Step `l` of this request found no row for its key, or expired the one it found. */
  ghost predicate ClearedAt(ws: seq<World>, ss: seq<Step>, l: int, c: nat, key: Key)
    requires |ws| == |ss| + 1
  {
    && 0 <= l < |ss|
    && ((ss[l] == ByClient(c, Lookup(None)) && forall id <- ws[l].rows :: ws[l].rows[id].key != key)
        || ss[l] == ByClient(c, ExpireReceipt))
  }

  lemma AdmitsFrom(w: World, me: Client, act: ClientAct)
    requires PlanOf(w, me, act).Some? && PlanOf(w, me, act).value.phase.Admitting?
    ensures (act == Lookup(None) && !KeyTaken(w.rows, KeyOf(me.request))) || act.ExpireReceipt?
  {
  }

  /** The file is only asked for when there is no receipt for it, or none any more. */
  lemma {:induction false} AdmissionsAreCleared(env: Env, ws: seq<World>, ss: seq<Step>, n: nat, c: nat) returns (l: nat)
    requires Run(env, ws, ss) && n < |ws| && c in ws[n].clients && ws[n].clients[c].phase.Admitting?
    ensures l < n && ClearedAt(ws, ss, l, c, KeyOf(ws[n].clients[c].request))
  {
    hide Next, PlanOf, ConsultReceipt;
    assert n > 0;
    var w, s := ws[n - 1], ss[n - 1];
    if s.ByClient? && s.c == c {
      OwnStep(env, w, c, s.act, ws[n]);
      AdmitsFrom(w, w.clients[c], s.act);
      l := n - 1;
    } else {
      OthersStep(env, w, s, ws[n], c);
      l := AdmissionsAreCleared(env, ws, ss, n - 1, c);
    }
  }
}
