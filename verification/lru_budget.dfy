/** What the tracked total says of the bytes in the cache, and what follows for its budget. */
module LruBudget {
  import opened ByteCappedLru
  import opened LruHistory

  /** Bytes that the count cap throws out in this call. */
  ghost function Uncredited<K, V>(s: State<K, V>, op: Op<K, V>): int {
    match op
    case PutOp(slot) =>
      var slots := Roomy(s, slot.bytes).slots;
      if Find(slots, slot.key) < |slots| then 0
      else Sum(slots + [slot]) - Sum(Newest(slots + [slot], s.maxEntries))
    case ResizeOp(entries, _) => Sum(s.slots) - Sum(Newest(s.slots, entries))
    case _ => 0
  }

  ghost function Lost<K, V>(s: State<K, V>, ops: seq<Op<K, V>>): int {
    if ops == [] then 0 else Lost(s, ops[..|ops| - 1]) + Uncredited(Run(s, ops[..|ops| - 1]), ops[|ops| - 1])
  }

  /** The total does not saturate in this call. */
  ghost predicate Fits<K, V>(s: State<K, V>, op: Op<K, V>) {
    match op
    case PutOp(slot) =>
      var r := Roomy(s, slot.bytes);
      var i := Find(r.slots, slot.key);
      (if i < |r.slots| then Minus(r.tracked, r.slots[i].bytes) else r.tracked) + slot.bytes < WORD
    case _ => true
  }

  ghost predicate AllFit<K, V>(s: State<K, V>, ops: seq<Op<K, V>>) {
    forall i | 0 <= i < |ops| :: Fits(Run(s, ops[..i]), ops[i])
  }

  lemma NewestSum<K, V>(slots: seq<Slot<K, V>>, n: nat)
    ensures Sum(Newest(slots, n)) <= Sum(slots)
  {
    if |slots| > n {
      SumSplit(slots, |slots| - n);
    }
  }

  lemma InsertAccounts<K, V>(s: State<K, V>, slot: Slot<K, V>, lost: nat)
    requires Accounts(s, lost)
    ensures var i := Find(s.slots, slot.key);
            var before := if i < |s.slots| then Minus(s.tracked, s.slots[i].bytes) else s.tracked;
            var thrown := if i < |s.slots| then 0 else Sum(s.slots + [slot]) - Sum(Newest(s.slots + [slot], s.maxEntries));
            && thrown >= 0
            && (Accounts(Insert(s, slot), lost + thrown) <==> before + slot.bytes < WORD)
  {
    var i := Find(s.slots, slot.key);
    assert Sum([slot]) == slot.bytes;
    if i < |s.slots| {
      SumWithout(s.slots, i);
      SumJoin(Without(s.slots, i), [slot]);
    } else {
      SumJoin(s.slots, [slot]);
      NewestSum(s.slots + [slot], s.maxEntries);
    }
  }

  lemma GetAccounts<K, V>(s: State<K, V>, key: K, lost: nat)
    requires Accounts(s, lost)
    ensures Accounts(AfterGet(s, key), lost)
  {
    var i := Find(s.slots, key);
    if i < |s.slots| {
      SumWithout(s.slots, i);
      SumJoin(Without(s.slots, i), [s.slots[i]]);
    }
  }

  lemma PopAccounts<K, V>(s: State<K, V>, key: K, lost: nat)
    requires Accounts(s, lost)
    ensures Accounts(AfterPop(s, key), lost)
  {
    var i := Find(s.slots, key);
    if i < |s.slots| {
      SumWithout(s.slots, i);
    }
  }

  lemma PutAccounts<K, V>(s: State<K, V>, slot: Slot<K, V>, lost: nat)
    requires Accounts(s, lost)
    ensures Uncredited(s, PutOp(slot)) >= 0
    ensures Accounts(AfterPut(s, slot), lost + Uncredited(s, PutOp(slot))) <==> Fits(s, PutOp(slot))
  {
    hide Insert, Excess, Credited, Sum;
    ShedAccounts(s, slot.bytes, lost);
    InsertAccounts(Roomy(s, slot.bytes), slot, lost);
  }

  lemma ResizeAccounts<K, V>(s: State<K, V>, entries: NonZero, bytes: usize, lost: nat)
    requires Accounts(s, lost)
    ensures Uncredited(s, ResizeOp(entries, bytes)) >= 0
    ensures Accounts(AfterResize(s, entries, bytes), lost + Uncredited(s, ResizeOp(entries, bytes)))
  {
    hide Sum;
    NewestSum(s.slots, entries);
    ShedAccounts(State(Newest(s.slots, entries), entries, bytes, s.tracked), 0, lost + Sum(s.slots) - Sum(Newest(s.slots, entries)));
  }

  /** A call keeps the account exactly when its total does not saturate. */
  lemma StepAccounts<K, V>(s: State<K, V>, op: Op<K, V>, lost: nat)
    requires Accounts(s, lost)
    ensures Uncredited(s, op) >= 0
    ensures Accounts(Step(s, op), lost + Uncredited(s, op)) <==> Fits(s, op)
  {
    hide AfterPut, AfterGet, AfterPop, AfterResize, Sum;
    match op
    case PutOp(slot) => PutAccounts(s, slot, lost);
    case GetOp(key) => GetAccounts(s, key, lost);
    case PopOp(key) => PopAccounts(s, key, lost);
    case ResizeOp(entries, bytes) => ResizeAccounts(s, entries, bytes, lost);
  }

  /** After any history that never saturates, the tracked total is the resident bytes
      plus what the count cap threw out: an upper bound, and exact if it threw out nothing. */
  lemma {:induction false} TrackedIsAnUpperBound<K, V>(s: State<K, V>, ops: seq<Op<K, V>>)
    requires Accounts(s, 0) && AllFit(s, ops)
    ensures Lost(s, ops) >= 0 && Accounts(Run(s, ops), Lost(s, ops))
    decreases |ops|
  {
    hide Step, Uncredited, Fits, Sum, AllFit;
    if ops != [] {
      var n := |ops| - 1;
      FitPrefix(s, ops, n);
      TrackedIsAnUpperBound(s, ops[..n]);
      StepAccounts(Run(s, ops[..n]), ops[n], Lost(s, ops[..n]));
    }
  }

  lemma FitPrefix<K, V>(s: State<K, V>, ops: seq<Op<K, V>>, n: nat)
    requires AllFit(s, ops) && n < |ops|
    ensures AllFit(s, ops[..n]) && Fits(Run(s, ops[..n]), ops[n])
  {
    hide Fits, Run;
    assert forall i | 0 <= i < n :: ops[..n][..i] == ops[..i] && ops[..n][i] == ops[i];
  }

  lemma PutBudget<K, V>(s: State<K, V>, slot: Slot<K, V>, lost: nat)
    requires Accounts(s, lost) && slot.bytes < s.maxBytes && s.tracked + slot.bytes < WORD
    ensures Sum(AfterPut(s, slot).slots) <= s.maxBytes
  {
    var t := Shed(s, slot.bytes);
    ShedFits(s, slot.bytes, lost);
    hide Insert, Shed;
    InsertBounded(t, slot);
  }

  lemma ShedFits<K, V>(s: State<K, V>, bytes: usize, lost: nat)
    requires Accounts(s, lost) && bytes <= s.maxBytes && s.tracked + bytes < WORD
    ensures Sum(Shed(s, bytes).slots) + bytes <= s.maxBytes
  {
    ShedAccounts(s, bytes, lost);
    var n := Excess(s.slots, s.tracked, bytes, s.maxBytes);
    SumSplit(s.slots, n);
    CreditedIsExact(s.slots[..n], s.tracked);
    hide Excess, Credited;
  }

  lemma ResizeBudget<K, V>(s: State<K, V>, entries: NonZero, bytes: usize, lost: nat)
    requires Accounts(s, lost)
    ensures Sum(AfterResize(s, entries, bytes).slots) <= bytes
  {
    NewestSum(s.slots, entries);
    var t := State(Newest(s.slots, entries), entries, bytes, s.tracked);
    hide Newest;
    ShedFits(t, 0, s.tracked - Sum(t.slots));
  }

  /** A resize, or a put smaller than the budget whose guard does not wrap around. */
  ghost predicate Budgeted<K, V>(s: State<K, V>, op: Op<K, V>) {
    match op
    case PutOp(slot) => slot.bytes < s.maxBytes && s.tracked + slot.bytes < WORD
    case ResizeOp(_, _) => true
    case _ => false
  }

  /** Such a call leaves at most the budget resident if the total was a bound before. */
  lemma BudgetHolds<K, V>(s: State<K, V>, op: Op<K, V>)
    requires Bounded(s) && Budgeted(s, op)
    ensures Sum(Step(s, op).slots) <= Step(s, op).maxBytes
  {
    var lost := s.tracked - Sum(s.slots);
    match op
    case PutOp(slot) =>
      PutBudget(s, slot, lost);
      hide Sum;
    case ResizeOp(entries, bytes) =>
      ResizeBudget(s, entries, bytes, lost);
      hide Sum;
  }

  lemma InsertBounded<K, V>(s: State<K, V>, slot: Slot<K, V>)
    ensures Sum(Insert(s, slot).slots) <= Sum(s.slots) + slot.bytes
  {
    var i := Find(s.slots, slot.key);
    assert Sum([slot]) == slot.bytes;
    if i < |s.slots| {
      SumWithout(s.slots, i);
      SumJoin(Without(s.slots, i), [slot]);
    } else {
      SumJoin(s.slots, [slot]);
      NewestSum(s.slots + [slot], s.maxEntries);
    }
  }

  /** A put smaller than the budget whose guard wraps around evicts nothing by bytes. */
  lemma WrappedPutEvictsNothing<K, V>(s: State<K, V>, slot: Slot<K, V>)
    requires slot.bytes < s.maxBytes && s.tracked + slot.bytes >= WORD
    ensures AfterPut(s, slot) == Insert(s, slot)
  {
    assert Wrapped(s.tracked, slot.bytes) == s.tracked + slot.bytes - WORD;
    assert s.slots[0..] == s.slots && s.slots[..0] == [];
  }

  // ------------------------------------------------------------------ saturation --

  /** A call whose addition saturates leaves the greatest total, which is a bound exactly
      if the resident bytes are a `usize` at all. */
  lemma SaturatedTotal<K, V>(s: State<K, V>, op: Op<K, V>)
    requires !Fits(s, op)
    ensures var after := Step(s, op); after.tracked == WORD - 1 && (after.tracked >= Sum(after.slots) <==> Sum(after.slots) < WORD)
  {
    hide Excess, Credited, Sum;
  }

  /** The total bounds the resident bytes. */
  ghost predicate Bounded<K, V>(s: State<K, V>) { Sum(s.slots) <= s.tracked }

  /** A call that starts from a bound leaves one exactly if the resident bytes are then a
      `usize`. */
  lemma BoundedStep<K, V>(s: State<K, V>, op: Op<K, V>)
    requires Bounded(s)
    ensures Bounded(Step(s, op)) <==> Sum(Step(s, op).slots) < WORD
  {
    var lost := s.tracked - Sum(s.slots);
    StepAccounts(s, op, lost);
    if !Fits(s, op) {
      SaturatedTotal(s, op);
    }
    hide Step, Fits, Uncredited, Sum;
  }

  /** Over any history, saturating or not, the total is a bound all the time exactly if the
      resident bytes are a `usize` all the time. */
  lemma {:induction false} BoundedThroughout<K, V>(s: State<K, V>, ops: seq<Op<K, V>>)
    requires Bounded(s)
    ensures (forall i | 0 <= i <= |ops| :: Bounded(Run(s, ops[..i]))) <==>
            (forall i | 0 <= i <= |ops| :: Sum(Run(s, ops[..i]).slots) < WORD)
  {
    hide Sum, Run, Bounded;
    forall i | 0 <= i <= |ops| && forall j | 0 <= j <= i :: Sum(Run(s, ops[..j]).slots) < WORD
      ensures Bounded(Run(s, ops[..i]))
    {
      BoundedTo(s, ops, i);
    }
    forall i | 0 <= i <= |ops| && Bounded(Run(s, ops[..i])) ensures Sum(Run(s, ops[..i]).slots) < WORD {
      BoundIsWord(Run(s, ops[..i]));
    }
  }

  lemma BoundIsWord<K, V>(s: State<K, V>)
    requires Bounded(s)
    ensures Sum(s.slots) < WORD
  {
  }

  lemma RunNext<K, V>(s: State<K, V>, ops: seq<Op<K, V>>, n: nat)
    requires n < |ops|
    ensures Run(s, ops[..n + 1]) == Step(Run(s, ops[..n]), ops[n])
  {
    hide Step;
    assert ops[..n + 1][..n] == ops[..n];
  }

  lemma {:induction false} BoundedTo<K, V>(s: State<K, V>, ops: seq<Op<K, V>>, n: nat)
    requires Bounded(s) && n <= |ops|
    requires forall i | 0 < i <= n :: Sum(Run(s, ops[..i]).slots) < WORD
    ensures Bounded(Run(s, ops[..n]))
  {
    hide Step, Sum, Bounded;
    if n > 0 {
      BoundedTo(s, ops, n - 1);
      RunNext(s, ops, n - 1);
      BoundedStep(Run(s, ops[..n - 1]), ops[n - 1]);
      hide Run;
    }
  }

  /** So a call that keeps to the budget does so after every such history. */
  lemma BudgetHoldsThroughout<K, V>(s: State<K, V>, ops: seq<Op<K, V>>, n: nat)
    requires Bounded(s) && n < |ops| && Budgeted(Run(s, ops[..n]), ops[n])
    requires forall i | 0 < i <= n :: Sum(Run(s, ops[..i]).slots) < WORD
    ensures var after := Run(s, ops[..n + 1]); Sum(after.slots) <= after.maxBytes
  {
    hide Step, Sum, Bounded, Budgeted;
    BoundedTo(s, ops, n);
    RunNext(s, ops, n);
    BudgetHolds(Run(s, ops[..n]), ops[n]);
    hide Run;
  }

  // ------------------------------------------------------------------- thrashing --

  /** A put smaller than the budget empties the cache exactly if even its newest entry does
      not fit beside the new one and all that the count cap ever threw out. */
  lemma PutEmptiesExactly<K, V>(s: State<K, V>, slot: Slot<K, V>, lost: nat)
    requires Accounts(s, lost) && slot.bytes < s.maxBytes && s.tracked + slot.bytes < WORD && s.slots != []
    ensures Roomy(s, slot.bytes).slots == [] <==> s.slots[|s.slots| - 1].bytes + lost + slot.bytes > s.maxBytes
  {
    var k := |s.slots| - 1;
    var n := Excess(s.slots, s.tracked, slot.bytes, s.maxBytes);
    LeftOver(s, lost, k);
    hide Excess, Credited, Sum;
    if n > k {
      ExcessIsLeast(s.slots, s.tracked, slot.bytes, s.maxBytes, k);
    } else {
      NewestFits(s, slot.bytes, lost);
    }
  }

  /** What a put leaves fits beside its own bytes, the newest entry with it. */
  lemma NewestFits<K, V>(s: State<K, V>, bytes: usize, lost: nat)
    requires Accounts(s, lost) && bytes < s.maxBytes && s.tracked + bytes < WORD && Shed(s, bytes).slots != []
    ensures s.slots[|s.slots| - 1].bytes + lost + bytes <= s.maxBytes
  {
    var n := Excess(s.slots, s.tracked, bytes, s.maxBytes);
    var t := Shed(s, bytes);
    ShedAccounts(s, bytes, lost);
    SumSplit(s.slots, n);
    hide Excess, Credited;
    assert Sum(t.slots) + lost + bytes <= s.maxBytes;
    LeftOver(t, lost, |t.slots| - 1);
    hide Sum;
    SumWithout(t.slots, |t.slots| - 1);
  }

  lemma LeftOver<K, V>(s: State<K, V>, lost: nat, k: nat)
    requires Accounts(s, lost) && k < |s.slots| && k == |s.slots| - 1
    ensures Credited(s.slots[..k], s.tracked) == s.slots[k].bytes + lost
  {
    SumSplit(s.slots, k);
    assert s.slots[k..] == [s.slots[k]] && Sum([s.slots[k]]) == s.slots[k].bytes;
    CreditedIsExact(s.slots[..k], s.tracked);
  }

  /** What the count cap threw out is never forgotten. */
  lemma {:induction false} LostGrows<K, V>(s: State<K, V>, ops: seq<Op<K, V>>, n: nat)
    requires Accounts(s, 0) && AllFit(s, ops) && n <= |ops|
    ensures 0 <= Lost(s, ops[..n]) <= Lost(s, ops)
    decreases |ops|
  {
    hide Step, Uncredited, Fits, Sum, AllFit;
    if n < |ops| {
      var k := |ops| - 1;
      FitPrefix(s, ops, k);
      assert ops[..k][..n] == ops[..n];
      LostGrows(s, ops[..k], n);
      TrackedIsAnUpperBound(s, ops[..k]);
      StepAccounts(Run(s, ops[..k]), ops[k], Lost(s, ops[..k]));
    } else {
      assert ops[..n] == ops;
      TrackedIsAnUpperBound(s, ops);
    }
  }

  /** So once it threw out more than the budget, every later put smaller than the budget
      leaves its own entry alone in the cache. */
  lemma ThrashesForGood<K, V>(s: State<K, V>, ops: seq<Op<K, V>>, n: nat, slot: Slot<K, V>)
    requires Accounts(s, 0) && AllFit(s, ops) && n <= |ops|
    requires var now := Run(s, ops);
             Lost(s, ops[..n]) > now.maxBytes > slot.bytes && now.tracked + slot.bytes < WORD
    ensures AfterPut(Run(s, ops), slot).slots == [slot]
  {
    LostGrows(s, ops, n);
    TrackedIsAnUpperBound(s, ops);
    var now := Run(s, ops);
    if now.slots != [] {
      PutEmptiesExactly(now, slot, Lost(s, ops));
    }
    hide Run, Lost, AllFit, Sum;
    InsertAlone(Roomy(now, slot.bytes), slot);
  }

  lemma InsertAlone<K, V>(s: State<K, V>, slot: Slot<K, V>)
    requires s.slots == []
    ensures Insert(s, slot).slots == [slot]
  {
    assert [] + [slot] == [slot];
  }

  const HUGE: usize := WORD - 1

  lemma RunTwo<K, V>(s: State<K, V>, x: Op<K, V>, y: Op<K, V>)
    ensures Run(s, [x, y]) == Step(Step(s, x), y)
  {
    hide Step;
    assert [x, y][..1] == [x] && [x][..0] == [];
    assert Run(s, [x]) == Step(s, x);
  }

  /** Without a byte budget a put of a new key only adds it and applies the count cap. */
  lemma PutNew(s: State<int, int>, slot: Slot<int, int>)
    requires s.maxBytes == 0 && Find(s.slots, slot.key) == |s.slots|
    ensures AfterPut(s, slot) == s.(slots := Newest(s.slots + [slot], s.maxEntries), tracked := Plus(s.tracked, slot.bytes))
  {
  }

  lemma TwoPuts(s: State<int, int>, a: Slot<int, int>, b: Slot<int, int>)
    requires s.slots == [] && s.maxBytes == 0 && s.tracked == 0 && a.key != b.key
    ensures var after := Run(s, [PutOp(a), PutOp(b)]);
            && after.slots == (if s.maxEntries > 1 then [a, b] else [b])
            && after.tracked == Plus(a.bytes, b.bytes)
  {
    RunTwo(s, PutOp(a), PutOp(b));
    PutNew(s, a);
    var first := AfterPut(s, a);
    assert [] + [a] == [a] && first.slots == [a] && first.tracked == a.bytes;
    assert [a][1..] == [] && Find([a], b.key) == 1;
    PutNew(first, b);
    assert [a] + [b] == [a, b];
  }

  lemma SumOfOne(a: Slot<int, int>)
    ensures Sum([a]) == a.bytes
  {
  }

  lemma SumOfTwo(a: Slot<int, int>, b: Slot<int, int>)
    ensures Sum([a, b]) == a.bytes + b.bytes && Sum([b]) == b.bytes
  {
    SumOfOne(a);
    SumOfOne(b);
    SumJoin([a], [b]);
  }

  /** It need not be: two entries of the greatest size are resident and counted once. */
  lemma TotalCanFallShort(s: State<int, int>) returns (ops: seq<Op<int, int>>)
    requires s.slots == [] && s.maxBytes == 0 && s.tracked == 0 && s.maxEntries > 1
    ensures Run(s, ops).tracked < Sum(Run(s, ops).slots)
  {
    var a, b := Slot(0, 0, HUGE), Slot(1, 0, HUGE);
    ops := [PutOp(a), PutOp(b)];
    TwoPuts(s, a, b);
    hide Run, Sum;
    SumOfTwo(a, b);
  }

  /** And without any saturation the count cap makes the total greater than what is resident. */
  lemma TotalCanExceed(s: State<int, int>) returns (ops: seq<Op<int, int>>)
    requires s.slots == [] && s.maxBytes == 0 && s.tracked == 0 && s.maxEntries == 1
    ensures Run(s, ops).tracked > Sum(Run(s, ops).slots)
  {
    var a, b := Slot(0, 0, 1), Slot(1, 0, 1);
    ops := [PutOp(a), PutOp(b)];
    TwoPuts(s, a, b);
    hide Run, Sum;
    SumOfTwo(a, b);
  }
}
