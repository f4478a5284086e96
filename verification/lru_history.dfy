/** What any history of calls leaves in the cache. */
module LruHistory {
  import opened ByteCappedLru
  import opened Wrappers

  datatype Op<K, V> = PutOp(slot: Slot<K, V>) | GetOp(key: K) | PopOp(key: K) | ResizeOp(entries: NonZero, bytes: usize)

  ghost function Step<K, V>(s: State<K, V>, op: Op<K, V>): State<K, V> {
    match op
    case PutOp(slot) => AfterPut(s, slot)
    case GetOp(key) => AfterGet(s, key)
    case PopOp(key) => AfterPop(s, key)
    case ResizeOp(entries, bytes) => AfterResize(s, entries, bytes)
  }

  ghost function Run<K, V>(s: State<K, V>, ops: seq<Op<K, V>>): State<K, V> {
    if ops == [] then s else Step(Run(s, ops[..|ops| - 1]), ops[|ops| - 1])
  }

  /** The state a put inserts into. */
  ghost function Roomy<K, V>(s: State<K, V>, bytes: usize): State<K, V> {
    if bytes < s.maxBytes then Shed(s, bytes) else s
  }

  // ---------------------------------------------------------------- use order --

  ghost predicate Uses<K, V>(op: Op<K, V>, key: K) {
    (op.PutOp? && op.slot.key == key) || (op.GetOp? && op.key == key)
  }

  /** The last call that named the key to put or get it, or -1. */
  ghost function LastUse<K, V>(ops: seq<Op<K, V>>, key: K): (i: int)
    ensures -1 <= i < |ops|
  {
    if ops == [] then -1
    else if Uses(ops[|ops| - 1], key) then |ops| - 1
    else LastUse(ops[..|ops| - 1], key)
  }

  /** The slots stand in the order of last use (so no key is there twice). */
  ghost predicate InUseOrder<K, V>(slots: seq<Slot<K, V>>, ops: seq<Op<K, V>>) {
    && (forall i | 0 <= i < |slots| :: 0 <= LastUse(ops, slots[i].key))
    && (forall i, j | 0 <= i < j < |slots| :: LastUse(ops, slots[i].key) < LastUse(ops, slots[j].key))
  }

  lemma LastUseNext<K, V>(ops: seq<Op<K, V>>, op: Op<K, V>, key: K)
    ensures LastUse(ops + [op], key) == if Uses(op, key) then |ops| else LastUse(ops, key)
  {
    assert (ops + [op])[..|ops|] == ops;
  }

  lemma OrderedLater<K, V>(slots: seq<Slot<K, V>>, ops: seq<Op<K, V>>, op: Op<K, V>)
    requires InUseOrder(slots, ops) && forall x <- slots :: !Uses(op, x.key)
    ensures InUseOrder(slots, ops + [op])
  {
    forall i | 0 <= i < |slots| ensures LastUse(ops + [op], slots[i].key) == LastUse(ops, slots[i].key) {
      LastUseNext(ops, op, slots[i].key);
    }
  }

  lemma OrderedLast<K, V>(slots: seq<Slot<K, V>>, slot: Slot<K, V>, ops: seq<Op<K, V>>, op: Op<K, V>)
    requires InUseOrder(slots, ops) && (forall x <- slots :: !Uses(op, x.key)) && Uses(op, slot.key)
    ensures InUseOrder(slots + [slot], ops + [op])
  {
    OrderedLater(slots, ops, op);
    LastUseNext(ops, op, slot.key);
    forall i | 0 <= i < |slots| ensures LastUse(ops + [op], slots[i].key) < |ops| {
      LastUseNext(ops, op, slots[i].key);
    }
  }

  lemma OrderedWithout<K, V>(slots: seq<Slot<K, V>>, i: nat, ops: seq<Op<K, V>>)
    requires InUseOrder(slots, ops) && i < |slots|
    ensures InUseOrder(Without(slots, i), ops) && forall x <- Without(slots, i) :: x.key != slots[i].key
  {
  }

  lemma OrderedInsert<K, V>(s: State<K, V>, slot: Slot<K, V>, ops: seq<Op<K, V>>)
    requires InUseOrder(s.slots, ops)
    ensures InUseOrder(Insert(s, slot).slots, ops + [PutOp(slot)])
  {
    var i := Find(s.slots, slot.key);
    if i < |s.slots| {
      OrderedWithout(s.slots, i, ops);
      OrderedLast(Without(s.slots, i), slot, ops, PutOp(slot));
    } else {
      OrderedLast(s.slots, slot, ops, PutOp(slot));
    }
  }

  lemma OrderedGet<K, V>(s: State<K, V>, key: K, ops: seq<Op<K, V>>)
    requires InUseOrder(s.slots, ops)
    ensures InUseOrder(AfterGet(s, key).slots, ops + [GetOp(key)])
  {
    var i := Find(s.slots, key);
    if i < |s.slots| {
      OrderedWithout(s.slots, i, ops);
      OrderedLast(Without(s.slots, i), s.slots[i], ops, GetOp(key));
    } else {
      OrderedLater(s.slots, ops, GetOp(key));
    }
  }

  lemma OrderedPop<K, V>(s: State<K, V>, key: K, ops: seq<Op<K, V>>)
    requires InUseOrder(s.slots, ops)
    ensures InUseOrder(AfterPop(s, key).slots, ops + [PopOp(key)])
  {
    var i := Find(s.slots, key);
    if i < |s.slots| {
      OrderedWithout(s.slots, i, ops);
    }
    OrderedLater(AfterPop(s, key).slots, ops, PopOp(key));
  }

  lemma OrderedStep<K, V>(s: State<K, V>, ops: seq<Op<K, V>>, op: Op<K, V>)
    requires InUseOrder(s.slots, ops)
    ensures InUseOrder(Step(s, op).slots, ops + [op])
  {
    match op
    case PutOp(slot) =>
      assert InUseOrder(Roomy(s, slot.bytes).slots, ops);
      hide InUseOrder;
      OrderedInsert(Roomy(s, slot.bytes), slot, ops);
    case GetOp(key) =>
      hide InUseOrder;
      OrderedGet(s, key, ops);
    case PopOp(key) =>
      hide InUseOrder;
      OrderedPop(s, key, ops);
    case ResizeOp(_, _) =>
      OrderedLater(Step(s, op).slots, ops, op);
  }

  /** After any history the slots are in use order. */
  lemma {:induction false} HistoryIsOrdered<K, V>(s: State<K, V>, ops: seq<Op<K, V>>)
    requires s.slots == []
    ensures InUseOrder(Run(s, ops).slots, ops)
    decreases |ops|
  {
    if ops != [] {
      var n := |ops| - 1;
      HistoryIsOrdered(s, ops[..n]);
      OrderedStep(Run(s, ops[..n]), ops[..n], ops[n]);
      assert ops[..n] + [ops[n]] == ops;
    }
  }

  // ----------------------------------------------------------------- eviction --

  /** What a call keeps is the newest part of the slots, apart from the key it is about. */
  ghost predicate KeepsNewest<K, V>(a: seq<Slot<K, V>>, b: seq<Slot<K, V>>, op: Op<K, V>, cut: nat) {
    && cut <= |a|
    && (forall y <- b :: Uses(op, y.key) || y in a[cut..])
    && (forall x <- a[cut..] :: x in b || (exists y <- b :: y.key == x.key) || op == PopOp(x.key))
  }

  lemma InsertKeepsNewest<K, V>(s: State<K, V>, slot: Slot<K, V>) returns (cut: nat)
    ensures KeepsNewest(s.slots, Insert(s, slot).slots, PutOp(slot), cut)
  {
    var i := Find(s.slots, slot.key);
    var b := Insert(s, slot).slots;
    assert slot == b[|b| - 1];
    if i < |s.slots| {
      cut := 0;
      forall x <- s.slots ensures x in b || x.key == slot.key {
        WithoutHas(s.slots, i, x);
      }
    } else {
      cut := if |s.slots| + 1 > s.maxEntries then |s.slots| + 1 - s.maxEntries else 0;
      assert b == s.slots[cut..] + [slot];
    }
  }

  lemma WithoutHas<K, V>(slots: seq<Slot<K, V>>, i: nat, x: Slot<K, V>)
    requires i < |slots| && x in slots
    ensures x in Without(slots, i) || x == slots[i]
  {
  }

  lemma MovedKeepsNewest<K, V>(s: State<K, V>, key: K)
    ensures KeepsNewest(s.slots, AfterGet(s, key).slots, GetOp(key), 0)
    ensures KeepsNewest(s.slots, AfterPop(s, key).slots, PopOp(key), 0)
  {
  }

  lemma PutKeepsNewest<K, V>(s: State<K, V>, slot: Slot<K, V>) returns (cut: nat)
    ensures KeepsNewest(s.slots, AfterPut(s, slot).slots, PutOp(slot), cut)
  {
    hide Excess, Insert;
    var r := Roomy(s, slot.bytes);
    var m := InsertKeepsNewest(r, slot);
    cut := |s.slots| - |r.slots| + m;
    assert s.slots[cut..] == r.slots[m..];
  }

  lemma StepKeepsNewest<K, V>(s: State<K, V>, op: Op<K, V>) returns (cut: nat)
    ensures KeepsNewest(s.slots, Step(s, op).slots, op, cut)
  {
    match op
    case PutOp(slot) =>
      hide AfterPut, KeepsNewest;
      cut := PutKeepsNewest(s, slot);
    case ResizeOp(_, _) =>
      cut := |s.slots| - |Step(s, op).slots|;
      assert s.slots[cut..] == Step(s, op).slots;
    case GetOp(key) =>
      hide AfterGet, KeepsNewest;
      cut := 0;
      MovedKeepsNewest(s, key);
    case PopOp(key) =>
      hide AfterPop, KeepsNewest;
      cut := 0;
      MovedKeepsNewest(s, key);
  }

  /** What a call evicts was last used before everything that stays. */
  lemma EvictedIsOldest<K, V>(s: State<K, V>, ops: seq<Op<K, V>>, op: Op<K, V>, gone: Slot<K, V>, stays: Slot<K, V>)
    requires s.slots == []
    requires gone in Run(s, ops).slots && op != PopOp(gone.key)
    requires forall y <- Run(s, ops + [op]).slots :: y.key != gone.key
    requires stays in Run(s, ops + [op]).slots && !Uses(op, stays.key)
    ensures LastUse(ops, gone.key) < LastUse(ops, stays.key)
  {
    var a := Run(s, ops);
    assert (ops + [op])[..|ops|] == ops;
    HistoryIsOrdered(s, ops);
    var cut := StepKeepsNewest(a, op);
    assert gone !in a.slots[cut..];
    var i :| 0 <= i < |a.slots| && a.slots[i] == gone;
    var j :| cut <= j < |a.slots| && a.slots[j] == stays;
  }

  // ------------------------------------------------------------------- values --

  /** The slot was put by its key's last put. */
  ghost predicate LastPut<K, V>(ops: seq<Op<K, V>>, slot: Slot<K, V>) {
    exists i | 0 <= i < |ops| :: ops[i] == PutOp(slot) && NoPut(ops[i + 1..], slot.key)
  }

  ghost predicate NoPut<K, V>(ops: seq<Op<K, V>>, key: K) {
    forall op <- ops :: op.PutOp? ==> op.slot.key != key
  }

  lemma LastPutLater<K, V>(ops: seq<Op<K, V>>, op: Op<K, V>, slot: Slot<K, V>)
    requires LastPut(ops, slot) && (op.PutOp? ==> op.slot.key != slot.key)
    ensures LastPut(ops + [op], slot)
  {
    var i :| 0 <= i < |ops| && ops[i] == PutOp(slot) && NoPut(ops[i + 1..], slot.key);
    assert (ops + [op])[i] == PutOp(slot) && (ops + [op])[i + 1..] == ops[i + 1..] + [op];
  }

  /** A put leaves no other slot of its key. */
  lemma PutReplaces<K, V>(s: State<K, V>, op: Op<K, V>, slot: Slot<K, V>, ops: seq<Op<K, V>>)
    requires InUseOrder(s.slots, ops) && op.PutOp? && slot in Step(s, op).slots && op.slot.key == slot.key
    ensures slot == op.slot
  {
    OrderedStep(s, ops, op);
    var b := Step(s, op).slots;
    assert op.slot == b[|b| - 1];
  }

  lemma InsertComesFrom<K, V>(s: State<K, V>, put: Slot<K, V>, slot: Slot<K, V>)
    requires slot in Insert(s, put).slots && slot != put
    ensures slot in s.slots
  {
  }

  lemma SlotsComeFrom<K, V>(s: State<K, V>, op: Op<K, V>, slot: Slot<K, V>)
    requires slot in Step(s, op).slots && op != PutOp(slot)
    ensures slot in s.slots
  {
    match op
    case PutOp(put) =>
      InsertComesFrom(Roomy(s, put.bytes), put, slot) by { hide Insert; }
      hide Insert;
      assert slot in Roomy(s, put.bytes).slots;
    case GetOp(key) =>
    case PopOp(key) =>
    case ResizeOp(entries, bytes) =>
  }

  lemma ValueStep<K, V>(s: State<K, V>, ops: seq<Op<K, V>>, op: Op<K, V>, slot: Slot<K, V>)
    requires InUseOrder(s.slots, ops) && slot in Step(s, op).slots
    requires slot in s.slots ==> LastPut(ops, slot)
    ensures LastPut(ops + [op], slot)
  {
    hide Step;
    if op == PutOp(slot) {
      assert (ops + [op])[|ops|] == op && (ops + [op])[|ops| + 1..] == [];
    } else {
      SlotsComeFrom(s, op, slot);
      if op.PutOp? && op.slot.key == slot.key {
        PutReplaces(s, op, slot, ops);
      } else {
        LastPutLater(ops, op, slot);
      }
    }
  }

  /** Whatever a get finds is what the last put of that key stored. */
  lemma {:induction false} ValuesAreLatest<K, V>(s: State<K, V>, ops: seq<Op<K, V>>, slot: Slot<K, V>)
    requires s.slots == [] && slot in Run(s, ops).slots
    ensures LastPut(ops, slot)
    decreases |ops|
  {
    hide Step, LastPut;
    if ops != [] {
      var n := |ops| - 1;
      assert ops[..n] + [ops[n]] == ops;
      HistoryIsOrdered(s, ops[..n]);
      if slot in Run(s, ops[..n]).slots {
        ValuesAreLatest(s, ops[..n], slot);
      }
      ValueStep(Run(s, ops[..n]), ops[..n], ops[n], slot);
    }
  }

  lemma CountStep<K, V>(s: State<K, V>, op: Op<K, V>)
    requires |s.slots| <= s.maxEntries
    ensures |Step(s, op).slots| <= Step(s, op).maxEntries
  {
  }

  lemma {:induction false} CountHolds<K, V>(s: State<K, V>, ops: seq<Op<K, V>>)
    requires s.slots == []
    ensures |Run(s, ops).slots| <= Run(s, ops).maxEntries
    decreases |ops|
  {
    hide Step;
    if ops != [] {
      CountHolds(s, ops[..|ops| - 1]);
      CountStep(Run(s, ops[..|ops| - 1]), ops[|ops| - 1]);
    }
  }
}
