/** What each call of the cache does, from its entries and sizes alone. */
module LruCalls {
  import opened Wrappers
  import opened ByteCappedLru
  import opened LruHistory
  import opened LruBudget

  ghost predicate OneEach<K, V>(slots: seq<Slot<K, V>>) {
    forall i, j | 0 <= i < j < |slots| :: slots[i].key != slots[j].key
  }

  /** The entries of other keys, as they stand. */
  ghost function Others<K, V>(slots: seq<Slot<K, V>>, key: K): seq<Slot<K, V>> {
    if slots == [] then []
    else Others(slots[..|slots| - 1], key) + if slots[|slots| - 1].key == key then [] else [slots[|slots| - 1]]
  }

  lemma {:induction false} OthersAll<K, V>(slots: seq<Slot<K, V>>, key: K)
    requires forall x <- slots :: x.key != key
    ensures Others(slots, key) == slots
  {
    if slots != [] {
      var rest, last := slots[..|slots| - 1], slots[|slots| - 1];
      assert slots == rest + [last] && last in slots;
      assert forall x <- rest :: x in slots;
      OthersAll(rest, key);
    }
  }

  lemma {:induction false} OthersJoin<K, V>(a: seq<Slot<K, V>>, b: seq<Slot<K, V>>, key: K)
    ensures Others(a + b, key) == Others(a, key) + Others(b, key)
    decreases |b|
  {
    if b == [] {
      assert a + b == a;
    } else {
      var rest, last := b[..|b| - 1], b[|b| - 1];
      OthersJoin(a, rest, key);
      assert (a + b)[..|a + b| - 1] == a + rest && (a + b)[|a + b| - 1] == last;
      var x: seq<Slot<K, V>> := if last.key == key then [] else [last];
      assert Others(a, key) + (Others(rest, key) + x) == Others(a, key) + Others(rest, key) + x;
    }
  }

  lemma OthersOne<K, V>(x: Slot<K, V>, key: K)
    ensures Others([x], key) == if x.key == key then [] else [x]
  {
    assert [x][..0] == [];
  }

  lemma OthersAround<K, V>(a: seq<Slot<K, V>>, x: Slot<K, V>, b: seq<Slot<K, V>>)
    requires (forall y <- a :: y.key != x.key) && (forall y <- b :: y.key != x.key)
    ensures Others(a + [x] + b, x.key) == a + b
  {
    OthersAll(a, x.key);
    OthersAll(b, x.key);
    OthersOne(x, x.key);
    OthersJoin(a, [x], x.key);
    OthersJoin(a + [x], b, x.key);
    hide Others;
    assert a + [] == a;
  }

  lemma WithoutIsOthers<K, V>(slots: seq<Slot<K, V>>, i: nat)
    requires OneEach(slots) && i < |slots|
    ensures Without(slots, i) == Others(slots, slots[i].key)
  {
    var a, b := slots[..i], slots[i + 1..];
    forall y | y in a || y in b ensures y.key != slots[i].key {
      var j :| 0 <= j < |slots| && j != i && slots[j] == y;
    }
    assert slots == a + [slots[i]] + b;
    hide Others, OneEach;
    OthersAround(a, slots[i], b);
  }

  lemma FoundExactly<K, V>(slots: seq<Slot<K, V>>, key: K, x: Slot<K, V>)
    requires OneEach(slots)
    ensures x in slots && x.key == key <==> Find(slots, key) < |slots| && slots[Find(slots, key)] == x
  {
  }

  // ------------------------------------------------------------------------- reads --

  /** A get finds the key's entry whenever there is one, and makes it the newest. */
  lemma GetInWords<K, V>(s: State<K, V>, key: K)
    requires OneEach(s.slots)
    ensures forall x <- s.slots | x.key == key ::
              Lookup(s, key) == Some(x.value) && AfterGet(s, key) == s.(slots := Others(s.slots, key) + [x])
    ensures (forall x <- s.slots :: x.key != key) ==> Lookup(s, key) == None && AfterGet(s, key) == s
  {
    forall x <- s.slots | x.key == key
      ensures Lookup(s, key) == Some(x.value) && AfterGet(s, key) == s.(slots := Others(s.slots, key) + [x])
    {
      FoundExactly(s.slots, key, x);
      WithoutIsOthers(s.slots, Find(s.slots, key));
    }
  }

  /** A pop removes the key's entry and its bytes from the total, and nothing else. */
  lemma PopInWords<K, V>(s: State<K, V>, key: K)
    requires OneEach(s.slots) && Bounded(s)
    ensures forall x <- s.slots | x.key == key ::
              x.bytes <= s.tracked && AfterPop(s, key) == s.(slots := Others(s.slots, key), tracked := s.tracked - x.bytes)
    ensures (forall x <- s.slots :: x.key != key) ==> AfterPop(s, key) == s
  {
    forall x <- s.slots | x.key == key
      ensures x.bytes <= s.tracked && AfterPop(s, key) == s.(slots := Others(s.slots, key), tracked := s.tracked - x.bytes)
    {
      FoundExactly(s.slots, key, x);
      WithoutIsOthers(s.slots, Find(s.slots, key));
      SumWithout(s.slots, Find(s.slots, key));
    }
  }

  // ------------------------------------------------------------------------ eviction --

  /** The guard after the `k` oldest entries are gone. */
  ghost function Left<K, V>(s: State<K, V>, bytes: usize, k: nat): int
    requires k <= |s.slots|
  {
    (s.tracked - Sum(s.slots[..k]) + bytes) % WORD
  }

  /** As few of the oldest entries go as make room for the bytes. */
  ghost predicate LeastCut<K, V>(s: State<K, V>, bytes: usize, cut: nat) {
    && cut <= |s.slots|
    && (forall k | 0 <= k < cut :: Left(s, bytes, k) > s.maxBytes)
    && (cut == |s.slots| || Left(s, bytes, cut) <= s.maxBytes)
  }

  lemma CreditedIs<K, V>(s: State<K, V>, k: nat)
    requires Bounded(s) && k <= |s.slots|
    ensures Credited(s.slots[..k], s.tracked) == s.tracked - Sum(s.slots[..k]) >= 0
  {
    SumSplit(s.slots, k);
    CreditedIsExact(s.slots[..k], s.tracked);
  }

  lemma ShedInWords<K, V>(s: State<K, V>, bytes: usize) returns (cut: nat)
    requires Bounded(s)
    ensures LeastCut(s, bytes, cut) && s.tracked >= Sum(s.slots[..cut])
    ensures Shed(s, bytes) == s.(slots := s.slots[cut..], tracked := s.tracked - Sum(s.slots[..cut]))
  {
    cut := Excess(s.slots, s.tracked, bytes, s.maxBytes);
    CreditedIs(s, cut);
    ExcessIsLeast(s.slots, s.tracked, bytes, s.maxBytes, cut);
    forall k | 0 <= k < cut ensures Left(s, bytes, k) > s.maxBytes {
      ExcessIsLeast(s.slots, s.tracked, bytes, s.maxBytes, k);
      CreditedIs(s, k);
    }
  }

  /** The newest `n` entries. */
  ghost function Last<K, V>(slots: seq<Slot<K, V>>, n: nat): seq<Slot<K, V>> {
    if |slots| <= n then slots else slots[|slots| - n..]
  }

  /** A put smaller than the budget first makes room for itself, any other makes none; then
      its entry takes the place of the key's, or comes on top and the count cap applies. */
  lemma PutInWords<K, V>(s: State<K, V>, slot: Slot<K, V>) returns (cut: nat)
    requires OneEach(s.slots) && Bounded(s)
    ensures cut <= |s.slots| && if slot.bytes < s.maxBytes then LeastCut(s, slot.bytes, cut) else cut == 0
    ensures var kept := s.slots[cut..];
            AfterPut(s, slot).slots ==
              if exists x <- kept :: x.key == slot.key then Others(kept, slot.key) + [slot] else Last(kept + [slot], s.maxEntries)
    ensures AfterPut(s, slot).maxEntries == s.maxEntries && AfterPut(s, slot).maxBytes == s.maxBytes
  {
    hide Excess, Credited;
    if slot.bytes < s.maxBytes {
      cut := ShedInWords(s, slot.bytes);
    } else {
      cut := 0;
      assert s.slots[0..] == s.slots;
    }
    hide Shed, LeastCut;
    var kept := s.slots[cut..];
    assert OneEach(kept);
    var i := Find(kept, slot.key);
    if i < |kept| {
      WithoutIsOthers(kept, i);
    }
  }

  /** A resize keeps the newest entries that the new count allows, and of those as many as
      fit the new budget. */
  lemma ResizeInWords<K, V>(s: State<K, V>, entries: NonZero, bytes: usize) returns (cut: nat)
    requires Bounded(s)
    ensures LeastCut(s.(slots := Last(s.slots, entries), maxEntries := entries, maxBytes := bytes), 0, cut)
    ensures AfterResize(s, entries, bytes).slots == Last(s.slots, entries)[cut..]
    ensures AfterResize(s, entries, bytes).maxEntries == entries && AfterResize(s, entries, bytes).maxBytes == bytes
  {
    NewestSum(s.slots, entries);
    cut := ShedInWords(s.(slots := Newest(s.slots, entries), maxEntries := entries, maxBytes := bytes), 0);
    hide Shed, LeastCut;
  }

  /** A put can be got back at once. */
  lemma PutIsFound<K, V>(s: State<K, V>, slot: Slot<K, V>)
    requires OneEach(s.slots) && Bounded(s)
    ensures OneEach(AfterPut(s, slot).slots) && Lookup(AfterPut(s, slot), slot.key) == Some(slot.value)
  {
    var cut := PutInWords(s, slot);
    var kept, after := s.slots[cut..], AfterPut(s, slot).slots;
    assert OneEach(kept);
    OthersAreOthers(kept, slot.key);
    hide AfterPut, LeastCut, Others, Lookup;
    OneMore(Others(kept, slot.key), slot);
    if forall x <- kept :: x.key != slot.key {
      OneMore(kept, slot);
      LastOnes(kept + [slot], s.maxEntries);
    }
    hide OneEach, Last;
    FoundExactly(after, slot.key, slot);
    LookupIs(AfterPut(s, slot), slot.key);
  }

  lemma OneMore<K, V>(slots: seq<Slot<K, V>>, slot: Slot<K, V>)
    requires OneEach(slots) && forall x <- slots :: x.key != slot.key
    ensures OneEach(slots + [slot]) && slot in slots + [slot]
  {
  }

  lemma LastOnes<K, V>(slots: seq<Slot<K, V>>, n: NonZero)
    requires OneEach(slots) && slots != []
    ensures OneEach(Last(slots, n)) && slots[|slots| - 1] in Last(slots, n)
  {
    var last := Last(slots, n);
    assert last[|last| - 1] == slots[|slots| - 1];
  }

  lemma LookupIs<K, V>(s: State<K, V>, key: K)
    ensures Find(s.slots, key) < |s.slots| ==> Lookup(s, key) == Some(s.slots[Find(s.slots, key)].value)
  {
  }

  lemma {:induction false} OthersAreOthers<K, V>(slots: seq<Slot<K, V>>, key: K)
    requires OneEach(slots)
    ensures OneEach(Others(slots, key)) && forall x <- Others(slots, key) :: x.key != key && x in slots
  {
    if slots != [] {
      OthersAreOthers(slots[..|slots| - 1], key);
    }
  }
}
