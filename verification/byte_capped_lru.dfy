/** The cache bounded by a number of entries and by a number of bytes. */
module ByteCappedLru {
  import opened Wrappers

  /** One more than the largest `usize`. */
  const WORD: nat := 0x1_0000_0000_0000_0000

  type usize = n: nat | n < WORD
  type NonZero = n: nat | n > 0 witness 1

  datatype Slot<K, V> = Slot(key: K, value: V, bytes: usize)

  /** The slots are in use order, least recently used first. */
  datatype State<K, V> = State(slots: seq<Slot<K, V>>, maxEntries: NonZero, maxBytes: usize, tracked: usize)

  function Minus(a: usize, b: usize): usize { if b <= a then a - b else 0 }

  function Plus(a: usize, b: usize): usize { if a + b < WORD then a + b else WORD - 1 }

  /** The unchecked addition of a release build. */
  function Wrapped(a: usize, b: usize): usize { (a + b) % WORD }

  function Sum<K, V>(slots: seq<Slot<K, V>>): nat {
    if slots == [] then 0 else slots[0].bytes + Sum(slots[1..])
  }

  // --------------------------------------------------------------- operations --

  /** Where the key is, or the length. */
  function Find<K(==), V>(slots: seq<Slot<K, V>>, key: K): (i: nat)
    ensures i <= |slots| && (i < |slots| ==> slots[i].key == key)
    ensures forall j | 0 <= j < i :: slots[j].key != key
  {
    if slots == [] || slots[0].key == key then 0 else Find(slots[1..], key) + 1
  }

  function Without<K, V>(slots: seq<Slot<K, V>>, i: nat): seq<Slot<K, V>>
    requires i < |slots|
  {
    slots[..i] + slots[i + 1..]
  }

  /** How many of the oldest slots go before `bytes` more fit. */
  function Excess<K, V>(slots: seq<Slot<K, V>>, tracked: usize, bytes: usize, maxBytes: usize): (n: nat)
    ensures n <= |slots|
  {
    if slots == [] || Wrapped(tracked, bytes) <= maxBytes then 0
    else 1 + Excess(slots[1..], Minus(tracked, slots[0].bytes), bytes, maxBytes)
  }

  /** The tracked total once those slots are gone. */
  function Credited<K, V>(slots: seq<Slot<K, V>>, tracked: usize): usize {
    if slots == [] then tracked else Credited(slots[1..], Minus(tracked, slots[0].bytes))
  }

  function Shed<K, V>(s: State<K, V>, bytes: usize): State<K, V> {
    var n := Excess(s.slots, s.tracked, bytes, s.maxBytes);
    s.(slots := s.slots[n..], tracked := Credited(s.slots[..n], s.tracked))
  }

  /** The inner cache's own count cap. */
  function Newest<K, V>(slots: seq<Slot<K, V>>, n: nat): seq<Slot<K, V>> {
    if |slots| > n then slots[|slots| - n..] else slots
  }

  function AfterResize<K, V>(s: State<K, V>, maxEntries: NonZero, maxBytes: usize): State<K, V> {
    Shed(State(Newest(s.slots, maxEntries), maxEntries, maxBytes, s.tracked), 0)
  }

  function AfterGet<K(==), V>(s: State<K, V>, key: K): State<K, V> {
    var i := Find(s.slots, key);
    if i < |s.slots| then s.(slots := Without(s.slots, i) + [s.slots[i]]) else s
  }

  function Insert<K(==), V>(s: State<K, V>, slot: Slot<K, V>): State<K, V> {
    var i := Find(s.slots, slot.key);
    if i < |s.slots| then
      s.(slots := Without(s.slots, i) + [slot], tracked := Plus(Minus(s.tracked, s.slots[i].bytes), slot.bytes))
    else
      s.(slots := Newest(s.slots + [slot], s.maxEntries), tracked := Plus(s.tracked, slot.bytes))
  }

  function AfterPut<K(==), V>(s: State<K, V>, slot: Slot<K, V>): State<K, V> {
    Insert(if slot.bytes < s.maxBytes then Shed(s, slot.bytes) else s, slot)
  }

  function AfterPop<K(==), V>(s: State<K, V>, key: K): State<K, V> {
    var i := Find(s.slots, key);
    if i < |s.slots| then s.(slots := Without(s.slots, i), tracked := Minus(s.tracked, s.slots[i].bytes)) else s
  }

  class Cache<K(==), V> {
    var slots: seq<Slot<K, V>>
    var maxEntries: NonZero
    var maxBytes: usize
    var currentBytes: usize

    function Contents(): State<K, V>
      reads this
    {
      State(slots, maxEntries, maxBytes, currentBytes)
    }

    constructor (entries: NonZero, bytes: usize)
      ensures Contents() == State([], entries, bytes, 0)
    {
      slots, maxEntries, maxBytes, currentBytes := [], entries, bytes, 0;
    }

    /** Evicts the least recently used slot. */
    method PopLru() returns (bytes: usize)
      requires slots != []
      modifies this`slots
      ensures slots == old(slots)[1..] && bytes == old(slots)[0].bytes
    {
      bytes := slots[0].bytes;
      slots := slots[1..];
    }

    method MakeRoom(bytes: usize)
      modifies this`slots, this`currentBytes
      ensures Contents() == Shed(old(Contents()), bytes)
    {
      ghost var n := 0;
      ghost var all, total := slots, currentBytes;
      while Wrapped(currentBytes, bytes) > maxBytes
        invariant n <= |all| && slots == all[n..] && currentBytes == Credited(all[..n], total)
        invariant Excess(all, total, bytes, maxBytes) == n + Excess(slots, currentBytes, bytes, maxBytes)
        decreases |slots|
      {
        if slots == [] { break; }
        CreditedNext(all, total, n);
        var b := PopLru();
        currentBytes := Minus(currentBytes, b);
        n := n + 1;
      }
    }

    method Resize(entries: NonZero, bytes: usize)
      modifies this
      ensures Contents() == AfterResize(old(Contents()), entries, bytes)
    {
      maxEntries := entries;
      slots := Newest(slots, entries);
      maxBytes := bytes;
      MakeRoom(0);
    }

    method Get(key: K) returns (value: Option<V>)
      modifies this`slots
      ensures Contents() == AfterGet(old(Contents()), key)
      ensures value == Lookup(old(Contents()), key)
      ensures value.None? <==> forall x <- old(slots) :: x.key != key
      ensures value.Some? ==> exists x <- old(slots) :: x.key == key && x.value == value.value
    {
      var i := Find(slots, key);
      if i == |slots| { return None; }
      var slot := slots[i];
      slots := Without(slots, i) + [slot];
      return Some(slot.value);
    }

    method Put(key: K, value: V, bytes: usize)
      modifies this
      ensures Contents() == AfterPut(old(Contents()), Slot(key, value, bytes))
    {
      if bytes < maxBytes {
        MakeRoom(bytes);
      }
      var i := Find(slots, key);
      if i < |slots| {
        currentBytes := Minus(currentBytes, slots[i].bytes);
        slots := Without(slots, i) + [Slot(key, value, bytes)];
      } else {
        slots := Newest(slots + [Slot(key, value, bytes)], maxEntries);
      }
      currentBytes := Plus(currentBytes, bytes);
    }

    method Pop(key: K)
      modifies this`slots, this`currentBytes
      ensures Contents() == AfterPop(old(Contents()), key)
    {
      var i := Find(slots, key);
      if i < |slots| {
        var bytes := slots[i].bytes;
        slots := Without(slots, i);
        currentBytes := Minus(currentBytes, bytes);
      }
    }
  }

  function Lookup<K(==), V>(s: State<K, V>, key: K): Option<V> {
    var i := Find(s.slots, key);
    if i < |s.slots| then Some(s.slots[i].value) else None
  }

  lemma {:induction false} CreditedNext<K, V>(slots: seq<Slot<K, V>>, tracked: usize, n: nat)
    requires n < |slots|
    ensures Credited(slots[..n + 1], tracked) == Minus(Credited(slots[..n], tracked), slots[n].bytes)
  {
    assert slots[..n + 1][1..] == slots[1..][..n];
    if n > 0 {
      assert slots[..n][1..] == slots[1..][..n - 1];
      CreditedNext(slots[1..], Minus(tracked, slots[0].bytes), n - 1);
    }
  }

  // ------------------------------------------------------------------ budgets --

  lemma {:induction false} SumJoin<K, V>(a: seq<Slot<K, V>>, b: seq<Slot<K, V>>)
    ensures Sum(a + b) == Sum(a) + Sum(b)
  {
    if a == [] {
      assert a + b == b;
    } else {
      SumJoin(a[1..], b);
      assert (a + b)[1..] == a[1..] + b;
    }
  }

  lemma SumSplit<K, V>(slots: seq<Slot<K, V>>, n: nat)
    requires n <= |slots|
    ensures Sum(slots) == Sum(slots[..n]) + Sum(slots[n..])
  {
    assert slots == slots[..n] + slots[n..];
    SumJoin(slots[..n], slots[n..]);
  }

  lemma SumWithout<K, V>(slots: seq<Slot<K, V>>, i: nat)
    requires i < |slots|
    ensures Sum(slots) == Sum(Without(slots, i)) + slots[i].bytes
  {
    SumSplit(slots, i);
    SumJoin(slots[..i], slots[i + 1..]);
  }

  /** The total is the resident bytes and those the count cap threw out uncredited. */
  predicate Accounts<K, V>(s: State<K, V>, lost: nat) {
    s.tracked == Sum(s.slots) + lost
  }

  lemma {:induction false} CreditedIsExact<K, V>(slots: seq<Slot<K, V>>, tracked: usize)
    requires Sum(slots) <= tracked
    ensures Credited(slots, tracked) == tracked - Sum(slots)
  {
    if slots != [] {
      CreditedIsExact(slots[1..], Minus(tracked, slots[0].bytes));
    }
  }

  /** Eviction stops as soon as the rest fits, and no sooner. */
  lemma {:induction false} ExcessIsLeast<K, V>(slots: seq<Slot<K, V>>, tracked: usize, bytes: usize, maxBytes: usize, k: nat)
    requires k <= Excess(slots, tracked, bytes, maxBytes)
    ensures var left := Wrapped(Credited(slots[..k], tracked), bytes);
            if k < Excess(slots, tracked, bytes, maxBytes) then left > maxBytes else k == |slots| || left <= maxBytes
  {
    if k > 0 {
      ExcessIsLeast(slots[1..], Minus(tracked, slots[0].bytes), bytes, maxBytes, k - 1);
      assert slots[..k][1..] == slots[1..][..k - 1];
    }
  }

  lemma ShedAccounts<K, V>(s: State<K, V>, bytes: usize, lost: nat)
    requires Accounts(s, lost)
    ensures Accounts(Shed(s, bytes), lost)
    ensures Shed(s, bytes).slots == [] || Wrapped(Shed(s, bytes).tracked, bytes) <= s.maxBytes
  {
    var n := Excess(s.slots, s.tracked, bytes, s.maxBytes);
    SumSplit(s.slots, n);
    CreditedIsExact(s.slots[..n], s.tracked);
    ExcessIsLeast(s.slots, s.tracked, bytes, s.maxBytes, n);
  }
}
