/** Paging through events and issues by keyset: each page starts after the last row of
    the one before it, by (sort key, id), both descending. */
module KeysetPaging {
  import opened Wrappers
  import opened TextOrder

  /** A time as text or a count: the values of one sort column. */
  datatype SortKey = Stamp(text: string) | Count(n: int)

  datatype Ref = Ref(key: SortKey, id: int)

  /** Counts sort before texts, as in the database; one column holds only one kind. */
  predicate Smaller(a: SortKey, b: SortKey) {
    match (a, b)
    case (Stamp(s), Stamp(t)) => Less(s, t)
    case (Count(m), Count(n)) => m < n
    case (Count(_), Stamp(_)) => true
    case (Stamp(_), Count(_)) => false
  }

  /** `a` is listed before `b`. */
  predicate Precedes(a: Ref, b: Ref) {
    Smaller(b.key, a.key) || (b.key == a.key && b.id < a.id)
  }

  lemma SmallerOrders(a: SortKey, b: SortKey, c: SortKey)
    ensures !Smaller(a, a)
    ensures Smaller(a, b) && Smaller(b, c) ==> Smaller(a, c)
    ensures a == b || Smaller(a, b) || Smaller(b, a)
  {
    if a.Stamp? {
      LessIrreflexive(a.text);
      if b.Stamp? {
        LessTotal(a.text, b.text);
        if c.Stamp? && Less(a.text, b.text) && Less(b.text, c.text) {
          LessTrans(a.text, b.text, c.text);
        }
      }
    }
  }

  lemma PrecedesOrders(a: Ref, b: Ref, c: Ref)
    ensures !Precedes(a, a)
    ensures Precedes(a, b) && Precedes(b, c) ==> Precedes(a, c)
    ensures a == b || Precedes(a, b) || Precedes(b, a)
  {
    SmallerOrders(a.key, b.key, c.key);
    SmallerOrders(c.key, b.key, a.key);
  }

  // -------------------------------------------------------------------- queries --

  predicate IsFirst(s: set<Ref>, m: Ref) {
    m in s && forall r <- s :: r == m || Precedes(m, r)
  }

  lemma {:induction false} FirstExists(s: set<Ref>)
    requires s != {}
    ensures exists m :: IsFirst(s, m)
    decreases |s|
  {
    var x :| x in s;
    if s == {x} {
      assert IsFirst(s, x);
    } else {
      FirstExists(s - {x});
      var m :| IsFirst(s - {x}, m);
      var first := if Precedes(x, m) then x else m;
      forall r <- s ensures r == first || Precedes(first, r) {
        PrecedesOrders(x, m, r);
      }
      assert IsFirst(s, first);
    }
  }

  /** ORDER BY key DESC, id DESC. */
  ghost function Ranked(s: set<Ref>): seq<Ref>
    decreases |s|
  {
    if s == {} then []
    else
      FirstExists(s);
      var m :| IsFirst(s, m);
      [m] + Ranked(s - {m})
  }

  ghost predicate InOrder(rows: seq<Ref>) {
    forall i, j | 0 <= i < j < |rows| :: Precedes(rows[i], rows[j])
  }

  lemma RankedFirst(s: set<Ref>)
    requires s != {}
    ensures var m := Ranked(s)[0]; IsFirst(s, m) && Ranked(s) == [m] + Ranked(s - {m})
  {
  }

  /** Every row once, in order. */
  lemma {:induction false} RankedIsTheOrder(s: set<Ref>)
    ensures InOrder(Ranked(s)) && |Ranked(s)| == |s|
    ensures forall r :: r in Ranked(s) <==> r in s
    decreases |s|
  {
    hide Precedes;
    if s != {} {
      RankedFirst(s);
      hide Ranked;
      RankedIsTheOrder(s - {Ranked(s)[0]});
    }
  }

  function After(s: set<Ref>, cursor: Option<Ref>): set<Ref> {
    match cursor
    case None => s
    case Some(c) => set r | r in s && Precedes(c, r)
  }

  lemma AfterFirst(s: set<Ref>, m: Ref)
    requires IsFirst(s, m)
    ensures After(s, Some(m)) == s - {m}
  {
    PrecedesOrders(m, m, m);
    hide Precedes;
  }

  lemma AfterLater(s: set<Ref>, m: Ref, last: Ref)
    requires IsFirst(s, m) && last in s - {m}
    ensures After(s, Some(last)) == After(s - {m}, Some(last))
  {
    PrecedesOrders(m, last, m);
    hide Precedes;
  }

  lemma PastFirst(m: Ref, rest: seq<Ref>, n: nat)
    requires 0 < n <= |rest| + 1
    ensures ([m] + rest)[n..] == rest[n - 1..]
    ensures n > 1 ==> ([m] + rest)[n - 1] == rest[n - 2]
  {
  }

  /** The rows after the last of a page are the rest of the order. */
  lemma {:induction false} RestAfter(s: set<Ref>, n: nat)
    requires 0 < n <= |s|
    ensures |Ranked(s)| == |s|
    ensures Ranked(After(s, Some(Ranked(s)[n - 1]))) == Ranked(s)[n..]
    decreases |s|
  {
    hide Ranked, InOrder, After, IsFirst;
    RankedIsTheOrder(s);
    RankedFirst(s);
    var m := Ranked(s)[0];
    var rest := Ranked(s - {m});
    PastFirst(m, rest, n);
    if n == 1 {
      AfterFirst(s, m);
    } else {
      LaterInRest(s - {m}, n - 2);
      AfterLater(s, m, rest[n - 2]);
      RestAfter(s - {m}, n - 1);
    }
  }

  lemma LaterInRest(s: set<Ref>, i: nat)
    requires i < |s|
    ensures i < |Ranked(s)| && Ranked(s)[i] in s
  {
    RankedIsTheOrder(s);
    hide Ranked;
  }

  // ---------------------------------------------------------------------- pages --

  /** Cursors are opaque text for clients. */
  datatype Codec = Codec(encode: Ref -> string, decode: string -> Option<Ref>)

  /** The rows' own cursors read back. */
  ghost predicate Faithful(codec: Codec, s: set<Ref>) {
    forall r <- s :: codec.decode(codec.encode(r)) == Some(r)
  }

  ghost predicate IsCursor(codec: Codec, from: Option<Ref>) {
    from.Some? ==> codec.decode(codec.encode(from.value)) == from
  }

  datatype Status = BadRequest
  datatype Page = Page(items: seq<Ref>, nextCursor: Option<string>)

  function Clamp(limit: int): nat { if limit < 1 then 1 else if limit > 100 then 100 else limit }

  function Take(rows: seq<Ref>, n: nat): seq<Ref> { if n < |rows| then rows[..n] else rows }

  /** One row more than the limit is asked for, to see whether there is a next page. */
  ghost function ListPage(codec: Codec, s: set<Ref>, limit: int, cursor: Option<string>): Result<Page, Status> {
    var from := if cursor.Some? then codec.decode(cursor.value) else None;
    if cursor.Some? && from.None? then Err(BadRequest)
    else
      var n := Clamp(limit);
      var rows := Take(Ranked(After(s, from)), n + 1);
      var items := Take(rows, n);
      Ok(Page(items, if |rows| > n then Some(codec.encode(items[|items| - 1])) else None))
  }

  /** A page is full or the last one, and its cursor leads to the rest. */
  lemma PageIsAPrefix(codec: Codec, s: set<Ref>, limit: int, from: Option<Ref>)
    requires IsCursor(codec, from)
    ensures var r := ListPage(codec, s, limit, if from.Some? then Some(codec.encode(from.value)) else None);
            var all := Ranked(After(s, from));
            r.Ok? && r.value.items <= all &&
            var n := if limit < 1 then 1 else if limit > 100 then 100 else limit;
            && (r.value.nextCursor.None? ==> r.value.items == all && |all| <= n)
            && (r.value.nextCursor.Some? ==>
                  && |r.value.items| == n < |all|
                  && r.value.nextCursor == Some(codec.encode(r.value.items[|r.value.items| - 1])))
  {
  }

  /** A cursor that does not decode is refused, and nothing else is. */
  lemma BadCursorsAreRefused(codec: Codec, s: set<Ref>, limit: int, cursor: Option<string>)
    ensures ListPage(codec, s, limit, cursor) == Err(BadRequest) <==> cursor.Some? && codec.decode(cursor.value).None?
  {
  }

  /** The client's walk: page after page until there is no cursor, with any limits. */
  ghost function Walk(codec: Codec, s: set<Ref>, limits: nat -> int, page: nat, from: Option<Ref>): seq<Ref>
    requires Faithful(codec, s) && IsCursor(codec, from)
    decreases |After(s, from)|
  {
    var r := ListPage(codec, s, limits(page), if from.Some? then Some(codec.encode(from.value)) else None);
    PageIsAPrefix(codec, s, limits(page), from);
    if r.value.nextCursor.None? then r.value.items
    else
      var last := codec.decode(r.value.nextCursor.value);
      WalkShrinks(s, from, Clamp(limits(page)));
      r.value.items + Walk(codec, s, limits, page + 1, last)
  }

  lemma WalkShrinks(s: set<Ref>, from: Option<Ref>, n: nat)
    requires 0 < n < |Ranked(After(s, from))|
    ensures var last := Ranked(After(s, from))[n - 1];
            && last in s && |After(s, Some(last))| < |After(s, from)|
            && Ranked(After(s, Some(last))) == Ranked(After(s, from))[n..]
  {
    var all := After(s, from);
    RankedIsTheOrder(all);
    var last := Ranked(all)[n - 1];
    assert last in all;
    forall r | r in After(s, Some(last)) ensures r in all {
      if from.Some? { PrecedesOrders(from.value, last, r); }
    }
    assert After(s, Some(last)) == After(all, Some(last));
    RestAfter(all, n);
    RankedIsTheOrder(After(s, Some(last)));
  }

  /** The walk ends and gives exactly the rows after its start, in order. */
  lemma {:induction false} WalkIsTheOrder(codec: Codec, s: set<Ref>, limits: nat -> int, page: nat, from: Option<Ref>)
    requires Faithful(codec, s) && IsCursor(codec, from)
    ensures Walk(codec, s, limits, page, from) == Ranked(After(s, from))
    decreases |After(s, from)|
  {
    hide Ranked, After, ListPage;
    var all := Ranked(After(s, from));
    var n := Clamp(limits(page));
    PageIsAPrefix(codec, s, limits(page), from);
    if n < |all| {
      WalkShrinks(s, from, n);
      WalkIsTheOrder(codec, s, limits, page + 1, Some(all[n - 1]));
      assert all == all[..n] + all[n..];
    }
  }

  // --------------------------------------------------------------------- tables --

  /** The rows of a table that pass the filter, under the chosen sort column. */
  function Matching<R>(table: map<int, R>, matches: (int, R) -> bool, keyOf: R -> SortKey): set<Ref> {
    set id | id in table && matches(id, table[id]) :: Ref(keyOf(table[id]), id)
  }

  /** Greatest sort key first, of texts the last in lexicographic order; of equal keys the
      greatest id first. */
  ghost predicate Descending(rows: seq<Ref>) {
    forall i, j | 0 <= i < j < |rows| ::
      match (rows[i].key, rows[j].key)
      case (Count(m), Count(n)) => m > n || (m == n && rows[i].id > rows[j].id)
      case (Stamp(s), Stamp(t)) => Less(t, s) || (s == t && rows[i].id > rows[j].id)
      case (a, _) => a.Stamp?
  }

  /** Following the cursors from the first page until there is none visits every
      matching row exactly once and nothing else, in descending order, whatever the
      limits are and however many sort keys are equal. */
  lemma EveryRowOnce<R>(codec: Codec, table: map<int, R>, matches: (int, R) -> bool, keyOf: R -> SortKey, limits: nat -> int)
    requires Faithful(codec, Matching(table, matches, keyOf))
    ensures var walked := Walk(codec, Matching(table, matches, keyOf), limits, 0, None);
            && InOrder(walked) && Descending(walked)
            && (forall i, j | 0 <= i < j < |walked| :: walked[i].id != walked[j].id)
            && (forall id :: id in table && matches(id, table[id]) <==> exists r <- walked :: r.id == id)
            && (forall r <- walked :: r.id in table && r.key == keyOf(table[r.id]))
  {
    var s := Matching(table, matches, keyOf);
    WalkIsTheOrder(codec, s, limits, 0, None);
    RankedIsTheOrder(s);
    var walked := Ranked(s);
    forall id | id in table && matches(id, table[id]) ensures exists r <- walked :: r.id == id {
      assert Ref(keyOf(table[id]), id) in walked;
    }
    forall i, j | 0 <= i < j < |walked| ensures walked[i].id != walked[j].id {
      assert walked[i] in s && walked[j] in s;
      PrecedesOrders(walked[i], walked[j], walked[i]);
    }
  }
}
