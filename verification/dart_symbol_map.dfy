/** Dart symbol maps, and the rewriting of the symbols an exception's text names. */
module DartSymbolMap {
  import opened Wrappers

  const PREFIX := "Instance of '"
  const QUOTE := '\''

  predicate At(s: string, pat: string, i: int) {
    0 <= i && i + |pat| <= |s| && s[i..i + |pat|] == pat
  }

  lemma LaterPlace(s: string, pat: string, j: int)
    requires s != "" && j > 0
    ensures At(s, pat, j) <==> At(s[1..], pat, j - 1)
  {
    if j + |pat| <= |s| {
      assert s[j..j + |pat|] == s[1..][j - 1..j - 1 + |pat|];
    }
  }

  lemma LaterPlaces(s: string, pat: string)
    requires s != ""
    ensures forall j | At(s, pat, j) :: j == 0 || At(s[1..], pat, j - 1)
    ensures forall j | At(s[1..], pat, j) :: At(s, pat, j + 1)
  {
    forall j | At(s, pat, j) && j != 0 ensures At(s[1..], pat, j - 1) {
      LaterPlace(s, pat, j);
    }
    forall j | At(s[1..], pat, j) ensures At(s, pat, j + 1) {
      LaterPlace(s, pat, j + 1);
    }
  }

  /** The first place of `pat` in `s`. */
  function Find(s: string, pat: string): (r: Option<nat>)
    ensures r.Some? ==> At(s, pat, r.value)
    ensures forall j | At(s, pat, j) :: r.Some? && r.value <= j
  {
    if |s| < |pat| then None
    else if s[..|pat|] == pat then Some(0)
    else
      var r := Find(s[1..], pat);
      LaterPlaces(s, pat);
      if r.Some? then Some(r.value + 1) else None
  }

  lemma AtPrefix(s: string, more: string, pat: string, j: int)
    requires j + |pat| <= |s|
    ensures At(s + more, pat, j) <==> At(s, pat, j)
  {
  }

  /** A text that ends with its first occurrence still has it first, whatever follows. */
  lemma FindIs(s: string, pat: string, i: nat, more: string)
    requires Find(s, pat) == Some(i) && |s| == i + |pat|
    ensures Find(s + more, pat) == Some(i)
  {
    AtPrefix(s, more, pat, i);
    var r := Find(s + more, pat);
    AtPrefix(s, more, pat, r.value);
  }

  lemma AtQuote(s: string, i: int)
    ensures At(s, [QUOTE], i) <==> 0 <= i < |s| && s[i] == QUOTE
  {
  }

  function Mapped(m: map<string, string>, symbol: string): string {
    if symbol in m then m[symbol] else symbol
  }

  // -------------------------------------------------------------------- pieces --

  /** The text up to and with the first prefix that a quote closes, the symbol between,
      and the rest from the closing quote on. */
  datatype Cut = Cut(before: string, symbol: string, rest: string)

  lemma ThreeParts(s: string, i: nat, n: nat)
    requires i + n <= |s|
    ensures s == s[..i] + s[i..i + n] + s[i + n..]
  {
  }

  function FirstSymbol(s: string): (r: Option<Cut>)
    ensures r.Some? ==> |r.value.rest| < |s| && s == r.value.before + r.value.symbol + r.value.rest
  {
    hide Find;
    match Find(s, PREFIX)
    case None => None
    case Some(start) =>
      assert |PREFIX| > 0;
      var symStart := start + |PREFIX|;
      match Find(s[symStart..], [QUOTE])
      case None => None
      case Some(symLen) =>
        ThreeParts(s, symStart, symLen);
        Some(Cut(s[..symStart], s[symStart..symStart + symLen], s[symStart + symLen..]))
  }

  predicate Changes(s: string, m: map<string, string>)
    decreases |s|
  {
    match FirstSymbol(s)
    case None => false
    case Some(cut) => cut.symbol in m || Changes(cut.rest, m)
  }

  function Rewrite(s: string, m: map<string, string>): string
    decreases |s|
  {
    match FirstSymbol(s)
    case None => s
    case Some(cut) => cut.before + Mapped(m, cut.symbol) + Rewrite(cut.rest, m)
  }

  function RewriteInstanceOf(s: string, m: map<string, string>): Option<string> {
    if Changes(s, m) then Some(Rewrite(s, m)) else None
  }

  method RewriteLoop(value: string, m: map<string, string>) returns (r: Option<string>)
    ensures r == RewriteInstanceOf(value, m)
  {
    hide Find;
    var out := "";
    var changed := false;
    var rest := value;
    while true
      invariant Rewrite(value, m) == out + Rewrite(rest, m)
      invariant Changes(value, m) == (changed || Changes(rest, m))
      decreases |rest|
    {
      var start := Find(rest, PREFIX);
      if start.None? { break; }
      var symStart := start.value + |PREFIX|;
      var symLen := Find(rest[symStart..], [QUOTE]);
      if symLen.None? { break; }
      var sym := rest[symStart..symStart + symLen.value];
      ghost var cut := FirstSymbol(rest).value;
      assert cut == Cut(rest[..symStart], sym, rest[symStart + symLen.value..]);
      Associative(out, cut.before, Mapped(m, sym), Rewrite(cut.rest, m));
      out := out + rest[..symStart];
      if sym in m {
        out := out + m[sym];
        changed := true;
      } else {
        out := out + sym;
      }
      rest := rest[symStart + symLen.value..];
    }
    if !changed { return None; }
    return Some(out + rest);
  }

  lemma Associative(a: string, b: string, c: string, d: string)
    ensures a + (b + c + d) == (a + b + c) + d
  {
  }

  // -------------------------------------------------------------- what is kept --

  /** The text around the symbols, and the symbols. */
  datatype Pieces = Pieces(texts: seq<string>, symbols: seq<string>)

  function Split(s: string): (p: Pieces)
    ensures |p.texts| == |p.symbols| + 1
    decreases |s|
  {
    match FirstSymbol(s)
    case None => Pieces([s], [])
    case Some(cut) =>
      var p := Split(cut.rest);
      Pieces([cut.before] + p.texts, [cut.symbol] + p.symbols)
  }

  function Weave(texts: seq<string>, symbols: seq<string>): string
    requires |texts| == |symbols| + 1
  {
    if symbols == [] then texts[0] else texts[0] + symbols[0] + Weave(texts[1..], symbols[1..])
  }

  function MappedAll(m: map<string, string>, symbols: seq<string>): (r: seq<string>)
    ensures |r| == |symbols| && forall i | 0 <= i < |r| :: r[i] == if symbols[i] in m then m[symbols[i]] else symbols[i]
  {
    seq(|symbols|, i requires 0 <= i < |symbols| => Mapped(m, symbols[i]))
  }

  lemma {:induction false} PiecesAreTheText(s: string)
    ensures Weave(Split(s).texts, Split(s).symbols) == s
    decreases |s|
  {
    hide Find;
    match FirstSymbol(s)
    case None =>
    case Some(cut) =>
      PiecesAreTheText(cut.rest);
      var p, q := Split(s), Split(cut.rest);
      assert p.texts[1..] == q.texts && p.symbols[1..] == q.symbols;
  }

  lemma {:induction false} ChangesIfMapped(s: string, m: map<string, string>)
    ensures Changes(s, m) <==> exists sym <- Split(s).symbols :: sym in m
    decreases |s|
  {
    hide Find;
    match FirstSymbol(s)
    case None =>
    case Some(cut) =>
      ChangesIfMapped(cut.rest, m);
      assert Split(s).symbols == [cut.symbol] + Split(cut.rest).symbols;
  }

  lemma {:induction false} SymbolsAreMapped(s: string, m: map<string, string>)
    ensures Rewrite(s, m) == Weave(Split(s).texts, MappedAll(m, Split(s).symbols))
    decreases |s|
  {
    hide Find, Changes;
    match FirstSymbol(s)
    case None =>
    case Some(cut) =>
      SymbolsAreMapped(cut.rest, m);
      var p, q := Split(s), Split(cut.rest);
      assert p.texts[1..] == q.texts && p.symbols[1..] == q.symbols;
      assert MappedAll(m, p.symbols)[1..] == MappedAll(m, q.symbols);
  }

  /** Only the symbols change: the text around them is kept exactly, in place. */
  lemma OnlySymbolsChange(s: string, m: map<string, string>)
    ensures Weave(Split(s).texts, Split(s).symbols) == s
    ensures Rewrite(s, m) == Weave(Split(s).texts, MappedAll(m, Split(s).symbols))
    ensures Changes(s, m) <==> exists sym <- Split(s).symbols :: sym in m
  {
    hide Split, Weave, Rewrite, Changes;
    PiecesAreTheText(s);
    SymbolsAreMapped(s, m);
    ChangesIfMapped(s, m);
  }

  /** No change is `None`, and reads as the text itself. */
  lemma UnchangedIsItself(s: string, m: map<string, string>)
    ensures !Changes(s, m) ==> Rewrite(s, m) == s
  {
  }

  // ---------------------------------------------------------------- composition --

  /** `f`, then `g`. */
  function Then(f: map<string, string>, g: map<string, string>): (h: map<string, string>)
    ensures forall k :: Mapped(h, k) == Mapped(g, Mapped(f, k))
    ensures forall k :: k in h <==> k in f || k in g
  {
    map k | k in f.Keys + g.Keys :: Mapped(g, Mapped(f, k))
  }

  /** A value the rewriter can produce holds no quote. (A key that holds one never matches.) */
  predicate QuoteFree(f: map<string, string>) {
    forall k | k in f && QUOTE !in k :: QUOTE !in f[k]
  }

  function Or(s: string, r: Option<string>): string {
    if r.Some? then r.value else s
  }

  lemma QuoteIs(symbol: string, rest: string)
    requires QUOTE !in symbol && rest != [] && rest[0] == QUOTE
    ensures Find(symbol + rest, [QUOTE]) == Some(|symbol|)
  {
    var t := symbol + rest;
    AtQuote(t, |symbol|);
    var r := Find(t, [QUOTE]);
    AtQuote(t, r.value);
  }

  /** A text is cut where its first prefix ends and the next quote stands. */
  lemma CutAt(before: string, symbol: string, rest: string, start: nat)
    requires Find(before, PREFIX) == Some(start) && |before| == start + |PREFIX|
    requires QUOTE !in symbol && rest != [] && rest[0] == QUOTE
    ensures FirstSymbol(before + symbol + rest) == Some(Cut(before, symbol, rest))
  {
    hide Find, At;
    var t := before + symbol + rest;
    FindIs(before, PREFIX, start, symbol + rest);
    assert t == before + (symbol + rest) && t[|before|..] == symbol + rest;
    QuoteIs(symbol, rest);
    assert t[|before|..|before| + |symbol|] == symbol && t[|before| + |symbol|..] == rest;
  }

  lemma CutIsQuoted(s: string)
    requires FirstSymbol(s).Some?
    ensures var cut := FirstSymbol(s).value; QUOTE !in cut.symbol && cut.rest != [] && cut.rest[0] == QUOTE
  {
    hide Find;
    SplitAtQuote(s[|FirstSymbol(s).value.before|..]);
  }

  lemma CutIsPrefixed(s: string)
    requires FirstSymbol(s).Some?
    ensures var before := FirstSymbol(s).value.before;
            |before| >= |PREFIX| && Find(before, PREFIX) == Some(|before| - |PREFIX|)
  {
    hide Find;
    var before := FirstSymbol(s).value.before;
    var tail, start := s[|before|..], |before| - |PREFIX|;
    assert s == before + tail;
    AtPrefix(before, tail, PREFIX, start);
    AtPrefix(before, tail, PREFIX, Find(before, PREFIX).value);
  }

  lemma SplitAtQuote(v: string)
    ensures Find(v, [QUOTE]).Some? <==> QUOTE in v
    ensures var r := Find(v, [QUOTE]); r.Some? ==> v[r.value] == QUOTE && QUOTE !in v[..r.value]
  {
    var r := Find(v, [QUOTE]);
    if r.Some? {
      AtQuote(v, r.value);
      forall j | 0 <= j < r.value ensures v[j] != QUOTE {
        AtQuote(v, j);
      }
    } else if QUOTE in v {
      var k :| 0 <= k < |v| && v[k] == QUOTE;
      AtQuote(v, k);
    }
  }

  lemma QuoteStays(s: string, m: map<string, string>)
    requires s != [] && s[0] == QUOTE
    ensures Rewrite(s, m) != [] && Rewrite(s, m)[0] == QUOTE
  {
  }

  /** Rewriting with `f` and then with `g` is rewriting once with `g` after `f`. */
  lemma {:induction false} RewriteTwice(s: string, f: map<string, string>, g: map<string, string>)
    requires QuoteFree(f)
    ensures Rewrite(Rewrite(s, f), g) == Rewrite(s, Then(f, g))
    decreases |s|
  {
    match FirstSymbol(s)
    case None =>
    case Some(cut) =>
      CutIsQuoted(s);
      CutIsPrefixed(s);
      QuoteStays(cut.rest, f);
      CutAt(cut.before, Mapped(f, cut.symbol), Rewrite(cut.rest, f), |cut.before| - |PREFIX|);
      RewriteTwice(cut.rest, f, g);
  }

  ghost predicate Composes(f: map<string, string>) {
    forall s: string, g: map<string, string> ::
      var once := Or(s, RewriteInstanceOf(s, f));
      Or(once, RewriteInstanceOf(once, g)) == Or(s, RewriteInstanceOf(s, Then(f, g)))
  }

  lemma OrIsRewrite(s: string, m: map<string, string>)
    ensures Or(s, RewriteInstanceOf(s, m)) == Rewrite(s, m)
  {
  }

  /** The law holds on every text and with every second map exactly when no value the
      first map can put between quotes holds a quote. */
  lemma ComposesExactly(f: map<string, string>)
    ensures Composes(f) <==> QuoteFree(f)
  {
    if QuoteFree(f) {
      forall s: string, g: map<string, string>
        ensures var once := Or(s, RewriteInstanceOf(s, f));
                Or(once, RewriteInstanceOf(once, g)) == Or(s, RewriteInstanceOf(s, Then(f, g)))
      {
        OrIsRewrite(s, f);
        OrIsRewrite(Rewrite(s, f), g);
        OrIsRewrite(s, Then(f, g));
        RewriteTwice(s, f, g);
      }
    } else {
      var k :| k in f && QUOTE !in k && QUOTE in f[k];
      var s, g := QuotedValueBreaksIt(f, k);
      OrIsRewrite(s, f);
      OrIsRewrite(Rewrite(s, f), g);
      OrIsRewrite(s, Then(f, g));
    }
  }

  lemma NoSymbol(m: map<string, string>)
    ensures Rewrite([QUOTE], m) == [QUOTE]
  {
  }

  lemma PrefixIsFirst()
    ensures Find(PREFIX, PREFIX) == Some(0)
  {
  }

  lemma RewriteNamed(symbol: string, rest: string, m: map<string, string>)
    requires QUOTE !in symbol && rest != [] && rest[0] == QUOTE
    ensures Rewrite(PREFIX + symbol + rest, m) == PREFIX + Mapped(m, symbol) + Rewrite(rest, m)
  {
    hide Find, At, FirstSymbol;
    PrefixIsFirst();
    CutAt(PREFIX, symbol, rest, 0);
  }

  lemma Regroup(a: string, b: string, c: string, d: string)
    ensures a + (b + c) + d == a + b + (c + d)
  {
  }

  lemma QuotedValueBreaksIt(f: map<string, string>, k: string) returns (s: string, g: map<string, string>)
    requires k in f && QUOTE !in k && QUOTE in f[k]
    ensures Rewrite(Rewrite(s, f), g) != Rewrite(s, Then(f, g))
  {
    hide Find, At, FirstSymbol, Rewrite;
    NoSymbol(f);
    SplitAtQuote(f[k]);
    var i := Find(f[k], [QUOTE]).value;
    var name, tail := f[k][..i], f[k][i..] + [QUOTE];
    s, g := PREFIX + k + [QUOTE], map[name := name + "!"];
    NoSymbol(Then(f, g));
    RewriteNamed(k, [QUOTE], f);
    RewriteNamed(k, [QUOTE], Then(f, g));
    assert name + f[k][i..] == f[k];
    Regroup(PREFIX, name, f[k][i..], [QUOTE]);
    RewriteNamed(name, tail, g);
    assert |f[k]| > |name| && Mapped(Then(f, g), k) == f[k];
    hide Then, Mapped;
    Differ(PREFIX, name, tail, Rewrite(tail, g));
  }

  lemma Differ(a: string, b: string, c: string, d: string)
    requires c != [] && c[0] == QUOTE
    ensures a + (b + "!") + d != a + b + c
  {
    assert (a + (b + "!") + d)[|a| + |b|] == '!';
    assert (a + b + c)[|a| + |b|] == QUOTE;
  }

  lemma TooShort(s: string)
    requires |s| < |PREFIX|
    ensures Find(s, PREFIX) == None
  {
  }

  /** An occurrence inside the symbol of another is not one: its quote closes the outer. */
  lemma NestedOccurrenceIsKept(m: map<string, string>)
    requires "Instance of " !in m
    ensures var text := PREFIX + "Instance of " + "'aB'";
            text == PREFIX + "Instance of '" + "aB'" && Rewrite(text, m) == text && !Changes(text, m)
  {
    hide Find, At, FirstSymbol;
    PrefixIsFirst();
    CutAt(PREFIX, "Instance of ", "'aB'", 0);
    TooShort("'aB'");
    assert PREFIX + "Instance of " + "'aB'" == PREFIX + "Instance of '" + "aB'";
    OnlyFirst(PREFIX, "Instance of ", "'aB'", m);
  }

  lemma OnlyFirst(before: string, symbol: string, rest: string, m: map<string, string>)
    requires FirstSymbol(before + symbol + rest) == Some(Cut(before, symbol, rest)) && Find(rest, PREFIX) == None && symbol !in m
    ensures Rewrite(before + symbol + rest, m) == before + symbol + rest && !Changes(before + symbol + rest, m)
  {
  }

  // ----------------------------------------------------------- which occurrences --

  /** An occurrence that a later quote closes. */
  predicate Closed(s: string, i: int) {
    At(s, PREFIX, i) && QUOTE in s[i + |PREFIX|..]
  }

  /** Where symbol `k` starts in the text that is split. */
  function Offset(p: Pieces, k: nat): nat
    requires k < |p.symbols| && |p.texts| == |p.symbols| + 1
    decreases k
  {
    |p.texts[0]| + if k == 0 then 0 else |p.symbols[0]| + Offset(Pieces(p.texts[1..], p.symbols[1..]), k - 1)
  }

  lemma SplitNext(s: string)
    ensures FirstSymbol(s).Some? <==> Split(s).symbols != []
    ensures FirstSymbol(s).Some? ==>
              var p, cut := Split(s), FirstSymbol(s).value;
              && p.texts[0] == cut.before && p.symbols[0] == cut.symbol
              && Pieces(p.texts[1..], p.symbols[1..]) == Split(cut.rest)
  {
    hide FirstSymbol;
  }

  lemma SlicePast(a: string, b: string, c: string, at: nat, n: nat)
    requires at + n <= |c|
    ensures (a + b + c)[|a|..|a| + |b|] == b
    ensures (a + b + c)[|a| + |b| + at..|a| + |b| + at + n] == c[at..at + n]
  {
  }

  /** The offset is where the symbol stands. */
  lemma {:induction false} SymbolStandsThere(s: string, k: nat)
    requires k < |Split(s).symbols|
    ensures var at, symbol := Offset(Split(s), k), Split(s).symbols[k];
            at + |symbol| <= |s| && s[at..at + |symbol|] == symbol
    decreases |s|
  {
    hide FirstSymbol, Split;
    SplitNext(s);
    var cut := FirstSymbol(s).value;
    if k == 0 {
      SlicePast(cut.before, cut.symbol, cut.rest, 0, 0);
      assert Offset(Split(s), 0) == |cut.before|;
    } else {
      SymbolStandsThere(cut.rest, k - 1);
      SlicePast(cut.before, cut.symbol, cut.rest, Offset(Split(cut.rest), k - 1), |Split(cut.rest).symbols[k - 1]|);
    }
  }

  /** The occurrence at `i` is the one before a symbol, and so is rewritten. */
  ghost predicate StartsSymbol(s: string, i: int) {
    exists k: nat | k < |Split(s).symbols| :: Offset(Split(s), k) == i + |PREFIX|
  }

  /** A quote stands between the end of the occurrence at `i` and the quote of the one at `j`. */
  predicate Apart(s: string, i: int, j: int)
    requires 0 <= i < j && j + |PREFIX| <= |s|
  {
    QUOTE in s[i + |PREFIX|..j + |PREFIX| - 1]
  }

  lemma StartsNext(s: string, i: int)
    ensures match FirstSymbol(s)
            case None => !StartsSymbol(s, i)
            case Some(cut) =>
              StartsSymbol(s, i) <==>
                i + |PREFIX| == |cut.before| || StartsSymbol(cut.rest, i - |cut.before| - |cut.symbol|)
  {
    hide FirstSymbol;
    if FirstSymbol(s).Some? {
      var cut := FirstSymbol(s).value;
      var p, q := Split(s), Split(cut.rest);
      assert p.texts[1..] == q.texts && p.symbols[1..] == q.symbols;
      assert Offset(p, 0) == |cut.before|;
      assert forall k: nat | k < |q.symbols| :: Offset(p, k + 1) == |cut.before| + |cut.symbol| + Offset(q, k);
      if k: nat :| k < |p.symbols| && Offset(p, k) == i + |PREFIX| {
        assert k > 0 ==> Offset(q, k - 1) == i - |cut.before| - |cut.symbol| + |PREFIX|;
      }
    }
  }

  lemma PrefixQuote(s: string, i: int, j: int)
    requires At(s, PREFIX, i) && i <= j < i + |PREFIX|
    ensures s[j] == QUOTE <==> j == i + |PREFIX| - 1
  {
    assert s[j] == s[i..i + |PREFIX|][j - i] == PREFIX[j - i];
  }

  lemma InTail(s: string, a: nat, b: nat)
    requires a <= b <= |s| && QUOTE in s[b..]
    ensures QUOTE in s[a..]
  {
    var q :| 0 <= q < |s[b..]| && s[b..][q] == QUOTE;
    assert s[a..][q + b - a] == QUOTE;
  }

  /** The first cut in terms of places: its symbol runs from the end of the first
      occurrence to the quote at `d`. */
  lemma CutPlaces(s: string, i: int)
    requires Closed(s, i)
    ensures FirstSymbol(s).Some?
    ensures var cut := FirstSymbol(s).value;
            var d := |cut.before| + |cut.symbol|;
            && |PREFIX| <= |cut.before| <= i + |PREFIX| && d < |s| && s[d] == QUOTE
            && cut.rest == s[d..] && cut.symbol == s[|cut.before|..d] && QUOTE !in cut.symbol
            && At(s, PREFIX, |cut.before| - |PREFIX|)
  {
    var start := Find(s, PREFIX).value;
    hide Find;
    InTail(s, start + |PREFIX|, i + |PREFIX|);
    SplitAtQuote(s[start + |PREFIX|..]);
    FoundPlaces(s, start, Find(s[start + |PREFIX|..], [QUOTE]).value);
  }

  lemma FoundPlaces(s: string, start: nat, n: nat)
    requires Find(s, PREFIX) == Some(start) && Find(s[start + |PREFIX|..], [QUOTE]) == Some(n)
    requires n < |s[start + |PREFIX|..]|
    ensures FirstSymbol(s) == Some(Cut(s[..start + |PREFIX|], s[start + |PREFIX|..start + |PREFIX| + n], s[start + |PREFIX| + n..]))
    ensures s[start + |PREFIX|..start + |PREFIX| + n] == s[start + |PREFIX|..][..n]
  {
    hide Find;
    var at := start + |PREFIX|;
    assert s[at..at + n] == s[at..][..n];
  }

  /** An occurrence that ends behind `b` lies behind the first quote from `b` on, or that
      quote is its own. */
  lemma PastTheQuote(s: string, b: nat, d: nat, i: int)
    requires At(s, PREFIX, i) && b <= d < |s| && s[d] == QUOTE && (forall q | b <= q < d :: s[q] != QUOTE)
    requires b < i + |PREFIX|
    ensures i >= d || d == i + |PREFIX| - 1
  {
    PrefixQuote(s, i, i + |PREFIX| - 1);
    if i < d < i + |PREFIX| {
      PrefixQuote(s, i, d);
    }
  }

  lemma ClosedInRest(s: string, d: nat, i: nat)
    requires d <= i && d <= |s|
    ensures Closed(s[d..], i - d) <==> Closed(s, i)
  {
    if i + |PREFIX| <= |s| {
      assert s[d..][i - d..i - d + |PREFIX|] == s[i..i + |PREFIX|];
      assert s[d..][i - d + |PREFIX|..] == s[i + |PREFIX|..];
    }
  }

  lemma BetweenIsSymbol(s: string, b: nat, d: nat, symbol: string, i: int)
    requires b <= d <= |s| && symbol == s[b..d] && QUOTE !in symbol && d == i + |PREFIX| - 1 && |PREFIX| <= b < i + |PREFIX| <= |s|
    ensures !Apart(s, b - |PREFIX|, i)
  {
    assert b - |PREFIX| + |PREFIX| == b;
  }

  lemma NoQuoteBetween(s: string, b: nat, d: nat, symbol: string)
    requires b <= d <= |s| && symbol == s[b..d] && QUOTE !in symbol
    ensures forall q | b <= q < d :: s[q] != QUOTE
  {
    assert forall q | b <= q < d :: s[q] == symbol[q - b];
  }

  /** A closed occurrence is the first, or lies in the rest, or its quote closes the first. */
  lemma ClosedCases(s: string, i: int)
    requires Closed(s, i)
    ensures FirstSymbol(s).Some?
    ensures var cut := FirstSymbol(s).value;
            var d := |cut.before| + |cut.symbol|;
            && |PREFIX| <= |cut.before|
            && (|| i + |PREFIX| == |cut.before|
                || (i >= d && Closed(cut.rest, i - d))
                || (|cut.before| < i + |PREFIX| && i < d && !Apart(s, |cut.before| - |PREFIX|, i)))
  {
    assert At(s, PREFIX, i) && 0 <= i && i + |PREFIX| <= |s|;
    hide At, Closed, Apart, FirstSymbol, Find;
    CutPlaces(s, i);
    var cut := FirstSymbol(s).value;
    var b, d := |cut.before|, |cut.before| + |cut.symbol|;
    NoQuoteBetween(s, b, d, cut.symbol);
    if b < i + |PREFIX| {
      PastTheQuote(s, b, d, i);
      if i >= d {
        ClosedInRest(s, d, i);
      } else {
        BetweenIsSymbol(s, b, d, cut.symbol, i);
      }
    }
  }

  lemma FirstIsClosed(s: string)
    requires FirstSymbol(s).Some?
    ensures var cut := FirstSymbol(s).value;
            Closed(s, |cut.before| - |PREFIX|) && |cut.before| >= |PREFIX| && cut.rest == s[|cut.before| + |cut.symbol|..]
  {
    hide Find, FirstSymbol;
    CutIsQuoted(s);
    CutIsPrefixed(s);
    var cut := FirstSymbol(s).value;
    assert s == cut.before + (cut.symbol + cut.rest);
    assert s[|cut.before|..] == cut.symbol + cut.rest;
    AtPrefix(cut.before, cut.symbol + cut.rest, PREFIX, |cut.before| - |PREFIX|) by {
      hide At;
    }
    assert (cut.symbol + cut.rest)[|cut.symbol|] == QUOTE;
  }

  lemma {:induction false} StartsAreClosed(s: string, i: int)
    requires StartsSymbol(s, i)
    ensures 0 <= i && i + |PREFIX| <= |s| && Closed(s, i)
    decreases |s|
  {
    StartsNext(s, i);
    hide Closed, StartsSymbol;
    var cut := FirstSymbol(s).value;
    FirstIsClosed(s);
    hide FirstSymbol;
    if i + |PREFIX| != |cut.before| {
      StartsAreClosed(cut.rest, i - |cut.before| - |cut.symbol|);
      ClosedInRest(s, |cut.before| + |cut.symbol|, i);
    }
  }

  lemma ApartInRest(s: string, d: nat, k: nat, i: nat)
    requires d <= k < i && i + |PREFIX| <= |s|
    ensures Apart(s[d..], k - d, i - d) <==> Apart(s, k, i)
  {
    assert s[d..][k - d + |PREFIX|..i - d + |PREFIX| - 1] == s[k + |PREFIX|..i + |PREFIX| - 1];
  }

  lemma FirstQuoteIsBetween(s: string, i: int)
    requires FirstSymbol(s).Some?
    requires var cut := FirstSymbol(s).value; i >= |cut.before| + |cut.symbol| && i + |PREFIX| <= |s|
    ensures Apart(s, |FirstSymbol(s).value.before| - |PREFIX|, i)
  {
    var cut := FirstSymbol(s).value;
    var d := |cut.before| + |cut.symbol|;
    CutIsQuoted(s);
    CutIsPrefixed(s);
    hide FirstSymbol, Find;
    assert s[|cut.before|..i + |PREFIX| - 1][|cut.symbol|] == s[d] == cut.rest[0];
  }

  /** No symbol starts inside another. */
  lemma {:induction false} SymbolsAreApart(s: string, k: nat, i: nat)
    requires StartsSymbol(s, k) && StartsSymbol(s, i) && k < i
    ensures i + |PREFIX| <= |s| && Apart(s, k, i)
    decreases |s|
  {
    hide Closed, StartsSymbol, Apart, FirstSymbol;
    StartsAreClosed(s, i);
    StartsNext(s, k);
    StartsNext(s, i);
    FirstIsClosed(s);
    var cut := FirstSymbol(s).value;
    var d := |cut.before| + |cut.symbol|;
    if i + |PREFIX| != |cut.before| {
      StartsAreClosed(cut.rest, i - d);
      if k + |PREFIX| == |cut.before| {
        FirstQuoteIsBetween(s, i);
      } else {
        StartsAreClosed(cut.rest, k - d);
        SymbolsAreApart(cut.rest, k - d, i - d);
        ApartInRest(s, d, k, i);
      }
    } else {
      StartsAreClosed(cut.rest, k - d);
    }
  }

  /** The occurrence lies in the symbol of an earlier one. */
  ghost predicate InSymbol(s: string, i: int) {
    exists k | 0 <= k < i && i + |PREFIX| <= |s| :: StartsSymbol(s, k) && !Apart(s, k, i)
  }

  lemma ClosedFits(s: string, i: int)
    requires Closed(s, i)
    ensures 0 <= i && i + |PREFIX| <= |s|
  {
  }

  lemma {:induction false} StartsOrIsInside(s: string, i: int) returns (k: int)
    requires Closed(s, i)
    ensures 0 <= k <= i && i + |PREFIX| <= |s| && StartsSymbol(s, k)
    ensures k == i || !Apart(s, k, i)
    decreases |s|
  {
    hide Closed, StartsSymbol, Apart, FirstSymbol;
    ClosedFits(s, i);
    ClosedCases(s, i);
    FirstIsClosed(s);
    var cut := FirstSymbol(s).value;
    var d := |cut.before| + |cut.symbol|;
    if i >= d && Closed(cut.rest, i - d) {
      var m := StartsOrIsInside(cut.rest, i - d);
      StartsNext(s, m + d);
      k := m + d;
      if m < i - d { ApartInRest(s, d, k, i); }
    } else {
      k := |cut.before| - |PREFIX|;
      StartsNext(s, k);
    }
  }

  /** One closed occurrence is rewritten exactly if it does not lie in the symbol of an
      earlier one. */
  lemma RewrittenUnlessInside(s: string, i: int)
    requires Closed(s, i)
    ensures StartsSymbol(s, i) <==> !InSymbol(s, i)
  {
    var k := StartsOrIsInside(s, i);
    hide Closed, StartsSymbol, Apart;
    if StartsSymbol(s, i) && InSymbol(s, i) {
      var j :| 0 <= j < i && StartsSymbol(s, j) && !Apart(s, j, i);
      SymbolsAreApart(s, j, i);
    }
  }

  /** Every closed occurrence of a text is rewritten exactly if between any two of them
      stands a quote that is not the second one's own. */
  lemma EveryOccurrenceExactly(s: string)
    ensures (forall i | Closed(s, i) :: StartsSymbol(s, i)) <==>
            (forall i, j | Closed(s, i) && Closed(s, j) && i < j :: Apart(s, i, j))
  {
    hide StartsSymbol, Apart;
    if forall i | Closed(s, i) :: StartsSymbol(s, i) {
      forall i, j | Closed(s, i) && Closed(s, j) && i < j ensures Apart(s, i, j) {
        SymbolsAreApart(s, i, j);
      }
    }
    if forall i, j | Closed(s, i) && Closed(s, j) && i < j :: Apart(s, i, j) {
      forall i | Closed(s, i) ensures StartsSymbol(s, i) {
        var k := StartsOrIsInside(s, i);
        StartsAreClosed(s, k);
      }
    }
  }

  // ----------------------------------------------------------------- exceptions --

  datatype Exception = Exception(kind: Option<string>, value: Option<string>)

  function Deobfuscated(e: Exception, m: map<string, string>): Exception {
    Exception(
      if e.kind.Some? then Some(Mapped(m, e.kind.value)) else None,
      if e.value.Some? then Some(Rewrite(e.value.value, m)) else None)
  }

  /** The type is mapped if the map has it, and the value's symbols are, each in its place. */
  ghost predicate IsDeobfuscated(before: Exception, after: Exception, m: map<string, string>) {
    && (before.kind.None? <==> after.kind.None?) && (before.value.None? <==> after.value.None?)
    && (before.kind.Some? ==>
          after.kind == if before.kind.value in m then Some(m[before.kind.value]) else before.kind)
    && (before.value.Some? ==>
          var p := Split(before.value.value);
          && before.value.value == Weave(p.texts, p.symbols)
          && after.value.value == Weave(p.texts, MappedAll(m, p.symbols)))
  }

  lemma DeobfuscatedIs(e: Exception, m: map<string, string>)
    ensures IsDeobfuscated(e, Deobfuscated(e, m), m)
  {
    if e.value.Some? {
      OnlySymbolsChange(e.value.value, m);
    }
    hide Split, Weave, Rewrite;
  }

  /** The event's exceptions, in place: types are mapped, values rewritten, order kept. */
  method DeobfuscateExceptions(values: array<Exception>, m: map<string, string>)
    modifies values
    ensures forall i | 0 <= i < values.Length :: IsDeobfuscated(old(values[i]), values[i], m)
  {
    hide Rewrite, Changes, IsDeobfuscated;
    for i := 0 to values.Length
      invariant forall j | 0 <= j < i :: values[j] == Deobfuscated(old(values[j]), m)
      invariant forall j | i <= j < values.Length :: values[j] == old(values[j])
    {
      var e := values[i];
      if e.kind.Some? && e.kind.value in m {
        e := e.(kind := Some(m[e.kind.value]));
      }
      if e.value.Some? {
        UnchangedIsItself(e.value.value, m);
        var rewritten := RewriteLoop(e.value.value, m);
        if rewritten.Some? {
          e := e.(value := rewritten);
        }
      }
      values[i] := e;
    }
    forall i | 0 <= i < values.Length ensures IsDeobfuscated(old(values[i]), values[i], m) {
      DeobfuscatedIs(old(values[i]), m);
    }
  }

  // ------------------------------------------------------------------ map files --

  datatype Value = Text(text: string) | Other

  /** The last pair of texts whose second is the key, and its first. */
  ghost predicate LastPair(entries: seq<Value>, key: string, name: string) {
    exists i | 0 <= i && 2 * i + 1 < |entries| :: PairAt(entries, i, key, name)
  }

  ghost predicate PairAt(entries: seq<Value>, i: nat, key: string, name: string)
    requires 2 * i + 1 < |entries|
  {
    && entries[2 * i] == Text(name) && entries[2 * i + 1] == Text(key)
    && forall j | i < j && 2 * j + 1 < |entries| :: !(entries[2 * j].Text? && entries[2 * j + 1] == Text(key))
  }

  /** A map file lists name, symbol, name, symbol and so on; an odd entry at the end is ignored. */
  method ParseMap(entries: seq<Value>) returns (m: map<string, string>)
    ensures forall key, name :: (key in m && m[key] == name) <==> LastPair(entries, key, name)
  {
    m := map[];
    var n := |entries| / 2;
    for i := 0 to n
      invariant forall key, name :: (key in m && m[key] == name) <==> LastPair(entries[..2 * i], key, name)
    {
      ghost var before, next := m, entries[..2 * (i + 1)];
      if entries[2 * i].Text? && entries[2 * i + 1].Text? {
        m := m[entries[2 * i + 1].text := entries[2 * i].text];
      }
      forall key, name ensures (key in m && m[key] == name) <==> LastPair(next, key, name) {
        PairsNext(entries, i, key, name);
        assert (key in before && before[key] == name) <==> LastPair(entries[..2 * i], key, name);
      }
    }
    PairsEnd(entries);
  }

  lemma PairsNext(entries: seq<Value>, i: nat, key: string, name: string)
    requires 2 * i + 1 < |entries|
    ensures LastPair(entries[..2 * (i + 1)], key, name) <==>
              if entries[2 * i].Text? && entries[2 * i + 1] == Text(key) then entries[2 * i] == Text(name)
              else LastPair(entries[..2 * i], key, name)
  {
    var a, b := entries[..2 * i], entries[..2 * (i + 1)];
    if entries[2 * i].Text? && entries[2 * i + 1] == Text(key) {
      assert entries[2 * i] == Text(name) ==> PairAt(b, i, key, name);
    } else {
      if LastPair(a, key, name) {
        var k :| 0 <= k && 2 * k + 1 < |a| && PairAt(a, k, key, name);
        assert PairAt(b, k, key, name);
      }
      if LastPair(b, key, name) {
        var k :| 0 <= k && 2 * k + 1 < |b| && PairAt(b, k, key, name);
        assert PairAt(a, k, key, name);
      }
    }
  }

  lemma PairsEnd(entries: seq<Value>)
    ensures forall key, name :: LastPair(entries[..2 * (|entries| / 2)], key, name) <==> LastPair(entries, key, name)
  {
    var a := entries[..2 * (|entries| / 2)];
    forall key, name ensures LastPair(a, key, name) <==> LastPair(entries, key, name) {
      if LastPair(a, key, name) {
        var k :| 0 <= k && 2 * k + 1 < |a| && PairAt(a, k, key, name);
        assert PairAt(entries, k, key, name);
      }
      if LastPair(entries, key, name) {
        var k :| 0 <= k && 2 * k + 1 < |entries| && PairAt(entries, k, key, name);
        assert PairAt(a, k, key, name);
      }
    }
  }
}
