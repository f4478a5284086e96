/** The envelope wire format: a header line, then items of a header line and a payload
    that its header may give the length of. */
module Envelope {
  import opened Octets
  import opened Wrappers

  const NL: byte := 10
  const CR: byte := 13

  /** One more than the largest `usize`. */
  const WORD: nat := 0x1_0000_0000_0000_0000

  datatype Headers = Headers(eventId: Option<string>, dsn: Option<string>, sentAt: Option<string>)

  datatype ItemHeaders = ItemHeaders(
    itemType: string,
    length: Option<nat>,
    contentType: Option<string>,
    filename: Option<string>,
    attachmentType: Option<string>)

  datatype Item = Item(headers: ItemHeaders, payload: Bytes)
  datatype Envelope = Envelope(headers: Headers, items: seq<Item>)

  /** `Overflow` stands for the panic on `cursor + length`. */
  datatype Error = Empty | InvalidHeader | InvalidItemHeader | IncompletePayload | Overflow

  /** The JSON of the headers, read and written. */
  datatype Json = Json(
    decode: Bytes -> Option<Headers>,
    decodeItem: Bytes -> Option<ItemHeaders>,
    encode: Headers -> Bytes,
    encodeItem: ItemHeaders -> Bytes)

  predicate Blank(s: Bytes) {
    forall b <- s :: b == NL || b == CR
  }

  predicate IsLine(s: Bytes) {
    !Blank(s) && NL !in s
  }

  /** What is written is one line and reads back. */
  ghost predicate ReadsBack(json: Json, h: ItemHeaders) {
    IsLine(json.encodeItem(h)) && json.decodeItem(json.encodeItem(h)) == Some(h)
  }

  ghost predicate AllReadBack(json: Json, items: seq<Item>) {
    forall i <- items :: ReadsBack(json, i.headers)
  }

  /** The headers of this envelope do. */
  ghost predicate Faithful(json: Json, e: Envelope) {
    && IsLine(json.encode(e.headers)) && json.decode(json.encode(e.headers)) == Some(e.headers)
    && AllReadBack(json, e.items)
  }

  // ------------------------------------------------------------------ reading --

  /** The position of the first newline, or the length. */
  function LineEnd(s: Bytes): (n: nat)
    ensures n <= |s|
  {
    if s == [] || s[0] == NL then 0 else LineEnd(s[1..]) + 1
  }

  lemma {:induction false} LineEndIs(line: Bytes, rest: Bytes)
    requires NL !in line && (rest == [] || rest[0] == NL)
    ensures LineEnd(line + rest) == |line|
  {
    if line == [] {
      assert line + rest == rest;
    } else {
      assert (line + rest)[1..] == line[1..] + rest;
      LineEndIs(line[1..], rest);
    }
  }

  function AfterNewline(s: Bytes): Bytes {
    if s != [] && s[0] == NL then s[1..] else s
  }

  /** One turn of the loop: the end of the items, a failure, or an item and the rest. */
  datatype Turn = Done | Fail(error: Error) | Got(item: Item, rest: Bytes)

  /** The item of `headers` at the start of `body`. */
  function TakePayload(headers: ItemHeaders, body: Bytes, total: nat): (turn: Turn)
    ensures turn.Got? ==> |turn.rest| <= |body|
  {
    var len := if headers.length.Some? then headers.length.value else LineEnd(body);
    if total - |body| + len >= WORD then Fail(Overflow)
    else if len > |body| then Fail(IncompletePayload)
    else Got(Item(headers, body[..len]), AfterNewline(body[len..]))
  }

  /** The turn at `s`, the end of a text of `total` bytes. */
  function NextItem(json: Json, s: Bytes, total: nat): (turn: Turn)
    ensures turn.Got? ==> |turn.rest| < |s|
  {
    var end := LineEnd(s);
    if Blank(s) then Done
    else if end == |s| then Fail(IncompletePayload)
    else if end == 0 then Done
    else
      match json.decodeItem(s[..end])
      case None => Fail(InvalidItemHeader)
      case Some(headers) => TakePayload(headers, s[end + 1..], total)
  }

  function Prepend(items: seq<Item>, r: Result<seq<Item>, Error>): Result<seq<Item>, Error> {
    match r case Err(e) => Err(e) case Ok(more) => Ok(items + more)
  }

  function ParseItems(json: Json, s: Bytes, total: nat): Result<seq<Item>, Error>
    decreases |s|
  {
    match NextItem(json, s, total)
    case Done => Ok([])
    case Fail(e) => Err(e)
    case Got(item, rest) => Prepend([item], ParseItems(json, rest, total))
  }

  lemma ParseGot(json: Json, s: Bytes, total: nat, item: Item, rest: Bytes)
    requires NextItem(json, s, total) == Got(item, rest)
    ensures ParseItems(json, s, total) == Prepend([item], ParseItems(json, rest, total))
  {
  }

  function ParseAll(json: Json, data: Bytes): Result<Envelope, Error> {
    if data == [] then Err(Empty)
    else
      var end := LineEnd(data);
      if end == |data| then Err(InvalidHeader)
      else
        match json.decode(data[..end])
        case None => Err(InvalidHeader)
        case Some(headers) =>
          match ParseItems(json, data[end + 1..], |data| - end - 1)
          case Err(e) => Err(e)
          case Ok(items) => Ok(Envelope(headers, items))
  }

  // ------------------------------------------------------------------ grammar --

  /** The text is a line, a newline and what follows. */
  predicate Lines(s: Bytes, line: Bytes, body: Bytes) { s == line + [NL] + body && NL !in line }

  /** A line that decodes to the item's headers starts the text. */
  ghost predicate ItemLine(json: Json, s: Bytes, line: Bytes, headers: ItemHeaders, body: Bytes) {
    line != [] && !Blank(s) && Lines(s, line, body) && json.decodeItem(line) == Some(headers)
  }

  /** The payload as long as announced, or else up to the next newline or the end; and then
      at most one newline. */
  predicate Payload(item: Item, body: Bytes, next: Bytes) {
    && item.payload <= body
    && (match item.headers.length
        case Some(n) => |item.payload| == n
        case None => NL !in item.payload && (item.payload == body || body[|item.payload|] == NL))
    && var tail := body[|item.payload|..];
       next == if tail != [] && tail[0] == NL then tail[1..] else tail
  }

  /** The text is these items, one after another, and `rest`. */
  ghost predicate Splits(json: Json, s: Bytes, items: seq<Item>, rest: Bytes)
    decreases |items|
  {
    if items == [] then rest == s
    else
      exists line, body, next | ItemLine(json, s, line, items[0].headers, body) && Payload(items[0], body, next) ::
        Splits(json, next, items[1..], rest)
  }

  /** The items may end here: nothing but line ends is left, or an empty line comes next. */
  predicate Ends(rest: Bytes) { Blank(rest) || rest[0] == NL }

  /** Here they break off, `before` bytes behind the header line: at a line that is none or
      does not decode, or at an announced payload that is not there or cannot be. */
  ghost predicate Breaks(json: Json, rest: Bytes, before: nat, error: Error) {
    match error
    case InvalidItemHeader => !Ends(rest) && exists line, body :: Lines(rest, line, body) && json.decodeItem(line).None?
    case IncompletePayload =>
      || (!Blank(rest) && NL !in rest)
      || exists line, headers, body :: ItemLine(json, rest, line, headers, body) && headers.length.Some?
           && headers.length.value > |body| && before + |line| + 1 + headers.length.value < WORD
    case Overflow =>
      exists line, headers, body :: ItemLine(json, rest, line, headers, body) && headers.length.Some?
        && before + |line| + 1 + headers.length.value >= WORD
    case _ => false
  }

  /** What a text says, from the text alone. */
  ghost predicate Says(json: Json, data: Bytes, r: Result<Envelope, Error>) {
    match r
    case Err(Empty) => data == []
    case Err(InvalidHeader) => data != [] && (NL !in data || exists line, body :: Lines(data, line, body) && json.decode(line).None?)
    case Err(error) =>
      exists line, body, items, rest ::
        Lines(data, line, body) && json.decode(line).Some? && Splits(json, body, items, rest) && |rest| <= |body|
        && Breaks(json, rest, |body| - |rest|, error)
    case Ok(e) =>
      exists line, body, rest ::
        Lines(data, line, body) && json.decode(line) == Some(e.headers) && Splits(json, body, e.items, rest) && Ends(rest)
  }

  lemma SplitAt(s: Bytes, n: nat)
    requires n < |s| && s[n] == NL
    ensures s == s[..n] + [NL] + s[n + 1..]
  {
  }

  lemma FirstLine(s: Bytes)
    ensures LineEnd(s) == |s| <==> NL !in s
    ensures LineEnd(s) < |s| ==> Lines(s, s[..LineEnd(s)], s[LineEnd(s) + 1..])
  {
    BeforeNewline(s);
    AtNewline(s);
    var n := LineEnd(s);
    hide LineEnd;
    if n < |s| {
      SplitAt(s, n);
      assert s[n] in s;
    } else {
      assert s[..n] == s;
    }
  }

  lemma {:induction false} AtNewline(s: Bytes)
    ensures LineEnd(s) < |s| ==> s[LineEnd(s)] == NL
  {
    if s != [] && s[0] != NL {
      AtNewline(s[1..]);
    }
  }

  lemma LinesEnd(s: Bytes, line: Bytes, body: Bytes)
    requires Lines(s, line, body)
    ensures LineEnd(s) == |line| < |s| && s[..|line|] == line && s[|line| + 1..] == body
  {
    assert s == line + ([NL] + body);
    SplitLine(line, body);
  }

  /** Where an unannounced payload ends. */
  lemma LinePayload(item: Item, body: Bytes, next: Bytes)
    requires item.headers.length.None? && Payload(item, body, next)
    ensures |item.payload| == LineEnd(body) && item.payload == body[..LineEnd(body)]
  {
    assert body == item.payload + body[|item.payload|..];
    LineEndIs(item.payload, body[|item.payload|..]);
  }

  /** A payload is taken exactly as the grammar says. */
  lemma TakenPayload(headers: ItemHeaders, body: Bytes, total: nat, item: Item, next: Bytes)
    requires |body| <= total < WORD
    ensures TakePayload(headers, body, total) == Got(item, next) <==> item.headers == headers && Payload(item, body, next)
  {
    if item.headers == headers && Payload(item, body, next) {
      if headers.length.None? {
        LinePayload(item, body, next);
      }
      hide LineEnd;
      assert body[..|item.payload|] == item.payload;
    } else if headers.length.None? {
      BeforeNewline(body);
      AtNewline(body);
      hide LineEnd;
    } else {
      hide LineEnd;
    }
  }

  lemma ReadLine(json: Json, s: Bytes, line: Bytes, headers: ItemHeaders, body: Bytes, total: nat)
    requires ItemLine(json, s, line, headers, body)
    ensures NextItem(json, s, total) == TakePayload(headers, body, total)
  {
    LinesEnd(s, line, body);
    hide TakePayload, LineEnd, Blank;
  }

  lemma ReadsItem(json: Json, s: Bytes, total: nat, item: Item, next: Bytes)
    requires |s| <= total < WORD
    ensures NextItem(json, s, total) == Got(item, next) <==>
              exists line, body :: ItemLine(json, s, line, item.headers, body) && Payload(item, body, next)
  {
    FirstLine(s);
    hide TakePayload, LineEnd, Blank, Payload;
    if line, body :| ItemLine(json, s, line, item.headers, body) && Payload(item, body, next) {
      ReadLine(json, s, line, item.headers, body, total);
      TakenPayload(item.headers, body, total, item, next);
    }
    if NextItem(json, s, total) == Got(item, next) {
      var end := LineEnd(s);
      var headers := json.decodeItem(s[..end]).value;
      TakenPayload(headers, s[end + 1..], total, item, next);
      assert ItemLine(json, s, s[..end], item.headers, s[end + 1..]);
    }
  }

  lemma BreaksUndecoded(json: Json, s: Bytes, line: Bytes, body: Bytes, before: nat)
    requires !Blank(s) && line != [] && Lines(s, line, body) && json.decodeItem(line).None?
    requires forall l, b | Lines(s, l, b) :: l == line && b == body
    ensures forall error :: Breaks(json, s, before, error) <==> error == InvalidItemHeader
  {
    hide Blank;
    assert NL in s && !Ends(s) by { assert s[0] == line[0] && line[0] in line && s[|line|] == NL; }
  }

  lemma BreaksDecoded(json: Json, s: Bytes, line: Bytes, body: Bytes, headers: ItemHeaders, before: nat)
    requires ItemLine(json, s, line, headers, body)
    requires forall l, b | Lines(s, l, b) :: l == line && b == body
    ensures var len := headers.length;
            && (Breaks(json, s, before, IncompletePayload) <==>
                  len.Some? && len.value > |body| && before + |line| + 1 + len.value < WORD)
            && (Breaks(json, s, before, Overflow) <==> len.Some? && before + |line| + 1 + len.value >= WORD)
            && !Breaks(json, s, before, InvalidItemHeader)
  {
    assert NL in s by { assert s[|line|] == NL; }
    hide Blank, Lines;
  }

  lemma NextAtLine(json: Json, s: Bytes, total: nat, end: nat)
    requires !Blank(s) && end == LineEnd(s) && 0 < end < |s|
    ensures NextItem(json, s, total) ==
              match json.decodeItem(s[..end])
              case None => Fail(InvalidItemHeader)
              case Some(headers) => TakePayload(headers, s[end + 1..], total)
  {
    hide TakePayload, Blank, LineEnd;
  }

  lemma PayloadFails(headers: ItemHeaders, body: Bytes, total: nat)
    requires |body| <= total < WORD
    ensures var turn, len := TakePayload(headers, body, total), headers.length;
            && !turn.Done?
            && (turn == Fail(IncompletePayload) <==> len.Some? && len.value > |body| && total - |body| + len.value < WORD)
            && (turn == Fail(Overflow) <==> len.Some? && total - |body| + len.value >= WORD)
            && (turn.Fail? ==> turn.error == IncompletePayload || turn.error == Overflow)
  {
    hide LineEnd, AfterNewline;
  }

  lemma StopsAtLine(json: Json, s: Bytes, total: nat, end: nat)
    requires |s| <= total < WORD && !Blank(s) && end == LineEnd(s) && 0 < end < |s| && Lines(s, s[..end], s[end + 1..])
    ensures !NextItem(json, s, total).Done? && !Ends(s)
    ensures forall error :: NextItem(json, s, total) == Fail(error) <==> Breaks(json, s, total - |s|, error)
  {
    NextAtLine(json, s, total, end);
    LinesAreUnique(json, s);
    var line, body := s[..end], s[end + 1..];
    assert s[0] == line[0] && line[0] in line;
    OtherErrorsNever(json, s, total - |s|);
    hide NextItem, TakePayload, LineEnd, Blank, Breaks;
    if json.decodeItem(line).Some? {
      var headers := json.decodeItem(line).value;
      assert ItemLine(json, s, line, headers, body);
      BreaksDecoded(json, s, line, body, headers, total - |s|);
      PayloadFails(headers, body, total);
    } else {
      BreaksUndecoded(json, s, line, body, total - |s|);
    }
  }

  lemma OtherErrorsNever(json: Json, s: Bytes, before: nat)
    ensures !Breaks(json, s, before, Empty) && !Breaks(json, s, before, InvalidHeader)
  {
  }

  /** The turn ends the items exactly where they may end, and fails exactly where they break. */
  lemma StopsExactly(json: Json, s: Bytes, total: nat)
    requires |s| <= total < WORD
    ensures NextItem(json, s, total).Done? <==> Ends(s)
    ensures forall error :: NextItem(json, s, total) == Fail(error) <==> Breaks(json, s, total - |s|, error)
  {
    FirstLine(s);
    AtNewline(s);
    var end := LineEnd(s);
    if !Blank(s) && end < |s| && end > 0 {
      hide LineEnd, Blank, Ends, Breaks, NextItem;
      StopsAtLine(json, s, total, end);
    } else {
      LinesAreUnique(json, s);
      hide LineEnd, TakePayload;
    }
  }

  lemma LinesAreUnique(json: Json, s: Bytes)
    ensures forall line, body | Lines(s, line, body) :: |line| == LineEnd(s) < |s| && line == s[..LineEnd(s)] && body == s[LineEnd(s) + 1..]
  {
    forall line, body | Lines(s, line, body)
      ensures |line| == LineEnd(s) < |s| && line == s[..LineEnd(s)] && body == s[LineEnd(s) + 1..]
    {
      LinesEnd(s, line, body);
    }
  }

  /** Items and the place where they stop, as the loop finds them. */
  lemma {:induction false} SplitsParse(json: Json, s: Bytes, total: nat, items: seq<Item>, rest: Bytes)
    requires |s| <= total < WORD && Splits(json, s, items, rest)
    ensures |rest| <= |s| && ParseItems(json, s, total) == Prepend(items, ParseItems(json, rest, total))
    decreases |items|
  {
    hide NextItem, Payload, ItemLine;
    if items == [] {
      PrependNone(ParseItems(json, s, total));
    } else {
      var line, body, next :| ItemLine(json, s, line, items[0].headers, body) && Payload(items[0], body, next) && Splits(json, next, items[1..], rest);
      ReadsItem(json, s, total, items[0], next);
      assert NextItem(json, s, total) == Got(items[0], next);
      SplitsParse(json, next, total, items[1..], rest);
      ParseGot(json, s, total, items[0], next);
      PrependTwo(items[0], items[1..], ParseItems(json, rest, total));
      assert [items[0]] + items[1..] == items;
    }
  }

  lemma PrependTwo(item: Item, items: seq<Item>, r: Result<seq<Item>, Error>)
    ensures Prepend([item], Prepend(items, r)) == Prepend([item] + items, r)
  {
    if r.Ok? {
      assert [item] + (items + r.value) == [item] + items + r.value;
    }
  }

  /** What the loop finds are items and a place where they stop. */
  lemma {:induction false} ParseSplits(json: Json, s: Bytes, total: nat) returns (items: seq<Item>, rest: Bytes)
    requires |s| <= total < WORD
    ensures Splits(json, s, items, rest) && |rest| <= |s|
    ensures match ParseItems(json, s, total)
            case Ok(found) => items == found && Ends(rest)
            case Err(error) => Breaks(json, rest, total - |rest|, error)
    decreases |s|
  {
    hide Payload, ItemLine, Breaks, Ends, NextItem;
    StopsExactly(json, s, total);
    match NextItem(json, s, total) {
      case Got(item, next) =>
        ReadsItem(json, s, total, item, next);
        var more: seq<Item>;
        more, rest := ParseSplits(json, next, total);
        items := [item] + more;
        assert items[1..] == more;
        var line, body :| ItemLine(json, s, line, item.headers, body) && Payload(item, body, next);
        assert ItemLine(json, s, line, items[0].headers, body) && Payload(items[0], body, next) && Splits(json, next, items[1..], rest);
      case _ =>
        items, rest := [], s;
    }
  }

  /** The parser's answer is what the text says, and nothing else is. */
  lemma ParseSaysExactly(json: Json, data: Bytes, r: Result<Envelope, Error>)
    requires |data| < WORD
    ensures Says(json, data, r) <==> r == ParseAll(json, data)
  {
    ParseSays(json, data);
    if Says(json, data, r) {
      SaysOnly(json, data, r);
    }
  }

  lemma ParseSays(json: Json, data: Bytes)
    requires |data| < WORD
    ensures Says(json, data, ParseAll(json, data))
  {
    hide ParseItems, Splits, Breaks, Ends;
    FirstLine(data);
    var end := LineEnd(data);
    hide LineEnd;
    if end < |data| {
      var line, body := data[..end], data[end + 1..];
      assert Lines(data, line, body);
      var items, rest := ParseSplits(json, body, |body|);
      if json.decode(line).Some? && ParseItems(json, body, |body|).Err? {
        BreaksAre(json, rest, |body| - |rest|, ParseItems(json, body, |body|).error);
      }
    }
  }

  lemma BreaksAre(json: Json, rest: Bytes, before: nat, error: Error)
    requires Breaks(json, rest, before, error)
    ensures error != Empty && error != InvalidHeader
  {
  }

  /** Where items stop, they stop for one reason. */
  lemma StopParses(json: Json, rest: Bytes, total: nat)
    requires |rest| <= total < WORD
    ensures Ends(rest) ==> ParseItems(json, rest, total) == Ok([])
    ensures forall error :: Breaks(json, rest, total - |rest|, error) ==> ParseItems(json, rest, total) == Err(error)
  {
    StopsExactly(json, rest, total);
    hide NextItem, Ends, Breaks;
    forall error | Breaks(json, rest, total - |rest|, error) ensures ParseItems(json, rest, total) == Err(error) {
      assert NextItem(json, rest, total) == Fail(error);
    }
  }

  lemma SaysOnly(json: Json, data: Bytes, r: Result<Envelope, Error>)
    requires |data| < WORD && Says(json, data, r)
    ensures r == ParseAll(json, data)
  {
    FirstLine(data);
    LinesAreUnique(json, data);
    hide ParseItems, Splits, Breaks, Ends, LineEnd, Lines;
    if data != [] && LineEnd(data) < |data| && json.decode(data[..LineEnd(data)]).Some? {
      var body := data[LineEnd(data) + 1..];
      match r {
        case Ok(e) =>
          var rest :| Splits(json, body, e.items, rest) && Ends(rest);
          SplitsParse(json, body, |body|, e.items, rest);
          StopParses(json, rest, |body|);
          assert e.items + [] == e.items;
        case Err(error) =>
          assert error != Empty && error != InvalidHeader;
          var items, rest :| Splits(json, body, items, rest) && |rest| <= |body| && Breaks(json, rest, |body| - |rest|, error);
          SplitsParse(json, body, |body|, items, rest);
          StopParses(json, rest, |body|);
      }
    }
  }

  /** The cursor loop. */
  method Parse(json: Json, data: Bytes) returns (r: Result<Envelope, Error>)
    ensures r == ParseAll(json, data)
    ensures |data| < WORD ==> Says(json, data, r)
  {
    hide Says, LineEnd, ParseItems;
    if |data| < WORD { ParseSays(json, data); }
    if data == [] { return Err(Empty); }
    var first := LineEnd(data);
    if first == |data| { return Err(InvalidHeader); }
    var decoded := json.decode(data[..first]);
    if decoded.None? { return Err(InvalidHeader); }
    var items := ParseLoop(json, data[first + 1..]);
    if items.Err? { return Err(items.error); }
    return Ok(Envelope(decoded.value, items.value));
  }

  lemma Cut(s: Bytes, from: nat, len: nat)
    requires from + len <= |s|
    ensures s[from..][..len] == s[from..from + len] && s[from..][len..] == s[from + len..]
  {
  }

  /** The body of the loop. */
  method ReadItem(json: Json, remaining: Bytes, cursor: nat) returns (turn: Turn, next: nat)
    requires cursor <= |remaining|
    ensures turn == NextItem(json, remaining[cursor..], |remaining|)
    ensures turn.Got? ==> cursor < next <= |remaining| && remaining[next..] == turn.rest
  {
    hide TakePayload;
    next := cursor;
    if Blank(remaining[cursor..]) { return Done, next; }
    var end := LineEnd(remaining[cursor..]);
    if end == |remaining| - cursor { return Fail(IncompletePayload), next; }
    if end == 0 { return Done, next; }
    var headers := json.decodeItem(remaining[cursor..][..end]);
    if headers.None? { return Fail(InvalidItemHeader), next; }
    next := cursor + end + 1;
    Cut(remaining, cursor, end + 1);
    turn, next := ReadPayload(headers.value, remaining, next);
  }

  method ReadPayload(headers: ItemHeaders, remaining: Bytes, start: nat) returns (turn: Turn, next: nat)
    requires start <= |remaining|
    ensures turn == TakePayload(headers, remaining[start..], |remaining|)
    ensures turn.Got? ==> start <= next <= |remaining| && remaining[next..] == turn.rest
  {
    next := start;
    var len := if headers.length.Some? then headers.length.value else LineEnd(remaining[start..]);
    var stop := start + len;
    if stop >= WORD { return Fail(Overflow), next; }
    if stop > |remaining| { return Fail(IncompletePayload), next; }
    Cut(remaining, start, len);
    var payload := remaining[start..stop];
    next := stop;
    if next < |remaining| && remaining[next] == NL {
      next := next + 1;
    }
    turn := Got(Item(headers, payload), remaining[next..]);
  }

  method ParseLoop(json: Json, remaining: Bytes) returns (r: Result<seq<Item>, Error>)
    ensures r == ParseItems(json, remaining, |remaining|)
  {
    var items: seq<Item> := [];
    var cursor := 0;
    assert remaining[0..] == remaining;
    PrependNone(ParseItems(json, remaining, |remaining|));
    while cursor < |remaining|
      invariant cursor <= |remaining|
      invariant ParseItems(json, remaining, |remaining|) == Prepend(items, ParseItems(json, remaining[cursor..], |remaining|))
    {
      var turn, next := ReadItem(json, remaining, cursor);
      match turn {
        case Done => break;
        case Fail(e) => return Err(e);
        case Got(item, rest) =>
          ParseGot(json, remaining[cursor..], |remaining|, item, rest);
          PrependOne(items, item, ParseItems(json, remaining[next..], |remaining|));
          items := items + [item];
      }
      cursor := next;
    }
    assert items + [] == items;
    return Ok(items);
  }

  lemma PrependNone(r: Result<seq<Item>, Error>)
    ensures Prepend([], r) == r
  {
    if r.Ok? {
      assert [] + r.value == r.value;
    }
  }

  lemma PrependOne(items: seq<Item>, item: Item, r: Result<seq<Item>, Error>)
    ensures Prepend(items, Prepend([item], r)) == Prepend(items + [item], r)
  {
    if r.Ok? {
      assert items + ([item] + r.value) == items + [item] + r.value;
    }
  }

  /** The fast path of ingest: the header line alone. */
  function ExtractEventId(json: Json, data: Bytes): Option<string> {
    var end := LineEnd(data);
    if end == |data| then None
    else match json.decode(data[..end]) case Some(h) => h.eventId case None => None
  }

  lemma FastPathAgrees(json: Json, data: Bytes)
    ensures ParseAll(json, data).Ok? ==> ExtractEventId(json, data) == ParseAll(json, data).value.headers.eventId
  {
  }

  // ------------------------------------------------------------------ writing --

  function WriteItem(json: Json, item: Item): Bytes {
    json.encodeItem(item.headers) + [NL] + item.payload + [NL]
  }

  function WriteItems(json: Json, items: seq<Item>): Bytes {
    if items == [] then [] else WriteItem(json, items[0]) + WriteItems(json, items[1..])
  }

  function Write(json: Json, e: Envelope): Bytes {
    json.encode(e.headers) + [NL] + WriteItems(json, e.items)
  }

  /** The header gives the payload's length, or the payload is a single line. */
  predicate SelfDelimiting(item: Item) {
    match item.headers.length
    case Some(n) => n == |item.payload|
    case None => NL !in item.payload
  }

  lemma SplitLine(line: Bytes, rest: Bytes)
    requires NL !in line
    ensures var s := line + ([NL] + rest); LineEnd(s) == |line| && s[..|line|] == line && s[|line| + 1..] == rest
  {
    LineEndIs(line, [NL] + rest);
  }

  lemma LinesAreNotBlank(line: Bytes, rest: Bytes)
    requires IsLine(line)
    ensures !Blank(line + rest)
  {
    var b :| b in line && b != NL && b != CR;
    assert b in line + rest;
  }

  /** A header line is read back, and the payload is taken from what follows. */
  lemma LineIsRead(json: Json, line: Bytes, headers: ItemHeaders, body: Bytes, total: nat)
    requires IsLine(line) && json.decodeItem(line) == Some(headers)
    ensures NextItem(json, line + ([NL] + body), total) == TakePayload(headers, body, total)
  {
    SplitLine(line, body);
    LinesAreNotBlank(line, [NL] + body);
    hide TakePayload, LineEnd, Blank;
  }

  lemma HeaderReadsBack(json: Json, item: Item, rest: Bytes, total: nat)
    requires ReadsBack(json, item.headers)
    ensures NextItem(json, WriteItem(json, item) + rest, total) == TakePayload(item.headers, item.payload + ([NL] + rest), total)
  {
    hide NextItem, TakePayload, IsLine;
    var line, body := json.encodeItem(item.headers), item.payload + ([NL] + rest);
    assert WriteItem(json, item) + rest == line + ([NL] + body);
    LineIsRead(json, line, item.headers, body, total);
  }

  /** One written item is read back, and reading goes on right after it. */
  lemma ItemReadsBack(json: Json, item: Item, rest: Bytes, total: nat)
    requires ReadsBack(json, item.headers) && SelfDelimiting(item) && total < WORD
    ensures NextItem(json, WriteItem(json, item) + rest, total) == Got(item, rest)
  {
    hide NextItem, WriteItem;
    HeaderReadsBack(json, item, rest, total);
    var tail := [NL] + rest;
    var body := item.payload + tail;
    if item.headers.length.None? {
      SplitLine(item.payload, rest);
    }
    assert body[..|item.payload|] == item.payload && body[|item.payload|..] == tail;
    assert AfterNewline(tail) == rest;
  }

  lemma {:induction false} ItemsReadBack(json: Json, items: seq<Item>, total: nat)
    requires AllReadBack(json, items) && forall i <- items :: SelfDelimiting(i)
    requires total < WORD
    ensures ParseItems(json, WriteItems(json, items), total) == Ok(items)
    decreases |items|
  {
    hide NextItem, WriteItem, SelfDelimiting, ReadsBack;
    if items == [] {
      CutInHeader(json, [], total);
    } else {
      var s, item, rest := WriteItems(json, items), items[0], WriteItems(json, items[1..]);
      assert item in items;
      ItemReadsBack(json, item, rest, total);
      ItemsReadBack(json, items[1..], total);
      ParseGot(json, s, total, item, rest);
      assert [item] + items[1..] == items;
    }
  }

  lemma {:induction false} BeforeNewline(s: Bytes)
    ensures NL !in s[..LineEnd(s)]
  {
    if s != [] && s[0] != NL {
      BeforeNewline(s[1..]);
      assert s[..LineEnd(s)] == [s[0]] + s[1..][..LineEnd(s) - 1];
    }
  }

  lemma ItemMustDelimit(json: Json, item: Item, rest: Bytes, total: nat)
    requires ReadsBack(json, item.headers) && NextItem(json, WriteItem(json, item) + rest, total).Got?
    requires NextItem(json, WriteItem(json, item) + rest, total).item == item
    ensures SelfDelimiting(item)
  {
    hide NextItem, WriteItem;
    HeaderReadsBack(json, item, rest, total);
    BeforeNewline(item.payload + ([NL] + rest));
  }

  /** Nothing else reads back: a payload that is neither one line nor announced is cut
      elsewhere. */
  lemma {:induction false} ItemsReadBackOnly(json: Json, items: seq<Item>, total: nat)
    requires AllReadBack(json, items) && total < WORD && ParseItems(json, WriteItems(json, items), total) == Ok(items)
    ensures forall i <- items :: SelfDelimiting(i)
    decreases |items|
  {
    hide NextItem, WriteItem, SelfDelimiting, ReadsBack;
    if items != [] {
      var s, rest := WriteItems(json, items), WriteItems(json, items[1..]);
      var turn := NextItem(json, s, total);
      assert turn.Got? && turn.item == items[0];
      ItemMustDelimit(json, items[0], rest, total);
      ItemReadsBack(json, items[0], rest, total);
      ParseGot(json, s, total, items[0], rest);
      assert ParseItems(json, rest, total) == Ok(items[1..]);
      ItemsReadBackOnly(json, items[1..], total);
    }
  }

  /** Reading what was written gives it back, whatever bytes the payloads hold, exactly
      when every payload is announced by its length or is a single line. */
  lemma WrittenReadsBack(json: Json, e: Envelope)
    requires Faithful(json, e) && |Write(json, e)| < WORD
    ensures ParseAll(json, Write(json, e)) == Ok(e) <==> forall i <- e.items :: SelfDelimiting(i)
  {
    hide NextItem, SelfDelimiting;
    var line := json.encode(e.headers);
    var items := WriteItems(json, e.items);
    assert Write(json, e) == line + ([NL] + items);
    assert IsLine(line);
    LineEndIs(line, [NL] + items);
    assert Write(json, e)[..|line|] == line && Write(json, e)[|line| + 1..] == items;
    if forall i <- e.items :: SelfDelimiting(i) {
      ItemsReadBack(json, e.items, |items|);
    }
    if ParseAll(json, Write(json, e)) == Ok(e) {
      ItemsReadBackOnly(json, e.items, |items|);
    }
  }

  // ---------------------------------------------------------------- truncation --

  predicate Announced(item: Item) { item.headers.length == Some(|item.payload|) }

  /** A header line cut short is either blank, and the end, or an incomplete item. */
  lemma CutInHeader(json: Json, t: Bytes, total: nat)
    requires NL !in t
    ensures NextItem(json, t, total) == if Blank(t) then Done else Fail(IncompletePayload)
  {
    assert t + [] == t;
    LineEndIs(t, []);
  }

  lemma NewlineCut(v: Bytes, rest: Bytes)
    requires v <= [NL] + rest
    ensures AfterNewline(v) <= rest
  {
    if v != [] {
      assert v[0] == NL && v[1..] <= ([NL] + rest)[1..];
    }
  }

  lemma CutInPayload(item: Item, u: Bytes, rest: Bytes, total: nat)
    requires Announced(item) && u <= item.payload + ([NL] + rest) && total - |u| + |item.payload| < WORD
    ensures TakePayload(item.headers, u, total) ==
              if |u| < |item.payload| then Fail(IncompletePayload) else Got(item, AfterNewline(u[|item.payload|..]))
    ensures |u| >= |item.payload| ==> AfterNewline(u[|item.payload|..]) <= rest
  {
    var full, n := item.payload + ([NL] + rest), |item.payload|;
    if |u| >= n {
      assert full[..n] == item.payload && full[n..] == [NL] + rest;
      assert u[..n] == full[..n] && u[n..] <= full[n..];
      NewlineCut(u[n..], rest);
      hide AfterNewline;
    }
  }

  /** A header read back, whatever is left of the text behind its line. */
  lemma CutAfterHeader(json: Json, item: Item, u: Bytes, total: nat)
    requires ReadsBack(json, item.headers)
    ensures NextItem(json, json.encodeItem(item.headers) + [NL] + u, total) == TakePayload(item.headers, u, total)
  {
    hide NextItem, TakePayload, IsLine;
    var line := json.encodeItem(item.headers);
    assert line + [NL] + u == line + ([NL] + u);
    LineIsRead(json, line, item.headers, u, total);
  }

  lemma CutItem(json: Json, item: Item, rest: Bytes, t: Bytes, total: nat)
    requires ReadsBack(json, item.headers) && Announced(item) && t <= WriteItem(json, item) + rest
    requires total - |t| + |WriteItem(json, item)| < WORD
    ensures var turn := NextItem(json, t, total);
            || turn == Done
            || turn == Fail(IncompletePayload)
            || (turn.Got? && turn.item == item && turn.rest <= rest && |t| - |turn.rest| <= |WriteItem(json, item)|)
  {
    hide NextItem, TakePayload, LineEnd;
    var line := json.encodeItem(item.headers);
    assert IsLine(line);
    var body := item.payload + ([NL] + rest);
    assert WriteItem(json, item) + rest == line + [NL] + body;
    if |t| <= |line| {
      assert t == line[..|t|];
      CutInHeader(json, t, total);
    } else {
      var u := t[|line| + 1..];
      assert t[..|line| + 1] == line + [NL] && u <= body;
      assert t == line + [NL] + u;
      CutAfterHeader(json, item, u, total);
      CutInPayload(item, u, rest, total);
    }
  }

  lemma {:induction false} CutItems(json: Json, items: seq<Item>, t: Bytes, total: nat)
    requires AllReadBack(json, items) && forall i <- items :: Announced(i)
    requires t <= WriteItems(json, items) && total - |t| + |WriteItems(json, items)| < WORD
    ensures var r := ParseItems(json, t, total); r == Err(IncompletePayload) || (r.Ok? && r.value <= items)
    decreases |items|
  {
    hide NextItem, WriteItem, Announced, ReadsBack;
    if items == [] {
      assert t == [];
      CutInHeader(json, t, total);
    } else {
      var rest := WriteItems(json, items[1..]);
      assert items[0] in items;
      CutItem(json, items[0], rest, t, total);
      var turn := NextItem(json, t, total);
      if turn.Got? {
        CutItems(json, items[1..], turn.rest, total);
        ParseGot(json, t, total, items[0], turn.rest);
        var r := ParseItems(json, turn.rest, total);
        assert r.Ok? ==> [items[0]] + r.value <= [items[0]] + items[1..] == items;
      }
    }
  }

  /** A truncated envelope never misleads: what is left of it past the header line, cut
      anywhere, parses to its first items or is reported incomplete. */
  lemma TruncationIsNoticed(json: Json, e: Envelope, n: nat)
    requires Faithful(json, e) && (forall i <- e.items :: Announced(i)) && |Write(json, e)| < WORD
    requires |json.encode(e.headers)| < n <= |Write(json, e)|
    ensures var r := ParseAll(json, Write(json, e)[..n]);
            r == Err(IncompletePayload) || (r.Ok? && r.value.headers == e.headers && r.value.items <= e.items)
  {
    hide NextItem, Announced, ParseItems;
    var line, items := json.encode(e.headers), WriteItems(json, e.items);
    var t := items[..n - |line| - 1];
    assert IsLine(line);
    assert Write(json, e)[..n] == line + ([NL] + t);
    SplitLine(line, t);
    CutItems(json, e.items, t, |t|);
  }

  // ------------------------------------------------------------------ minidump --

  datatype Attachment = Attachment(filename: string, contentType: Option<string>, data: Bytes)

  const OCTET_STREAM := "application/octet-stream"

  function EventHeaders(payload: Bytes): ItemHeaders {
    ItemHeaders("event", Some(|payload|), None, None, None)
  }

  function EventItem(payload: Bytes): Item {
    Item(EventHeaders(payload), payload)
  }

  function DumpItem(dump: Bytes, filename: Option<string>): Item {
    Item(ItemHeaders("attachment", Some(|dump|), Some(OCTET_STREAM),
                     Some(if filename.Some? then filename.value else "Minidump"), Some("event.minidump")), dump)
  }

  function AttachmentItem(a: Attachment): Item {
    Item(ItemHeaders("attachment", Some(|a.data|),
                     Some(if a.contentType.Some? then a.contentType.value else OCTET_STREAM),
                     Some(a.filename), Some("event.attachment")), a.data)
  }

  /** The dump first, then the user's attachments in order. */
  function Parts(dump: Bytes, filename: Option<string>, attachments: seq<Attachment>): seq<Item> {
    [DumpItem(dump, filename)] + seq(|attachments|, i requires 0 <= i < |attachments| => AttachmentItem(attachments[i]))
  }

  function CrashEnvelope(eventId: string, event: Bytes, parts: seq<Item>): Envelope {
    Envelope(Headers(Some(eventId), None, None), [EventItem(event)] + parts)
  }

  predicate Describes(item: Item, itemType: string, contentType: string, filename: string, attachmentType: string, payload: Bytes) {
    && item.payload == payload
    && item.headers == ItemHeaders(itemType, Some(|payload|), Some(contentType), Some(filename), Some(attachmentType))
  }

  /** The report's items: the event, then as many as are kept of the dump and the
      attachments in order, each with its own bytes, names and types. */
  lemma ReportHoldsItsParts(eventId: string, event: Bytes, dump: Bytes, filename: Option<string>, attachments: seq<Attachment>, kept: nat)
    requires kept <= |Parts(dump, filename, attachments)|
    ensures |Parts(dump, filename, attachments)| == 1 + |attachments|
    ensures var e := CrashEnvelope(eventId, event, Parts(dump, filename, attachments)[..kept]);
            && e.headers == Headers(Some(eventId), None, None) && |e.items| == 1 + kept
            && e.items[0].payload == event && e.items[0].headers == ItemHeaders("event", Some(|event|), None, None, None)
            && (kept > 0 ==>
                  Describes(e.items[1], "attachment", "application/octet-stream",
                            if filename.Some? then filename.value else "Minidump", "event.minidump", dump))
            && forall i | 0 <= i < kept - 1 ::
                 Describes(e.items[2 + i], "attachment",
                           if attachments[i].contentType.Some? then attachments[i].contentType.value else "application/octet-stream",
                           attachments[i].filename, "event.attachment", attachments[i].data)
  {
    var parts := Parts(dump, filename, attachments);
    var e := CrashEnvelope(eventId, event, parts[..kept]);
    assert forall i | 0 <= i < kept :: e.items[1 + i] == parts[i];
  }

  lemma Associative(a: Bytes, b: Bytes, c: Bytes)
    ensures a + (b + c) == (a + b) + c
  {
  }

  lemma {:induction false} WriteItemsJoin(json: Json, a: seq<Item>, b: seq<Item>)
    ensures WriteItems(json, a + b) == WriteItems(json, a) + WriteItems(json, b)
  {
    hide WriteItem;
    if a == [] {
      assert a + b == b;
    } else {
      WriteItemsJoin(json, a[1..], b);
      assert (a + b)[1..] == a[1..] + b;
      Associative(WriteItem(json, a[0]), WriteItems(json, a[1..]), WriteItems(json, b));
    }
  }

  lemma WriteItemsLast(json: Json, items: seq<Item>)
    requires items != []
    ensures WriteItems(json, items) == WriteItems(json, items[..|items| - 1]) + WriteItem(json, items[|items| - 1])
  {
    var last := items[|items| - 1];
    assert items == items[..|items| - 1] + [last];
    WriteItemsJoin(json, items[..|items| - 1], [last]);
    assert WriteItems(json, [last]) == WriteItem(json, last);
  }

  method CollectParts(dump: Bytes, filename: Option<string>, attachments: seq<Attachment>) returns (parts: seq<Item>)
    ensures parts == Parts(dump, filename, attachments)
  {
    hide DumpItem, AttachmentItem;
    parts := [DumpItem(dump, filename)];
    for i := 0 to |attachments|
      invariant |parts| == i + 1 && parts[0] == DumpItem(dump, filename)
      invariant forall j | 0 <= j < i :: parts[j + 1] == AttachmentItem(attachments[j])
    {
      parts := parts + [AttachmentItem(attachments[i])];
    }
  }

  /** The budget check's sum. */
  method CountParts(json: Json, baseLen: nat, parts: seq<Item>) returns (total: nat)
    ensures total == baseLen + |WriteItems(json, parts)|
  {
    total := baseLen;
    for i := 0 to |parts|
      invariant total == baseLen + |WriteItems(json, parts[..i])|
    {
      assert parts[..i + 1][..i] == parts[..i];
      WriteItemsLast(json, parts[..i + 1]);
      total := total + |json.encodeItem(parts[i].headers) + [NL]| + |parts[i].payload| + 1;
    }
    assert parts[..|parts|] == parts;
  }

  method AppendParts(json: Json, start: Bytes, parts: seq<Item>) returns (envelope: Bytes)
    ensures envelope == start + WriteItems(json, parts)
  {
    envelope := start;
    for i := 0 to |parts|
      invariant envelope == start + WriteItems(json, parts[..i])
    {
      assert parts[..i + 1][..i] == parts[..i];
      WriteItemsLast(json, parts[..i + 1]);
      envelope := envelope + (json.encodeItem(parts[i].headers) + [NL]);
      envelope := envelope + parts[i].payload;
      envelope := envelope + [NL];
    }
    assert parts[..|parts|] == parts;
  }

  /** As many parts are kept as fit the budget with everything before them, or none. */
  ghost predicate LongestFit(json: Json, eventId: string, event: Bytes, all: seq<Item>, maxBytes: nat, kept: nat) {
    && kept <= |all|
    && (kept == 0 || |Write(json, CrashEnvelope(eventId, event, all[..kept]))| <= maxBytes)
    && forall n | kept < n <= |all| :: |Write(json, CrashEnvelope(eventId, event, all[..n]))| > maxBytes
  }

  /** Drops parts from the end until the whole fits, the event never; writes the rest.
      Parsing what is written gives the event and those parts, byte for byte. */
  method BuildEnvelope(json: Json, eventId: string, event: Bytes, dump: Bytes, filename: Option<string>,
                       attachments: seq<Attachment>, maxBytes: nat)
      returns (envelope: Bytes)
    ensures exists kept: nat ::
              && LongestFit(json, eventId, event, Parts(dump, filename, attachments), maxBytes, kept)
              && var e := CrashEnvelope(eventId, event, Parts(dump, filename, attachments)[..kept]);
                 envelope == Write(json, e) && (Faithful(json, e) && |envelope| < WORD ==> ParseAll(json, envelope) == Ok(e))
  {
    hide Write, CrashEnvelope, Parts, ParseAll, Faithful, EventItem;
    var parts := CollectParts(dump, filename, attachments);
    var header := json.encode(Headers(Some(eventId), None, None)) + [NL];
    var eventHeader := json.encodeItem(EventHeaders(event)) + [NL];
    var baseLen := |header| + |eventHeader| + |event| + 1;
    ghost var all := parts;
    while true
      invariant |parts| <= |all| && parts == all[..|parts|]
      invariant forall n | |parts| < n <= |all| :: |Write(json, CrashEnvelope(eventId, event, all[..n]))| > maxBytes
      decreases |parts|
    {
      CountedLength(json, eventId, event, parts);
      var total := CountParts(json, baseLen, parts);
      if total <= maxBytes || parts == [] { break; }
      parts := parts[..|parts| - 1];
    }
    envelope := AppendParts(json, header + eventHeader + event + [NL], parts);
    CountedLength(json, eventId, event, parts);
    assert LongestFit(json, eventId, event, all, maxBytes, |parts|);
    if Faithful(json, CrashEnvelope(eventId, event, parts)) && |envelope| < WORD {
      CrashReportReadsBack(json, eventId, event, dump, filename, attachments, |parts|);
    }
  }

  lemma FitIsUnique(json: Json, eventId: string, event: Bytes, all: seq<Item>, maxBytes: nat, a: nat, b: nat)
    requires LongestFit(json, eventId, event, all, maxBytes, a) && LongestFit(json, eventId, event, all, maxBytes, b)
    ensures a == b
  {
    hide Write, CrashEnvelope;
  }

  /** The length counted against the budget is the length written. */
  lemma CountedLength(json: Json, eventId: string, event: Bytes, parts: seq<Item>)
    ensures Write(json, CrashEnvelope(eventId, event, parts)) ==
              json.encode(Headers(Some(eventId), None, None)) + [NL] + (json.encodeItem(EventHeaders(event)) + [NL])
              + event + [NL] + WriteItems(json, parts)
  {
  }

  /** So a crash report reads back as its event and the longest prefix of its parts
      that fits, every payload byte for byte. */
  lemma CrashReportReadsBack(json: Json, eventId: string, event: Bytes, dump: Bytes, filename: Option<string>,
                             attachments: seq<Attachment>, kept: nat)
    requires kept <= |Parts(dump, filename, attachments)|
    requires var e := CrashEnvelope(eventId, event, Parts(dump, filename, attachments)[..kept]);
             Faithful(json, e) && |Write(json, e)| < WORD
    ensures var e := CrashEnvelope(eventId, event, Parts(dump, filename, attachments)[..kept]); ParseAll(json, Write(json, e)) == Ok(e)
  {
    hide Faithful, Write, ParseAll;
    var parts := Parts(dump, filename, attachments);
    var e := CrashEnvelope(eventId, event, parts[..kept]);
    forall i <- e.items ensures SelfDelimiting(i) {
      if i != EventItem(event) {
        assert i in parts;
      }
    }
    WrittenReadsBack(json, e);
  }

  // ------------------------------------------------------------- legacy store --

  method WrapStoreBody(json: Json, body: Bytes, eventId: string) returns (envelope: Bytes)
    ensures envelope == Write(json, CrashEnvelope(eventId, body, []))
    ensures var e := CrashEnvelope(eventId, body, []);
            Faithful(json, e) && |envelope| < WORD ==> ParseAll(json, envelope) == Ok(e)
  {
    envelope := json.encode(Headers(Some(eventId), None, None)) + [NL];
    envelope := envelope + (json.encodeItem(EventHeaders(body)) + [NL]);
    envelope := envelope + body;
    envelope := envelope + [NL];
    CountedLength(json, eventId, body, []);
    if Faithful(json, CrashEnvelope(eventId, body, [])) && |envelope| < WORD {
      WrittenReadsBack(json, CrashEnvelope(eventId, body, []));
    }
  }
}
