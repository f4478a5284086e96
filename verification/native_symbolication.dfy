/** Symbolication of one native stack: which address of a frame is looked up, and how
    a resolved frame becomes one frame per inlining level. */
module NativeSymbolication {
  import opened Wrappers

  const U64_MAX: nat := 0xFFFF_FFFF_FFFF_FFFF

  datatype Frame = Frame(
    name: Option<string>,
    filename: Option<string>,
    absPath: Option<string>,
    lineno: Option<nat>,
    inApp: Option<bool>,
    instructionAddr: Option<string>,
    addrMode: Option<string>,
    adjust: Option<bool>,
    trust: Option<string>,
    package: Option<string>)

  datatype Image = Image(
    index: nat,
    debugId: string,
    arch: Option<string>,
    imageAddr: Option<nat>,
    imageSize: nat,
    codeFile: Option<string>,
    imageType: Option<string>)

  /** One level of an inlining hierarchy; a frame's levels come innermost first. */
  datatype Location = Location(name: string, file: Option<string>, line: nat)

  datatype Adjustment = Yes | No | Auto

  /** The text parsers, and the lookup in the image's symbol file of a located frame. */
  datatype Tools = Tools(
    parseHex: string -> Option<nat>,
    parseIndex: string -> Option<nat>,
    normalizeDebugId: string -> string,
    lookup: (Frame, Image, nat, Adjustment, bool) -> Option<seq<Location>>)

  predicate HasAddr(f: Frame) {
    f.instructionAddr.Some? && f.instructionAddr.value != ""
  }

  // --------------------------------------------------------------- adjustments --

  datatype Call = Call(adjustment: Adjustment, crashing: bool)

  /** The innermost frame with an address. */
  function Innermost(frames: seq<Frame>): (r: Option<nat>)
    ensures r.Some? ==> r.value < |frames| && HasAddr(frames[r.value]) && forall j | r.value < j < |frames| :: !HasAddr(frames[j])
    ensures r.None? ==> forall f <- frames :: !HasAddr(f)
  {
    if frames == [] then None
    else if HasAddr(frames[|frames| - 1]) then Some(|frames| - 1)
    else Innermost(frames[..|frames| - 1])
  }

  /** What frame `i` says, or what the stack's mode says for it. */
  function Explicit(frames: seq<Frame>, mode: Option<string>, i: nat): Option<bool>
    requires i < |frames|
  {
    if mode == Some("none") then Some(false)
    else if mode == Some("all") && Innermost(frames) == Some(i) then Some(true)
    else if mode == Some("all_but_first") && Innermost(frames) == Some(i) then Some(false)
    else frames[i].adjust
  }

  predicate AnyExplicit(frames: seq<Frame>, mode: Option<string>) {
    exists i | 0 <= i < |frames| :: HasAddr(frames[i]) && Explicit(frames, mode, i).Some?
  }

  function CallOf(frames: seq<Frame>, mode: Option<string>, i: nat): Option<Call>
    requires i < |frames|
  {
    if !HasAddr(frames[i]) then None
    else
      var adjustment := match Explicit(frames, mode, i)
                        case Some(true) => Yes
                        case Some(false) => No
                        case None => if AnyExplicit(frames, mode) then Yes else Auto;
      Some(Call(adjustment, Innermost(frames) == Some(i) || frames[i].trust == Some("context")))
  }

  method CallerAdjustments(frames: seq<Frame>, mode: Option<string>) returns (calls: seq<Option<Call>>)
    ensures |calls| == |frames|
    ensures forall i | 0 <= i < |frames| :: calls[i] == CallOf(frames, mode, i) && (calls[i].Some? <==> HasAddr(frames[i]))
  {
    var innermost := Innermost(frames);
    var explicit := seq(|frames|, i requires 0 <= i < |frames| => frames[i].adjust);
    if mode == Some("none") {
      explicit := seq(|frames|, _ => Some(false));
    } else if mode == Some("all") && innermost.Some? {
      explicit := explicit[innermost.value := Some(true)];
    } else if mode == Some("all_but_first") && innermost.Some? {
      explicit := explicit[innermost.value := Some(false)];
    }
    assert forall i | 0 <= i < |frames| :: explicit[i] == Explicit(frames, mode, i);
    var any := exists i | 0 <= i < |frames| :: HasAddr(frames[i]) && explicit[i].Some?;
    var default := if any then Yes else Auto;
    calls := [];
    for i := 0 to |frames|
      invariant |calls| == i && forall j | 0 <= j < i :: calls[j] == CallOf(frames, mode, j)
    {
      if HasAddr(frames[i]) {
        var adjustment := match explicit[i] case Some(true) => Yes case Some(false) => No case None => default;
        var crashing := innermost == Some(i) || frames[i].trust == Some("context");
        calls := calls + [Some(Call(adjustment, crashing))];
      } else {
        calls := calls + [None];
      }
    }
  }

  /** The heuristic is for whole stacks: either every addressed frame is left to it or
      none is, and it is used exactly when no mode and no addressed frame says anything. */
  lemma HeuristicIsAllOrNothing(frames: seq<Frame>, mode: Option<string>, i: nat)
    requires i < |frames| && HasAddr(frames[i])
    ensures CallOf(frames, mode, i).Some?
    ensures CallOf(frames, mode, i).value.adjustment == Auto <==>
              mode !in [Some("none"), Some("all"), Some("all_but_first")] && forall f <- frames | HasAddr(f) :: f.adjust.None?
  {
  }

  // ------------------------------------------------------------------ location --

  function First(images: seq<Image>, p: Image -> bool): (r: Option<Image>)
    ensures r.Some? ==> p(r.value) && exists i | 0 <= i < |images| :: images[i] == r.value && forall j | 0 <= j < i :: !p(images[j])
    ensures r.None? ==> forall image <- images :: !p(image)
  {
    if images == [] then None
    else if p(images[0]) then Some(images[0])
    else
      var r := First(images[1..], p);
      assert r.Some? ==> forall i | 0 <= i < |images| - 1 :: images[1..][i] == images[i + 1];
      r
  }

  function SaturatingAdd(a: nat, b: nat): nat { if a + b > U64_MAX then U64_MAX else a + b }

  predicate Contains(image: Image, addr: nat) {
    image.imageAddr.Some? && image.imageAddr.value <= addr &&
    (image.imageSize == 0 || addr < SaturatingAdd(image.imageAddr.value, image.imageSize))
  }

  function Absolute(images: seq<Image>, addr: nat): Option<(Image, nat)> {
    match First(images, image => Contains(image, addr))
    case None => None
    case Some(image) => Some((image, addr - image.imageAddr.value))
  }

  const REL := "rel:"

  function Locate(tools: Tools, frame: Frame, addr: nat, images: seq<Image>): Option<(Image, nat)> {
    if frame.addrMode.Some? && REL <= frame.addrMode.value then
      var reference := frame.addrMode.value[|REL|..];
      var debugId := tools.normalizeDebugId(reference);
      match First(images, (image: Image) => image.debugId == debugId)
      case Some(image) => Some((image, addr))
      case None =>
        match tools.parseIndex(reference)
        case Some(index) =>
          (match First(images, (image: Image) => image.index == index)
           case Some(image) => Some((image, addr))
           case None => None)
        case None => Absolute(images, addr)
    else Absolute(images, addr)
  }

  /** A located frame's offset leads back to its address: from the load address of an
      image the address lies in, or as an offset already. */
  lemma LocatedAddress(tools: Tools, frame: Frame, addr: nat, images: seq<Image>)
    requires Locate(tools, frame, addr, images).Some?
    ensures var (image, relative) := Locate(tools, frame, addr, images).value;
            && image in images
            && (|| (Contains(image, addr) && image.imageAddr.value + relative == addr)
                || (frame.addrMode.Some? && REL <= frame.addrMode.value && relative == addr))
  {
  }

  // ----------------------------------------------------------------- expansion --

  predicate Has(text: string, part: string) {
    exists i | 0 <= i <= |text| :: part <= text[i..]
  }

  predicate HeuristicInApp(image: Image) {
    image.codeFile.Some? && image.imageType == Some("macho") ==>
      var file := image.codeFile.value;
      !("/System/" <= file) && !("/usr/lib/" <= file) && !Has(file, "/System/Library/") && !Has(file, ".framework/")
  }

  function ApplyLocation(frame: Frame, loc: Location, image: Image): Frame {
    frame.(name := Some(loc.name), absPath := loc.file, filename := loc.file,
           lineno := if loc.line > 0 then Some(loc.line) else None,
           inApp := if frame.inApp.None? then Some(HeuristicInApp(image)) else frame.inApp)
  }

  /** Callers first: the outermost level comes first. */
  function Expand(frame: Frame, image: Image, levels: seq<Location>): (block: seq<Frame>)
    ensures |block| == if levels == [] then 1 else |levels|
  {
    if levels == [] then [frame]
    else seq(|levels|, j requires 0 <= j < |levels| => ApplyLocation(frame, levels[|levels| - 1 - j], image))
  }

  method PushResolved(frame: Frame, image: Image, levels: seq<Location>, out: seq<Frame>) returns (out': seq<Frame>)
    ensures out' == out + Expand(frame, image, levels)
  {
    if levels == [] { return out + [frame]; }
    out' := out;
    var k := |levels|;
    while k > 1
      invariant 1 <= k <= |levels|
      invariant out' == out + Expand(frame, image, levels)[..|levels| - k]
    {
      k := k - 1;
      out' := out' + [ApplyLocation(frame, levels[k], image)];
    }
    out' := out' + [ApplyLocation(frame, levels[0], image)];
    assert Expand(frame, image, levels)[..|levels|] == Expand(frame, image, levels);
  }

  function Resolve(tools: Tools, images: seq<Image>, frame: Frame, call: Call): (r: Option<(Image, seq<Location>)>)
    ensures r.Some? ==> r.value.1 != []
  {
    if frame.instructionAddr.None? then None
    else
      match tools.parseHex(frame.instructionAddr.value)
      case None => None
      case Some(addr) =>
        match Locate(tools, frame, addr, images)
        case None => None
        case Some((image, relative)) =>
          match tools.lookup(frame, image, relative, call.adjustment, call.crashing)
          case None => None
          case Some(levels) => if levels == [] then None else Some((image, levels))
  }

  function Block(tools: Tools, images: seq<Image>, frame: Frame, call: Option<Call>): (block: seq<Frame>)
    ensures block != []
  {
    if call.None? then [frame]
    else
      match Resolve(tools, images, frame, call.value)
      case None => [frame]
      case Some((image, levels)) => Expand(frame, image, levels)
  }

  function Blocks(tools: Tools, images: seq<Image>, frames: seq<Frame>, mode: Option<string>, n: nat): seq<Frame>
    requires n <= |frames|
  {
    if n == 0 then []
    else Blocks(tools, images, frames, mode, n - 1) + Block(tools, images, frames[n - 1], CallOf(frames, mode, n - 1))
  }

  predicate IsResolved(tools: Tools, images: seq<Image>, frames: seq<Frame>, mode: Option<string>, i: nat)
    requires i < |frames|
  {
    var call := CallOf(frames, mode, i);
    call.Some? && Resolve(tools, images, frames[i], call.value).Some?
  }

  function CountAddressed(frames: seq<Frame>, n: nat): nat
    requires n <= |frames|
  {
    if n == 0 then 0 else CountAddressed(frames, n - 1) + if HasAddr(frames[n - 1]) then 1 else 0
  }

  function CountResolved(tools: Tools, images: seq<Image>, frames: seq<Frame>, mode: Option<string>, n: nat): nat
    requires n <= |frames|
  {
    if n == 0 then 0
    else CountResolved(tools, images, frames, mode, n - 1) + if IsResolved(tools, images, frames, mode, n - 1) then 1 else 0
  }

  class Stacktrace {
    var frames: seq<Frame>
    const mode: Option<string>

    constructor (frames: seq<Frame>, mode: Option<string>)
      ensures this.frames == frames && this.mode == mode
    {
      this.frames, this.mode := frames, mode;
    }

    /** Replaces every frame by its block; counts the frames with an address and those resolved. */
    method Symbolicate(tools: Tools, images: seq<Image>) returns (resolved: nat, total: nat)
      modifies this`frames
      ensures frames == Blocks(tools, images, old(frames), mode, |old(frames)|)
      ensures total == CountAddressed(old(frames), |old(frames)|)
      ensures resolved == CountResolved(tools, images, old(frames), mode, |old(frames)|)
    {
      hide CallOf, Resolve, Expand;
      var calls := CallerAdjustments(frames, mode);
      var taken := frames;
      var out: seq<Frame> := [];
      resolved, total := 0, 0;
      for i := 0 to |taken|
        invariant frames == old(frames)
        invariant out == Blocks(tools, images, taken, mode, i)
        invariant total == CountAddressed(taken, i)
        invariant resolved == CountResolved(tools, images, taken, mode, i)
      {
        if calls[i].None? {
          out := out + [taken[i]];
        } else {
          total := total + 1;
          var hit := Resolve(tools, images, taken[i], calls[i].value);
          if hit.Some? {
            resolved := resolved + 1;
            out := PushResolved(taken[i], hit.value.0, hit.value.1, out);
          } else {
            out := out + [taken[i]];
          }
        }
      }
      frames := out;
    }
  }

  // ---------------------------------------------------------------- what it does --

  /** Where frame `i`'s block starts. */
  function Start(tools: Tools, images: seq<Image>, frames: seq<Frame>, mode: Option<string>, i: nat): nat
    requires i <= |frames|
  {
    |Blocks(tools, images, frames, mode, i)|
  }

  lemma {:induction false} BlocksGrow(tools: Tools, images: seq<Image>, frames: seq<Frame>, mode: Option<string>, i: nat, n: nat)
    requires i <= n <= |frames|
    ensures Blocks(tools, images, frames, mode, i) <= Blocks(tools, images, frames, mode, n)
  {
    hide CallOf, Block;
    if i < n {
      BlocksGrow(tools, images, frames, mode, i, n - 1);
    }
  }

  /** The frame shows one inlining level of the original, at the same address. */
  predicate Shows(shown: Frame, original: Frame, level: Location) {
    && shown.name == Some(level.name)
    && shown.filename == level.file && shown.absPath == level.file
    && shown.lineno == (if level.line > 0 then Some(level.line) else None)
    && shown.inApp.Some? && (original.inApp.Some? ==> shown.inApp == original.inApp)
    && shown.instructionAddr == original.instructionAddr && shown.package == original.package
    && shown.addrMode == original.addrMode && shown.adjust == original.adjust && shown.trust == original.trust
  }

  lemma ExpandShows(frame: Frame, image: Image, levels: seq<Location>)
    requires levels != []
    ensures |Expand(frame, image, levels)| == |levels|
    ensures forall j | 0 <= j < |levels| :: Shows(Expand(frame, image, levels)[j], frame, levels[|levels| - 1 - j])
  {
    var block := Expand(frame, image, levels);
    forall j | 0 <= j < |levels| ensures Shows(block[j], frame, levels[|levels| - 1 - j]) {
      assert block[j] == ApplyLocation(frame, levels[|levels| - 1 - j], image);
    }
  }

  lemma BlockIsInPlace(tools: Tools, images: seq<Image>, frames: seq<Frame>, mode: Option<string>, i: nat)
    requires i < |frames|
    ensures var out := Blocks(tools, images, frames, mode, |frames|);
            var a, b := Start(tools, images, frames, mode, i), Start(tools, images, frames, mode, i + 1);
            a < b <= |out| && out[a..b] == Block(tools, images, frames[i], CallOf(frames, mode, i))
  {
    hide Block, CallOf;
    BlocksGrow(tools, images, frames, mode, i + 1, |frames|);
    var out := Blocks(tools, images, frames, mode, |frames|);
    var upto := Blocks(tools, images, frames, mode, i + 1);
    assert out[..|upto|] == upto;
    assert upto[Start(tools, images, frames, mode, i)..] == Block(tools, images, frames[i], CallOf(frames, mode, i));
  }

  /** Every frame keeps its place: its block stands where it stood among the others. A
      frame without an address or unresolved is its own block; a resolved one has one
      frame per inlining level, outermost first, and all of them keep its address. */
  lemma EachFrameIsReplacedInPlace(tools: Tools, images: seq<Image>, frames: seq<Frame>, mode: Option<string>, i: nat)
    requires i < |frames|
    ensures var out := Blocks(tools, images, frames, mode, |frames|);
            var a, b := Start(tools, images, frames, mode, i), Start(tools, images, frames, mode, i + 1);
            && a < b <= |out|
            && (!IsResolved(tools, images, frames, mode, i) ==> out[a..b] == [frames[i]])
            && (IsResolved(tools, images, frames, mode, i) ==>
                  var levels := Resolve(tools, images, frames[i], CallOf(frames, mode, i).value).value.1;
                  && b - a == |levels|
                  && forall j | 0 <= j < |levels| :: Shows(out[a..b][j], frames[i], levels[|levels| - 1 - j]))
  {
    hide CallOf, Resolve, Blocks, Expand;
    BlockIsInPlace(tools, images, frames, mode, i);
    if IsResolved(tools, images, frames, mode, i) {
      var hit := Resolve(tools, images, frames[i], CallOf(frames, mode, i).value).value;
      ExpandShows(frames[i], hit.0, hit.1);
    }
  }

  /** Extra frames are exactly the inlined levels. */
  function ExtraLevels(tools: Tools, images: seq<Image>, frames: seq<Frame>, mode: Option<string>, n: nat): nat
    requires n <= |frames|
  {
    if n == 0 then 0
    else
      ExtraLevels(tools, images, frames, mode, n - 1) +
      if IsResolved(tools, images, frames, mode, n - 1)
      then |Resolve(tools, images, frames[n - 1], CallOf(frames, mode, n - 1).value).value.1| - 1 else 0
  }

  lemma BlockLength(tools: Tools, images: seq<Image>, frames: seq<Frame>, mode: Option<string>, i: nat)
    requires i < |frames|
    ensures |Block(tools, images, frames[i], CallOf(frames, mode, i))| ==
              if IsResolved(tools, images, frames, mode, i)
              then |Resolve(tools, images, frames[i], CallOf(frames, mode, i).value).value.1| else 1
  {
  }

  lemma {:induction false} LengthIsFramesAndLevels(tools: Tools, images: seq<Image>, frames: seq<Frame>, mode: Option<string>, n: nat)
    requires n <= |frames|
    ensures |Blocks(tools, images, frames, mode, n)| == n + ExtraLevels(tools, images, frames, mode, n)
  {
    hide CallOf, Block, Resolve, IsResolved;
    if n > 0 {
      LengthIsFramesAndLevels(tools, images, frames, mode, n - 1);
      BlockLength(tools, images, frames, mode, n - 1);
    }
  }

  /** No more frames are resolved than have an address. */
  lemma {:induction false} ResolvedHaveAddresses(tools: Tools, images: seq<Image>, frames: seq<Frame>, mode: Option<string>, n: nat)
    requires n <= |frames|
    ensures CountResolved(tools, images, frames, mode, n) <= CountAddressed(frames, n) <= n
  {
    hide Resolve;
    if n > 0 {
      ResolvedHaveAddresses(tools, images, frames, mode, n - 1);
    }
  }
}
