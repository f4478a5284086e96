/** What symbolication shows for a frame, from the frame, the images and the lookup alone. */
module SymbolicatedFrames {
  import opened Wrappers
  import opened NativeSymbolication

  predicate Addressed(f: Frame) { f.instructionAddr.Some? && |f.instructionAddr.value| > 0 }

  /** No frame called by this one has an address. */
  predicate IsInnermost(frames: seq<Frame>, i: nat)
    requires i < |frames|
  {
    Addressed(frames[i]) && forall j | i < j < |frames| :: !Addressed(frames[j])
  }

  // --------------------------------------------------------------- how it is asked --

  /** What the stack's mode says for the frame, or else the frame itself. */
  ghost predicate IsTold(frames: seq<Frame>, mode: Option<string>, i: nat, adjust: bool)
    requires i < |frames|
  {
    if mode == Some("none") then !adjust
    else if mode == Some("all") && IsInnermost(frames, i) then adjust
    else if mode == Some("all_but_first") && IsInnermost(frames, i) then !adjust
    else frames[i].adjust == Some(adjust)
  }

  /** Neither the mode nor any addressed frame says anything. */
  predicate NothingSaid(frames: seq<Frame>, mode: Option<string>) {
    && mode != Some("none") && mode != Some("all") && mode != Some("all_but_first")
    && forall f <- frames | Addressed(f) :: f.adjust.None?
  }

  /** How the frame's address is moved, and whether the frame holds an exact address. */
  ghost predicate AskedWith(frames: seq<Frame>, mode: Option<string>, i: nat, adjustment: Adjustment, crashing: bool)
    requires i < |frames|
  {
    && (adjustment == No <==> IsTold(frames, mode, i, false))
    && (adjustment == Auto <==> NothingSaid(frames, mode))
    && (crashing <==> IsInnermost(frames, i) || frames[i].trust == Some("context"))
  }

  lemma CallsAreAsTold(frames: seq<Frame>, mode: Option<string>, i: nat)
    requires i < |frames|
    ensures CallOf(frames, mode, i).Some? <==> Addressed(frames[i])
    ensures Addressed(frames[i]) ==>
              forall adjustment, crashing ::
                AskedWith(frames, mode, i, adjustment, crashing) <==> CallOf(frames, mode, i) == Some(Call(adjustment, crashing))
  {
    assert forall f <- frames :: HasAddr(f) <==> Addressed(f);
    assert IsInnermost(frames, i) <==> Innermost(frames) == Some(i);
    if Addressed(frames[i]) {
      HeuristicIsAllOrNothing(frames, mode, i);
      assert NothingSaid(frames, mode) <==> CallOf(frames, mode, i).value.adjustment == Auto;
      hide Innermost, IsInnermost, AnyExplicit, NothingSaid;
    }
  }

  // ---------------------------------------------------------------- where it is asked --

  /** The address lies in the image, which does not go beyond the end of the address space. */
  predicate Holds(image: Image, addr: nat) {
    && image.imageAddr.Some? && image.imageAddr.value <= addr
    && (image.imageSize == 0 || (addr < image.imageAddr.value + image.imageSize && addr < 0xFFFF_FFFF_FFFF_FFFF))
  }

  /** The first image of this debug id. */
  predicate FirstWithId(images: seq<Image>, debugId: string, image: Image) {
    image.debugId == debugId && exists k | 0 <= k < |images| :: images[k] == image && forall j | 0 <= j < k :: images[j].debugId != debugId
  }

  predicate FirstWithIndex(images: seq<Image>, index: nat, image: Image) {
    image.index == index && exists k | 0 <= k < |images| :: images[k] == image && forall j | 0 <= j < k :: images[j].index != index
  }

  predicate FirstHolding(images: seq<Image>, addr: nat, image: Image) {
    Holds(image, addr) && exists k | 0 <= k < |images| :: images[k] == image && forall j | 0 <= j < k :: !Holds(images[j], addr)
  }

  /** What the frame's mode names: a debug id or the number of an image. */
  function Reference(f: Frame): Option<string> {
    if f.addrMode.Some? && |f.addrMode.value| >= 4 && f.addrMode.value[..4] == "rel:" then Some(f.addrMode.value[4..]) else None
  }

  /** The frame's address is looked up in `image` at `offset`: as it is if the mode names the
      image, or else from the load address of the first image that holds it. */
  ghost predicate LookedUpAt(tools: Tools, images: seq<Image>, f: Frame, image: Image, offset: nat) {
    && f.instructionAddr.Some? && tools.parseHex(f.instructionAddr.value).Some?
    && var addr, reference := tools.parseHex(f.instructionAddr.value).value, Reference(f);
       if reference.Some? && exists x <- images :: x.debugId == tools.normalizeDebugId(reference.value) then
         FirstWithId(images, tools.normalizeDebugId(reference.value), image) && offset == addr
       else if reference.Some? && tools.parseIndex(reference.value).Some? then
         FirstWithIndex(images, tools.parseIndex(reference.value).value, image) && offset == addr
       else
         FirstHolding(images, addr, image) && image.imageAddr.value + offset == addr
  }

  lemma ContainsIsHolds(image: Image, addr: nat)
    ensures Contains(image, addr) <==> Holds(image, addr)
  {
  }

  lemma FirstIs(images: seq<Image>, p: Image -> bool, image: Image)
    ensures First(images, p) == Some(image) <==>
              p(image) && exists k | 0 <= k < |images| :: images[k] == image && forall j | 0 <= j < k :: !p(images[j])
  {
  }

  lemma FoundById(images: seq<Image>, debugId: string, image: Image)
    ensures First(images, (x: Image) => x.debugId == debugId) == Some(image) <==> FirstWithId(images, debugId, image)
  {
    FirstIs(images, (x: Image) => x.debugId == debugId, image);
  }

  lemma FoundByIndex(images: seq<Image>, index: nat, image: Image)
    ensures First(images, (x: Image) => x.index == index) == Some(image) <==> FirstWithIndex(images, index, image)
  {
    FirstIs(images, (x: Image) => x.index == index, image);
  }

  lemma FoundByAddress(images: seq<Image>, addr: nat, image: Image)
    ensures First(images, x => Contains(x, addr)) == Some(image) <==> FirstHolding(images, addr, image)
  {
    FirstIs(images, x => Contains(x, addr), image);
    assert forall x :: Contains(x, addr) <==> Holds(x, addr);
  }

  lemma ReferenceIs(f: Frame)
    ensures Reference(f).Some? <==> f.addrMode.Some? && REL <= f.addrMode.value
    ensures Reference(f).Some? ==> Reference(f).value == f.addrMode.value[|REL|..]
  {
  }

  lemma LocatedExactly(tools: Tools, images: seq<Image>, f: Frame, addr: nat, image: Image, offset: nat)
    requires f.instructionAddr.Some? && tools.parseHex(f.instructionAddr.value) == Some(addr)
    ensures Locate(tools, f, addr, images) == Some((image, offset)) <==> LookedUpAt(tools, images, f, image, offset)
  {
    ReferenceIs(f);
    FoundByAddress(images, addr, image);
    hide Reference, First, FirstHolding, Contains;
    if f.addrMode.Some? && REL <= f.addrMode.value {
      var reference := f.addrMode.value[|REL|..];
      var debugId := tools.normalizeDebugId(reference);
      FoundById(images, debugId, image);
      var byId := First(images, (x: Image) => x.debugId == debugId);
      hide FirstWithId;
      if byId.None? && tools.parseIndex(reference).Some? {
        FoundByIndex(images, tools.parseIndex(reference).value, image);
      }
    }
  }

  // ------------------------------------------------------------------ what is shown --

  /** The lookup of the frame's address gives these inlining levels, innermost first. */
  ghost predicate Finds(tools: Tools, images: seq<Image>, frames: seq<Frame>, mode: Option<string>, i: nat,
                        image: Image, levels: seq<Location>)
    requires i < |frames|
  {
    Addressed(frames[i]) && levels != [] &&
    exists offset: nat, adjustment, crashing :: LookedUpAt(tools, images, frames[i], image, offset)
      && AskedWith(frames, mode, i, adjustment, crashing) && tools.lookup(frames[i], image, offset, adjustment, crashing) == Some(levels)
  }

  ghost predicate FindsAny(tools: Tools, images: seq<Image>, frames: seq<Frame>, mode: Option<string>, i: nat)
    requires i < |frames|
  {
    exists image, levels :: Finds(tools, images, frames, mode, i, image, levels)
  }

  /** A library of the system, by where an Apple image lies. */
  ghost predicate SystemImage(image: Image) {
    image.imageType == Some("macho") && image.codeFile.Some? &&
    var file := image.codeFile.value;
    || (|file| >= 8 && file[..8] == "/System/")
    || (|file| >= 9 && file[..9] == "/usr/lib/")
    || Within(file, "/System/Library/")
    || Within(file, ".framework/")
  }

  ghost predicate Within(text: string, part: string) {
    exists before, after :: text == before + part + after
  }

  lemma PartsAreWithin(text: string, part: string)
    ensures Has(text, part) <==> Within(text, part)
  {
    if i :| 0 <= i <= |text| && part <= text[i..] {
      assert text == text[..i] + part + text[i..][|part|..];
    }
    if before, after :| text == before + part + after {
      assert text[|before|..] == part + after;
    }
  }

  lemma InAppIsNotSystem(image: Image)
    ensures HeuristicInApp(image) <==> !SystemImage(image)
  {
    if image.codeFile.Some? {
      PartsAreWithin(image.codeFile.value, "/System/Library/");
      PartsAreWithin(image.codeFile.value, ".framework/");
      hide Has, Within;
    }
  }

  lemma ResolvedExactly(tools: Tools, images: seq<Image>, frames: seq<Frame>, mode: Option<string>, i: nat, image: Image, levels: seq<Location>)
    requires i < |frames|
    ensures Finds(tools, images, frames, mode, i, image, levels) <==>
              CallOf(frames, mode, i).Some? && Resolve(tools, images, frames[i], CallOf(frames, mode, i).value) == Some((image, levels))
  {
    CallsAreAsTold(frames, mode, i);
    var f := frames[i];
    if Addressed(f) && tools.parseHex(f.instructionAddr.value).Some? {
      var addr := tools.parseHex(f.instructionAddr.value).value;
      forall offset: nat
        ensures Locate(tools, f, addr, images) == Some((image, offset)) <==> LookedUpAt(tools, images, f, image, offset)
      {
        LocatedExactly(tools, images, f, addr, image, offset);
      }
      hide Locate, LookedUpAt, AskedWith, CallOf;
      var call := CallOf(frames, mode, i).value;
      assert AskedWith(frames, mode, i, call.adjustment, call.crashing);
    }
  }

  /** One frame of the block of an original: it shows its level, and what was not said of
      it is in-app unless its image is one of the system's. */
  ghost predicate ShowsIn(shown: Frame, original: Frame, level: Location, image: Image) {
    Shows(shown, original, level) && (original.inApp.None? ==> shown.inApp == Some(!SystemImage(image)))
  }

  /** Every frame's block shows exactly what the lookup of its address gives, one frame a
      level and the outermost first; if it gives nothing, it is the frame as it was. */
  lemma FramesShowWhatIsFound(tools: Tools, images: seq<Image>, frames: seq<Frame>, mode: Option<string>, i: nat)
    requires i < |frames|
    ensures var out := Blocks(tools, images, frames, mode, |frames|);
            var a, b := Start(tools, images, frames, mode, i), Start(tools, images, frames, mode, i + 1);
            && a < b <= |out|
            && (!FindsAny(tools, images, frames, mode, i) ==> out[a..b] == [frames[i]])
            && forall image, levels | Finds(tools, images, frames, mode, i, image, levels) ::
                 b - a == |levels| && forall j | 0 <= j < |levels| :: ShowsIn(out[a..b][j], frames[i], levels[|levels| - 1 - j], image)
  {
    hide CallOf, Resolve, Blocks, Finds, Start;
    BlockIsInPlace(tools, images, frames, mode, i);
    var block := Block(tools, images, frames[i], CallOf(frames, mode, i));
    forall image, levels | Finds(tools, images, frames, mode, i, image, levels)
      ensures |block| == |levels| && forall j | 0 <= j < |levels| :: ShowsIn(block[j], frames[i], levels[|levels| - 1 - j], image)
    {
      ResolvedExactly(tools, images, frames, mode, i, image, levels);
      BlockShows(frames[i], image, levels);
    }
    if CallOf(frames, mode, i).Some? && Resolve(tools, images, frames[i], CallOf(frames, mode, i).value).Some? {
      var hit := Resolve(tools, images, frames[i], CallOf(frames, mode, i).value).value;
      ResolvedExactly(tools, images, frames, mode, i, hit.0, hit.1);
    }
  }

  lemma BlockShows(frame: Frame, image: Image, levels: seq<Location>)
    requires levels != []
    ensures var block := Expand(frame, image, levels);
            |block| == |levels| && forall j | 0 <= j < |levels| :: ShowsIn(block[j], frame, levels[|levels| - 1 - j], image)
  {
    var block := Expand(frame, image, levels);
    ExpandShows(frame, image, levels);
    InAppIsNotSystem(image);
    hide HeuristicInApp, SystemImage;
    forall j | 0 <= j < |levels| ensures ShowsIn(block[j], frame, levels[|levels| - 1 - j], image) {
      assert block[j] == ApplyLocation(frame, levels[|levels| - 1 - j], image);
    }
  }

  /** The frames counted as resolved are those whose lookup gives something. */
  lemma {:induction false} ResolvedAreCounted(tools: Tools, images: seq<Image>, frames: seq<Frame>, mode: Option<string>, n: nat)
    requires n <= |frames|
    ensures CountResolved(tools, images, frames, mode, n) == |FoundAmong(tools, images, frames, mode, n)|
  {
    hide FindsAny, CallOf, Resolve;
    if n > 0 {
      ResolvedAreCounted(tools, images, frames, mode, n - 1);
      ResolvedIsFound(tools, images, frames, mode, n - 1);
      FoundNext(tools, images, frames, mode, n);
      hide FoundAmong;
    }
  }

  lemma FoundNext(tools: Tools, images: seq<Image>, frames: seq<Frame>, mode: Option<string>, n: nat)
    requires 0 < n <= |frames|
    ensures |FoundAmong(tools, images, frames, mode, n)| ==
              |FoundAmong(tools, images, frames, mode, n - 1)| + if FindsAny(tools, images, frames, mode, n - 1) then 1 else 0
  {
    hide FindsAny;
    var k: nat := n - 1;
    var before, after := FoundAmong(tools, images, frames, mode, k), FoundAmong(tools, images, frames, mode, n);
    assert k !in before;
    assert after == if FindsAny(tools, images, frames, mode, k) then before + {k} else before;
  }

  ghost function FoundAmong(tools: Tools, images: seq<Image>, frames: seq<Frame>, mode: Option<string>, n: nat): set<nat>
    requires n <= |frames|
  {
    set i: nat | i < n && FindsAny(tools, images, frames, mode, i)
  }

  lemma ResolvedIsFound(tools: Tools, images: seq<Image>, frames: seq<Frame>, mode: Option<string>, i: nat)
    requires i < |frames|
    ensures IsResolved(tools, images, frames, mode, i) <==> FindsAny(tools, images, frames, mode, i)
  {
    hide CallOf, Resolve, Finds;
    if FindsAny(tools, images, frames, mode, i) {
      var image, levels :| Finds(tools, images, frames, mode, i, image, levels);
      ResolvedExactly(tools, images, frames, mode, i, image, levels);
    }
    if IsResolved(tools, images, frames, mode, i) {
      var hit := Resolve(tools, images, frames[i], CallOf(frames, mode, i).value).value;
      ResolvedExactly(tools, images, frames, mode, i, hit.0, hit.1);
    }
  }
}
