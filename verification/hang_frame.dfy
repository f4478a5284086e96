/** The frame an app hang is grouped, titled and attributed by. */
module HangFrames {
  import opened Wrappers
  import opened NativeSymbolication
  import opened SymbolicatedFrames

  const WAIT_IMAGES := {"libsystem_kernel.dylib", "libsystem_pthread.dylib", "libdispatch.dylib", "libxpc.dylib", "CoreFoundation"}
  const REDACTED := "<redacted>"

  datatype HangFrame = InFunction(image: Option<string>, name: string) | InImage(name: string)

  /** What follows the last slash. */
  function ImageName(package: string): (name: string)
    ensures |name| <= |package| && name == package[|package| - |name|..] && '/' !in name
    ensures |name| < |package| ==> package[|package| - |name| - 1] == '/'
  {
    if package == [] then []
    else if package[|package| - 1] == '/' then []
    else ImageName(package[..|package| - 1]) + [package[|package| - 1]]
  }

  function ImageOf(f: Frame): Option<string> {
    if f.package.Some? && ImageName(f.package.value) != "" then Some(ImageName(f.package.value)) else None
  }

  function NameOf(f: Frame): Option<string> {
    if f.name.Some? && f.name.value != "" && f.name.value != REDACTED then f.name else None
  }

  predicate IsWaitFunction(name: string) {
    name == "FlutterRunLoop.pollFlutterMessagesOnce" || Has(name, "ConditionVariable::Wait") || "std::" <= name
  }

  predicate Waits(f: Frame) {
    || (ImageOf(f).Some? && ImageOf(f).value in WAIT_IMAGES)
    || (NameOf(f).Some? && IsWaitFunction(NameOf(f).value))
  }

  predicate InApp(f: Frame) { f.inApp == Some(true) }

  /** The outermost in-app frame. */
  predicate IsEntryPoint(frames: seq<Frame>, i: nat)
    requires i < |frames|
  {
    InApp(frames[i]) && forall j | 0 <= j < i :: !InApp(frames[j])
  }

  predicate NamesHang(frames: seq<Frame>, i: nat)
    requires i < |frames|
  {
    !Waits(frames[i]) && NameOf(frames[i]).Some? && !IsEntryPoint(frames, i)
  }

  predicate ShowsImage(frames: seq<Frame>, i: nat)
    requires i < |frames|
  {
    !Waits(frames[i]) && ImageOf(frames[i]).Some?
  }

  ghost predicate NoneNames(frames: seq<Frame>, n: nat) {
    forall j | n <= j < |frames| :: !NamesHang(frames, j)
  }

  ghost predicate NoneShows(frames: seq<Frame>, n: nat) {
    forall j | n <= j < |frames| :: !ShowsImage(frames, j)
  }

  ghost predicate NamedBy(frames: seq<Frame>, i: nat, r: HangFrame)
    requires i < |frames|
  {
    NamesHang(frames, i) && NoneNames(frames, i + 1) && r == InFunction(ImageOf(frames[i]), NameOf(frames[i]).value)
  }

  ghost predicate ShownBy(frames: seq<Frame>, i: nat, r: HangFrame)
    requires i < |frames|
  {
    ShowsImage(frames, i) && NoneShows(frames, i + 1) && r == InImage(ImageOf(frames[i]).value)
  }

  /** The innermost named non-wait frame other than the entry point, else the innermost
      non-wait image. Stacks list the outermost frame first. */
  ghost predicate IsChoice(frames: seq<Frame>, r: Option<HangFrame>) {
    match r
    case Some(InFunction(_, _)) => exists i: nat | i < |frames| :: NamedBy(frames, i, r.value)
    case Some(InImage(_)) => NoneNames(frames, 0) && exists i: nat | i < |frames| :: ShownBy(frames, i, r.value)
    case None => NoneNames(frames, 0) && NoneShows(frames, 0)
  }

  lemma ChoiceIsUnique(frames: seq<Frame>, r: Option<HangFrame>, s: Option<HangFrame>)
    requires IsChoice(frames, r) && IsChoice(frames, s)
    ensures r == s
  {
  }

  function EntryPoint(frames: seq<Frame>): (r: Option<nat>)
    ensures r.Some? ==> r.value < |frames| && IsEntryPoint(frames, r.value)
    ensures r.None? ==> forall i | 0 <= i < |frames| :: !InApp(frames[i])
  {
    if frames == [] then None
    else
      var r := EntryPoint(frames[..|frames| - 1]);
      if r.Some? then r else if InApp(frames[|frames| - 1]) then Some(|frames| - 1) else None
  }

  method FindHangFrame(frames: seq<Frame>) returns (r: Option<HangFrame>)
    ensures IsChoice(frames, r)
  {
    hide NameOf, ImageOf, IsWaitFunction;
    var entryPoint := EntryPoint(frames);
    var innermostImage: Option<string> := None;
    var index: nat := |frames|;
    while index > 0
      invariant index <= |frames| && NoneNames(frames, index)
      invariant innermostImage.None? ==> NoneShows(frames, index)
      invariant innermostImage.Some? ==> exists i: nat | i < |frames| :: ShownBy(frames, i, InImage(innermostImage.value))
    {
      index := index - 1;
      var frame := frames[index];
      var image := ImageOf(frame);
      if image.Some? && image.value in WAIT_IMAGES { continue; }
      var name := NameOf(frame);
      if name.Some? && IsWaitFunction(name.value) { continue; }
      if name.Some? && Some(index) != entryPoint {
        assert NamedBy(frames, index, InFunction(image, name.value));
        return Some(InFunction(image, name.value));
      }
      if innermostImage.None? {
        innermostImage := image;
        assert image.Some? ==> ShownBy(frames, index, InImage(image.value));
      }
    }
    if innermostImage.Some? { return Some(InImage(innermostImage.value)); }
    return None;
  }

  // ------------------------------------------------------------------ in words --

  /** The last part of the path of the frame's image. */
  ghost predicate FromImage(f: Frame, image: string) {
    && f.package.Some? && image != "" && '/' !in image
    && (f.package.value == image || exists dir :: f.package.value == dir + "/" + image)
  }

  /** A name that says something. */
  predicate Readable(f: Frame, name: string) { f.name == Some(name) && name != "" && name != "<redacted>" }

  /** One of the five images that only wait, or a function known to wait. */
  ghost predicate OnlyWaits(f: Frame) {
    || FromImage(f, "libsystem_kernel.dylib") || FromImage(f, "libsystem_pthread.dylib") || FromImage(f, "libdispatch.dylib")
    || FromImage(f, "libxpc.dylib") || FromImage(f, "CoreFoundation")
    || exists name :: Readable(f, name) && WaitingName(name)
  }

  ghost predicate WaitingName(name: string) {
    || name == "FlutterRunLoop.pollFlutterMessagesOnce" || Within(name, "ConditionVariable::Wait")
    || (|name| >= 5 && name[..5] == "std::")
  }

  /** The first frame of the app, outermost first. */
  predicate StartsApp(frames: seq<Frame>, i: nat)
    requires i < |frames|
  {
    frames[i].inApp == Some(true) && forall j | 0 <= j < i :: frames[j].inApp != Some(true)
  }

  ghost predicate CanBeNamed(frames: seq<Frame>, i: nat)
    requires i < |frames|
  {
    !OnlyWaits(frames[i]) && (exists name :: Readable(frames[i], name)) && !StartsApp(frames, i)
  }

  ghost predicate CanBeShown(frames: seq<Frame>, i: nat)
    requires i < |frames|
  {
    !OnlyWaits(frames[i]) && exists image :: FromImage(frames[i], image)
  }

  lemma ImageIs(f: Frame)
    ensures forall image :: FromImage(f, image) <==> ImageOf(f) == Some(image)
  {
    if f.package.Some? {
      var path := f.package.value;
      var name := ImageName(path);
      if |name| < |path| {
        assert path == path[..|path| - |name| - 1] + "/" + name;
      } else {
        assert path[0..] == path;
      }
      forall image | FromImage(f, image) ensures image == name {
        if dir :| path == dir + "/" + image {
          SlashBefore(path, dir, image);
        }
        Endings(path, name, image);
      }
    }
  }

  lemma SlashBefore(path: string, dir: string, image: string)
    requires path == dir + "/" + image
    ensures |path| == |dir| + 1 + |image| && path[|dir|] == '/' && path[|dir| + 1..] == image
  {
  }

  /** The path from its last slash on is one text. */
  lemma Endings(path: string, a: string, b: string)
    requires |a| <= |path| && path[|path| - |a|..] == a && '/' !in a && (|a| < |path| ==> path[|path| - |a| - 1] == '/')
    requires |b| <= |path| && path[|path| - |b|..] == b && '/' !in b && (|b| < |path| ==> path[|path| - |b| - 1] == '/')
    ensures a == b
  {
    assert |a| == |b| by {
      NoSlash(path, a);
      NoSlash(path, b);
      SameLength(path, |a|, |b|);
    }
  }

  lemma SameLength(path: string, a: nat, b: nat)
    requires a <= |path| && (forall k | |path| - a <= k < |path| :: path[k] != '/') && (a < |path| ==> path[|path| - a - 1] == '/')
    requires b <= |path| && (forall k | |path| - b <= k < |path| :: path[k] != '/') && (b < |path| ==> path[|path| - b - 1] == '/')
    ensures a == b
  {
  }

  lemma NoSlash(path: string, part: string)
    requires |part| <= |path| && path[|path| - |part|..] == part && '/' !in part
    ensures forall k | |path| - |part| <= k < |path| :: path[k] != '/'
  {
    assert forall k | |path| - |part| <= k < |path| :: path[k] == part[k - (|path| - |part|)];
  }

  lemma WaitImagesInWords(f: Frame)
    ensures ImageOf(f).Some? && ImageOf(f).value in WAIT_IMAGES <==>
              || FromImage(f, "libsystem_kernel.dylib") || FromImage(f, "libsystem_pthread.dylib")
              || FromImage(f, "libdispatch.dylib") || FromImage(f, "libxpc.dylib") || FromImage(f, "CoreFoundation")
  {
    ImageIs(f);
    hide ImageOf, FromImage;
  }

  lemma NameIs(f: Frame)
    ensures forall name :: Readable(f, name) <==> NameOf(f) == Some(name)
  {
  }

  lemma WaitNamesInWords(name: string)
    ensures IsWaitFunction(name) <==> WaitingName(name)
  {
    PartsAreWithin(name, "ConditionVariable::Wait");
    hide Within, Has;
  }

  lemma WaitsInWords(f: Frame)
    ensures Waits(f) <==> OnlyWaits(f)
  {
    WaitImagesInWords(f);
    NameIs(f);
    if NameOf(f).Some? {
      WaitNamesInWords(NameOf(f).value);
    }
    hide ImageOf, FromImage, WaitingName, IsWaitFunction, Readable, NameOf;
  }

  lemma NamesInWords(frames: seq<Frame>, i: nat)
    requires i < |frames|
    ensures NamesHang(frames, i) <==> CanBeNamed(frames, i)
  {
    WaitsInWords(frames[i]);
    NameIs(frames[i]);
    assert IsEntryPoint(frames, i) <==> StartsApp(frames, i);
    hide Waits, OnlyWaits, NameOf, Readable, IsEntryPoint, StartsApp;
  }

  lemma ShowsInWords(frames: seq<Frame>, i: nat)
    requires i < |frames|
    ensures ShowsImage(frames, i) <==> CanBeShown(frames, i)
  {
    WaitsInWords(frames[i]);
    ImageIs(frames[i]);
    hide Waits, OnlyWaits, ImageOf, FromImage;
  }

  /** A hang is named by the innermost frame that can be, by its name and image; or else
      shown by the innermost image that can be; or not at all. */
  ghost predicate BlamesRightly(frames: seq<Frame>, r: Option<HangFrame>) {
    match r
    case Some(InFunction(image, name)) =>
      exists i: nat | i < |frames| ::
        && CanBeNamed(frames, i) && Readable(frames[i], name) && (forall j | i < j < |frames| :: !CanBeNamed(frames, j))
        && forall x :: FromImage(frames[i], x) <==> image == Some(x)
    case Some(InImage(name)) =>
      && (forall j | 0 <= j < |frames| :: !CanBeNamed(frames, j))
      && exists i: nat | i < |frames| ::
           CanBeShown(frames, i) && FromImage(frames[i], name) && forall j | i < j < |frames| :: !CanBeShown(frames, j)
    case None => forall j | 0 <= j < |frames| :: !CanBeNamed(frames, j) && !CanBeShown(frames, j)
  }

  lemma RolesAgree(frames: seq<Frame>)
    ensures forall i: nat | i < |frames| :: NamesHang(frames, i) <==> CanBeNamed(frames, i)
    ensures forall i: nat | i < |frames| :: ShowsImage(frames, i) <==> CanBeShown(frames, i)
  {
    forall i: nat | i < |frames|
      ensures NamesHang(frames, i) <==> CanBeNamed(frames, i)
      ensures ShowsImage(frames, i) <==> CanBeShown(frames, i)
    {
      NamesInWords(frames, i);
      ShowsInWords(frames, i);
    }
  }

  lemma RolesHaveNames(frames: seq<Frame>, i: nat)
    requires i < |frames|
    ensures NamesHang(frames, i) ==> NameOf(frames[i]).Some?
    ensures ShowsImage(frames, i) ==> ImageOf(frames[i]).Some?
  {
  }

  lemma ChoiceInWords(frames: seq<Frame>, r: Option<HangFrame>)
    requires IsChoice(frames, r)
    ensures BlamesRightly(frames, r)
  {
    RolesAgree(frames);
    hide NamesHang, ShowsImage, CanBeNamed, CanBeShown, Readable, FromImage, NameOf, ImageOf;
    match r
    case None =>
    case Some(InFunction(image, name)) =>
      var i: nat :| i < |frames| && NamedBy(frames, i, r.value);
      RolesHaveNames(frames, i);
      NameIs(frames[i]);
      ImageIs(frames[i]);
      assert CanBeNamed(frames, i) && Readable(frames[i], name) && forall x :: FromImage(frames[i], x) <==> image == Some(x);
      assert forall j | i < j < |frames| :: !CanBeNamed(frames, j);
    case Some(InImage(name)) =>
      var i: nat :| i < |frames| && ShownBy(frames, i, r.value);
      RolesHaveNames(frames, i);
      ImageIs(frames[i]);
      assert CanBeShown(frames, i) && FromImage(frames[i], name);
  }

  // ---------------------------------------------------------------- wait frames --

  /** The stack without the wait frames that are not in-app. */
  function Stripped(frames: seq<Frame>): seq<Frame> {
    if frames == [] then []
    else
      var f := frames[|frames| - 1];
      Stripped(frames[..|frames| - 1]) + if Waits(f) && !InApp(f) then [] else [f]
  }

  /** Frame `k` of the longer stack is frame `Unshift(a, k)` of the shorter one. */
  function Unshift(a: nat, k: nat): nat { if k > a then k - 1 else k }

  lemma SameRole(a: seq<Frame>, w: Frame, b: seq<Frame>, k: nat)
    requires Waits(w) && !InApp(w) && k < |a + [w] + b| && k != |a|
    ensures (a + [w] + b)[k] == (a + b)[Unshift(|a|, k)]
    ensures NamesHang(a + [w] + b, k) <==> NamesHang(a + b, Unshift(|a|, k))
    ensures ShowsImage(a + [w] + b, k) <==> ShowsImage(a + b, Unshift(|a|, k))
  {
    hide Waits, NameOf, ImageOf, InApp;
    var long, short := a + [w] + b, a + b;
    assert forall j: nat | j < |long| && j != |a| :: long[j] == short[Unshift(|a|, j)];
    if IsEntryPoint(long, k) {
      forall j: nat | j < Unshift(|a|, k) ensures !InApp(short[j]) {
        assert short[j] == long[if j < |a| then j else j + 1];
      }
    }
  }

  lemma OneWaitFrame(a: seq<Frame>, w: Frame, b: seq<Frame>, r: Option<HangFrame>)
    requires Waits(w) && !InApp(w) && IsChoice(a + b, r)
    ensures IsChoice(a + [w] + b, r)
  {
    hide IsEntryPoint, NameOf, ImageOf, InApp;
    var long, short := a + [w] + b, a + b;
    forall k: nat | k < |long| && k != |a|
      ensures long[k] == short[Unshift(|a|, k)]
      ensures NamesHang(long, k) <==> NamesHang(short, Unshift(|a|, k))
      ensures ShowsImage(long, k) <==> ShowsImage(short, Unshift(|a|, k))
    {
      SameRole(a, w, b, k);
    }
    assert long[|a|] == w;
    hide NamesHang, ShowsImage;
    if i: nat :| r.Some? && i < |short| && (NamedBy(short, i, r.value) || ShownBy(short, i, r.value)) {
      var k := if i < |a| then i else i + 1;
      assert Unshift(|a|, k) == i;
      assert NamedBy(short, i, r.value) ==> NamedBy(long, k, r.value);
      assert ShownBy(short, i, r.value) ==> ShownBy(long, k, r.value);
    }
  }

  lemma {:induction false} StrippedChoice(frames: seq<Frame>, tail: seq<Frame>, r: Option<HangFrame>)
    requires IsChoice(Stripped(frames) + tail, r)
    ensures IsChoice(frames + tail, r)
  {
    hide IsChoice, Waits, InApp;
    if frames == [] {
      assert Stripped(frames) + tail == frames + tail;
    } else {
      var rest, f := frames[..|frames| - 1], frames[|frames| - 1];
      if Waits(f) && !InApp(f) {
        assert Stripped(frames) == Stripped(rest);
        StrippedChoice(rest, tail, r);
        OneWaitFrame(rest, f, tail, r);
        assert rest + [f] + tail == frames + tail;
      } else {
        assert Stripped(frames) + tail == Stripped(rest) + ([f] + tail);
        StrippedChoice(rest, [f] + tail, r);
        assert rest + ([f] + tail) == frames + tail;
      }
    }
  }

  lemma {:induction false} LastNaming(frames: seq<Frame>, n: nat)
    requires n <= |frames| && NoneNames(frames, n)
    ensures NoneNames(frames, 0) || exists i: nat | i < |frames| :: NamesHang(frames, i) && NoneNames(frames, i + 1)
  {
    hide NamesHang;
    if n > 0 && !NamesHang(frames, n - 1) {
      assert NoneNames(frames, n - 1);
      LastNaming(frames, n - 1);
    }
  }

  lemma {:induction false} LastShowing(frames: seq<Frame>, n: nat)
    requires n <= |frames| && NoneShows(frames, n)
    ensures NoneShows(frames, 0) || exists i: nat | i < |frames| :: ShowsImage(frames, i) && NoneShows(frames, i + 1)
  {
    hide ShowsImage;
    if n > 0 && !ShowsImage(frames, n - 1) {
      assert NoneShows(frames, n - 1);
      LastShowing(frames, n - 1);
    }
  }

  lemma ChoiceExists(frames: seq<Frame>) returns (r: Option<HangFrame>)
    ensures IsChoice(frames, r)
  {
    hide Waits, IsEntryPoint;
    LastNaming(frames, |frames|);
    LastShowing(frames, |frames|);
    if !NoneNames(frames, 0) {
      var i: nat :| i < |frames| && NamesHang(frames, i) && NoneNames(frames, i + 1);
      r := Some(InFunction(ImageOf(frames[i]), NameOf(frames[i]).value));
      assert NamedBy(frames, i, r.value);
    } else if !NoneShows(frames, 0) {
      var i: nat :| i < |frames| && ShowsImage(frames, i) && NoneShows(frames, i + 1);
      r := Some(InImage(ImageOf(frames[i]).value));
      assert ShownBy(frames, i, r.value);
    } else {
      r := None;
    }
  }

  /** Inserting any number of wait frames that are not in-app, at any positions, leaves
      the choice as it was. */
  lemma WaitFramesDoNotMatter(frames: seq<Frame>, padded: seq<Frame>, r: Option<HangFrame>, s: Option<HangFrame>)
    requires Stripped(frames) == Stripped(padded)
    requires IsChoice(frames, r) && IsChoice(padded, s)
    ensures r == s
  {
    hide IsChoice, Stripped;
    var c := ChoiceExists(Stripped(frames));
    assert Stripped(frames) + [] == Stripped(frames) && frames + [] == frames && padded + [] == padded;
    StrippedChoice(frames, [], c);
    StrippedChoice(padded, [], c);
    ChoiceIsUnique(frames, r, c);
    ChoiceIsUnique(padded, s, c);
  }

  // -------------------------------------------------------------------- reports --

  /** How a hang is grouped, titled and attributed; the parts of the fingerprint are hashed. */
  datatype Report = Report(fingerprint: seq<string>, title: string, culprit: string)

  function ReportOf(exceptionType: string, frame: HangFrame): Report {
    match frame
    case InFunction(image, name) =>
      Report(["app-hang", exceptionType, if image.Some? then image.value else "", name],
             exceptionType + " in " + name,
             if image.Some? then image.value + " in " + name else name)
    case InImage(name) => Report(["app-hang", exceptionType, name], exceptionType + " in " + name, name)
  }

  /** What is reported of a hang of this type: it is grouped by type, image and name, titled
      by type and name, and put down to the image and the name. */
  predicate Reports(what: string, r: Option<HangFrame>, report: Option<Report>) {
    match r
    case None => report == None
    case Some(InFunction(None, name)) =>
      report == Some(Report(["app-hang", what, "", name], what + " in " + name, name))
    case Some(InFunction(Some(image), name)) =>
      report == Some(Report(["app-hang", what, image, name], what + " in " + name, image + " in " + name))
    case Some(InImage(image)) =>
      report == Some(Report(["app-hang", what, image], what + " in " + image, image))
  }

  lemma ReportSays(what: string, frame: HangFrame)
    ensures Reports(what, Some(frame), Some(ReportOf(what, frame)))
  {
  }

  method ReportHang(exceptionType: Option<string>, frames: seq<Frame>) returns (report: Option<Report>)
    ensures exists r: Option<HangFrame> ::
              && IsChoice(frames, r) && BlamesRightly(frames, r)
              && Reports(if exceptionType.Some? then exceptionType.value else "Error", r, report)
  {
    var r := FindHangFrame(frames);
    ChoiceInWords(frames, r);
    if r.None? { return None; }
    ReportSays(if exceptionType.Some? then exceptionType.value else "Error", r.value);
    hide IsChoice, BlamesRightly, Reports, ReportOf;
    return Some(ReportOf(if exceptionType.Some? then exceptionType.value else "Error", r.value));
  }

  /** Two hangs of one type that differ only in such wait frames are reported alike. */
  lemma WaitFramesDoNotSplitIssues(exceptionType: string, frames: seq<Frame>, padded: seq<Frame>, r: HangFrame, s: HangFrame)
    requires Stripped(frames) == Stripped(padded)
    requires IsChoice(frames, Some(r)) && IsChoice(padded, Some(s))
    ensures ReportOf(exceptionType, r) == ReportOf(exceptionType, s)
  {
    WaitFramesDoNotMatter(frames, padded, Some(r), Some(s));
  }
}
