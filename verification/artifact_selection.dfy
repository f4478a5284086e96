/** What the artifact store promises over any sequence of uploads and crashes: files
    are written once and hold what their name says, and each identity ends up with
    the best artifact it was ever offered, in whatever order. */
module ArtifactSelection {
  import opened Octets
  import opened Wrappers
  import opened TextOrder
  import opened ArtifactStore

  ghost predicate Collisionless(tools: Tools) {
    forall a: Bytes, b: Bytes :: tools.sha256(a) == tools.sha256(b) ==> a == b
  }

  // -------------------------------------------------------------- write once --

  /** Content files hold what their name says, and a row tells the truth about its file. */
  ghost predicate RowTrue(tools: Tools, s: Store, k: Ident) 
    requires k in s.rows
  {
    var row := s.rows[k];
    && (row.path.Content? ==> row.quality.Some? && row.hash == Some(row.path.hash))
    && (row.quality.Some? && row.hash.Some? ==>
          && (forall b: Bytes :: tools.sha256(b) == row.hash.value ==> Measure(tools, Native(k), b) == row.quality)
          && (row.path in s.files ==> tools.sha256(s.files[row.path]) == row.hash.value))
  }

  ghost predicate Truthful(tools: Tools, s: Store) {
    && (forall p <- s.files :: p.Content? ==> tools.sha256(s.files[p]) == p.hash)
    && (forall k <- s.rows :: RowTrue(tools, s, k))
  }

  /** Nothing published is ever written again, by an upload or by a crashed one. */
  lemma FilesAreWrittenOnce(tools: Tools, s: Store, u: Upload, crash: bool, p: Path)
    requires p in s.files
    ensures var after := Stored(tools, s, u, crash).0; p in after.files && after.files[p] == s.files[p]
  {
  }

  lemma StoredIsTruthful(tools: Tools, s: Store, u: Upload, crash: bool)
    requires Collisionless(tools) && Truthful(tools, s)
    ensures Truthful(tools, Stored(tools, s, u, crash).0)
  {
    var after := Stored(tools, s, u, crash).0;
    forall k <- after.rows ensures RowTrue(tools, after, k) {
      if k in s.rows && after.rows[k] == s.rows[k] {
        assert RowTrue(tools, s, k);
      } else {
        StoredRowIsTrue(tools, s, u, k);
      }
    }
  }

  /** The row an upload writes: measured from the bytes its file holds. */
  lemma StoredRowIsTrue(tools: Tools, s: Store, u: Upload, k: Ident)
    requires Collisionless(tools) && Truthful(tools, s)
    requires var after := Stored(tools, s, u, false).0; k in after.rows && !(k in s.rows && after.rows[k] == s.rows[k])
    ensures RowTrue(tools, Stored(tools, s, u, false).0, k)
  {
    var found := Find(tools, s, u.key);
    if found.Present? {
      assert RowTrue(tools, s, found.key);
    }
  }

  // ------------------------------------------------------- one slot over time --

  /** The artifact the next upload to a slot has to beat. */
  function Canonical(tools: Tools, s: Store, k: Ident): Option<Candidate> {
    var found := Find(tools, s, k);
    if found.Present? then found.known else None
  }

  function Offer(tools: Tools, u: Upload): Candidate
    requires Measure(tools, Native(u.key), u.bytes).Some?
  {
    Candidate(Measure(tools, Native(u.key), u.bytes).value, tools.sha256(u.bytes))
  }

  /** No worse: more lines, or as many and more files, or as many of both and more functions,
      or all equal and a digest no greater. */
  predicate NoWorse(b: Candidate, c: Candidate) {
    || b.quality.lines > c.quality.lines
    || (b.quality.lines == c.quality.lines && b.quality.files > c.quality.files)
    || (b.quality.lines == c.quality.lines && b.quality.files == c.quality.files && b.quality.functions > c.quality.functions)
    || (b.quality == c.quality && !Less(c.hash, b.hash))
  }

  function Better(known: Option<Candidate>, cand: Candidate): Candidate {
    if known.Some? && Stays(known.value, cand) then known.value else cand
  }

  /** A native upload names its architecture. */
  predicate Proper(k: Ident) { Native(k) ==> k.arch != "" }

  /** The slot's row, if it has one, has its file. */
  ghost predicate SlotIntact(s: Store, k: Ident) {
    Existing(s.rows, k).Some? ==> s.rows[Existing(s.rows, k).value].path in s.files
  }

  ghost predicate SlotPath(s: Store, k: Ident, path: Path) {
    Existing(s.rows, k).Some? && s.rows[Existing(s.rows, k).value].path == path
  }

  /** A committed upload leaves the better of what was there and what it brought. */
  lemma CommitKeepsTheBetter(tools: Tools, s: Store, u: Upload)
    requires Collisionless(tools) && Truthful(tools, s) && Proper(u.key)
    requires !Find(tools, s, u.key).Unreadable? && Measure(tools, Native(u.key), u.bytes).Some?
    ensures var after := Stored(tools, s, u, false).0;
            && Stored(tools, s, u, false).1.Some?
            && SlotPath(after, u.key, Stored(tools, s, u, false).1.value)
            && SlotIntact(after, u.key)
            && Find(tools, after, u.key) == Present(u.key, Some(Better(Canonical(tools, s, u.key), Offer(tools, u))))
    ensures Better(Canonical(tools, s, u.key), Offer(tools, u)) ==
              if Canonical(tools, s, u.key).Some? && NoWorse(Canonical(tools, s, u.key).value, Offer(tools, u))
              then Canonical(tools, s, u.key).value else Offer(tools, u)
    ensures Stored(tools, s, u, false).1 ==
              if Canonical(tools, s, u.key).Some? && NoWorse(Canonical(tools, s, u.key).value, Offer(tools, u))
              then Some(s.rows[Find(tools, s, u.key).key].path)
              else Some(Content(u.key.project, Offer(tools, u).hash))
  {
  }

  /** Where in the sequence the property holds. */
  function Places<T>(s: seq<T>, p: T -> bool): set<nat> {
    set i: nat | i < |s| && p(s[i])
  }

  /** Some location of the function has a line and a path. */
  predicate HasLine(f: SymFunction) {
    exists i | 0 <= i < |f.locations| ::
      f.locations[i].line > 0 && f.locations[i].path.Some? && |f.locations[i].path.value| > 0
  }

  predicate HasName(f: SymFunction) { |f.name| > 0 }

  predicate IsPath(path: string) { |path| > 0 }

  /** What the offer of a native upload is worth: its functions with a line, its files with
      a path, its functions with a name. Other kinds have nothing to count. */
  lemma OffersAreCounted(tools: Tools, u: Upload)
    requires Measure(tools, Native(u.key), u.bytes).Some?
    ensures Offer(tools, u).hash == tools.sha256(u.bytes)
    ensures u.key.kind != "native" ==> Offer(tools, u).quality == Quality(0, 0, 0)
    ensures u.key.kind == "native" ==>
              && tools.parse(u.bytes).Some?
              && var cache := tools.parse(u.bytes).value;
                 && Offer(tools, u).quality.lines == |Places(cache.functions, HasLine)|
                 && Offer(tools, u).quality.files == |Places(cache.files, IsPath)|
                 && Offer(tools, u).quality.functions == |Places(cache.functions, HasName)|
  {
    if Native(u.key) {
      var cache := tools.parse(u.bytes).value;
      hide Chosen, Places, Lined, HasLine;
      ChosenIsCounted(cache.functions, Lined, HasLine) by { LinedHasLine(cache.functions); }
      ChosenIsCounted(cache.functions, Named, HasName);
      ChosenIsCounted(cache.files, NonEmpty, IsPath);
    }
  }

  lemma LinedHasLine(functions: seq<SymFunction>)
    ensures forall f <- functions :: Lined(f) <==> HasLine(f)
  {
  }

  lemma {:induction false} ChosenIsCounted<T>(s: seq<T>, p: T -> bool, q: T -> bool)
    requires forall x <- s :: p(x) <==> q(x)
    ensures |Chosen(s, p)| == |Places(s, q)|
  {
    if s != [] {
      var n := |s| - 1;
      ChosenIsCounted(s[..n], p, q);
      PlacesNext(s, q);
    }
  }

  lemma PlacesNext<T>(s: seq<T>, q: T -> bool)
    requires s != []
    ensures |Places(s, q)| == |Places(s[..|s| - 1], q)| + if q(s[|s| - 1]) then 1 else 0
  {
    var n: nat := |s| - 1;
    assert n !in Places(s[..n], q);
    assert Places(s, q) == if q(s[n]) then Places(s[..n], q) + {n} else Places(s[..n], q);
  }

  /** The upload, or the old file that has to be inspected first, is a symbol file that
      cannot be read. */
  predicate CannotBeRead(tools: Tools, s: Store, u: Upload) {
    u.key.kind == "native" &&
    (|| tools.parse(u.bytes).None?
     || exists e <- s.rows | e == u.key || (e == u.key.(arch := "") && u.key !in s.rows) ::
          && (s.rows[e].quality.None? || s.rows[e].hash.None? || e.arch == "")
          && s.rows[e].path in s.files && tools.parse(s.files[s.rows[e].path]).None?)
  }

  /** An upload is refused exactly then, and leaves everything as it was. */
  lemma RefusedExactly(tools: Tools, s: Store, u: Upload)
    requires Proper(u.key)
    ensures Stored(tools, s, u, false).1.None? <==> CannotBeRead(tools, s, u)
    ensures CannotBeRead(tools, s, u) ==> Stored(tools, s, u, false).0 == s
  {
    var e := Existing(s.rows, u.key);
    if e.Some? {
      assert e.value in s.rows && (e.value == u.key || (e.value == u.key.(arch := "") && u.key !in s.rows));
    }
  }

  /** A row from before qualities were recorded counts for what its file is worth now, and
      one without architecture only for the architecture of its file. */
  lemma OldRowsAreMeasured(tools: Tools, s: Store, k: Ident, e: Ident)
    requires e in s.rows && (e == k || (Native(k) && e == k.(arch := "") && k !in s.rows)) && Proper(k)
    requires s.rows[e].quality.None? || s.rows[e].hash.None? || e.arch == ""
    requires s.rows[e].path in s.files && (Native(k) ==> tools.parse(s.files[s.rows[e].path]).Some?)
    ensures var bytes := s.files[s.rows[e].path];
            if Native(k) && e.arch == "" && tools.parse(bytes).value.arch != k.arch then Find(tools, s, k) == Absent
            else Find(tools, s, k) == Present(e, Some(Offer(tools, Upload(k, None, None, "", bytes))))
  {
  }

  /** A row whose file is lost is found, and worth nothing; without a row there is nothing to
      find. */
  lemma LostRowsAreWorthNothing(tools: Tools, s: Store, k: Ident)
    requires Proper(k)
    ensures k in s.rows && s.rows[k].path !in s.files ==> Find(tools, s, k) == Present(k, None)
    ensures k !in s.rows && !(Native(k) && k.(arch := "") in s.rows) ==> Find(tools, s, k) == Absent
    ensures var bare := k.(arch := "");
            k !in s.rows && Native(k) && bare in s.rows && s.rows[bare].path !in s.files ==> Find(tools, s, k) == Present(bare, None)
  {
  }

  /** The row and the files after a committed upload: the better artifact's, with the first
      release ever named; what did not win leaves no other trace. */
  lemma CommitWritesTheRow(tools: Tools, s: Store, u: Upload)
    requires Stored(tools, s, u, false).1.Some? && Measure(tools, Native(u.key), u.bytes).Some?
    ensures var found, after, offer := Find(tools, s, u.key), Stored(tools, s, u, false).0, Offer(tools, u);
            && u.key in after.rows
            && var row := after.rows[u.key];
               && (found.Present? ==> found.key in s.rows && found.key == if u.key in s.rows then u.key else u.key.(arch := ""))
               && row.release == (if found.Present? && s.rows[found.key].release.Some? then s.rows[found.key].release else u.release)
               && (if found.Present? && found.known.Some? && NoWorse(found.known.value, offer) then
                     var was := s.rows[found.key];
                     && row.path == was.path && row.code == was.code && row.source == was.source && after.files == s.files
                     && row.quality == Some(found.known.value.quality) && row.hash == Some(found.known.value.hash)
                   else
                     var target := Content(u.key.project, tools.sha256(u.bytes));
                     && row == Row(target, Some(offer.quality), Some(offer.hash), row.release, u.code, u.source)
                     && after.files == if target in s.files then s.files else s.files[target := u.bytes])
  {
  }

  /** A crash between publish and commit changes no slot that has its file. */
  lemma CrashLeavesSlots(tools: Tools, s: Store, u: Upload, k: Ident)
    requires SlotIntact(s, k)
    ensures var after := Stored(tools, s, u, true).0;
            after.rows == s.rows && SlotIntact(after, k) && Find(tools, after, k) == Find(tools, s, k)
  {
  }

  /** An upload writes its own row, and may take over the row without architecture. */
  lemma UploadTouches(tools: Tools, s: Store, u: Upload, j: Ident)
    requires j != u.key
    ensures var after := Stored(tools, s, u, false).0;
            || Entry(after.rows, j) == Entry(s.rows, j)
            || (j !in after.rows && Native(u.key) && j == u.key.(arch := "") && Find(tools, s, u.key).Present? && Find(tools, s, u.key).key == j)
  {
  }

  /** A legacy row one architecture takes over was never another architecture's. */
  lemma LegacyRowsHaveOneArch(tools: Tools, s: Store, k: Ident, other: Ident)
    requires Native(k) && Native(other) && k.arch != "" && other.arch != "" && k.arch != other.arch
    requires k.(arch := "") == other.(arch := "") && k !in s.rows && SlotIntact(s, k)
    requires Find(tools, s, other).Present? && Find(tools, s, other).key == k.(arch := "")
    ensures Find(tools, s, k) == Absent
  {
  }

  /** Nor does an upload to another identity. */
  lemma OthersLeaveSlots(tools: Tools, s: Store, u: Upload, k: Ident)
    requires Proper(u.key) && Proper(k) && u.key != k && SlotIntact(s, k)
    ensures var after := Stored(tools, s, u, false).0;
            && SlotIntact(after, k)
            && Find(tools, after, k) == Find(tools, s, k)
            && (Find(tools, s, k).Present? ==> Entry(after.rows, Find(tools, s, k).key) == Entry(s.rows, Find(tools, s, k).key))
  {
    var after := Stored(tools, s, u, false).0;
    var bare := k.(arch := "");
    UploadTouches(tools, s, u, k);
    if Native(k) {
      UploadTouches(tools, s, u, bare);
      if k !in s.rows && Entry(after.rows, bare) != Entry(s.rows, bare) {
        LegacyRowsHaveOneArch(tools, s, k, u.key);
        return;
      }
    }
    SameRowSameFind(tools, s, after, k) by {
      forall p <- s.files ensures p in after.files && after.files[p] == s.files[p] {
        FilesAreWrittenOnce(tools, s, u, false, p);
      }
    }
  }

  lemma SameRowSameFind(tools: Tools, s: Store, after: Store, k: Ident)
    requires SlotIntact(s, k) && Entry(after.rows, k) == Entry(s.rows, k)
    requires Native(k) && k !in s.rows ==> Entry(after.rows, k.(arch := "")) == Entry(s.rows, k.(arch := ""))
    requires forall p <- s.files :: p in after.files && after.files[p] == s.files[p]
    ensures SlotIntact(after, k) && Find(tools, after, k) == Find(tools, s, k)
    ensures Find(tools, s, k).Present? ==> Entry(after.rows, Find(tools, s, k).key) == Entry(s.rows, Find(tools, s, k).key)
  {
  }

  // ---------------------------------------------------------------- histories --

  /** An upload, which a crash may cut short, or a file lost from the disk. */
  datatype Event = Attempt(upload: Upload, crash: bool) | Lose(path: Path)

  function Apply(tools: Tools, s: Store, e: Event): Store {
    match e
    case Attempt(u, crash) => Stored(tools, s, u, crash).0
    case Lose(path) => s.(files := s.files - {path})
  }

  function After(tools: Tools, s: Store, events: seq<Event>): Store {
    if events == [] then s else Apply(tools, After(tools, s, events[..|events| - 1]), events[|events| - 1])
  }

  /** What was offered to a slot by uploads that were not cut short. */
  function Offers(tools: Tools, events: seq<Event>, k: Ident): seq<Candidate> {
    if events == [] then []
    else
      var e := events[|events| - 1];
      Offers(tools, events[..|events| - 1], k)
      + if Commits(tools, e, k) then [Offer(tools, e.upload)] else []
  }

  function BestOf(known: Option<Candidate>, offers: seq<Candidate>): Option<Candidate> {
    if offers == [] then known else Some(Better(BestOf(known, offers[..|offers| - 1]), offers[|offers| - 1]))
  }

  predicate ProperUploads(events: seq<Event>) {
    forall e <- events :: e.Attempt? ==> Proper(e.upload.key)
  }

  /** The slot never loses its own file while it is the canonical one; any other may go. */
  ghost predicate KeepsOwnFile(tools: Tools, s: Store, events: seq<Event>, k: Ident) {
    forall n | 0 <= n < |events| && events[n].Lose? :: !SlotPath(After(tools, s, events[..n]), k, events[n].path)
  }

  /** The event is an upload to the slot that was not cut short and could be measured. */
  predicate Commits(tools: Tools, e: Event, k: Ident) {
    e.Attempt? && !e.crash && e.upload.key == k && Measure(tools, Native(k), e.upload.bytes).Some?
  }

  lemma {:induction false} HistoriesAreTruthful(tools: Tools, s: Store, events: seq<Event>)
    requires Collisionless(tools) && Truthful(tools, s)
    ensures Truthful(tools, After(tools, s, events))
  {
    if events != [] {
      var before := After(tools, s, events[..|events| - 1]);
      HistoriesAreTruthful(tools, s, events[..|events| - 1]);
      match events[|events| - 1]
      case Attempt(u, crash) => StoredIsTruthful(tools, before, u, crash);
      case Lose(path) =>
        var after := before.(files := before.files - {path});
        forall k <- after.rows ensures RowTrue(tools, after, k) {
          assert RowTrue(tools, before, k);
        }
    }
  }

  /** Where the canonical file is: where it was, unless something better replaced it. */
  ghost predicate PathFollows(tools: Tools, s: Store, after: Store, k: Ident) {
    Canonical(tools, after, k).Some? ==>
      var row := after.rows[Find(tools, after, k).key];
      || row.path == Content(k.project, Canonical(tools, after, k).value.hash)
      || (Canonical(tools, s, k) == Canonical(tools, after, k) && row.path == s.rows[Find(tools, s, k).key].path)
  }

  lemma LossElsewhere(tools: Tools, s: Store, path: Path, k: Ident)
    requires SlotIntact(s, k) && !SlotPath(s, k, path)
    ensures var after := s.(files := s.files - {path}); SlotIntact(after, k) && Find(tools, after, k) == Find(tools, s, k)
  {
  }

  lemma SlotEvent(tools: Tools, s: Store, before: Store, e: Event, k: Ident)
    requires Collisionless(tools) && Truthful(tools, before) && SlotIntact(before, k) && !Find(tools, before, k).Unreadable?
    requires Proper(k) && (e.Attempt? ==> Proper(e.upload.key)) && (e.Lose? ==> !SlotPath(before, k, e.path))
    requires PathFollows(tools, s, before, k)
    ensures var after := Apply(tools, before, e);
            && SlotIntact(after, k) && !Find(tools, after, k).Unreadable? && PathFollows(tools, s, after, k)
            && Canonical(tools, after, k) ==
                 if Commits(tools, e, k) then Some(Better(Canonical(tools, before, k), Offer(tools, e.upload)))
                 else Canonical(tools, before, k)
  {
    if e.Lose? {
      LossElsewhere(tools, before, e.path, k);
    } else if e.crash {
      CrashLeavesSlots(tools, before, e.upload, k);
    } else if e.upload.key != k {
      OthersLeaveSlots(tools, before, e.upload, k);
    } else if Commits(tools, e, k) {
      CommitKeepsTheBetter(tools, before, e.upload);
    }
  }

  lemma OffersGrow(tools: Tools, known: Option<Candidate>, events: seq<Event>, k: Ident)
    requires events != []
    ensures var rest, e := events[..|events| - 1], events[|events| - 1];
            BestOf(known, Offers(tools, events, k)) ==
              if Commits(tools, e, k) then Some(Better(BestOf(known, Offers(tools, rest, k)), Offer(tools, e.upload)))
              else BestOf(known, Offers(tools, rest, k))
  {
    var sofar := Offers(tools, events[..|events| - 1], k);
    var e := events[|events| - 1];
    assert sofar + [] == sofar;
    if Commits(tools, e, k) {
      assert (sofar + [Offer(tools, e.upload)])[..|sofar|] == sofar;
    }
  }

  // -------------------------------------------------------- best is an order --

  lemma StaysTrans(a: Candidate, b: Candidate, c: Candidate)
    requires Stays(a, b) && Stays(b, c)
    ensures Stays(a, c)
  {
    if Less(c.hash, a.hash) {
      LessTotal(b.hash, c.hash);
      LessTotal(a.hash, b.hash);
      if Less(b.hash, c.hash) { LessTrans(b.hash, c.hash, a.hash); }
    }
  }

  lemma StaysTotal(a: Candidate, b: Candidate)
    ensures Stays(a, b) || Stays(b, a)
    ensures Stays(a, b) && Stays(b, a) ==> a == b
    ensures Stays(a, a)
  {
    LessTotal(a.hash, b.hash);
    LessIrreflexive(a.hash);
    if Less(a.hash, b.hash) && Less(b.hash, a.hash) { LessTrans(a.hash, b.hash, a.hash); }
  }

  lemma StaysIsNoWorse(a: Candidate, b: Candidate)
    ensures Stays(a, b) <==> NoWorse(a, b)
  {
  }

  ghost predicate IsBest(best: Candidate, known: Option<Candidate>, offers: seq<Candidate>) {
    && (Some(best) == known || best in offers)
    && (known.Some? ==> NoWorse(best, known.value))
    && forall c <- offers :: NoWorse(best, c)
  }

  /** The greatest (lines, files, functions), ties to the smallest digest. */
  lemma {:induction false} BestOfIsBest(known: Option<Candidate>, offers: seq<Candidate>)
    requires known.Some? || offers != []
    ensures BestOf(known, offers).Some? && IsBest(BestOf(known, offers).value, known, offers)
  {
    hide Stays, NoWorse;
    if offers == [] {
      StaysTotal(known.value, known.value);
      StaysIsNoWorse(known.value, known.value);
    } else {
      var rest, last := offers[..|offers| - 1], offers[|offers| - 1];
      var best := BestOf(known, offers).value;
      assert offers == rest + [last];
      StaysTotal(last, last);
      StaysIsNoWorse(best, last);
      if known.Some? || rest != [] {
        BestOfIsBest(known, rest);
        var sofar := BestOf(known, rest).value;
        StaysTotal(sofar, last);
        forall c | c in rest || Some(c) == known ensures NoWorse(best, c) {
          StaysIsNoWorse(sofar, c);
          StaysTrans(best, sofar, c);
          StaysIsNoWorse(best, c);
        }
      }
    }
  }

  /** Whatever else is uploaded, lost or crashes, a slot that keeps its file holds the best
      of what it held and everything it was offered. */
  lemma {:induction false} CanonicalIsBest(tools: Tools, s: Store, events: seq<Event>, k: Ident)
    requires Collisionless(tools) && Truthful(tools, s) && Proper(k) && ProperUploads(events)
    requires SlotIntact(s, k) && !Find(tools, s, k).Unreadable? && KeepsOwnFile(tools, s, events, k)
    ensures var after := After(tools, s, events);
            && SlotIntact(after, k) && !Find(tools, after, k).Unreadable? && PathFollows(tools, s, after, k)
            && Canonical(tools, after, k) == BestOf(Canonical(tools, s, k), Offers(tools, events, k))
    ensures Canonical(tools, s, k).Some? || Offers(tools, events, k) != [] ==>
              && Canonical(tools, After(tools, s, events), k).Some?
              && IsBest(Canonical(tools, After(tools, s, events), k).value, Canonical(tools, s, k), Offers(tools, events, k))
  {
    hide IsBest;
    if Canonical(tools, s, k).Some? || Offers(tools, events, k) != [] {
      BestOfIsBest(Canonical(tools, s, k), Offers(tools, events, k));
    }
    if events != [] {
      hide Truthful, Collisionless, Find, Apply, Stays, SlotPath, SlotIntact, PathFollows, Canonical;
      var rest, e := events[..|events| - 1], events[|events| - 1];
      assert e in events && events[..|rest|] == rest;
      assert forall n | 0 <= n < |rest| :: rest[..n] == events[..n] && rest[n] == events[n];
      CanonicalIsBest(tools, s, rest, k);
      HistoriesAreTruthful(tools, s, rest);
      OffersGrow(tools, Canonical(tools, s, k), events, k);
      SlotEvent(tools, s, After(tools, s, rest), e, k);
    }
  }

  // -------------------------------------------------------------------- lost files --

  /** The slot's own row names a content file and says what it is worth. */
  predicate Records(s: Store, k: Ident, c: Candidate) {
    k in s.rows && s.rows[k].path.Content? && s.rows[k].quality == Some(c.quality) && s.rows[k].hash == Some(c.hash)
  }

  /** What is recorded is what is known as long as the file is there. */
  lemma RecordedIsFound(tools: Tools, s: Store, k: Ident, c: Candidate)
    requires Truthful(tools, s) && Proper(k) && Records(s, k, c)
    ensures Find(tools, s, k) == Present(k, if s.rows[k].path in s.files then Some(c) else None)
  {
    assert RowTrue(tools, s, k);
  }

  /** No upload to the slot finds its file lost. A lost file may come back in between: a
      content path is shared by all identities of a project, and by crashed uploads. */
  ghost predicate NeverRepaired(tools: Tools, s: Store, events: seq<Event>, k: Ident) {
    forall n | 0 <= n < |events| && Commits(tools, events[n], k) ::
      var t := After(tools, s, events[..n]); k in t.rows && t.rows[k].path in t.files
  }

  lemma RecordsStep(tools: Tools, s: Store, e: Event, k: Ident, c: Candidate)
    requires Truthful(tools, s) && Proper(k) && (e.Attempt? ==> Proper(e.upload.key)) && Records(s, k, c)
    requires Commits(tools, e, k) ==> s.rows[k].path in s.files
    ensures Records(Apply(tools, s, e), k, if Commits(tools, e, k) then Better(Some(c), Offer(tools, e.upload)) else c)
  {
    RecordedIsFound(tools, s, k, c);
    if e.Attempt? && !e.crash && e.upload.key != k {
      UploadTouches(tools, s, e.upload, k);
    }
  }

  /** From an upload that recorded `c` on, the slot records the best of `c` and what it is
      offered, until an upload finds its file lost; and that is what is known of it
      whenever its file is there, however often it is lost in between. */
  lemma {:induction false} BestSinceRepair(tools: Tools, s: Store, events: seq<Event>, k: Ident, c: Candidate)
    requires Collisionless(tools) && Truthful(tools, s) && Proper(k) && ProperUploads(events)
    requires Records(s, k, c) && NeverRepaired(tools, s, events, k)
    ensures var after, best := After(tools, s, events), BestOf(Some(c), Offers(tools, events, k)).value;
            && Records(after, k, best) && IsBest(best, Some(c), Offers(tools, events, k))
            && Find(tools, after, k) == Present(k, if after.rows[k].path in after.files then Some(best) else None)
  {
    HistoriesAreTruthful(tools, s, events);
    BestOfIsBest(Some(c), Offers(tools, events, k));
    hide IsBest, Truthful, Collisionless, Find, Apply, Stays;
    if events != [] {
      var rest, e := events[..|events| - 1], events[|events| - 1];
      assert e in events && events[..|rest|] == rest;
      assert forall n | 0 <= n < |rest| :: rest[..n] == events[..n] && rest[n] == events[n];
      BestSinceRepair(tools, s, rest, k, c);
      HistoriesAreTruthful(tools, s, rest);
      OffersGrow(tools, Some(c), events, k);
      RecordsStep(tools, After(tools, s, rest), e, k, BestOf(Some(c), Offers(tools, rest, k)).value);
    }
    RecordedIsFound(tools, After(tools, s, events), k, BestOf(Some(c), Offers(tools, events, k)).value);
  }

  lemma {:induction false} AfterJoins(tools: Tools, s: Store, a: seq<Event>, b: seq<Event>)
    ensures After(tools, s, a + b) == After(tools, After(tools, s, a), b)
    decreases |b|
  {
    hide Apply;
    if b == [] {
      assert a + b == a;
    } else {
      AfterJoins(tools, s, a, b[..|b| - 1]);
      assert (a + b)[..|a + b| - 1] == a + b[..|b| - 1];
    }
  }

  lemma RepairRecords(tools: Tools, s: Store, u: Upload)
    requires Find(tools, s, u.key).Present? && Canonical(tools, s, u.key).None? && Measure(tools, Native(u.key), u.bytes).Some?
    ensures Records(Stored(tools, s, u, false).0, u.key, Offer(tools, u))
  {
  }

  /** Whatever happened before, once an upload finds the slot's file lost the old canonical
      artifact no longer counts: from then on the slot holds the best of what it is offered. */
  lemma LostFilesStartOver(tools: Tools, s: Store, before: seq<Event>, u: Upload, rest: seq<Event>)
    requires Collisionless(tools) && Truthful(tools, s) && Proper(u.key) && ProperUploads(rest)
    requires var t := After(tools, s, before);
             && Find(tools, t, u.key).Present? && Canonical(tools, t, u.key).None? && Measure(tools, Native(u.key), u.bytes).Some?
             && NeverRepaired(tools, Stored(tools, t, u, false).0, rest, u.key)
    ensures var after := After(tools, s, before + [Attempt(u, false)] + rest);
            var best := BestOf(Some(Offer(tools, u)), Offers(tools, rest, u.key)).value;
            && Records(after, u.key, best) && IsBest(best, Some(Offer(tools, u)), Offers(tools, rest, u.key))
            && Find(tools, after, u.key) == Present(u.key, if after.rows[u.key].path in after.files then Some(best) else None)
  {
    var t := After(tools, s, before);
    var repaired := Stored(tools, t, u, false).0;
    RepairRecords(tools, t, u);
    HistoriesAreTruthful(tools, s, before);
    StoredIsTruthful(tools, t, u, false);
    BestSinceRepair(tools, repaired, rest, u.key, Offer(tools, u));
    assert [Attempt(u, false)][..0] == [] && After(tools, t, [Attempt(u, false)]) == repaired;
    hide After, Stored, Truthful, Collisionless;
    AfterJoins(tools, s, before, [Attempt(u, false)]);
    AfterJoins(tools, s, before + [Attempt(u, false)], rest);
  }

  // ------------------------------------------------------------ order of uploads --

  /** So the order of uploads, and repeating them, makes no difference. */
  lemma OrderDoesNotMatter(known: Option<Candidate>, xs: seq<Candidate>, ys: seq<Candidate>)
    requires forall c :: c in xs <==> c in ys
    ensures BestOf(known, xs) == BestOf(known, ys)
  {
    assert (ys != [] ==> ys[0] in xs) && (xs != [] ==> xs[0] in ys);
    if known.Some? || xs != [] {
      BestOfIsBest(known, xs);
      BestOfIsBest(known, ys);
      StaysTotal(BestOf(known, xs).value, BestOf(known, ys).value);
    }
  }

  lemma UploadOrderDoesNotMatter(tools: Tools, s: Store, es: seq<Event>, fs: seq<Event>, k: Ident)
    requires Collisionless(tools) && Truthful(tools, s) && Proper(k) && ProperUploads(es) && ProperUploads(fs)
    requires KeepsOwnFile(tools, s, es, k) && KeepsOwnFile(tools, s, fs, k)
    requires SlotIntact(s, k) && !Find(tools, s, k).Unreadable?
    requires forall c :: c in Offers(tools, es, k) <==> c in Offers(tools, fs, k)
    ensures Canonical(tools, After(tools, s, es), k) == Canonical(tools, After(tools, s, fs), k)
  {
    CanonicalIsBest(tools, s, es, k);
    CanonicalIsBest(tools, s, fs, k);
    OrderDoesNotMatter(Canonical(tools, s, k), Offers(tools, es, k), Offers(tools, fs, k));
  }

  // ------------------------------------------------------------ no dangling row --

  /** Every row that names a content file names an existing one. */
  ghost predicate NoDanglingRow(s: Store) {
    forall k <- s.rows :: s.rows[k].path.Content? ==> s.rows[k].path in s.files
  }

  /** The file was lost and has not been there since. */
  ghost predicate LostForGood(tools: Tools, s: Store, events: seq<Event>, p: Path) {
    exists n | 0 <= n < |events| :: events[n] == Lose(p) && forall i | n < i <= |events| :: p !in After(tools, s, events[..i]).files
  }

  /** A row whose file is not there was there before, without it. */
  lemma DanglingStep(tools: Tools, s: Store, u: Upload, crash: bool, k: Ident)
    requires var after := Stored(tools, s, u, crash).0; k in after.rows && after.rows[k].path.Content? && after.rows[k].path !in after.files
    ensures var after := Stored(tools, s, u, crash).0; k in s.rows && s.rows[k] == after.rows[k] && after.rows[k].path !in s.files
  {
  }

  /** At every point of any history, crashes between publish and commit and losses
      included, a row written by the store names an existing file, unless just that file
      was lost; and the file's bytes hash to its name. */
  lemma {:induction false} RowsNameExistingFiles(tools: Tools, s: Store, events: seq<Event>, k: Ident)
    requires Collisionless(tools) && Truthful(tools, s) && NoDanglingRow(s)
    requires k in After(tools, s, events).rows && After(tools, s, events).rows[k].path.Content?
    ensures var after := After(tools, s, events);
            || LostForGood(tools, s, events, after.rows[k].path)
            || (after.rows[k].path in after.files && tools.sha256(after.files[after.rows[k].path]) == after.rows[k].path.hash)
  {
    HistoriesAreTruthful(tools, s, events);
    hide Collisionless;
    var after := After(tools, s, events);
    var p := after.rows[k].path;
    if events != [] && p !in after.files {
      hide Truthful;
      var rest, e := events[..|events| - 1], events[|events| - 1];
      assert events[..|events|] == events;
      var before := After(tools, s, rest);
      if e == Lose(p) {
        assert events[|rest|] == Lose(p) && forall i | |rest| < i <= |events| :: events[..i] == events;
      } else {
        if e.Attempt? {
          DanglingStep(tools, before, e.upload, e.crash, k);
        }
        RowsNameExistingFiles(tools, s, rest, k);
        LostStays(tools, s, events, p);
      }
    }
  }

  lemma LostStays(tools: Tools, s: Store, events: seq<Event>, p: Path)
    requires events != [] && LostForGood(tools, s, events[..|events| - 1], p) && p !in After(tools, s, events).files
    ensures LostForGood(tools, s, events, p)
  {
    hide After;
    var rest := events[..|events| - 1];
    var n :| 0 <= n < |rest| && rest[n] == Lose(p) && forall i | n < i <= |rest| :: p !in After(tools, s, rest[..i]).files;
    forall i | n < i <= |events| ensures p !in After(tools, s, events[..i]).files {
      if i <= |rest| {
        assert events[..i] == rest[..i];
      } else {
        assert events[..i] == events;
      }
    }
    assert events[n] == Lose(p);
  }

  /** A mapping taken of a content file at any time equals a read at any other time,
      even if the file was lost and published again in between. */
  lemma MappingsStayFresh(tools: Tools, s: Store, es: seq<Event>, fs: seq<Event>, p: Path)
    requires Collisionless(tools) && Truthful(tools, s) && p.Content?
    requires p in After(tools, s, es).files && p in After(tools, s, fs).files
    ensures After(tools, s, es).files[p] == After(tools, s, fs).files[p]
  {
    HistoriesAreTruthful(tools, s, es);
    HistoriesAreTruthful(tools, s, fs);
  }
}
