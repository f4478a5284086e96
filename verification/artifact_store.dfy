/** Canonical artifact selection: one row per (project, debug id, arch, kind), and
    content-addressed files that are published before the row that names them. */
module ArtifactStore {
  import opened Octets
  import opened Wrappers
  import opened TextOrder

  // ------------------------------------------------------------------ quality --

  datatype Location = Location(line: int, path: Option<string>)
  datatype SymFunction = SymFunction(name: string, locations: seq<Location>)
  datatype SymCache = SymCache(arch: string, functions: seq<SymFunction>, files: seq<string>)

  datatype Quality = Quality(lines: nat, files: nat, functions: nat)

  /** The derived order: lines, then files, then functions. */
  predicate Poorer(a: Quality, b: Quality) {
    || a.lines < b.lines
    || (a.lines == b.lines && a.files < b.files)
    || (a.lines == b.lines && a.files == b.files && a.functions < b.functions)
  }

  predicate Named(f: SymFunction) { f.name != "" }

  predicate Lined(f: SymFunction) {
    exists loc <- f.locations :: loc.line > 0 && loc.path.Some? && loc.path.value != ""
  }

  predicate NonEmpty(path: string) { path != "" }

  function Chosen<T>(s: seq<T>, p: T -> bool): seq<T> {
    if s == [] then [] else Chosen(s[..|s| - 1], p) + if p(s[|s| - 1]) then [s[|s| - 1]] else []
  }

  function QualityOf(cache: SymCache): Quality {
    Quality(|Chosen(cache.functions, Lined)|, |Chosen(cache.files, NonEmpty)|, |Chosen(cache.functions, Named)|)
  }

  method NativeQuality(cache: SymCache) returns (quality: Quality)
    ensures quality == QualityOf(cache)
  {
    quality := Quality(0, 0, 0);
    for i := 0 to |cache.functions|
      invariant quality == Quality(|Chosen(cache.functions[..i], Lined)|, 0, |Chosen(cache.functions[..i], Named)|)
    {
      var f := cache.functions[i];
      assert cache.functions[..i + 1][..i] == cache.functions[..i];
      if f.name != "" {
        quality := quality.(functions := quality.functions + 1);
      }
      if exists loc <- f.locations :: loc.line > 0 && loc.path.Some? && loc.path.value != "" {
        quality := quality.(lines := quality.lines + 1);
      }
    }
    assert cache.functions[..|cache.functions|] == cache.functions;
    quality := quality.(files := |Chosen(cache.files, NonEmpty)|);
  }

  // -------------------------------------------------------------------- state --

  /** What the symbolic and sha2 libraries compute. */
  datatype Tools = Tools(sha256: Bytes -> string, parse: Bytes -> Option<SymCache>)

  datatype Ident = Ident(project: int, debugId: string, arch: string, kind: string)

  const NATIVE := "native"

  predicate Native(k: Ident) { k.kind == NATIVE }

  /** `objects/<project>/<hash[..2]>/<hash>`, or a path from before that tree. */
  datatype Path = Content(project: int, hash: string) | Historical(name: string)

  datatype Row = Row(
    path: Path,
    quality: Option<Quality>,
    hash: Option<string>,
    release: Option<int>,
    code: Option<string>,
    source: string)

  /** The table is keyed by its UNIQUE columns; an update that fills in a legacy row's
      architecture moves it to another key. */
  datatype Store = Store(rows: map<Ident, Row>, files: map<Path, Bytes>)

  datatype Upload = Upload(key: Ident, release: Option<int>, code: Option<string>, source: string, bytes: Bytes)

  /** What an artifact competes with. */
  datatype Candidate = Candidate(quality: Quality, hash: string)

  /** The row an upload finds and what it is worth: nothing when its file is lost. */
  datatype Found = Unreadable | Absent | Present(key: Ident, known: Option<Candidate>)

  function Measure(tools: Tools, native: bool, bytes: Bytes): Option<Quality> {
    if !native then Some(Quality(0, 0, 0))
    else match tools.parse(bytes) case Some(cache) => Some(QualityOf(cache)) case None => None
  }

  /** ORDER BY arch = ? DESC LIMIT 1: the exact row, else a native row without one. */
  function Existing(rows: map<Ident, Row>, k: Ident): Option<Ident> {
    if k in rows then Some(k)
    else if Native(k) && k.(arch := "") in rows then Some(k.(arch := ""))
    else None
  }

  predicate NeedsInspection(e: Ident, row: Row) {
    row.quality.None? || row.hash.None? || e.arch == ""
  }

  function Find(tools: Tools, s: Store, k: Ident): Found {
    match Existing(s.rows, k)
    case None => Absent
    case Some(e) =>
      var row := s.rows[e];
      if NeedsInspection(e, row) then
        if row.path !in s.files then Present(e, None)
        else
          var bytes := s.files[row.path];
          (match Measure(tools, Native(k), bytes)
           case None => Unreadable
           case Some(quality) =>
             if Native(k) && e.arch == "" && tools.parse(bytes).value.arch != k.arch then Absent
             else Present(e, Some(Candidate(quality, tools.sha256(bytes)))))
      else if row.path !in s.files then Present(e, None)
      else Present(e, Some(Candidate(row.quality.value, row.hash.value)))
  }

  /** The known artifact stays: it is better, or as good with a digest no larger. */
  predicate Stays(known: Candidate, cand: Candidate) {
    Poorer(cand.quality, known.quality) || (known.quality == cand.quality && !Less(cand.hash, known.hash))
  }

  function Coalesce(a: Option<int>, b: Option<int>): Option<int> { if a.Some? then a else b }

  function KeepRow(s: Store, u: Upload, e: Ident, known: Candidate): Store
    requires e in s.rows
  {
    var row := s.rows[e].(release := Coalesce(s.rows[e].release, u.release),
                          quality := Some(known.quality), hash := Some(known.hash));
    s.(rows := (s.rows - {e})[u.key := row])
  }

  function PublishFile(s: Store, target: Path, bytes: Bytes): Store {
    if target in s.files then s else s.(files := s.files[target := bytes])
  }

  function ReplaceRow(s: Store, u: Upload, found: Found, cand: Candidate): Store
    requires found.Present? ==> found.key in s.rows
  {
    var release := if found.Present? then Coalesce(s.rows[found.key].release, u.release) else u.release;
    var row := Row(Content(u.key.project, cand.hash), Some(cand.quality), Some(cand.hash), release, u.code, u.source);
    s.(rows := (s.rows - (if found.Present? then {found.key} else {}))[u.key := row])
  }

  /** One `store_artifact`, and the same cut short by a crash between publishing the
      file and committing the row. */
  function Stored(tools: Tools, s: Store, u: Upload, crash: bool): (Store, Option<Path>) {
    match Measure(tools, Native(u.key), u.bytes)
    case None => (s, None)
    case Some(quality) =>
      var found := Find(tools, s, u.key);
      if found.Unreadable? then (s, None)
      else
        var cand := Candidate(quality, tools.sha256(u.bytes));
        if found.Present? && found.known.Some? && Stays(found.known.value, cand) then
          if crash then (s, None) else (KeepRow(s, u, found.key, found.known.value), Some(s.rows[found.key].path))
        else
          var target := Content(u.key.project, cand.hash);
          var published := PublishFile(s, target, u.bytes);
          if crash || (found.Absent? && u.key in s.rows) then (published, None)
          else (ReplaceRow(published, u, found, cand), Some(target))
  }

  // ---------------------------------------------------------------- the class --

  class ArtifactTable {
    var rows: map<Ident, Row>
    var files: map<Path, Bytes>

    ghost function State(): Store reads this { Store(rows, files) }

    /** The body follows the transaction: `found` is the row as inspected, and nothing
        reaches the table before the commit. */
    method StoreArtifact(tools: Tools, u: Upload, crash: bool) returns (path: Option<Path>)
      modifies this
      ensures (State(), path) == Stored(tools, old(State()), u, crash)
    {
      path := None;
      var native := Native(u.key);
      var quality := Quality(0, 0, 0);
      if native {
        var cache := tools.parse(u.bytes);
        if cache.None? { return; }
        quality := NativeQuality(cache.value);
      }
      var existing := Existing(rows, u.key);
      var known: Option<Candidate> := None;
      if existing.Some? {
        var stored := rows[existing.value];
        if NeedsInspection(existing.value, stored) {
          if stored.path in files {
            var measured := Quality(0, 0, 0);
            var arch := u.key.arch;
            if native {
              var cache := tools.parse(files[stored.path]);
              if cache.None? { return; }
              measured := NativeQuality(cache.value);
              arch := cache.value.arch;
            }
            if native && existing.value.arch == "" && arch != u.key.arch {
              existing := None;
            } else {
              known := Some(Candidate(measured, tools.sha256(files[stored.path])));
            }
          }
        } else if stored.path in files {
          known := Some(Candidate(stored.quality.value, stored.hash.value));
        }
      }
      if known.Some? && Poorer(quality, known.value.quality) {
        path := Update(u, existing.value, known.value, crash);
        return;
      }
      var hash := tools.sha256(u.bytes);
      if known.Some? && known.value.quality == quality && !Less(hash, known.value.hash) {
        path := Update(u, existing.value, known.value, crash);
        return;
      }
      var target := Content(u.key.project, hash);
      if target !in files {
        files := files[target := u.bytes];
      }
      if crash || (existing.None? && u.key in rows) { return; }
      var release := if existing.Some? then Coalesce(rows[existing.value].release, u.release) else u.release;
      rows := (rows - (if existing.Some? then {existing.value} else {}))
              [u.key := Row(target, Some(quality), Some(hash), release, u.code, u.source)];
      path := Some(target);
    }

    /** `update_existing` and the commit after it. */
    method Update(u: Upload, e: Ident, known: Candidate, crash: bool) returns (path: Option<Path>)
      requires e in rows
      modifies this`rows
      ensures State() == if crash then old(State()) else KeepRow(old(State()), u, e, known)
      ensures path == if crash then None else Some(old(rows)[e].path)
    {
      if crash { return None; }
      var row := rows[e].(release := Coalesce(rows[e].release, u.release), quality := Some(known.quality), hash := Some(known.hash));
      rows := (rows - {e})[u.key := row];
      return Some(row.path);
    }
  }
}
