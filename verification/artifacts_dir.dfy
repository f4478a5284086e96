/** The loops over the artifacts directory: pinning a request's chunks, assembling a
    job's file, and the two cleanups.  Each runs the operations of `StagingDisk` one
    by one; what other actors do in between is the state machine's business. */
module ArtifactsDir {
  import opened Wrappers
  import opened Octets
  import opened StagingDisk
  import opened AssemblyTable

  datatype CleanupStats = CleanupStats(deletedFiles: nat, deletedBytes: nat, removedDirs: nat)

  datatype AssembleError = ChunksMissing(missing: seq<string>) | NoChunks | TooLarge | ChecksumMismatch

  /** The distinct names not uploaded, in the order first asked for. */
  function Missing(uploads: map<string, Inode>, chunks: seq<string>): seq<string> {
    if chunks == [] then []
    else
      var rest, last := chunks[..|chunks| - 1], chunks[|chunks| - 1];
      Missing(uploads, rest) + if last !in uploads && last !in rest then [last] else []
  }

  function Linked(uploads: map<string, Inode>, chunks: seq<string>): map<string, Inode> {
    map h | h in chunks && h in uploads :: uploads[h]
  }

  /** Of the names done, those uploaded are linked into the directory, and nothing
      else on the disk has changed. */
  ghost predicate PinnedSoFar(before: Disk, d: Disk, id: nat, done: seq<string>, now: int) {
    && d.inodes == before.inodes && d.uploads == before.uploads
    && d.staging - {id} == before.staging - {id}
    && (id in d.staging <==> id in before.staging || done != [])
    && (done != [] ==> d.staging[id].files == Linked(before.uploads, done) && d.staging[id].mtime == now)
    && id !in before.staging
  }

  lemma PinnedAgain(before: Disk, d: Disk, id: nat, done: seq<string>, hash: string, now: int)
    requires PinnedSoFar(before, d, id, done, now) && hash in done
    ensures PinnedSoFar(before, d, id, done + [hash], now)
  {
  }

  lemma {:induction false} MissingExactly(uploads: map<string, Inode>, chunks: seq<string>)
    ensures forall h :: h in Missing(uploads, chunks) <==> h in chunks && h !in uploads
    ensures forall i, j :: 0 <= i < j < |Missing(uploads, chunks)| ==> Missing(uploads, chunks)[i] != Missing(uploads, chunks)[j]
  {
    if chunks != [] {
      var rest, last := chunks[..|chunks| - 1], chunks[|chunks| - 1];
      MissingExactly(uploads, rest);
      assert chunks == rest + [last];
    }
  }

  function Joined(d: Disk, id: nat, chunks: seq<string>): Bytes
    requires forall h <- chunks :: Readable(d, id, h)
  {
    if chunks == [] then []
    else Joined(d, id, chunks[..|chunks| - 1]) + Contents(d, id, chunks[|chunks| - 1])
  }

  lemma {:induction false} JoinedGrows(d: Disk, id: nat, chunks: seq<string>, n: nat)
    requires (forall h <- chunks :: Readable(d, id, h)) && n <= |chunks|
    ensures |Joined(d, id, chunks[..n])| <= |Joined(d, id, chunks)|
    decreases |chunks|
  {
    if n < |chunks| {
      JoinedGrows(d, id, chunks[..|chunks| - 1], n);
      assert chunks[..|chunks| - 1][..n] == chunks[..n];
    } else {
      assert chunks[..n] == chunks;
    }
  }

  /** The bytes all names of a directory stand for. */
  ghost function Total(inodes: map<Inode, File>, names: map<string, Inode>): nat
    requires forall h <- names :: names[h] in inodes
  {
    if names == map[] then 0
    else
      var h :| h in names;
      |inodes[names[h]].bytes| + Total(inodes, names - {h})
  }

  lemma {:induction false} TotalWithout(inodes: map<Inode, File>, names: map<string, Inode>, h: string)
    requires (forall n <- names :: names[n] in inodes) && h in names
    ensures Total(inodes, names) == |inodes[names[h]].bytes| + Total(inodes, names - {h})
    decreases |names|
  {
    var g :| g in names && Total(inodes, names) == |inodes[names[g]].bytes| + Total(inodes, names - {g});
    if g != h {
      assert names.Keys == (names - {g}).Keys + {g};
      assert names.Keys == (names - {h}).Keys + {h};
      TotalWithout(inodes, names - {g}, h);
      TotalWithout(inodes, names - {h}, g);
      assert names - {g} - {h} == names - {h} - {g};
    }
  }

  /** What is left of the uploads once the old ones not in `skip` are removed. */
  ghost predicate Kept(d: Disk, after: map<string, Inode>, skip: set<string>, cutoff: int)
    requires forall h <- d.uploads :: d.uploads[h] in d.inodes
  {
    && (forall h <- after :: h in d.uploads && after[h] == d.uploads[h])
    && (forall h <- d.uploads :: h in after <==> h in skip || d.inodes[d.uploads[h]].mtime > cutoff)
  }

  /** The file is the contents of its chunks, one after another. */
  lemma {:induction false} JoinedJoins(d: Disk, id: nat, a: seq<string>, b: seq<string>)
    requires forall h | h in a || h in b :: Readable(d, id, h)
    ensures Joined(d, id, a + b) == Joined(d, id, a) + Joined(d, id, b)
    ensures forall h <- a :: Joined(d, id, [h]) == Contents(d, id, h)
    decreases |b|
  {
    forall h <- a ensures Joined(d, id, [h]) == Contents(d, id, h) {
      assert [h][..0] == [];
    }
    if b == [] {
      assert a + b == a;
    } else {
      var rest, last := b[..|b| - 1], b[|b| - 1];
      JoinedJoins(d, id, a, rest);
      assert (a + b)[..|a + b| - 1] == a + rest && (a + b)[|a + b| - 1] == last;
    }
  }

  predicate InUse(uploads: map<string, Inode>, shard: string) {
    exists h <- uploads :: Shard(h) == shard
  }

  function InShards(uploads: map<string, Inode>, shards: set<string>): set<string> {
    set h | h in uploads && Shard(h) in shards
  }

  function OutOfShard(uploads: map<string, Inode>, shard: string): set<string> {
    set h | h in uploads && Shard(h) != shard
  }

  /** One shard more is swept, and the others are still in use as they were. */
  lemma KeptSweep(d: Disk, mid: map<string, Inode>, after: map<string, Inode>, todo: set<string>, shard: string, cutoff: int)
    requires forall h <- d.uploads :: d.uploads[h] in d.inodes
    requires Kept(d, mid, InShards(d.uploads, todo), cutoff)
    requires (forall h <- mid :: mid[h] in d.inodes) && Kept(d.(uploads := mid), after, OutOfShard(mid, shard), cutoff)
    requires shard in todo
    ensures Kept(d, after, InShards(d.uploads, todo - {shard}), cutoff)
    ensures forall s | s != shard :: InUse(mid, s) <==> InUse(after, s)
  {
  }

  class ArtifactsDir {
    var disk: Disk
    /** The shard directories under `chunks/`. */
    var shards: set<string>
    var now: int

    constructor (now: int)
      ensures disk == Disk(map[], map[], map[]) && shards == {} && this.now == now
    {
      disk, shards, this.now := Disk(map[], map[], map[]), {}, now;
    }

    /** One name of `pin_chunks`: its directory, then its link. */
    method PinOne(id: nat, hash: string, ghost before: Disk, ghost done: seq<string>) returns (linked: bool)
      requires PinnedSoFar(before, disk, id, done, now)
      modifies this`disk
      ensures linked <==> hash in before.uploads
      ensures PinnedSoFar(before, disk, id, done + [hash], now)
    {
      disk := Perform(disk, Mkdir(id, hash, now));
      linked := CanLink(disk, id, hash);
      if linked {
        disk := Perform(disk, HardLink(id, hash));
      }
    }

    /** The loop of `pin_chunks`. */
    method LinkEach(id: nat, chunks: seq<string>) returns (missing: seq<string>)
      requires id !in disk.staging
      modifies this`disk
      ensures missing == Missing(old(disk).uploads, chunks)
      ensures PinnedSoFar(old(disk), disk, id, chunks, now)
    {
      missing := [];
      var seen: set<string> := {};
      for i := 0 to |chunks|
        invariant seen == set h | h in chunks[..i]
        invariant missing == Missing(old(disk).uploads, chunks[..i])
        invariant PinnedSoFar(old(disk), disk, id, chunks[..i], now)
      {
        var hash := chunks[i];
        assert chunks[..i + 1] == chunks[..i] + [hash];
        if hash in seen {
          PinnedAgain(old(disk), disk, id, chunks[..i], hash, now);
        } else {
          seen := seen + {hash};
          var linked := PinOne(id, hash, old(disk), chunks[..i]);
          if !linked {
            missing := missing + [hash];
          }
        }
      }
      assert chunks[..|chunks|] == chunks;
    }

    /** Either every chunk is linked into a directory of its own, or the missing ones
        are named and nothing is left behind. */
    method PinChunks(id: nat, chunks: seq<string>) returns (missing: seq<string>)
      requires id !in disk.staging
      modifies this`disk
      ensures missing == Missing(old(disk).uploads, chunks)
      ensures missing != [] ==> disk == old(disk)
      ensures missing == [] ==>
                && PinnedSoFar(old(disk), disk, id, chunks, now)
                && forall h <- chunks :: Staged(disk, id, h)
    {
      missing := LinkEach(id, chunks);
      MissingExactly(old(disk).uploads, chunks);
      if missing != [] {
        RemoveStaging(id);
        assert disk.staging == old(disk).staging;
      } else {
        assert forall h <- chunks :: h !in Missing(old(disk).uploads, chunks);
      }
    }

    /** `remove_dir_all` of one staging directory. */
    method RemoveStaging(id: nat)
      modifies this`disk
      ensures disk == old(disk).(staging := old(disk).staging - {id})
    {
      while id in disk.staging && disk.staging[id].files != map[]
        invariant disk == old(disk).(staging := disk.staging)
        invariant disk.staging - {id} == old(disk).staging - {id}
        decreases if id in disk.staging then |disk.staging[id].files| else 0
      {
        var hash :| hash in disk.staging[id].files;
        assert disk.staging[id].files.Keys == (disk.staging[id].files - {hash}).Keys + {hash};
        disk := Perform(disk, Unlink(id, hash));
      }
      disk := Perform(disk, Rmdir(id));
    }

    /** `assemble_one` up to the checksum: the chunks in order, read through a buffer. */
    method Assemble(id: nat, chunks: seq<string>, checksum: string, maxBytes: nat, sha1: Bytes -> string)
        returns (r: Result<Bytes, AssembleError>)
      requires forall h <- chunks | Staged(disk, id, h) :: Readable(disk, id, h)
      ensures r.Ok? <==>
                && chunks != [] && (forall h <- chunks :: Readable(disk, id, h))
                && |Joined(disk, id, chunks)| <= maxBytes && sha1(Joined(disk, id, chunks)) == checksum
      ensures r.Ok? ==> r.value == Joined(disk, id, chunks)
      ensures r.Err? && r.error.ChunksMissing? <==> exists h <- chunks :: !Staged(disk, id, h)
      ensures r.Err? && r.error.ChunksMissing? ==> forall h :: h in r.error.missing <==> h in chunks && !Staged(disk, id, h)
      ensures r.Err? && r.error.TooLarge? ==> |Joined(disk, id, chunks)| > maxBytes
    {
      var missing: seq<string> := [];
      for i := 0 to |chunks|
        invariant forall h :: h in missing <==> h in chunks[..i] && !Staged(disk, id, h)
      {
        assert chunks[..i + 1] == chunks[..i] + [chunks[i]];
        if !Staged(disk, id, chunks[i]) {
          missing := missing + [chunks[i]];
        }
      }
      assert chunks[..|chunks|] == chunks;
      if missing != [] {
        assert missing[0] in missing;
        return Err(ChunksMissing(missing));
      }
      if chunks == [] {
        return Err(NoChunks);
      }
      var data: Bytes := [];
      for i := 0 to |chunks|
        invariant data == Joined(disk, id, chunks[..i]) && |data| <= maxBytes
      {
        var file := Contents(disk, id, chunks[i]);
        var pos := 0;
        assert chunks[..i + 1][..i] == chunks[..i];
        while pos < |file|
          invariant pos <= |file|
          invariant data == Joined(disk, id, chunks[..i]) + file[..pos] && |data| <= maxBytes
        {
          var n := if |file| - pos < 65536 then |file| - pos else 65536;
          if |data| + n > maxBytes {
            JoinedGrows(disk, id, chunks, i + 1);
            return Err(TooLarge);
          }
          data := data + file[pos..pos + n];
          assert file[..pos + n] == file[..pos] + file[pos..pos + n];
          pos := pos + n;
        }
        assert file[..|file|] == file;
      }
      if sha1(data) != checksum {
        return Err(ChecksumMismatch);
      }
      return Ok(data);
    }

    /** `cleanup_staging`: exactly the old directories no active row names. */
    method CleanupStaging(rows: Table, retention: int)
      modifies this`disk
      ensures disk.inodes == old(disk).inodes && disk.uploads == old(disk).uploads
      ensures disk.staging == map id | id in old(disk).staging
                                       && (old(disk).staging[id].mtime > now - retention || (id in rows && Active(rows[id])))
                              :: old(disk).staging[id]
    {
      var cutoff := now - retention;
      var todo := disk.staging.Keys;
      while todo != {}
        invariant todo <= old(disk).staging.Keys
        invariant disk == old(disk).(staging := disk.staging)
        invariant disk.staging == map id | id in old(disk).staging
                                           && (id in todo || old(disk).staging[id].mtime > cutoff || (id in rows && Active(rows[id])))
                                  :: old(disk).staging[id]
      {
        var id :| id in todo;
        todo := todo - {id};
        if disk.staging[id].mtime <= cutoff {
          var active := id in rows && Active(rows[id]);
          if !active {
            RemoveStaging(id);
          }
        }
      }
    }

    method RemoveIfStale(hash: string, cutoff: int) returns (files: nat, bytes: nat)
      requires (forall h <- disk.uploads :: disk.uploads[h] in disk.inodes) && hash in disk.uploads
      modifies this`disk
      ensures disk == old(disk).(uploads := disk.uploads)
      ensures disk.uploads == if old(disk).inodes[old(disk).uploads[hash]].mtime <= cutoff then old(disk).uploads - {hash} else old(disk).uploads
      ensures files + |disk.uploads| == |old(disk).uploads|
      ensures bytes + Total(disk.inodes, disk.uploads) == Total(old(disk).inodes, old(disk).uploads)
    {
      var file := disk.inodes[disk.uploads[hash]];
      files, bytes := 0, 0;
      if file.mtime <= cutoff {
        TotalWithout(disk.inodes, disk.uploads, hash);
        assert disk.uploads.Keys == (disk.uploads - {hash}).Keys + {hash};
        disk := Perform(disk, Remove(hash));
        files, bytes := 1, |file.bytes|;
      }
    }

    /** The old chunks of one shard directory. */
    method SweepShard(shard: string, cutoff: int) returns (files: nat, bytes: nat)
      requires forall h <- disk.uploads :: disk.uploads[h] in disk.inodes
      modifies this`disk
      ensures disk == old(disk).(uploads := disk.uploads)
      ensures Kept(old(disk), disk.uploads, OutOfShard(old(disk).uploads, shard), cutoff)
      ensures files + |disk.uploads| == |old(disk).uploads|
      ensures bytes + Total(disk.inodes, disk.uploads) == Total(old(disk).inodes, old(disk).uploads)
    {
      files, bytes := 0, 0;
      var todo := set h | h in disk.uploads && Shard(h) == shard;
      ghost var others := OutOfShard(disk.uploads, shard);
      while todo != {}
        invariant todo <= disk.uploads.Keys && todo !! others
        invariant disk == old(disk).(uploads := disk.uploads)
        invariant Kept(old(disk), disk.uploads, others + todo, cutoff)
        invariant files + |disk.uploads| == |old(disk).uploads|
        invariant bytes + Total(disk.inodes, disk.uploads) == Total(old(disk).inodes, old(disk).uploads)
      {
        var hash :| hash in todo;
        todo := todo - {hash};
        var f, b := RemoveIfStale(hash, cutoff);
        files, bytes := files + f, bytes + b;
      }
    }

    method RemoveIfEmpty(shard: string) returns (dirs: nat)
      requires shard in shards
      modifies this`shards
      ensures shards == if InUse(disk.uploads, shard) then old(shards) else old(shards) - {shard}
      ensures dirs + |shards| == |old(shards)|
    {
      dirs := 0;
      if !InUse(disk.uploads, shard) {
        shards := shards - {shard};
        dirs := 1;
      }
    }

    /** `cleanup_stale_chunks`: exactly the chunks not refreshed within the retention
        go, with the directories that leaves empty, and every byte is accounted for;
        pins are other names of the same inodes and stay. */
    method CleanupStaleChunks(retention: int) returns (stats: CleanupStats)
      requires forall h <- disk.uploads :: disk.uploads[h] in disk.inodes && Shard(h) in shards
      modifies this`disk, this`shards
      ensures disk == old(disk).(uploads := disk.uploads)
      ensures Kept(old(disk), disk.uploads, {}, now - retention)
      ensures forall s :: s in shards <==> s in old(shards) && InUse(disk.uploads, s)
      ensures stats.deletedFiles + |disk.uploads| == |old(disk).uploads|
      ensures stats.deletedBytes + Total(disk.inodes, disk.uploads) == Total(old(disk).inodes, old(disk).uploads)
      ensures stats.removedDirs + |shards| == |old(shards)|
    {
      stats := CleanupStats(0, 0, 0);
      var cutoff := now - retention;
      var todo := shards;
      while todo != {}
        invariant todo <= shards <= old(shards)
        invariant disk == old(disk).(uploads := disk.uploads)
        invariant Kept(old(disk), disk.uploads, InShards(old(disk).uploads, todo), cutoff)
        invariant forall s :: s in shards <==> s in todo || (s in old(shards) && InUse(disk.uploads, s))
        invariant stats.deletedFiles + |disk.uploads| == |old(disk).uploads|
        invariant stats.deletedBytes + Total(disk.inodes, disk.uploads) == Total(old(disk).inodes, old(disk).uploads)
        invariant stats.removedDirs + |shards| == |old(shards)|
      {
        var shard :| shard in todo;
        ghost var before := disk.uploads;
        var files, bytes := SweepShard(shard, cutoff);
        stats := stats.(deletedFiles := stats.deletedFiles + files, deletedBytes := stats.deletedBytes + bytes);
        KeptSweep(old(disk), before, disk.uploads, todo, shard, cutoff);
        todo := todo - {shard};
        var dirs := RemoveIfEmpty(shard);
        stats := stats.(removedDirs := stats.removedDirs + dirs);
      }
    }
  }
}
