/** The part of the artifacts directory the assembly queue touches: the upload
    chunks (`chunks/<2 hex>/<hash>`), the staging directories
    (`assemblies/<id>/<2 hex>/<hash>`) and the inodes both name.  A hard link is a
    second name for the same inode, so contents and modification time are shared.
    Every function is one file-system operation. */
module StagingDisk {
  import opened Octets
  import opened Wrappers

  type Inode = nat

  datatype File = File(bytes: Bytes, mtime: int)
  datatype Dir = Dir(shards: set<string>, files: map<string, Inode>, mtime: int)
  datatype Disk = Disk(inodes: map<Inode, File>, uploads: map<string, Inode>, staging: map<nat, Dir>)

  /** The shard directory `chunk_path` puts a hash in. */
  function Shard(hash: string): string {
    if |hash| < 2 then hash else hash[..2]
  }

  /** A new inode renamed over the chunk's name; an inode is never written in place. */
  function WriteChunk(d: Disk, hash: string, inode: Inode, bytes: Bytes, now: int): Disk {
    d.(inodes := d.inodes[inode := File(bytes, now)], uploads := d.uploads[hash := inode])
  }

  function TouchChunk(d: Disk, hash: string, now: int): Disk
    requires hash in d.uploads && d.uploads[hash] in d.inodes
  {
    var inode := d.uploads[hash];
    d.(inodes := d.inodes[inode := d.inodes[inode].(mtime := now)])
  }

  function RemoveChunk(d: Disk, hash: string): Disk {
    d.(uploads := d.uploads - {hash})
  }

  /** `create_dir_all` of the shard: creates the staging root on first use, and a
      directory's own time moves only when an entry is added to it. */
  function MakeShard(d: Disk, id: nat, hash: string, now: int): Disk {
    var shard := Shard(hash);
    if id !in d.staging then
      d.(staging := d.staging[id := Dir({shard}, map[], now)])
    else if shard in d.staging[id].shards then
      d
    else
      var dir := d.staging[id];
      d.(staging := d.staging[id := dir.(shards := dir.shards + {shard}, mtime := now)])
  }

  /** Whether `hard_link` finds both the source and the target's parent. */
  predicate CanLink(d: Disk, id: nat, hash: string) {
    hash in d.uploads && id in d.staging && Shard(hash) in d.staging[id].shards
  }

  function LinkChunk(d: Disk, id: nat, hash: string): Disk
    requires CanLink(d, id, hash)
  {
    var dir := d.staging[id];
    d.(staging := d.staging[id := dir.(files := dir.files[hash := d.uploads[hash]])])
  }

  /** One unlink of a `remove_dir_all`. */
  function UnlinkStaged(d: Disk, id: nat, hash: string): Disk {
    if id in d.staging then
      var dir := d.staging[id];
      d.(staging := d.staging[id := dir.(files := dir.files - {hash})])
    else
      d
  }

  /** The last step of a `remove_dir_all`, once no file is left. */
  function RemoveRoot(d: Disk, id: nat): Disk {
    d.(staging := d.staging - {id})
  }

  datatype FsOp =
    | Write(hash: string, inode: Inode, bytes: Bytes, now: int)
    | Touch(hash: string, now: int)
    | Remove(hash: string)
    | Mkdir(id: nat, hash: string, now: int)
    | HardLink(id: nat, hash: string)
    | Unlink(id: nat, hash: string)
    | Rmdir(id: nat)

  predicate Permitted(d: Disk, op: FsOp) {
    match op
    case Write(_, inode, _, _) => inode !in d.inodes
    case Touch(hash, _) => hash in d.uploads && d.uploads[hash] in d.inodes
    case HardLink(id, hash) => CanLink(d, id, hash)
    case Rmdir(id) => id in d.staging ==> d.staging[id].files == map[]
    case _ => true
  }

  function Perform(d: Disk, op: FsOp): Disk
    requires Permitted(d, op)
  {
    match op
    case Write(hash, inode, bytes, now) => WriteChunk(d, hash, inode, bytes, now)
    case Touch(hash, now) => TouchChunk(d, hash, now)
    case Remove(hash) => RemoveChunk(d, hash)
    case Mkdir(id, hash, now) => MakeShard(d, id, hash, now)
    case HardLink(id, hash) => LinkChunk(d, id, hash)
    case Unlink(id, hash) => UnlinkStaged(d, id, hash)
    case Rmdir(id) => RemoveRoot(d, id)
  }

  predicate Staged(d: Disk, id: nat, hash: string) {
    id in d.staging && hash in d.staging[id].files
  }

  predicate Readable(d: Disk, id: nat, hash: string) {
    Staged(d, id, hash) && d.staging[id].files[hash] in d.inodes
  }

  function Contents(d: Disk, id: nat, hash: string): Bytes
    requires Readable(d, id, hash)
  {
    d.inodes[d.staging[id].files[hash]].bytes
  }

  /** Every name points at an inode whose contents hash to that name. */
  ghost predicate ContentAddressed(d: Disk, sha1: Bytes -> string) {
    && (forall h <- d.uploads :: d.uploads[h] in d.inodes && sha1(d.inodes[d.uploads[h]].bytes) == h)
    && (forall id <- d.staging, h <- d.staging[id].files ::
          d.staging[id].files[h] in d.inodes && sha1(d.inodes[d.staging[id].files[h]].bytes) == h)
  }

  /** What no operation does to an inode: contents only ever appear, never change. */
  ghost predicate ContentsKept(d: Disk, d': Disk) {
    forall i <- d.inodes :: i in d'.inodes && d'.inodes[i].bytes == d.inodes[i].bytes
  }
}
