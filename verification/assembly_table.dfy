/** The `dif_assemblies` table and the SQL statements run against it, one function
    or predicate per statement.  A row's `staging_root` is the directory named
    after its id, so the id stands for both. */
module AssemblyTable {
  import opened Wrappers

  const LEASE_SECONDS: int := 60
  const ERROR_RETENTION_SECONDS: int := 60
  const MAX_CLAIMS: nat := 3

  type Id = nat
  type Owner = nat

  datatype Key = Key(project: int, checksum: string, debugId: string)
  datatype ArtifactKey = ArtifactKey(project: int, debugId: string, arch: string, kind: string)

  /** What a client is told.  `Failed` is the handler's own error return. */
  datatype Answer =
    | Assembling
    | NotFound(missing: seq<string>)
    | Completed(sha1: string, artifact: string)
    | Rejected(detail: string)
    | Failed(detail: string)

  datatype AssemblyResult = AssemblyResult(response: Answer, artifacts: seq<ArtifactKey>, version: nat)

  datatype RowState = Pending | Processing | Success | Failure

  datatype Row = Row(
    key: Key,
    chunks: seq<string>,
    state: RowState,
    result: Option<AssemblyResult>,
    leaseOwner: Option<Owner>,
    leaseUntil: Option<int>,
    updatedAt: int,
    claims: nat)

  type Table = map<Id, Row>

  predicate Active(r: Row) {
    r.state == Pending || r.state == Processing
  }

  /** UNIQUE(project_id, checksum, debug_id) already holds a row for the key. */
  predicate KeyTaken(rows: Table, key: Key) {
    exists id <- rows :: rows[id].key == key
  }

  ghost predicate KeysUnique(rows: Table) {
    forall i <- rows, j <- rows :: rows[i].key == rows[j].key ==> i == j
  }

  /** INSERT ... ON CONFLICT DO NOTHING. */
  function Insert(rows: Table, id: Id, key: Key, chunks: seq<string>, t: int): Table {
    if KeyTaken(rows, key) then rows
    else rows[id := Row(key, chunks, Pending, None, None, None, t, 0)]
  }

  /** DELETE ... WHERE id = ? AND state IN ('ok', 'error'). */
  function Expire(rows: Table, id: Id): Table {
    if id in rows && !Active(rows[id]) then rows - {id} else rows
  }

  /** The WHERE clause of the claim's subquery; a NULL lease never compares below. */
  predicate Claimable(r: Row, t: int) {
    || r.state == Pending
    || (r.state == Processing && r.leaseUntil.Some? && r.leaseUntil.value < t)
  }

  predicate Before(rows: Table, i: Id, j: Id)
    requires i in rows && j in rows
  {
    rows[i].updatedAt < rows[j].updatedAt || (rows[i].updatedAt == rows[j].updatedAt && i < j)
  }

  /** ORDER BY updated_at, id LIMIT 1. */
  predicate IsNext(rows: Table, t: int, id: Id) {
    && id in rows
    && Claimable(rows[id], t)
    && forall j <- rows :: Claimable(rows[j], t) && j != id ==> Before(rows, id, j)
  }

  function Claim(rows: Table, id: Id, owner: Owner, t: int): Table
    requires id in rows
  {
    var r := rows[id];
    rows[id := r.(state := Processing, leaseOwner := Some(owner), leaseUntil := Some(t + LEASE_SECONDS),
                  updatedAt := t, claims := r.claims + 1)]
  }

  /** The guard shared by the heartbeat and the publish. */
  predicate Holds(rows: Table, id: Id, owner: Owner) {
    id in rows && rows[id].leaseOwner == Some(owner) && rows[id].state == Processing
  }

  function Renew(rows: Table, id: Id, owner: Owner, t: int): Table {
    if Holds(rows, id, owner) then rows[id := rows[id].(leaseUntil := Some(t + LEASE_SECONDS))] else rows
  }

  function Publish(rows: Table, id: Id, owner: Owner, success: bool, result: AssemblyResult, t: int): Table {
    if Holds(rows, id, owner) then
      rows[id := rows[id].(state := if success then Success else Failure, result := Some(result),
                           leaseOwner := None, leaseUntil := None, updatedAt := t)]
    else rows
  }

  datatype Statement =
    | InsertRow(id: Id, key: Key, chunks: seq<string>, t: int)
    | ExpireRow(id: Id)
    | ClaimRow(id: Id, owner: Owner, t: int)
    | RenewRow(id: Id, owner: Owner, t: int)
    | PublishRow(id: Id, owner: Owner, success: bool, result: AssemblyResult, t: int)

  /** What a caller sees to: a new row's id is new, and the claim updates the row its
      own subquery chose. */
  predicate Allowed(rows: Table, stmt: Statement) {
    match stmt
    case InsertRow(id, _, _, _) => id !in rows
    case ClaimRow(id, _, t) => IsNext(rows, t, id)
    case _ => true
  }

  function Execute(rows: Table, stmt: Statement): Table
    requires Allowed(rows, stmt)
  {
    match stmt
    case InsertRow(id, key, chunks, t) => Insert(rows, id, key, chunks, t)
    case ExpireRow(id) => Expire(rows, id)
    case ClaimRow(id, owner, t) => Claim(rows, id, owner, t)
    case RenewRow(id, owner, t) => Renew(rows, id, owner, t)
    case PublishRow(id, owner, success, result, t) => Publish(rows, id, owner, success, result, t)
  }

  lemma {:induction false} EarliestExists(rows: Table, ids: set<Id>) returns (id: Id)
    requires ids <= rows.Keys && ids != {}
    ensures id in ids && forall j | j in ids && j != id :: Before(rows, id, j)
    decreases ids
  {
    id :| id in ids;
    var rest := ids - {id};
    assert forall j | j in ids && j != id :: j in rest;
    if rest != {} {
      var other := EarliestExists(rows, rest);
      if Before(rows, other, id) {
        id := other;
      }
    }
  }

  /** A worker may take the row: it is pending, or its lease has run out. */
  predicate Free(row: Row, t: int) {
    row.state == Pending || (row.state == Processing && row.leaseUntil.Some? && row.leaseUntil.value < t)
  }

  /** The row is free, and every other free row was queued later, or in the same second
      under a greater id. */
  predicate FirstInLine(rows: Table, t: int, id: Id) {
    && id in rows && Free(rows[id], t)
    && forall j <- rows | j != id && Free(rows[j], t) ::
         rows[id].updatedAt < rows[j].updatedAt || (rows[id].updatedAt == rows[j].updatedAt && id < j)
  }

  /** The claim takes just that row. */
  lemma ClaimTakesTheFirst(rows: Table, t: int, id: Id)
    ensures IsNext(rows, t, id) <==> FirstInLine(rows, t, id)
  {
  }

  /** The claim's subquery finds a row exactly when one is free ... */
  lemma ClaimFindsWork(rows: Table, t: int)
    ensures (exists id :: IsNext(rows, t, id)) <==> (exists id <- rows :: Free(rows[id], t))
  {
    var ids := set id | id in rows && Claimable(rows[id], t);
    if some :| some in rows && Free(rows[some], t) {
      assert some in ids;
      var id := EarliestExists(rows, ids);
      assert IsNext(rows, t, id);
    }
  }

  /** ... and never two: `(updated_at, id)` is a total order. */
  lemma ClaimIsDetermined(rows: Table, t: int, i: Id, j: Id)
    requires IsNext(rows, t, i) && IsNext(rows, t, j)
    ensures i == j
  {
  }
}
