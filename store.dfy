/** Row-sequence helpers shared by every table: the first row satisfying a condition,
    the rows a `where` clause keeps or deletes, and a `limit`/`offset` window. Row order
    is the order of the sequence. */
module Tables {
  import opened Wrappers

  /** The first row satisfying `p`, or `None`. */
  function First<T>(rows: seq<T>, p: T -> bool): (r: Option<T>)
    ensures r.None? <==> forall k :: 0 <= k < |rows| ==> !p(rows[k])
    ensures r.Some? ==> exists k :: (0 <= k < |rows| && rows[k] == r.value && p(rows[k])
      && forall j :: 0 <= j < k ==> !p(rows[j]))
  {
    if rows == [] then None
    else if p(rows[0]) then Some(rows[0])
    else
      var rest := First(rows[1..], p);
      assert forall k :: 1 <= k < |rows| ==> rows[k] == rows[1..][k - 1];
      rest
  }

  /** `delete ... where p`: the rows not satisfying `p`, in their order. */
  function RemoveWhere<T(==)>(rows: seq<T>, p: T -> bool): (r: seq<T>)
    ensures |r| <= |rows|
    ensures forall k :: 0 <= k < |r| ==> r[k] in rows && !p(r[k])
    ensures forall k :: 0 <= k < |rows| && !p(rows[k]) ==> rows[k] in r
    ensures |r| < |rows| <==> exists k :: 0 <= k < |rows| && p(rows[k])
  {
    if rows == [] then []
    else
      var rest := RemoveWhere(rows[1..], p);
      assert forall k :: 1 <= k < |rows| ==> rows[k] == rows[1..][k - 1];
      if p(rows[0]) then rest else [rows[0]] + rest
  }

  /** `limit`/`offset`: the rows at positions `offset` up to `offset + limit`. */
  function Page<T>(rows: seq<T>, limit: nat, offset: nat): (r: seq<T>)
    ensures |r| == if offset >= |rows| then 0 else Min(limit, |rows| - offset)
    ensures |r| <= limit && (r != [] ==> offset + |r| <= |rows|)
    ensures forall k :: 0 <= k < |r| ==> r[k] == rows[offset + k]
  {
    if offset >= |rows| then [] else rows[offset..offset + Min(limit, |rows| - offset)]
  }

  function Min(a: int, b: int): int { if a <= b then a else b }

  /** `First` depends only on the values the condition takes on the rows. */
  lemma {:induction false} FirstCongruent<T>(rows: seq<T>, p: T -> bool, q: T -> bool)
    requires forall k :: 0 <= k < |rows| ==> p(rows[k]) == q(rows[k])
    ensures First(rows, p) == First(rows, q)
  {
    if rows != [] {
      assert forall k :: 1 <= k < |rows| ==> rows[k] == rows[1..][k - 1];
      FirstCongruent(rows[1..], p, q);
    }
  }

  /** Adjacent windows tile the table: the window of `a` rows at `offset` followed by the
      window of `b` rows where it stops is the window of `a + b` rows at `offset`. */
  lemma PagesTile<T>(rows: seq<T>, a: nat, b: nat, offset: nat)
    ensures Page(rows, a, offset) + Page(rows, b, offset + a) == Page(rows, a + b, offset)
  {
    var x := Page(rows, a, offset);
    var y := Page(rows, b, offset + a);
    var z := Page(rows, a + b, offset);
    assert |x + y| == |z|;
    forall k | 0 <= k < |z| ensures (x + y)[k] == z[k] {
      if k < |x| { assert (x + y)[k] == x[k]; } else { assert (x + y)[k] == y[k - |x|]; }
    }
  }
}

/** The three tables, owned by one database object that the repositories update. */
module Store {
  import opened Entities

  /** A row of the permissions table. Nothing makes (documentId, userId) unique. */
  datatype PermissionRow = PermissionRow(
    id: string,
    documentId: string,
    userId: string,
    permissionType: string)

  class Database {
    var users: seq<UserRecord>
    var documents: seq<DocumentRecord>
    var permissions: seq<PermissionRow>

    constructor ()
      ensures users == [] && documents == [] && permissions == []
    {
      users := [];
      documents := [];
      permissions := [];
    }
  }

  /** The condition of `where(and(eq(documentId, d), eq(userId, u)))`. */
  predicate ForPair(row: PermissionRow, documentId: string, userId: string) {
    row.documentId == documentId && row.userId == userId
  }

  /** The levels the application itself writes: "Owner" for a creator, and "Editor" or
      "Viewer" through sharing. */
  predicate IsKnownLevel(level: string) {
    level == "Owner" || level == "Editor" || level == "Viewer"
  }

  /** Every row of the table carries one of those levels. */
  predicate KnownLevels(rows: seq<PermissionRow>) {
    forall k :: 0 <= k < |rows| ==> IsKnownLevel(rows[k].permissionType)
  }

  /** No permission row carries `id`: what a fresh uuid guarantees. */
  predicate FreshPermissionId(rows: seq<PermissionRow>, id: string) {
    forall k :: 0 <= k < |rows| ==> rows[k].id != id
  }
}
