/**
 * The `nft_history` table: one row per recorded claim or send, shared by every
 * organization, and the store's side of a filtered, ordered select.
 */
module LedgerStore {
  import opened Wrappers
  import opened Sorting

  type OrgId = string
  type UserId = string

  /** The columns written by an insert. The JSON properties are kept as the handler passed them. */
  datatype Payload = Payload(
    orgId: OrgId,
    userId: UserId,
    kind: Field<string>,
    name: Field<string>,
    idNo: Field<string>,
    email: Field<string>,
    recipientAddress: Field<string>,
    amount: Field<int>,
    tokenIds: Field<string>,
    txHash: Field<string>)

  /**
   * A stored row: the payload, a key the store assigns, and `created_at`, which the store
   * stamps at insert time (milliseconds since the epoch).
   */
  datatype Row = Row(id: nat, createdAt: int, data: Payload)

  /** A select on the table: `.eq("org_id", org)`, then optionally `.gte` and `.lte` on `created_at`. */
  datatype Query = Query(org: OrgId, from: Option<int>, to: Option<int>)

  predicate Matches(q: Query, r: Row) {
    && r.data.orgId == q.org
    && (q.from.Some? ==> q.from.value <= r.createdAt)
    && (q.to.Some? ==> r.createdAt <= q.to.value)
  }

  /** The rows a query's filters keep, in table order. */
  function Selected(rows: seq<Row>, q: Query): (r: seq<Row>)
    ensures forall x :: x in r <==> x in rows && Matches(q, x)
    decreases |rows|
  {
    if |rows| == 0 then []
    else
      assert rows == [rows[0]] + rows[1..];
      (if Matches(q, rows[0]) then [rows[0]] else []) + Selected(rows[1..], q)
  }

  lemma {:induction false} SelectedAppend(rows: seq<Row>, row: Row, q: Query)
    ensures Selected(rows + [row], q) == Selected(rows, q) + (if Matches(q, row) then [row] else [])
    decreases |rows|
  {
    if |rows| > 0 {
      assert (rows + [row])[1..] == rows[1..] + [row];
      SelectedAppend(rows[1..], row, q);
    } else {
      assert rows + [row] == [row];
    }
  }

  /** Sorting key for `.order("created_at", { ascending: false })`. */
  function NewestFirstKey(r: Row): int {
    -r.createdAt
  }

  predicate NewestFirst(s: seq<Row>) {
    forall i, j :: 0 <= i < j < |s| ==> s[i].createdAt >= s[j].createdAt
  }

  /** What the store returns for a query: the matching rows, newest first. */
  function Run(rows: seq<Row>, q: Query): seq<Row> {
    SortBy(Selected(rows, q), NewestFirstKey)
  }

  /** A query's result is ordered newest first, holds only matching rows, and is a permutation of them. */
  lemma RunIsOrderedSelection(rows: seq<Row>, q: Query)
    ensures NewestFirst(Run(rows, q))
    ensures multiset(Run(rows, q)) == multiset(Selected(rows, q))
    ensures forall x :: x in Run(rows, q) <==> x in rows && Matches(q, x)
  {
    var r := Run(rows, q);
    assert SortedBy(r, NewestFirstKey);
    forall i, j | 0 <= i < j < |r| ensures r[i].createdAt >= r[j].createdAt {
      assert NewestFirstKey(r[i]) <= NewestFirstKey(r[j]);
    }
    forall x ensures x in r <==> x in Selected(rows, q) {
      assert x in r <==> x in multiset(r);
    }
  }

  /** A row appended under a fresh key comes back exactly once from any query it matches. */
  lemma RunFindsFreshRowOnce(rows: seq<Row>, row: Row, q: Query)
    requires forall i :: 0 <= i < |rows| ==> rows[i].id != row.id
    requires Matches(q, row)
    ensures multiset(Run(rows + [row], q))[row] == 1
    ensures forall x :: x in Run(rows + [row], q) && x.id == row.id ==> x == row
  {
    SelectedAppend(rows, row, q);
    RunIsOrderedSelection(rows + [row], q);
    assert row !in Selected(rows, q);
    assert multiset(Selected(rows + [row], q)) == multiset(Selected(rows, q)) + multiset{row};
    forall x | x in Run(rows + [row], q) && x.id == row.id
      ensures x == row
    {
      assert x in rows + [row];
    }
  }

  /** Keys strictly increase along the table and stay below the next key to hand out. */
  ghost predicate KeysFresh(rows: seq<Row>, nextId: nat) {
    && (forall i :: 0 <= i < |rows| ==> rows[i].id < nextId)
    && (forall i, j :: 0 <= i < j < |rows| ==> rows[i].id < rows[j].id)
  }

  /** The table as the route handlers see it. Rows are only ever appended. */
  class HistoryTable {
    var rows: seq<Row>
    var nextId: nat

    ghost predicate Valid()
      reads this
    {
      KeysFresh(rows, nextId)
    }

    constructor ()
      ensures Valid() && rows == []
    {
      rows := [];
      nextId := 0;
    }

    /**
     * `insert(payload)`: when the store accepts the row it appends it with a fresh key and
     * the store's clock `now`; when it reports an error nothing is written.
     */
    method Insert(p: Payload, now: int, accepted: bool) returns (id: Option<nat>)
      requires Valid()
      modifies this
      ensures Valid()
      ensures accepted ==> id == Some(old(nextId)) && rows == old(rows) + [Row(old(nextId), now, p)]
      ensures !accepted ==> id == None && rows == old(rows) && nextId == old(nextId)
      ensures forall i :: 0 <= i < |old(rows)| ==> old(rows)[i].id != old(nextId)
    {
      if accepted {
        rows := rows + [Row(nextId, now, p)];
        id := Some(nextId);
        nextId := nextId + 1;
      } else {
        id := None;
      }
    }
  }
}
