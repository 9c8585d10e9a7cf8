/** The batched backfill of orders.analytics_status. */
module OrdersBackfill {
  import opened Options
  import opened OrderFilter
  import opened Sets

  type Rows = map<int, OrderRow>

  function Unclassified(rows: Rows): set<int> { set id | id in rows && rows[id].analytics.None? }

  function Classified(row: OrderRow): OrderRow { row.(analytics := Some(CategoryText(DeriveFromMysqlRow(row)))) }

  /** What the backfill is for: every row without a class gets the one derived from it. */
  function Backfilled(rows: Rows): Rows {
    map id | id in rows :: if rows[id].analytics.None? then Classified(rows[id]) else rows[id]
  }

  lemma UnclassifiedIs(rows: Rows, id: int)
    ensures id in Unclassified(rows) <==> id in rows && rows[id].analytics.None?
  {
  }

  lemma NothingUnclassified(rows: Rows)
    requires Unclassified(rows) == {}
    ensures Backfilled(rows) == rows
  {
    forall id | id in rows ensures rows[id].analytics.Some? { UnclassifiedIs(rows, id); }
  }

  lemma HasLeast(ids: set<int>)
    requires ids != {}
    ensures exists m :: m in ids && forall k :: k in ids ==> m <= k
    decreases |ids|
  {
    HasMember(ids);
    var x :| x in ids;
    var rest := ids - {x};
    forall k | k in ids ensures k == x || k in rest { }
    if rest == {} {
      assert x in ids && forall k :: k in ids ==> x <= k;
    } else {
      HasLeast(rest);
      var m :| m in rest && forall k :: k in rest ==> m <= k;
      var least := if m <= x then m else x;
      assert least in ids && forall k :: k in ids ==> least <= k;
    }
  }

  /** The first `limit` members in ascending order: ORDER BY id ASC LIMIT ? */
  function FirstIds(ids: set<int>, limit: nat): seq<int>
    decreases limit
  {
    if limit == 0 || ids == {} then []
    else
      HasLeast(ids);
      var m :| m in ids && forall k :: k in ids ==> m <= k;
      [m] + FirstIds(ids - {m}, limit - 1)
  }

  /** The first member, and the list of the others. */
  lemma FirstIdsBegin(ids: set<int>, limit: nat)
    requires limit > 0 && ids != {}
    ensures var first := FirstIds(ids, limit);
      && first != [] && first[0] in ids && (forall k :: k in ids ==> first[0] <= k)
      && first[1..] == FirstIds(ids - {first[0]}, limit - 1)
  {
    HasLeast(ids);
  }

  ghost predicate Firsts(first: seq<int>, ids: set<int>, limit: nat) {
    && |first| == (if limit <= |ids| then limit else |ids|)
    && (forall i :: 0 <= i < |first| ==> first[i] in ids)
    && (forall i, j :: 0 <= i < j < |first| ==> first[i] < first[j])
    && (forall i, k :: 0 <= i < |first| && k in ids && k !in first ==> first[i] < k)
  }

  lemma FirstsExtend(m: int, rest: seq<int>, ids: set<int>, limit: nat)
    requires limit > 0 && m in ids && (forall k :: k in ids ==> m <= k) && Firsts(rest, ids - {m}, limit - 1)
    ensures Firsts([m] + rest, ids, limit)
  {
    var first := [m] + rest;
    forall i, k | 0 <= i < |first| && k in ids && k !in first ensures first[i] < k {
      assert k != m && k !in rest;
    }
  }

  /** As many as the limit allows, ascending, and below every id left out. */
  lemma {:induction false} FirstIdsAre(ids: set<int>, limit: nat)
    ensures Firsts(FirstIds(ids, limit), ids, limit)
    decreases limit
  {
    if limit > 0 && ids != {} {
      var first := FirstIds(ids, limit);
      FirstIdsBegin(ids, limit);
      FirstIdsAre(ids - {first[0]}, limit - 1);
      FirstsExtend(first[0], first[1..], ids, limit);
      assert first == [first[0]] + first[1..];
    }
  }

  class OrdersTable {
    var rows: Rows

    constructor (rows: Rows)
      ensures this.rows == rows
    {
      this.rows := rows;
    }

    method Select(batch: nat) returns (list: seq<int>)
      ensures list == FirstIds(Unclassified(rows), batch)
    {
      list := FirstIds(Unclassified(rows), batch);
    }

    method Update(id: int, status: string)
      requires id in rows
      modifies this
      ensures rows == old(rows)[id := old(rows)[id].(analytics := Some(status))]
    {
      rows := rows[id := rows[id].(analytics := Some(status))];
    }

    /** One batch: each selected row gets its class, and no other row changes. */
    method ClassifyBatch(list: seq<int>)
      requires forall i :: 0 <= i < |list| ==> list[i] in Unclassified(rows)
      requires forall i, j :: 0 <= i < j < |list| ==> list[i] < list[j]
      modifies this
      ensures rows.Keys == old(rows).Keys
      ensures forall id :: id in rows ==> rows[id] == if id in list then Classified(old(rows)[id]) else old(rows)[id]
    {
      var n := 0;
      while n < |list|
        invariant 0 <= n <= |list|
        invariant rows.Keys == old(rows).Keys
        invariant forall id :: id in rows ==> rows[id] == if id in list[..n] then Classified(old(rows)[id]) else old(rows)[id]
      {
        var id := list[n];
        assert id in Unclassified(old(rows)) && id !in list[..n];
        var st := DeriveFromMysqlRow(rows[id]);
        Update(id, CategoryText(st));
        assert list[..n + 1] == list[..n] + [id];
        n := n + 1;
      }
      assert list[..n] == list;
    }

    /**
     * The loop ends for every table and every batch size: each batch leaves fewer rows without a class. It turns the table
     * into its backfilled form and counts exactly the rows that had no class.
     */
    method Backfill(batch: nat) returns (total: nat)
      requires batch >= 1
      modifies this
      ensures rows == Backfilled(old(rows))
      ensures total == |Unclassified(old(rows))|
    {
      total := 0;
      while true
        invariant rows.Keys == old(rows).Keys
        invariant Backfilled(rows) == Backfilled(old(rows))
        invariant total + |Unclassified(rows)| == |Unclassified(old(rows))|
        decreases |Unclassified(rows)|
      {
        ghost var before := rows;
        var list := Select(batch);
        FirstIdsAre(Unclassified(rows), batch);
        if |list| == 0 {
          NothingUnclassified(rows);
          break;
        }
        ClassifyBatch(list);
        BatchProgress(before, rows, list);
        total := total + |list|;
        if |list| < batch {
          NothingUnclassified(rows);
          break;
        }
      }
    }
  }

  lemma {:induction false} DistinctCount(list: seq<int>, s: set<int>)
    requires forall i, j :: 0 <= i < j < |list| ==> list[i] < list[j]
    requires forall k :: k in s <==> k in list
    ensures |s| == |list|
    decreases |list|
  {
    if list != [] {
      var last := list[|list| - 1];
      var rest := list[..|list| - 1];
      assert list == rest + [last];
      DistinctCount(rest, s - {last});
    } else {
      HasMember(s);
    }
  }

  ghost predicate BatchDone(before: Rows, after: Rows, list: seq<int>) {
    && after.Keys == before.Keys
    && (forall id :: id in after ==> after[id] == if id in list then Classified(before[id]) else before[id])
  }

  lemma UnclassifiedAfter(before: Rows, after: Rows, list: seq<int>, id: int)
    requires BatchDone(before, after, list)
    ensures id in Unclassified(after) <==> id in Unclassified(before) && id !in list
  {
    if id in before { assert Classified(before[id]).analytics.Some?; }
  }

  lemma BatchProgress(before: Rows, after: Rows, list: seq<int>)
    requires BatchDone(before, after, list)
    requires forall i :: 0 <= i < |list| ==> list[i] in Unclassified(before)
    requires forall i, j :: 0 <= i < j < |list| ==> list[i] < list[j]
    ensures Backfilled(after) == Backfilled(before)
    ensures |Unclassified(after)| + |list| == |Unclassified(before)|
  {
    var chosen := set k | k in list;
    DistinctCount(list, chosen);
    forall id ensures id in Unclassified(after) <==> id in Unclassified(before) && id !in chosen {
      UnclassifiedAfter(before, after, list, id);
    }
    assert Unclassified(after) == Unclassified(before) - chosen;
    assert chosen <= Unclassified(before);
    forall id | id in after ensures Backfilled(after)[id] == Backfilled(before)[id] {
      if id in list { UnclassifiedIs(before, id); }
    }
  }

  // ---------------------------------------------------------------- what the backfill leaves

  /** No row is left without a class, rows that had one are as before, and a second backfill has nothing to do. */
  lemma BackfillLeavesNoNull(rows: Rows)
    ensures Unclassified(Backfilled(rows)) == {}
    ensures Backfilled(Backfilled(rows)) == Backfilled(rows)
    ensures Backfilled(rows).Keys == rows.Keys
    ensures forall id :: id in rows && rows[id].analytics.Some? ==> Backfilled(rows)[id] == rows[id]
  {
    var after := Backfilled(rows);
    forall id ensures id !in Unclassified(after) {
      if id in rows { assert Classified(rows[id]).analytics.Some?; }
    }
    NothingUnclassified(after);
  }

  /** A backfilled row carries the class whose filter its order matches; its other columns are untouched. */
  lemma BackfilledRowsAreMatched(rows: Rows, id: int)
    requires id in rows && rows[id].analytics.None?
    ensures var row := Backfilled(rows)[id];
      && row == rows[id].(analytics := row.analytics)
      && exists c :: row.analytics == Some(CategoryText(c)) && OrderMatches(Some(OrderOfRow(rows[id])), FilterFor(c))
  {
    var c := DeriveFromMysqlRow(rows[id]);
    RowsAreMatched(rows[id]);
    assert Backfilled(rows)[id].analytics == Some(CategoryText(c)) && OrderMatches(Some(OrderOfRow(rows[id])), FilterFor(c));
  }
}
