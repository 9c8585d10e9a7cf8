/**
 * One row per platform shop: the token status of a row, the better of two rows, and the fold over a list of rows.
 * The clock is one given instant; the language's localeCompare is a given comparison.
 */
module ShopDedupe {
  import opened Options
  import opened Text

  /** What new Date(...).getTime() gives. */
  datatype Time = At(ms: int) | NotANumber

  datatype ShopRow = ShopRow(
    shopId: int,
    tenantId: int,
    platformShopId: string,
    hasToken: bool,
    accessToken: string,
    tokenExpireAt: Option<Time>,
    tokenStatus: string,
    shopStatus: string,
    status: string,
    tokenUpdatedAt: Option<Time>)

  // ---------------------------------------------------------------- token status

  datatype TokenStatus = Active | Expired | Missing

  function NormalizeTokenStatus(row: ShopRow, now: int): TokenStatus {
    var access := Trim(row.accessToken);
    if !row.hasToken && access == "" then Missing
    else if row.tokenExpireAt.Some? && row.tokenExpireAt.value.At? && row.tokenExpireAt.value.ms < now then Expired
    else
      var ts := Lower(row.tokenStatus);
      if ts == "expired" then Expired
      else if ts == "missing" && access == "" then Missing
      else if access != "" || row.hasToken then Active
      else Missing
  }

  function TokenRank(s: TokenStatus): nat { match s case Active => 3 case Expired => 2 case Missing => 1 }

  predicate Deleted(row: ShopRow) {
    Lower(if row.shopStatus != "" then row.shopStatus else if row.status != "" then row.status else "active") == "deleted"
  }

  function TokenTime(row: ShopRow): Time { match row.tokenUpdatedAt case Some(t) => t case None => At(0) }

  // ---------------------------------------------------------------- the better of two rows

  function PickBetterShopRow(a: ShopRow, b: ShopRow, now: int): ShopRow {
    var ra, rb := TokenRank(NormalizeTokenStatus(a, now)), TokenRank(NormalizeTokenStatus(b, now));
    if ra != rb then (if ra > rb then a else b)
    else if Deleted(a) && !Deleted(b) then b
    else if Deleted(b) && !Deleted(a) then a
    else
      var ta, tb := TokenTime(a), TokenTime(b);
      if ta.NotANumber? || tb.NotANumber? then a
      else if ta != tb then (if tb.ms >= ta.ms then b else a)
      else if b.shopId >= a.shopId then b
      else a
  }

  predicate ValidTime(row: ShopRow) { TokenTime(row).At? }

  /** The order the choice follows: token rank, then not deleted, then token time, then shop id. */
  predicate NoBetter(a: ShopRow, b: ShopRow, now: int)
    requires ValidTime(a) && ValidTime(b)
  {
    var ra, rb := TokenRank(NormalizeTokenStatus(a, now)), TokenRank(NormalizeTokenStatus(b, now));
    var da, db := if Deleted(a) then 0 else 1, if Deleted(b) then 0 else 1;
    var ta, tb := TokenTime(a).ms, TokenTime(b).ms;
    || ra < rb
    || (ra == rb && da < db)
    || (ra == rb && da == db && ta < tb)
    || (ra == rb && da == db && ta == tb && a.shopId <= b.shopId)
  }

  /** With valid times, the choice is the larger of the two in that order. */
  lemma PickIsTheLarger(a: ShopRow, b: ShopRow, now: int)
    requires ValidTime(a) && ValidTime(b)
    ensures PickBetterShopRow(a, b, now) == if NoBetter(a, b, now) then b else a
    ensures NoBetter(a, PickBetterShopRow(a, b, now), now) && NoBetter(b, PickBetterShopRow(a, b, now), now)
  {
  }

  lemma PickIsOneOfThem(a: ShopRow, b: ShopRow, now: int)
    ensures PickBetterShopRow(a, b, now) == a || PickBetterShopRow(a, b, now) == b
  {
  }

  lemma NoBetterTrans(a: ShopRow, b: ShopRow, c: ShopRow, now: int)
    requires ValidTime(a) && ValidTime(b) && ValidTime(c) && NoBetter(a, b, now) && NoBetter(b, c, now)
    ensures NoBetter(a, c, now)
  {
  }

  /** The condition cannot be dropped: with an unreadable time between equals, the first argument wins either way. */
  lemma UnreadableTimeKeepsTheFirst(a: ShopRow, b: ShopRow, now: int)
    requires NormalizeTokenStatus(a, now) == NormalizeTokenStatus(b, now) && Deleted(a) == Deleted(b)
    requires !ValidTime(a) || !ValidTime(b)
    ensures PickBetterShopRow(a, b, now) == a && PickBetterShopRow(b, a, now) == b
  {
  }

  // ---------------------------------------------------------------- the fold

  /** A Map with its keys in the order of their first insertion. */
  datatype Groups = Groups(order: seq<string>, best: map<string, ShopRow>)

  function Pid(row: ShopRow): string { Lower(Trim(row.platformShopId)) }

  function AddRow(g: Groups, row: ShopRow, now: int): Groups {
    var pid := Pid(row);
    if pid in g.best then g.(best := g.best[pid := PickBetterShopRow(g.best[pid], row, now)])
    else Groups(g.order + [pid], g.best[pid := row])
  }

  function Grouped(rows: seq<ShopRow>, tid: int, now: int): Groups
    decreases |rows|
  {
    if rows == [] then Groups([], map[])
    else
      var last := rows[|rows| - 1];
      var g := Grouped(rows[..|rows| - 1], tid, now);
      if last.tenantId != tid || Pid(last) == "" then g else AddRow(g, last, now)
  }

  function WithoutId(rows: seq<ShopRow>, tid: int): seq<ShopRow>
    decreases |rows|
  {
    if rows == [] then []
    else
      var last := rows[|rows| - 1];
      var rest := WithoutId(rows[..|rows| - 1], tid);
      if last.tenantId == tid && Pid(last) == "" then rest + [last] else rest
  }

  function Values(order: seq<string>, best: map<string, ShopRow>): seq<ShopRow>
    requires forall k :: k in order ==> k in best
    decreases |order|
  {
    if order == [] then [] else Values(order[..|order| - 1], best) + [best[order[|order| - 1]]]
  }

  ghost predicate WellFormed(g: Groups) {
    && (forall k :: k in g.order <==> k in g.best)
    && (forall i, j :: 0 <= i < j < |g.order| ==> g.order[i] != g.order[j])
    && (forall k :: k in g.best ==> Pid(g.best[k]) == k != "")
  }

  lemma {:induction false} GroupedIsWellFormed(rows: seq<ShopRow>, tid: int, now: int)
    ensures WellFormed(Grouped(rows, tid, now))
    decreases |rows|
  {
    if rows != [] { GroupedIsWellFormed(rows[..|rows| - 1], tid, now); }
  }

  // ---------------------------------------------------------------- sorting the result

  /** The comparison handed to sort. */
  function CompareRows(a: ShopRow, b: ShopRow, localeCompare: (string, string) -> int): int {
    if a.platformShopId != b.platformShopId then localeCompare(a.platformShopId, b.platformShopId)
    else a.shopId - b.shopId
  }

  function InsertRow(row: ShopRow, sorted: seq<ShopRow>, localeCompare: (string, string) -> int): seq<ShopRow>
    decreases |sorted|
  {
    if sorted == [] then [row]
    else if CompareRows(row, sorted[|sorted| - 1], localeCompare) >= 0 then sorted + [row]
    else InsertRow(row, sorted[..|sorted| - 1], localeCompare) + [sorted[|sorted| - 1]]
  }

  /** A stable sort. */
  function SortRows(rows: seq<ShopRow>, localeCompare: (string, string) -> int): seq<ShopRow>
    decreases |rows|
  {
    if rows == [] then []
    else InsertRow(rows[|rows| - 1], SortRows(rows[..|rows| - 1], localeCompare), localeCompare)
  }

  lemma {:induction false} InsertRowKeeps(row: ShopRow, sorted: seq<ShopRow>, localeCompare: (string, string) -> int)
    ensures multiset(InsertRow(row, sorted, localeCompare)) == multiset(sorted) + multiset{row}
    decreases |sorted|
  {
    if sorted != [] {
      var rest, last := sorted[..|sorted| - 1], sorted[|sorted| - 1];
      assert sorted == rest + [last];
      InsertRowKeeps(row, rest, localeCompare);
    }
  }

  lemma {:induction false} SortRowsKeeps(rows: seq<ShopRow>, localeCompare: (string, string) -> int)
    ensures multiset(SortRows(rows, localeCompare)) == multiset(rows)
    decreases |rows|
  {
    if rows != [] {
      var rest, last := rows[..|rows| - 1], rows[|rows| - 1];
      assert rows == rest + [last];
      SortRowsKeeps(rest, localeCompare);
      InsertRowKeeps(last, SortRows(rest, localeCompare), localeCompare);
    }
  }

  // ---------------------------------------------------------------- the whole

  /** The rows that stay, before sorting. */
  function Kept(rows: seq<ShopRow>, tid: int, now: int): seq<ShopRow> {
    GroupedIsWellFormed(rows, tid, now);
    var g := Grouped(rows, tid, now);
    Values(g.order, g.best) + WithoutId(rows, tid)
  }

  function Deduped(rows: seq<ShopRow>, tid: int, now: int, localeCompare: (string, string) -> int): seq<ShopRow> {
    SortRows(Kept(rows, tid, now), localeCompare)
  }

  method DedupeShopsByPlatformShopId(rows: seq<ShopRow>, tid: int, now: int, localeCompare: (string, string) -> int)
    returns (out: seq<ShopRow>)
    ensures out == Deduped(rows, tid, now, localeCompare)
    ensures multiset(out) == multiset(Kept(rows, tid, now))
  {
    var byPid := Groups([], map[]);
    var noPid: seq<ShopRow> := [];
    for i := 0 to |rows|
      invariant byPid == Grouped(rows[..i], tid, now) && noPid == WithoutId(rows[..i], tid)
    {
      var row := rows[i];
      assert rows[..i + 1][..i] == rows[..i];
      if row.tenantId != tid { continue; }
      var pid := Pid(row);
      if pid == "" {
        noPid := noPid + [row];
        continue;
      }
      if pid in byPid.best {
        byPid := byPid.(best := byPid.best[pid := PickBetterShopRow(byPid.best[pid], row, now)]);
      } else {
        byPid := Groups(byPid.order + [pid], byPid.best[pid := row]);
      }
    }
    assert rows[..|rows|] == rows;
    GroupedIsWellFormed(rows, tid, now);
    out := SortRows(Values(byPid.order, byPid.best) + noPid, localeCompare);
    SortRowsKeeps(Kept(rows, tid, now), localeCompare);
  }

  // ---------------------------------------------------------------- which rows stay

  predicate Belongs(row: ShopRow, tid: int) { row.tenantId == tid }

  ghost predicate AllValid(rows: seq<ShopRow>) { forall r :: r in rows ==> ValidTime(r) }

  ghost predicate DistinctIds(rows: seq<ShopRow>) {
    forall a, b :: a in rows && b in rows && a.shopId == b.shopId ==> a == b
  }

  /** Every row of the tenant with a platform id has a winner, and every winner is a row of the tenant. */
  ghost predicate Covers(best: map<string, ShopRow>, rows: seq<ShopRow>, tid: int) {
    && (forall r :: r in rows && Belongs(r, tid) && Pid(r) != "" ==> Pid(r) in best)
    && (forall k :: k in best ==> FromRows(best[k], rows, tid))
  }

  predicate FromRows(row: ShopRow, rows: seq<ShopRow>, tid: int) { row in rows && Belongs(row, tid) }

  lemma AddRowCovers(rest: seq<ShopRow>, last: ShopRow, tid: int, now: int, g: Groups)
    requires Covers(g.best, rest, tid) && Belongs(last, tid)
    ensures Covers(AddRow(g, last, now).best, rest + [last], tid)
  {
    if Pid(last) in g.best { PickIsOneOfThem(g.best[Pid(last)], last, now); }
    var best := AddRow(g, last, now).best;
    forall k | k in best ensures FromRows(best[k], rest + [last], tid) {
      if k in g.best { assert FromRows(g.best[k], rest, tid); }
    }
  }

  lemma {:induction false} GroupedCovers(rows: seq<ShopRow>, tid: int, now: int)
    ensures Covers(Grouped(rows, tid, now).best, rows, tid)
    decreases |rows|
  {
    if rows != [] {
      var rest, last := rows[..|rows| - 1], rows[|rows| - 1];
      GroupedCovers(rest, tid, now);
      assert rows == rest + [last];
      var g := Grouped(rest, tid, now);
      if Belongs(last, tid) && Pid(last) != "" {
        AddRowCovers(rest, last, tid, now, g);
      } else {
        forall k | k in g.best ensures FromRows(g.best[k], rows, tid) { assert FromRows(g.best[k], rest, tid); }
      }
    }
  }

  ghost predicate Tops(rows: seq<ShopRow>, tid: int, now: int, best: map<string, ShopRow>) {
    forall r :: r in rows && Belongs(r, tid) && Pid(r) in best ==>
      ValidTime(r) && ValidTime(best[Pid(r)]) && NoBetter(r, best[Pid(r)], now)
  }

  lemma {:induction false} GroupedTops(rows: seq<ShopRow>, tid: int, now: int)
    requires AllValid(rows)
    ensures Tops(rows, tid, now, Grouped(rows, tid, now).best)
    decreases |rows|
  {
    if rows != [] {
      var rest, last := rows[..|rows| - 1], rows[|rows| - 1];
      assert rows == rest + [last];
      GroupedTops(rest, tid, now);
      GroupedCovers(rest, tid, now);
      GroupedIsWellFormed(rest, tid, now);
      var g := Grouped(rest, tid, now);
      if Belongs(last, tid) && Pid(last) != "" {
        AddRowTops(rest, last, tid, now, g);
      } else {
        forall r | r in rows && Belongs(r, tid) && Pid(r) in g.best ensures r in rest {
          assert Pid(r) != "";
        }
      }
    }
  }

  lemma AddRowTops(rest: seq<ShopRow>, last: ShopRow, tid: int, now: int, g: Groups)
    requires AllValid(rest + [last]) && Tops(rest, tid, now, g.best) && WellFormed(g)
    requires Covers(g.best, rest, tid)
    requires Belongs(last, tid) && Pid(last) != ""
    ensures Tops(rest + [last], tid, now, AddRow(g, last, now).best)
  {
    var pid := Pid(last);
    var best := AddRow(g, last, now).best;
    assert last in rest + [last];
    forall r | r in rest + [last] && Belongs(r, tid) && Pid(r) in best
      ensures ValidTime(r) && ValidTime(best[Pid(r)]) && NoBetter(r, best[Pid(r)], now)
    {
      if pid in g.best {
        assert FromRows(g.best[pid], rest, tid);
        PickIsTheLarger(g.best[pid], last, now);
        if r in rest && Pid(r) == pid { NoBetterTrans(r, g.best[pid], best[pid], now); }
      }
    }
  }

  lemma {:induction false} ValuesMembers(order: seq<string>, best: map<string, ShopRow>, v: ShopRow)
    requires forall k :: k in order ==> k in best
    ensures v in Values(order, best) <==> exists k :: k in order && best[k] == v
    decreases |order|
  {
    if order != [] {
      var rest, last := order[..|order| - 1], order[|order| - 1];
      assert order == rest + [last];
      ValuesMembers(rest, best, v);
    }
  }

  lemma {:induction false} WithoutIdMembers(rows: seq<ShopRow>, tid: int, v: ShopRow)
    ensures v in WithoutId(rows, tid) <==> v in rows && Belongs(v, tid) && Pid(v) == ""
    ensures multiset(WithoutId(rows, tid))[v] == if Belongs(v, tid) && Pid(v) == "" then multiset(rows)[v] else 0
    decreases |rows|
  {
    if rows != [] {
      var rest, last := rows[..|rows| - 1], rows[|rows| - 1];
      assert rows == rest + [last];
      WithoutIdMembers(rest, tid, v);
    }
  }

  ghost predicate Winner(g: Groups, r: ShopRow) { exists k :: k in g.best && g.best[k] == r }

  lemma KeptMembers(rows: seq<ShopRow>, tid: int, now: int, r: ShopRow)
    ensures r in Kept(rows, tid, now) <==>
      Winner(Grouped(rows, tid, now), r) || (r in rows && Belongs(r, tid) && Pid(r) == "")
  {
    GroupedIsWellFormed(rows, tid, now);
    var g := Grouped(rows, tid, now);
    ValuesMembers(g.order, g.best, r);
    WithoutIdMembers(rows, tid, r);
  }

  /** Its equals and betters under the same platform id, within the tenant. */
  ghost predicate IsBest(r: ShopRow, rows: seq<ShopRow>, tid: int, now: int) {
    forall c :: c in rows && Belongs(c, tid) && Pid(c) == Pid(r) ==> ValidTime(c) && ValidTime(r) && NoBetter(c, r, now)
  }

  lemma WinnerIff(rows: seq<ShopRow>, tid: int, now: int, r: ShopRow)
    requires AllValid(rows) && DistinctIds(rows)
    ensures Winner(Grouped(rows, tid, now), r) <==> r in rows && Belongs(r, tid) && Pid(r) != "" && IsBest(r, rows, tid, now)
  {
    GroupedIsWellFormed(rows, tid, now);
    GroupedCovers(rows, tid, now);
    GroupedTops(rows, tid, now);
    var best := Grouped(rows, tid, now).best;
    var pid := Pid(r);
    if Winner(Grouped(rows, tid, now), r) {
      var k :| k in best && best[k] == r;
      assert pid == k && FromRows(best[k], rows, tid);
    }
    if r in rows && Belongs(r, tid) && pid != "" && IsBest(r, rows, tid, now) {
      assert pid in best && Pid(best[pid]) == pid && FromRows(best[pid], rows, tid);
      TiesAreOne(rows, r, best[pid], now);
    }
  }

  lemma TiesAreOne(rows: seq<ShopRow>, a: ShopRow, b: ShopRow, now: int)
    requires DistinctIds(rows) && a in rows && b in rows && ValidTime(a) && ValidTime(b)
    requires NoBetter(a, b, now) && NoBetter(b, a, now)
    ensures a == b
  {
    assert a.shopId == b.shopId;
  }

  /**
   * With distinct shop ids and readable times: exactly those rows of the tenant stay that have no platform id, or that no
   * other row with the same platform id beats. No order of the input appears in this condition.
   */
  lemma KeptIff(rows: seq<ShopRow>, tid: int, now: int, r: ShopRow)
    requires AllValid(rows) && DistinctIds(rows)
    ensures r in Kept(rows, tid, now) <==> r in rows && Belongs(r, tid) && (Pid(r) == "" || IsBest(r, rows, tid, now))
  {
    KeptMembers(rows, tid, now, r);
    WinnerIff(rows, tid, now, r);
  }

  /** So any rearrangement of the rows keeps the same ones. */
  lemma OrderDoesNotMatter(rows: seq<ShopRow>, rows': seq<ShopRow>, tid: int, now: int, r: ShopRow)
    requires AllValid(rows) && DistinctIds(rows) && multiset(rows) == multiset(rows')
    ensures r in Kept(rows, tid, now) <==> r in Kept(rows', tid, now)
  {
    forall x ensures x in rows <==> x in rows' {
      assert x in rows <==> x in multiset(rows);
      assert x in rows' <==> x in multiset(rows');
    }
    KeptIff(rows, tid, now, r);
    KeptIff(rows', tid, now, r);
  }

  /** All rows are the tenant's, and no two share a platform id. */
  ghost predicate OnePerId(rows: seq<ShopRow>, tid: int) {
    && (forall i :: 0 <= i < |rows| ==> Belongs(rows[i], tid))
    && (forall i, j :: 0 <= i < j < |rows| && Pid(rows[i]) != "" ==> Pid(rows[i]) != Pid(rows[j]))
  }

  /** For any input: of the rows that stay, no two share a platform id. */
  lemma OneRowPerPlatformId(rows: seq<ShopRow>, tid: int, now: int)
    ensures OnePerId(Kept(rows, tid, now), tid)
  {
    GroupedIsWellFormed(rows, tid, now);
    var g := Grouped(rows, tid, now);
    var v := Values(g.order, g.best);
    var kept := Kept(rows, tid, now);
    ValuesAt(g.order, g.best);
    KeptBelongs(rows, tid, now);
    forall i, j | 0 <= i < j < |kept| && Pid(kept[i]) != "" ensures Pid(kept[i]) != Pid(kept[j]) {
      if i >= |v| { WithoutIdMembers(rows, tid, kept[i]); }
      if j >= |v| { WithoutIdMembers(rows, tid, kept[j]); }
    }
  }

  /** Every platform id of the tenant keeps a row, and the rows without one stay, as often as they occur. */
  lemma NoPlatformIdIsLost(rows: seq<ShopRow>, tid: int, now: int, r: ShopRow)
    requires r in rows && Belongs(r, tid)
    ensures Pid(r) != "" ==> exists k :: k in Kept(rows, tid, now) && Pid(k) == Pid(r) && k in rows
    ensures Pid(r) == "" ==> multiset(Kept(rows, tid, now))[r] == multiset(rows)[r]
  {
    GroupedIsWellFormed(rows, tid, now);
    GroupedCovers(rows, tid, now);
    var g := Grouped(rows, tid, now);
    if Pid(r) != "" {
      var k := g.best[Pid(r)];
      assert FromRows(k, rows, tid) && Winner(g, k);
      KeptMembers(rows, tid, now, k);
    } else {
      WithoutIdMembers(rows, tid, r);
      ValuesMembers(g.order, g.best, r);
    }
  }

  lemma {:induction false} ValuesAt(order: seq<string>, best: map<string, ShopRow>)
    requires forall k :: k in order ==> k in best
    ensures |Values(order, best)| == |order|
    ensures forall i :: 0 <= i < |order| ==> Values(order, best)[i] == best[order[i]]
    decreases |order|
  {
    if order != [] {
      var rest := order[..|order| - 1];
      assert forall k :: k in rest ==> k in order;
      ValuesAt(rest, best);
    }
  }

  // ---------------------------------------------------------------- once is enough

  lemma {:induction false} ValuesIgnoreOtherKeys(order: seq<string>, best: map<string, ShopRow>, k: string, v: ShopRow)
    requires (forall x :: x in order ==> x in best) && k !in order
    ensures Values(order, best[k := v]) == Values(order, best)
    decreases |order|
  {
    if order != [] { ValuesIgnoreOtherKeys(order[..|order| - 1], best, k, v); }
  }

  lemma NewIdIsAppended(rest: seq<ShopRow>, last: ShopRow, tid: int, now: int)
    requires Belongs(last, tid) && Pid(last) != "" && Pid(last) !in Grouped(rest, tid, now).best
    ensures multiset(Kept(rest + [last], tid, now)) == multiset(Kept(rest, tid, now)) + multiset{last}
  {
    var rows := rest + [last];
    assert rows[..|rows| - 1] == rest;
    GroupedIsWellFormed(rest, tid, now);
    var g := Grouped(rest, tid, now);
    var g' := Grouped(rows, tid, now);
    assert g'.order == g.order + [Pid(last)] && g'.order[..|g'.order| - 1] == g.order;
    ValuesIgnoreOtherKeys(g.order, g.best, Pid(last), last);
    assert Values(g'.order, g'.best) == Values(g.order, g.best) + [last];
  }

  lemma NoIdIsAppended(rest: seq<ShopRow>, last: ShopRow, tid: int, now: int)
    requires Belongs(last, tid) && Pid(last) == ""
    ensures Kept(rest + [last], tid, now) == Kept(rest, tid, now) + [last]
  {
    var rows := rest + [last];
    assert rows[..|rows| - 1] == rest;
    GroupedIsWellFormed(rest, tid, now);
  }

  lemma {:induction false} OnePerIdIsKept(rows: seq<ShopRow>, tid: int, now: int)
    requires OnePerId(rows, tid)
    ensures multiset(Kept(rows, tid, now)) == multiset(rows)
    decreases |rows|
  {
    if rows != [] {
      var rest, last := rows[..|rows| - 1], rows[|rows| - 1];
      assert rows == rest + [last];
      OnePerIdIsKept(rest, tid, now);
      if Pid(last) != "" {
        OldIdsDiffer(rest, last, tid, now);
        NewIdIsAppended(rest, last, tid, now);
      } else {
        NoIdIsAppended(rest, last, tid, now);
      }
    }
  }

  lemma OldIdsDiffer(rest: seq<ShopRow>, last: ShopRow, tid: int, now: int)
    requires OnePerId(rest + [last], tid) && Pid(last) != ""
    ensures Pid(last) !in Grouped(rest, tid, now).best
  {
    GroupedIsWellFormed(rest, tid, now);
    GroupedCovers(rest, tid, now);
    var best := Grouped(rest, tid, now).best;
    var rows := rest + [last];
    assert Pid(last) in best ==> FromRows(best[Pid(last)], rest, tid);
    forall i | 0 <= i < |rest| ensures Pid(last) == "" || Pid(rest[i]) != Pid(last) {
      assert rows[i] == rest[i] && rows[|rest|] == last;
    }
  }

  lemma {:induction false} OnePerIdRearranged(rows: seq<ShopRow>, rows': seq<ShopRow>, tid: int)
    requires OnePerId(rows, tid) && multiset(rows) == multiset(rows')
    ensures OnePerId(rows', tid)
  {
    forall i | 0 <= i < |rows'| ensures Belongs(rows'[i], tid) { assert rows'[i] in multiset(rows); }
    forall i, j | 0 <= i < j < |rows'| && Pid(rows'[i]) != "" ensures Pid(rows'[i]) != Pid(rows'[j]) {
      if Pid(rows'[i]) == Pid(rows'[j]) { TwoOfOneId(rows, rows', tid, i, j); }
    }
  }

  lemma TwoOfOneId(rows: seq<ShopRow>, rows': seq<ShopRow>, tid: int, i: nat, j: nat)
    requires multiset(rows) == multiset(rows') && i < j < |rows'| && Pid(rows'[i]) == Pid(rows'[j]) != ""
    ensures exists a, b :: 0 <= a < b < |rows| && Pid(rows[a]) == Pid(rows[b]) == Pid(rows'[i])
  {
    var x, y := rows'[i], rows'[j];
    assert x in multiset(rows) && y in multiset(rows);
    if x != y {
      var a :| 0 <= a < |rows| && rows[a] == x;
      var b :| 0 <= b < |rows| && rows[b] == y;
      if a < b { assert Pid(rows[a]) == Pid(rows[b]); } else { assert Pid(rows[b]) == Pid(rows[a]); }
    } else {
      assert rows' == rows'[..j] + [y] + rows'[j + 1..];
      assert rows'[..j][i] == x;
      assert multiset(rows')[x] >= 2;
      var a := TwoPlaces(rows, x);
      assert Pid(rows[a]) == Pid(x);
    }
  }

  lemma {:induction false} TwoPlaces(rows: seq<ShopRow>, x: ShopRow) returns (a: nat)
    requires multiset(rows)[x] >= 2
    ensures exists b :: a < b < |rows| && rows[a] == rows[b] == x
    decreases |rows|
  {
    var rest, last := rows[..|rows| - 1], rows[|rows| - 1];
    assert rows == rest + [last];
    if last == x {
      assert x in multiset(rest);
      a :| 0 <= a < |rest| && rest[a] == x;
      assert rows[a] == rows[|rows| - 1] == x;
    } else {
      a := TwoPlaces(rest, x);
      var b :| a < b < |rest| && rest[a] == rest[b] == x;
      assert rows[a] == rows[b] == x;
    }
  }

  /** For any input, deduplicating the result again keeps every row of it. */
  lemma DedupeTwiceIsOnce(rows: seq<ShopRow>, tid: int, now: int, later: int, localeCompare: (string, string) -> int)
    ensures multiset(Deduped(Deduped(rows, tid, now, localeCompare), tid, later, localeCompare))
      == multiset(Deduped(rows, tid, now, localeCompare))
  {
    var kept := Kept(rows, tid, now);
    var once := Deduped(rows, tid, now, localeCompare);
    OneRowPerPlatformId(rows, tid, now);
    SortRowsKeeps(kept, localeCompare);
    OnePerIdRearranged(kept, once, tid);
    OnePerIdIsKept(once, tid, later);
    SortRowsKeeps(Kept(once, tid, later), localeCompare);
  }

  lemma KeptBelongs(rows: seq<ShopRow>, tid: int, now: int)
    ensures forall i :: 0 <= i < |Kept(rows, tid, now)| ==> Belongs(Kept(rows, tid, now)[i], tid)
  {
    GroupedCovers(rows, tid, now);
    var kept := Kept(rows, tid, now);
    var best := Grouped(rows, tid, now).best;
    forall i | 0 <= i < |kept| ensures Belongs(kept[i], tid) {
      KeptMembers(rows, tid, now, kept[i]);
      if k :| k in best && best[k] == kept[i] { assert FromRows(best[k], rows, tid); }
    }
  }
}
