/**
 * Which row of a platform shop stays, said on the fields of the rows alone, and in what order the rows come out.
 */
module ShopStanding {
  import opened Options
  import opened Text
  import opened ShopDedupe

  // ---------------------------------------------------------------- the fields that decide

  /** A token that is marked, or an access text that is not blank. */
  predicate HasToken(row: ShopRow) { row.hasToken || Trim(row.accessToken) != "" }

  predicate PastExpiry(row: ShopRow, now: int) {
    row.tokenExpireAt.Some? && row.tokenExpireAt.value.At? && row.tokenExpireAt.value.ms < now
  }

  predicate CalledExpired(row: ShopRow) { Lower(row.tokenStatus) == "expired" }

  /** Called missing; an access text overrules that. */
  predicate CalledMissing(row: ShopRow) { Lower(row.tokenStatus) == "missing" && Trim(row.accessToken) == "" }

  predicate Live(row: ShopRow, now: int) { HasToken(row) && !PastExpiry(row, now) && !CalledExpired(row) && !CalledMissing(row) }

  predicate Spent(row: ShopRow, now: int) { HasToken(row) && (PastExpiry(row, now) || CalledExpired(row)) }

  /** A live token before a spent one, any before none. */
  predicate BetterToken(a: ShopRow, b: ShopRow, now: int) {
    (Live(a, now) && !Live(b, now)) || (Spent(a, now) && !Spent(b, now) && !Live(b, now))
  }

  predicate SameToken(a: ShopRow, b: ShopRow, now: int) {
    (Live(a, now) <==> Live(b, now)) && (Spent(a, now) <==> Spent(b, now))
  }

  /** Called deleted, by the status of the shop if it has one. */
  predicate CalledDeleted(row: ShopRow) {
    Lower(row.shopStatus) == "deleted" || (row.shopStatus == "" && Lower(row.status) == "deleted")
  }

  predicate Readable(row: ShopRow) { row.tokenUpdatedAt != Some(NotANumber) }

  /** When its token was renewed; never counts as the start of time. */
  function Renewed(row: ShopRow): int
    requires Readable(row)
  {
    if row.tokenUpdatedAt.Some? then row.tokenUpdatedAt.value.ms else 0
  }

  /** The better token, then not deleted, then renewed later, then the larger id. */
  predicate Beats(a: ShopRow, b: ShopRow, now: int)
    requires Readable(a) && Readable(b)
  {
    || BetterToken(a, b, now)
    || (SameToken(a, b, now) && !CalledDeleted(a) && CalledDeleted(b))
    || (SameToken(a, b, now) && CalledDeleted(a) == CalledDeleted(b)
        && (Renewed(a) > Renewed(b) || (Renewed(a) == Renewed(b) && a.shopId > b.shopId)))
  }

  predicate SamePlatform(a: ShopRow, b: ShopRow) { Lower(Trim(a.platformShopId)) == Lower(Trim(b.platformShopId)) }

  // ---------------------------------------------------------------- they are what the choice goes by

  lemma StatusByFields(row: ShopRow, now: int)
    ensures NormalizeTokenStatus(row, now) == if Live(row, now) then Active else if Spent(row, now) then Expired else Missing
    ensures !(Live(row, now) && Spent(row, now))
  {
  }

  lemma RanksByFields(a: ShopRow, b: ShopRow, now: int)
    ensures var ra, rb := TokenRank(NormalizeTokenStatus(a, now)), TokenRank(NormalizeTokenStatus(b, now));
      (BetterToken(a, b, now) <==> ra > rb) && (SameToken(a, b, now) <==> ra == rb)
  {
    StatusByFields(a, now);
    StatusByFields(b, now);
  }

  lemma DeletedByFields(row: ShopRow)
    ensures Deleted(row) <==> CalledDeleted(row)
  {
    assert Lower("active") != "deleted" && Lower("") != "deleted" by { assert |Lower("active")| == 6; }
  }

  lemma SameStateBeats(a: ShopRow, b: ShopRow, now: int)
    requires Readable(a) && Readable(b) && SameToken(b, a, now) && CalledDeleted(a) == CalledDeleted(b)
    ensures ValidTime(a) && ValidTime(b) && (Beats(b, a, now) <==> !NoBetter(b, a, now))
  {
    RanksByFields(b, a, now);
    DeletedByFields(a);
    DeletedByFields(b);
    assert Deleted(a) == Deleted(b);
  }

  lemma OtherStateBeats(a: ShopRow, b: ShopRow, now: int)
    requires Readable(a) && Readable(b) && SameToken(b, a, now) && CalledDeleted(a) != CalledDeleted(b)
    ensures ValidTime(a) && ValidTime(b) && (Beats(b, a, now) <==> !NoBetter(b, a, now))
  {
    RanksByFields(b, a, now);
    DeletedByFields(a);
    DeletedByFields(b);
    assert Deleted(a) != Deleted(b);
  }

  lemma OtherTokenBeats(a: ShopRow, b: ShopRow, now: int)
    requires Readable(a) && Readable(b) && !SameToken(b, a, now)
    ensures ValidTime(a) && ValidTime(b) && (Beats(b, a, now) <==> !NoBetter(b, a, now))
  {
    RanksByFields(b, a, now);
  }

  lemma BeatsByFields(a: ShopRow, b: ShopRow, now: int)
    requires Readable(a) && Readable(b)
    ensures ValidTime(a) && ValidTime(b) && (Beats(b, a, now) <==> !NoBetter(b, a, now))
  {
    if !SameToken(b, a, now) {
      OtherTokenBeats(a, b, now);
    } else if CalledDeleted(a) == CalledDeleted(b) {
      SameStateBeats(a, b, now);
    } else {
      OtherStateBeats(a, b, now);
    }
  }

  /** Of two readable rows the first stays only when it beats the second: of equals the later one does. */
  lemma PickByFields(a: ShopRow, b: ShopRow, now: int)
    requires Readable(a) && Readable(b)
    ensures PickBetterShopRow(a, b, now) == if Beats(a, b, now) then a else b
  {
    RanksByFields(a, b, now);
    DeletedByFields(a);
    DeletedByFields(b);
  }

  lemma BlankIsNoId(row: ShopRow)
    ensures Pid(row) == "" <==> Trim(row.platformShopId) == ""
  {
    CaseMaps(Trim(row.platformShopId));
  }

  // ---------------------------------------------------------------- which rows stay

  ghost predicate AllReadable(rows: seq<ShopRow>) { forall r :: r in rows ==> Readable(r) }

  /** No row of the tenant under the same platform id beats it. */
  ghost predicate Unbeaten(r: ShopRow, rows: seq<ShopRow>, tid: int, now: int)
    requires AllReadable(rows) && r in rows
  {
    forall c :: c in rows && c.tenantId == tid && SamePlatform(c, r) ==> !Beats(c, r, now)
  }

  /**
   * With distinct shop ids and readable times: of the tenant's rows exactly those stay that have a blank platform id, or that no
   * row under the same id beats; the ids are compared trimmed and without case.
   */
  lemma KeptIffUnbeaten(rows: seq<ShopRow>, tid: int, now: int, r: ShopRow)
    requires AllReadable(rows) && DistinctIds(rows)
    ensures r in Kept(rows, tid, now) <==>
      r in rows && r.tenantId == tid && (Trim(r.platformShopId) == "" || Unbeaten(r, rows, tid, now))
  {
    forall c | c in rows ensures ValidTime(c) { BeatsByFields(c, c, now); }
    KeptIff(rows, tid, now, r);
    BlankIsNoId(r);
    if r in rows {
      forall c | c in rows ensures ValidTime(r) && ValidTime(c) && (Beats(c, r, now) <==> !NoBetter(c, r, now)) {
        BeatsByFields(r, c, now);
      }
    }
  }

  lemma BeatsOneWay(a: ShopRow, b: ShopRow, now: int)
    requires Readable(a) && Readable(b) && Beats(a, b, now)
    ensures !Beats(b, a, now)
  {
    BeatsByFields(a, b, now);
    BeatsByFields(b, a, now);
  }

  lemma NotBeatenOn(a: ShopRow, b: ShopRow, c: ShopRow, now: int)
    requires Readable(a) && Readable(b) && Readable(c) && !Beats(a, b, now) && !Beats(b, c, now)
    ensures !Beats(a, c, now)
  {
    BeatsByFields(b, a, now);
    BeatsByFields(c, b, now);
    BeatsByFields(c, a, now);
    NoBetterTrans(a, b, c, now);
  }

  /** No row of the tenant under its platform id beats it, and it beats those behind it. */
  ghost predicate LastBestAt(rows: seq<ShopRow>, tid: int, now: int, i: nat)
    requires AllReadable(rows) && i < |rows|
  {
    && rows[i].tenantId == tid
    && forall j :: 0 <= j < |rows| && rows[j].tenantId == tid && SamePlatform(rows[j], rows[i]) ==>
         !Beats(rows[j], rows[i], now) && (j > i ==> Beats(rows[i], rows[j], now))
  }

  ghost predicate StandsFor(rows: seq<ShopRow>, tid: int, now: int, i: nat, row: ShopRow)
    requires AllReadable(rows)
  {
    i < |rows| && rows[i] == row && LastBestAt(rows, tid, now, i)
  }

  ghost predicate LastBests(best: map<string, ShopRow>, rows: seq<ShopRow>, tid: int, now: int)
    requires AllReadable(rows)
  {
    forall k :: k in best ==> exists i: nat :: StandsFor(rows, tid, now, i, best[k])
  }

  /** A row of another platform id behind them, or one that is beaten, changes nothing. */
  lemma StillStands(rest: seq<ShopRow>, last: ShopRow, tid: int, now: int, i: nat, row: ShopRow)
    requires AllReadable(rest + [last]) && AllReadable(rest) && StandsFor(rest, tid, now, i, row)
    requires last.tenantId != tid || !SamePlatform(last, row) || Beats(row, last, now)
    ensures StandsFor(rest + [last], tid, now, i, row)
  {
    var rows := rest + [last];
    assert last in rows && row in rows;
    forall j | 0 <= j < |rows| && rows[j].tenantId == tid && SamePlatform(rows[j], row)
      ensures !Beats(rows[j], row, now) && (j > i ==> Beats(row, rows[j], now))
    {
      if j < |rest| { assert rows[j] == rest[j]; } else { BeatsOneWay(row, last, now); }
    }
  }

  /** One that is not beaten takes its place. */
  lemma LastStands(rest: seq<ShopRow>, last: ShopRow, tid: int, now: int, i: nat, row: ShopRow)
    requires AllReadable(rest + [last]) && AllReadable(rest) && StandsFor(rest, tid, now, i, row)
    requires last.tenantId == tid && SamePlatform(last, row) && !Beats(row, last, now)
    ensures StandsFor(rest + [last], tid, now, |rest|, last)
  {
    var rows := rest + [last];
    assert last in rows && row in rows;
    forall j | 0 <= j < |rows| && rows[j].tenantId == tid && SamePlatform(rows[j], last)
      ensures !Beats(rows[j], last, now)
    {
      if j < |rest| {
        assert rows[j] == rest[j] && rest[j] in rows;
        NotBeatenOn(rest[j], row, last, now);
      } else {
        BeatsByFields(last, last, now);
      }
    }
  }

  lemma FirstStands(rest: seq<ShopRow>, last: ShopRow, tid: int, now: int)
    requires AllReadable(rest + [last]) && last.tenantId == tid
    requires forall r :: r in rest && r.tenantId == tid ==> !SamePlatform(r, last)
    ensures StandsFor(rest + [last], tid, now, |rest|, last)
  {
    assert last in rest + [last];
    BeatsByFields(last, last, now);
  }

  lemma ChosenStands(rest: seq<ShopRow>, last: ShopRow, tid: int, now: int, i: nat, row: ShopRow)
    requires AllReadable(rest + [last]) && AllReadable(rest) && StandsFor(rest, tid, now, i, row)
    requires last.tenantId == tid && SamePlatform(last, row)
    ensures exists j: nat :: StandsFor(rest + [last], tid, now, j, PickBetterShopRow(row, last, now))
  {
    assert row in rest + [last] && last in rest + [last];
    PickByFields(row, last, now);
    if Beats(row, last, now) {
      StillStands(rest, last, tid, now, i, row);
    } else {
      LastStands(rest, last, tid, now, i, row);
    }
  }

  lemma AddRowStands(rest: seq<ShopRow>, last: ShopRow, tid: int, now: int, g: Groups)
    requires AllReadable(rest + [last]) && AllReadable(rest) && LastBests(g.best, rest, tid, now)
    requires WellFormed(g) && Covers(g.best, rest, tid) && last.tenantId == tid && Pid(last) != ""
    ensures LastBests(AddRow(g, last, now).best, rest + [last], tid, now)
  {
    var best, pid := AddRow(g, last, now).best, Pid(last);
    forall k | k in best ensures exists i: nat :: StandsFor(rest + [last], tid, now, i, best[k]) {
      if k in g.best {
        var i: nat :| StandsFor(rest, tid, now, i, g.best[k]);
        assert rest[i] in rest + [last] && last in rest + [last];
        if k == pid {
          ChosenStands(rest, last, tid, now, i, g.best[k]);
        } else {
          StillStands(rest, last, tid, now, i, g.best[k]);
        }
      } else {
        FirstStands(rest, last, tid, now);
      }
    }
  }

  lemma {:induction false} GroupedStands(rows: seq<ShopRow>, tid: int, now: int)
    requires AllReadable(rows)
    ensures LastBests(Grouped(rows, tid, now).best, rows, tid, now)
    decreases |rows|
  {
    if rows != [] {
      var rest, last := rows[..|rows| - 1], rows[|rows| - 1];
      assert rows == rest + [last];
      GroupedStands(rest, tid, now);
      GroupedIsWellFormed(rest, tid, now);
      GroupedCovers(rest, tid, now);
      var g := Grouped(rest, tid, now);
      if last.tenantId == tid && Pid(last) != "" {
        AddRowStands(rest, last, tid, now, g);
      } else {
        forall k | k in g.best ensures exists i: nat :: StandsFor(rows, tid, now, i, g.best[k]) {
          var i: nat :| StandsFor(rest, tid, now, i, g.best[k]);
          StillStands(rest, last, tid, now, i, g.best[k]);
        }
      }
    }
  }

  /**
   * With readable times, and whatever the shop ids: a row with a platform id stays exactly when it is, in some place, unbeaten and
   * the last of those that are.
   */
  lemma TheLastBestStays(rows: seq<ShopRow>, tid: int, now: int, r: ShopRow)
    requires AllReadable(rows) && Trim(r.platformShopId) != ""
    ensures r in Kept(rows, tid, now) <==> exists i :: 0 <= i < |rows| && rows[i] == r && LastBestAt(rows, tid, now, i)
  {
    BlankIsNoId(r);
    KeptMembers(rows, tid, now, r);
    GroupedStands(rows, tid, now);
    GroupedIsWellFormed(rows, tid, now);
    GroupedCovers(rows, tid, now);
    var best := Grouped(rows, tid, now).best;
    if r in Kept(rows, tid, now) {
      var i: nat :| StandsFor(rows, tid, now, i, best[Pid(r)]);
    }
    if i :| 0 <= i < |rows| && rows[i] == r && LastBestAt(rows, tid, now, i) {
      var j: nat :| StandsFor(rows, tid, now, j, best[Pid(r)]);
      assert SamePlatform(rows[i], rows[j]) && SamePlatform(rows[j], rows[i]);
      assert rows[i] in rows && rows[j] in rows;
    }
  }

  /** The token rank of the row that stays is the highest. */
  ghost predicate TopRank(best: map<string, ShopRow>, rows: seq<ShopRow>, tid: int, now: int) {
    forall r :: r in rows && r.tenantId == tid && Pid(r) in best ==> !BetterToken(r, best[Pid(r)], now)
  }

  lemma PickHasTheBetterToken(a: ShopRow, b: ShopRow, r: ShopRow, now: int)
    requires !BetterToken(r, a, now) || !BetterToken(r, b, now)
    ensures !BetterToken(r, PickBetterShopRow(a, b, now), now)
  {
    RanksByFields(a, b, now);
    RanksByFields(b, a, now);
    RanksByFields(r, a, now);
    RanksByFields(r, b, now);
  }

  lemma AddRowTopRank(rest: seq<ShopRow>, last: ShopRow, tid: int, now: int, g: Groups)
    requires TopRank(g.best, rest, tid, now) && Covers(g.best, rest, tid) && last.tenantId == tid && Pid(last) != ""
    ensures TopRank(AddRow(g, last, now).best, rest + [last], tid, now)
  {
    var best, pid := AddRow(g, last, now).best, Pid(last);
    forall r | r in rest + [last] && r.tenantId == tid && Pid(r) in best ensures !BetterToken(r, best[Pid(r)], now) {
      RanksByFields(r, r, now);
      if Pid(r) == pid && pid in g.best { PickHasTheBetterToken(g.best[pid], last, r, now); }
    }
  }

  lemma {:induction false} RestTopRank(rest: seq<ShopRow>, last: ShopRow, tid: int, now: int, best: map<string, ShopRow>)
    requires TopRank(best, rest, tid, now) && (last.tenantId != tid || Pid(last) !in best)
    ensures TopRank(best, rest + [last], tid, now)
  {
  }

  lemma {:induction false} GroupedTopRank(rows: seq<ShopRow>, tid: int, now: int)
    ensures TopRank(Grouped(rows, tid, now).best, rows, tid, now)
    decreases |rows|
  {
    if rows != [] {
      var rest, last := rows[..|rows| - 1], rows[|rows| - 1];
      assert rows == rest + [last];
      GroupedTopRank(rest, tid, now);
      var g := Grouped(rest, tid, now);
      if last.tenantId == tid && Pid(last) != "" {
        GroupedCovers(rest, tid, now);
        AddRowTopRank(rest, last, tid, now, g);
      } else {
        GroupedIsWellFormed(rest, tid, now);
        RestTopRank(rest, last, tid, now, g.best);
      }
    }
  }

  /**
   * For any rows, whatever their times, ids and states: a row does not stay when another of its tenant and platform id has the
   * better token.
   */
  lemma TheBetterTokenStays(rows: seq<ShopRow>, tid: int, now: int, a: ShopRow, b: ShopRow)
    requires a in rows && a.tenantId == tid && Trim(a.platformShopId) != "" && SamePlatform(a, b) && BetterToken(a, b, now)
    ensures b !in Kept(rows, tid, now)
  {
    BlankIsNoId(a);
    KeptMembers(rows, tid, now, b);
    GroupedTopRank(rows, tid, now);
    GroupedIsWellFormed(rows, tid, now);
  }

  // ---------------------------------------------------------------- the order of the result

  /** localeCompare, where it orders texts and tells different ones apart. */
  ghost predicate OrdersTexts(compare: (string, string) -> int) {
    && (forall x, y :: compare(x, y) == 0 <==> x == y)
    && (forall x, y :: compare(x, y) <= 0 <==> compare(y, x) >= 0)
    && (forall x, y, z :: compare(x, y) <= 0 && compare(y, z) <= 0 ==> compare(x, z) <= 0)
  }

  /** By platform id, then by shop id. */
  predicate Before(a: ShopRow, b: ShopRow, compare: (string, string) -> int) {
    compare(a.platformShopId, b.platformShopId) < 0 || (a.platformShopId == b.platformShopId && a.shopId <= b.shopId)
  }

  ghost predicate Ordered(rows: seq<ShopRow>, compare: (string, string) -> int) {
    forall i, j :: 0 <= i < j < |rows| ==> Before(rows[i], rows[j], compare)
  }

  lemma {:induction false} InsertKeepsOrder(row: ShopRow, sorted: seq<ShopRow>, compare: (string, string) -> int)
    requires OrdersTexts(compare) && Ordered(sorted, compare)
    ensures Ordered(InsertRow(row, sorted, compare), compare)
    decreases |sorted|
  {
    if sorted != [] {
      var rest, last := sorted[..|sorted| - 1], sorted[|sorted| - 1];
      if CompareRows(row, last, compare) >= 0 {
        forall i | 0 <= i < |sorted| ensures Before(sorted[i], row, compare) { BeforeTrans(sorted[i], last, row, compare); }
      } else {
        InsertKeepsOrder(row, rest, compare);
        InsertRowKeeps(row, rest, compare);
        var part := InsertRow(row, rest, compare);
        forall i | 0 <= i < |part| ensures Before(part[i], last, compare) {
          assert part[i] in multiset(rest) + multiset{row};
        }
      }
    }
  }

  lemma BeforeTrans(a: ShopRow, b: ShopRow, c: ShopRow, compare: (string, string) -> int)
    requires OrdersTexts(compare) && (a == b || Before(a, b, compare)) && CompareRows(c, b, compare) >= 0
    ensures Before(a, c, compare)
  {
  }

  lemma {:induction false} SortIsOrdered(rows: seq<ShopRow>, compare: (string, string) -> int)
    requires OrdersTexts(compare)
    ensures Ordered(SortRows(rows, compare), compare)
    decreases |rows|
  {
    if rows != [] {
      SortIsOrdered(rows[..|rows| - 1], compare);
      InsertKeepsOrder(rows[|rows| - 1], SortRows(rows[..|rows| - 1], compare), compare);
    }
  }

  /** The rows of one platform id and shop id, in their order. */
  function Twins(rows: seq<ShopRow>, platformShopId: string, shopId: int): seq<ShopRow> {
    if rows == [] then []
    else
      var last := rows[|rows| - 1];
      var rest := Twins(rows[..|rows| - 1], platformShopId, shopId);
      if last.platformShopId == platformShopId && last.shopId == shopId then rest + [last] else rest
  }

  lemma {:induction false} InsertKeepsTwins(
      row: ShopRow, sorted: seq<ShopRow>, compare: (string, string) -> int, p: string, id: int)
    ensures Twins(InsertRow(row, sorted, compare), p, id) == Twins(sorted + [row], p, id)
    decreases |sorted|
  {
    assert (sorted + [row])[..|sorted|] == sorted;
    if sorted == [] {
      assert [] + [row] == [row];
    } else {
      var rest, last := sorted[..|sorted| - 1], sorted[|sorted| - 1];
      if CompareRows(row, last, compare) < 0 {
        InsertKeepsTwins(row, rest, compare, p, id);
        assert (rest + [row])[..|rest|] == rest;
        assert (InsertRow(row, rest, compare) + [last])[..|InsertRow(row, rest, compare)|] == InsertRow(row, rest, compare);
      }
    }
  }

  lemma {:induction false} SortIsStable(rows: seq<ShopRow>, compare: (string, string) -> int, p: string, id: int)
    ensures Twins(SortRows(rows, compare), p, id) == Twins(rows, p, id)
    decreases |rows|
  {
    if rows != [] {
      var rest, last := rows[..|rows| - 1], rows[|rows| - 1];
      SortIsStable(rest, compare, p, id);
      InsertKeepsTwins(last, SortRows(rest, compare), compare, p, id);
      var sorted := SortRows(rest, compare);
      assert (sorted + [last])[..|sorted|] == sorted;
    }
  }

  /**
   * The result is in order of the platform ids and, under one of them, of the shop ids; rows that agree in both stand as they
   * were kept.
   */
  lemma DedupedIsInOrder(rows: seq<ShopRow>, tid: int, now: int, compare: (string, string) -> int, p: string, id: int)
    requires OrdersTexts(compare)
    ensures Ordered(Deduped(rows, tid, now, compare), compare)
    ensures Twins(Deduped(rows, tid, now, compare), p, id) == Twins(Kept(rows, tid, now), p, id)
  {
    SortIsOrdered(Kept(rows, tid, now), compare);
    SortIsStable(Kept(rows, tid, now), compare, p, id);
  }
}
