/** Which rows the dashboard clause admits, compared with the classification of those rows. */
module OrderFilterRows {
  import opened Options
  import opened Text
  import opened OrderStatus
  import opened OrderFilter
  import opened OrderFilterSql

  ghost predicate ListOf(list: seq<string>, p: Wanted) { forall v :: v in list <==> v in Collected(p) }

  /** The row is in the result of a query with this clause. */
  predicate Admits(f: Filter, fallback: bool, unpaid: seq<string>, valid: seq<string>, row: OrderRow) {
    f == All || Eval(BoundClause(f, fallback, unpaid, valid), row) == True
  }

  // ---------------------------------------------------------------- the parts of the clause, two-valued

  lemma {:induction false} EvalLikeAt(t: Term, part: string, row: OrderRow, v: string)
    requires Value(t, row) == Some(v)
    ensures Eval(Like(t, part), row) == Truth(LikeContains(Lower(v), Lower(part)))
  {
  }

  lemma {:induction false} EvalInAt(t: Term, list: seq<string>, row: OrderRow)
    ensures Value(t, row).Some? ==> Eval(In(t, list), row) == Truth(CiInSeq(Value(t, row).value, list))
    ensures Value(t, row).None? ==> Eval(In(t, list), row) == Undefined
  {
  }

  lemma {:induction false} Or3(a: Cond, b: Cond, c: Cond, row: OrderRow)
    ensures Eval(Or(Or(a, b), c), row) == OrT(OrT(Eval(a, row), Eval(b, row)), Eval(c, row))
  {
  }

  lemma {:induction false} Or4(a: Cond, b: Cond, c: Cond, d: Cond, row: OrderRow)
    ensures Eval(Or(Or(Or(a, b), c), d), row) == OrT(OrT(OrT(Eval(a, row), Eval(b, row)), Eval(c, row)), Eval(d, row))
  {
    Or3(a, b, c, row);
  }

  lemma {:induction false} AndNots(a: Cond, b: Cond, row: OrderRow)
    ensures Eval(And(Not(a), Not(b)), row) == AndT(NotT(Eval(a, row)), NotT(Eval(b, row)))
  {
  }

  lemma {:induction false} And2(a: Cond, b: Cond, row: OrderRow)
    ensures Eval(And(a, b), row) == AndT(Eval(a, row), Eval(b, row))
  {
  }

  lemma StatusValues(row: OrderRow)
    ensures Value(STATUS, row) == match row.orderStatus case Some(s) => Some(SqlTrim(s)) case None => None
    ensures Value(LowerOf(STATUS), row) == match row.orderStatus case Some(s) => Some(Lower(SqlTrim(s))) case None => None
    ensures Value(UpperOf(STATUS), row) == match row.orderStatus case Some(s) => Some(Upper(SqlTrim(s))) case None => None
  {
    assert Value(Col(StatusColumn), row) == row.orderStatus;
  }

  /** `TRIM(order_status) IN (...)` in terms of the canonical key. */
  predicate ListAdmits(p: Wanted, s: string) { Trim(s) == SqlTrim(s) && Wants(p, ToCanonicalOrderStatus(Some(s))) }

  lemma EvalIn(list: seq<string>, p: Wanted, row: OrderRow)
    requires ListOf(list, p)
    ensures row.orderStatus.Some? ==>
      Eval(BoundIn(list), row) == Truth(ListAdmits(p, row.orderStatus.value))
    ensures row.orderStatus.None? ==> Eval(BoundIn(list), row) != True
  {
    StatusValues(row);
    EvalInAt(STATUS, list, row);
    if row.orderStatus.Some? {
      CiInList(list, Collected(p), SqlTrim(row.orderStatus.value));
      InListIffCanon(p, row.orderStatus.value);
    }
  }

  lemma CiInList(list: seq<string>, all: set<string>, t: string)
    requires forall v :: v in list <==> v in all
    ensures CiInSeq(t, list) <==> CiIn(t, all)
    ensures list == [] ==> !CiIn(t, all)
  {
    if CiIn(t, all) {
      var v :| v in all && Lower(v) == Lower(t);
      var i :| 0 <= i < |list| && list[i] == v;
      assert Ci(list[i], t);
    }
    if CiInSeq(t, list) {
      var i :| 0 <= i < |list| && Ci(list[i], t);
      assert list[i] in all;
    }
  }

  lemma CancelLiterals()
    ensures Lower("cancelled") == "cancelled" && Lower("canceled") == "canceled" && Lower("cancel") == "cancel"
    ensures Lower("buyer_cancel") == "buyer_cancel" && Lower("seller_cancel") == "seller_cancel"
  {
    LowerStays("cancelled");
    LowerStays("canceled");
    LowerStays("cancel");
    LowerStays("buyer_cancel");
    LowerStays("seller_cancel");
  }

  lemma CancelCapitals()
    ensures Lower("CANCELLED") == "cancelled" && Lower("CANCELED") == "canceled"
  {
  }

  lemma CiInThree(t: string, a: string, b: string, c: string)
    ensures CiInSeq(t, [a, b, c]) <==> Ci(a, t) || Ci(b, t) || Ci(c, t)
  {
    var l := [a, b, c];
    assert l[0] == a && l[1] == b && l[2] == c;
  }

  lemma CiInTwo(t: string, a: string, b: string)
    ensures CiInSeq(t, [a, b]) <==> Ci(a, t) || Ci(b, t)
  {
    var l := [a, b];
    assert l[0] == a && l[1] == b;
  }

  lemma CiInFive(t: string, a: string, b: string, c: string, d: string, e: string)
    ensures CiInSeq(t, [a, b, c, d, e]) <==> Ci(a, t) || Ci(b, t) || Ci(c, t) || Ci(d, t) || Ci(e, t)
  {
    var l := [a, b, c, d, e];
    assert l[0] == a && l[1] == b && l[2] == c && l[3] == d && l[4] == e;
  }

  lemma CiWithoutLetters(s: string, t: string)
    requires NoLetters(s)
    ensures Ci(s, t) <==> t == s
  {
    LowerWithoutLetters(s, s);
    LowerWithoutLetters(t, s);
  }

  /** `TRIM(order_status) IN ('已取消','买家取消','卖家取消')` */
  lemma CancelLabels(t: string)
    ensures CiInSeq(t, ["已取消", "买家取消", "卖家取消"]) <==> t == "已取消" || t == "买家取消" || t == "卖家取消"
  {
    CiInThree(t, "已取消", "买家取消", "卖家取消");
    CiWithoutLetters("已取消", t);
    CiWithoutLetters("买家取消", t);
    CiWithoutLetters("卖家取消", t);
  }

  lemma CancelWords(t: string)
    ensures CiInSeq(Lower(t), ["cancelled", "canceled", "buyer_cancel", "seller_cancel", "cancel"]) <==>
      || Lower(t) == "cancelled" || Lower(t) == "canceled" || Lower(t) == "buyer_cancel" || Lower(t) == "seller_cancel"
      || Lower(t) == "cancel"
  {
    CiInFive(Lower(t), "cancelled", "canceled", "buyer_cancel", "seller_cancel", "cancel");
    CancelLiterals();
    CaseMaps(t);
  }

  lemma CancelUpperWords(t: string)
    ensures CiInSeq(Upper(t), ["CANCELLED", "CANCELED"]) ==> Lower(t) == "cancelled" || Lower(t) == "canceled"
    ensures Upper(t) == "CANCELLED" || Upper(t) == "CANCELED" ==> CiInSeq(Upper(t), ["CANCELLED", "CANCELED"])
  {
    CiInTwo(Upper(t), "CANCELLED", "CANCELED");
    CancelCapitals();
    CaseMaps(t);
  }

  lemma EvalCancelled(row: OrderRow)
    ensures row.orderStatus.Some? ==> Eval(SqlCancelled(), row) == Truth(CancelledText(SqlTrim(row.orderStatus.value)))
    ensures row.orderStatus.None? ==> Eval(SqlCancelled(), row) == Undefined
  {
    var labels := ["已取消", "买家取消", "卖家取消"];
    var words := ["cancelled", "canceled", "buyer_cancel", "seller_cancel", "cancel"];
    var capitals := ["CANCELLED", "CANCELED"];
    Or4(In(STATUS, labels), In(LowerOf(STATUS), words), Like(LowerOf(STATUS), "cancel"), In(UpperOf(STATUS), capitals), row);
    StatusValues(row);
    EvalInAt(STATUS, labels, row);
    EvalInAt(LowerOf(STATUS), words, row);
    EvalInAt(UpperOf(STATUS), capitals, row);
    if row.orderStatus.Some? {
      var t := SqlTrim(row.orderStatus.value);
      EvalLikeAt(LowerOf(STATUS), "cancel", row, Lower(t));
      LikeWithoutWildcard(Lower(t), "cancel");
      CaseMaps(t);
      CancelLiterals();
      CancelledTextIs(t);
    }
  }

  lemma CancelledTextIs(t: string)
    ensures CancelledText(t) <==>
      || CiInSeq(t, ["已取消", "买家取消", "卖家取消"])
      || CiInSeq(Lower(t), ["cancelled", "canceled", "buyer_cancel", "seller_cancel", "cancel"])
      || Contains(Lower(t), "cancel")
      || CiInSeq(Upper(t), ["CANCELLED", "CANCELED"])
  {
    CancelLabels(t);
    CancelWords(t);
    CancelUpperWords(t);
  }

  function StatusOrEmpty(row: OrderRow): string {
    match row.orderStatus case Some(s) => SqlTrim(s) case None => ""
  }

  lemma ValueOrEmpty(row: OrderRow)
    ensures Value(STATUS_OR_EMPTY, row) == Some(StatusOrEmpty(row))
    ensures Value(LowerOf(STATUS_OR_EMPTY), row) == Some(Lower(StatusOrEmpty(row)))
  {
    assert Value(Col(StatusColumn), row) == row.orderStatus;
    assert Value(OrEmpty(Col(StatusColumn)), row) == match row.orderStatus case Some(s) => Some(s) case None => Some("");
    assert SqlTrim("") == "";
  }

  lemma LikeIs(row: OrderRow)
    ensures Eval(Like(STATUS_OR_EMPTY, "样品"), row) == Truth(Contains(StatusOrEmpty(row), "样品"))
    ensures Eval(Like(LowerOf(STATUS_OR_EMPTY), "sample"), row) == Truth(Contains(Lower(StatusOrEmpty(row)), "sample"))
    ensures Eval(Like(LowerOf(STATUS_OR_EMPTY), "free_sample"), row) == Truth(LikeContains(Lower(StatusOrEmpty(row)), "free_sample"))
  {
    var t := StatusOrEmpty(row);
    ValueOrEmpty(row);
    CaseMaps(t);
    LowerContains(t, "样品");
    LowerWithoutLetters("样品", "样品");
    LowerStays("sample");
    LowerStays("free_sample");
    EvalLikeAt(STATUS_OR_EMPTY, "样品", row, t);
    EvalLikeAt(LowerOf(STATUS_OR_EMPTY), "sample", row, Lower(t));
    EvalLikeAt(LowerOf(STATUS_OR_EMPTY), "free_sample", row, Lower(t));
    LikeWithoutWildcard(Lower(t), "样品");
    LikeWithoutWildcard(Lower(t), "sample");
  }

  /** The wildcard in the third pattern lets more through than its text, but nothing the second does not. */
  lemma FreeSampleIsSample(t: string)
    requires LikeContains(t, "free_sample")
    ensures Contains(t, "sample")
  {
    assert "free_sample" == "free_" + "sample";
    LikeSuffix(t, "free_", "sample");
  }

  lemma EvalSample(row: OrderRow)
    ensures Eval(SqlStatusSample(), row) == Truth(SampleText(StatusOrEmpty(row)))
  {
    Or3(Like(STATUS_OR_EMPTY, "样品"), Like(LowerOf(STATUS_OR_EMPTY), "sample"), Like(LowerOf(STATUS_OR_EMPTY), "free_sample"), row);
    LikeIs(row);
    if LikeContains(Lower(StatusOrEmpty(row)), "free_sample") { FreeSampleIsSample(Lower(StatusOrEmpty(row))); }
  }

  lemma EvalNotEmpty(row: OrderRow)
    ensures Eval(NotEmpty(STATUS_OR_EMPTY), row) == Truth(StatusOrEmpty(row) != "")
  {
    ValueOrEmpty(row);
  }

  // ---------------------------------------------------------------- the admitted set

  /** The analytics_status comparisons, on a row that has one. */
  predicate ClassAdmits(f: Filter, c: string, row: OrderRow) {
    match f
    case All => true
    case CancelledOnly => Ci(c, "cancelled")
    case Sample => Ci(c, "sample")
    case UnpaidOnly => Ci(c, "unpaid")
    case Valid => Ci(c, "valid")
    case PaidOnly =>
      || (row.paidAt && !Ci(c, "sample") && !Ci(c, "unpaid"))
      || Ci(c, "valid")
      || (Ci(c, "cancelled") && Amount(row) > 0.0)
  }

  /** The fallback on order_status, on a row that has one. */
  predicate StatusAdmits(f: Filter, s: string, row: OrderRow) {
    var t := SqlTrim(s);
    match f
    case All => true
    case CancelledOnly => CancelledText(t)
    case Sample => SampleText(t)
    case UnpaidOnly => ListAdmits(WantUnpaid, s)
    case Valid => !CancelledText(t) && !SampleText(t) && ListAdmits(WantValid, s) && t != ""
    case PaidOnly =>
      && !SampleText(t) && t != ""
      && (|| row.paidAt
          || (!CancelledText(t) && !ListAdmits(WantUnpaid, s) && ListAdmits(WantValid, s))
          || (CancelledText(t) && Amount(row) > 0.0))
  }

  lemma {:induction false} EvalEqAt(t: Term, x: string, row: OrderRow)
    ensures Value(t, row).Some? ==> Eval(Eq(t, x), row) == Truth(Ci(Value(t, row).value, x))
    ensures Value(t, row).None? ==> Eval(Eq(t, x), row) == Undefined
  {
  }

  lemma {:induction false} PaidShape(p: Cond, c: Cond, v: Cond, d: Cond, m: Cond, row: OrderRow)
    ensures Eval(Or(And(p, Not(c)), Or(v, And(d, m))), row)
      == OrT(AndT(Eval(p, row), NotT(Eval(c, row))), OrT(Eval(v, row), AndT(Eval(d, row), Eval(m, row))))
  {
    And2(p, Not(c), row);
    And2(d, m, row);
    assert Eval(Or(v, And(d, m)), row) == OrT(Eval(v, row), Eval(And(d, m), row));
  }

  lemma EvalAnalyticsPart(f: Filter, row: OrderRow)
    requires f != All
    ensures row.analytics.Some? ==> Eval(AnalyticsPart(f), row) == Truth(ClassAdmits(f, row.analytics.value, row))
    ensures row.analytics.None? ==> Eval(AnalyticsPart(f), row) != True
  {
    var col := Col(AnalyticsColumn);
    assert Value(col, row) == row.analytics;
    EvalEqAt(col, "cancelled", row);
    EvalEqAt(col, "sample", row);
    EvalEqAt(col, "unpaid", row);
    EvalEqAt(col, "valid", row);
    if f == PaidOnly {
      EvalInAt(col, ["sample", "unpaid"], row);
      if row.analytics.Some? { CiInTwo(row.analytics.value, "sample", "unpaid"); }
      PaidShape(PaidAtIsNotNull, In(col, ["sample", "unpaid"]), Eq(col, "valid"), Eq(col, "cancelled"), AmountIsPositive, row);
    }
  }

  lemma {:induction false} LegacyValidShape(c: Cond, s: Cond, i: Cond, n: Cond, row: OrderRow)
    ensures Eval(And(And(And(Not(c), Not(s)), i), n), row)
      == AndT(AndT(AndT(NotT(Eval(c, row)), NotT(Eval(s, row))), Eval(i, row)), Eval(n, row))
  {
    AndNots(c, s, row);
    And2(And(Not(c), Not(s)), i, row);
  }

  lemma EvalLegacyValid(unpaid: Cond, valid: seq<string>, row: OrderRow)
    requires ListOf(valid, WantValid)
    ensures Eval(LegacyPart(Valid, unpaid, BoundIn(valid)), row) == True
      <==> row.orderStatus.Some? && StatusAdmits(Valid, row.orderStatus.value, row)
  {
    EvalCancelled(row);
    EvalSample(row);
    EvalNotEmpty(row);
    EvalIn(valid, WantValid, row);
    LegacyValidShape(SqlCancelled(), SqlStatusSample(), BoundIn(valid), NotEmpty(STATUS_OR_EMPTY), row);
  }

  lemma {:induction false} LegacyPaidShape(s: Cond, n: Cond, p: Cond, c: Cond, u: Cond, v: Cond, m: Cond, row: OrderRow)
    ensures Eval(And(And(Not(s), n), Or(Or(p, And(And(Not(c), Not(u)), v)), And(c, m))), row)
      == AndT(AndT(NotT(Eval(s, row)), Eval(n, row)),
              OrT(OrT(Eval(p, row), AndT(AndT(NotT(Eval(c, row)), NotT(Eval(u, row))), Eval(v, row))),
                  AndT(Eval(c, row), Eval(m, row))))
  {
    AndNots(c, u, row);
    And2(And(Not(c), Not(u)), v, row);
    And2(c, m, row);
    Or3(p, And(And(Not(c), Not(u)), v), And(c, m), row);
    And2(Not(s), n, row);
    And2(And(Not(s), n), Or(Or(p, And(And(Not(c), Not(u)), v)), And(c, m)), row);
  }

  function LegacyPaidTri(s: Tri, n: Tri, p: Tri, c: Tri, u: Tri, v: Tri, m: Tri): Tri {
    AndT(AndT(NotT(s), n), OrT(OrT(p, AndT(AndT(NotT(c), NotT(u)), v)), AndT(c, m)))
  }

  lemma EvalLegacyPaidShape(unpaid: seq<string>, valid: seq<string>, row: OrderRow)
    ensures Eval(LegacyPart(PaidOnly, BoundIn(unpaid), BoundIn(valid)), row)
      == LegacyPaidTri(Eval(SqlStatusSample(), row), Eval(NotEmpty(STATUS_OR_EMPTY), row), Truth(row.paidAt),
                       Eval(SqlCancelled(), row), Eval(BoundIn(unpaid), row), Eval(BoundIn(valid), row), Truth(Amount(row) > 0.0))
  {
    LegacyPaidShape(SqlStatusSample(), NotEmpty(STATUS_OR_EMPTY), PaidAtIsNotNull, SqlCancelled(), BoundIn(unpaid),
                    BoundIn(valid), AmountIsPositive, row);
  }

  lemma EvalLegacyPaid(unpaid: seq<string>, valid: seq<string>, row: OrderRow)
    requires ListOf(unpaid, WantUnpaid) && ListOf(valid, WantValid)
    ensures Eval(LegacyPart(PaidOnly, BoundIn(unpaid), BoundIn(valid)), row) == True
      <==> row.orderStatus.Some? && StatusAdmits(PaidOnly, row.orderStatus.value, row)
  {
    EvalLegacyPaidShape(unpaid, valid, row);
    EvalCancelled(row);
    EvalSample(row);
    EvalNotEmpty(row);
    EvalIn(unpaid, WantUnpaid, row);
    EvalIn(valid, WantValid, row);
  }

  lemma EvalLegacyPart(f: Filter, unpaid: seq<string>, valid: seq<string>, row: OrderRow)
    requires f != All && ListOf(unpaid, WantUnpaid) && ListOf(valid, WantValid)
    ensures Eval(LegacyPart(f, BoundIn(unpaid), BoundIn(valid)), row) == True
      <==> row.orderStatus.Some? && StatusAdmits(f, row.orderStatus.value, row)
  {
    match f
    case CancelledOnly => EvalCancelled(row);
    case Sample => EvalSample(row); EmptyIsNoSample();
    case UnpaidOnly =>
      EvalIn(unpaid, WantUnpaid, row);
    case Valid => EvalLegacyValid(BoundIn(unpaid), valid, row);
    case PaidOnly => EvalLegacyPaid(unpaid, valid, row);
  }

  lemma EmptyIsNoSample()
    ensures !SampleText("")
  {
    assert Lower("") == "";
  }

  lemma {:induction false} PackShape(a: Cond, l: Cond, row: OrderRow)
    ensures Eval(Pack(a, l, true), row) == OrT(Eval(a, row), AndT(Truth(row.analytics.None?), Eval(l, row)))
    ensures Eval(Pack(a, l, false), row) == Eval(a, row)
  {
    var isNull := IsNull(Col(AnalyticsColumn));
    assert Value(Col(AnalyticsColumn), row) == row.analytics;
    And2(isNull, l, row);
    assert Eval(Or(a, And(isNull, l)), row) == OrT(Eval(a, row), Eval(And(isNull, l), row));
  }

  /**
   * For every combination of NULL and non-NULL columns: a row with an analytics_status is judged by it alone, a row
   * without one passes exactly when the fallback is on, it has an order_status, and the fallback test on that holds.
   */
  lemma AdmittedRows(f: Filter, fallback: bool, unpaid: seq<string>, valid: seq<string>, row: OrderRow)
    requires f != All && ListOf(unpaid, WantUnpaid) && ListOf(valid, WantValid)
    ensures row.analytics.Some? ==>
      (Admits(f, fallback, unpaid, valid, row) <==> ClassAdmits(f, row.analytics.value, row))
    ensures row.analytics.None? ==>
      (Admits(f, fallback, unpaid, valid, row)
       <==> fallback && row.orderStatus.Some? && StatusAdmits(f, row.orderStatus.value, row))
  {
    EvalAnalyticsPart(f, row);
    EvalLegacyPart(f, unpaid, valid, row);
    PackShape(AnalyticsPart(f), LegacyPart(f, BoundIn(unpaid), BoundIn(valid)), row);
  }

  // ---------------------------------------------------------------- rows with a class

  lemma ClassLiterals()
    ensures Lower("valid") == "valid" && Lower("unpaid") == "unpaid" && Lower("sample") == "sample"
    ensures Lower("cancelled") == "cancelled" && Lower("other") == "other"
  {
    LowerStays("valid");
    LowerStays("unpaid");
    LowerStays("sample");
    LowerStays("cancelled");
    LowerStays("other");
  }

  predicate OneClass(f: Filter) { f.Valid? || f.UnpaidOnly? || f.Sample? || f.CancelledOnly? }

  /** Whatever text the class column holds: the four views are disjoint, valid is part of paid, paid apart from sample and unpaid. */
  lemma ClassViewsAreDisjoint(f: Filter, g: Filter, fallback: bool, unpaid: seq<string>, valid: seq<string>, row: OrderRow)
    requires row.analytics.Some? && OneClass(f) && OneClass(g) && f != g
    requires ListOf(unpaid, WantUnpaid) && ListOf(valid, WantValid)
    ensures !(Admits(f, fallback, unpaid, valid, row) && Admits(g, fallback, unpaid, valid, row))
    ensures Admits(Valid, fallback, unpaid, valid, row) ==> Admits(PaidOnly, fallback, unpaid, valid, row)
    ensures Admits(PaidOnly, fallback, unpaid, valid, row) ==>
      !Admits(Sample, fallback, unpaid, valid, row) && !Admits(UnpaidOnly, fallback, unpaid, valid, row)
  {
    ClassLiterals();
    AdmittedRows(f, fallback, unpaid, valid, row);
    AdmittedRows(g, fallback, unpaid, valid, row);
    AdmittedRows(Valid, fallback, unpaid, valid, row);
    AdmittedRows(PaidOnly, fallback, unpaid, valid, row);
    AdmittedRows(Sample, fallback, unpaid, valid, row);
    AdmittedRows(UnpaidOnly, fallback, unpaid, valid, row);
  }

  /** A row with a class written by the classification is in the view of that class and in no other of the four. */
  lemma ClassifiedRowIsInItsView(c: Category, f: Filter, fallback: bool, unpaid: seq<string>, valid: seq<string>, row: OrderRow)
    requires row.analytics == Some(CategoryText(c)) && OneClass(f)
    requires ListOf(unpaid, WantUnpaid) && ListOf(valid, WantValid)
    ensures Admits(f, fallback, unpaid, valid, row) <==> f == FilterFor(c)
  {
    ClassLiterals();
    AdmittedRows(f, fallback, unpaid, valid, row);
  }

  // ---------------------------------------------------------------- the fallback against the classification

  lemma AbsentLetter(s: string, part: string)
    requires part != "" && part[0] !in s
    ensures !Contains(s, part)
  {
    if Contains(s, part) { ContainsFirst(s, part); }
  }

  lemma AbsentPair(s: string, part: string)
    requires |part| >= 2 && !HasPair(s, part[0], part[1])
    ensures !Contains(s, part)
  {
    if Contains(s, part) { ContainsPair(s, part); }
  }

  lemma NoCapitals(t: string)
    requires Upper(t) == "CANCELLED" || Upper(t) == "CANCELED"
    ensures Lower(t) == "cancelled" || Lower(t) == "canceled"
  {
    CaseMaps(t);
    CancelCapitals();
  }

  lemma CancelWordsHaveCa(s: string)
    requires s == "cancelled" || s == "canceled" || s == "cancel" || s == "buyer_cancel" || s == "seller_cancel"
    ensures HasPair(s, 'c', 'a')
  {
    var i := if s[0] == 'c' then 0 else if s[0] == 'b' then 6 else 7;
    assert s[i] == 'c' && s[i + 1] == 'a';
  }

  /** No "ca", no "sa" and not the first sign of the word for sample. */
  predicate PlainSpelling(s: string) { !HasPair(s, 'c', 'a') && !HasPair(s, 's', 'a') && '样' !in s }

  /** A text whose lower-case form is that plain is neither test's. */
  lemma NeitherCancelledNorSample(t: string)
    requires PlainSpelling(Lower(t)) && t != "已取消" && t != "买家取消" && t != "卖家取消"
    ensures !CancelledText(t) && !SampleText(t)
  {
    AbsentPair(Lower(t), "cancel");
    AbsentPair(Lower(t), "sample");
    AbsentLetter(Lower(t), "样品");
    LowerWithoutLetters("样品", "样品");
    LowerContains(t, "样品");
    if CancelledText(t) {
      CancelLiterals();
      if Upper(t) == "CANCELLED" || Upper(t) == "CANCELED" { NoCapitals(t); }
      CancelWordsHaveCa(Lower(t));
    }
  }

  predicate CancelWord(w: Word) { w.Cancelled? || w.Canceled? || w.BuyerCancel? || w.SellerCancel? }

  lemma ShortestWordsArePlain(w: Word)
    requires !CancelWord(w) && |Spell(w)| <= 6
    ensures PlainSpelling(Spell(w))
  {
  }

  lemma ShortWordsArePlain(w: Word)
    requires !CancelWord(w) && 6 < |Spell(w)| <= 8
    ensures PlainSpelling(Spell(w))
  {
  }

  lemma NineLettersArePlain(w: Word)
    requires !CancelWord(w) && 8 < |Spell(w)| <= 10
    ensures PlainSpelling(Spell(w))
  {
  }

  lemma MiddleWordsArePlain(w: Word)
    requires !CancelWord(w) && 10 < |Spell(w)| <= 15
    ensures PlainSpelling(Spell(w))
  {
  }

  lemma AwaitingWordsArePlain(w: Word)
    requires w.AwaitingPayment? || w.AwaitingShipment? || w.AwaitingCollection? || w.AwaitingPackage?
    ensures PlainSpelling(Spell(w))
  {
  }

  lemma PartialWordsArePlain(w: Word)
    requires w.PartiallyShipping? || w.PartiallyShipped?
    ensures PlainSpelling(Spell(w))
  {
  }

  lemma WordsArePlain(w: Word)
    requires !CancelWord(w)
    ensures PlainSpelling(Spell(w))
  {
    if |Spell(w)| <= 6 {
      ShortestWordsArePlain(w);
    } else if |Spell(w)| <= 8 {
      ShortWordsArePlain(w);
    } else if |Spell(w)| <= 10 {
      NineLettersArePlain(w);
    } else if |Spell(w)| <= 15 {
      MiddleWordsArePlain(w);
    } else if w.PartiallyShipping? || w.PartiallyShipped? {
      PartialWordsArePlain(w);
    } else {
      AwaitingWordsArePlain(w);
    }
  }

  lemma LabelsArePlain(l: Label)
    ensures PlainSpelling(Show(l))
  {
  }

  predicate CancelLabel(l: Label) { l.WasCancelled? || l.ByBuyer? || l.BySeller? }

  lemma WantedIsNoCancel(p: Wanted, w: Word, l: Label)
    ensures WantsWord(p, LabelWord(WordLabel(w))) ==> !CancelWord(w)
    ensures WantsWord(p, LabelWord(l)) ==> !CancelLabel(l)
  {
  }

  lemma NoCancelLabel(t: string)
    requires LabelOf(t).Some? ==> !CancelLabel(LabelOf(t).value)
    ensures t != "已取消" && t != "买家取消" && t != "卖家取消"
  {
    LabelOfShow(WasCancelled);
    LabelOfShow(ByBuyer);
    LabelOfShow(BySeller);
  }

  lemma WantedLabelIsPlain(p: Wanted, t: string)
    requires LabelOf(t).Some? && WantsWord(p, LabelWord(LabelOf(t).value))
    ensures PlainSpelling(Lower(t)) && t != "已取消" && t != "买家取消" && t != "卖家取消"
  {
    WantedIsNoCancel(p, Unpaid, LabelOf(t).value);
    NoCancelLabel(t);
    LabelTexts(t);
    LabelsArePlain(LabelOf(t).value);
    LowerWithoutLetters(t, t);
  }

  lemma WantedWordIsPlain(p: Wanted, t: string)
    requires LabelOf(t).None? && WordOf(Lower(t)).Some? && WantsWord(p, LabelWord(WordLabel(WordOf(Lower(t)).value)))
    ensures PlainSpelling(Lower(t)) && t != "已取消" && t != "买家取消" && t != "卖家取消"
  {
    WantedIsNoCancel(p, WordOf(Lower(t)).value, NotKnown);
    NoCancelLabel(t);
    WordTexts(Lower(t));
    WordsArePlain(WordOf(Lower(t)).value);
  }

  /** A status of the unpaid or the valid set is no cancelled status and suggests no sample. */
  lemma WantedIsPlain(p: Wanted, t: string)
    requires Wants(p, CanonicalText(t))
    ensures !CancelledText(t) && !SampleText(t) && t != ""
  {
    WantsCanonIff(p, t);
    RecognisedTexts(t);
    if LabelOf(t).Some? { WantedLabelIsPlain(p, t); } else { WantedWordIsPlain(p, t); }
    NeitherCancelledNorSample(t);
  }

  predicate AwaitsPayment(s: string) { ToCanonicalOrderStatus(Some(s)) == Str(Spell(AwaitingPayment)) }

  lemma ValidAndUnpaid(t: string)
    ensures Wants(WantValid, CanonicalText(t)) && Wants(WantUnpaid, CanonicalText(t))
      <==> CanonicalText(t) == Str(Spell(AwaitingPayment))
  {
    WantsCanonIff(WantValid, t);
    WantsCanonIff(WantUnpaid, t);
    if Recognised(t) {
      CanonOfRecognised(t);
      SpellingsDiffer();
    } else if CanonicalText(t) == Str(Spell(AwaitingPayment)) {
      WantsSpelled(WantUnpaid, AwaitingPayment);
    }
  }

  /** Rows without a class pass both the valid and the unpaid filter exactly when they await payment. */
  lemma FallbackOverlapsIff(fallback: bool, unpaid: seq<string>, valid: seq<string>, row: OrderRow)
    requires row.analytics.None? && ListOf(unpaid, WantUnpaid) && ListOf(valid, WantValid)
    ensures Admits(Valid, fallback, unpaid, valid, row) && Admits(UnpaidOnly, fallback, unpaid, valid, row)
      <==> fallback && row.orderStatus.Some?
           && Trim(row.orderStatus.value) == SqlTrim(row.orderStatus.value) && AwaitsPayment(row.orderStatus.value)
  {
    AdmittedRows(Valid, fallback, unpaid, valid, row);
    AdmittedRows(UnpaidOnly, fallback, unpaid, valid, row);
    if row.orderStatus.Some? {
      var t := Trim(row.orderStatus.value);
      ValidAndUnpaid(t);
      if Wants(WantUnpaid, CanonicalText(t)) { WantedIsPlain(WantUnpaid, t); }
    }
  }

  /** The class the status alone gives, as if the JSON held no sample signal. */
  function StatusClass(row: OrderRow): Category { DeriveFromMysqlRow(row.(jsonSignal := false)) }

  lemma SignalDecidesFirst(row: OrderRow)
    ensures DeriveFromMysqlRow(row) == if row.jsonSignal then IsSample else StatusClass(row)
  {
  }

  /** The class of an order without a signal, by its one status text. */
  lemma DerivedFromText(o: Order, t: string)
    requires !o.sampleSignal && t == StatusText(ClassField(o))
    ensures DeriveAnalyticsStatus(Some(o)) ==
      if t == "" then IsOther
      else if SampleText(t) then IsSample
      else if CancelledText(t) then IsCancelled
      else if Wants(WantUnpaid, CanonicalText(t)) then IsUnpaid
      else if Wants(WantValid, CanonicalText(t)) then IsValid
      else IsOther
  {
    if t == "" { EmptyIsNoWord(); }
    EmptyCanonIsNotWanted(t);
  }

  lemma EmptyCanonIsNotWanted(t: string)
    ensures Wants(WantValid, CanonicalText(t)) <==> !ExcludedCanon(CanonicalText(t)) && ValidCanon(CanonicalText(t))
  {
    EmptyIsNoWord();
  }

  lemma ClassFromText(row: OrderRow, t: string)
    requires row.orderStatus.Some? && t == Trim(row.orderStatus.value)
    ensures StatusClass(row) ==
      if t == "" then IsOther
      else if SampleText(t) then IsSample
      else if CancelledText(t) then IsCancelled
      else if Wants(WantUnpaid, CanonicalText(t)) then IsUnpaid
      else if Wants(WantValid, CanonicalText(t)) then IsValid
      else IsOther
  {
    assert Trim(t) == t;
    DerivedFromText(OrderOfRow(row.(jsonSignal := false)), t);
  }

  predicate TrimsAgree(row: OrderRow) { row.orderStatus.Some? ==> Trim(row.orderStatus.value) == SqlTrim(row.orderStatus.value) }

  /**
   * What the fallback shows of a row without a class. Where both trims leave the same status, it shows it in the view of the
   * class its status gives; besides, valid also shows the rows awaiting payment, and cancelled the samples whose status
   * reads cancelled. Where they differ (a tab, say), valid and unpaid show nothing, and sample and cancelled go by what SQL
   * leaves. The class the backfill writes is that of the status, unless the JSON has a sample signal, which the
   * fallback never sees: such a row becomes a sample.
   */
  lemma FallbackMatchesClassification(f: Filter, unpaid: seq<string>, valid: seq<string>, row: OrderRow)
    requires row.analytics.None? && OneClass(f)
    requires ListOf(unpaid, WantUnpaid) && ListOf(valid, WantValid)
    ensures TrimsAgree(row) ==> (Admits(f, true, unpaid, valid, row) <==>
      || f == FilterFor(StatusClass(row))
      || (f == Valid && StatusClass(row) == IsUnpaid && AwaitsPayment(row.orderStatus.value))
      || (f == CancelledOnly && StatusClass(row) == IsSample && CancelledText(SqlTrim(row.orderStatus.value))))
    ensures !TrimsAgree(row) ==> (Admits(f, true, unpaid, valid, row) <==>
      || (f == Sample && SampleText(SqlTrim(row.orderStatus.value)))
      || (f == CancelledOnly && CancelledText(SqlTrim(row.orderStatus.value))))
    ensures DeriveFromMysqlRow(row) == if row.jsonSignal then IsSample else StatusClass(row)
  {
    SignalDecidesFirst(row);
    AdmittedRows(f, true, unpaid, valid, row);
    if row.orderStatus.Some? {
      if TrimsAgree(row) { FallbackByText(f, row, Trim(row.orderStatus.value)); }
    } else {
      NoStatusIsOther(row);
    }
  }

  lemma FallbackByText(f: Filter, row: OrderRow, t: string)
    requires OneClass(f) && row.orderStatus.Some? && TrimsAgree(row) && t == Trim(row.orderStatus.value)
    ensures StatusAdmits(f, row.orderStatus.value, row) <==>
      || f == FilterFor(StatusClass(row))
      || (f == Valid && StatusClass(row) == IsUnpaid && AwaitsPayment(row.orderStatus.value))
      || (f == CancelledOnly && StatusClass(row) == IsSample && CancelledText(t))
  {
    ClassFromText(row, t);
    WantedTexts(t);
  }

  /** How the tests on one status text exclude each other. */
  lemma WantedTexts(t: string)
    ensures Wants(WantUnpaid, CanonicalText(t)) || Wants(WantValid, CanonicalText(t)) ==> !CancelledText(t) && !SampleText(t)
    ensures Wants(WantValid, CanonicalText(t)) && Wants(WantUnpaid, CanonicalText(t))
      <==> CanonicalText(t) == Str(Spell(AwaitingPayment))
    ensures t == "" ==> !CancelledText(t) && !SampleText(t)
    ensures t == "" ==> !Wants(WantUnpaid, CanonicalText(t)) && !Wants(WantValid, CanonicalText(t))
  {
    ValidAndUnpaid(t);
    if Wants(WantUnpaid, CanonicalText(t)) { WantedIsPlain(WantUnpaid, t); }
    if Wants(WantValid, CanonicalText(t)) { WantedIsPlain(WantValid, t); }
    if t == "" { EmptyTextIsNothing(); }
  }

  lemma EmptyTextIsNothing()
    ensures !CancelledText("") && !SampleText("") && !Wants(WantUnpaid, CanonicalText(""))
  {
    assert Lower("") == "" && Upper("") == "";
    WantsCanonIff(WantUnpaid, "");
    if Recognised("") { RecognisedTexts(""); }
  }

  lemma NoStatusIsOther(row: OrderRow)
    requires row.orderStatus.None?
    ensures StatusClass(row) == IsOther
  {
    assert Trim("") == "";
    EmptyIsNoWord();
  }
}
