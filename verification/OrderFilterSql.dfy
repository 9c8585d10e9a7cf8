/**
 * The dashboard's WHERE clause for an order filter: its syntax tree, its placeholders, its meaning under the
 * three-valued logic of SQL (section 6.34 of ISO/IEC 9075-2:2003), and the set of rows it admits.
 */
module OrderFilterSql {
  import opened Options
  import opened Text
  import opened OrderStatus
  import opened OrderFilter

  datatype Column = AnalyticsColumn | StatusColumn

  datatype Term =
    | Col(column: Column)
    | TrimOf(term: Term)
    | LowerOf(term: Term)
    | UpperOf(term: Term)
    | OrEmpty(term: Term)                    // COALESCE(term, '')

  datatype Cond =
    | Eq(term: Term, text: string)
    | In(term: Term, list: seq<string>)
    | InHoles(term: Term, holes: nat)        // term IN (?, ?, ...)
    | Like(term: Term, part: string)         // term LIKE '%part%'
    | NotEmpty(term: Term)                   // term <> ''
    | IsNull(term: Term)
    | PaidAtIsNotNull
    | AmountIsPositive                       // COALESCE(total_amount, 0) > 0
    | Never                                  // 1=0
    | Not(operand: Cond)
    | And(left: Cond, right: Cond)
    | Or(left: Cond, right: Cond)

  // ---------------------------------------------------------------- meaning

  datatype Tri = True | False | Undefined

  function Truth(b: bool): Tri { if b then True else False }

  function NotT(a: Tri): Tri { match a case True => False case False => True case Undefined => Undefined }

  function AndT(a: Tri, b: Tri): Tri {
    if a.False? || b.False? then False else if a.True? && b.True? then True else Undefined
  }

  function OrT(a: Tri, b: Tri): Tri {
    if a.True? || b.True? then True else if a.False? && b.False? then False else Undefined
  }

  /** Negating swaps the two, also where something is undefined. */
  lemma DeMorgan(a: Tri, b: Tri)
    ensures NotT(AndT(a, b)) == OrT(NotT(a), NotT(b)) && NotT(OrT(a, b)) == AndT(NotT(a), NotT(b))
  {
  }

  /** Text comparison of the column's collation: without regard to case. */
  predicate Ci(a: string, b: string) { Lower(a) == Lower(b) }

  function Value(t: Term, row: OrderRow): Option<string> {
    match t
    case Col(AnalyticsColumn) => row.analytics
    case Col(StatusColumn) => row.orderStatus
    case TrimOf(u) => (match Value(u, row) case Some(s) => Some(SqlTrim(s)) case None => None)
    case LowerOf(u) => (match Value(u, row) case Some(s) => Some(Lower(s)) case None => None)
    case UpperOf(u) => (match Value(u, row) case Some(s) => Some(Upper(s)) case None => None)
    case OrEmpty(u) => (match Value(u, row) case Some(s) => Some(s) case None => Some(""))
  }

  predicate CiInSeq(s: string, list: seq<string>) { exists i :: 0 <= i < |list| && Ci(list[i], s) }

  /** Whether the text passes the comparison. */
  predicate Test(c: Cond, s: string) {
    match c
    case Eq(_, x) => Ci(s, x)
    case In(_, list) => CiInSeq(s, list)
    case Like(_, part) => LikeContains(Lower(s), Lower(part))
    case NotEmpty(_) => s != ""
    case _ => false
  }

  /** A condition that is not composed: a comparison with NULL is neither true nor false. */
  function EvalAtom(c: Cond, row: OrderRow): Tri {
    match c
    case IsNull(t) => Truth(Value(t, row).None?)
    case PaidAtIsNotNull => Truth(row.paidAt)
    case AmountIsPositive => Truth(Amount(row) > 0.0)
    case Eq(t, _) => (match Value(t, row) case Some(s) => Truth(Test(c, s)) case None => Undefined)
    case In(t, _) => (match Value(t, row) case Some(s) => Truth(Test(c, s)) case None => Undefined)
    case Like(t, _) => (match Value(t, row) case Some(s) => Truth(Test(c, s)) case None => Undefined)
    case NotEmpty(t) => (match Value(t, row) case Some(s) => Truth(Test(c, s)) case None => Undefined)
    case _ => False
  }

  /** The meaning of a condition. One that still has placeholders has none of its own. */
  function Eval(c: Cond, row: OrderRow): Tri {
    match c
    case InHoles(_, _) => Undefined
    case Not(a) => NotT(Eval(a, row))
    case And(a, b) => AndT(Eval(a, row), Eval(b, row))
    case Or(a, b) => OrT(Eval(a, row), Eval(b, row))
    case _ => EvalAtom(c, row)
  }

  function Amount(row: OrderRow): real { match row.totalAmount case Some(x) => x case None => 0.0 }

  // ---------------------------------------------------------------- placeholders

  datatype Bound = Bound(cond: Cond, rest: seq<string>) | TooFewParams

  /** Puts the parameters in for the placeholders, in the order of the text. */
  function Bind(c: Cond, params: seq<string>): Bound {
    match c
    case InHoles(t, n) => if n <= |params| then Bound(In(t, params[..n]), params[n..]) else TooFewParams
    case Not(a) =>
      (match Bind(a, params)
       case Bound(a', rest) => Bound(Not(a'), rest)
       case TooFewParams => TooFewParams)
    case And(a, b) =>
      (match Bind(a, params)
       case TooFewParams => TooFewParams
       case Bound(a', rest) =>
         match Bind(b, rest)
         case Bound(b', rest') => Bound(And(a', b'), rest')
         case TooFewParams => TooFewParams)
    case Or(a, b) =>
      (match Bind(a, params)
       case TooFewParams => TooFewParams
       case Bound(a', rest) =>
         match Bind(b, rest)
         case Bound(b', rest') => Bound(Or(a', b'), rest')
         case TooFewParams => TooFewParams)
    case _ => Bound(c, params)
  }

  /** The parameters are just those of the condition: whatever follows them is left over. */
  ghost predicate Binds(c: Cond, params: seq<string>, bound: Cond) {
    forall q: seq<string> {:trigger Bind(c, params + q)} :: Bind(c, params + q) == Bound(bound, q)
  }

  predicate HoleFree(c: Cond) {
    match c
    case InHoles(_, _) => false
    case Not(a) => HoleFree(a)
    case And(a, b) => HoleFree(a) && HoleFree(b)
    case Or(a, b) => HoleFree(a) && HoleFree(b)
    case _ => true
  }

  lemma {:induction false} BindPlain(c: Cond, q: seq<string>)
    requires HoleFree(c)
    ensures Bind(c, q) == Bound(c, q)
  {
    match c
    case Not(a) => BindPlain(a, q);
    case And(a, b) => BindPlain(a, q); BindPlain(b, q);
    case Or(a, b) => BindPlain(a, q); BindPlain(b, q);
    case _ =>
  }

  lemma BindsPlain(c: Cond)
    requires HoleFree(c)
    ensures Binds(c, [], c)
  {
    forall q: seq<string> ensures Bind(c, [] + q) == Bound(c, q) {
      assert [] + q == q;
      BindPlain(c, q);
    }
  }

  lemma BindsNot(a: Cond, p: seq<string>, a': Cond)
    requires Binds(a, p, a')
    ensures Binds(Not(a), p, Not(a'))
  {
    forall q: seq<string> ensures Bind(Not(a), p + q) == Bound(Not(a'), q) { assert Bind(a, p + q) == Bound(a', q); }
  }

  lemma BindsAnd(a: Cond, p: seq<string>, a': Cond, b: Cond, r: seq<string>, b': Cond)
    requires Binds(a, p, a') && Binds(b, r, b')
    ensures Binds(And(a, b), p + r, And(a', b'))
  {
    forall q: seq<string> ensures Bind(And(a, b), p + r + q) == Bound(And(a', b'), q) {
      assert p + r + q == p + (r + q);
      assert Bind(a, p + (r + q)) == Bound(a', r + q);
      assert Bind(b, r + q) == Bound(b', q);
    }
  }

  lemma BindsOr(a: Cond, p: seq<string>, a': Cond, b: Cond, r: seq<string>, b': Cond)
    requires Binds(a, p, a') && Binds(b, r, b')
    ensures Binds(Or(a, b), p + r, Or(a', b'))
  {
    forall q: seq<string> ensures Bind(Or(a, b), p + r + q) == Bound(Or(a', b'), q) {
      assert p + r + q == p + (r + q);
      assert Bind(a, p + (r + q)) == Bound(a', r + q);
      assert Bind(b, r + q) == Bound(b', q);
    }
  }

  // ---------------------------------------------------------------- building the clause

  const STATUS: Term := TrimOf(Col(StatusColumn))
  const STATUS_OR_EMPTY: Term := TrimOf(OrEmpty(Col(StatusColumn)))

  function SqlCancelled(): Cond {
    Or(Or(Or(
      In(STATUS, ["已取消", "买家取消", "卖家取消"]),
      In(LowerOf(STATUS), ["cancelled", "canceled", "buyer_cancel", "seller_cancel", "cancel"])),
      Like(LowerOf(STATUS), "cancel")),
      In(UpperOf(STATUS), ["CANCELLED", "CANCELED"]))
  }

  function SqlStatusSample(): Cond {
    Or(Or(
      Like(STATUS_OR_EMPTY, "样品"),
      Like(LowerOf(STATUS_OR_EMPTY), "sample")),
      Like(LowerOf(STATUS_OR_EMPTY), "free_sample"))
  }

  /** `TRIM(order_status) IN (?,...)` with one placeholder for each value, or 1=0 for no values. */
  function SqlIn(list: seq<string>): Cond { if list == [] then Never else InHoles(STATUS, |list|) }

  function BoundIn(list: seq<string>): Cond { if list == [] then Never else In(STATUS, list) }

  function AnalyticsPart(f: Filter): Cond
    requires f != All
  {
    var col := Col(AnalyticsColumn);
    match f
    case CancelledOnly => Eq(col, "cancelled")
    case Sample => Eq(col, "sample")
    case UnpaidOnly => Eq(col, "unpaid")
    case Valid => Eq(col, "valid")
    case PaidOnly =>
      Or(And(PaidAtIsNotNull, Not(In(col, ["sample", "unpaid"]))),
         Or(Eq(col, "valid"), And(Eq(col, "cancelled"), AmountIsPositive)))
  }

  function LegacyPart(f: Filter, inUnpaid: Cond, inValid: Cond): Cond
    requires f != All
  {
    match f
    case CancelledOnly => SqlCancelled()
    case Sample => SqlStatusSample()
    case UnpaidOnly => inUnpaid
    case Valid => And(And(And(Not(SqlCancelled()), Not(SqlStatusSample())), inValid), NotEmpty(STATUS_OR_EMPTY))
    case PaidOnly =>
      And(And(Not(SqlStatusSample()), NotEmpty(STATUS_OR_EMPTY)),
          Or(Or(PaidAtIsNotNull, And(And(Not(SqlCancelled()), Not(inUnpaid)), inValid)),
             And(SqlCancelled(), AmountIsPositive)))
  }

  function LegacyParams(f: Filter, unpaid: seq<string>, valid: seq<string>): seq<string> {
    match f
    case UnpaidOnly => unpaid
    case Valid => valid
    case PaidOnly => unpaid + valid
    case _ => []
  }

  function Pack(analytics: Cond, legacy: Cond, fallback: bool): Cond {
    if fallback then Or(analytics, And(IsNull(Col(AnalyticsColumn)), legacy)) else analytics
  }

  datatype Clause = NoRestriction | Where(cond: Cond, params: seq<string>)

  /** The clause for a filter; `unpaid` and `valid` are the collected status lists, in some order. */
  function DashboardOrdersFilterClause(f: Filter, fallback: bool, unpaid: seq<string>, valid: seq<string>): Clause {
    if f == All then NoRestriction
    else Where(Pack(AnalyticsPart(f), LegacyPart(f, SqlIn(unpaid), SqlIn(valid)), fallback),
               if fallback then LegacyParams(f, unpaid, valid) else [])
  }

  /** The same condition with the lists written in. */
  function BoundClause(f: Filter, fallback: bool, unpaid: seq<string>, valid: seq<string>): Cond
    requires f != All
  {
    Pack(AnalyticsPart(f), LegacyPart(f, BoundIn(unpaid), BoundIn(valid)), fallback)
  }

  lemma BindsIn(list: seq<string>)
    ensures Binds(SqlIn(list), list, BoundIn(list))
  {
    forall q: seq<string> ensures Bind(SqlIn(list), list + q) == Bound(BoundIn(list), q) {
      assert list == [] ==> list + q == q;
      assert (list + q)[..|list|] == list && (list + q)[|list|..] == q;
    }
  }

  lemma CancelledHasNoHoles()
    ensures HoleFree(SqlCancelled()) && HoleFree(Not(SqlCancelled())) && HoleFree(And(SqlCancelled(), AmountIsPositive))
  {
    assert HoleFree(Or(In(STATUS, ["已取消", "买家取消", "卖家取消"]),
      In(LowerOf(STATUS), ["cancelled", "canceled", "buyer_cancel", "seller_cancel", "cancel"])));
  }

  lemma LegacyBindsValid(list: seq<string>)
    ensures Binds(LegacyPart(Valid, Never, SqlIn(list)), list, LegacyPart(Valid, Never, BoundIn(list)))
  {
    var head := And(Not(SqlCancelled()), Not(SqlStatusSample()));
    CancelledHasNoHoles();
    BindsPlain(head);
    BindsIn(list);
    BindsAnd(head, [], head, SqlIn(list), list, BoundIn(list));
    BindsPlain(NotEmpty(STATUS_OR_EMPTY));
    BindsAnd(And(head, SqlIn(list)), [] + list, And(head, BoundIn(list)), NotEmpty(STATUS_OR_EMPTY), [], NotEmpty(STATUS_OR_EMPTY));
    assert [] + list + [] == list;
  }

  lemma LegacyBindsPaid(unpaid: seq<string>, valid: seq<string>)
    ensures Binds(LegacyPart(PaidOnly, SqlIn(unpaid), SqlIn(valid)), unpaid + valid,
                  LegacyPart(PaidOnly, BoundIn(unpaid), BoundIn(valid)))
  {
    CancelledHasNoHoles();
    var notC := Not(SqlCancelled());
    var u, u' := Not(SqlIn(unpaid)), Not(BoundIn(unpaid));
    BindsPlain(notC);
    BindsIn(unpaid);
    BindsNot(SqlIn(unpaid), unpaid, BoundIn(unpaid));
    BindsAnd(notC, [], notC, u, unpaid, u');
    BindsIn(valid);
    BindsAnd(And(notC, u), [] + unpaid, And(notC, u'), SqlIn(valid), valid, BoundIn(valid));
    var m, m' := And(And(notC, u), SqlIn(valid)), And(And(notC, u'), BoundIn(valid));
    BindsPlain(PaidAtIsNotNull);
    BindsOr(PaidAtIsNotNull, [], PaidAtIsNotNull, m, [] + unpaid + valid, m');
    var tail := And(SqlCancelled(), AmountIsPositive);
    BindsPlain(tail);
    BindsOr(Or(PaidAtIsNotNull, m), [] + ([] + unpaid + valid), Or(PaidAtIsNotNull, m'), tail, [], tail);
    var head := And(Not(SqlStatusSample()), NotEmpty(STATUS_OR_EMPTY));
    BindsPlain(head);
    BindsAnd(head, [], head, Or(Or(PaidAtIsNotNull, m), tail), [] + ([] + unpaid + valid) + [],
             Or(Or(PaidAtIsNotNull, m'), tail));
    assert [] + ([] + ([] + unpaid + valid) + []) == unpaid + valid;
  }

  /**
   * The placeholders of the clause are as many as its parameters, and stand in their order: binding puts each status list
   * in its own place, and nothing is left over.
   */
  lemma PlaceholdersMatchParams(f: Filter, fallback: bool, unpaid: seq<string>, valid: seq<string>)
    requires f != All
    ensures var c := DashboardOrdersFilterClause(f, fallback, unpaid, valid);
      Bind(c.cond, c.params) == Bound(BoundClause(f, fallback, unpaid, valid), [])
  {
    var analytics := AnalyticsPart(f);
    BindsPlain(analytics);
    var params := LegacyParams(f, unpaid, valid);
    var legacy, legacy' := LegacyPart(f, SqlIn(unpaid), SqlIn(valid)), LegacyPart(f, BoundIn(unpaid), BoundIn(valid));
    if fallback {
      LegacyBinds(f, unpaid, valid);
      var isNull := IsNull(Col(AnalyticsColumn));
      BindsPlain(isNull);
      BindsAnd(isNull, [], isNull, legacy, params, legacy');
      BindsOr(analytics, [], analytics, And(isNull, legacy), [] + params, And(isNull, legacy'));
      assert [] + ([] + params) + [] == params;
    } else {
      BindPlain(analytics, []);
    }
  }

  lemma LegacyBinds(f: Filter, unpaid: seq<string>, valid: seq<string>)
    requires f != All
    ensures Binds(LegacyPart(f, SqlIn(unpaid), SqlIn(valid)), LegacyParams(f, unpaid, valid),
                  LegacyPart(f, BoundIn(unpaid), BoundIn(valid)))
  {
    match f
    case CancelledOnly =>
      CancelledHasNoHoles();
      BindsPlain(SqlCancelled());
    case Sample => BindsPlain(SqlStatusSample());
    case UnpaidOnly => BindsIn(unpaid);
    case Valid => LegacyBindsValid(valid);
    case PaidOnly => LegacyBindsPaid(unpaid, valid);
  }
}
