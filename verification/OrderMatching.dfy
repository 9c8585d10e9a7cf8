/**
 * When an order is matched by the filter of its own class: always, unless its class comes from an order_status, which
 * matching never reads; then it depends on what the status beside it says.
 */
module OrderMatching {
  import opened Options
  import opened Text
  import opened OrderStatus
  import opened OrderFilter
  import opened OrderFilterRows

  /** The order as matching sees it: without order_status. */
  function Seen(o: Order): Order { o.(snakeStatus := None) }

  predicate MatchedByItsClass(o: Order) { OrderMatches(Some(o), FilterFor(DeriveAnalyticsStatus(Some(o)))) }

  /** What the status that matching sees says of a class: the same class, or that of the two overlaps between the filters. */
  predicate SeenAs(o: Order, c: Category) {
    var d := DeriveAnalyticsStatus(Some(Seen(o)));
    || d == c
    || (c == IsValid && d == IsUnpaid && ToCanonicalOrderStatus(MatchField(o)) == Str(Spell(AwaitingPayment)))
    || (c == IsCancelled && d == IsSample && CancelledText(StatusText(MatchField(o))))
  }

  lemma UnsampledClass(o: Order)
    requires DeriveAnalyticsStatus(Some(o)) != IsSample
    ensures !o.sampleSignal && !OrderIsSample(o)
  {
  }

  /** The three filters that read a status, on the status matching sees. */
  lemma SeenIsMatched(o: Order, c: Category)
    requires !o.sampleSignal && !OrderIsSample(o) && (c.IsValid? || c.IsUnpaid? || c.IsCancelled?)
    ensures OrderMatches(Some(o), FilterFor(c)) <==> SeenAs(o, c)
  {
    var t := StatusText(MatchField(o));
    assert ClassField(Seen(o)) == MatchField(o);
    DerivedFromText(Seen(o), t);
    WantedTexts(t);
  }

  /**
   * For every order: it is matched by the filter of its class exactly when its class is sample or other, or its status is
   * visible to matching, or what matching sees is of that class (or in one of the two overlaps of the filters).
   */
  lemma DerivedIsMatchedIff(o: Order)
    ensures var c := DeriveAnalyticsStatus(Some(o));
      MatchedByItsClass(o) <==> c.IsSample? || c.IsOther? || StatusVisible(o) || SeenAs(o, c)
  {
    var c := DeriveAnalyticsStatus(Some(o));
    if StatusVisible(o) {
      DerivedIsMatched(o);
    } else if c.IsValid? || c.IsUnpaid? || c.IsCancelled? {
      UnsampledClass(o);
      SeenIsMatched(o, c);
    }
  }

  lemma HiddenStatusIsNotMatched(o: Order)
    requires o.orderStatus.None? && o.status.None? && DeriveAnalyticsStatus(Some(o)) == IsValid
    ensures !MatchedByItsClass(o)
  {
  }

  lemma WordClass(w: Word, o: Order)
    requires ClassField(o) == Some(Spell(w)) && !o.sampleSignal
    requires WantsWord(WantValid, LabelWord(WordLabel(w))) && !WantsWord(WantUnpaid, LabelWord(WordLabel(w)))
    ensures DeriveAnalyticsStatus(Some(o)) == IsValid
  {
    CanonOfWord(w);
    WantsSpelled(WantValid, LabelWord(WordLabel(w)));
    WantsSpelled(WantUnpaid, LabelWord(WordLabel(w)));
    WantedIsPlain(WantValid, Spell(w));
    DerivedFromText(o, Spell(w));
  }

  /** An order with nothing but an order_status is classified by it and matched by no filter of its class. */
  lemma OnlyOrderStatusIsNotMatched()
    ensures var o := Order(None, Some("completed"), None, false);
      DeriveAnalyticsStatus(Some(o)) == IsValid && !OrderMatches(Some(o), Valid)
  {
    var o := Order(None, Some("completed"), None, false);
    assert ClassField(o) == Some(Spell(Completed));
    WordClass(Completed, o);
    HiddenStatusIsNotMatched(o);
  }

  // ---------------------------------------------------------------- every filter on every order

  /** The order as matching sees it, but for its sample signals. */
  function Plain(o: Order): Order { Order(o.orderStatus, None, o.status, false) }

  /** What is neither valid nor unpaid is either cancelled, sample by its status, or nothing; these are the two overlaps. */
  predicate AwaitsPaymentAs(o: Order) { ToCanonicalOrderStatus(MatchField(o)) == Str("awaiting_payment") }

  lemma StatusFiltersByClass(o: Order)
    ensures var u, t := DeriveAnalyticsStatus(Some(Plain(o))), StatusText(MatchField(o));
      && (MatchesFilterStatus(MatchField(o), WantUnpaid) <==> u == IsUnpaid)
      && (MatchesFilterStatus(MatchField(o), WantValid) <==> u == IsValid || (u == IsUnpaid && AwaitsPaymentAs(o)))
      && (OrderIsCancelledStatus(MatchField(o)) <==> u == IsCancelled || (u == IsSample && CancelledText(t)))
  {
    var t := StatusText(MatchField(o));
    assert ClassField(Plain(o)) == MatchField(o);
    DerivedFromText(Plain(o), t);
    WantedTexts(t);
  }

  /**
   * Every filter on every order. Sample admits exactly the orders classified sample. The other filters go by the status that
   * matching sees, whatever the sample signals say: unpaid admits what that status makes unpaid, valid what it makes valid and
   * what awaits payment, cancelled what it makes cancelled and a sample status that also says cancelled; paid admits what valid
   * does, but no sample.
   */
  lemma OrderMatchesIff(o: Order, f: Filter)
    ensures var c, u := DeriveAnalyticsStatus(Some(o)), DeriveAnalyticsStatus(Some(Plain(o)));
      OrderMatches(Some(o), f) <==>
        match f
        case All => true
        case Sample => c == IsSample
        case UnpaidOnly => u == IsUnpaid
        case Valid => u == IsValid || (u == IsUnpaid && AwaitsPaymentAs(o))
        case CancelledOnly => u == IsCancelled || (u == IsSample && CancelledText(StatusText(MatchField(o))))
        case PaidOnly => c != IsSample && (u == IsValid || (u == IsUnpaid && AwaitsPaymentAs(o)))
  {
    StatusFiltersByClass(o);
  }

  /** What is no order is let through by no filter but All. */
  lemma NoOrderMatches(f: Filter)
    ensures OrderMatches(None, f) <==> f == All
  {
    EmptyIsNoWord();
  }

  /**
   * For orders whose status matching sees and that are no sample: the class decides, and no filter admits an order of another
   * class, but that valid and paid admit the unpaid ones that await payment.
   */
  lemma ClassDecides(o: Order, f: Filter)
    requires StatusVisible(o) && DeriveAnalyticsStatus(Some(o)) != IsSample
    ensures var c := DeriveAnalyticsStatus(Some(o));
      OrderMatches(Some(o), f) <==>
        match f
        case All => true
        case Sample => false
        case UnpaidOnly => c == IsUnpaid
        case CancelledOnly => c == IsCancelled
        case Valid | PaidOnly => c == IsValid || (c == IsUnpaid && AwaitsPaymentAs(o))
  {
    UnsampledClass(o);
    assert ClassField(Plain(o)) == MatchField(o) == ClassField(o);
    DerivedFromText(Plain(o), StatusText(ClassField(o)));
    DerivedFromText(o, StatusText(ClassField(o)));
    OrderMatchesIff(o, f);
  }

  /** The class of an order by its fields: signals, then the status text; the first of the three statuses there is. */
  lemma ClassByFields(o: Order)
    ensures var status := if o.orderStatus.Some? then o.orderStatus else if o.snakeStatus.Some? then o.snakeStatus else o.status;
      var t := if status.Some? then Trim(status.value) else "";
      DeriveAnalyticsStatus(Some(o)) ==
        if o.sampleSignal || SampleText(t) then IsSample
        else if CancelledText(t) then IsCancelled
        else if Recognised(t) && RecognisedWord(t) in UNPAID_WORDS then IsUnpaid
        else if Recognised(t) && RecognisedWord(t) in VALID_WORDS then IsValid
        else IsOther
  {
    var t := StatusText(ClassField(o));
    WantedTexts(t);
    WantsCanonIff(WantUnpaid, t);
    WantsCanonIff(WantValid, t);
    if Recognised(t) {
      ListedValidWords(RecognisedWord(t));
      NothingValidIsExcluded(RecognisedWord(t));
    }
    if !o.sampleSignal { DerivedFromText(o, t); }
    if t == "" && Recognised("") { RecognisedTexts(""); }
  }
}
