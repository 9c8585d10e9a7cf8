/**
 * Which orders a filter admits: classification of a stored or cached order, matching, and the status lists for SQL.
 * The sample signals inside raw_json are a given property of the order.
 */
module OrderFilter {
  import opened Options
  import opened Text
  import opened OrderStatus

  datatype Filter = All | Valid | UnpaidOnly | Sample | CancelledOnly | PaidOnly

  datatype Category = IsValid | IsUnpaid | IsSample | IsCancelled | IsOther

  // ---------------------------------------------------------------- the canonical sets

  predicate UnpaidWord(w: Word) { w.Unpaid? || w.AwaitingPayment? || w.PendingPayment? }

  predicate ExcludedFromValidWord(w: Word) {
    match w
    case Cancelled | Canceled | BuyerCancel | SellerCancel | OnHold | Refund | Refunded | Unpaid | Unknown => true
    case _ => false
  }

  predicate ValidWord(w: Word) {
    match w
    case AwaitingShipment | AwaitingCollection | PartiallyShipping | InTransit | Delivered | Completed | Paid => true
    case PendingPayment | AwaitingPayment | Returned | Shipped | ReadyToShip | PartiallyShipped | AwaitingPackage => true
    case ToShip => true
    case _ => false
  }

  function CanonWord(c: JsValue): Option<Word> { if c.Str? then WordOf(c.s) else None }

  /** UNPAID_CANON.has(c) */
  predicate UnpaidCanon(c: JsValue) { CanonWord(c).Some? && UnpaidWord(CanonWord(c).value) }

  predicate ExcludedCanon(c: JsValue) { CanonWord(c).Some? && ExcludedFromValidWord(CanonWord(c).value) }

  predicate ValidCanon(c: JsValue) { CanonWord(c).Some? && ValidWord(CanonWord(c).value) }

  /** The two predicates the status lists are collected for. */
  datatype Wanted = WantUnpaid | WantValid

  predicate Wants(p: Wanted, c: JsValue) {
    match p
    case WantUnpaid => UnpaidCanon(c)
    case WantValid => if c == Str("") then false else if ExcludedCanon(c) then false else ValidCanon(c)
  }

  // ---------------------------------------------------------------- collecting the raw statuses

  function SpellAll(words: seq<Word>): seq<string> { seq(|words|, i requires 0 <= i < |words| => Spell(words[i])) }

  const UPPER_WORDS: seq<Word> := [
    Unpaid, AwaitingPayment, OnHold, AwaitingShipment, AwaitingCollection, PartiallyShipping, InTransit, Delivered,
    Completed, Paid, Cancelled, Canceled, Returned, Refund, Refunded]

  const VALID_WORDS: seq<Word> := [
    AwaitingShipment, AwaitingCollection, PartiallyShipping, InTransit, Delivered, Completed, Paid, PendingPayment,
    AwaitingPayment, Returned, Shipped, ReadyToShip, PartiallyShipped, AwaitingPackage, ToShip]

  const UNPAID_WORDS: seq<Word> := [Unpaid, AwaitingPayment, PendingPayment]

  const EXCLUDED_WORDS: seq<Word> := [Cancelled, Canceled, BuyerCancel, SellerCancel, OnHold, Refund, Refunded, Unpaid, Unknown]

  function CapitalAll(words: seq<Word>): seq<string> {
    seq(|words|, i requires 0 <= i < |words| => Upper(Spell(words[i])))
  }

  /** The keys of ORDER_STATUS_MAP. */
  function StatusKeys(): seq<string> { CapitalAll(UPPER_WORDS) + SpellAll(WORDS) }

  /** KNOWN_ZH. */
  function KnownZh(): seq<string> { seq(|LABELS|, i requires 0 <= i < |LABELS| => Show(LABELS[i])) }

  /** The given texts whose canonical key is wanted. */
  function Canonically(texts: seq<string>, p: Wanted): set<string> {
    set s | s in texts && Wants(p, ToCanonicalOrderStatus(Some(s))) && Trim(s) != "" :: Trim(s)
  }

  function Literally(texts: seq<string>, p: Wanted): set<string> { set s | s in texts && Wants(p, Str(s)) }

  function Collected(p: Wanted): set<string> {
    Canonically(StatusKeys(), p) + Canonically(KnownZh(), p) + Literally(SpellAll(VALID_WORDS), p)
    + Literally(SpellAll(UNPAID_WORDS), p)
  }

  lemma CanonicallyNext(texts: seq<string>, i: nat, p: Wanted)
    requires i < |texts|
    ensures var raw := texts[i];
      Canonically(texts[..i + 1], p)
      == if Wants(p, ToCanonicalOrderStatus(Some(raw))) && Trim(raw) != "" then Canonically(texts[..i], p) + {Trim(raw)}
         else Canonically(texts[..i], p)
  {
    assert texts[..i + 1] == texts[..i] + [texts[i]];
  }

  method AddCanonically(out: set<string>, texts: seq<string>, p: Wanted) returns (out': set<string>)
    ensures out' == out + Canonically(texts, p)
  {
    out' := out;
    for i := 0 to |texts|
      invariant out' == out + Canonically(texts[..i], p)
    {
      var raw := texts[i];
      CanonicallyNext(texts, i, p);
      var c := ToCanonicalOrderStatus(Some(raw));
      if Wants(p, c) {
        var s := Trim(raw);
        if s != "" { out' := out' + {s}; }
      }
    }
    assert texts[..|texts|] == texts;
  }

  method AddLiterally(out: set<string>, texts: seq<string>, p: Wanted) returns (out': set<string>)
    ensures out' == out + Literally(texts, p)
  {
    out' := out;
    for i := 0 to |texts|
      invariant out' == out + Literally(texts[..i], p)
    {
      assert texts[..i + 1] == texts[..i] + [texts[i]];
      if Wants(p, Str(texts[i])) { out' := out' + {texts[i]}; }
    }
    assert texts[..|texts|] == texts;
  }

  method CollectRawOrderStatusesForCanonPredicate(p: Wanted) returns (out: set<string>)
    ensures out == Collected(p)
  {
    out := AddCanonically({}, StatusKeys(), p);
    out := AddCanonically(out, KnownZh(), p);
    out := AddLiterally(out, SpellAll(VALID_WORDS), p);
    out := AddLiterally(out, SpellAll(UNPAID_WORDS), p);
  }

  // ---------------------------------------------------------------- what is in the list

  lemma ListedWords(w: Word)
    ensures w in WORDS
  {
    var s := WORDS;
    assert s[0].Unpaid? && s[1].AwaitingPayment? && s[2].PendingPayment? && s[3].OnHold? && s[4].AwaitingShipment?;
    assert s[5].AwaitingCollection? && s[6].PartiallyShipping? && s[7].InTransit? && s[8].Delivered?;
    assert s[9].Completed? && s[10].Paid? && s[11].Cancelled? && s[12].Canceled? && s[13].BuyerCancel?;
    assert s[14].SellerCancel? && s[15].Returned? && s[16].Refund? && s[17].Refunded? && s[18].Unknown?;
    assert s[19].Pending? && s[20].Shipped? && s[21].ReadyToShip? && s[22].ToShip?;
    assert s[23].PartiallyShipped? && s[24].AwaitingPackage?;
  }

  lemma ListedLabels(l: Label)
    ensures l in LABELS
  {
  }

  lemma ListedUpperWords(w: Word)
    ensures HasUpperKey(w) <==> w in UPPER_WORDS
  {
  }

  lemma ListedValidWords(w: Word)
    ensures ValidWord(w) <==> w in VALID_WORDS
    ensures UnpaidWord(w) <==> w in UNPAID_WORDS
  {
  }

  /** What is not to count as valid is not in the valid set either, so leaving it out changes nothing. */
  lemma NothingValidIsExcluded(w: Word)
    ensures ExcludedFromValidWord(w) <==> w in EXCLUDED_WORDS
    ensures ValidWord(w) ==> !ExcludedFromValidWord(w)
    ensures WantsWord(WantValid, w) <==> w in VALID_WORDS
  {
    ListedValidWords(w);
  }

  predicate WantsWord(p: Wanted, w: Word) {
    match p
    case WantUnpaid => UnpaidWord(w)
    case WantValid => !ExcludedFromValidWord(w) && ValidWord(w)
  }

  lemma WantsSpelled(p: Wanted, w: Word)
    ensures Wants(p, Str(Spell(w))) <==> WantsWord(p, w)
  {
    WordOfSpell(w);
    SpellIsLatin(w);
  }

  /** Wanting a canonical key is wanting a recognised status. */
  lemma WantsCanonIff(p: Wanted, text: string)
    ensures Wants(p, CanonicalText(text)) <==> Recognised(text) && WantsWord(p, RecognisedWord(text))
  {
    if Recognised(text) {
      CanonOfRecognised(text);
      WantsSpelled(p, RecognisedWord(text));
    } else if text == "" {
      if WordOf("").Some? { WordTexts(""); }
    } else if UNKNOWN_PREFIX <= text {
      CanonOfPrefixed(text);
      WantsSpelled(p, Unknown);
    } else if !Inherited(text) {
      CanonOfUnrecognised(text);
    } else {
      InheritedTexts(text);
    }
  }

  /** Statuses that differ in case only are recognised alike. */
  lemma RecognisedIgnoresCase(v: string, t: string)
    requires Lower(v) == Lower(t) && Recognised(v)
    ensures Recognised(t) && RecognisedWord(t) == RecognisedWord(v)
  {
    if LabelOf(v).Some? {
      LabelTexts(v);
      LowerWithoutLetters(v, v);
      LowerWithoutLetters(t, v);
    } else if LabelOf(t).Some? {
      LabelTexts(t);
      LowerWithoutLetters(t, t);
      LowerWithoutLetters(v, t);
    }
  }

  lemma LabelTextIsKept(l: Label)
    ensures Recognised(Show(l)) && Trim(Show(l)) == Show(l) && Show(l) != ""
  {
    LabelOfShow(l);
    LabelTexts(Show(l));
  }

  lemma KeyTextIsKept(s: string, w: Word)
    requires s == Spell(w) || s == Upper(Spell(w))
    ensures Recognised(s) && Trim(s) == s && s != "" && Lower(s) == Spell(w)
  {
    CaseMaps(Spell(w));
    SpellIsLower(w);
    WordOfSpell(w);
    SpellIsLatin(w);
    LowerKeepsTight(s, IsSpace);
  }

  ghost predicate AllKept(texts: seq<string>) { forall s :: s in texts ==> Recognised(s) && Trim(s) == s && s != "" }

  lemma WordsAreKept(words: seq<Word>)
    ensures AllKept(CapitalAll(words)) && AllKept(SpellAll(words))
  {
    forall s | s in CapitalAll(words) ensures Recognised(s) && Trim(s) == s && s != "" {
      var k :| 0 <= k < |words| && CapitalAll(words)[k] == s;
      KeyTextIsKept(s, words[k]);
    }
    forall s | s in SpellAll(words) ensures Recognised(s) && Trim(s) == s && s != "" {
      var k :| 0 <= k < |words| && SpellAll(words)[k] == s;
      KeyTextIsKept(s, words[k]);
    }
  }

  lemma BothAreKept(a: seq<string>, b: seq<string>)
    requires AllKept(a) && AllKept(b)
    ensures AllKept(a + b)
  {
  }

  lemma KeysAreKept()
    ensures AllKept(StatusKeys())
  {
    WordsAreKept(UPPER_WORDS);
    WordsAreKept(WORDS);
    BothAreKept(CapitalAll(UPPER_WORDS), SpellAll(WORDS));
  }

  lemma LabelsAreKept()
    ensures AllKept(KnownZh())
  {
    forall s | s in KnownZh() ensures Recognised(s) && Trim(s) == s && s != "" {
      var i :| 0 <= i < |LABELS| && s == Show(LABELS[i]);
      LabelTextIsKept(LABELS[i]);
    }
  }

  lemma CanonicallyIs(texts: seq<string>, p: Wanted, v: string)
    requires AllKept(texts)
    ensures v in Canonically(texts, p) <==> v in texts && Wants(p, CanonicalText(v))
  {
    if v in texts && Wants(p, CanonicalText(v)) { assert v == Trim(v) && v != ""; }
  }

  lemma SynonymsAreWantedToo(p: Wanted, w: Word)
    requires WantsWord(p, w)
    ensures WantsWord(p, LabelWord(WordLabel(w)))
  {
  }

  lemma CanonOfWantedWord(p: Wanted, w: Word)
    requires WantsWord(p, w)
    ensures Wants(p, CanonicalText(Spell(w)))
  {
    SynonymsAreWantedToo(p, w);
    CanonOfWord(w);
    WantsSpelled(p, LabelWord(WordLabel(w)));
  }

  lemma LiterallyIs(words: seq<Word>, p: Wanted, v: string)
    requires v in Literally(SpellAll(words), p)
    ensures Recognised(v) && Tight(v, IsSpace) && Wants(p, CanonicalText(v))
  {
    var i :| 0 <= i < |words| && SpellAll(words)[i] == v;
    KeyTextIsKept(v, words[i]);
    WantsSpelled(p, words[i]);
    CanonOfWantedWord(p, words[i]);
  }

  lemma CollectedIs(p: Wanted, v: string)
    ensures v in Collected(p) <==>
      || v in Canonically(StatusKeys(), p) || v in Canonically(KnownZh(), p)
      || v in Literally(SpellAll(VALID_WORDS), p) || v in Literally(SpellAll(UNPAID_WORDS), p)
  {
  }

  /** Everything in the list is a recognised status that is wanted. */
  lemma CollectedTexts(p: Wanted, v: string)
    requires v in Collected(p)
    ensures Recognised(v) && Tight(v, IsSpace) && Wants(p, CanonicalText(v))
  {
    CollectedIs(p, v);
    KeysAreKept();
    LabelsAreKept();
    CanonicallyIs(StatusKeys(), p, v);
    CanonicallyIs(KnownZh(), p, v);
    if v in Literally(SpellAll(VALID_WORDS), p) { LiterallyIs(VALID_WORDS, p, v); }
    if v in Literally(SpellAll(UNPAID_WORDS), p) { LiterallyIs(UNPAID_WORDS, p, v); }
  }

  /** Membership under MySQL's case-insensitive comparison. */
  predicate CiIn(s: string, list: set<string>) { exists v :: v in list && Lower(v) == Lower(s) }

  lemma LabelIsListed(l: Label)
    ensures Show(l) in KnownZh()
  {
    ListedLabels(l);
    var i :| 0 <= i < |LABELS| && LABELS[i] == l;
    assert KnownZh()[i] == Show(l);
  }

  lemma WordIsListed(w: Word)
    ensures Spell(w) in StatusKeys()
  {
    ListedWords(w);
    var i :| 0 <= i < |WORDS| && WORDS[i] == w;
    assert StatusKeys()[|UPPER_WORDS| + i] == Spell(w);
  }

  /** Every wanted status is in the list in some case. */
  lemma WantedIsCollected(p: Wanted, text: string)
    requires Wants(p, CanonicalText(text))
    ensures CiIn(text, Collected(p))
  {
    WantsCanonIff(p, text);
    if LabelOf(text).Some? {
      LabelTexts(text);
      LabelIsListed(LabelOf(text).value);
      LabelsAreKept();
      CanonicallyIs(KnownZh(), p, text);
      CollectedIs(p, text);
    } else {
      var w := WordOf(Lower(text)).value;
      WordTexts(Lower(text));
      CanonOfRecognised(text);
      CanonOfWord(w);
      WordIsListed(w);
      KeysAreKept();
      CanonicallyIs(StatusKeys(), p, Spell(w));
      CollectedIs(p, Spell(w));
      CaseMaps(text);
    }
  }

  lemma CaseDoesNotMatter(p: Wanted, v: string, t: string)
    requires Lower(v) == Lower(t) && Recognised(v) && Wants(p, CanonicalText(v))
    ensures Wants(p, CanonicalText(t))
  {
    RecognisedIgnoresCase(v, t);
    WantsCanonIff(p, v);
    WantsCanonIff(p, t);
  }

  lemma ListedIsWanted(p: Wanted, v: string, s: string)
    requires Recognised(v) && Tight(v, IsSpace) && Wants(p, CanonicalText(v)) && Lower(v) == Lower(SqlTrim(s))
    ensures Trim(s) == SqlTrim(s) && Wants(p, CanonicalText(SqlTrim(s)))
  {
    CaseDoesNotMatter(p, v, SqlTrim(s));
    LowerKeepsTight(v, IsSpace);
    LowerKeepsTight(SqlTrim(s), IsSpace);
    SqlTrimIsTrim(s);
  }

  lemma CollectedIsWanted(p: Wanted, s: string)
    requires CiIn(SqlTrim(s), Collected(p))
    ensures Trim(s) == SqlTrim(s) && Wants(p, CanonicalText(SqlTrim(s)))
  {
    var list := Collected(p);
    var v :| v in list && Lower(v) == Lower(SqlTrim(s));
    CollectedTexts(p, v);
    ListedIsWanted(p, v, s);
  }

  /**
   * For every status text: the SQL test `TRIM(order_status) IN (list)` holds exactly when the canonical key is in the
   * set the list was collected for and both trims leave the same text. (SQL TRIM removes spaces only; a status behind a tab
   * has a canonical key but is not in the list.)
   */
  lemma InListIffCanon(p: Wanted, s: string)
    ensures CiIn(SqlTrim(s), Collected(p)) <==> Trim(s) == SqlTrim(s) && Wants(p, ToCanonicalOrderStatus(Some(s)))
  {
    if CiIn(SqlTrim(s), Collected(p)) { CollectedIsWanted(p, s); }
    if Trim(s) == SqlTrim(s) && Wants(p, ToCanonicalOrderStatus(Some(s))) { WantedIsCollected(p, SqlTrim(s)); }
  }

  // ---------------------------------------------------------------- classifying and matching an order

  datatype Order = Order(orderStatus: Option<string>, snakeStatus: Option<string>, status: Option<string>, sampleSignal: bool)

  function Or(a: Option<string>, b: Option<string>): Option<string> { if a.Some? then a else b }

  /** The status classification reads. */
  function ClassField(o: Order): Option<string> { Or(o.orderStatus, Or(o.snakeStatus, o.status)) }

  /** The status matching reads. */
  function MatchField(o: Order): Option<string> { Or(o.orderStatus, o.status) }

  predicate SampleText(text: string) { Contains(text, "样品") || Contains(Lower(text), "sample") }

  predicate StatusSuggestsSample(raw: Option<string>) { StatusText(raw) != "" && SampleText(StatusText(raw)) }

  predicate OrderIsSample(o: Order) {
    o.sampleSignal || StatusSuggestsSample(ClassField(o))
  }

  predicate CancelledText(text: string) {
    var lower := Lower(text);
    || text == "已取消" || text == "买家取消" || text == "卖家取消"
    || lower == "cancelled" || lower == "canceled" || lower == "buyer_cancel" || lower == "seller_cancel" || lower == "cancel"
    || Contains(lower, "cancel")
    || Upper(text) == "CANCELLED" || Upper(text) == "CANCELED"
  }

  predicate OrderIsCancelledStatus(raw: Option<string>) { StatusText(raw) != "" && CancelledText(StatusText(raw)) }

  /** orderMatchesFilterStatus for the two filters it is called with. */
  predicate MatchesFilterStatus(raw: Option<string>, p: Wanted) {
    StatusText(raw) != "" && Wants(p, ToCanonicalOrderStatus(raw))
  }

  /** `None` stands for anything that is not an object. */
  predicate OrderMatches(order: Option<Order>, f: Filter) {
    var field := if order.Some? then MatchField(order.value) else None;
    var sample := order.Some? && OrderIsSample(order.value);
    match f
    case All => true
    case Sample => sample
    case CancelledOnly => OrderIsCancelledStatus(field)
    case PaidOnly => !sample && !OrderIsCancelledStatus(field) && MatchesFilterStatus(field, WantValid)
    case UnpaidOnly => MatchesFilterStatus(field, WantUnpaid)
    case Valid => MatchesFilterStatus(field, WantValid)
  }

  function DeriveAnalyticsStatus(order: Option<Order>): Category {
    if order.None? then IsOther
    else if OrderIsSample(order.value) then IsSample
    else
      var field := ClassField(order.value);
      var canon := ToCanonicalOrderStatus(field);
      if OrderIsCancelledStatus(field) then IsCancelled
      else if UnpaidCanon(canon) then IsUnpaid
      else if StatusText(field) == "" then IsOther
      else if ExcludedCanon(canon) then IsOther
      else if ValidCanon(canon) then IsValid
      else IsOther
  }

  function FilterFor(c: Category): Filter {
    match c
    case IsValid => Valid
    case IsUnpaid => UnpaidOnly
    case IsSample => Sample
    case IsCancelled => CancelledOnly
    case IsOther => All
  }

  /** Matching looks at the field classification looked at: it never reads order_status. */
  predicate StatusVisible(o: Order) { o.orderStatus.Some? || o.snakeStatus.None? || o.status == o.snakeStatus }

  lemma UnpaidHasText(raw: Option<string>)
    requires UnpaidCanon(ToCanonicalOrderStatus(raw))
    ensures StatusText(raw) != ""
  {
    if WordOf("").Some? { WordTexts(""); }
  }

  lemma EmptyIsNoWord()
    ensures WordOf("").None?
  {
    if WordOf("").Some? { WordTexts(""); }
  }

  /** An order classified valid, unpaid, sample or cancelled is matched by that filter if its status is visible. */
  lemma DerivedIsMatched(o: Order)
    requires StatusVisible(o)
    ensures OrderMatches(Some(o), FilterFor(DeriveAnalyticsStatus(Some(o))))
  {
    var field := ClassField(o);
    assert MatchField(o) == field;
    if UnpaidCanon(ToCanonicalOrderStatus(field)) { UnpaidHasText(field); }
  }

  /** The paid view of a visible order: the valid ones, and the unpaid ones whose key is also in the valid set. */
  lemma PaidIsValidOrAwaitingPayment(o: Order)
    requires StatusVisible(o)
    ensures var c := DeriveAnalyticsStatus(Some(o));
      var canon := ToCanonicalOrderStatus(ClassField(o));
      OrderMatches(Some(o), PaidOnly) <==> c == IsValid || (c == IsUnpaid && canon == Str(Spell(AwaitingPayment)))
  {
    var field := ClassField(o);
    assert MatchField(o) == field;
    var text := StatusText(field);
    var canon := ToCanonicalOrderStatus(field);
    EmptyIsNoWord();
    WantsCanonIff(WantValid, text);
    WantsCanonIff(WantUnpaid, text);
    if Recognised(text) {
      CanonOfRecognised(text);
      SpellingsDiffer();
      RecognisedTexts(text);
    }
  }

  // ---------------------------------------------------------------- rows of the orders table

  datatype OrderRow = OrderRow(
    orderStatus: Option<string>,
    jsonSignal: bool,                 // what the sample heuristics find in raw_json
    analytics: Option<string>,
    paidAt: bool,                     // paid_at IS NOT NULL
    totalAmount: Option<real>)

  function CategoryText(c: Category): string {
    match c
    case IsValid => "valid"
    case IsUnpaid => "unpaid"
    case IsSample => "sample"
    case IsCancelled => "cancelled"
    case IsOther => "other"
  }

  function OrderOfRow(row: OrderRow): Order {
    var status := Some(StatusText(row.orderStatus));
    Order(status, status, status, row.jsonSignal)
  }

  function DeriveFromMysqlRow(row: OrderRow): Category { DeriveAnalyticsStatus(Some(OrderOfRow(row))) }

  /** A row of the table is always matched by the filter of its own class. */
  lemma RowsAreMatched(row: OrderRow)
    ensures OrderMatches(Some(OrderOfRow(row)), FilterFor(DeriveFromMysqlRow(row)))
  {
    DerivedIsMatched(OrderOfRow(row));
  }
}
