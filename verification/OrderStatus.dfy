/**
 * Order statuses: the two tables, the canonical key of an arbitrary status text, the display label, and the status
 * lists that go into SQL.
 *
 * The tables are written over names (`Word` for the lower-case keys, `Label` for the display labels) and spelled
 * out once, in `Spell` and `Show`.
 */
module OrderStatus {
  import opened Options
  import opened Text

  // ---------------------------------------------------------------- the tables

  datatype Word =
    | Unpaid | AwaitingPayment | PendingPayment | Pending | OnHold | AwaitingShipment | Shipped | ReadyToShip | ToShip
    | AwaitingCollection | AwaitingPackage | PartiallyShipping | PartiallyShipped | InTransit | Delivered | Completed
    | Paid | Cancelled | Canceled | BuyerCancel | SellerCancel | Returned | Refund | Refunded | Unknown

  function Spell(w: Word): string {
    match w
    case Unpaid => "unpaid"
    case AwaitingPayment => "awaiting_payment"
    case PendingPayment => "pending_payment"
    case Pending => "pending"
    case OnHold => "on_hold"
    case AwaitingShipment => "awaiting_shipment"
    case Shipped => "shipped"
    case ReadyToShip => "ready_to_ship"
    case ToShip => "to_ship"
    case AwaitingCollection => "awaiting_collection"
    case AwaitingPackage => "awaiting_package"
    case PartiallyShipping => "partially_shipping"
    case PartiallyShipped => "partially_shipped"
    case InTransit => "in_transit"
    case Delivered => "delivered"
    case Completed => "completed"
    case Paid => "paid"
    case Cancelled => "cancelled"
    case Canceled => "canceled"
    case BuyerCancel => "buyer_cancel"
    case SellerCancel => "seller_cancel"
    case Returned => "returned"
    case Refund => "refund"
    case Refunded => "refunded"
    case Unknown => "unknown"
  }

  datatype Label =
    | NotPaid | ToPay | Suspended | ToBeShipped | ToBeCollected | PartlyShipped | UnderWay | Arrived | Finished | HasPaid
    | WasCancelled | ByBuyer | BySeller | SentBack | Refunding | MoneyBack | NotKnown

  function Show(l: Label): string {
    match l
    case NotPaid => "未付款"
    case ToPay => "待付款"
    case Suspended => "挂起"
    case ToBeShipped => "待发货"
    case ToBeCollected => "待揽收"
    case PartlyShipped => "部分发货"
    case UnderWay => "运输中"
    case Arrived => "已送达"
    case Finished => "已完成"
    case HasPaid => "已支付"
    case WasCancelled => "已取消"
    case ByBuyer => "买家取消"
    case BySeller => "卖家取消"
    case SentBack => "已退货"
    case Refunding => "退款中"
    case MoneyBack => "已退款"
    case NotKnown => "未知"
  }

  /** ORDER_STATUS_MAP on its lower-case keys. */
  function WordLabel(w: Word): Label {
    match w
    case Unpaid => NotPaid
    case AwaitingPayment | PendingPayment | Pending => ToPay
    case OnHold => Suspended
    case AwaitingShipment | Shipped | ReadyToShip | ToShip => ToBeShipped
    case AwaitingCollection | AwaitingPackage => ToBeCollected
    case PartiallyShipping | PartiallyShipped => PartlyShipped
    case InTransit => UnderWay
    case Delivered => Arrived
    case Completed => Finished
    case Paid => HasPaid
    case Cancelled | Canceled => WasCancelled
    case BuyerCancel => ByBuyer
    case SellerCancel => BySeller
    case Returned => SentBack
    case Refund => Refunding
    case Refunded => MoneyBack
    case Unknown => NotKnown
  }

  /** The keys ORDER_STATUS_MAP also has in capital letters, with the same label. */
  predicate HasUpperKey(w: Word) {
    match w
    case Unpaid | AwaitingPayment | OnHold | AwaitingShipment | AwaitingCollection | PartiallyShipping | InTransit => true
    case Delivered | Completed | Paid | Cancelled | Canceled | Returned | Refund | Refunded => true
    case _ => false
  }

  /** LABEL_TO_CANON. */
  function LabelWord(l: Label): Word {
    match l
    case WasCancelled => Cancelled
    case ByBuyer => BuyerCancel
    case BySeller => SellerCancel
    case Suspended => OnHold
    case NotPaid => Unpaid
    case ToPay => AwaitingPayment
    case ToBeShipped => AwaitingShipment
    case ToBeCollected => AwaitingCollection
    case PartlyShipped => PartiallyShipping
    case UnderWay => InTransit
    case Arrived => Delivered
    case Finished => Completed
    case HasPaid => Paid
    case Refunding => Refund
    case MoneyBack => Refunded
    case SentBack => Returned
    case NotKnown => Unknown
  }

  const WORDS: seq<Word> := [
    Unpaid, AwaitingPayment, PendingPayment, OnHold, AwaitingShipment, AwaitingCollection, PartiallyShipping, InTransit,
    Delivered, Completed, Paid, Cancelled, Canceled, BuyerCancel, SellerCancel, Returned, Refund, Refunded, Unknown,
    Pending, Shipped, ReadyToShip, ToShip, PartiallyShipped, AwaitingPackage]

  const LABELS: seq<Label> := [
    NotPaid, ToPay, Suspended, ToBeShipped, ToBeCollected, PartlyShipped, UnderWay, Arrived, Finished, HasPaid,
    WasCancelled, ByBuyer, BySeller, SentBack, Refunding, MoneyBack, NotKnown]

  // ---------------------------------------------------------------- looking up

  lemma SpellingsDiffer()
    ensures forall v, w :: Spell(v) == Spell(w) ==> v == w
  {
  }

  lemma ShownDiffer()
    ensures forall l, m :: Show(l) == Show(m) ==> l == m
  {
  }

  function WordOf(s: string): Option<Word> {
    if exists w :: Spell(w) == s then
      SpellingsDiffer();
      var w :| Spell(w) == s;
      Some(w)
    else None
  }

  function LabelOf(s: string): Option<Label> {
    if exists l :: Show(l) == s then
      ShownDiffer();
      var l :| Show(l) == s;
      Some(l)
    else None
  }

  /** The members every object inherits from Object.prototype: looking one up in a table finds a non-string. */
  datatype Member =
    | Constructor | DefineGetter | DefineSetter | HasOwnProperty | LookupGetter | LookupSetter | IsPrototypeOf
    | PropertyIsEnumerable | ToString | ValueOf | Proto | ToLocaleString

  function Name(m: Member): string {
    match m
    case Constructor => "constructor"
    case DefineGetter => "__defineGetter__"
    case DefineSetter => "__defineSetter__"
    case HasOwnProperty => "hasOwnProperty"
    case LookupGetter => "__lookupGetter__"
    case LookupSetter => "__lookupSetter__"
    case IsPrototypeOf => "isPrototypeOf"
    case PropertyIsEnumerable => "propertyIsEnumerable"
    case ToString => "toString"
    case ValueOf => "valueOf"
    case Proto => "__proto__"
    case ToLocaleString => "toLocaleString"
  }

  predicate Inherited(s: string) { exists m :: Name(m) == s }

  /** What `ORDER_STATUS_MAP[key]` yields. */
  datatype Property = Absent | Own(shown: Label) | NotAString

  function UpperWordOf(s: string): Option<Word> {
    match WordOf(Lower(s))
    case Some(w) => if HasUpperKey(w) && Upper(Spell(w)) == s then Some(w) else None
    case None => None
  }

  function StatusMap(key: string): Property {
    match WordOf(key)
    case Some(w) => Own(WordLabel(w))
    case None =>
      match UpperWordOf(key)
      case Some(w) => Own(WordLabel(w))
      case None => if Inherited(key) then NotAString else Absent
  }

  // ---------------------------------------------------------------- the canonical key

  /** The source returns a string, except when a lookup goes through to Object.prototype. */
  datatype JsValue = Str(s: string) | Foreign

  const UNKNOWN_PREFIX := "未知状态("

  /** String(raw ?? '').trim() */
  function StatusText(raw: Option<string>): string { match raw case Some(s) => Trim(s) case None => "" }

  function ToCanonicalOrderStatus(raw: Option<string>): JsValue { CanonicalText(StatusText(raw)) }

  function CanonicalText(text: string): JsValue {
    if text == "" then Str("")
    else if UNKNOWN_PREFIX <= text then Str(Spell(Unknown))
    else
      match LabelOf(text)
      case Some(l) => Str(Spell(LabelWord(l)))
      case None => if Inherited(text) then Foreign else CanonicalOfKey(text)
  }

  /** The part behind LABEL_TO_CANON: the lower-case key, then the upper-case one, then the lower-case text itself. */
  function CanonicalOfKey(text: string): JsValue {
    var lower := Lower(text);
    match StatusMap(lower)
    case Own(l) => Str(Spell(LabelWord(l)))
    case NotAString => Str(lower)
    case Absent =>
      match StatusMap(Upper(text))
      case Own(l) => Str(Spell(LabelWord(l)))
      case NotAString => Str(Lower(Upper(text)))
      case Absent => Str(lower)
  }

  // ---------------------------------------------------------------- facts about the spellings

  predicate Latin(s: string) { s != "" && 'a' <= s[0] <= 'z' }

  lemma SpellIsLatin(w: Word)
    ensures Latin(Spell(w)) && Tight(Spell(w), IsSpace)
  {
  }

  predicate NoCapitalLetters(s: string) { forall i :: 0 <= i < |s| ==> !('A' <= s[i] <= 'Z') }

  lemma SpellsUpTo7(w: Word)
    requires |Spell(w)| <= 7
    ensures NoCapitalLetters(Spell(w))
  {
  }

  lemma SpellsUpTo9(w: Word)
    requires 7 < |Spell(w)| <= 9
    ensures NoCapitalLetters(Spell(w))
  {
  }

  lemma SpellsUpTo13(w: Word)
    requires 9 < |Spell(w)| <= 13
    ensures NoCapitalLetters(Spell(w))
  {
  }

  lemma SpellsUpTo16(w: Word)
    requires 13 < |Spell(w)| <= 16
    ensures NoCapitalLetters(Spell(w))
  {
  }

  lemma SpellsFrom17(w: Word)
    requires |Spell(w)| > 16
    ensures NoCapitalLetters(Spell(w))
  {
  }

  lemma SpellIsLower(w: Word)
    ensures Lower(Spell(w)) == Spell(w)
  {
    if |Spell(w)| <= 7 {
      SpellsUpTo7(w);
    } else if |Spell(w)| <= 9 {
      SpellsUpTo9(w);
    } else if |Spell(w)| <= 13 {
      SpellsUpTo13(w);
    } else if |Spell(w)| <= 16 {
      SpellsUpTo16(w);
    } else {
      SpellsFrom17(w);
    }
    LowerStays(Spell(w));
  }

  lemma LowerStays(s: string)
    requires NoCapitalLetters(s)
    ensures Lower(s) == s
  {
  }

  lemma ShowHasNoLetters(l: Label)
    ensures NoLetters(Show(l)) && Tight(Show(l), IsSpace) && 0 < |Show(l)| < |UNKNOWN_PREFIX|
  {
  }

  predicate ShortName(m: Member) { m.Constructor? || m.ToString? || m.ValueOf? }

  lemma ShortMembersAreNoWords(m: Member, w: Word)
    requires ShortName(m)
    ensures |Name(m)| != |Spell(w)| || Name(m)[0] != Spell(w)[0]
  {
  }

  lemma LongMembersAreNoShortWords(m: Member, w: Word)
    requires !ShortName(m) && |Spell(w)| <= 9
    ensures |Name(m)| != |Spell(w)| || Name(m)[0] != Spell(w)[0]
  {
  }

  lemma LongMembersAreNoLongWords(m: Member, w: Word)
    requires !ShortName(m) && |Spell(w)| > 9
    ensures |Name(m)| != |Spell(w)| || Name(m)[0] != Spell(w)[0]
  {
  }

  lemma MembersAreNoWords(m: Member, w: Word)
    ensures |Name(m)| != |Spell(w)| || Name(m)[0] != Spell(w)[0]
  {
    if ShortName(m) {
      ShortMembersAreNoWords(m, w);
    } else if |Spell(w)| <= 9 {
      LongMembersAreNoShortWords(m, w);
    } else {
      LongMembersAreNoLongWords(m, w);
    }
  }

  lemma MemberNames(m: Member)
    ensures |Name(m)| > 2 && ('a' <= Name(m)[0] <= 'z' || (Name(m)[0] == '_' && 'a' <= Name(m)[2] <= 'z'))
  {
  }

  /** An inherited name has a small letter, is no key of the status table in any case, and no display label. */
  lemma InheritedTexts(s: string)
    requires Inherited(s)
    ensures |s| > 2 && ('a' <= s[0] <= 'z' || (s[0] == '_' && 'a' <= s[2] <= 'z'))
    ensures WordOf(Lower(s)).None? && LabelOf(s).None? && !(UNKNOWN_PREFIX <= s)
  {
    var m :| Name(m) == s;
    MemberNames(m);
    PrefixHasNoLetters();
    if WordOf(Lower(s)).Some? {
      var w := WordOf(Lower(s)).value;
      SpellingsDiffer();
      MembersAreNoWords(m, w);
      SpellIsLatin(w);
    }
    if LabelOf(s).Some? { LabelTexts(s); }
  }

  lemma WordOfSpell(w: Word)
    ensures WordOf(Spell(w)) == Some(w)
  {
    SpellingsDiffer();
  }

  lemma LabelOfShow(l: Label)
    ensures LabelOf(Show(l)) == Some(l)
  {
    ShownDiffer();
  }

  lemma LabelTexts(s: string)
    requires LabelOf(s).Some?
    ensures s == Show(LabelOf(s).value) && NoLetters(s) && Tight(s, IsSpace) && 0 < |s| < |UNKNOWN_PREFIX|
  {
    ShownDiffer();
    ShowHasNoLetters(LabelOf(s).value);
  }

  lemma WordTexts(s: string)
    requires WordOf(s).Some?
    ensures s == Spell(WordOf(s).value) && Latin(s) && Tight(s, IsSpace) && Lower(s) == s
    ensures !Inherited(s) && LabelOf(s).None? && !(UNKNOWN_PREFIX <= s)
  {
    SpellingsDiffer();
    var w := WordOf(s).value;
    SpellIsLatin(w);
    SpellIsLower(w);
    PrefixHasNoLetters();
    if Inherited(s) { InheritedTexts(s); }
    if LabelOf(s).Some? { LabelTexts(s); }
  }

  lemma PrefixHasNoLetters()
    ensures NoLetters(UNKNOWN_PREFIX) && UNKNOWN_PREFIX[0] == '未' && |UNKNOWN_PREFIX| == 5
  {
  }

  lemma UpperIsNoWord(text: string)
    ensures WordOf(Upper(text)).None? && !Inherited(Upper(text))
  {
    var upper := Upper(text);
    if WordOf(upper).Some? { WordTexts(upper); }
    if Inherited(upper) { InheritedTexts(upper); }
  }

  // ---------------------------------------------------------------- the canonical key of any text

  /** The upper-case lookup never decides: what it could find, the lower-case lookup has found. */
  lemma UpperLookupIsIdle(text: string)
    ensures CanonicalOfKey(text) == match WordOf(Lower(text))
      case Some(w) => Str(Spell(LabelWord(WordLabel(w))))
      case None => Str(Lower(text))
  {
    CaseMaps(text);
    UpperIsNoWord(text);
    CaseMaps(Lower(text));
  }

  lemma CanonOfWord(w: Word)
    ensures CanonicalText(Spell(w)) == Str(Spell(LabelWord(WordLabel(w)))) && Trim(Spell(w)) == Spell(w)
  {
    WordOfSpell(w);
    WordTexts(Spell(w));
    UpperLookupIsIdle(Spell(w));
  }

  lemma CanonOfLabel(l: Label)
    ensures CanonicalText(Show(l)) == Str(Spell(LabelWord(l))) && Trim(Show(l)) == Show(l)
  {
    LabelOfShow(l);
    LabelTexts(Show(l));
  }

  /** The text is one of the display labels, or a key of the status table in any mixture of cases. */
  predicate Recognised(text: string) { LabelOf(text).Some? || WordOf(Lower(text)).Some? }

  function RecognisedWord(text: string): Word
    requires Recognised(text)
  {
    if LabelOf(text).Some? then LabelWord(LabelOf(text).value) else LabelWord(WordLabel(WordOf(Lower(text)).value))
  }

  lemma RecognisedTexts(text: string)
    requires Recognised(text)
    ensures text != "" && !Inherited(text) && !Inherited(Lower(text)) && !(UNKNOWN_PREFIX <= text)
  {
    if Inherited(text) { InheritedTexts(text); }
    if LabelOf(text).Some? {
      LabelTexts(text);
      LowerWithoutLetters(text, text);
    } else {
      WordTexts(Lower(text));
      PrefixHasNoLetters();
      LowerKeepsPrefix(text, UNKNOWN_PREFIX);
    }
  }

  lemma CanonOfRecognised(text: string)
    requires Recognised(text)
    ensures CanonicalText(text) == Str(Spell(RecognisedWord(text)))
    ensures LabelWord(WordLabel(RecognisedWord(text))) == RecognisedWord(text)
  {
    RecognisedTexts(text);
    if LabelOf(text).None? { CanonOfKeyText(text); }
    LabelWordIsItsOwn(if LabelOf(text).Some? then LabelOf(text).value else WordLabel(WordOf(Lower(text)).value));
  }

  lemma CanonOfKeyText(text: string)
    requires LabelOf(text).None? && WordOf(Lower(text)).Some? && text != "" && !Inherited(text) && !(UNKNOWN_PREFIX <= text)
    ensures CanonicalText(text) == Str(Spell(LabelWord(WordLabel(WordOf(Lower(text)).value))))
  {
    UpperLookupIsIdle(text);
  }

  lemma LabelWordIsItsOwn(l: Label)
    ensures LabelWord(WordLabel(LabelWord(l))) == LabelWord(l)
  {
  }

  lemma CanonOfUnrecognised(text: string)
    requires text != "" && !Recognised(text) && !(UNKNOWN_PREFIX <= text) && !Inherited(text)
    ensures CanonicalText(text) == Str(Lower(text))
  {
    UpperLookupIsIdle(text);
  }

  lemma LowerTextStaysUnrecognised(text: string)
    requires text != "" && !Recognised(text) && !(UNKNOWN_PREFIX <= text) && Tight(text, IsSpace)
    ensures var lower := Lower(text);
      lower != "" && !Recognised(lower) && !(UNKNOWN_PREFIX <= lower) && Trim(lower) == lower && Lower(lower) == lower
  {
    var lower := Lower(text);
    CaseMaps(text);
    PrefixHasNoLetters();
    LowerKeepsPrefix(text, UNKNOWN_PREFIX);
    LowerKeepsTight(text, IsSpace);
    if LabelOf(lower).Some? {
      LabelTexts(lower);
      LowerWithoutLetters(text, lower);
    }
  }

  lemma CanonOfPrefixed(text: string)
    requires UNKNOWN_PREFIX <= text
    ensures CanonicalText(text) == Str(Spell(Unknown)) && !Inherited(text) && !Inherited(Lower(text)) && !Recognised(text)
  {
    PrefixHasNoLetters();
    LowerKeepsPrefix(text, UNKNOWN_PREFIX);
    assert text[0] == '未' && Lower(text)[0] == '未';
    if Inherited(text) { InheritedTexts(text); }
    if Inherited(Lower(text)) { InheritedTexts(Lower(text)); }
    if Recognised(text) { RecognisedTexts(text); }
  }

  /**
   * For every text whose canonical key is a string, canonicalising that key again changes nothing, exactly when
   * the lower-case text is not a name inherited from Object.prototype (of these only `constructor` and `__proto__` are
   * in lower case).
   */
  lemma CanonIsIdempotentIff(raw: Option<string>)
    requires ToCanonicalOrderStatus(raw).Str?
    ensures ToCanonicalOrderStatus(Some(ToCanonicalOrderStatus(raw).s)) == ToCanonicalOrderStatus(raw)
      <==> !Inherited(Lower(StatusText(raw)))
  {
    var text := StatusText(raw);
    if text == "" {
      if Inherited(Lower(text)) { InheritedTexts(Lower(text)); }
    } else if UNKNOWN_PREFIX <= text || Recognised(text) {
      KnownTextIsIdempotent(text);
    } else {
      UnknownTextIsIdempotentIff(text);
    }
  }

  lemma KnownTextIsIdempotent(text: string)
    requires UNKNOWN_PREFIX <= text || Recognised(text)
    ensures CanonicalText(text).Str? && !Inherited(Lower(text))
    ensures CanonicalText(Trim(CanonicalText(text).s)) == CanonicalText(text)
  {
    if UNKNOWN_PREFIX <= text {
      CanonOfPrefixed(text);
      CanonOfWord(Unknown);
    } else {
      CanonOfRecognised(text);
      RecognisedTexts(text);
      CanonOfWord(RecognisedWord(text));
    }
  }

  lemma UnknownTextIsIdempotentIff(text: string)
    requires text != "" && !(UNKNOWN_PREFIX <= text) && !Recognised(text) && Tight(text, IsSpace) && CanonicalText(text).Str?
    ensures CanonicalText(Trim(CanonicalText(text).s)) == CanonicalText(text) <==> !Inherited(Lower(text))
  {
    if Inherited(text) { InheritedTexts(text); }
    CanonOfUnrecognised(text);
    LowerTextStaysUnrecognised(text);
    if !Inherited(Lower(text)) { CanonOfUnrecognised(Lower(text)); }
  }

  /** Such a text: written with a capital it has a key, and that key has none. */
  lemma ConstructorIsNotIdempotent()
    ensures ToCanonicalOrderStatus(Some("Constructor")) == Str("constructor")
    ensures ToCanonicalOrderStatus(Some("constructor")) == Foreign
  {
    assert Lower("Constructor") == "constructor";
    assert Name(Constructor) == "constructor";
    MemberHasNoKey(Constructor);
    CapitalMember("Constructor", Constructor);
  }

  lemma MemberHasNoKey(m: Member)
    ensures ToCanonicalOrderStatus(Some(Name(m))) == Foreign
  {
    InheritedTexts(Name(m));
    MemberIsTight(m);
  }

  lemma MemberIsTight(m: Member)
    ensures Tight(Name(m), IsSpace) && Trim(Name(m)) == Name(m)
  {
  }

  lemma CapitalMember(s: string, m: Member)
    requires Lower(s) == Name(m) && s != "" && 'A' <= s[0] <= 'Z'
    ensures ToCanonicalOrderStatus(Some(s)) == Str(Name(m))
  {
    MemberIsTight(m);
    LowerKeepsTight(s, IsSpace);
    CapitalIsNotInherited(s);
    InheritedTexts(Name(m));
    WordTextsOfMember(m);
    PrefixHasNoLetters();
    if LabelOf(s).Some? { LabelTexts(s); }
    UpperLookupIsIdle(s);
  }

  lemma WordTextsOfMember(m: Member)
    ensures WordOf(Name(m)).None?
  {
    if WordOf(Name(m)).Some? { WordTexts(Name(m)); }
  }

  lemma CapitalIsNotInherited(s: string)
    requires s != "" && 'A' <= s[0] <= 'Z'
    ensures !Inherited(s)
  {
    if Inherited(s) { InheritedTexts(s); }
  }

  /** The result is a string exactly when the trimmed text is not an inherited name. */
  lemma CanonIsAStringIff(raw: Option<string>)
    ensures ToCanonicalOrderStatus(raw).Str? <==> !Inherited(StatusText(raw))
  {
    var text := StatusText(raw);
    if Inherited(text) { InheritedTexts(text); } else { UpperLookupIsIdle(text); }
  }

  // ---------------------------------------------------------------- the display label

  function OrderStatusToZh(raw: Option<string>): JsValue {
    var text := StatusText(raw);
    if text == "" then Str("未知状态(空)")
    else if LabelOf(text).Some? then Str(text)
    else
      match StatusMap(text)
      case Own(l) => Str(Show(l))
      case NotAString => Foreign
      case Absent =>
        match StatusMap(Lower(text))
        case Own(l) => Str(Show(l))
        case NotAString => Foreign
        case Absent =>
          match StatusMap(Upper(text))
          case Own(l) => Str(Show(l))
          case NotAString => Foreign
          case Absent => Str(UNKNOWN_PREFIX + text + ")")
  }

  lemma ZhOfRecognised(raw: Option<string>)
    requires LabelOf(StatusText(raw)).None? && WordOf(Lower(StatusText(raw))).Some?
    ensures OrderStatusToZh(raw) == Str(Show(WordLabel(WordOf(Lower(StatusText(raw))).value)))
  {
    var text := StatusText(raw);
    RecognisedTexts(text);
    if WordOf(text).Some? { WordTexts(text); }
  }

  lemma ZhOfUnrecognised(raw: Option<string>)
    requires var text := StatusText(raw); text != "" && !Recognised(text) && !Inherited(text) && !Inherited(Lower(text))
    ensures OrderStatusToZh(raw) == Str(UNKNOWN_PREFIX + StatusText(raw) + ")")
  {
    var text := StatusText(raw);
    CaseMaps(text);
    CaseMaps(Lower(text));
    UpperIsNoWord(text);
    if WordOf(text).Some? { WordTexts(text); }
  }

  lemma CanonOfUnknownLabel(z: string)
    requires |z| > 5 && z[..5] == UNKNOWN_PREFIX && z[|z| - 1] == ')'
    ensures ToCanonicalOrderStatus(Some(z)) == Str(Spell(Unknown))
  {
    PrefixHasNoLetters();
    assert z[0] == z[..5][0] == '未';
    assert Trim(z) == z;
  }

  /**
   * Where both are strings, canonicalising the display label gives the key of the status itself exactly for the
   * recognised statuses and for texts that already are an unknown-status label; every other text turns into `unknown`.
   */
  lemma LabelHasTheSameKeyIff(raw: Option<string>)
    requires !Inherited(StatusText(raw)) && !Inherited(Lower(StatusText(raw)))
    ensures OrderStatusToZh(raw).Str?
    ensures ToCanonicalOrderStatus(Some(OrderStatusToZh(raw).s)) == ToCanonicalOrderStatus(raw)
      <==> Recognised(StatusText(raw)) || UNKNOWN_PREFIX <= StatusText(raw)
  {
    var text := StatusText(raw);
    if LabelOf(text).Some? {
      LabelTexts(text);
    } else if WordOf(Lower(text)).Some? {
      ZhOfRecognised(raw);
      CanonOfRecognised(text);
      CanonOfLabel(WordLabel(WordOf(Lower(text)).value));
    } else if text == "" {
      PrefixHasNoLetters();
      CanonOfUnknownLabel("未知状态(空)");
      SpellIsLatin(Unknown);
      if Recognised(text) { RecognisedTexts(text); }
    } else {
      ZhOfUnrecognised(raw);
      PrefixHasNoLetters();
      CanonOfUnknownLabel(UNKNOWN_PREFIX + text + ")");
      if UNKNOWN_PREFIX <= text {
        CanonOfPrefixed(text);
      } else {
        CanonOfUnrecognised(text);
        WordOfSpell(Unknown);
      }
    }
  }
}
