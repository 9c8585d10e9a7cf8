/**
 * The frontend keeps its own copy of the status tables and of the two functions on them, and says it is aligned with the
 * backend. Where the two agree, and where not.
 *
 * The frontend's tables are written out here as texts, apart from those of `OrderStatus`.
 */
module OrderStatusFront {
  import opened Options
  import opened Text
  import opened OrderStatus

  // ---------------------------------------------------------------- the frontend's tables

  /** The keys of its ORDER_STATUS_MAP in small letters. */
  function FrontSmall(key: string): Option<string> {
    match key
    case "unpaid" => Some("未付款")
    case "awaiting_payment" | "pending_payment" | "pending" => Some("待付款")
    case "on_hold" => Some("挂起")
    case "awaiting_shipment" | "shipped" | "ready_to_ship" | "to_ship" => Some("待发货")
    case "awaiting_collection" | "awaiting_package" => Some("待揽收")
    case "partially_shipping" | "partially_shipped" => Some("部分发货")
    case "in_transit" => Some("运输中")
    case "delivered" => Some("已送达")
    case "completed" => Some("已完成")
    case "paid" => Some("已支付")
    case "cancelled" | "canceled" => Some("已取消")
    case "buyer_cancel" => Some("买家取消")
    case "seller_cancel" => Some("卖家取消")
    case "returned" => Some("已退货")
    case "refund" => Some("退款中")
    case "refunded" => Some("已退款")
    case "unknown" => Some("未知")
    case "sample_order" | "is_sample_order" => Some("样品订单")
    case _ => None
  }

  /** And those in capitals. */
  function FrontCapital(key: string): Option<string> {
    match key
    case "UNPAID" => Some("未付款")
    case "AWAITING_PAYMENT" => Some("待付款")
    case "ON_HOLD" => Some("挂起")
    case "AWAITING_SHIPMENT" => Some("待发货")
    case "AWAITING_COLLECTION" => Some("待揽收")
    case "PARTIALLY_SHIPPING" => Some("部分发货")
    case "IN_TRANSIT" => Some("运输中")
    case "DELIVERED" => Some("已送达")
    case "COMPLETED" => Some("已完成")
    case "PAID" => Some("已支付")
    case "CANCELLED" | "CANCELED" => Some("已取消")
    case "RETURNED" => Some("已退货")
    case "REFUND" => Some("退款中")
    case "REFUNDED" => Some("已退款")
    case "SAMPLE_ORDER" => Some("样品订单")
    case _ => None
  }

  function FrontStatusMap(key: string): Option<string> {
    if FrontSmall(key).Some? then FrontSmall(key) else FrontCapital(key)
  }

  /** LABEL_TO_CANON of the frontend; its labels are also the values of the other table. */
  function FrontLabelToCanon(zh: string): Option<string> {
    match zh
    case "已取消" => Some("cancelled")
    case "买家取消" => Some("buyer_cancel")
    case "卖家取消" => Some("seller_cancel")
    case "挂起" => Some("on_hold")
    case "未付款" => Some("unpaid")
    case "待付款" => Some("awaiting_payment")
    case "待发货" => Some("awaiting_shipment")
    case "待揽收" => Some("awaiting_collection")
    case "部分发货" => Some("partially_shipping")
    case "运输中" => Some("in_transit")
    case "已送达" => Some("delivered")
    case "已完成" => Some("completed")
    case "已支付" => Some("paid")
    case "退款中" => Some("refund")
    case "已退款" => Some("refunded")
    case "已退货" => Some("returned")
    case "未知" => Some("unknown")
    case "样品订单" => Some("sample_order")
    case _ => None
  }

  /** KNOWN_ZH: the values of the status table. */
  ghost predicate FrontKnown(text: string) { exists key :: FrontStatusMap(key) == Some(text) }

  // ---------------------------------------------------------------- its two functions

  /** A lookup that may go through to Object.prototype. */
  function FrontLookUp(key: string): Option<JsValue> {
    match FrontStatusMap(key)
    case Some(zh) => Some(Str(zh))
    case None => if Inherited(key) then Some(Foreign) else None
  }

  ghost function FrontToZh(raw: Option<string>): JsValue {
    var text := StatusText(raw);
    if text == "" then Str("未知状态(空)")
    else if FrontKnown(text) then Str(text)
    else if FrontLookUp(text).Some? then FrontLookUp(text).value
    else if FrontLookUp(Lower(text)).Some? then FrontLookUp(Lower(text)).value
    else if FrontLookUp(Upper(text)).Some? then FrontLookUp(Upper(text)).value
    else Str(UNKNOWN_PREFIX + text + ")")
  }

  /** What LABEL_TO_CANON makes of a label; of a function it makes nothing. */
  function FrontCanonOf(found: JsValue, otherwise: string): JsValue {
    match found
    case Str(zh) => if FrontLabelToCanon(zh).Some? then Str(FrontLabelToCanon(zh).value) else Str(otherwise)
    case Foreign => Str(otherwise)
  }

  function FrontToCanonical(raw: Option<string>): JsValue {
    var text := StatusText(raw);
    if text == "" then Str("")
    else if UNKNOWN_PREFIX <= text then Str("unknown")
    else if FrontLabelToCanon(text).Some? then Str(FrontLabelToCanon(text).value)
    else if Inherited(text) then Foreign
    else if FrontLookUp(Lower(text)).Some? then FrontCanonOf(FrontLookUp(Lower(text)).value, Lower(text))
    else if FrontLookUp(Upper(text)).Some? then FrontCanonOf(FrontLookUp(Upper(text)).value, Lower(Upper(text)))
    else Str(Lower(text))
  }

  // ---------------------------------------------------------------- the tables agree

  lemma CapitalsUpTo8()
    ensures Upper("unpaid") == "UNPAID" && Upper("on_hold") == "ON_HOLD" && Upper("paid") == "PAID"
    ensures Upper("canceled") == "CANCELED" && Upper("returned") == "RETURNED"
    ensures Upper("refund") == "REFUND" && Upper("refunded") == "REFUNDED"
  {
  }

  lemma CapitalsUpTo10()
    ensures Upper("in_transit") == "IN_TRANSIT" && Upper("delivered") == "DELIVERED" && Upper("completed") == "COMPLETED"
    ensures Upper("cancelled") == "CANCELLED"
  {
  }

  lemma CapitalsUpTo17()
    ensures Upper("awaiting_payment") == "AWAITING_PAYMENT" && Upper("awaiting_shipment") == "AWAITING_SHIPMENT"
  {
  }

  lemma CapitalsFrom18()
    ensures Upper("awaiting_collection") == "AWAITING_COLLECTION" && Upper("partially_shipping") == "PARTIALLY_SHIPPING"
  {
  }

  /** Every key of the backend is one of the frontend, with the same label. */
  lemma SmallKeysAgree(w: Word)
    ensures FrontSmall(Spell(w)) == Some(Show(WordLabel(w)))
  {
    if |Spell(w)| <= 7 { ShortKeysAgree(w); } else if |Spell(w)| <= 12 { MiddleKeysAgree(w); } else { LongKeysAgree(w); }
  }

  lemma ShortKeysAgree(w: Word)
    requires |Spell(w)| <= 7
    ensures FrontSmall(Spell(w)) == Some(Show(WordLabel(w)))
  {
  }

  lemma MiddleKeysAgree(w: Word)
    requires 7 < |Spell(w)| <= 12
    ensures FrontSmall(Spell(w)) == Some(Show(WordLabel(w)))
  {
  }

  lemma LongKeysAgree(w: Word)
    requires |Spell(w)| > 12
    ensures FrontSmall(Spell(w)) == Some(Show(WordLabel(w)))
  {
  }

  lemma CapitalKeysAgree(w: Word)
    requires HasUpperKey(w)
    ensures FrontCapital(Upper(Spell(w))) == Some(Show(WordLabel(w)))
  {
    CapitalsUpTo8();
    CapitalsUpTo10();
    CapitalsUpTo17();
    CapitalsFrom18();
  }

  predicate OpeningKey(key: string) {
    key in {"unpaid", "awaiting_payment", "pending_payment", "pending", "on_hold", "paid"}
  }

  lemma OpeningKeysAreWords(key: string)
    requires OpeningKey(key)
    ensures WordOf(key).Some?
  {
    assert Spell(Unpaid) == "unpaid" && Spell(AwaitingPayment) == "awaiting_payment";
    assert Spell(PendingPayment) == "pending_payment";
    assert Spell(Pending) == "pending" && Spell(OnHold) == "on_hold" && Spell(Paid) == "paid";
  }

  predicate ShippingKey(key: string) {
    key in {"awaiting_shipment", "shipped", "ready_to_ship", "to_ship", "awaiting_collection", "awaiting_package"}
  }

  lemma ShippingKeysAreWords(key: string)
    requires ShippingKey(key)
    ensures WordOf(key).Some?
  {
    assert Spell(AwaitingShipment) == "awaiting_shipment" && Spell(Shipped) == "shipped";
    assert Spell(ReadyToShip) == "ready_to_ship";
    assert Spell(ToShip) == "to_ship" && Spell(AwaitingCollection) == "awaiting_collection";
    assert Spell(AwaitingPackage) == "awaiting_package";
  }

  predicate MovingKey(key: string) {
    key in {"partially_shipping", "partially_shipped", "in_transit", "delivered", "completed", "unknown"}
  }

  lemma MovingKeysAreWords(key: string)
    requires MovingKey(key)
    ensures WordOf(key).Some?
  {
    assert Spell(PartiallyShipping) == "partially_shipping" && Spell(PartiallyShipped) == "partially_shipped";
    assert Spell(InTransit) == "in_transit";
    assert Spell(Delivered) == "delivered" && Spell(Completed) == "completed" && Spell(Unknown) == "unknown";
  }

  predicate ClosingKey(key: string) {
    key in {"cancelled", "canceled", "buyer_cancel", "seller_cancel", "returned", "refund", "refunded"}
  }

  lemma ClosingKeysAreWords(key: string)
    requires ClosingKey(key)
    ensures WordOf(key).Some?
  {
    assert Spell(Cancelled) == "cancelled" && Spell(Canceled) == "canceled" && Spell(BuyerCancel) == "buyer_cancel";
    assert Spell(SellerCancel) == "seller_cancel" && Spell(Returned) == "returned";
    assert Spell(Refund) == "refund" && Spell(Refunded) == "refunded";
  }

  /** And the frontend has no others, but for sample orders. */
  lemma SmallKeysAreWords(key: string)
    requires FrontSmall(key).Some? && key != "sample_order" && key != "is_sample_order"
    ensures WordOf(key).Some?
  {
    if OpeningKey(key) {
      OpeningKeysAreWords(key);
    } else if ShippingKey(key) {
      ShippingKeysAreWords(key);
    } else if MovingKey(key) {
      MovingKeysAreWords(key);
    } else {
      ClosingKeysAreWords(key);
    }
  }

  predicate CapitalOf(w: Word, key: string) { HasUpperKey(w) && key == Upper(Spell(w)) }

  predicate ShortCapital(key: string) { key in {"UNPAID", "ON_HOLD", "PAID", "CANCELED"} }

  predicate LongCapital(key: string) {
    key in {"AWAITING_PAYMENT", "AWAITING_SHIPMENT", "AWAITING_COLLECTION", "PARTIALLY_SHIPPING"}
  }

  predicate MiddleCapital(key: string) { key in {"IN_TRANSIT", "DELIVERED", "COMPLETED", "CANCELLED"} }

  lemma ShortCapitalsAreWords(key: string)
    requires ShortCapital(key)
    ensures exists w :: CapitalOf(w, key)
  {
    CapitalsUpTo8();
    assert CapitalOf(Unpaid, key) || CapitalOf(OnHold, key) || CapitalOf(Paid, key) || CapitalOf(Canceled, key);
  }

  lemma ReturnCapitalsAreWords(key: string)
    requires key in {"RETURNED", "REFUND", "REFUNDED"}
    ensures exists w :: CapitalOf(w, key)
  {
    CapitalsUpTo8();
    assert CapitalOf(Returned, key) || CapitalOf(Refund, key) || CapitalOf(Refunded, key);
  }

  lemma LongCapitalsAreWords(key: string)
    requires LongCapital(key)
    ensures exists w :: CapitalOf(w, key)
  {
    CapitalsUpTo17();
    CapitalsFrom18();
    assert CapitalOf(AwaitingPayment, key) || CapitalOf(AwaitingShipment, key) || CapitalOf(AwaitingCollection, key)
      || CapitalOf(PartiallyShipping, key);
  }

  lemma MiddleCapitalsAreWords(key: string)
    requires MiddleCapital(key)
    ensures exists w :: CapitalOf(w, key)
  {
    CapitalsUpTo10();
    if key == "IN_TRANSIT" {
      assert CapitalOf(InTransit, key);
    } else {
      assert CapitalOf(Delivered, key) || CapitalOf(Completed, key) || CapitalOf(Cancelled, key);
    }
  }

  lemma CapitalKeysAreWords(key: string)
    requires FrontCapital(key).Some? && key != "SAMPLE_ORDER"
    ensures exists w :: CapitalOf(w, key)
  {
    if LongCapital(key) {
      LongCapitalsAreWords(key);
    } else if ShortCapital(key) {
      ShortCapitalsAreWords(key);
    } else if MiddleCapital(key) {
      MiddleCapitalsAreWords(key);
    } else {
      ReturnCapitalsAreWords(key);
    }
  }

  predicate SampleKey(key: string) { key in {"SAMPLE_ORDER", "sample_order", "is_sample_order"} }

  /** One lookup in the two tables. */
  lemma LookUpsAgree(key: string)
    requires !SampleKey(key)
    ensures FrontLookUp(key) ==
      match StatusMap(key) case Own(l) => Some(Str(Show(l))) case NotAString => Some(Foreign) case Absent => None
  {
    if WordOf(key).Some? {
      WordTexts(key);
      SmallKeysAgree(WordOf(key).value);
    } else {
      if FrontSmall(key).Some? { SmallKeysAreWords(key); }
      if UpperWordOf(key).Some? { CapitalKeysAgree(UpperWordOf(key).value); }
      if FrontCapital(key).Some? {
        CapitalKeysAreWords(key);
        var w :| CapitalOf(w, key);
        CapitalIsFound(w);
      }
    }
  }

  lemma CapitalIsFound(w: Word)
    requires HasUpperKey(w)
    ensures UpperWordOf(Upper(Spell(w))) == Some(w)
  {
    CaseMaps(Spell(w));
    SpellIsLower(w);
    WordOfSpell(w);
  }

  lemma LabelsAgree(l: Label)
    ensures FrontLabelToCanon(Show(l)) == Some(Spell(LabelWord(l)))
  {
  }

  lemma LabelsAreLabels(zh: string)
    requires FrontLabelToCanon(zh).Some? && zh != "样品订单"
    ensures LabelOf(zh).Some?
  {
    match zh
    case "已取消" => LabelOfShow(WasCancelled);
    case "买家取消" => LabelOfShow(ByBuyer);
    case "卖家取消" => LabelOfShow(BySeller);
    case "挂起" => LabelOfShow(Suspended);
    case "未付款" => LabelOfShow(NotPaid);
    case "待付款" => LabelOfShow(ToPay);
    case "待发货" => LabelOfShow(ToBeShipped);
    case "待揽收" => LabelOfShow(ToBeCollected);
    case "部分发货" => LabelOfShow(PartlyShipped);
    case "运输中" => LabelOfShow(UnderWay);
    case "已送达" => LabelOfShow(Arrived);
    case "已完成" => LabelOfShow(Finished);
    case "已支付" => LabelOfShow(HasPaid);
    case "退款中" => LabelOfShow(Refunding);
    case "已退款" => LabelOfShow(MoneyBack);
    case "已退货" => LabelOfShow(SentBack);
    case _ => LabelOfShow(NotKnown);
  }

  /** The values of the frontend's status table are the labels of the backend, and one more. */
  lemma KnownAreLabels(text: string)
    ensures FrontKnown(text) <==> LabelOf(text).Some? || text == "样品订单"
  {
    if LabelOf(text).Some? {
      LabelTexts(text);
      var w := LabelWord(LabelOf(text).value);
      LabelsHaveWords(LabelOf(text).value);
      SmallKeysAgree(w);
      assert FrontStatusMap(Spell(w)) == Some(text);
    }
    if text == "样品订单" { assert FrontStatusMap("sample_order") == Some(text); }
    if FrontKnown(text) {
      var key :| FrontStatusMap(key) == Some(text);
      if SampleKey(key) {
        assert text == "样品订单";
      } else {
        LookUpsAgree(key);
        LabelOfShow(StatusMap(key).shown);
      }
    }
  }

  lemma LabelsHaveWords(l: Label)
    ensures WordLabel(LabelWord(l)) == l
  {
  }

  // ---------------------------------------------------------------- where the two functions agree

  /** Texts of a sample order, in any case or as a label. */
  predicate NamesSample(text: string) { text == "样品订单" || Lower(text) == "sample_order" || Lower(text) == "is_sample_order" }

  lemma SampleKeysInSmall(key: string)
    requires SampleKey(key)
    ensures NamesSample(key) && Lower(key) in {"sample_order", "is_sample_order"}
  {
    if key == "SAMPLE_ORDER" { assert Lower(key) == "sample_order"; }
    if key == "sample_order" { assert Lower(key) == "sample_order"; }
    if key == "is_sample_order" { assert Lower(key) == "is_sample_order"; }
  }

  lemma SampleKeysNameSamples(text: string)
    requires SampleKey(text) || SampleKey(Lower(text)) || SampleKey(Upper(text))
    ensures NamesSample(text)
  {
    CaseMaps(text);
    SampleKeysInSmall(if SampleKey(text) then text else if SampleKey(Lower(text)) then Lower(text) else Upper(text));
  }

  /** The backend knows nothing of them. */
  lemma SampleLabelIsUnknown(text: string)
    requires text == "样品订单"
    ensures NoLetters(text) && Lower(text) == text && LabelOf(text).None? && !(UNKNOWN_PREFIX <= text)
  {
    assert NoLetters(text);
    LowerWithoutLetters(text, text);
  }

  lemma SampleWordIsUnknown(lower: string)
    requires lower == "sample_order" || lower == "is_sample_order"
    ensures Latin(lower) && WordOf(lower).None? && !Inherited(lower)
  {
  }

  lemma SamplesAreUnknown(text: string)
    requires NamesSample(text)
    ensures text != "" && !Recognised(text) && !(UNKNOWN_PREFIX <= text) && !Inherited(text) && !Inherited(Lower(text))
  {
    PrefixHasNoLetters();
    if text == "样品订单" {
      SampleLabelIsUnknown(text);
      if WordOf(text).Some? { WordTexts(text); }
      if Inherited(text) { InheritedTexts(text); }
    } else {
      SampleWordIsUnknown(Lower(text));
      if LabelOf(text).Some? {
        LabelTexts(text);
        LowerWithoutLetters(text, text);
      }
      LowerKeepsPrefix(text, UNKNOWN_PREFIX);
      if Inherited(text) { SampleIsNoMember(text); }
    }
  }

  lemma SampleIsNoMember(text: string)
    requires Inherited(text)
    ensures |text| != 12 && |text| != 15
  {
  }

  lemma SamplesDiffer(raw: Option<string>)
    requires NamesSample(StatusText(raw))
    ensures FrontToZh(raw) == Str("样品订单") && OrderStatusToZh(raw) == Str(UNKNOWN_PREFIX + StatusText(raw) + ")")
  {
    var text := StatusText(raw);
    SamplesAreUnknown(text);
    ZhOfUnrecognised(raw);
    KnownAreLabels(text);
    if text != "样品订单" { SampleTextIsFound(text); }
  }

  lemma SampleTextIsFound(text: string)
    requires NamesSample(text) && text != "样品订单"
    ensures FrontLookUp(Lower(text)) == Some(Str("样品订单"))
    ensures FrontLookUp(text).Some? ==> FrontLookUp(text) == Some(Str("样品订单"))
  {
    if !SampleKey(text) {
      SamplesAreUnknown(text);
      LookUpsAgree(text);
      if WordOf(text).Some? { WordTexts(text); }
    }
  }

  lemma OthersAreLabelledAlike(raw: Option<string>)
    requires !NamesSample(StatusText(raw))
    ensures FrontToZh(raw) == OrderStatusToZh(raw)
  {
    var text := StatusText(raw);
    KnownAreLabels(text);
    if SampleKey(text) || SampleKey(Lower(text)) || SampleKey(Upper(text)) { SampleKeysNameSamples(text); }
    LookUpsAgree(text);
    LookUpsAgree(Lower(text));
    LookUpsAgree(Upper(text));
  }

  /** For every status: both show the same label, exactly when the text is none of a sample order. */
  lemma LabelsAgreeIff(raw: Option<string>)
    ensures FrontToZh(raw) == OrderStatusToZh(raw) <==> !NamesSample(StatusText(raw))
  {
    if NamesSample(StatusText(raw)) {
      SamplesDiffer(raw);
      SamplesAreUnknown(StatusText(raw));
      assert UNKNOWN_PREFIX[0] == '未' && (UNKNOWN_PREFIX + StatusText(raw) + ")")[0] == '未';
    } else {
      OthersAreLabelledAlike(raw);
    }
  }

  /** What the frontend's table of labels holds. */
  lemma CanonsAgree(text: string)
    requires text != "样品订单"
    ensures FrontLabelToCanon(text) == match LabelOf(text) case Some(l) => Some(Spell(LabelWord(l))) case None => None
  {
    if LabelOf(text).Some? {
      LabelTexts(text);
      LabelsAgree(LabelOf(text).value);
    } else if FrontLabelToCanon(text).Some? {
      LabelsAreLabels(text);
    }
  }

  lemma FoundCanonsAgree(key: string, otherwise: string)
    requires !SampleKey(key)
    ensures FrontLookUp(key).Some? <==> !StatusMap(key).Absent?
    ensures FrontLookUp(key).Some? ==>
      FrontCanonOf(FrontLookUp(key).value, otherwise)
        == match StatusMap(key) case Own(l) => Str(Spell(LabelWord(l))) case _ => Str(otherwise)
  {
    LookUpsAgree(key);
    if StatusMap(key).Own? { LabelsAgree(StatusMap(key).shown); }
  }

  lemma SampleCanon()
    ensures FrontLabelToCanon("样品订单") == Some("sample_order")
  {
  }

  lemma SampleTextHasItsKey(raw: Option<string>)
    requires NamesSample(StatusText(raw)) && StatusText(raw) != "样品订单"
    ensures FrontToCanonical(raw) == Str("sample_order")
  {
    var text := StatusText(raw);
    SampleCanon();
    SamplesAreUnknown(text);
    CanonsAgree(text);
    SampleTextIsFound(text);
  }

  lemma SampleKeysOfBoth(raw: Option<string>)
    requires NamesSample(StatusText(raw))
    ensures FrontToCanonical(raw) == Str("sample_order") && ToCanonicalOrderStatus(raw) == Str(Lower(StatusText(raw)))
  {
    var text := StatusText(raw);
    SamplesAreUnknown(text);
    CanonOfUnrecognised(text);
    SampleCanon();
    if text != "样品订单" { SampleTextHasItsKey(raw); }
  }

  lemma OthersHaveOneKey(raw: Option<string>)
    requires !NamesSample(StatusText(raw))
    ensures FrontToCanonical(raw) == ToCanonicalOrderStatus(raw)
  {
    var text := StatusText(raw);
    CanonsAgree(text);
    if SampleKey(Lower(text)) || SampleKey(Upper(text)) { SampleKeysNameSamples(text); }
    FoundCanonsAgree(Lower(text), Lower(text));
    FoundCanonsAgree(Upper(text), Lower(Upper(text)));
  }

  /** Both give the same key, exactly when the text is not the sample label and not is_sample_order in any case. */
  lemma KeysAgreeIff(raw: Option<string>)
    ensures FrontToCanonical(raw) == ToCanonicalOrderStatus(raw)
      <==> StatusText(raw) != "样品订单" && Lower(StatusText(raw)) != "is_sample_order"
  {
    var text := StatusText(raw);
    if NamesSample(text) {
      SampleKeysOfBoth(raw);
      if text == "样品订单" { SampleLabelIsUnknown(text); }
    } else {
      OthersHaveOneKey(raw);
    }
  }
}
