/** The text key of a dashboard cache entry, and when different requests have different keys. */
module CacheKey {
  import opened Options
  import opened Text

  datatype Endpoint = Summary | Ranking | ProductRanking | GmvCompare | OrderVolume | Trend

  datatype Entry = Entry(name: string, value: string)

  /** Everything a key is made of. `extra` are the entries of the extra object, sorted by name as the source sorts them. */
  datatype Key = Key(
    endpoint: Endpoint,
    tenant: Option<int>,
    shop: string,
    market: string,
    orderFilter: string,
    timeRange: string,
    startDate: string,
    endDate: string,
    extra: seq<Entry>)

  function EndpointText(e: Endpoint): string {
    match e
    case Summary => "summary"
    case Ranking => "ranking"
    case ProductRanking => "product-ranking"
    case GmvCompare => "gmv-compare"
    case OrderVolume => "order-volume"
    case Trend => "trend"
  }

  function TenantText(t: Option<int>): string {
    match t
    case None => "none"
    case Some(n) => if n < 0 then "-" + Decimal(-n) else Decimal(n)
  }

  function EntryText(e: Entry): string { e.name + "=" + e.value }

  function JoinEntries(extra: seq<Entry>): string
    decreases |extra|
  {
    if extra == [] then ""
    else if |extra| == 1 then EntryText(extra[0])
    else EntryText(extra[0]) + "|" + JoinEntries(extra[1..])
  }

  /** The fields before the extra part, each with its colon. */
  function Fields(k: Key): seq<string> {
    [EndpointText(k.endpoint), TenantText(k.tenant), k.shop, k.market, k.orderFilter, k.timeRange, k.startDate]
  }

  function JoinFields(fields: seq<string>, last: string): string
    decreases |fields|
  {
    if fields == [] then last else fields[0] + ":" + JoinFields(fields[1..], last)
  }

  function BuildDashboardCacheKey(k: Key): string {
    "dashboard:" + JoinFields(Fields(k), if k.extra == [] then k.endDate else k.endDate + ":" + JoinEntries(k.extra))
  }

  /** What a request carries through the cache: its fields, and the text computed from them once. */
  datatype Query = Query(key: Key, cacheKey: string)

  function QueryOf(k: Key): Query { Query(k, BuildDashboardCacheKey(k)) }

  // ---------------------------------------------------------------- the text, spelled out

  /** The text of a key whose endpoint is written like this. */
  function Spelled(endpoint: string, k: Key): string {
    var last := if k.extra == [] then k.endDate else k.endDate + ":" + JoinEntries(k.extra);
    var filters := k.orderFilter + ":" + (k.timeRange + ":" + (k.startDate + ":" + last));
    "dashboard:" + (endpoint + ":" + (TenantText(k.tenant) + ":" + (k.shop + ":" + (k.market + ":" + filters))))
  }

  lemma JoinFirst(first: string, rest: seq<string>, last: string)
    ensures JoinFields([first] + rest, last) == first + ":" + JoinFields(rest, last)
  {
    assert ([first] + rest)[1..] == rest;
  }

  lemma JoinThree(e: string, f: string, g: string, last: string)
    ensures JoinFields([e, f, g], last) == e + ":" + (f + ":" + (g + ":" + last))
  {
    JoinFirst(e, [f, g], last);
    JoinFirst(f, [g], last);
    JoinFirst(g, [], last);
    assert [e, f, g] == [e] + [f, g] && [f, g] == [f] + [g] && [g] == [g] + [];
  }

  lemma JoinSeven(a: string, b: string, c: string, d: string, e: string, f: string, g: string, last: string)
    ensures JoinFields([a, b, c, d, e, f, g], last)
      == a + ":" + (b + ":" + (c + ":" + (d + ":" + (e + ":" + (f + ":" + (g + ":" + last))))))
  {
    JoinThree(e, f, g, last);
    JoinFirst(d, [e, f, g], last);
    JoinFirst(c, [d, e, f, g], last);
    JoinFirst(b, [c, d, e, f, g], last);
    JoinFirst(a, [b, c, d, e, f, g], last);
    assert [d, e, f, g] == [d] + [e, f, g] && [c, d, e, f, g] == [c] + [d, e, f, g];
    assert [b, c, d, e, f, g] == [b] + [c, d, e, f, g] && [a, b, c, d, e, f, g] == [a] + [b, c, d, e, f, g];
  }

  /** Every field in its place, behind the name of the endpoint. */
  lemma KeySpelledOut(k: Key)
    ensures BuildDashboardCacheKey(k) ==
      match k.endpoint
      case Summary => Spelled("summary", k)
      case Ranking => Spelled("ranking", k)
      case ProductRanking => Spelled("product-ranking", k)
      case GmvCompare => Spelled("gmv-compare", k)
      case OrderVolume => Spelled("order-volume", k)
      case Trend => Spelled("trend", k)
  {
    var last := if k.extra == [] then k.endDate else k.endDate + ":" + JoinEntries(k.extra);
    JoinSeven(EndpointText(k.endpoint), TenantText(k.tenant), k.shop, k.market, k.orderFilter, k.timeRange, k.startDate, last);
  }

  // ---------------------------------------------------------------- when keys differ

  predicate FreeOf(s: string, c: char) { forall i :: 0 <= i < |s| ==> s[i] != c }

  predicate CleanEntry(e: Entry) { FreeOf(e.name, '=') && FreeOf(e.name, '|') && FreeOf(e.value, '|') }

  /** No field contains the separator that follows it. */
  predicate Clean(k: Key) {
    && FreeOf(k.shop, ':') && FreeOf(k.market, ':') && FreeOf(k.orderFilter, ':') && FreeOf(k.timeRange, ':')
    && FreeOf(k.startDate, ':') && FreeOf(k.endDate, ':')
    && forall i :: 0 <= i < |k.extra| ==> CleanEntry(k.extra[i])
  }

  /** A text is cut in one way only at the first occurrence of a separator. */
  lemma CutOnce(a: string, x: string, b: string, y: string, c: char)
    requires FreeOf(a, c) && FreeOf(b, c) && a + [c] + x == b + [c] + y
    ensures a == b && x == y
  {
    var s := a + [c] + x;
    assert s[|a|] == c && s[|b|] == c;
    assert forall i :: 0 <= i < |a| ==> s[i] == a[i];
    assert forall i :: 0 <= i < |b| ==> s[i] == b[i];
    assert s[..|a|] == a && s[..|b|] == b;
    assert s[|a| + 1..] == x && s[|b| + 1..] == y;
  }

  lemma NoCut(a: string, x: string, b: string, c: char)
    requires FreeOf(b, c)
    ensures a + [c] + x != b
  {
    var s := a + [c] + x;
    assert |a| < |s| && s[|a|] == c;
  }

  lemma {:induction false} JoinFieldsCut(f: seq<string>, g: seq<string>, x: string, y: string)
    requires |f| == |g| && JoinFields(f, x) == JoinFields(g, y)
    requires forall i :: 0 <= i < |f| ==> FreeOf(f[i], ':') && FreeOf(g[i], ':')
    ensures f == g && x == y
    decreases |f|
  {
    if f != [] {
      CutOnce(f[0], JoinFields(f[1..], x), g[0], JoinFields(g[1..], y), ':');
      JoinFieldsCut(f[1..], g[1..], x, y);
      assert f == [f[0]] + f[1..] && g == [g[0]] + g[1..];
    }
  }

  lemma EntryTextCut(d: Entry, e: Entry)
    requires CleanEntry(d) && CleanEntry(e) && EntryText(d) == EntryText(e)
    ensures d == e
  {
    CutOnce(d.name, d.value, e.name, e.value, '=');
  }

  lemma EntryTextIsFree(e: Entry)
    requires CleanEntry(e)
    ensures FreeOf(EntryText(e), '|')
  {
  }

  lemma {:induction false} JoinEntriesCut(d: seq<Entry>, e: seq<Entry>)
    requires d != [] && e != [] && JoinEntries(d) == JoinEntries(e)
    requires forall i :: 0 <= i < |d| ==> CleanEntry(d[i])
    requires forall i :: 0 <= i < |e| ==> CleanEntry(e[i])
    ensures d == e
    decreases |d|
  {
    EntryTextIsFree(d[0]);
    EntryTextIsFree(e[0]);
    if |d| == 1 && |e| == 1 {
      EntryTextCut(d[0], e[0]);
    } else if |d| == 1 {
      NoCut(EntryText(e[0]), JoinEntries(e[1..]), EntryText(d[0]), '|');
    } else if |e| == 1 {
      NoCut(EntryText(d[0]), JoinEntries(d[1..]), EntryText(e[0]), '|');
    } else {
      CutOnce(EntryText(d[0]), JoinEntries(d[1..]), EntryText(e[0]), JoinEntries(e[1..]), '|');
      EntryTextCut(d[0], e[0]);
      JoinEntriesCut(d[1..], e[1..]);
      assert d == [d[0]] + d[1..] && e == [e[0]] + e[1..];
    }
  }

  lemma {:induction false} DecimalHasDigitsOnly(n: nat)
    ensures |Decimal(n)| >= 1 && forall i :: 0 <= i < |Decimal(n)| ==> '0' <= Decimal(n)[i] <= '9'
  {
    if n >= 10 { DecimalHasDigitsOnly(n / 10); }
  }

  lemma TenantTexts(t: Option<int>)
    ensures FreeOf(TenantText(t), ':')
    ensures t.None? <==> TenantText(t)[0] == 'n'
    ensures t.Some? && t.value < 0 <==> TenantText(t)[0] == '-'
  {
    if t.Some? { DecimalHasDigitsOnly(if t.value < 0 then -t.value else t.value); }
  }

  lemma TenantTextsDiffer(s: Option<int>, t: Option<int>)
    requires TenantText(s) == TenantText(t)
    ensures s == t
  {
    TenantTexts(s);
    TenantTexts(t);
    if s.Some? {
      if s.value < 0 {
        assert TenantText(s)[1..] == Decimal(-s.value) && TenantText(t)[1..] == Decimal(-t.value);
        DecimalInjective(-s.value, -t.value);
      } else {
        DecimalInjective(s.value, t.value);
      }
    }
  }

  lemma EndpointTexts(e: Endpoint, f: Endpoint)
    ensures FreeOf(EndpointText(e), ':')
    ensures EndpointText(e) == EndpointText(f) ==> e == f
  {
  }

  lemma FieldsAreFree(k: Key)
    requires Clean(k)
    ensures forall i :: 0 <= i < |Fields(k)| ==> FreeOf(Fields(k)[i], ':')
  {
    EndpointTexts(k.endpoint, k.endpoint);
    TenantTexts(k.tenant);
  }

  lemma SameFields(a: Key, b: Key)
    requires Fields(a) == Fields(b)
    ensures a == b.(endDate := a.endDate, extra := a.extra)
  {
    var f, g := Fields(a), Fields(b);
    assert f[0] == g[0] && f[1] == g[1] && f[2] == g[2] && f[3] == g[3] && f[4] == g[4] && f[5] == g[5] && f[6] == g[6];
    EndpointTexts(a.endpoint, b.endpoint);
    TenantTextsDiffer(a.tenant, b.tenant);
  }

  /** Requests whose fields are free of the separators have the same key text only if they agree in every field. */
  lemma KeysDiffer(a: Key, b: Key)
    requires Clean(a) && Clean(b) && BuildDashboardCacheKey(a) == BuildDashboardCacheKey(b)
    ensures a == b
  {
    var x := if a.extra == [] then a.endDate else a.endDate + ":" + JoinEntries(a.extra);
    var y := if b.extra == [] then b.endDate else b.endDate + ":" + JoinEntries(b.extra);
    var p := "dashboard:";
    assert (p + JoinFields(Fields(a), x))[|p|..] == JoinFields(Fields(a), x);
    assert (p + JoinFields(Fields(b), y))[|p|..] == JoinFields(Fields(b), y);
    FieldsAreFree(a);
    FieldsAreFree(b);
    JoinFieldsCut(Fields(a), Fields(b), x, y);
    SameFields(a, b);
    if a.extra == [] && b.extra != [] { NoCut(b.endDate, JoinEntries(b.extra), a.endDate, ':'); }
    if a.extra != [] && b.extra == [] { NoCut(a.endDate, JoinEntries(a.extra), b.endDate, ':'); }
    if a.extra != [] && b.extra != [] {
      CutOnce(a.endDate, JoinEntries(a.extra), b.endDate, JoinEntries(b.extra), ':');
      JoinEntriesCut(a.extra, b.extra);
    }
  }

  /** No two of these keys have one text. */
  ghost predicate Apart(ks: iset<Key>) {
    forall a, b :: a in ks && b in ks && BuildDashboardCacheKey(a) == BuildDashboardCacheKey(b) ==> a == b
  }

  /** Keys that the text tells apart. */
  type KeySet = ks: iset<Key> | Apart(ks) ghost witness iset{}

  ghost function CleanKeys(): (ks: KeySet) {
    CleanKeysAreApart();
    iset k | Clean(k)
  }

  lemma CleanKeysAreApart()
    ensures Apart(iset k | Clean(k))
  {
    forall a, b | Clean(a) && Clean(b) && BuildDashboardCacheKey(a) == BuildDashboardCacheKey(b) ensures a == b { KeysDiffer(a, b); }
  }

  /** A request of one of these keys, with the text of that key. */
  ghost predicate Good(ks: KeySet, q: Query) { q.key in ks && q.cacheKey == BuildDashboardCacheKey(q.key) }

  lemma OneOwner(ks: KeySet, a: Query, b: Query)
    requires Good(ks, a) && Good(ks, b) && a.cacheKey == b.cacheKey
    ensures a == b
  {
  }

  /** A colon inside a field moves the boundary to the next one: two requests for different shops share a key. */
  lemma ColonMovesTheBoundary(k: Key, x: string, y: string, z: string)
    ensures BuildDashboardCacheKey(k.(shop := x + ":" + y, market := z))
      == BuildDashboardCacheKey(k.(shop := x, market := y + ":" + z))
  {
    var last := if k.extra == [] then k.endDate else k.endDate + ":" + JoinEntries(k.extra);
    var rest := JoinFields([k.orderFilter, k.timeRange, k.startDate], last);
    var a, b := k.(shop := x + ":" + y, market := z), k.(shop := x, market := y + ":" + z);
    FieldsFromShop(a, last, rest);
    FieldsFromShop(b, last, rest);
    assert (x + ":" + y) + ":" + (z + ":" + rest) == x + ":" + ((y + ":" + z) + ":" + rest);
  }

  lemma FieldsFromShop(k: Key, last: string, rest: string)
    requires rest == JoinFields([k.orderFilter, k.timeRange, k.startDate], last)
    ensures JoinFields(Fields(k), last)
      == EndpointText(k.endpoint) + ":" + (TenantText(k.tenant) + ":" + (k.shop + ":" + (k.market + ":" + rest)))
  {
    var f := Fields(k);
    assert f[1..][1..] == f[2..] && f[2..][1..] == f[3..] && f[3..][1..] == [k.orderFilter, k.timeRange, k.startDate];
    assert JoinFields(f[3..], last) == k.market + ":" + rest;
    assert JoinFields(f[2..], last) == k.shop + ":" + JoinFields(f[3..], last);
    assert JoinFields(f[1..], last) == TenantText(k.tenant) + ":" + JoinFields(f[2..], last);
  }
}
