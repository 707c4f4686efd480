/**
 * The order-verification rules the JavaScript module and its Python port share:
 * the five detail-page fields and their `<label>：-` placeholders, the store-code
 * pattern `订货门店编号[：:]\s*(\d+)`, the counter-driven wait loops of the
 * detail page, the order-list fallbacks, the detail-link click chain, the query
 * button, the date-input retry and the product-row filter.  Where the ports
 * differ only in Python's `x in (text or '')` against JavaScript's
 * `text && text.includes(x)`, the rule takes the language as a parameter.
 */
module OrderCommon {
  import opened Strings
  import opened Search
  import Poller

  /** Which port a shared rule is read in. */
  datatype Lang = Js | Py

  /** JavaScript tests a text for truthiness before searching it; Python searches `''` as well. */
  predicate TextGuard(text: string, lang: Lang) { lang == Py || text != "" }

  // ---------------------------------------------------------------- fields

  datatype Field = OrderNumber | Status | Source | OrderDate | StoreName

  /** The order a test expects to find. */
  datatype OrderInfo = OrderInfo(
    orderNumber: string,
    status: string,
    source: string,
    orderDate: string,
    storeName: string,
    storeCode: string)

  function Value(info: OrderInfo, f: Field): string {
    match f
    case OrderNumber => info.orderNumber
    case Status => info.status
    case Source => info.source
    case OrderDate => info.orderDate
    case StoreName => info.storeName
  }

  /** The placeholder the detail page shows next to a field label until its data arrives. */
  function Sentinel(f: Field): string {
    match f
    case OrderNumber => "订货单号：-"
    case Status => "单据状态：-"
    case Source => "来源：-"
    case OrderDate => "订货日期：-"
    case StoreName => "订货门店：-"
  }

  /** No text contains a placeholder unless it is long enough to hold it. */
  lemma SentinelNotInEmpty(f: Field)
    ensures !Contains("", Sentinel(f))
  {
    assert |Sentinel(f)| > 0;
  }

  /** A field is loaded when the text shows its value and not its placeholder. */
  predicate FieldLoaded(text: string, info: OrderInfo, f: Field, lang: Lang) {
    TextGuard(text, lang) && Contains(text, Value(info, f)) && !Contains(text, Sentinel(f))
  }

  /** All five `has*` flags of the data-wait loops. */
  predicate FullyLoaded(text: string, info: OrderInfo, lang: Lang) {
    FieldLoaded(text, info, OrderNumber, lang) && FieldLoaded(text, info, Status, lang) &&
    FieldLoaded(text, info, Source, lang) && FieldLoaded(text, info, OrderDate, lang) &&
    FieldLoaded(text, info, StoreName, lang)
  }

  /** The reload condition: the order-number or status placeholder is still shown. */
  predicate ReloadNeeded(text: string, lang: Lang) {
    TextGuard(text, lang) && (Contains(text, Sentinel(OrderNumber)) || Contains(text, Sentinel(Status)))
  }

  /** The JavaScript truthiness guard of the reload condition changes nothing. */
  lemma ReloadGuardIrrelevant(text: string)
    ensures ReloadNeeded(text, Js) == ReloadNeeded(text, Py)
  {
    if text == "" {
      SentinelNotInEmpty(OrderNumber);
      SentinelNotInEmpty(Status);
    }
  }

  /** A fully loaded text never triggers the reload. */
  lemma LoadedNeedsNoReload(text: string, info: OrderInfo, lang: Lang)
    requires FullyLoaded(text, info, lang)
    ensures !ReloadNeeded(text, Js) && !ReloadNeeded(text, Py)
  {
  }

  /** On a non-empty text both ports agree on every loaded flag. */
  lemma LoadedAgreesOnText(text: string, info: OrderInfo)
    requires text != ""
    ensures FullyLoaded(text, info, Js) == FullyLoaded(text, info, Py)
  {
  }

  // ---------------------------------------------------------------- detail waits

  /** One iteration of the first detail wait: the body text, and whether an element with the number is visible. */
  datatype NumberSnap = NumberSnap(text: string, numberVisible: bool)

  predicate NumberShown(s: NumberSnap, info: OrderInfo, lang: Lang) {
    FieldLoaded(s.text, info, OrderNumber, lang) || s.numberVisible
  }

  /** Each snapshot of the first wait judged by its stopping rule. */
  function NumberFlags(snaps: seq<NumberSnap>, info: OrderInfo, lang: Lang): (r: seq<bool>)
    decreases |snaps|
    ensures |r| == |snaps|
    ensures forall i :: 0 <= i < |r| ==> (r[i] <==> NumberShown(snaps[i], info, lang))
  {
    if |snaps| == 0 then [] else [NumberShown(snaps[0], info, lang)] + NumberFlags(snaps[1..], info, lang)
  }

  /** Each snapshot of a data wait judged by the five-field rule. */
  function LoadedFlags(texts: seq<string>, info: OrderInfo, lang: Lang): (r: seq<bool>)
    decreases |texts|
    ensures |r| == |texts|
    ensures forall i :: 0 <= i < |r| ==> (r[i] <==> FullyLoaded(texts[i], info, lang))
  {
    if |texts| == 0 then [] else [FullyLoaded(texts[0], info, lang)] + LoadedFlags(texts[1..], info, lang)
  }

  /**
   * What the detail page shows to the wait loops: one snapshot per iteration of
   * the first wait, of the data wait and of the post-reload wait, and the body
   * text read after the data wait and after the post-reload wait.
   */
  datatype DetailPage = DetailPage(
    firstWait: seq<NumberSnap>,
    dataWait: seq<string>,
    afterData: string,
    reloadWait: seq<string>,
    afterReload: string,
    url: string)

  /** The loop counters at exit, the scrolls triggered, and the text the checks then read. */
  datatype DetailTrace = DetailTrace(
    numberFound: bool,
    retryCount: nat,
    scrolledAfterWait: bool,
    dataLoaded: bool,
    dataWaitRetryCount: nat,
    dataScrolls: seq<nat>,
    reloaded: bool,
    additionalWaitCount: nat,
    reloadScrolls: seq<nat>,
    finalText: string)

  const MaxRetries := 10
  const MaxDataWaitRetries := 15
  const MaxAdditionalWaits := 15
  const ScrollCadence := 5

  /** The body text the final checks read: the post-reload read when a reload happened. */
  function FinalText(afterData: string, afterReload: string, lang: Lang): (t: string)
    ensures ReloadNeeded(afterData, lang) ==> t == afterReload
    ensures !ReloadNeeded(afterData, lang) ==> t == afterData
  {
    if ReloadNeeded(afterData, lang) then afterReload else afterData
  }

  /**
   * The waits of `verifyOrderDetail` / `verify_order_detail`: at most 10
   * iterations for the order number (a single scroll if it never shows), at
   * most 15 for all five fields with a scroll at every 5th retry, and, when the
   * placeholders are still shown, a reload followed by at most 15 more
   * iterations on the same cadence.
   */
  method DetailWaits(page: DetailPage, info: OrderInfo, lang: Lang) returns (tr: DetailTrace)
    requires |page.firstWait| >= MaxRetries && |page.dataWait| >= MaxDataWaitRetries
    requires |page.reloadWait| >= MaxAdditionalWaits
    ensures tr.retryCount <= MaxRetries
    ensures tr.numberFound <==> FirstIndex(NumberFlags(page.firstWait, info, lang)[..MaxRetries], Id).Some?
    ensures tr.numberFound ==> tr.retryCount == FirstIndex(NumberFlags(page.firstWait, info, lang)[..MaxRetries], Id).value
    ensures tr.scrolledAfterWait <==> !tr.numberFound
    ensures tr.dataWaitRetryCount <= MaxDataWaitRetries
    ensures tr.dataLoaded <==> FirstIndex(LoadedFlags(page.dataWait, info, lang)[..MaxDataWaitRetries], Id).Some?
    ensures tr.dataLoaded ==>
      tr.dataWaitRetryCount == FirstIndex(LoadedFlags(page.dataWait, info, lang)[..MaxDataWaitRetries], Id).value
    ensures !tr.dataLoaded ==> tr.dataWaitRetryCount == MaxDataWaitRetries
    ensures tr.dataScrolls == Poller.ScrollPoints(tr.dataWaitRetryCount, ScrollCadence)
    ensures tr.reloaded <==> ReloadNeeded(page.afterData, lang)
    ensures tr.reloaded ==>
      (tr.additionalWaitCount <= MaxAdditionalWaits &&
       tr.reloadScrolls == Poller.ScrollPoints(tr.additionalWaitCount, ScrollCadence) &&
       tr.additionalWaitCount ==
         match FirstIndex(LoadedFlags(page.reloadWait, info, lang)[..MaxAdditionalWaits], Id)
         case Some(i) => i
         case None => MaxAdditionalWaits)
    ensures !tr.reloaded ==> tr.additionalWaitCount == 0 && tr.reloadScrolls == []
    ensures tr.finalText == FinalText(page.afterData, page.afterReload, lang)
  {
    var numberFlags := NumberFlags(page.firstWait, info, lang);
    var numberFound, retryCount, none := Poller.Poll(numberFlags, MaxRetries, 0, Id);
    var dataFlags := LoadedFlags(page.dataWait, info, lang);
    var dataLoaded, dataCount, dataScrolls := Poller.Poll(dataFlags, MaxDataWaitRetries, ScrollCadence, Id);
    var text := page.afterData;
    var reloaded := false;
    var extraCount, extraScrolls := 0, [];
    if ReloadNeeded(text, lang) {
      reloaded := true;
      var reloadFlags := LoadedFlags(page.reloadWait, info, lang);
      var loaded;
      loaded, extraCount, extraScrolls := Poller.Poll(reloadFlags, MaxAdditionalWaits, ScrollCadence, Id);
      text := page.afterReload;
    }
    tr := DetailTrace(numberFound, retryCount, !numberFound, dataLoaded, dataCount, dataScrolls,
                      reloaded, extraCount, extraScrolls, text);
  }

  /** The data wait scrolls exactly at retries 5, 10 and 15 when it runs out. */
  lemma DataWaitScrollsThrice(tr: DetailTrace)
    requires tr.dataWaitRetryCount == MaxDataWaitRetries
    requires tr.dataScrolls == Poller.ScrollPoints(tr.dataWaitRetryCount, ScrollCadence)
    ensures tr.dataScrolls == [5, 10, 15]
  {
    Poller.ScrollPointsAreMultiples(15, 5);
  }

  // ---------------------------------------------------------------- detail checks

  /** Why a check fails. */
  datatype Failure =
    | StillUnloaded               // a placeholder survives the reload
    | EmptyText                   // the body text is empty
    | OrderNumberUnloaded         // on a detail URL the order-number placeholder is shown
    | OrderNotFound               // the order list has no row text with the number
    | Unloaded(f: Field)          // `expect(...).not.toContain('<label>：-')`
    | Missing(f: Field)           // `expect(...).toContain(value)`
    | NoStoreCode                 // the store-code pattern does not match
    | StoreCodeMismatch(actual: string, expected: string)
    | TooFewProductRows
    | ProductCodeMissing
    | ProductNameMissing

  datatype Verdict = Pass | Fail(why: Failure)

  /** A field passes its final check: no placeholder, and the value is shown. */
  predicate FieldShown(text: string, info: OrderInfo, f: Field) {
    !Contains(text, Sentinel(f)) && Contains(text, Value(info, f))
  }

  /** The placeholder-then-value check of one field. */
  function FieldStep(text: string, info: OrderInfo, f: Field): (r: Option<Failure>)
    ensures r == None <==> FieldShown(text, info, f)
    ensures r == Some(Missing(f)) <==> !Contains(text, Sentinel(f)) && !Contains(text, Value(info, f))
    ensures r == Some(Unloaded(f)) <==> Contains(text, Sentinel(f))
  {
    if Contains(text, Sentinel(f)) then Some(Unloaded(f))
    else if !Contains(text, Value(info, f)) then Some(Missing(f))
    else None
  }

  /**
   * The checks before the store code, on the final text: it is non-empty; the
   * order number is shown (on a detail URL its absence is only a warning, unless
   * its placeholder is shown); then status, source, date and store, each first
   * for its placeholder and then for its value.
   */
  function DetailChecks(text: string, url: string, info: OrderInfo): (r: Verdict)
    ensures r == Pass <==>
      text != "" &&
      (if Contains(url, "detail") then !Contains(text, Sentinel(OrderNumber))
       else Contains(text, info.orderNumber)) &&
      FieldShown(text, info, Status) && FieldShown(text, info, Source) &&
      FieldShown(text, info, OrderDate) && FieldShown(text, info, StoreName)
    ensures r == Fail(EmptyText) <==> text == ""
  {
    if text == "" then Fail(EmptyText)
    else if !(Contains(text, info.orderNumber) && !Contains(text, Sentinel(OrderNumber)))
      && Contains(url, "detail") && Contains(text, Sentinel(OrderNumber)) then Fail(OrderNumberUnloaded)
    else if !(Contains(text, info.orderNumber) && !Contains(text, Sentinel(OrderNumber)))
      && !Contains(url, "detail") && !Contains(text, info.orderNumber) then Fail(Missing(OrderNumber))
    else if FieldStep(text, info, Status).Some? then Fail(FieldStep(text, info, Status).value)
    else if FieldStep(text, info, Source).Some? then Fail(FieldStep(text, info, Source).value)
    else if FieldStep(text, info, OrderDate).Some? then Fail(FieldStep(text, info, OrderDate).value)
    else if FieldStep(text, info, StoreName).Some? then Fail(FieldStep(text, info, StoreName).value)
    else Pass
  }

  /**
   * Once the reload rule has run, the order-number and status placeholders can no
   * longer be shown: either no reload was needed, or the post-reload text lacks
   * both (else the check fails first).  The placeholder failures for those two
   * fields are unreachable.
   */
  lemma PlaceholderChecksUnreachable(afterData: string, afterReload: string, url: string, info: OrderInfo, lang: Lang)
    requires !(ReloadNeeded(afterData, lang) && ReloadNeeded(afterReload, lang))
    ensures DetailChecks(FinalText(afterData, afterReload, lang), url, info) != Fail(OrderNumberUnloaded)
    ensures DetailChecks(FinalText(afterData, afterReload, lang), url, info) != Fail(Unloaded(Status))
  {
    var t := FinalText(afterData, afterReload, lang);
    if t == "" {
    } else {
      assert !ReloadNeeded(t, lang);
    }
  }

  /** Off a detail URL a passing check saw every field loaded. */
  lemma PassOffDetailUrlIsLoaded(text: string, url: string, info: OrderInfo, lang: Lang)
    requires DetailChecks(text, url, info) == Pass && !Contains(url, "detail")
    requires !Contains(text, Sentinel(OrderNumber))
    ensures FullyLoaded(text, info, lang)
  {
  }

  // ---------------------------------------------------------------- store code

  const StoreCodeLabel := "订货门店编号"

  predicate IsColon(c: char) { c == '：' || c == ':' }

  /** The end of the run of characters satisfying `p` that starts at `i`. */
  function RunEnd(t: string, i: nat, p: char -> bool): (j: nat)
    requires i <= |t|
    decreases |t| - i
    ensures i <= j <= |t|
    ensures forall k :: i <= k < j ==> p(t[k])
    ensures j < |t| ==> !p(t[j])
  {
    if i == |t| || !p(t[i]) then i else RunEnd(t, i + 1, p)
  }

  /** Any index satisfying the run properties is the run's end. */
  lemma RunEndUnique(t: string, i: nat, p: char -> bool, a: nat)
    requires i <= a <= |t|
    requires forall k :: i <= k < a ==> p(t[k])
    requires a < |t| ==> !p(t[a])
    ensures RunEnd(t, i, p) == a
  {
  }

  /** `\s` of the port's regular-expression engine. */
  predicate Space(lang: Lang, c: char) {
    if lang == Js then JsSpace(c) else PySpace(c)
  }

  function SpaceOf(lang: Lang): char -> bool {
    if lang == Js then JsSpace else PySpace
  }

  lemma SpaceNoDigit(lang: Lang, c: char)
    requires IsDigit(c)
    ensures !Space(lang, c) && !SpaceOf(lang)(c)
  {
  }

  /**
   * The pattern matches at `p` with capture `d` and its digits starting at `a`:
   * the label, a colon, only whitespace up to `a`, then `d`, a non-empty run of
   * ASCII digits not followed by another digit.
   */
  predicate CodeRunAt(t: string, p: nat, a: nat, d: string, lang: Lang) {
    OccursAt(t, StoreCodeLabel, p) && p + 6 < |t| && IsColon(t[p + 6]) &&
    p + 7 <= a && a + |d| <= |t| && |d| >= 1 && t[a..a + |d|] == d &&
    (forall k :: p + 7 <= k < a ==> Space(lang, t[k])) &&
    (forall k :: a <= k < a + |d| ==> IsDigit(t[k])) &&
    (a + |d| == |t| || !IsDigit(t[a + |d|]))
  }

  /** The capture of `订货门店编号[：:]\s*(\d+)` when the match starts at `p`. */
  function CodeAt(t: string, p: nat, lang: Lang): (r: Option<string>)
    ensures r.Some? ==> p < |t|
  {
    if OccursAt(t, StoreCodeLabel, p) && p + 6 < |t| && IsColon(t[p + 6]) then
      var a := RunEnd(t, p + 7, SpaceOf(lang));
      var b := RunEnd(t, a, IsDigit);
      if b > a then Some(t[a..b]) else None
    else None
  }

  /** A capture is always a match of the pattern at `p`. */
  lemma CodeAtSound(t: string, p: nat, lang: Lang)
    requires CodeAt(t, p, lang).Some?
    ensures exists a: nat :: CodeRunAt(t, p, a, CodeAt(t, p, lang).value, lang)
  {
    var a := RunEnd(t, p + 7, SpaceOf(lang));
    var b := RunEnd(t, a, IsDigit);
    assert t[a..b] == CodeAt(t, p, lang).value;
    assert forall k :: p + 7 <= k < a ==> Space(lang, t[k]);
    assert CodeRunAt(t, p, a, t[a..b], lang);
  }

  /** Every match of the pattern at `p` is the capture: a match position has one capture. */
  lemma CodeAtComplete(t: string, p: nat, lang: Lang, a: nat, d: string)
    requires CodeRunAt(t, p, a, d, lang)
    ensures CodeAt(t, p, lang) == Some(d)
  {
    CodeRunUnique(t, p, lang);
  }

  /** The whitespace run and the digit run after a label and colon are determined by the text. */
  lemma CodeRunUnique(t: string, p: nat, lang: Lang)
    requires OccursAt(t, StoreCodeLabel, p) && p + 6 < |t| && IsColon(t[p + 6])
    ensures forall a: nat, d :: CodeRunAt(t, p, a, d, lang) ==>
      a == RunEnd(t, p + 7, SpaceOf(lang)) && a + |d| == RunEnd(t, a, IsDigit)
  {
    forall a: nat, d | CodeRunAt(t, p, a, d, lang)
      ensures a == RunEnd(t, p + 7, SpaceOf(lang)) && a + |d| == RunEnd(t, a, IsDigit)
    {
      SpaceNoDigit(lang, t[a]);
      RunEndUnique(t, p + 7, SpaceOf(lang), a);
      RunEndUnique(t, a, IsDigit, a + |d|);
    }
  }

  /** The leftmost match position at or after `k`. */
  function FirstCodeFrom(t: string, k: nat, lang: Lang): (r: Option<nat>)
    decreases |t| - k
    ensures r.Some? ==> k <= r.value < |t| && CodeAt(t, r.value, lang).Some?
    ensures r.Some? ==> forall q :: k <= q < r.value ==> CodeAt(t, q, lang).None?
    ensures r.None? ==> forall q :: k <= q ==> CodeAt(t, q, lang).None?
  {
    if k >= |t| then None
    else if CodeAt(t, k, lang).Some? then Some(k)
    else
      var r := FirstCodeFrom(t, k + 1, lang);
      FirstCodeStep(t, k, lang, r);
      r
  }

  /** No match at `k` extends what is known from `k + 1` on to `k`. */
  lemma FirstCodeStep(t: string, k: nat, lang: Lang, r: Option<nat>)
    requires CodeAt(t, k, lang).None?
    requires r.Some? ==> forall q :: k + 1 <= q < r.value ==> CodeAt(t, q, lang).None?
    requires r.None? ==> forall q :: k + 1 <= q ==> CodeAt(t, q, lang).None?
    ensures r.Some? ==> forall q :: k <= q < r.value ==> CodeAt(t, q, lang).None?
    ensures r.None? ==> forall q :: k <= q ==> CodeAt(t, q, lang).None?
  {
  }

  /**
   * `text.match(/订货门店编号[：:]\s*(\d+)/)[1]` and `re.search(...).group(1)`:
   * the capture of the leftmost match, a non-empty digit string, or `None`
   * when the pattern matches nowhere.
   */
  function ExtractStoreCode(t: string, lang: Lang): (r: Option<string>)
    ensures r.Some? ==> |r.value| >= 1 && forall k :: 0 <= k < |r.value| ==> IsDigit(r.value[k])
    ensures r.Some? ==> exists p: nat :: CodeAt(t, p, lang) == r && forall q :: 0 <= q < p ==> CodeAt(t, q, lang).None?
    ensures r.None? <==> forall p :: CodeAt(t, p, lang).None?
  {
    match FirstCodeFrom(t, 0, lang)
    case None => None
    case Some(p) =>
      CodeAtSound(t, p, lang);
      var a: nat :| CodeRunAt(t, p, a, CodeAt(t, p, lang).value, lang);
      assert forall k :: 0 <= k < |CodeAt(t, p, lang).value| ==> CodeAt(t, p, lang).value[k] == t[a + k];
      CodeAt(t, p, lang)
  }

  /** The detail line of the suite's test order, with the store code the page shows. */
  const SuiteStoreLine := "订货门店编号：100000010"

  /** Both patterns capture `100000010` from that line. */
  lemma SuiteStoreLineCode(lang: Lang)
    ensures ExtractStoreCode(SuiteStoreLine, lang) == Some("100000010")
  {
    var t := SuiteStoreLine;
    assert t[0..6] == StoreCodeLabel;
    assert t[7..16] == "100000010";
    assert CodeRunAt(t, 0, 7, "100000010", lang);
    CodeAtComplete(t, 0, lang, 7, "100000010");
  }

  /** The JavaScript matching rule (exact, contained, containing, suffix, prefix). */
  predicate TolerantMatch(actual: string, expected: string) {
    actual == expected || Contains(actual, expected) || Contains(expected, actual) ||
    EndsWith(actual, expected) || StartsWith(actual, expected)
  }

  /** The tolerant rule is containment in one direction or the other; the other three disjuncts add nothing. */
  lemma TolerantIsContainment(actual: string, expected: string)
    ensures TolerantMatch(actual, expected) <==> Contains(actual, expected) || Contains(expected, actual)
  {
    if actual == expected {
      ContainsSelf(actual);
    }
    if EndsWith(actual, expected) {
      ContainsSuffix(actual, expected);
    }
    if StartsWith(actual, expected) {
      ContainsPrefix(actual, expected);
    }
  }

  /**
   * The tolerant rule does not accept the JavaScript suite's expected code `10010`
   * against the page's `100000010`, the code the Python suite expects.
   */
  lemma TolerantRejectsSuiteCodes()
    ensures !TolerantMatch("100000010", "10010")
  {
    SuiteCodesUnrelated();
    TolerantIsContainment("100000010", "10010");
  }

  /** Neither of the two suites' store codes occurs in the other. */
  lemma SuiteCodesUnrelated()
    ensures !Contains("100000010", "10010") && !Contains("10010", "100000010")
  {
    var a, e := "100000010", "10010";
    Mismatch(a, e, 0, 3);
    Mismatch(a, e, 1, 0);
    Mismatch(a, e, 2, 0);
    Mismatch(a, e, 3, 0);
    Mismatch(a, e, 4, 0);
    assert !Contains(a, e);
    if Contains(e, a) {
      ContainsLength(e, a);
    }
  }

  /** Strict equality implies the tolerant rule; the converse fails. */
  lemma StrictImpliesTolerant(actual: string, expected: string)
    ensures actual == expected ==> TolerantMatch(actual, expected)
    ensures TolerantMatch("100000010", "0") && "100000010" != "0"
  {
    var a := "100000010";
    assert OccursAt(a, "0", 1);
  }

  // ---------------------------------------------------------------- navigation

  /** The daily-demand ordering page, relative to the back-office host. */
  const OrderPagePath := "/store-supply/demand-daily"

  /** `navigateToOrderPage`: it fails only when `goto` fails and the browser is not on the order page anyway. */
  function NavigationFails(gotoFailed: bool, urlAfter: string): (r: bool)
    ensures !gotoFailed ==> !r
    ensures gotoFailed ==> (r <==> !Contains(urlAfter, "demand-daily"))
  {
    gotoFailed && !Contains(urlAfter, "demand-daily")
  }

  /** The order page path names the daily-demand page. */
  lemma OrderPathIsOrderPage()
    ensures Contains(OrderPagePath, "demand-daily")
  {
    assert OrderPagePath[14..26] == "demand-daily";
    assert OccursAt(OrderPagePath, "demand-daily", 14);
  }

  /** Ending up on a URL under the order page path never fails the navigation, whatever `goto` did. */
  lemma LandingOnOrderPageSucceeds(gotoFailed: bool, url: string)
    requires EndsWith(url, OrderPagePath)
    ensures !NavigationFails(gotoFailed, url)
  {
    OrderPathIsOrderPage();
    ContainsSuffix(url, OrderPagePath);
    ContainsTrans(url, OrderPagePath, "demand-daily");
  }

  // ---------------------------------------------------------------- order list

  /** A located element's row ancestor: whether it is visible, and its text (`''` for none). */
  datatype Ancestor = Ancestor(visible: bool, text: string)

  /** A data-table candidate: whether it is visible, and the texts of its rows. */
  datatype Table = Table(visible: bool, rows: seq<string>)

  /**
   * What the order list shows: the exact-text element's row ancestor (`None`
   * when the element never becomes visible), the data-table candidates, the body
   * text, and the row ancestor of the first `text=` match (`None` when that
   * element is not visible).
   */
  datatype ListPage = ListPage(exact: Option<Ancestor>, tables: seq<Table>, body: string, partial: Option<Ancestor>)

  predicate RowMatches(text: string, num: string, lang: Lang) {
    TextGuard(text, lang) && Contains(text, num)
  }

  /** The first row of a table whose text holds the order number. */
  function FirstRow(rows: seq<string>, num: string, lang: Lang): (r: Option<nat>)
    decreases |rows|
    ensures r.Some? ==> r.value < |rows| && RowMatches(rows[r.value], num, lang)
    ensures r.Some? ==> forall j :: 0 <= j < r.value ==> !RowMatches(rows[j], num, lang)
    ensures r.None? <==> forall j :: 0 <= j < |rows| ==> !RowMatches(rows[j], num, lang)
  {
    if |rows| == 0 then None
    else if RowMatches(rows[0], num, lang) then Some(0)
    else match FirstRow(rows[1..], num, lang)
      case None => None
      case Some(k) => Some(k + 1)
  }

  function RowOf(t: Table, num: string, lang: Lang): Option<string> {
    match FirstRow(t.rows, num, lang)
    case None => None
    case Some(i) => Some(t.rows[i])
  }

  function TableVisible(t: Table): bool { t.visible }

  /**
   * The table loop: each visible table is searched row by row; the loop ends on
   * a hit, and also after any visible table once `orderRow` is already set
   * (`located`), whether or not that table had the row.
   */
  function TableSearch(tables: seq<Table>, num: string, lang: Lang, located: bool): (r: Option<string>)
    decreases |tables|
    ensures r.Some? ==> RowMatches(r.value, num, lang)
    ensures !located ==>
      (r.None? <==> forall k :: 0 <= k < |tables| && tables[k].visible ==> RowOf(tables[k], num, lang).None?)
    ensures !located && r.Some? ==>
      exists k :: 0 <= k < |tables| && tables[k].visible && r == RowOf(tables[k], num, lang)
  {
    if |tables| == 0 then None
    else if !tables[0].visible then TableSearch(tables[1..], num, lang, located)
    else if RowOf(tables[0], num, lang).Some? then RowOf(tables[0], num, lang)
    else if located then None
    else TableSearch(tables[1..], num, lang, located)
  }

  /** With `orderRow` already set, only the first visible table is searched. */
  lemma {:induction false} LocatedSearchesFirstVisibleTable(tables: seq<Table>, num: string, lang: Lang)
    ensures FirstIndex(tables, TableVisible).None? ==> TableSearch(tables, num, lang, true).None?
    ensures FirstIndex(tables, TableVisible).Some? ==>
      TableSearch(tables, num, lang, true) == RowOf(tables[FirstIndex(tables, TableVisible).value], num, lang)
    decreases |tables|
  {
    if |tables| > 0 && !tables[0].visible {
      LocatedSearchesFirstVisibleTable(tables[1..], num, lang);
    }
  }

  /**
   * The row text the three lookups of `findAndVerifyOrderInList` /
   * `find_and_verify_order_in_list` end with, `''` when none succeeds.
   */
  function ListRowText(page: ListPage, num: string, lang: Lang): string {
    var located1 := page.exact.Some?;
    var text1 := if page.exact.Some? && page.exact.value.visible then page.exact.value.text else "";
    if located1 && text1 != "" then text1
    else
      var hit := TableSearch(page.tables, num, lang, located1);
      var located2 := located1 || hit.Some?;
      var text2 := if hit.Some? then hit.value else text1;
      if located2 && text2 != "" then text2
      else if TextGuard(page.body, lang) && Contains(page.body, num) && page.partial.Some? then
        (if page.partial.value.visible then page.partial.value.text else page.body)
      else text2
  }

  /** The row loop of one table. */
  method ScanRows(rows: seq<string>, num: string, lang: Lang) returns (hit: Option<nat>)
    ensures hit == FirstRow(rows, num, lang)
  {
    var i := 0;
    while i < |rows|
      invariant 0 <= i <= |rows|
      invariant forall j :: 0 <= j < i ==> !RowMatches(rows[j], num, lang)
    {
      if TextGuard(rows[i], lang) && Contains(rows[i], num) {
        return Some(i);
      }
      i := i + 1;
    }
    return None;
  }

  /** One step of the table search, on the first table of the list. */
  lemma SearchStep(tables: seq<Table>, num: string, lang: Lang, located: bool)
    requires |tables| > 0
    ensures !tables[0].visible ==> TableSearch(tables, num, lang, located) == TableSearch(tables[1..], num, lang, located)
    ensures tables[0].visible && RowOf(tables[0], num, lang).Some? ==>
      TableSearch(tables, num, lang, located) == RowOf(tables[0], num, lang)
    ensures tables[0].visible && RowOf(tables[0], num, lang).None? ==>
      TableSearch(tables, num, lang, located) == if located then None else TableSearch(tables[1..], num, lang, located)
  {
  }

  /** The loop over the data tables, with `located` telling whether `orderRow` is already set. */
  method SearchTables(tables: seq<Table>, num: string, lang: Lang, located: bool) returns (hit: Option<string>)
    ensures hit == TableSearch(tables, num, lang, located)
  {
    hit := None;
    var rest := tables;
    while |rest| > 0
      invariant TableSearch(tables, num, lang, located) == TableSearch(rest, num, lang, located)
    {
      SearchStep(rest, num, lang, located);
      var table := rest[0];
      if table.visible {
        var row := ScanRows(table.rows, num, lang);
        if row.Some? {
          hit := Some(table.rows[row.value]);
          break;
        }
        if located {
          break;
        }
      }
      rest := rest[1..];
    }
  }

  /**
   * The three lookups, reassigning `orderRow` (here `located`) and `rowText`:
   * the exact-text element's row, then the data tables when that gave no text,
   * then the whole body.
   */
  method LocateOrderRow(page: ListPage, num: string, lang: Lang) returns (rowText: string)
    ensures rowText == ListRowText(page, num, lang)
  {
    var located := page.exact.Some?;
    rowText := if page.exact.Some? && page.exact.value.visible then page.exact.value.text else "";
    if !located || rowText == "" {
      var hit := SearchTables(page.tables, num, lang, located);
      if hit.Some? {
        located, rowText := true, hit.value;
      }
      if !located || rowText == "" {
        if TextGuard(page.body, lang) && Contains(page.body, num) && page.partial.Some? {
          rowText := if page.partial.value.visible then page.partial.value.text else page.body;
        }
      }
    }
  }

  /**
   * The list verdict: `未找到订单号` unless the row text is non-empty and holds
   * the order number; then status, store, source and date must each occur in
   * it, checked in that order.
   */
  function ListVerdict(rowText: string, info: OrderInfo): (r: Verdict)
    ensures r == Pass <==>
      rowText != "" && Contains(rowText, info.orderNumber) && Contains(rowText, info.status) &&
      Contains(rowText, info.storeName) && Contains(rowText, info.source) && Contains(rowText, info.orderDate)
    ensures r == Fail(OrderNotFound) <==> rowText == "" || !Contains(rowText, info.orderNumber)
    ensures r == Fail(Missing(Status)) <==>
      rowText != "" && Contains(rowText, info.orderNumber) && !Contains(rowText, info.status)
    ensures r == Fail(Missing(StoreName)) <==>
      rowText != "" && Contains(rowText, info.orderNumber) && Contains(rowText, info.status) &&
      !Contains(rowText, info.storeName)
    ensures r == Fail(Missing(Source)) <==>
      rowText != "" && Contains(rowText, info.orderNumber) && Contains(rowText, info.status) &&
      Contains(rowText, info.storeName) && !Contains(rowText, info.source)
    ensures r == Fail(Missing(OrderDate)) <==>
      rowText != "" && Contains(rowText, info.orderNumber) && Contains(rowText, info.status) &&
      Contains(rowText, info.storeName) && Contains(rowText, info.source) && !Contains(rowText, info.orderDate)
    ensures r.Fail? ==> r.why in {OrderNotFound, Missing(Status), Missing(StoreName), Missing(Source), Missing(OrderDate)}
  {
    if rowText == "" || !Contains(rowText, info.orderNumber) then Fail(OrderNotFound)
    else if !Contains(rowText, info.status) then Fail(Missing(Status))
    else if !Contains(rowText, info.storeName) then Fail(Missing(StoreName))
    else if !Contains(rowText, info.source) then Fail(Missing(Source))
    else if !Contains(rowText, info.orderDate) then Fail(Missing(OrderDate))
    else Pass
  }

  /** An exact-text hit whose visible row shows the number settles the lookup. */
  lemma ExactRowWins(page: ListPage, num: string, lang: Lang)
    requires page.exact.Some? && page.exact.value.visible && page.exact.value.text != ""
    ensures ListRowText(page, num, lang) == page.exact.value.text
  {
  }

  /** Without an exact-text hit, any visible table with a matching row yields a row holding the number. */
  lemma TableRowFound(page: ListPage, num: string, lang: Lang, k: nat)
    requires page.exact.None?
    requires k < |page.tables| && page.tables[k].visible && RowOf(page.tables[k], num, lang).Some?
    requires lang == Js || num != ""
    ensures Contains(ListRowText(page, num, lang), num) && ListRowText(page, num, lang) != ""
  {
    var hit := TableSearch(page.tables, num, lang, false);
    if hit.Some? {
      ContainsLength(hit.value, num);
    }
  }

  /**
   * The lookups with the table loop stopping only on a hit, as its
   * `if (orderRow) break` evidently means: a row ancestor located by exact text
   * but hidden no longer cuts the table search short.
   */
  function ListRowTextIntended(page: ListPage, num: string, lang: Lang): string {
    var located1 := page.exact.Some?;
    var text1 := if page.exact.Some? && page.exact.value.visible then page.exact.value.text else "";
    if located1 && text1 != "" then text1
    else
      var hit := TableSearch(page.tables, num, lang, false);
      var located2 := located1 || hit.Some?;
      var text2 := if hit.Some? then hit.value else text1;
      if located2 && text2 != "" then text2
      else if TextGuard(page.body, lang) && Contains(page.body, num) && page.partial.Some? then
        (if page.partial.value.visible then page.partial.value.text else page.body)
      else text2
  }

  /** In the intended lookups, whenever the exact-text step gives no text, a matching visible table row is found. */
  lemma IntendedFindsTableRow(page: ListPage, num: string, lang: Lang, k: nat)
    requires page.exact.None? || !page.exact.value.visible || page.exact.value.text == ""
    requires k < |page.tables| && page.tables[k].visible && RowOf(page.tables[k], num, lang).Some?
    requires lang == Js || num != ""
    ensures Contains(ListRowTextIntended(page, num, lang), num) && ListRowTextIntended(page, num, lang) != ""
  {
    var hit := TableSearch(page.tables, num, lang, false);
    if hit.Some? {
      ContainsLength(hit.value, num);
    }
  }

  /**
   * As written, an exact-text element whose row ancestor is hidden stops the
   * table loop after the first visible table, so the order row in the second one
   * is missed and the list check fails with `未找到订单号`; the intended lookups
   * find it.
   */
  lemma HiddenAncestorSkipsLaterTables()
    ensures
      var num := "342512080002";
      var row := "342512080002 已审核";
      var page := ListPage(Some(Ancestor(false, "")), [Table(true, ["订货单号"]), Table(true, [row])], row, None);
      ListRowText(page, num, Js) == "" && ListRowTextIntended(page, num, Js) == row
  {
    var num := "342512080002";
    var row := "342512080002 已审核";
    var tables := [Table(true, ["订货单号"]), Table(true, [row])];
    if Contains("订货单号", num) {
      ContainsLength("订货单号", num);
    }
    assert OccursAt(row, num, 0);
    assert RowOf(tables[0], num, Js).None?;
    assert RowOf(tables[1], num, Js) == Some(row);
    assert tables[1..] == [Table(true, [row])];
    assert TableSearch(tables, num, Js, false) == Some(row);
  }

  // ---------------------------------------------------------------- detail link

  /** A link candidate of the last fallback: visible, and whether clicking it succeeds. */
  datatype Link = Link(visible: bool, clickOk: bool)

  function LinkVisible(l: Link): bool { l.visible }

  datatype ClickResult = ViaExactText | ViaPartialText | ViaLink(index: nat) | NotClicked

  /**
   * `clickOrderToOpenDetail` / `click_order_to_open_detail`: the exact-text
   * element, else the partial-text element, else the first visible link; a link
   * whose click fails ends the loop.  Every path returns normally.
   */
  method ClickOrderToOpenDetail(exactOk: bool, partialOk: bool, links: seq<Link>) returns (r: ClickResult)
    ensures r == ViaExactText <==> exactOk
    ensures r == ViaPartialText <==> !exactOk && partialOk
    ensures r.ViaLink? <==>
      !exactOk && !partialOk && FirstIndex(links, LinkVisible).Some? && links[FirstIndex(links, LinkVisible).value].clickOk
    ensures r.ViaLink? ==> Some(r.index) == FirstIndex(links, LinkVisible)
  {
    if exactOk {
      return ViaExactText;
    }
    if partialOk {
      return ViaPartialText;
    }
    var i := 0;
    while i < |links|
      invariant 0 <= i <= |links|
      invariant forall j :: 0 <= j < i ==> !links[j].visible
    {
      if links[i].visible {
        if links[i].clickOk {
          return ViaLink(i);
        }
        return NotClicked;
      }
      i := i + 1;
    }
    return NotClicked;
  }

  // ---------------------------------------------------------------- query

  datatype QueryAction =
    | ClickedButton(pass: nat, index: nat)       // the button of the first or second scan was clicked
    | EnterAfterClickError(pass: nat, index: nat) // its click failed; Enter was pressed instead
    | EnterWithoutButton                         // neither scan found a visible button

  const QueryButtonCandidates := 9

  /**
   * The query step: scan the candidates for a visible button; when none is
   * visible, scroll and scan once more; click the button found (Enter if the
   * click fails), or press Enter when there is none.
   */
  /**
   * The query step's outcome: the first visible button of the first scan, else
   * of the second scan, clicked when `clickOk` and otherwise replaced by Enter;
   * Enter without a button exactly when neither scan finds one.
   */
  predicate QuerySubmitted(r: QueryAction, firstScan: seq<bool>, secondScan: seq<bool>, clickOk: bool) {
    (FirstIndex(firstScan, Id).Some? ==>
       r != EnterWithoutButton && r.pass == 1 && Some(r.index) == FirstIndex(firstScan, Id) &&
       (r.ClickedButton? <==> clickOk)) &&
    (FirstIndex(firstScan, Id).None? && FirstIndex(secondScan, Id).Some? ==>
       r != EnterWithoutButton && r.pass == 2 && Some(r.index) == FirstIndex(secondScan, Id) &&
       (r.ClickedButton? <==> clickOk)) &&
    (r == EnterWithoutButton <==> FirstIndex(firstScan, Id).None? && FirstIndex(secondScan, Id).None?)
  }

  method SubmitQuery(firstScan: seq<bool>, secondScan: seq<bool>, clickOk: bool) returns (r: QueryAction)
    ensures QuerySubmitted(r, firstScan, secondScan, clickOk)
  {
    var pass := 1;
    var found := ScanFirst(firstScan);
    if found.None? {
      pass := 2;
      found := ScanFirst(secondScan);
    }
    if found.Some? {
      r := if clickOk then ClickedButton(pass, found.value) else EnterAfterClickError(pass, found.value);
    } else {
      r := EnterWithoutButton;
    }
  }

  // ---------------------------------------------------------------- dates

  /** The first element of a dedicated day selector: whether it is visible, and whether clicking it throws. */
  datatype DaySelector = DaySelector(visible: bool, clickFails: bool)

  /**
   * A generic day cell: its text (`''` for none), `aria-label`, `data-date`,
   * disabled / other-month children, and whether clicking it throws.
   */
  datatype Cell = Cell(text: string, ariaLabel: string, dataDate: string, disabledChild: bool, otherChild: bool,
                       clickFails: bool)

  /** An ancestor of a `text=<day>` match: visible, holding a disabled child, and whether clicking it throws. */
  datatype Parent = Parent(visible: bool, disabledChild: bool, clickFails: bool)

  /**
   * What one picker attempt finds: the picker selectors that appear within the
   * wait, those visible on the second look, the dedicated day selectors, the
   * generic cells and the ancestors of `text=<day>` matches.
   */
  datatype PickerView = PickerView(
    waitHits: seq<bool>,
    visibleHits: seq<bool>,
    daySelectors: seq<DaySelector>,
    cells: seq<Cell>,
    textParents: seq<Parent>)

  predicate PickerOpen(v: PickerView) {
    FirstIndex(v.waitHits, Id).Some? || FirstIndex(v.visibleHits, Id).Some?
  }

  /**
   * A candidate selects the day when the picker clicks it and the click does
   * not throw; a throwing click is caught and the next candidate is tried.
   */
  predicate DaySelectable(t: DaySelector) { t.visible && !t.clickFails }

  /** A visible ancestor without a disabled child is clicked. */
  predicate ParentSelectable(p: Parent) { p.visible && !p.disabledChild && !p.clickFails }

  /** A generic cell is clicked when it matches the day and holds no disabled child. */
  predicate CellSelectable(c: Cell, matches: Cell -> bool) { matches(c) && !c.disabledChild && !c.clickFails }

  /**
   * The picker steps shared by both halves, with the port's cell rule as
   * `matches`: give up unless a picker selector appears (within the wait, or
   * visible on a second look); then click the first visible day selector, else
   * the first generic cell that matches and is not disabled, else the first
   * visible, non-disabled ancestor of a `text=<day>` match.  Each loop catches
   * a throwing click and goes on to its next candidate, so the day is selected
   * exactly when some candidate is clicked without throwing.
   */
  method PickDay(v: PickerView, matches: Cell -> bool) returns (selected: bool)
    ensures selected <==> (
      PickerOpen(v) &&
      ((exists h :: 0 <= h < |v.daySelectors| && DaySelectable(v.daySelectors[h])) ||
       (exists i :: 0 <= i < |v.cells| && CellSelectable(v.cells[i], matches)) ||
       (exists j :: 0 <= j < |v.textParents| && ParentSelectable(v.textParents[j]))))
  {
    var open := ScanFirst(v.waitHits);
    if open.None? {
      open := ScanFirst(v.visibleHits);
    }
    if open.None? {
      return false;
    }
    var h := 0;
    while h < |v.daySelectors|
      invariant 0 <= h <= |v.daySelectors|
      invariant forall k :: 0 <= k < h ==> !DaySelectable(v.daySelectors[k])
    {
      if v.daySelectors[h].visible && !v.daySelectors[h].clickFails {
        return true;
      }
      h := h + 1;
    }
    var i := 0;
    while i < |v.cells|
      invariant 0 <= i <= |v.cells|
      invariant forall k :: 0 <= k < i ==> !CellSelectable(v.cells[k], matches)
    {
      if matches(v.cells[i]) && !v.cells[i].disabledChild && !v.cells[i].clickFails {
        return true;
      }
      i := i + 1;
    }
    var j := 0;
    while j < |v.textParents|
      invariant 0 <= j <= |v.textParents|
      invariant forall k :: 0 <= k < j ==> !ParentSelectable(v.textParents[k])
    {
      if v.textParents[j].visible && !v.textParents[j].disabledChild && !v.textParents[j].clickFails {
        return true;
      }
      j := j + 1;
    }
    return false;
  }

  /** The input's date as the picker rule formats it. */
  datatype DateRange = DateRange(startYear: int, startMonth: int, startDay: int, endYear: int, endMonth: int, endDay: int)

  /** The observations of the date-and-query step. */
  datatype QueryPage = QueryPage(
    startInputs: nat, startViews: seq<PickerView>, startFillOk: bool,
    endInputs: nat, endViews: seq<PickerView>, endFillOk: bool,
    firstScan: seq<bool>, secondScan: seq<bool>, clickOk: bool)

  predicate QueryPageComplete(page: QueryPage) {
    |page.startViews| >= MaxPickerAttempts && |page.endViews| >= MaxPickerAttempts
  }

  datatype DateOutcome =
    | NoDateInput               // no start/end input at all: the date is left alone
    | SetByPicker(attempt: nat) // the picker succeeded on this attempt
    | SetByFill(value: string)  // all picker attempts failed; the text was filled in
    | NotSet                    // the fill fallback failed as well

  const MaxPickerAttempts := 3

  /** The first successful attempt among the first three, read on the whole outcome list. */
  lemma FirstPick(picks: seq<bool>)
    requires |picks| >= MaxPickerAttempts
    ensures FirstIndex(picks[..MaxPickerAttempts], Id).Some? <==> exists k :: 0 <= k < MaxPickerAttempts && picks[k]
    ensures FirstIndex(picks[..MaxPickerAttempts], Id).Some? ==>
      var k := FirstIndex(picks[..MaxPickerAttempts], Id).value; k < MaxPickerAttempts && picks[k]
  {
    assert forall k :: 0 <= k < MaxPickerAttempts ==> picks[..MaxPickerAttempts][k] == picks[k];
  }

  /**
   * One date input: up to 3 picker attempts, stopping at the first that selects
   * the day, then the fill fallback with `value` iff all of them failed.
   * `picks[k]` is the outcome of attempt `k`.
   */
  method SetDateInput(inputCount: nat, picks: seq<bool>, fillOk: bool, value: string)
      returns (r: DateOutcome, attempts: nat)
    requires |picks| >= MaxPickerAttempts
    ensures inputCount == 0 <==> r == NoDateInput
    ensures inputCount == 0 ==> attempts == 0
    ensures attempts <= MaxPickerAttempts
    ensures inputCount > 0 ==>
      (r.SetByPicker? <==> FirstIndex(picks[..MaxPickerAttempts], Id).Some?)
    ensures r.SetByPicker? ==>
      Some(r.attempt) == FirstIndex(picks[..MaxPickerAttempts], Id) && attempts == r.attempt + 1
    ensures r.SetByFill? || r == NotSet ==> attempts == MaxPickerAttempts
    ensures inputCount > 0 && FirstIndex(picks[..MaxPickerAttempts], Id).None? ==>
      (if fillOk then r == SetByFill(value) else r == NotSet)
  {
    if inputCount == 0 {
      return NoDateInput, 0;
    }
    var success;
    success, attempts := Retry(picks, MaxPickerAttempts);
    if success.Some? {
      r := SetByPicker(success.value);
    } else if fillOk {
      r := SetByFill(value);
    } else {
      r := NotSet;
    }
  }

  // ---------------------------------------------------------------- products

  /** A row kept by the selector phase (`fallback` false) or by the body-text fallback. */
  predicate KeepRow(text: string, code: string, lang: Lang, fallback: bool) {
    TextGuard(text, lang) && Contains(text, code) && !Contains(text, "商品编号") &&
    (fallback || !Contains(text, "商品名称"))
  }

  /** The rows of one candidate list that the filter keeps, in order. */
  function Filter(rows: seq<string>, code: string, lang: Lang, fallback: bool): (r: seq<string>)
    decreases |rows|
    ensures |r| <= |rows|
    ensures forall x :: x in r <==> x in rows && KeepRow(x, code, lang, fallback)
  {
    if |rows| == 0 then []
    else
      var last := rows[|rows| - 1];
      assert forall x :: x in rows <==> x in rows[..|rows| - 1] || x == last;
      Filter(rows[..|rows| - 1], code, lang, fallback) + (if KeepRow(last, code, lang, fallback) then [last] else [])
  }

  /** Filtering keeps the candidate rows in their order: it distributes over concatenation, one row at a time. */
  lemma {:induction false} FilterConcat(a: seq<string>, b: seq<string>, code: string, lang: Lang, fallback: bool)
    decreases |b|
    ensures Filter(a + b, code, lang, fallback) == Filter(a, code, lang, fallback) + Filter(b, code, lang, fallback)
  {
    if |b| == 0 {
      assert a + b == a;
      assert Filter(b, code, lang, fallback) == [];
    } else {
      var init, last := b[..|b| - 1], b[|b| - 1];
      assert b == init + [last];
      FilterConcat(a, init, code, lang, fallback);
      FilterConcatStep(a, init, last, code, lang, fallback);
    }
  }

  /** The step of `FilterConcat`: one more row at the end of the second part. */
  lemma FilterConcatStep(a: seq<string>, init: seq<string>, last: string, code: string, lang: Lang, fallback: bool)
    requires Filter(a + init, code, lang, fallback) == Filter(a, code, lang, fallback) + Filter(init, code, lang, fallback)
    ensures Filter(a + (init + [last]), code, lang, fallback) ==
      Filter(a, code, lang, fallback) + Filter(init + [last], code, lang, fallback)
  {
    var x := a + init;
    assert a + (init + [last]) == x + [last];
    var fa, fi := Filter(a, code, lang, fallback), Filter(init, code, lang, fallback);
    var tail := if KeepRow(last, code, lang, fallback) then [last] else [];
    FilterSnoc(init, last, code, lang, fallback);
    FilterSnoc(x, last, code, lang, fallback);
    Reassoc(Filter(x + [last], code, lang, fallback), fa, fi, tail, Filter(init + [last], code, lang, fallback));
  }

  lemma Reassoc(whole: seq<string>, p: seq<string>, q: seq<string>, tail: seq<string>, part: seq<string>)
    requires whole == (p + q) + tail && part == q + tail
    ensures whole == p + part
  {
  }

  /** Filtering one more row appends it exactly when it is kept. */
  lemma FilterSnoc(rows: seq<string>, x: string, code: string, lang: Lang, fallback: bool)
    ensures Filter(rows + [x], code, lang, fallback) ==
      Filter(rows, code, lang, fallback) + if KeepRow(x, code, lang, fallback) then [x] else []
  {
    assert (rows + [x])[..|rows|] == rows;
  }

  /** Filtering keeps every kept row as often as it occurs, and no other row. */
  lemma {:induction false} FilterCounts(rows: seq<string>, code: string, lang: Lang, fallback: bool)
    decreases |rows|
    ensures forall x :: (multiset(Filter(rows, code, lang, fallback))[x] ==
                         if KeepRow(x, code, lang, fallback) then multiset(rows)[x] else 0)
  {
    if |rows| > 0 {
      var init, last := rows[..|rows| - 1], rows[|rows| - 1];
      assert rows == init + [last];
      FilterCounts(init, code, lang, fallback);
    }
  }

  /** Whether the selector phase keeps any of a selector's rows. */
  predicate HasRows(rows: seq<string>, code: string, lang: Lang) {
    Filter(rows, code, lang, false) != []
  }

  /** The first product-row selector whose filtered rows are non-empty wins; else none. */
  function SelectedRows(selectors: seq<seq<string>>, code: string, lang: Lang): (r: seq<string>)
    ensures r == [] <==> forall k :: 0 <= k < |selectors| ==> Filter(selectors[k], code, lang, false) == []
    ensures r != [] ==>
      exists k :: 0 <= k < |selectors| && r == Filter(selectors[k], code, lang, false) &&
                  (forall j :: 0 <= j < k ==> Filter(selectors[j], code, lang, false) == [])
  {
    match FirstIndex(selectors, rows => HasRows(rows, code, lang))
    case None => []
    case Some(k) => Filter(selectors[k], code, lang, false)
  }

  /** The selector whose rows are the first non-empty ones is the one selected. */
  lemma SelectedAt(selectors: seq<seq<string>>, code: string, lang: Lang, k: nat)
    requires k < |selectors| && HasRows(selectors[k], code, lang)
    requires forall j :: 0 <= j < k ==> !HasRows(selectors[j], code, lang)
    ensures SelectedRows(selectors, code, lang) == Filter(selectors[k], code, lang, false)
  {
    var r := SelectedRows(selectors, code, lang);
    assert r != [];
    var k' :| 0 <= k' < |selectors| && r == Filter(selectors[k'], code, lang, false) &&
              (forall j :: 0 <= j < k' ==> Filter(selectors[j], code, lang, false) == []);
    assert k' == k;
  }

  /** What the product section shows: rows per selector, the body text, all table rows, and the body text re-read. */
  datatype ProductPage = ProductPage(selectors: seq<seq<string>>, before: string, allRows: seq<string>, after: string)

  const ProductRowCandidates := 7

  /** The rows `productRows` ends with: the winning selector's, else the fallback's when the body shows the code. */
  function ProductRows(page: ProductPage, code: string, lang: Lang): (r: seq<string>)
    ensures forall x :: x in r ==> KeepRow(x, code, lang, true)
    ensures (exists k :: 0 <= k < |page.selectors| && Filter(page.selectors[k], code, lang, false) != []) ==>
      exists k :: 0 <= k < |page.selectors| && r == Filter(page.selectors[k], code, lang, false) &&
                  (forall j :: 0 <= j < k ==> Filter(page.selectors[j], code, lang, false) == [])
    ensures (forall k :: 0 <= k < |page.selectors| ==> Filter(page.selectors[k], code, lang, false) == []) ==>
      r == if TextGuard(page.before, lang) && Contains(page.before, code) then Filter(page.allRows, code, lang, true) else []
  {
    var s := SelectedRows(page.selectors, code, lang);
    if s != [] then s
    else if TextGuard(page.before, lang) && Contains(page.before, code) then Filter(page.allRows, code, lang, true)
    else []
  }

  /** Filling the row list with `push` / `append`, one candidate row at a time. */
  method FilterRows(rows: seq<string>, code: string, lang: Lang, fallback: bool) returns (kept: seq<string>)
    ensures kept == Filter(rows, code, lang, fallback)
  {
    kept := [];
    var i := 0;
    while i < |rows|
      invariant 0 <= i <= |rows|
      invariant kept == Filter(rows[..i], code, lang, fallback)
    {
      assert rows[..i + 1][..i] == rows[..i];
      if TextGuard(rows[i], lang) && Contains(rows[i], code) && !Contains(rows[i], "商品编号") &&
         (fallback || !Contains(rows[i], "商品名称")) {
        kept := kept + [rows[i]];
      }
      i := i + 1;
    }
    assert rows[..|rows|] == rows;
  }

  /** The selector loop of `verifyProductRows` / `verify_product_rows`: stop at the first selector with kept rows. */
  method ScanSelectors(selectors: seq<seq<string>>, code: string, lang: Lang) returns (productRows: seq<string>)
    ensures productRows == SelectedRows(selectors, code, lang)
  {
    productRows := [];
    var k := 0;
    while k < |selectors|
      invariant 0 <= k <= |selectors|
      invariant forall j :: 0 <= j < k ==> !HasRows(selectors[j], code, lang)
      invariant productRows == []
    {
      var dataRows := FilterRows(selectors[k], code, lang, false);
      if dataRows != [] {
        SelectedAt(selectors, code, lang, k);
        productRows := dataRows;
        break;
      }
      k := k + 1;
    }
  }

  /** The selector loop, then the fallback over all table rows when the body text shows the code. */
  method CollectProductRows(page: ProductPage, code: string, lang: Lang) returns (productRows: seq<string>)
    ensures productRows == ProductRows(page, code, lang)
  {
    productRows := ScanSelectors(page.selectors, code, lang);
    if productRows == [] && TextGuard(page.before, lang) && Contains(page.before, code) {
      productRows := FilterRows(page.allRows, code, lang, true);
    }
  }

  /**
   * The product verdict: a truthy text, then the count step (the code shown, or
   * enough rows, or a product table's header shown), then the code, then the name.
   */
  function ProductVerdict(text: string, rowCount: nat, expectedCount: int, code: string, name: string): (r: Verdict)
    ensures r == Pass <==> text != "" && Contains(text, code) && Contains(text, name)
    ensures r == Fail(TooFewProductRows) ==> text != "" && !Contains(text, code) && rowCount < expectedCount
  {
    if text == "" then Fail(EmptyText)
    else if !Contains(text, code) && rowCount < expectedCount && !(Contains(text, "商品编号") || Contains(text, "商品名称"))
    then Fail(TooFewProductRows)
    else if !Contains(text, code) then Fail(ProductCodeMissing)
    else if !Contains(text, name) then Fail(ProductNameMissing)
    else Pass
  }

  /** Whether the product check passes does not depend on the rows found or on `expectedCount`. */
  lemma ProductPassIgnoresRows(text: string, n1: nat, e1: int, n2: nat, e2: int, code: string, name: string)
    ensures (ProductVerdict(text, n1, e1, code, name) == Pass) == (ProductVerdict(text, n2, e2, code, name) == Pass)
  {
  }

  /** `verifyProductRows` / `verify_product_rows`: collect the rows, then judge the re-read body text. */
  method VerifyProductRows(page: ProductPage, expectedCount: int, code: string, name: string, lang: Lang)
      returns (productRows: seq<string>, r: Verdict)
    ensures productRows == ProductRows(page, code, lang)
    ensures r == ProductVerdict(page.after, |productRows|, expectedCount, code, name)
  {
    productRows := CollectProductRows(page, code, lang);
    r := ProductVerdict(page.after, |productRows|, expectedCount, code, name);
  }
}
