/**
 * The Python order module's own rules: the `zfill` date string, the full day
 * cell rule, the order-page URL taken from the selected configuration, the
 * strict store-code check, and the steps that compose them; with the points
 * where they part from the JavaScript module.
 */
module OrderPy {
  import opened Strings
  import opened Search
  import opened OrderCommon
  import LoginConfig
  import OrderJs

  // ---------------------------------------------------------------- dates

  /** `f'{year}-{str(month).zfill(2)}-{str(day).zfill(2)}'`: the same string the JavaScript half builds. */
  function DateString(y: int, m: int, d: int): (r: string)
    ensures r == OrderJs.DateString(y, m, d)
  {
    PadAgreesWithZFill(m);
    PadAgreesWithZFill(d);
    IntToString(y) + "-" + ZFill2(IntToString(m)) + "-" + ZFill2(IntToString(d))
  }

  // ---------------------------------------------------------------- picker

  /**
   * The generic cell rule as Python evaluates it: a cell whose stripped text is
   * the day and which holds neither a disabled nor an other-month child, or a
   * non-empty `aria-label` containing the date string, or a matching `data-date`.
   * It accepts every cell the JavaScript rule accepts, and more.
   */
  function CellMatches(c: Cell, ds: string, day: int): (r: bool)
    ensures ds != "" && OrderJs.CellMatches(c, ds, day) ==> r
    ensures r && !OrderJs.CellMatches(c, ds, day) ==>
      c.text != "" && PyStrip(c.text) == IntToString(day) && !c.disabledChild && !c.otherChild
  {
    (c.text != "" && PyStrip(c.text) == IntToString(day) && !(c.disabledChild || c.otherChild)) ||
    (c.ariaLabel != "" && Contains(c.ariaLabel, ds)) ||
    c.dataDate == ds
  }

  /**
   * A bare day cell, showing the day and carrying no label and no `data-date`:
   * the Python rule clicks it on every date, the JavaScript rule never.
   */
  lemma TextOnlyCellDiverges(y: int, m: int, d: nat)
    ensures var c := Cell(IntToString(d), "", "", false, false, false);
      CellMatches(c, DateString(y, m, d), d) && !OrderJs.CellMatches(c, DateString(y, m, d), d)
  {
    var t := IntToString(d);
    SpaceNoDigit(Py, t[0]);
    SpaceNoDigit(Py, t[|t| - 1]);
    TrimFixed(t, PySpace);
    assert DateString(y, m, d) != "" by {
      assert StartsWith(DateString(y, m, d), IntToString(y) + "-");
    }
  }

  /** Whether one attempt of `_select_date_from_picker` clicks a day. */
  predicate PickerSelects(v: PickerView, y: int, m: int, d: int) {
    PickerOpen(v) &&
    ((exists h :: 0 <= h < |v.daySelectors| && DaySelectable(v.daySelectors[h])) ||
     (exists i :: 0 <= i < |v.cells| &&
        CellMatches(v.cells[i], DateString(y, m, d), d) && !v.cells[i].disabledChild && !v.cells[i].clickFails) ||
     (exists j :: 0 <= j < |v.textParents| && ParentSelectable(v.textParents[j])))
  }

  /** `_select_date_from_picker(page, year, month, day)` on one picker view. */
  method SelectDateFromPicker(v: PickerView, y: int, m: int, d: int) returns (selected: bool)
    ensures selected <==> PickerSelects(v, y, m, d)
  {
    var ds := DateString(y, m, d);
    selected := PickDay(v, c => CellMatches(c, ds, d));
  }

  /** Wherever the JavaScript picker clicks a day, the Python picker does too. */
  lemma PickerRefinesJs(v: PickerView, y: int, m: int, d: int)
    requires OrderJs.PickerSelects(v, y, m, d)
    ensures PickerSelects(v, y, m, d)
  {
    var ds := DateString(y, m, d);
    assert StartsWith(ds, IntToString(y) + "-");
    assert ds != "";
    if exists i :: 0 <= i < |v.cells| &&
         OrderJs.CellMatches(v.cells[i], ds, d) && !v.cells[i].disabledChild && !v.cells[i].clickFails {
      var i :| 0 <= i < |v.cells| &&
        OrderJs.CellMatches(v.cells[i], ds, d) && !v.cells[i].disabledChild && !v.cells[i].clickFails;
      assert CellMatches(v.cells[i], ds, d);
    }
  }

  /**
   * A throwing click is caught and the next candidate tried: an open picker
   * whose only day selector throws selects nothing, and one whose next day
   * selector clicks selects the day.
   */
  lemma ThrowingClickSkipped(y: int, m: int, d: int)
    ensures !PickerSelects(PickerView([true], [], [DaySelector(true, true)], [], []), y, m, d)
    ensures PickerSelects(PickerView([true], [], [DaySelector(true, true), DaySelector(true, false)], [], []), y, m, d)
  {
    var v := PickerView([true], [], [DaySelector(true, true), DaySelector(true, false)], [], []);
    assert FirstIndex(v.waitHits, Id) == Some(0);
    assert DaySelectable(v.daySelectors[1]);
  }

  /** The outcome of each picker attempt. */
  function PickerOutcomes(views: seq<PickerView>, y: int, m: int, d: int): (r: seq<bool>)
    ensures |r| == |views|
    ensures forall k :: 0 <= k < |views| ==> (r[k] <==> PickerSelects(views[k], y, m, d))
  {
    seq(|views|, k requires 0 <= k < |views| => PickerSelects(views[k], y, m, d))
  }

  /**
   * The outcome of one date input: untouched exactly when there is no input;
   * set by the picker exactly when one of the first three views selects the
   * day, at the first such attempt; filled with the zero-filled date otherwise; `NotSet`
   * exactly when every attempt and the fill fail.
   */
  predicate DateSet(r: DateOutcome, inputs: nat, views: seq<PickerView>, fillOk: bool, y: int, m: int, d: int)
    requires |views| >= MaxPickerAttempts
  {
    (r == NoDateInput <==> inputs == 0) &&
    (inputs > 0 ==>
       (r.SetByPicker? <==> exists k :: 0 <= k < MaxPickerAttempts && PickerSelects(views[k], y, m, d))) &&
    (r.SetByPicker? ==>
       r.attempt < MaxPickerAttempts && PickerSelects(views[r.attempt], y, m, d) &&
       forall k :: 0 <= k < r.attempt ==> !PickerSelects(views[k], y, m, d)) &&
    (r.SetByFill? ==> r.value == DateString(y, m, d)) &&
    (r == NotSet <==>
       inputs > 0 && !fillOk && forall k :: 0 <= k < MaxPickerAttempts ==> !PickerSelects(views[k], y, m, d))
  }

  /**
   * One date input of `select_date_range_and_query`: up to three picker
   * attempts, then the fill fallback with the zero-filled date string.
   */
  method SetDate(inputs: nat, views: seq<PickerView>, fillOk: bool, y: int, m: int, d: int)
      returns (r: DateOutcome)
    requires |views| >= MaxPickerAttempts
    ensures DateSet(r, inputs, views, fillOk, y, m, d)
  {
    var picks := PickerOutcomes(views, y, m, d);
    var attempts;
    r, attempts := SetDateInput(inputs, picks, fillOk, DateString(y, m, d));
    FirstPick(picks);
    if r.SetByPicker? {
      forall k | 0 <= k < r.attempt
        ensures !PickerSelects(views[k], y, m, d)
      {
        assert !picks[..MaxPickerAttempts][k];
      }
    }
  }

  /**
   * `select_date_range_and_query`: the start date, the end date, then the
   * query button clicked (or Enter pressed).
   */
  method SelectDateRangeAndQuery(page: QueryPage, range: DateRange)
      returns (start: DateOutcome, end: DateOutcome, query: QueryAction)
    requires QueryPageComplete(page)
    ensures DateSet(start, page.startInputs, page.startViews, page.startFillOk,
                    range.startYear, range.startMonth, range.startDay)
    ensures DateSet(end, page.endInputs, page.endViews, page.endFillOk,
                    range.endYear, range.endMonth, range.endDay)
    ensures QuerySubmitted(query, page.firstScan, page.secondScan, page.clickOk)
  {
    start := SetDate(page.startInputs, page.startViews, page.startFillOk, range.startYear, range.startMonth, range.startDay);
    end := SetDate(page.endInputs, page.endViews, page.endFillOk, range.endYear, range.endMonth, range.endDay);
    query := SubmitQuery(page.firstScan, page.secondScan, page.clickOk);
  }

  // ---------------------------------------------------------------- navigation

  /**
   * `navigate_to_order_page`'s target: `os.getenv('BOH_BASE_URL', BOH_BASE_URL)`,
   * where the default is the back-office host of the configuration `ENV`
   * selects, followed by the page path.
   */
  function OrderPageUrl(bohEnv: Option<string>, envVar: Option<string>): (u: string)
    ensures bohEnv.Some? ==> u == bohEnv.value + OrderPagePath
    ensures bohEnv.None? ==> u == LoginConfig.CurrentConfigPy(envVar).bohBaseUrl + OrderPagePath
  {
    (if bohEnv.Some? then bohEnv.value else LoginConfig.CurrentConfigPy(envVar).bohBaseUrl) + OrderPagePath
  }

  /**
   * The two halves open the same page exactly when `BOH_BASE_URL` is set and
   * non-empty, or unset while `ENV` does not select production.
   */
  lemma OrderPageUrlAgainstJs(bohEnv: Option<string>, envVar: Option<string>)
    ensures OrderPageUrl(bohEnv, envVar) == OrderJs.OrderPageUrl(bohEnv) <==>
      (bohEnv.Some? && bohEnv.value != "") || (bohEnv.None? && envVar != Some("production"))
  {
    var py, js := OrderPageUrl(bohEnv, envVar), OrderJs.OrderPageUrl(bohEnv);
    if bohEnv == Some("") {
      assert |py| < |js|;
    } else if bohEnv.None? && envVar == Some("production") {
      assert |py| < |js|;
    }
  }

  /** Whatever `goto` reports, ending up on the requested order page passes the `except` block's URL check. */
  lemma NavigationToOrderPageSucceeds(bohEnv: Option<string>, envVar: Option<string>, gotoFailed: bool)
    ensures !NavigationFails(gotoFailed, OrderPageUrl(bohEnv, envVar))
  {
    var u := OrderPageUrl(bohEnv, envVar);
    assert u[|u| - |OrderPagePath|..] == OrderPagePath;
    LandingOnOrderPageSucceeds(gotoFailed, u);
  }

  // ---------------------------------------------------------------- detail

  /**
   * The store-code step: the pattern must match (`assert store_code_match is
   * not None`), and the stripped capture must equal the stripped expected code.
   * The text-containment branch after it is unreachable: a failed match has
   * already failed the assertion.
   */
  function StoreCodeCheck(text: string, code: string): (r: Verdict)
    ensures r == Fail(NoStoreCode) <==> ExtractStoreCode(text, Py).None?
    ensures r == Pass <==> ExtractStoreCode(text, Py) == Some(PyStrip(code))
    ensures r.Fail? ==> r.why == NoStoreCode || r.why == StoreCodeMismatch(ExtractStoreCode(text, Py).value, PyStrip(code))
  {
    match ExtractStoreCode(text, Py)
    case None => Fail(NoStoreCode)
    case Some(c) =>
      SpaceNoDigit(Py, c[0]);
      SpaceNoDigit(Py, c[|c| - 1]);
      TrimFixed(c, PySpace);
      var actual, expected := PyStrip(c), PyStrip(code);
      if actual == expected then Pass else Fail(StoreCodeMismatch(actual, expected))
  }

  /**
   * On the suite's store line the Python step passes for the code its own test
   * expects, where the JavaScript step fails for the code the JavaScript test expects.
   */
  lemma SuiteStoreCodes()
    ensures StoreCodeCheck(SuiteStoreLine, "100000010") == Pass
    ensures OrderJs.StoreCodeCheck(SuiteStoreLine, "10010").Fail?
  {
    SuiteStoreLineCode(Py);
    SuiteCodeStripped();
    OrderJs.SuiteStoreCodeRejected();
  }

  /** The Python suite's expected code has no whitespace to strip. */
  lemma SuiteCodeStripped()
    ensures PyStrip("100000010") == "100000010"
  {
    var c := "100000010";
    assert !PySpace(c[0]) && !PySpace(c[|c| - 1]);
    TrimFixed(c, PySpace);
  }

  /** The verdict of `verify_order_detail`, in the same order as the JavaScript one. */
  function DetailVerdict(afterData: string, afterReload: string, url: string, info: OrderInfo): (r: Verdict)
    ensures r == Fail(StillUnloaded) <==> ReloadNeeded(afterData, Py) && ReloadNeeded(afterReload, Py)
    ensures r == Pass <==>
      !(ReloadNeeded(afterData, Py) && ReloadNeeded(afterReload, Py)) &&
      DetailChecks(FinalText(afterData, afterReload, Py), url, info) == Pass &&
      StoreCodeCheck(FinalText(afterData, afterReload, Py), info.storeCode) == Pass
    ensures r != Fail(OrderNumberUnloaded) && r != Fail(Unloaded(Status))
  {
    if ReloadNeeded(afterData, Py) && ReloadNeeded(afterReload, Py) then Fail(StillUnloaded)
    else
      var t := FinalText(afterData, afterReload, Py);
      PlaceholderChecksUnreachable(afterData, afterReload, url, info, Py);
      var checks := DetailChecks(t, url, info);
      if checks.Fail? then checks else StoreCodeCheck(t, info.storeCode)
  }

  /** `verify_order_detail(page, order_info)`: the waits, then the checks on the text they leave. */
  method VerifyOrderDetail(page: DetailPage, info: OrderInfo) returns (tr: DetailTrace, r: Verdict)
    requires |page.firstWait| >= MaxRetries && |page.dataWait| >= MaxDataWaitRetries
    requires |page.reloadWait| >= MaxAdditionalWaits
    ensures tr.reloaded <==> ReloadNeeded(page.afterData, Py)
    ensures tr.finalText == FinalText(page.afterData, page.afterReload, Py)
    ensures r == DetailVerdict(page.afterData, page.afterReload, page.url, info)
  {
    tr := DetailWaits(page, info, Py);
    if tr.reloaded && ReloadNeeded(tr.finalText, Py) {
      return tr, Fail(StillUnloaded);
    }
    r := DetailChecks(tr.finalText, page.url, info);
    if r == Pass {
      r := StoreCodeCheck(tr.finalText, info.storeCode);
    }
  }

  /** The verdict reached the store-code step: it passed, or failed there. */
  predicate AtStoreCode(r: Verdict) {
    r == Pass || r == Fail(NoStoreCode) || (r.Fail? && r.why.StoreCodeMismatch?)
  }

  /**
   * The two verdicts differ only in the store-code step: both reach it or
   * neither does, and before it they fail for the same reason.
   */
  lemma DetailVerdictsAgreeBeforeStoreCode(afterData: string, afterReload: string, url: string, info: OrderInfo)
    ensures AtStoreCode(DetailVerdict(afterData, afterReload, url, info)) <==>
      AtStoreCode(OrderJs.DetailVerdict(afterData, afterReload, url, info))
    ensures !AtStoreCode(DetailVerdict(afterData, afterReload, url, info)) ==>
      DetailVerdict(afterData, afterReload, url, info) == OrderJs.DetailVerdict(afterData, afterReload, url, info)
  {
    ReloadGuardIrrelevant(afterData);
    ReloadGuardIrrelevant(afterReload);
    assert FinalText(afterData, afterReload, Py) == FinalText(afterData, afterReload, Js);
  }
}
