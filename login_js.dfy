/**
 * The decision logic of the JavaScript login module: the candidate-selector
 * chains of the login form, the agreement checkbox, the post-click polling rule,
 * tenant-name corroboration and the language-switch decision.
 *
 * The page is reduced to observations: one visibility flag per selector
 * candidate, and one (URL, body text) snapshot per second of the polling loop.
 */
module LoginJs {
  import opened Strings
  import opened Search
  import LoginConfig

  // ---------------------------------------------------------------- arguments

  /** The login page every call opens, whatever the caller passes. */
  const QaLoginUrl := "https://saas-auth-qa.hexcloud.cn/page/login"

  /** Destructuring defaults of `login(page, { account, password, brandAlias })`: only a missing property takes the default. */
  function Credentials(account: Option<string>, password: Option<string>, brandAlias: Option<string>): (c: LoginConfig.Credentials)
    ensures account.Some? ==> c.account == account.value
    ensures password.Some? ==> c.password == password.value
    ensures brandAlias.Some? ==> c.brandAlias == brandAlias.value
    ensures account.None? && password.None? && brandAlias.None? ==> c == LoginConfig.DefaultCredentials
  {
    LoginConfig.Credentials(
      if account.Some? then account.value else "admin",
      if password.Some? then password.value else "admin@123",
      if brandAlias.Some? then brandAlias.value else "hex")
  }

  /** The URL navigated to: the hard-coded test login page; a `loginUrl` argument is ignored. */
  function NavigationUrl(loginUrl: Option<string>): (u: string)
    ensures u == LoginConfig.Test.loginUrl
  {
    QaLoginUrl
  }

  /** Even with the production login page passed in, the test login page is opened. */
  lemma ProductionLoginUrlIgnored()
    ensures NavigationUrl(Some(LoginConfig.Production.loginUrl)) != LoginConfig.Production.loginUrl
  {
  }

  // ---------------------------------------------------------------- the form

  /**
   * One agreement-checkbox candidate; `fails` when a call on it (`isVisible`,
   * `isChecked` or `check`) throws, which the loop catches before moving on.
   */
  datatype Checkbox = Checkbox(visible: bool, checked: bool, fails: bool)

  /** The loop ends at a candidate that is visible and whose calls do not throw. */
  function Usable(b: Checkbox): bool { b.visible && !b.fails }

  /**
   * The agreement loop: the first usable candidate is handled and the loop ends;
   * it is checked only if it is not checked already.  A throwing candidate is
   * passed over like a hidden one.  Returns the handled candidate and whether
   * `check()` was called.
   */
  method Agreement(boxes: seq<Checkbox>) returns (handled: Option<nat>, checks: bool)
    ensures handled == FirstIndex(boxes, Usable)
    ensures checks <==> handled.Some? && !boxes[handled.value].checked
  {
    var i := 0;
    while i < |boxes|
      invariant 0 <= i <= |boxes|
      invariant forall j :: 0 <= j < i ==> !Usable(boxes[j])
    {
      if boxes[i].visible && !boxes[i].fails {
        return Some(i), !boxes[i].checked;
      }
      i := i + 1;
    }
    return None, false;
  }

  // ---------------------------------------------------------------- polling

  /** One iteration of the post-click loop: the URL and the body text it read. */
  datatype Snapshot = Snapshot(url: string, text: string)

  predicate OnLoginPage(s: Snapshot) { Contains(s.url, "/page/login") }

  /** The error rule: a non-empty body text naming an error. */
  predicate ShowsError(text: string) {
    text != "" && (Contains(text, "错误") || Contains(text, "失败") || Contains(text, "error") || Contains(text, "Error"))
  }

  /** A snapshot that ends the loop: either the page has left the login page or it shows an error. */
  function Decisive(s: Snapshot): bool { !OnLoginPage(s) || ShowsError(s.text) }

  datatype PollResult = LeftLogin(at: nat) | ErrorShown(at: nat) | TimedOut

  /**
   * The verdict over the snapshots read before the 20-second deadline: success at
   * the first snapshot off the login page, `登录失败` at the first one still on it
   * with an error shown, whichever comes first; otherwise a timeout.
   */
  function PollVerdict(polls: seq<Snapshot>): (r: PollResult)
    ensures r.LeftLogin? ==> r.at < |polls| && !OnLoginPage(polls[r.at])
    ensures r.ErrorShown? ==> r.at < |polls| && OnLoginPage(polls[r.at]) && ShowsError(polls[r.at].text)
    ensures !r.TimedOut? ==> forall j :: 0 <= j < r.at ==> OnLoginPage(polls[j]) && !ShowsError(polls[j].text)
    ensures r.TimedOut? <==> forall j :: 0 <= j < |polls| ==> OnLoginPage(polls[j]) && !ShowsError(polls[j].text)
  {
    match FirstIndex(polls, Decisive)
    case None => TimedOut
    case Some(i) => if OnLoginPage(polls[i]) then ErrorShown(i) else LeftLogin(i)
  }

  /** The `while (Date.now() - startTime < maxWaitTime)` loop, one snapshot per one-second wait. */
  method PollLogin(polls: seq<Snapshot>) returns (r: PollResult)
    requires |polls| <= 20
    ensures r == PollVerdict(polls)
  {
    var i := 0;
    while i < |polls|
      invariant 0 <= i <= |polls|
      invariant forall j :: 0 <= j < i ==> !Decisive(polls[j])
    {
      if !OnLoginPage(polls[i]) {
        return LeftLogin(i);
      }
      if ShowsError(polls[i].text) {
        return ErrorShown(i);
      }
      i := i + 1;
    }
    return TimedOut;
  }

  // ---------------------------------------------------------------- login

  /** What the login form and the polling loop show. */
  datatype LoginPage = LoginPage(
    account: seq<bool>,
    password: seq<bool>,
    brand: seq<bool>,
    agreement: seq<Checkbox>,
    button: seq<bool>,
    polls: seq<Snapshot>)

  /** The candidates the form steps acted on. */
  datatype FormActions = FormActions(
    account: Option<nat>,
    password: Option<nat>,
    brand: Option<nat>,
    agreement: Option<nat>,
    checked: bool,
    button: Option<nat>)

  datatype LoginOutcome =
    | LoggedIn(at: nat)
    | NoAccountInput
    | NoPasswordInput
    | ButtonNotVisible
    | ErrorReported(at: nat)
    | LoginTimedOut

  function FromPoll(r: PollResult): LoginOutcome {
    match r
    case LeftLogin(i) => LoggedIn(i)
    case ErrorShown(i) => ErrorReported(i)
    case TimedOut => LoginTimedOut
  }

  /** The candidate selectors the source lists for each step. */
  const AccountCandidates := 7
  const PasswordCandidates := 3
  const BrandCandidates := 6
  const AgreementCandidates := 3
  const ButtonCandidates := 6

  /**
   * `login(page, credentials)` after navigation: fill account, password and brand
   * alias into the candidates the keep-last loops hold, handle the agreement box,
   * click the held button (waiting for it to be visible), then poll.  No visible
   * button means the held last candidate never becomes visible and the wait fails;
   * with no candidate at all Enter is pressed instead.
   */
  method Login(page: LoginPage) returns (acts: FormActions, outcome: LoginOutcome)
    requires |page.polls| <= 20
    ensures acts.account == Held(page.account)
    ensures outcome == NoAccountInput <==> |page.account| == 0
    ensures |page.account| > 0 ==> acts.password == Held(page.password)
    ensures outcome == NoPasswordInput <==> |page.account| > 0 && |page.password| == 0
    ensures |page.account| > 0 && |page.password| > 0 ==>
      acts.brand == Held(page.brand) &&
      acts.agreement == FirstIndex(page.agreement, Usable) &&
      (acts.checked <==> acts.agreement.Some? && !page.agreement[acts.agreement.value].checked) &&
      acts.button == Held(page.button)
    ensures outcome == ButtonNotVisible <==>
      |page.account| > 0 && |page.password| > 0 && |page.button| > 0 && FirstIndex(page.button, Id).None?
    ensures |page.account| > 0 && |page.password| > 0 && (|page.button| == 0 || FirstIndex(page.button, Id).Some?) ==>
      outcome == FromPoll(PollVerdict(page.polls))
  {
    acts := FormActions(None, None, None, None, false, None);
    var account := KeepLastScan(page.account);
    acts := acts.(account := account);
    if account.None? {
      return acts, NoAccountInput;
    }
    var password := KeepLastScan(page.password);
    acts := acts.(password := password);
    if password.None? {
      return acts, NoPasswordInput;
    }
    // A missing brand input is only a warning.
    var brand := KeepLastScan(page.brand);
    var box, checks := Agreement(page.agreement);
    var button := KeepLastScan(page.button);
    acts := acts.(brand := brand, agreement := box, checked := checks, button := button);
    if button.Some? && !page.button[button.value] {
      return acts, ButtonNotVisible;
    }
    var r := PollLogin(page.polls);
    outcome := FromPoll(r);
  }

  /** With the source's candidate lists the "cannot find the input" errors and the Enter fallback are unreachable. */
  lemma NotFoundUnreachable(page: LoginPage)
    requires |page.account| == AccountCandidates && |page.password| == PasswordCandidates
    requires |page.button| == ButtonCandidates
    ensures Held(page.account).Some? && Held(page.password).Some? && Held(page.button).Some?
  {
  }

  // ---------------------------------------------------------------- tenant

  /** A header candidate: whether it is visible, and whether the name is visible inside it. */
  datatype Header = Header(visible: bool, nameVisible: bool)

  function HeaderShowsName(h: Header): bool { h.visible && h.nameVisible }

  /** What tenant verification looks at: the page-wide text locator, the headers, the body text. */
  datatype TenantPage = TenantPage(pageWideVisible: bool, headers: seq<Header>, text: string)

  /** The body-text source of `verifyTenantName`. */
  predicate TextHasName(text: string, name: string) { text != "" && Contains(text, name) }

  /**
   * `verifyTenantName`: passes iff the page-wide locator, a header-scoped locator
   * or the body text finds the name; otherwise it throws.
   */
  method VerifyTenantName(page: TenantPage, name: string) returns (ok: bool)
    ensures ok <==> page.pageWideVisible || FirstIndex(page.headers, HeaderShowsName).Some? || TextHasName(page.text, name)
  {
    var found := page.pageWideVisible;
    if !found {
      var i := 0;
      while i < |page.headers|
        invariant 0 <= i <= |page.headers|
        invariant forall j :: 0 <= j < i ==> !HeaderShowsName(page.headers[j])
      {
        if page.headers[i].visible && page.headers[i].nameVisible {
          found := true;
          break;
        }
        i := i + 1;
      }
    }
    if !found {
      found := TextHasName(page.text, name);
    }
    ok := found;
  }

  // ---------------------------------------------------------------- language

  const EnglishKeywords: seq<string> := [
    "Store operations", "Warehouse operations", "BOH Supply Chain Platform",
    "Organizational management", "Product management", "Formula management"]

  const ChineseKeywords: seq<string> := ["门店运营", "BOH供应链中台", "组织管理", "产品管理", "配方管理", "仓库运营"]

  /** Some keyword occurs in a non-empty text. */
  predicate AnyKeyword(text: string, keywords: seq<string>) {
    text != "" && exists k :: 0 <= k < |keywords| && Contains(text, keywords[k])
  }

  /** The keyword loop setting `hasEnglishMenu` / `hasChineseMenu`. */
  method HasKeyword(text: string, keywords: seq<string>) returns (found: bool)
    ensures found <==> AnyKeyword(text, keywords)
  {
    found := false;
    var k := 0;
    while k < |keywords|
      invariant 0 <= k <= |keywords|
      invariant forall j :: 0 <= j < k ==> !(text != "" && Contains(text, keywords[j]))
    {
      if text != "" && Contains(text, keywords[k]) {
        found := true;
        break;
      }
      k := k + 1;
    }
  }

  /** A top-right language control: visible, and whether the Chinese option shows after clicking it. */
  datatype Control = Control(visible: bool, optionVisible: bool)

  /** An element matched by one of the general language selectors. */
  datatype LangElement =
    | Hidden
    | Dropdown                           // a SELECT: the option is selected
    | Clickable(optionVisible: bool)     // clicked, then the Chinese option may show
    | Throws                             // an action on it throws: the rest of this selector is skipped

  datatype LanguagePage = LanguagePage(text: string, topRight: seq<Control>, selectors: seq<seq<LangElement>>)

  datatype LanguageResult =
    | AlreadyChinese
    | Undetermined
    | ViaTopRight(control: nat)
    | ViaSelector(selector: nat, element: nat)
    | NotSwitched

  predicate SwitchAttempted(r: LanguageResult) { r.ViaTopRight? || r.ViaSelector? || r.NotSwitched? }

  function ControlSwitches(c: Control): bool { c.visible && c.optionVisible }

  /** The element a general selector switches the language with, if any; a throwing element ends the scan. */
  function ElementSwitch(els: seq<LangElement>): (r: Option<nat>)
    decreases |els|
    ensures r.Some? ==> r.value < |els| && (els[r.value] == Dropdown || els[r.value] == Clickable(true))
    ensures r.Some? ==> forall j :: 0 <= j < r.value ==> els[j] == Hidden || els[j] == Clickable(false)
    ensures r.None? ==> forall k :: 0 <= k < |els| && (els[k] == Dropdown || els[k] == Clickable(true)) ==>
      exists t :: 0 <= t < k && els[t] == Throws
  {
    if |els| == 0 then None
    else match els[0]
      case Hidden => ShiftOption(ElementSwitch(els[1..]))
      case Clickable(false) => ShiftOption(ElementSwitch(els[1..]))
      case Throws => None
      case _ => Some(0)
  }

  function ShiftOption(r: Option<nat>): Option<nat> {
    if r.Some? then Some(r.value + 1) else None
  }

  function SelectorSwitches(els: seq<LangElement>): bool { ElementSwitch(els).Some? }

  /**
   * `switchToSimplifiedChinese`: a switch is attempted iff an English keyword is
   * present and no Chinese one is; the top-right controls are tried first, then
   * the general selectors; no path throws.
   */
  method SwitchToSimplifiedChinese(page: LanguagePage) returns (r: LanguageResult)
    ensures SwitchAttempted(r) <==> AnyKeyword(page.text, EnglishKeywords) && !AnyKeyword(page.text, ChineseKeywords)
    ensures r == AlreadyChinese <==> AnyKeyword(page.text, ChineseKeywords)
    ensures r.ViaTopRight? ==> Some(r.control) == FirstIndex(page.topRight, ControlSwitches)
    ensures r.ViaSelector? ==>
      FirstIndex(page.topRight, ControlSwitches).None? &&
      Some(r.selector) == FirstIndex(page.selectors, SelectorSwitches) &&
      Some(r.element) == ElementSwitch(page.selectors[r.selector])
    ensures r == NotSwitched ==>
      FirstIndex(page.topRight, ControlSwitches).None? && FirstIndex(page.selectors, SelectorSwitches).None?
  {
    var english := HasKeyword(page.text, EnglishKeywords);
    var chinese := HasKeyword(page.text, ChineseKeywords);
    if !(english && !chinese) {
      return if chinese then AlreadyChinese else Undetermined;
    }
    // Method 1: the top-right controls.
    var i := 0;
    while i < |page.topRight|
      invariant 0 <= i <= |page.topRight|
      invariant forall j :: 0 <= j < i ==> !ControlSwitches(page.topRight[j])
    {
      if page.topRight[i].visible && page.topRight[i].optionVisible {
        return ViaTopRight(i);
      }
      i := i + 1;
    }
    // Method 2: every element of every general selector.
    var s := 0;
    while s < |page.selectors|
      invariant 0 <= s <= |page.selectors|
      invariant forall j :: 0 <= j < s ==> !SelectorSwitches(page.selectors[j])
    {
      var e := ScanElements(page.selectors[s]);
      if e.Some? {
        return ViaSelector(s, e.value);
      }
      s := s + 1;
    }
    return NotSwitched;
  }

  /** The inner loop over one selector's elements. */
  method ScanElements(els: seq<LangElement>) returns (hit: Option<nat>)
    ensures hit == ElementSwitch(els)
  {
    var k := 0;
    while k < |els|
      invariant 0 <= k <= |els|
      invariant forall j :: 0 <= j < k ==> els[j] == Hidden || els[j] == Clickable(false)
      invariant ElementSwitch(els) == ShiftBy(ElementSwitch(els[k..]), k)
    {
      if els[k] == Throws {
        return None;
      }
      if els[k] == Dropdown || els[k] == Clickable(true) {
        return Some(k);
      }
      assert els[k..][1..] == els[k + 1..];
      k := k + 1;
    }
    return None;
  }

  function ShiftBy(r: Option<nat>, k: nat): Option<nat> {
    if r.Some? then Some(r.value + k) else None
  }
}
