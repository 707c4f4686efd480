/**
 * The decision logic of the Python login module, over the same observations as
 * the JavaScript one, with the points where the two halves part.
 */
module LoginPy {
  import opened Strings
  import opened Search
  import LoginConfig
  import LoginJs

  // ---------------------------------------------------------------- arguments

  /** `None` arguments take the `CREDENTIALS` entries of the selected configuration. */
  function Credentials(account: Option<string>, password: Option<string>, brandAlias: Option<string>, envVar: Option<string>)
    : (c: LoginConfig.Credentials)
    ensures account.Some? ==> c.account == account.value
    ensures password.Some? ==> c.password == password.value
    ensures brandAlias.Some? ==> c.brandAlias == brandAlias.value
    ensures account.None? ==> c.account == LoginConfig.CurrentConfigPy(envVar).credentials.account
    ensures password.None? ==> c.password == LoginConfig.CurrentConfigPy(envVar).credentials.password
    ensures brandAlias.None? ==> c.brandAlias == LoginConfig.CurrentConfigPy(envVar).credentials.brandAlias
  {
    var d := LoginConfig.CurrentConfigPy(envVar).credentials;
    LoginConfig.Credentials(
      if account.Some? then account.value else d.account,
      if password.Some? then password.value else d.password,
      if brandAlias.Some? then brandAlias.value else d.brandAlias)
  }

  /** Whatever `ENV` says, the defaults are the ones the JavaScript destructuring supplies. */
  lemma CredentialsAgreeWithJs(account: Option<string>, password: Option<string>, brandAlias: Option<string>, envVar: Option<string>)
    ensures Credentials(account, password, brandAlias, envVar) == LoginJs.Credentials(account, password, brandAlias)
  {
    LoginConfig.CredentialsIndependentOfEnv(envVar);
  }

  /** `page.goto(login_url)`: the argument when given, else `LOGIN_URL` of the selected configuration. */
  function NavigationUrl(loginUrl: Option<string>, envVar: Option<string>): (u: string)
    ensures loginUrl.Some? ==> u == loginUrl.value
    ensures loginUrl.None? ==> u == LoginConfig.CurrentConfigPy(envVar).loginUrl
  {
    if loginUrl.Some? then loginUrl.value else LoginConfig.CurrentConfigPy(envVar).loginUrl
  }

  /** In production the two halves open different login pages. */
  lemma NavigationDiffersInProduction()
    ensures NavigationUrl(None, Some("production")) != LoginJs.NavigationUrl(None)
  {
  }

  // ---------------------------------------------------------------- the form

  /** The loop ends at a candidate that is visible, not yet checked, and whose calls do not throw. */
  function Checkable(b: LoginJs.Checkbox): bool { b.visible && !b.checked && !b.fails }

  /**
   * The agreement loop: the first candidate that is visible and not yet checked
   * is checked and the loop ends; visible boxes that are already checked, and
   * candidates whose calls throw, are passed over.
   */
  method Agreement(boxes: seq<LoginJs.Checkbox>) returns (checked: Option<nat>)
    ensures checked == FirstIndex(boxes, Checkable)
  {
    var i := 0;
    while i < |boxes|
      invariant 0 <= i <= |boxes|
      invariant forall j :: 0 <= j < i ==> !Checkable(boxes[j])
    {
      if boxes[i].visible && !boxes[i].checked && !boxes[i].fails {
        return Some(i);
      }
      i := i + 1;
    }
    return None;
  }

  /** Whenever the JavaScript loop checks a box, the Python loop checks the same one. */
  lemma {:induction false} AgreementRefinesJs(boxes: seq<LoginJs.Checkbox>)
    requires FirstIndex(boxes, LoginJs.Usable).Some?
    requires !boxes[FirstIndex(boxes, LoginJs.Usable).value].checked
    ensures FirstIndex(boxes, Checkable) == FirstIndex(boxes, LoginJs.Usable)
  {
    var k := FirstIndex(boxes, LoginJs.Usable).value;
    assert Checkable(boxes[k]);
    assert forall j :: 0 <= j < k ==> !Checkable(boxes[j]);
  }

  /** A checked first box and an unchecked second one: the Python loop checks the second, the JavaScript loop none. */
  lemma AgreementDiverges()
    ensures
      var boxes := [LoginJs.Checkbox(true, true, false), LoginJs.Checkbox(true, false, false)];
      FirstIndex(boxes, Checkable) == Some(1) &&
      FirstIndex(boxes, LoginJs.Usable) == Some(0) && boxes[0].checked
  {
    var boxes := [LoginJs.Checkbox(true, true, false), LoginJs.Checkbox(true, false, false)];
    assert !Checkable(boxes[0]) && Checkable(boxes[1]);
    assert LoginJs.Usable(boxes[0]);
  }

  // ---------------------------------------------------------------- polling

  function LeftLoginPage(s: LoginJs.Snapshot): bool { !LoginJs.OnLoginPage(s) }

  /**
   * The verdict over the snapshots read before the 30-second deadline: success at
   * the first one off the login page, otherwise a timeout; error keywords are
   * only printed.
   */
  function PollVerdict(polls: seq<LoginJs.Snapshot>): (r: LoginJs.PollResult)
    ensures !r.ErrorShown?
    ensures r.LeftLogin? ==> r.at < |polls| && !LoginJs.OnLoginPage(polls[r.at])
    ensures r.LeftLogin? ==> forall j :: 0 <= j < r.at ==> LoginJs.OnLoginPage(polls[j])
    ensures r.TimedOut? <==> forall j :: 0 <= j < |polls| ==> LoginJs.OnLoginPage(polls[j])
  {
    match FirstIndex(polls, LeftLoginPage)
    case None => LoginJs.TimedOut
    case Some(i) => LoginJs.LeftLogin(i)
  }

  /** The `while` loop over elapsed time: check the URL, look at the text, wait a second. */
  method PollLogin(polls: seq<LoginJs.Snapshot>) returns (r: LoginJs.PollResult)
    requires |polls| <= 30
    ensures r == PollVerdict(polls)
  {
    var i := 0;
    while i < |polls|
      invariant 0 <= i <= |polls|
      invariant forall j :: 0 <= j < i ==> LoginJs.OnLoginPage(polls[j])
    {
      if !LoginJs.OnLoginPage(polls[i]) {
        return LoginJs.LeftLogin(i);
      }
      i := i + 1;
    }
    return LoginJs.TimedOut;
  }

  /**
   * On the same snapshots a JavaScript success is a Python success at the same
   * snapshot, and a Python success is either that or a JavaScript failure on an
   * earlier error message.
   */
  lemma PollAgainstJs(polls: seq<LoginJs.Snapshot>)
    ensures LoginJs.PollVerdict(polls).LeftLogin? ==> PollVerdict(polls) == LoginJs.PollVerdict(polls)
    ensures PollVerdict(polls).LeftLogin? ==>
      LoginJs.PollVerdict(polls) == PollVerdict(polls) ||
      (LoginJs.PollVerdict(polls).ErrorShown? && LoginJs.PollVerdict(polls).at < PollVerdict(polls).at)
    ensures LoginJs.PollVerdict(polls).TimedOut? ==> PollVerdict(polls).TimedOut?
  {
    var js, py := LoginJs.PollVerdict(polls), PollVerdict(polls);
    if js.LeftLogin? {
      assert !LoginJs.OnLoginPage(polls[js.at]);
    }
    if py.LeftLogin? && js.ErrorShown? {
      assert LoginJs.OnLoginPage(polls[js.at]);
    }
  }

  // ---------------------------------------------------------------- login

  const ButtonCandidates := 11

  /**
   * `login(page, ...)` after navigation: the same keep-last chains as the
   * JavaScript half, the Python agreement loop, the held button waited for and
   * clicked, then the polling loop.
   */
  method Login(page: LoginJs.LoginPage) returns (acts: LoginJs.FormActions, outcome: LoginJs.LoginOutcome)
    requires |page.polls| <= 30
    ensures acts.account == Held(page.account)
    ensures outcome == LoginJs.NoAccountInput <==> |page.account| == 0
    ensures |page.account| > 0 ==> acts.password == Held(page.password)
    ensures outcome == LoginJs.NoPasswordInput <==> |page.account| > 0 && |page.password| == 0
    ensures |page.account| > 0 && |page.password| > 0 ==>
      acts.brand == Held(page.brand) &&
      acts.agreement == FirstIndex(page.agreement, Checkable) && acts.checked == acts.agreement.Some? &&
      acts.button == Held(page.button)
    ensures outcome == LoginJs.ButtonNotVisible <==>
      |page.account| > 0 && |page.password| > 0 && |page.button| > 0 && FirstIndex(page.button, Id).None?
    ensures |page.account| > 0 && |page.password| > 0 && (|page.button| == 0 || FirstIndex(page.button, Id).Some?) ==>
      outcome == LoginJs.FromPoll(PollVerdict(page.polls))
    ensures !outcome.ErrorReported?
  {
    acts := LoginJs.FormActions(None, None, None, None, false, None);
    var account := KeepLastScan(page.account);
    acts := acts.(account := account);
    if account.None? {
      return acts, LoginJs.NoAccountInput;
    }
    var password := KeepLastScan(page.password);
    acts := acts.(password := password);
    if password.None? {
      return acts, LoginJs.NoPasswordInput;
    }
    var brand := KeepLastScan(page.brand);
    var box := Agreement(page.agreement);
    var button := KeepLastScan(page.button);
    acts := acts.(brand := brand, agreement := box, checked := box.Some?, button := button);
    if button.Some? && !page.button[button.value] {
      return acts, LoginJs.ButtonNotVisible;
    }
    var r := PollLogin(page.polls);
    outcome := LoginJs.FromPoll(r);
  }

  // ---------------------------------------------------------------- tenant

  /**
   * `verify_tenant_name`: `found` from the page-wide locator, a header-scoped
   * locator or `name in text`, then `assert found` and `assert name in text2`
   * on a second read of the body text.
   */
  method VerifyTenantName(page: LoginJs.TenantPage, text2: string, name: string) returns (ok: bool)
    ensures ok <==>
      (page.pageWideVisible || FirstIndex(page.headers, LoginJs.HeaderShowsName).Some? || Contains(page.text, name))
      && Contains(text2, name)
  {
    var found := page.pageWideVisible;
    if !found {
      var i := 0;
      while i < |page.headers|
        invariant 0 <= i <= |page.headers|
        invariant forall j :: 0 <= j < i ==> !LoginJs.HeaderShowsName(page.headers[j])
      {
        if page.headers[i].visible && page.headers[i].nameVisible {
          found := true;
          break;
        }
        i := i + 1;
      }
    }
    if !found {
      found := Contains(page.text, name);
    }
    ok := found && Contains(text2, name);
  }

  /** For a non-empty name a Python pass is a JavaScript pass on the same first observations. */
  lemma TenantPassImpliesJs(page: LoginJs.TenantPage, text2: string, name: string)
    requires name != ""
    requires Contains(page.text, name) || page.pageWideVisible || FirstIndex(page.headers, LoginJs.HeaderShowsName).Some?
    ensures page.pageWideVisible || FirstIndex(page.headers, LoginJs.HeaderShowsName).Some? || LoginJs.TextHasName(page.text, name)
  {
    if Contains(page.text, name) {
      ContainsLength(page.text, name);
    }
  }
}
