# BOH UI test suite: a verified model of its decision logic

The repository is a Playwright end-to-end test suite for a back-office (BOH)
supply-chain web application. It is written twice, once in JavaScript and once
in Python. Both halves log in, check the tenant name, switch the UI language,
open the daily-demand ordering page, set a date range, query, find an order in
the list, open its detail page and check the detail fields, the store code and
the product rows. A separate Node script, `fix-allure-report.js`, inlines the
JSON files of a generated Allure report into its `index.html`. It also injects
interceptors so the report can be opened from `file://`.

This project models the decisions that code takes, in Dafny, and proves
properties of them:

- the environment tables and URL builders of both halves;
- the candidate-selector chains, retry loops and polling loops of the login and
  order modules, as loops over what the page shows;
- the verdicts the checks reach;
- the report fixer's loading, URL resolution, request interception and HTML
  rewriting.

The browser is reduced to observations. Each selector candidate has a
visibility flag. Each loop iteration sees a snapshot of the body text. A table
is a list of row texts. The modules are:

| module | file | models |
|---|---|---|
| `Strings` | strings.dfy | substring search, `indexOf`, `split().pop()`, `trim`/`strip`, `rstrip('/')`, number formatting |
| `Search` | search.dfy | first-match scans, the keep-last candidate loop, the bounded retry loop |
| `Poller` | poller.dfy | the counter-driven wait loop with a scroll every 5th retry |
| `UrlConfigJs`, `UrlConfigPy` | url_config_js.dfy, url_config_py.dfy | `tests/config/url.config.js`, `tests/config/url_config.py` |
| `LoginConfig` | login_config.dfy | `tests/config/login.config.js`, `tests/config/login_config.py` |
| `LoginJs`, `LoginPy` | login_js.dfy, login_py.dfy | `tests/modules/login.module.js`, `tests/modules/login_module.py` |
| `OrderCommon`, `OrderJs`, `OrderPy` | order_common.dfy, order_js.dfy, order_py.dfy | `tests/modules/order.module.js`, `tests/modules/order_module.py` |
| `AllureFix` | allure_fix.dfy | `fix-allure-report.js` |

Environment variables (`ENV`, `BOH_BASE_URL`) are parameters of type
`Option<string>`, with `None` meaning unset. Where the two halves differ, a
lemma states the difference, usually with a concrete input.

## Model

| member | source | states |
|---|---|---|
| Strings.IndexOf | fix-allure-report.js:114 | `indexOf` returns -1 exactly when the substring is absent; otherwise it returns an occurrence with no earlier one |
| Strings.AfterLast | fix-allure-report.js:119 | `split(sep).pop()` contains no separator; it is the whole string when the separator is absent, else what follows the last separator |
| Strings.Trim | tests/modules/order.module.js:873-874 | `trim`/`strip` returns the text between a leading and a trailing run of whitespace; it neither starts nor ends with whitespace |
| Strings.TrimSplit | tests/modules/order.module.js:873-874 | the trimmed text sits in the string after its leading whitespace run and before its trailing one |
| Strings.TrimFixed | tests/modules/order_module.py:803-804 | a string that neither starts nor ends with whitespace is unchanged by trimming |
| Strings.RStripAll | tests/config/url_config.py:107 | `rstrip('/')` returns a prefix that does not end in `/`, and everything it removed is `/` |
| Strings.RStripUnique | tests/config/url_config.py:107 | any prefix that does not end in `/` and is followed only by `/` is the result of `rstrip('/')` |
| Strings.IntToStringDenotes | tests/modules/order.module.js:53 | `String(n)` / `str(n)` starts with `-` exactly when n is negative, and the digits after it, without a leading zero, read back as the magnitude of n |
| Strings.NatToStringValue | tests/modules/order.module.js:53 | the decimal digits of a natural number read back as that number |
| Strings.PaddedValue | tests/modules/order.module.js:53 | `padStart(2, '0')` of a month or day below 100 is two digits that read back as it |
| Strings.PadStart2 | tests/modules/order.module.js:53 | `padStart(2, '0')` keeps strings of length 2 or more, and left-pads shorter ones with `0` to length 2 |
| Strings.ZFill2 | tests/modules/order_module.py:64 | `zfill(2)` keeps strings of length 2 or more; a single character gets a `0` in front, or after it when it is a sign; the empty string becomes `00` |
| Strings.PadAgreesWithZFill | tests/modules/order_module.py:64 | for every integer, `padStart(2,'0')` and `zfill(2)` of its decimal form agree, including negative numbers |
| Search.FirstIndex | tests/modules/login.module.js:119-132 | the first index satisfying the predicate: nothing before it does, and `None` exactly when no element does |
| Search.Held | tests/modules/login.module.js:40-56 | a keep-last loop holds the first visible candidate, else the last candidate; it holds nothing only for an empty candidate list |
| Search.KeepLastScan | tests/modules/login.module.js:40-50 | the account, password, brand and button loops end holding `Held` of the visibility flags |
| Search.ScanFirst | tests/modules/order.module.js:347-356 | a loop with a found flag ends at the first visible candidate, or with none |
| Search.Retry | tests/modules/order.module.js:220-250 | at most `maxRetries` attempts; it stops after the first success, and reports no success exactly when all of them failed |
| Search.FirstIndexPrefix | tests/modules/order.module.js:222 | a search cut to a prefix gives the same hit when the hit lies inside the prefix |
| Poller.ScrollPoints | tests/modules/order.module.js:767-775 | every scroll happens at a retry count between 1 and the final count that is a multiple of the cadence |
| Poller.ScrollPointsAreMultiples | tests/modules/order.module.js:767-775 | for n retries and cadence c, the scrolls happen at exactly c, 2c, …, (n/c)c |
| Poller.NoCadenceNoScroll | tests/modules/order.module.js:695-728 | a wait loop without a cadence never scrolls |
| Poller.Poll | tests/modules/order.module.js:749-776 | the counter stops at the first snapshot that satisfies the stopping rule, or at the budget when none does; the scrolls are those `ScrollPoints` gives for the final count |
| UrlConfigJs.TablePathsAbsolute | tests/config/url.config.js:7-92 | every path in the URL table starts with `/` |
| UrlConfigJs.CleanBase | tests/config/url.config.js:102 | `replace(/\/$/, '')` drops exactly one trailing `/`, if there is one |
| UrlConfigJs.CleanPath | tests/config/url.config.js:104 | the path is given a leading `/` exactly when it lacks one |
| UrlConfigJs.FullUrl | tests/config/url.config.js:100-106 | `getFullUrl` is the cleaned base, then `/`, and it ends with the path |
| UrlConfigJs.TablePathAppendedUnchanged | tests/config/url.config.js:100-106 | a table path is appended to the cleaned base unchanged |
| UrlConfigJs.TrailingSlashIgnored | tests/config/url.config.js:102 | one trailing slash on the base does not change the URL |
| UrlConfigJs.SecondSlashKept | tests/config/url.config.js:102 | with two trailing slashes on the base, one of them stays in the URL |
| UrlConfigJs.CleanPathIdempotent | tests/config/url.config.js:104 | cleaning a cleaned path changes nothing |
| UrlConfigJs.BohTableGet | tests/config/url.config.js:119-123 | `bohBaseUrls[key]` gives the two hosts for their keys, an inherited `Object.prototype` member for its names, and `undefined` otherwise |
| UrlConfigJs.ResolveEnv | tests/config/url.config.js:115-117 | a truthy `env` argument wins; else a truthy `ENV`; else `'test'` |
| UrlConfigJs.BohBaseUrlAsWritten | tests/config/url.config.js:113-124 | `getBohBaseUrl` gives the production host exactly for `'production'`, and an inherited member exactly for an `Object.prototype` name |
| UrlConfigJs.InheritedNameLeaks | tests/config/url.config.js:123 | `getBohBaseUrl('toString')` returns the inherited function, not a host |
| UrlConfigJs.BohBaseUrl | tests/config/url.config.js:113-124 | the intended lookup: the production host exactly for `'production'`, else the test host |
| UrlConfigJs.AsWrittenAgreesOffPrototype | tests/config/url.config.js:123 | away from `Object.prototype` names the code as written returns the intended host |
| UrlConfigJs.UnknownEnvGivesTest | tests/config/url.config.js:123 | every name other than `'production'` gives the test host |
| UrlConfigJs.CurrentBohUrl | tests/config/url.config.js:127-132 | `getCurrentBohUrl` joins the login configuration's host to the path; that host is the one `getBohBaseUrl()` picks for the same `ENV` |
| UrlConfigJs.CurrentBohUrlOfTablePage | tests/config/url.config.js:130-132 | a table page's URL is the host followed by its path |
| UrlConfigPy.TablePathsAbsolute | tests/config/url_config.py:9-92 | every path in the URL table starts with `/` |
| UrlConfigPy.TablesAgree | tests/config/url_config.py:9-92 | the Python table is the JavaScript table |
| UrlConfigPy.CleanBase | tests/config/url_config.py:107 | `rstrip('/')` leaves a prefix that does not end in `/`, and removes only slashes |
| UrlConfigPy.CleanPath | tests/config/url_config.py:109 | the path is given a leading `/` exactly when it lacks one |
| UrlConfigPy.FullUrl | tests/config/url_config.py:95-110 | `get_full_url` is the cleaned base, then `/`, and it ends with the path |
| UrlConfigPy.Slashes | tests/config/url_config.py:107 | a string of n slashes |
| UrlConfigPy.TrailingSlashesIgnored | tests/config/url_config.py:107 | any number of trailing slashes on the base does not change the URL |
| UrlConfigPy.SlashesStripped | tests/config/url_config.py:107 | `rstrip('/')` of a base plus slashes is `rstrip('/')` of the base |
| UrlConfigPy.FullUrlAgreesWithJsIff | tests/config/url_config.py:107 | the two `getFullUrl`s agree exactly when the base does not end in `//` |
| UrlConfigPy.ResolveEnv | tests/config/url_config.py:123-124 | only `None` is replaced by `ENV`, and an unset `ENV` by `'test'`; the empty string is kept |
| UrlConfigPy.BohBaseUrl | tests/config/url_config.py:113-130 | `get_boh_base_url` gives the production host exactly for `'production'`, else the test host |
| UrlConfigPy.EmptyEnvDiverges | tests/config/url_config.py:123 | for `env=''` with `ENV=production`, JavaScript gives the production host and Python the test host |
| UrlConfigPy.BohBaseUrlAgreesWithJs | tests/config/url_config.py:113-130 | for every `env` other than `''`, the two halves pick the same host |
| UrlConfigPy.CurrentBohUrl | tests/config/url_config.py:133-144 | `get_current_boh_url` joins the login configuration's host to the path; that host is the one `get_boh_base_url()` picks |
| UrlConfigPy.CurrentBohUrlAgreesWithJs | tests/config/url_config.py:133-144 | both halves build the same current URL for every `ENV` and path |
| LoginConfig.CurrentConfigJs | tests/config/login.config.js:33-34 | the production entry exactly when `ENV` is `production`, else the test entry |
| LoginConfig.CurrentConfigPy | tests/config/login_config.py:35-36 | the production entry exactly when `ENV` is `production`, else the test entry |
| LoginConfig.CurrentConfigsAgree | tests/config/login_config.py:35-36 | both halves select the same entry for every `ENV`, including the empty one |
| LoginConfig.CredentialsIndependentOfEnv | tests/config/login.config.js:12-28 | both entries carry the same default credentials |
| LoginJs.Credentials | tests/modules/login.module.js:14 | a supplied credential is used; all three missing give the configured defaults |
| LoginJs.NavigationUrl | tests/modules/login.module.js:16 | the test login page is opened whatever login URL is configured |
| LoginJs.ProductionLoginUrlIgnored | tests/modules/login.module.js:16 | the production login page is never opened |
| LoginJs.Agreement | tests/modules/login.module.js:118-132 | the first visible checkbox whose calls do not throw is handled, and it is checked only if it was unchecked; a throwing candidate is passed over |
| LoginJs.PollVerdict | tests/modules/login.module.js:175-209 | the first snapshot that is off the login page or shows an error decides: success when it is off the page, `登录失败` when it is still on it; a timeout exactly when every snapshot stays on the login page without an error |
| LoginJs.PollLogin | tests/modules/login.module.js:179-201 | the polling loop reaches `PollVerdict` |
| LoginJs.Login | tests/modules/login.module.js:14-209 | which candidates are filled, checked and clicked; the missing-input failures exactly when a candidate list is empty; a button wait failure exactly when no button is visible; otherwise the poll verdict |
| LoginJs.NotFoundUnreachable | tests/modules/login.module.js:30-56 | with the source's candidate lists, the "input not found" errors and the Enter fallback cannot happen |
| LoginJs.VerifyTenantName | tests/modules/login.module.js:242-285 | passes exactly when the page-wide locator, a header locator or the non-empty body text finds the name |
| LoginJs.HasKeyword | tests/modules/login.module.js:324-339 | the keyword flag is set exactly when some keyword occurs in the non-empty text |
| LoginJs.ElementSwitch | tests/modules/login.module.js:404-428 | a selector switches at its first dropdown or first option-revealing click, after only hidden or non-revealing elements; it finds none only when every such element comes after a throwing one |
| LoginJs.ScanElements | tests/modules/login.module.js:404-428 | the inner element loop reaches `ElementSwitch` |
| LoginJs.SwitchToSimplifiedChinese | tests/modules/login.module.js:294-468 | a switch is attempted exactly when English keywords show and Chinese ones do not; the top-right controls are tried before the general selectors, and the first one that works is used |
| LoginPy.Credentials | tests/modules/login_module.py:27-33 | a `None` credential takes the selected configuration's entry |
| LoginPy.CredentialsAgreeWithJs | tests/modules/login_module.py:27-33 | whatever `ENV` says, the defaults are those of the JavaScript half |
| LoginPy.NavigationUrl | tests/modules/login_module.py:12-36 | the argument if given, else the login page of the selected configuration |
| LoginPy.NavigationDiffersInProduction | tests/modules/login_module.py:36 | with `ENV=production` the halves open different login pages |
| LoginPy.Agreement | tests/modules/login_module.py:120-138 | the first candidate that is visible and unchecked, and whose calls do not throw, is checked |
| LoginPy.AgreementRefinesJs | tests/modules/login_module.py:128-134 | when the JavaScript loop checks a box, the Python loop checks the same one |
| LoginPy.AgreementDiverges | tests/modules/login_module.py:131 | for a checked box followed by an unchecked one, Python checks the second and JavaScript neither |
| LoginPy.PollVerdict | tests/modules/login_module.py:235-267 | success at the first snapshot off the login page, else a timeout; error keywords are only printed |
| LoginPy.PollLogin | tests/modules/login_module.py:235-260 | the polling loop reaches `PollVerdict` |
| LoginPy.PollAgainstJs | tests/modules/login_module.py:235-260 | a JavaScript success is a Python success at the same snapshot; a Python success is that, or a JavaScript error failure at an earlier snapshot; a JavaScript timeout is a Python timeout |
| LoginPy.Login | tests/modules/login_module.py:10-267 | the same form steps with the Python agreement rule; it never reports an error message |
| LoginPy.VerifyTenantName | tests/modules/login_module.py:279-338 | passes exactly when `found` holds and a second read of the text contains the name |
| LoginPy.TenantPassImpliesJs | tests/modules/login_module.py:327-331 | for a non-empty name, the first Python check passing implies the JavaScript check passes on the same observations |
| OrderCommon.SentinelNotInEmpty | tests/modules/order.module.js:782 | no placeholder occurs in the empty text |
| OrderCommon.ReloadGuardIrrelevant | tests/modules/order_module.py:730 | the JavaScript truthiness guard of the reload rule changes nothing |
| OrderCommon.LoadedNeedsNoReload | tests/modules/order.module.js:782 | a text with all five fields loaded never triggers the reload |
| OrderCommon.LoadedAgreesOnText | tests/modules/order_module.py:710-714 | on a non-empty text both halves agree on all five loaded flags |
| OrderCommon.NumberFlags | tests/modules/order.module.js:700-714 | each snapshot is judged by the first wait's rule: the number without its placeholder, or a visible number element |
| OrderCommon.LoadedFlags | tests/modules/order.module.js:754-761 | each snapshot is judged by the five-field rule |
| OrderCommon.FinalText | tests/modules/order.module.js:778-821 | the checks read the text after the reload when the reload rule fired, else the text after the data wait |
| OrderCommon.DetailWaits | tests/modules/order.module.js:691-825 | the counters and scrolls of the three waits: the number wait stops at the first snapshot showing the number, else after 10 retries with one scroll; the data wait stops at the first fully loaded snapshot, else after 15, scrolling at every 5th; a reload exactly when a placeholder remains, after which the extra wait stops at its first fully loaded snapshot, else after 15 |
| OrderCommon.DataWaitScrollsThrice | tests/modules/order.module.js:767-775 | an exhausted data wait scrolls at retries 5, 10 and 15 |
| OrderCommon.FieldStep | tests/modules/order.module.js:848-851 | one field passes exactly when its placeholder is absent and its value present, and it fails on the placeholder first |
| OrderCommon.DetailChecks | tests/modules/order.module.js:827-866 | passes exactly when the text is non-empty, the order number check passes (on a detail URL only the placeholder fails it), and the other four fields pass; it fails with `EmptyText` exactly for the empty text |
| OrderCommon.PlaceholderChecksUnreachable | tests/modules/order.module.js:822-850 | after the reload rule, the order-number and status placeholder failures cannot happen |
| OrderCommon.PassOffDetailUrlIsLoaded | tests/modules/order.module.js:830-866 | off a detail URL, a passing check without the placeholder means all five fields were loaded |
| OrderCommon.RunEnd | tests/modules/order.module.js:870 | the end of a maximal run of characters of one class |
| OrderCommon.SpaceNoDigit | tests/modules/order.module.js:870 | a digit is not `\s` in either engine |
| OrderCommon.CodeAtSound | tests/modules/order.module.js:870 | a capture at a position is a match of `订货门店编号[：:]\s*(\d+)` there |
| OrderCommon.CodeAtComplete | tests/modules/order.module.js:870 | every match of the pattern at a position gives that capture |
| OrderCommon.CodeRunUnique | tests/modules/order.module.js:870 | the whitespace run and the digit run after the label are determined by the text |
| OrderCommon.FirstCodeFrom | tests/modules/order.module.js:870 | the leftmost position at or after k where the pattern matches |
| OrderCommon.ExtractStoreCode | tests/modules/order_module.py:799 | the capture of the leftmost match is a non-empty digit string; `None` exactly when the pattern matches nowhere |
| OrderCommon.SuiteStoreLineCode | tests/modules/order.module.js:870 | both patterns capture `100000010` from the suite's store line |
| OrderCommon.TolerantIsContainment | tests/modules/order.module.js:879-890 | the five-way rule is exactly containment in one direction or the other |
| OrderCommon.TolerantRejectsSuiteCodes | tests/modules/order.module.js:868-894 | the rule rejects `10010` against `100000010`, the pair the comment at line 868 says it accepts |
| OrderCommon.SuiteCodesUnrelated | tests/modules/order.module.js:868 | neither suite's store code occurs in the other |
| OrderCommon.StrictImpliesTolerant | tests/modules/order_module.py:807 | exact equality implies the tolerant rule, and the converse fails |
| OrderCommon.NavigationFails | tests/modules/order.module.js:141-181 | navigation fails only when `goto` fails and the URL is not the order page |
| OrderCommon.OrderPathIsOrderPage | tests/modules/order.module.js:139-175 | the order page path holds `demand-daily`, what the catch block looks for |
| OrderCommon.LandingOnOrderPageSucceeds | tests/modules/order.module.js:141-181 | whatever `goto` did, ending up on a URL under the order page path is not a failure |
| OrderCommon.FirstRow | tests/modules/order.module.js:508-518 | the first row of a table whose text holds the order number |
| OrderCommon.TableSearch | tests/modules/order.module.js:502-524 | the row found holds the number; without a located row it is found exactly when some visible table has one, and it comes from such a table |
| OrderCommon.LocatedSearchesFirstVisibleTable | tests/modules/order.module.js:521 | with `orderRow` already set, only the first visible table is searched |
| OrderCommon.ScanRows | tests/modules/order.module.js:508-518 | the row loop reaches `FirstRow` |
| OrderCommon.SearchStep | tests/modules/order.module.js:502-524 | one step of the table loop: a hidden table is skipped, a hit ends it, and a miss ends it once `orderRow` is set |
| OrderCommon.SearchTables | tests/modules/order.module.js:502-524 | the table loop reaches `TableSearch` |
| OrderCommon.LocateOrderRow | tests/modules/order.module.js:463-549 | the three lookups end with `ListRowText` |
| OrderCommon.ListVerdict | tests/modules/order.module.js:551-568 | passes exactly when the row text is non-empty and holds the number, status, store, source and date; it fails with `未找到订单号` exactly when the text is empty or lacks the number, and otherwise with `Missing(f)` exactly when `f` is the first of status, store, source and date the text lacks |
| OrderCommon.ExactRowWins | tests/modules/order.module.js:476-491 | a visible exact-text row with text settles the lookup |
| OrderCommon.TableRowFound | tests/modules/order.module.js:491-524 | without an exact-text element, a matching row in a visible table is found |
| OrderCommon.IntendedFindsTableRow | tests/modules/order.module.js:521 | in the corrected lookups, a matching visible table row is found whenever the exact-text step gives no text |
| OrderCommon.HiddenAncestorSkipsLaterTables | tests/modules/order.module.js:521 | as written, a hidden exact-text row stops the table loop after the first visible table, and the order is reported missing |
| OrderCommon.ClickOrderToOpenDetail | tests/modules/order.module.js:579-653 | exact text, else partial text, else a link; a link is used exactly when it is the first visible one and its click succeeds, so a failed click on it ends the search |
| OrderCommon.SubmitQuery | tests/modules/order.module.js:344-416 | the button of the first scan, else of the second scan after scrolling; it is clicked, with Enter as the fallback; Enter without a button exactly when neither scan finds one |
| OrderCommon.PickDay | tests/modules/order.module.js:11-126 | a day is selected exactly when a picker appears and some candidate is clicked without throwing: a visible day selector, a matching enabled cell or a visible enabled ancestor of the day text; a candidate whose click throws is skipped, as each of the three loops catches it |
| OrderCommon.FirstPick | tests/modules/order.module.js:222 | among the first three attempts a success is found exactly when one exists, and the one found succeeded |
| OrderCommon.SetDateInput | tests/modules/order.module.js:218-268 | no input means nothing is done; otherwise up to 3 picker attempts stopping at the first success, then the fill fallback exactly when all of them fail |
| OrderCommon.Filter | tests/modules/order.module.js:956-961 | the kept rows are exactly the candidate rows the filter accepts |
| OrderCommon.FilterConcat | tests/modules/order.module.js:956-961 | filtering keeps the rows in their order: the rows kept from two lists one after the other are those kept from the first, then from the second |
| OrderCommon.FilterSnoc | tests/modules/order.module.js:956-961 | one more candidate row is appended exactly when the filter keeps it |
| OrderCommon.FilterCounts | tests/modules/order.module.js:956-961 | a kept row appears as often as among the candidates, and a rejected row not at all |
| OrderCommon.SelectedRows | tests/modules/order.module.js:951-971 | the first selector with kept rows wins; empty exactly when no selector keeps any |
| OrderCommon.SelectedAt | tests/modules/order.module.js:963-966 | the first selector with kept rows is the one selected |
| OrderCommon.ProductRows | tests/modules/order.module.js:951-989 | the filtered rows of the first selector that keeps any; when none does, the fallback's rows of the whole page if the text before the table mentions the code, else none; every row collected holds the code and not the `商品编号` label |
| OrderCommon.FilterRows | tests/modules/order.module.js:957-961 | the push loop reaches `Filter` |
| OrderCommon.ScanSelectors | tests/modules/order.module.js:951-971 | the selector loop reaches `SelectedRows` |
| OrderCommon.CollectProductRows | tests/modules/order.module.js:951-989 | the selector loop, then the fallback, reaches `ProductRows` |
| OrderCommon.ProductVerdict | tests/modules/order.module.js:991-1018 | passes exactly when the text is non-empty and holds the code and the name; the row-count failure only when the code is absent and too few rows were found |
| OrderCommon.ProductPassIgnoresRows | tests/modules/order.module.js:995-1013 | whether the product check passes depends neither on the rows found nor on `expectedCount` |
| OrderCommon.VerifyProductRows | tests/modules/order.module.js:930-1018 | collects `ProductRows`, then judges the re-read text with `ProductVerdict` |
| OrderJs.DateString | tests/modules/order.module.js:53 | the year, `-`, then two digits, `-`, then two digits for a month and day below 100 |
| OrderJs.DateStringFields | tests/modules/order.module.js:53 | the date string is the year's `String`, then two digits that read back as the month, then two that read back as the day |
| OrderJs.NavigationToOrderPageSucceeds | tests/modules/order.module.js:141-181 | landing on the URL `navigateToOrderPage` opens never fails, whatever `goto` reported |
| OrderJs.DateStringOfSuiteOrder | tests/modules/order.module.js:53 | 2025, 12, 8 gives `2025-12-08` |
| OrderJs.CellMatches | tests/modules/order.module.js:86-88 | a cell matches exactly through its `aria-label` or `data-date`; the text branch can never hold |
| OrderJs.SelectDateFromPicker | tests/modules/order.module.js:11-126 | one attempt selects a day exactly when `PickerSelects` holds: the picker is open and a day selector, a cell matching by `aria-label` or `data-date`, or a day-text ancestor is clicked without throwing |
| OrderJs.ThrowingClickSkipped | tests/modules/order.module.js:63-75 | a day selector whose click throws selects nothing, and the next one that clicks selects the day |
| OrderJs.PickerOutcomes | tests/modules/order.module.js:222-250 | each attempt's outcome is `PickerSelects` of its view, so an attempt whose every click throws counts as failed |
| OrderJs.SetDate | tests/modules/order.module.js:218-268 | set by the picker exactly when one of the first three views selects the day, at the first attempt that does; the fill fallback uses the padded date; `NotSet` exactly when every attempt and the fill fail |
| OrderJs.SelectDateRangeAndQuery | tests/modules/order.module.js:195-445 | each date left untouched exactly when its input is missing, set by the picker exactly when one of the first three views selects the day (a throwing click does not select), at the first attempt that does, else filled with the padded date, `NotSet` exactly when every attempt and the fill fail; the query is the first visible button of the first scan, else of the second, clicked or replaced by Enter, and Enter without a button exactly when neither scan finds one |
| OrderJs.OrderPageUrl | tests/modules/order.module.js:138-139 | `BOH_BASE_URL` when it is truthy, else the test host, followed by the page path; `ENV` plays no part |
| OrderJs.StoreCodeCheck | tests/modules/order.module.js:870-916 | fails with `NoStoreCode` exactly when the pattern does not match; passes exactly when the trimmed capture and the trimmed code contain one another; otherwise it fails naming both |
| OrderJs.DetailVerdict | tests/modules/order.module.js:820-916 | the reload failure exactly when both reads show a placeholder; it passes exactly when the field checks and the store-code check pass on the final text |
| OrderJs.VerifyOrderDetail | tests/modules/order.module.js:661-917 | the waits, then the verdict `DetailVerdict` on the text they leave |
| OrderJs.SuiteStoreCodeRejected | tests/modules/order.module.js:868-894 | on the suite's store line, the code `10010` expected by the JavaScript suite fails as a mismatch |
| OrderJs.SuiteCodeTrimmed | tests/modules/order.module.js:874 | `'10010'.trim()` is `10010` |
| OrderJs.MismatchOnCapture | tests/modules/order.module.js:893-894 | a capture unrelated by containment to the trimmed code fails with both named |
| OrderPy.DateString | tests/modules/order_module.py:64 | the `zfill` date string equals the JavaScript `padStart` one for every date |
| OrderPy.CellMatches | tests/modules/order_module.py:94-97 | accepts every cell the JavaScript rule accepts; extra cells accepted are the stripped-day-text cells with neither a disabled nor an other-month child |
| OrderPy.TextOnlyCellDiverges | tests/modules/order_module.py:94-97 | a bare day cell is clicked by Python and never by JavaScript |
| OrderPy.SelectDateFromPicker | tests/modules/order_module.py:13-130 | one attempt selects a day exactly when `PickerSelects` holds: the picker is open and a day selector, a cell matching by the Python rule, or a day-text ancestor is clicked without throwing |
| OrderPy.PickerRefinesJs | tests/modules/order_module.py:94-97 | wherever the JavaScript picker clicks a day, the Python picker does too |
| OrderPy.ThrowingClickSkipped | tests/modules/order_module.py:74-83 | a day selector whose click throws selects nothing, and the next one that clicks selects the day |
| OrderPy.PickerOutcomes | tests/modules/order_module.py:228-256 | each attempt's outcome is `PickerSelects` of its view, so an attempt whose every click throws counts as failed |
| OrderPy.SetDate | tests/modules/order_module.py:225-266 | set by the picker exactly when one of the first three views selects the day, at the first attempt that does; the fill uses the zero-filled date; `NotSet` exactly when every attempt and the fill fail |
| OrderPy.SelectDateRangeAndQuery | tests/modules/order_module.py:186-414 | each date left untouched exactly when its input is missing, set by the picker exactly when one of the first three views selects the day (a throwing click does not select), at the first attempt that does, else filled with the zero-filled date, `NotSet` exactly when every attempt and the fill fail; the query is the first visible button of the first scan, else of the second, clicked or replaced by Enter, and Enter without a button exactly when neither scan finds one |
| OrderPy.OrderPageUrl | tests/modules/order_module.py:146-147 | `BOH_BASE_URL` when set, even empty, else the selected configuration's host, followed by the page path |
| OrderPy.OrderPageUrlAgainstJs | tests/modules/order_module.py:146 | the halves open the same page exactly when `BOH_BASE_URL` is set non-empty, or unset while `ENV` is not `production` |
| OrderPy.NavigationToOrderPageSucceeds | tests/modules/order_module.py:148-183 | landing on the URL `navigate_to_order_page` opens never fails, whatever `goto` reported |
| OrderPy.StoreCodeCheck | tests/modules/order_module.py:799-810 | fails with `NoStoreCode` exactly when the pattern does not match; passes exactly when the capture equals the stripped code |
| OrderPy.SuiteStoreCodes | tests/modules/order_module.py:799-807 | on the suite's store line, the Python check passes for its suite's code, and the JavaScript check fails for its own |
| OrderPy.SuiteCodeStripped | tests/modules/order_module.py:804 | `'100000010'.strip()` is `100000010` |
| OrderPy.DetailVerdict | tests/modules/order_module.py:758-807 | the reload failure exactly when both reads show a placeholder; it passes exactly when the field checks and the strict store-code check pass |
| OrderPy.VerifyOrderDetail | tests/modules/order_module.py:624-810 | the waits, then the verdict `DetailVerdict` on the text they leave |
| OrderPy.DetailVerdictsAgreeBeforeStoreCode | tests/modules/order_module.py:758-795 | the halves reach the store-code step on the same inputs, and before it they fail for the same reason |
| AllureFix.Loaded | fix-allure-report.js:59-69 | a key is in the inlined data exactly when some entry with that key reads and parses |
| AllureFix.LoadedValues | fix-allure-report.js:59-69 | each key holds the document of the last entry with that key that parses |
| AllureFix.LoadedStep | fix-allure-report.js:59-69 | one more entry keeps the last-parsed witness of every key it does not override |
| AllureFix.LoadedSnoc | fix-allure-report.js:59-69 | one more entry is added when it parses, replacing an earlier value for its key, and counts once |
| AllureFix.ParsedCount | fix-allure-report.js:64 | the count is at most the number of entries; it is zero exactly when none parses |
| AllureFix.JsonNames | fix-allure-report.js:74 | the listing keeps exactly the `.json` names |
| AllureFix.LoadEntries | fix-allure-report.js:59-69 | the loop builds `Loaded` and counts `ParsedCount` |
| AllureFix.LoadInlineData | fix-allure-report.js:56-86 | the fixed files, then the test-case files when the directory exists; `loadedCount` counts every success |
| AllureFix.FileRelative | fix-allure-report.js:110-121 | a `file://` URL is cut after its first `/allure-report/`, else to what follows its last `/`; other URLs are kept |
| AllureFix.AfterLastSuffix | fix-allure-report.js:119 | the last segment is a suffix of the URL |
| AllureFix.StripLeading | fix-allure-report.js:125-130 | a leading `./` is dropped, then a leading `/` of what is left; a key with neither is kept |
| AllureFix.Normalize | fix-allure-report.js:107-130 | the normalised key is a suffix of the URL |
| AllureFix.Candidates | fix-allure-report.js:135-185 | the lookups include the key itself, and the bare file name comes last |
| AllureFix.Probes | fix-allure-report.js:135-185 | the probe list ends with the bare name and contains the key |
| AllureFix.Hit | fix-allure-report.js:138-147 | only truthy members are served |
| AllureFix.FirstHit | fix-allure-report.js:135-188 | the answer along a probe list, which is only ever truthy data |
| AllureFix.FirstHitAppend | fix-allure-report.js:135-188 | a hit early in the probe list hides the rest |
| AllureFix.FirstHitPair | fix-allure-report.js:154-161 | a two-probe list hits at its first probe, else at its second |
| AllureFix.GetInlineData | fix-allure-report.js:103-189 | `null` for a missing or empty URL; otherwise the first hit, among the loaded files and test cases, along the candidate lookups of the normalised key (the `testCases` member and inherited names are under Left out) |
| AllureFix.Lookup | fix-allure-report.js:135-188 | the chain of early returns serves only truthy data |
| AllureFix.Chain | fix-allure-report.js:135-188 | the chain with its branch conditions serves only truthy data |
| AllureFix.LookupIsFirstHit | fix-allure-report.js:135-188 | the chain of early returns is the first hit along the candidate lookups |
| AllureFix.ChainIsFirstHit | fix-allure-report.js:135-188 | for every combination of branch conditions the chain is the first hit of its probes |
| AllureFix.DirHit | fix-allure-report.js:151-178 | a directory branch serves its prefixed key, else its bare suffix, else defers to the lookups after it |
| AllureFix.RelativeFormsAgree | fix-allure-report.js:125-130 | the relative, `./`-prefixed and `/`-prefixed forms of a key resolve alike |
| AllureFix.InterceptsIff | fix-allure-report.js:201-202 | the `file://` disjunct is redundant: a URL is intercepted exactly when it ends in `.json` and is not `http(s)://` |
| AllureFix.Intercept | fix-allure-report.js:199-239 | data is handed back only for intercepted URLs, and then it is the resolver's answer |
| AllureFix.InterceptedProbesAreJson | fix-allure-report.js:135-185 | for an intercepted URL every test-case name and data key the resolver probes ends in `.json`, so it is never `testCases` nor a name inherited from `Object.prototype` |
| AllureFix.Expand | fix-allure-report.js:428 | a replacement in which no `$` is followed by `$`, `&`, `` ` `` or `'` is inserted as it stands |
| AllureFix.ReplaceFirst | fix-allure-report.js:428 | `replace` with a string pattern leaves a text that lacks the pattern unchanged |
| AllureFix.InsertScript | fix-allure-report.js:428 | the corrected insertion puts the script and a newline verbatim before the first `</head>`, and leaves HTML without `</head>` unchanged |
| AllureFix.NoSpecialDollarJoin | fix-allure-report.js:428 | joining two strings without a substitution gives none, unless the seam is a `$` and a special character |
| AllureFix.NoSpecialDollarReplacement | fix-allure-report.js:428 | the replacement text has no substitution when the script has none: the seam is a newline |
| AllureFix.ReplaceLiteral | fix-allure-report.js:428 | a replacement without a substitution replaces the first occurrence literally |
| AllureFix.ReplaceWithoutSpecialDollar | fix-allure-report.js:428 | with no substitution in it, `text + '\n' + pat` is inserted literally before the first `pat` |
| AllureFix.InsertAgreesWithoutSpecialDollar | fix-allure-report.js:428 | without a substitution in the script, the insertion as written is the corrected one |
| AllureFix.DollarGetIsLiteral | fix-allure-report.js:369 | the `$.get` the script's text mentions is no substitution and survives the insertion as written |
| AllureFix.DollarAmpersandCorrupts | fix-allure-report.js:428 | a script `$&` becomes a second `</head>` as written, and stays `$&` in the corrected insertion |
| AllureFix.FirstMatch | fix-allure-report.js:424 | a match of the lazy removal pattern is a non-empty span inside the HTML |
| AllureFix.RemoveMarked | fix-allure-report.js:424 | the global removal never lengthens the HTML, and changes nothing when there is no match |
| AllureFix.NoMarkerNoMatch | fix-allure-report.js:424 | without the marker the pattern matches nowhere |
| AllureFix.TagsUnrepeated | fix-allure-report.js:424-428 | no later character of `<script>` or `</head>` equals its first, which the search lemmas need |
| AllureFix.MatchFromIndices | fix-allure-report.js:424 | the match is given by the three successive searches |
| AllureFix.OpenAtJoin | fix-allure-report.js:424 | the first `<script>` is where the injected script begins |
| AllureFix.FramedMatch | fix-allure-report.js:424 | the first match in the page is the injected script without its last newline |
| AllureFix.RemoveSingle | fix-allure-report.js:424 | a single match, with nothing matching after it, is all that is removed |
| AllureFix.RemoveFramed | fix-allure-report.js:424 | removing the framed script leaves a single newline in its place |
| AllureFix.TailAfterNewline | fix-allure-report.js:424 | what follows the script is its last newline, then the rest |
| AllureFix.RemoveOnly | fix-allure-report.js:424 | a match with no further match after it leaves what surrounds it |
| AllureFix.Newlines | fix-allure-report.js:428 | a string of n newlines |
| AllureFix.PlainHeadNewlines | fix-allure-report.js:428 | adding newlines to a head without `<script>` and `</head>` keeps it so |
| AllureFix.DetectInBlockMarker | fix-allure-report.js:421-424 | the removal marker contains the detection marker |
| AllureFix.NewlineKeepsNoMarker | fix-allure-report.js:421 | a newline in front of text without the marker brings no marker in |
| AllureFix.NoBlockMarker | fix-allure-report.js:421-424 | text without the detection marker has no removal marker |
| AllureFix.DataBlockDetected | fix-allure-report.js:421 | the output of a run carries the marker, so a rerun takes the removal branch |
| AllureFix.FirstRun | fix-allure-report.js:420-428 | the first run on a report without inlined data puts the script right before `</head>` |
| AllureFix.Rerun | fix-allure-report.js:420-428 | a rerun removes exactly the old data block and inserts the new one in its place, leaving two newlines |
| AllureFix.RemoveAfterRun | fix-allure-report.js:424 | the removal step of a rerun, for any pattern the framed script fits |
| AllureFix.RerunRemoves | fix-allure-report.js:424 | the removal step of a rerun leaves two newlines where the old block was |
| AllureFix.RerunInserts | fix-allure-report.js:428 | the insertion step of a rerun puts the script after those newlines |
| AllureFix.TailOfUnmarked | fix-allure-report.js:421 | a suffix of text without the marker has no marker |
| AllureFix.RerunAfter | fix-allure-report.js:420-428 | a rerun after k piled-up newlines adds two more |
| AllureFix.RepeatedRuns | fix-allure-report.js:420-428 | after any number of runs, the page holds exactly one data script, right before the first `</head>`, preceded by two newlines per rerun |
| AllureFix.Cleared | fix-allure-report.js:421-425 | the removal step never lengthens the page, and leaves a page without the marker as it is |
| AllureFix.FixHtml | fix-allure-report.js:420-428 | one run, with the corrected insertion: the page grows by at most the script and a newline |
| AllureFix.FirstRunAddsScript | fix-allure-report.js:420-428 | a run on a page without inlined data and with a `</head>` adds exactly the script and a newline, and the result contains the script |
| AllureFix.FixRuns | fix-allure-report.js:420-428 | n runs, with the corrected insertion: each adds at most the script and a newline |
| AllureFix.RunAgreesWithoutSpecialDollar | fix-allure-report.js:420-428 | without a substitution in the script, one run as written gives the page of the corrected run |
| AllureFix.RunsStep | fix-allure-report.js:420-428 | runs that agree up to m agree after one more run when that run does |
| AllureFix.RunsAgreeWithoutSpecialDollar | fix-allure-report.js:420-428 | without a substitution in the script, any number of runs as written give the pages of the corrected runs |
| AllureFix.RepeatedRunsAsWritten | fix-allure-report.js:420-428 | the repeated-run result holds for the fixer as written when the script has no substitution |

## Left out

- File-system access is not modelled: reading `index.html` and the data files (fix-allure-report.js:15-31), the `.backup` copy (430-435) and writing the result (437-438). The loading step takes what each file read gives as an input.
- `JSON.parse` and `JSON.stringify` are left out. A parsed document is an opaque value; only its truthiness matters to the resolver.
- The body of the generated script is opaque. `WellFormedScript` states what the rerun lemmas need of it: it opens with `<script>`, ends with a newline, and has no `</script>` between its first marker and its own closing tag.
- AllureFix.RepeatedRuns: proved only for a report whose head before `</head>` has no `<script>` and no `</head>`, and whose data has no marker. A report that breaks these is outside the lemma.
- AllureFix.FirstRun, AllureFix.Rerun, AllureFix.RerunAfter and AllureFix.RepeatedRuns are stated for `FixHtml`, which inserts the script verbatim. For the replace as written they carry over only for a script in which no `$` is followed by `$`, `&`, `` ` `` or `'` (`RunsAgreeWithoutSpecialDollar`, `RepeatedRunsAsWritten`); for other scripts the Findings row applies.
- The removal pattern's `i` flag (fix-allure-report.js:424) is ignored. The tags are matched in lower case only.
- The fetch, XHR and jQuery interceptors are modelled only by the URL condition they share and the resolver's answer (`Intercept`). The response objects, `readyState` callbacks and the fall-through to the original functions are left out.
- `Object.prototype` keys in the JavaScript login configuration (login.config.js:34) are left out. `LoginConfig.CurrentConfigJs` takes the intended entry for every `ENV`. The same lookup flaw is modelled and proved for `getBohBaseUrl` (url.config.js:123).
- `serve-allure.js`, `playwright.config.js`, `conftest.py` and the spec files are not part of this model.
- Browser timing is left out: every `waitForTimeout`, load-state wait, timeout value and `Date.now()` deadline. Time-bounded loops take a finite list of snapshots no longer than the deadline allows. Counter-bounded loops take a list at least as long as the counter's bound.
- Console output and `print` are left out. The Python error-keyword scan in the login loop (login_module.py:245-257) only prints, so it has no effect on the model.
- The form-value read-back in Python's login (login_module.py:142-148) only prints, so it has no effect on the model.
- Exceptions are modelled where a loop catches them and moves on. These are the `Throws` element of the language selectors, a throwing agreement checkbox (login.module.js:121-129, login_module.py:130-135), a throwing click on a day selector, a generic cell or a day-text ancestor of the date picker (order.module.js:63-118, order_module.py:74-125), a failing link click and a failing query-button click. Other calls inside those `try` blocks (`isVisible`, `textContent`, `getAttribute`, the disabled-child probes) are taken as not throwing. The picker's outer `catch` (order.module.js:121-124, order_module.py:128-130) turns any other exception of an attempt, such as one from `locator(...).all()`, into `false`; the model takes those calls as succeeding.
- The wait for the login button to be visible (login.module.js:161, login_module.py:177) is modelled as failing exactly when the button held after the candidate scan is not visible, which is the case where no candidate was visible (`ButtonNotVisible`). Left out are a wait that times out even though the held candidate is visible, a throwing `fill()` of the account, password or brand input (login.module.js:53, 78, 106; login_module.py:69, 90, 114) and a throwing JavaScript `click()` of the login button (login.module.js:167); each of these ends the login with an error, and the model takes those calls as succeeding. Python's `click()` (login_module.py:182-189) sits in a `try` that goes on to the URL checks either way, which is what the model does.
- The thread pool of Python's `select_date_range_and_query` (order_module.py:370-378) is not modelled. It submits `wait_for_url`, `wait_for_load_state` and a second `query_button.click(force=True)` to worker threads, never waits for them, and ignores their exceptions. `OrderCommon.SubmitQuery` models only the click on the main thread, so neither the possible second click nor the worker-thread calls are captured.
- An `AllureFix.GetInlineData` call made directly, not through an interceptor, can also reach the `testCases` member of `window.__ALLURE_INLINE_DATA__` and the names it inherits from `Object.prototype` (`constructor`, `toString`, …). The model looks only in the loaded files and test cases, so it returns `None` for these names. Requests through the interceptors never reach them: `AllureFix.InterceptedProbesAreJson` proves every probed name ends in `.json`.
- Python's `\d` also matches non-ASCII decimal digits. The model treats `\d` as ASCII `0`–`9` in both engines.
- Navigation side effects are left out. After `navigateToOrderPage`, `selectDateRangeAndQuery` and the list lookup may navigate again when the URL is not the order page; the model takes the page as already being there.
- CSS selector matching is left out. Each candidate list arrives as its visibility flags, and only the candidate counts of the source are kept.
- The language switch's re-check for Chinese keywords after switching (login.module.js:447-463) only prints, so it has no effect on the model.

## Findings

| source | as written | input that shows it | evidently intended | confidence | as-written member | corrected member |
|---|---|---|---|---|---|---|
| fix-allure-report.js:428 | `htmlContent.replace('</head>', dataScript + '\n</head>')` expands `$&`, `` $` ``, `$'` and `$$` inside the inlined report JSON | report data containing `$&` (any test output with that text): it becomes a copy of `</head>` inside the script | the script inserted verbatim, e.g. via a replacer function | not executed | AllureFix.DollarAmpersandCorrupts | AllureFix.InsertScript |
| tests/config/url.config.js:123 | `bohBaseUrls[env] \|\| bohBaseUrls.test` reads inherited members of the object literal | `getBohBaseUrl('toString')` (or `ENV=constructor`) returns a function instead of a host | unknown names fall back to the test host | not executed | UrlConfigJs.InheritedNameLeaks | UrlConfigJs.BohBaseUrl |
| tests/modules/order.module.js:521 | `if (orderRow) break;` also fires when `orderRow` was set by the exact-text step whose row was hidden, so only the first visible table is searched (also order_module.py:494-495) | exact-text element found with a hidden row ancestor, the order row in the second visible table, and no partial-text element | stop the table loop only on a hit in this loop | not executed | OrderCommon.HiddenAncestorSkipsLaterTables | OrderCommon.IntendedFindsTableRow |
