/**
 * The Python URL builders: `URL_CONFIG`, `get_full_url`, `get_boh_base_url` and
 * `get_current_boh_url`, with the points where they part from the JavaScript ones.
 */
module UrlConfigPy {
  import opened Strings
  import LoginConfig
  import UrlConfigJs

  /** `URL_CONFIG`: menu group, then page, then the page's path relative to the host. */
  const UrlTable: map<string, map<string, string>> := map[
    "organization" := map[
      "company" := "/metadata/company-info",
      "store" := "/metadata/store",
      "warehouse" := "/metadata/warehouse",
      "supplier" := "/metadata/franchisee"
    ],
    "product" := map[
      "item" := "/product/item",
      "attribute" := "/product/attribute"
    ],
    "storeOperations" := map[
      "order" := "/store-supply/demand-daily",
      "productionOrder" := "/boh-product-order/store",
      "requestOrder" := "/store-supply/order",
      "selfPicking" := "/store-supply/self-picking",
      "receive" := "/store-supply/receive",
      "receiveDiff" := "/store-supply/receive-diff",
      "return" := "/store-supply/return",
      "adjust" := "/store-supply/adjust",
      "stocktake" := "/store-supply/stocktake",
      "transfer" := "/store-supply/transfer",
      "inventoryTrace" := "/store-supply/inventory/trace",
      "inventoryRealtime" := "/store-supply/inventory/realtime",
      "inventoryDaily" := "/store-supply/inventory/daily"
    ],
    "warehouseOperations" := map[
      "productionOrder" := "/boh-product-order/warehouse",
      "purchase" := "/warehouse/purchase",
      "receive" := "/warehouse/receive",
      "purchaseReturn" := "/warehouse/purchase-return",
      "storeReturn" := "/warehouse/store-return",
      "sendOrder" := "/warehouse/send-order",
      "transfer" := "/warehouse/transfer",
      "stocktake" := "/warehouse/stocktake",
      "adjust" := "/warehouse/adjust",
      "inventoryTrace" := "/warehouse/inventory/trace",
      "inventoryRealtime" := "/warehouse/inventory/realtime",
      "inventoryDaily" := "/warehouse/inventory/daily"
    ],
    "storeAudit" := map[
      "receiveDiff" := "/store-audit/receive-diff",
      "return" := "/store-audit/return"
    ],
    "storeManagement" := map[
      "orderSchedule" := "/store-management/schedule/order",
      "stocktakeSchedule" := "/store-management/schedule/stocktake",
      "adjustSchedule" := "/store-management/schedule/adjust",
      "stocktakeIrregular" := "/store-management/stocktake-irregular",
      "orderRule" := "/store-management/order-rule",
      "adjustDemand" := "/store-management/adjust-demand",
      "adjustReturn" := "/store-management/adjust-return",
      "demandMain" := "/store-management/demand-main"
    ],
    "warehouseManagement" := map[
      "stocktakeSchedule" := "/warehouse-management/schedule/stocktake",
      "adjustSchedule" := "/warehouse-management/schedule/adjust"
    ],
    "supplier" := map[
      "demandOrder" := "/supplier/demand-order",
      "sendOrder" := "/supplier/send-order",
      "returnOrder" := "/supplier/return-order"
    ],
    "storeReport" := map[
      "orderReport" := "/store-bi/order"
    ]
  ]

  /** Every path in the table is absolute. */
  lemma TablePathsAbsolute()
    ensures forall g, p | g in UrlTable && p in UrlTable[g] :: StartsWith(UrlTable[g][p], "/")
  {
  }

  /** The two halves carry the same table. */
  lemma TablesAgree()
    ensures UrlTable == UrlConfigJs.UrlTable
  {
  }

  // ---------------------------------------------------------------- get_full_url

  /** `base_url.rstrip('/')`: every trailing slash removed. */
  function CleanBase(base: string): (r: string)
    ensures r <= base && !EndsWith(r, "/")
    ensures forall k :: |r| <= k < |base| ==> base[k] == '/'
  {
    RStripAll(base, '/')
  }

  /** `path if path.startswith('/') else f'/{path}'`. */
  function CleanPath(path: string): (r: string)
    ensures StartsWith(r, "/")
    ensures StartsWith(path, "/") ==> r == path
    ensures !StartsWith(path, "/") ==> r == "/" + path
  {
    if StartsWith(path, "/") then path else "/" + path
  }

  /** `get_full_url(base_url, path)`: the cleaned base followed by the cleaned path. */
  function FullUrl(base: string, path: string): (r: string)
    ensures StartsWith(r, CleanBase(base)) && EndsWith(r, path)
    ensures |r| == |CleanBase(base)| + |CleanPath(path)|
    ensures r[|CleanBase(base)|] == '/'
  {
    var b, p := CleanBase(base), CleanPath(path);
    assert !StartsWith(path, "/") ==> EndsWith("/" + path, path);
    EndsWithExtend(b, p, path);
    b + p
  }

  /** `n` slashes. */
  function Slashes(n: nat): (r: string)
    ensures |r| == n && forall k :: 0 <= k < n ==> r[k] == '/'
  {
    if n == 0 then "" else Slashes(n - 1) + "/"
  }

  /** Any number of trailing slashes makes no difference. */
  lemma TrailingSlashesIgnored(base: string, n: nat, path: string)
    ensures FullUrl(base + Slashes(n), path) == FullUrl(base, path)
  {
    SlashesStripped(base, n);
  }

  /** `rstrip('/')` removes appended slashes however many there are. */
  lemma SlashesStripped(base: string, n: nat)
    ensures CleanBase(base + Slashes(n)) == CleanBase(base)
  {
    var s, r := base + Slashes(n), CleanBase(base);
    assert forall k :: |r| <= k < |s| ==> s[k] == '/' by {
      forall k | |r| <= k < |s|
        ensures s[k] == '/'
      {
        if k >= |base| {
          assert s[k] == Slashes(n)[k - |base|];
        }
      }
    }
    RStripUnique(s, '/', r);
  }

  /** The two `get_full_url`s agree exactly when the base does not end in two slashes. */
  lemma FullUrlAgreesWithJsIff(base: string, path: string)
    ensures FullUrl(base, path) == UrlConfigJs.FullUrl(base, path) <==> !EndsWith(base, "//")
  {
    if EndsWith(base, "//") {
      assert |UrlConfigJs.CleanBase(base)| == |base| - 1;
      var r := CleanBase(base);
      assert |r| < |base| - 1 by {
        assert base[|base| - 1] == '/' && base[|base| - 2] == '/';
      }
    } else if EndsWith(base, "/") {
      var b := base[..|base| - 1];
      assert base == b + "/";
      assert |base| >= 2 ==> base[|base| - 2..] == [base[|base| - 2], '/'];
      assert !EndsWith(b, "/");
      assert RStripAll(b, '/') == b;
    } else {
      assert RStripAll(base, '/') == base;
    }
  }

  // ---------------------------------------------------------------- get_boh_base_url

  /** `if env is None: env = os.getenv('ENV', 'test')`: only a missing argument is replaced. */
  function ResolveEnv(env: Option<string>, envVar: Option<string>): (e: string)
    ensures env.Some? ==> e == env.value
    ensures env.None? && envVar.Some? ==> e == envVar.value
    ensures env.None? && envVar.None? ==> e == "test"
  {
    if env.Some? then env.value else if envVar.Some? then envVar.value else "test"
  }

  /** `boh_base_urls.get(env, boh_base_urls['test'])`: always one of the two hosts. */
  function BohBaseUrl(env: Option<string>, envVar: Option<string>): (r: string)
    ensures r == UrlConfigJs.ProductionBoh || r == UrlConfigJs.TestBoh
    ensures r == UrlConfigJs.ProductionBoh <==> ResolveEnv(env, envVar) == "production"
  {
    if ResolveEnv(env, envVar) == "production" then UrlConfigJs.ProductionBoh else UrlConfigJs.TestBoh
  }

  /**
   * The two lookups part on an empty argument: JavaScript treats it as missing and
   * consults `ENV`, Python looks the empty name up and falls back to the test host.
   */
  lemma EmptyEnvDiverges()
    ensures UrlConfigJs.BohBaseUrl(Some(""), Some("production")) == UrlConfigJs.ProductionBoh
    ensures BohBaseUrl(Some(""), Some("production")) == UrlConfigJs.TestBoh
  {
  }

  /** Elsewhere they agree with the corrected JavaScript lookup. */
  lemma BohBaseUrlAgreesWithJs(env: Option<string>, envVar: Option<string>)
    requires env.Some? ==> env.value != ""
    ensures BohBaseUrl(env, envVar) == UrlConfigJs.BohBaseUrl(env, envVar)
  {
  }

  // ---------------------------------------------------------------- get_current_boh_url

  /** `get_current_boh_url(path)`: the path under `BOH_BASE_URL` from the login configuration. */
  function CurrentBohUrl(envVar: Option<string>, path: string): (r: string)
    ensures r == FullUrl(BohBaseUrl(None, envVar), path)
  {
    FullUrl(LoginConfig.CurrentConfigPy(envVar).bohBaseUrl, path)
  }

  /** Both halves build the same current URL for every `ENV` and path. */
  lemma CurrentBohUrlAgreesWithJs(envVar: Option<string>, path: string)
    ensures CurrentBohUrl(envVar, path) == UrlConfigJs.CurrentBohUrl(envVar, path)
  {
    var b := BohBaseUrl(None, envVar);
    FullUrlAgreesWithJsIff(b, path);
  }
}
