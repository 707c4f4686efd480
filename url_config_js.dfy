/**
 * The JavaScript URL builders of the back office: the `urlConfig` path table,
 * `getFullUrl`, `getBohBaseUrl` and `getCurrentBohUrl`.
 */
module UrlConfigJs {
  import opened Strings
  import LoginConfig

  /** `urlConfig`: menu group, then page, then the page's path relative to the host. */
  const UrlTable: map<string, map<string, string>> := map[
    "organization" := map[
      "company" := "/metadata/company-info",
      "store" := "/metadata/store",
      "warehouse" := "/metadata/warehouse",
      "supplier" := "/metadata/franchisee"
    ],
    "product" := map[
      "item" := "/product/item",
      "attribute" := "/product/attribute"
    ],
    "storeOperations" := map[
      "order" := "/store-supply/demand-daily",
      "productionOrder" := "/boh-product-order/store",
      "requestOrder" := "/store-supply/order",
      "selfPicking" := "/store-supply/self-picking",
      "receive" := "/store-supply/receive",
      "receiveDiff" := "/store-supply/receive-diff",
      "return" := "/store-supply/return",
      "adjust" := "/store-supply/adjust",
      "stocktake" := "/store-supply/stocktake",
      "transfer" := "/store-supply/transfer",
      "inventoryTrace" := "/store-supply/inventory/trace",
      "inventoryRealtime" := "/store-supply/inventory/realtime",
      "inventoryDaily" := "/store-supply/inventory/daily"
    ],
    "warehouseOperations" := map[
      "productionOrder" := "/boh-product-order/warehouse",
      "purchase" := "/warehouse/purchase",
      "receive" := "/warehouse/receive",
      "purchaseReturn" := "/warehouse/purchase-return",
      "storeReturn" := "/warehouse/store-return",
      "sendOrder" := "/warehouse/send-order",
      "transfer" := "/warehouse/transfer",
      "stocktake" := "/warehouse/stocktake",
      "adjust" := "/warehouse/adjust",
      "inventoryTrace" := "/warehouse/inventory/trace",
      "inventoryRealtime" := "/warehouse/inventory/realtime",
      "inventoryDaily" := "/warehouse/inventory/daily"
    ],
    "storeAudit" := map[
      "receiveDiff" := "/store-audit/receive-diff",
      "return" := "/store-audit/return"
    ],
    "storeManagement" := map[
      "orderSchedule" := "/store-management/schedule/order",
      "stocktakeSchedule" := "/store-management/schedule/stocktake",
      "adjustSchedule" := "/store-management/schedule/adjust",
      "stocktakeIrregular" := "/store-management/stocktake-irregular",
      "orderRule" := "/store-management/order-rule",
      "adjustDemand" := "/store-management/adjust-demand",
      "adjustReturn" := "/store-management/adjust-return",
      "demandMain" := "/store-management/demand-main"
    ],
    "warehouseManagement" := map[
      "stocktakeSchedule" := "/warehouse-management/schedule/stocktake",
      "adjustSchedule" := "/warehouse-management/schedule/adjust"
    ],
    "supplier" := map[
      "demandOrder" := "/supplier/demand-order",
      "sendOrder" := "/supplier/send-order",
      "returnOrder" := "/supplier/return-order"
    ],
    "storeReport" := map[
      "orderReport" := "/store-bi/order"
    ]
  ]

  /** Every path in the table is absolute. */
  lemma TablePathsAbsolute()
    ensures forall g, p | g in UrlTable && p in UrlTable[g] :: StartsWith(UrlTable[g][p], "/")
  {
  }

  // ---------------------------------------------------------------- getFullUrl

  /** `baseUrl.replace(/\/$/, '')`: one trailing slash removed, if there is one. */
  function CleanBase(base: string): (r: string)
    ensures EndsWith(base, "/") ==> r + "/" == base
    ensures !EndsWith(base, "/") ==> r == base
  {
    if |base| > 0 && base[|base| - 1] == '/' then base[..|base| - 1] else base
  }

  /** `path.startsWith('/') ? path : `/${path}``. */
  function CleanPath(path: string): (r: string)
    ensures StartsWith(r, "/")
    ensures StartsWith(path, "/") ==> r == path
    ensures !StartsWith(path, "/") ==> r == "/" + path
  {
    if StartsWith(path, "/") then path else "/" + path
  }

  /** `getFullUrl(baseUrl, path)`: the cleaned base followed by the cleaned path. */
  function FullUrl(base: string, path: string): (r: string)
    ensures StartsWith(r, CleanBase(base)) && EndsWith(r, path)
    ensures |r| == |CleanBase(base)| + |CleanPath(path)|
    ensures r[|CleanBase(base)|] == '/'
  {
    var b, p := CleanBase(base), CleanPath(path);
    assert !StartsWith(path, "/") ==> EndsWith("/" + path, path);
    EndsWithExtend(b, p, path);
    b + p
  }

  /** A path from the table is appended unchanged. */
  lemma TablePathAppendedUnchanged(base: string, g: string, p: string)
    requires g in UrlTable && p in UrlTable[g]
    ensures FullUrl(base, UrlTable[g][p]) == CleanBase(base) + UrlTable[g][p]
  {
    TablePathsAbsolute();
  }

  /** One trailing slash on the base makes no difference... */
  lemma TrailingSlashIgnored(base: string, path: string)
    requires !EndsWith(base, "/")
    ensures FullUrl(base + "/", path) == FullUrl(base, path)
  {
    assert EndsWith(base + "/", "/");
    assert (base + "/")[..|base|] == base;
  }

  /** ...but a second one survives and doubles the separator. */
  lemma SecondSlashKept(base: string, path: string)
    ensures FullUrl(base + "//", path) == base + "/" + CleanPath(path)
  {
    assert EndsWith(base + "//", "/");
    assert (base + "//")[..|base| + 1] == base + "/";
  }

  /** Cleaning a path twice is cleaning it once. */
  lemma CleanPathIdempotent(path: string)
    ensures CleanPath(CleanPath(path)) == CleanPath(path)
  {
  }

  // ---------------------------------------------------------------- getBohBaseUrl

  const ProductionBoh := "https://boh.hexcloud.cn"
  const TestBoh := "https://saas-boh-qa.hexcloud.cn"

  /** The value a property read on a plain object literal yields. */
  datatype JsValue = Undefined | Str(s: string) | Inherited(name: string)

  /** Members every object literal inherits from `Object.prototype`. */
  const ObjectPrototypeNames: set<string> := {
    "constructor", "hasOwnProperty", "isPrototypeOf", "propertyIsEnumerable",
    "toLocaleString", "toString", "valueOf", "__proto__",
    "__defineGetter__", "__defineSetter__", "__lookupGetter__", "__lookupSetter__"
  }

  /** JavaScript truthiness of a property value (an inherited member is a function or an object). */
  predicate Truthy(v: JsValue) {
    (v.Str? && v.s != "") || v.Inherited?
  }

  /** `bohBaseUrls[key]` on `{ production: …, test: … }`. */
  function BohTableGet(key: string): (v: JsValue)
    ensures key == "production" ==> v == Str(ProductionBoh)
    ensures key == "test" ==> v == Str(TestBoh)
    ensures key in ObjectPrototypeNames ==> v == Inherited(key)
    ensures key != "production" && key != "test" && key !in ObjectPrototypeNames ==> v == Undefined
  {
    if key == "production" then Str(ProductionBoh)
    else if key == "test" then Str(TestBoh)
    else if key in ObjectPrototypeNames then Inherited(key)
    else Undefined
  }

  /**
   * `if (!env) env = process.env.ENV || 'test'`: a missing or empty argument is
   * replaced by the environment variable, and that by `'test'` when it is unset
   * or empty.
   */
  function ResolveEnv(env: Option<string>, envVar: Option<string>): (e: string)
    ensures e != ""
    ensures env.Some? && env.value != "" ==> e == env.value
    ensures (env.None? || env.value == "") && envVar.Some? && envVar.value != "" ==> e == envVar.value
    ensures (env.None? || env.value == "") && (envVar.None? || envVar.value == "") ==> e == "test"
  {
    if env.Some? && env.value != "" then env.value
    else if envVar.Some? && envVar.value != "" then envVar.value
    else "test"
  }

  /** `getBohBaseUrl(env)` as written: `bohBaseUrls[env] || bohBaseUrls.test`. */
  function BohBaseUrlAsWritten(env: Option<string>, envVar: Option<string>): (v: JsValue)
    ensures v == Str(ProductionBoh) <==> ResolveEnv(env, envVar) == "production"
    ensures v.Inherited? <==> ResolveEnv(env, envVar) in ObjectPrototypeNames
    ensures v == Str(ProductionBoh) || v == Str(TestBoh) || v.Inherited?
  {
    var found := BohTableGet(ResolveEnv(env, envVar));
    if Truthy(found) then found else Str(TestBoh)
  }

  /** An environment named after an inherited member yields that member, not a URL. */
  lemma InheritedNameLeaks()
    ensures BohBaseUrlAsWritten(Some("toString"), None) == Inherited("toString")
  {
  }

  /** `getBohBaseUrl(env)` reading own properties only: always one of the two hosts. */
  function BohBaseUrl(env: Option<string>, envVar: Option<string>): (r: string)
    ensures r == ProductionBoh || r == TestBoh
    ensures r == ProductionBoh <==> ResolveEnv(env, envVar) == "production"
  {
    if ResolveEnv(env, envVar) == "production" then ProductionBoh else TestBoh
  }

  /** Away from the inherited names the corrected lookup is the one written. */
  lemma AsWrittenAgreesOffPrototype(env: Option<string>, envVar: Option<string>)
    requires ResolveEnv(env, envVar) !in ObjectPrototypeNames
    ensures BohBaseUrlAsWritten(env, envVar) == Str(BohBaseUrl(env, envVar))
  {
  }

  /** An unknown name gives the test host. */
  lemma UnknownEnvGivesTest(env: Option<string>, envVar: Option<string>)
    requires ResolveEnv(env, envVar) != "production"
    ensures BohBaseUrl(env, envVar) == TestBoh
  {
  }

  // ---------------------------------------------------------------- getCurrentBohUrl

  /** `getCurrentBohUrl(path)`: the path under the back-office host the login configuration selects. */
  function CurrentBohUrl(envVar: Option<string>, path: string): (r: string)
    ensures r == FullUrl(BohBaseUrl(None, envVar), path)
  {
    FullUrl(LoginConfig.CurrentConfigJs(envVar).bohBaseUrl, path)
  }

  /** Neither host ends in a slash, so a table page is the host followed by its path. */
  lemma CurrentBohUrlOfTablePage(envVar: Option<string>, g: string, p: string)
    requires g in UrlTable && p in UrlTable[g]
    ensures CurrentBohUrl(envVar, UrlTable[g][p]) == BohBaseUrl(None, envVar) + UrlTable[g][p]
  {
    TablePathAppendedUnchanged(BohBaseUrl(None, envVar), g, p);
  }
}
