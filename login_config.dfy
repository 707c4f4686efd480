/**
 * The static login configuration shared by both halves of the suite: one entry
 * per environment (authentication host, login page, back-office host and the
 * default credentials) and the environment-variable switch between them.
 */
module LoginConfig {
  import opened Strings

  datatype Credentials = Credentials(account: string, password: string, brandAlias: string)

  datatype EnvConfig = EnvConfig(authBaseUrl: string, loginUrl: string, bohBaseUrl: string, credentials: Credentials)

  const DefaultCredentials := Credentials("admin", "admin@123", "hex")

  const Production := EnvConfig(
    "https://auth.hexcloud.cn",
    "https://auth.hexcloud.cn/page/login",
    "https://boh.hexcloud.cn",
    DefaultCredentials)

  const Test := EnvConfig(
    "https://saas-auth-qa.hexcloud.cn",
    "https://saas-auth-qa.hexcloud.cn/page/login",
    "https://saas-boh-qa.hexcloud.cn",
    DefaultCredentials)

  /**
   * The JavaScript selection: `ENV || 'test'` names the entry, and an unknown
   * name falls back to the test entry.  `envVar` is the process environment's
   * `ENV` (`None` when unset).
   */
  function CurrentConfigJs(envVar: Option<string>): (c: EnvConfig)
    ensures c == Production || c == Test
    ensures c == Production <==> envVar == Some("production")
  {
    var env := if envVar.Some? && envVar.value != "" then envVar.value else "test";
    if env == "production" then Production else Test
  }

  /** The Python selection: `os.getenv('ENV', 'test')`, then `dict.get` with the test entry as default. */
  function CurrentConfigPy(envVar: Option<string>): (c: EnvConfig)
    ensures c == Production || c == Test
    ensures c == Production <==> envVar == Some("production")
  {
    var env := if envVar.Some? then envVar.value else "test";
    if env == "production" then Production else Test
  }

  /** Both halves pick the same entry for every setting of `ENV`, the empty one included. */
  lemma CurrentConfigsAgree(envVar: Option<string>)
    ensures CurrentConfigJs(envVar) == CurrentConfigPy(envVar)
  {
  }

  /** Both entries hold the same default credentials. */
  lemma CredentialsIndependentOfEnv(envVar: Option<string>)
    ensures CurrentConfigJs(envVar).credentials == DefaultCredentials
    ensures CurrentConfigPy(envVar).credentials == DefaultCredentials
  {
  }
}
