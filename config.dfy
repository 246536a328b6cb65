/** crates/config-env/src/services.rs: where each setting comes from. The
    secret store's answers and the process environment are inputs; the
    environment is a map from variable name to value. */
module Config {
  import opened Wrappers
  import opened Strings

  /** The secrets fetched from the secret store, if any were. */
  type Secrets = Option<map<string, string>>

  type Environment = map<string, string>

  function Lookup(m: map<string, string>, key: string): Option<string> {
    if key in m then Some(m[key]) else None
  }

  /** `get_optional_value`: the secret, else the environment variable. */
  function GetOptionalValue(secrets: Secrets, env: Environment, key: string): (r: Option<string>)
    ensures secrets.Some? && key in secrets.value ==> r == Some(secrets.value[key])
    ensures !(secrets.Some? && key in secrets.value) ==> r == Lookup(env, key)
    ensures r.None? <==> !(secrets.Some? && key in secrets.value) && key !in env
  {
    if secrets.Some? && key in secrets.value then Some(secrets.value[key]) else Lookup(env, key)
  }

  /** `get_value`: the secret, else the environment variable, else the default. */
  function GetValue(secrets: Secrets, env: Environment, key: string, default: string): (r: string)
    ensures secrets.Some? && key in secrets.value ==> r == secrets.value[key]
    ensures !(secrets.Some? && key in secrets.value) && key in env ==> r == env[key]
    ensures !(secrets.Some? && key in secrets.value) && key !in env ==> r == default
  {
    GetOptionalValue(secrets, env, key).GetOr(default)
  }

  /** `get_value_required`: as `get_value`, but with no default: a missing
      key stops start-up (the panic is the error here). */
  function GetValueRequired(secrets: Secrets, env: Environment, key: string): (r: Result<string, string>)
    ensures r.Ok? <==> GetOptionalValue(secrets, env, key).Some?
    ensures r.Ok? ==> r.value == GetOptionalValue(secrets, env, key).value
    ensures r.Err? ==> r.error == key + " must be set"
  {
    match GetOptionalValue(secrets, env, key)
    case Some(v) => Ok(v)
    case None => Err(key + " must be set")
  }

  /** The three lookups agree wherever a value exists. */
  lemma ValueLookupsAgree(secrets: Secrets, env: Environment, key: string, default: string)
    ensures GetValueRequired(secrets, env, key).Ok? ==>
              GetValue(secrets, env, key, default) == GetValueRequired(secrets, env, key).value
    ensures GetValueRequired(secrets, env, key).Err? ==> GetValue(secrets, env, key, default) == default
  {
  }

  const U16Limit := 65536

  predicate AllDigits(s: string) {
    forall j :: 0 <= j < |s| ==> IsDigit(s[j])
  }

  /** The text after one optional leading '+'. */
  function Unsigned(s: string): (d: string)
    ensures |s| > 0 && s[0] == '+' ==> d == s[1..]
    ensures !(|s| > 0 && s[0] == '+') ==> d == s
  {
    if |s| > 0 && s[0] == '+' then s[1..] else s
  }

  /** Parsing a text as a `u16`: an optional '+', then one or more decimal
      digits whose value fits in 16 bits; anything else is rejected. */
  function ParseU16(s: string): (r: Option<nat>)
    ensures r.Some? ==> r.value < U16Limit
    ensures r.Some? <==> Unsigned(s) != [] && AllDigits(Unsigned(s)) && DigitsValue(Unsigned(s)) < U16Limit
    ensures r.Some? ==> r.value == DigitsValue(Unsigned(s))
    ensures r.Some? ==> |s| > 0 && (s[0] == '+' || IsDigit(s[0]))
    ensures AllDigits(s) && s != [] && DigitsValue(s) < U16Limit ==> r == Some(DigitsValue(s))
  {
    var digits := Unsigned(s);
    if digits == [] || !AllDigits(digits) then None
    else
      var v := DigitsValue(digits);
      if v < U16Limit then Some(v) else None
  }

  /** Every port number reads back from its decimal text. */
  lemma ParsePortRoundTrip(n: nat)
    requires n < U16Limit
    ensures ParseU16(NatToString(n)) == Some(n)
    ensures ParseU16("+" + NatToString(n)) == Some(n)
  {
    DigitsValueOfNatToString(n);
    assert ("+" + NatToString(n))[1..] == NatToString(n);
  }

  lemma ParseU16Examples()
    ensures ParseU16("8080") == Some(8080)
    ensures ParseU16("") == None && ParseU16("+") == None && ParseU16("-1") == None
    ensures ParseU16("65536") == None
    ensures ParseU16("8a") == None && ParseU16("++1") == None && ParseU16("+80") == Some(80)
  {
    assert !IsDigit("8a"[1]);
    assert !IsDigit(Unsigned("++1")[0]);
    ParsePortRoundTrip(80);
    assert NatToString(80) == "80";
    assert "+80" == "+" + NatToString(80);
    ParsePortRoundTrip(8080);
    assert NatToString(8080) == "8080";
    DigitsValueOfNatToString(65536);
    assert NatToString(65536) == "65536";
    assert !IsDigit("-1"[0]);
  }

  /** `str::parse::<bool>()` */
  function ParseBool(s: string): (r: Option<bool>)
    ensures r.Some? <==> s == "true" || s == "false"
    ensures r.Some? ==> (r.value <==> s == "true")
  {
    if s == "true" then Some(true) else if s == "false" then Some(false) else None
  }

  /** `SQLX_LOG`: true only for the text "true"; anything unparseable is false. */
  function SqlxLog(value: string): (b: bool)
    ensures b <==> value == "true"
  {
    ParseBool(value).GetOr(false)
  }

  /** The secret store configuration name: `DOPPLER_ENV` when set and
      non-empty, else `DOPPLER_CONFIG` when set (even empty), else "dev". */
  function DopplerConfigName(env: Environment): (name: string)
    ensures "DOPPLER_ENV" in env && env["DOPPLER_ENV"] != "" ==> name == env["DOPPLER_ENV"]
    ensures !("DOPPLER_ENV" in env && env["DOPPLER_ENV"] != "") && "DOPPLER_CONFIG" in env ==> name == env["DOPPLER_CONFIG"]
    ensures !("DOPPLER_ENV" in env && env["DOPPLER_ENV"] != "") && "DOPPLER_CONFIG" !in env ==> name == "dev"
  {
    if "DOPPLER_ENV" in env && env["DOPPLER_ENV"] != "" then env["DOPPLER_ENV"]
    else Lookup(env, "DOPPLER_CONFIG").GetOr("dev")
  }

  /** The fixed list of keys asked of the secret store. */
  const Keys: seq<string> := [
    "ACCESS_TOKEN_PUBLIC_KEY", "APP_ENV", "AUTH_BASE_URL", "AUTH_API_KEY", "DATABASE_PUBLIC_URL",
    "DATABASE_URL", "DOPPLER_ENV", "HOST", "PGDATA", "PGDATABASE", "PGHOST", "PGPASSWORD", "PGPORT",
    "PGUSER", "PORT", "POSTGRES_DB", "POSTGRES_PASSWORD", "POSTGRES_USER",
    "RAILWAY_DEPLOYMENT_DRAINING_SECONDS", "RUST_LOG", "SQLX_LOG", "SSL_CERT_DAYS", "STRAPI_API"]

  /** The secrets the store gives for the first `n` keys; `secretsGet` is the
      store's computed value for (project, config, key), absent on an error
      or when it has no value. */
  function FetchedAmong(project: string, config: string, secretsGet: (string, string, string) -> Option<string>, n: nat)
    : (m: map<string, string>)
    requires n <= |Keys|
    ensures forall k :: k in m ==> k in Keys[..n]
  {
    map k | k in Keys[..n] && secretsGet(project, config, k).Some? :: secretsGet(project, config, k).value
  }

  /** `fetch_from_doppler`: no token, no (or an empty) project, or nothing
      fetched all mean "no secrets". */
  method FetchFromDoppler(env: Environment, secretsGet: (string, string, string) -> Option<string>)
    returns (r: Secrets)
    ensures "DOPPLER_TOKEN" !in env ==> r.None?
    ensures ("DOPPLER_PROJECT" !in env || env["DOPPLER_PROJECT"] == "") ==> r.None?
    ensures r.Some? ==> r.value != map[] && forall k :: k in r.value ==> k in Keys
    ensures "DOPPLER_TOKEN" in env && "DOPPLER_PROJECT" in env && env["DOPPLER_PROJECT"] != "" ==>
      var fetched := FetchedAmong(env["DOPPLER_PROJECT"], DopplerConfigName(env), secretsGet, |Keys|);
      r == if fetched == map[] then None else Some(fetched)
  {
    if "DOPPLER_TOKEN" !in env {
      return None;
    }
    if "DOPPLER_PROJECT" !in env || env["DOPPLER_PROJECT"] == "" {
      return None;
    }
    var project := env["DOPPLER_PROJECT"];
    var config := DopplerConfigName(env);
    var out: map<string, string> := map[];
    for i := 0 to |Keys|
      invariant out == FetchedAmong(project, config, secretsGet, i)
    {
      var key := Keys[i];
      var value := secretsGet(project, config, key);
      if value.Some? {
        out := out[key := value.value];
      }
      assert Keys[..i + 1] == Keys[..i] + [key];
    }
    assert Keys[..|Keys|] == Keys;
    if out == map[] {
      return None;
    }
    r := Some(out);
  }

  /** The settings the server reads at start-up (the remaining text settings
      are looked up the same way and are not represented). */
  datatype ConfigService = ConfigService(
    appEnv: string, authBaseUrl: string, authApiKey: Option<string>, databaseUrl: string,
    host: string, port: nat, rustLog: string, sqlxLog: bool, strapiApi: string)

  /** `ConfigService::new` after the fetch: fields are built in declaration
      order, so a missing `DATABASE_URL` stops start-up before `PORT` is read. */
  function NewConfig(secrets: Secrets, env: Environment): (r: Result<ConfigService, string>)
    ensures GetValueRequired(secrets, env, "DATABASE_URL").Err? ==> r == Err("DATABASE_URL must be set")
    ensures GetValueRequired(secrets, env, "DATABASE_URL").Ok? && ParseU16(GetValue(secrets, env, "PORT", "8080")).None? ==>
      r == Err("PORT must be a valid u16")
    ensures r.Ok? <==>
      GetValueRequired(secrets, env, "DATABASE_URL").Ok? && ParseU16(GetValue(secrets, env, "PORT", "8080")).Some?
    ensures r.Ok? ==>
      && r.value.databaseUrl == GetValueRequired(secrets, env, "DATABASE_URL").value
      && Some(r.value.port) == ParseU16(GetValue(secrets, env, "PORT", "8080"))
      && r.value.appEnv == GetValue(secrets, env, "APP_ENV", "dev")
      && r.value.authBaseUrl == GetValue(secrets, env, "AUTH_BASE_URL", "http://localhost:8081")
      && r.value.authApiKey == GetOptionalValue(secrets, env, "AUTH_API_KEY")
      && r.value.host == GetValue(secrets, env, "HOST", "127.0.0.1")
      && r.value.rustLog == GetValue(secrets, env, "RUST_LOG", "info")
      && (r.value.sqlxLog <==> GetValue(secrets, env, "SQLX_LOG", "false") == "true")
      && r.value.strapiApi == GetValue(secrets, env, "STRAPI_API", "")
  {
    assert "DATABASE_URL" + " must be set" == "DATABASE_URL must be set";
    var databaseUrl :- GetValueRequired(secrets, env, "DATABASE_URL");
    match ParseU16(GetValue(secrets, env, "PORT", "8080"))
    case None => Err("PORT must be a valid u16")
    case Some(port) =>
      Ok(ConfigService(
        GetValue(secrets, env, "APP_ENV", "dev"),
        GetValue(secrets, env, "AUTH_BASE_URL", "http://localhost:8081"),
        GetOptionalValue(secrets, env, "AUTH_API_KEY"),
        databaseUrl,
        GetValue(secrets, env, "HOST", "127.0.0.1"),
        port,
        GetValue(secrets, env, "RUST_LOG", "info"),
        SqlxLog(GetValue(secrets, env, "SQLX_LOG", "false")),
        GetValue(secrets, env, "STRAPI_API", "")))
  }

  /** With nothing configured but the database, the defaults apply: port 8080. */
  lemma DefaultsWithOnlyDatabase(url: string)
    ensures NewConfig(None, map["DATABASE_URL" := url]).Ok?
    ensures NewConfig(None, map["DATABASE_URL" := url]).value.port == 8080
    ensures NewConfig(None, map["DATABASE_URL" := url]).value.host == "127.0.0.1"
    ensures !NewConfig(None, map["DATABASE_URL" := url]).value.sqlxLog
  {
    ParseU16Examples();
  }
}
