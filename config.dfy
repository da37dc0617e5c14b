/**
 * Resolution of the API endpoint of the mobile app
 * (apps/mobile/src/constants/config.ts). The process environment, the app
 * configuration and the development flag are parameters here.
 */
module Config {
  import opened Wrappers

  const ProductionApiUrl: string := "https://api.sungaze.com"

  const DevelopmentApiUrl: string := "http://localhost:3001"

  /** JavaScript truthiness of an optional string: present and not empty. */
  predicate Truthy(v: Option<string>) {
    v.Some? && v.value != ""
  }

  predicate EndsWithSlash(s: string) {
    |s| > 0 && s[|s| - 1] == '/'
  }

  /** `url.replace(/\/$/, "")`: drop one `/` at the very end, if there is one. */
  function StripTrailingSlash(url: string): (r: string)
    ensures r <= url
    ensures EndsWithSlash(url) ==> r + "/" == url
    ensures !EndsWithSlash(url) ==> r == url
  {
    if EndsWithSlash(url) then url[..|url| - 1] else url
  }

  /** getApiBaseUrl(): EXPO_PUBLIC_API_URL, then the app configuration's
      `extra.apiUrl`, then the development or production default. */
  function GetApiBaseUrl(envUrl: Option<string>, configUrl: Option<string>, isDev: bool): (url: string)
    ensures Truthy(envUrl) ==> url == StripTrailingSlash(envUrl.value)
    ensures !Truthy(envUrl) && Truthy(configUrl) ==> url == StripTrailingSlash(configUrl.value)
    ensures !Truthy(envUrl) && !Truthy(configUrl) ==> url == if isDev then DevelopmentApiUrl else ProductionApiUrl
  {
    if Truthy(envUrl) then StripTrailingSlash(envUrl.value)
    else if Truthy(configUrl) then StripTrailingSlash(configUrl.value)
    else if isDev then DevelopmentApiUrl
    else ProductionApiUrl
  }

  /** API_TRPC_URL: the base URL followed by `/trpc`. */
  function ApiTrpcUrl(envUrl: Option<string>, configUrl: Option<string>, isDev: bool): (url: string)
    ensures GetApiBaseUrl(envUrl, configUrl, isDev) <= url
    ensures url[|GetApiBaseUrl(envUrl, configUrl, isDev)|..] == "/trpc"
  {
    GetApiBaseUrl(envUrl, configUrl, isDev) + "/trpc"
  }

  // ---------------------------------------------------------------------------
  // Properties

  /** A truthy environment URL decides alone: the configuration and the
      development flag do not matter. */
  lemma EnvUrlWins(envUrl: Option<string>, config1: Option<string>, config2: Option<string>, dev1: bool, dev2: bool)
    requires Truthy(envUrl)
    ensures GetApiBaseUrl(envUrl, config1, dev1) == GetApiBaseUrl(envUrl, config2, dev2)
    ensures GetApiBaseUrl(envUrl, config1, dev1) <= envUrl.value
  {
  }

  /** An absent or empty environment URL is the same as none at all. */
  lemma EmptyEnvUrlIgnored(configUrl: Option<string>, isDev: bool)
    ensures GetApiBaseUrl(Some(""), configUrl, isDev) == GetApiBaseUrl(None, configUrl, isDev)
  {
  }

  /** With neither URL set, the default depends only on the build. */
  lemma Defaults(envUrl: Option<string>, configUrl: Option<string>)
    requires !Truthy(envUrl) && !Truthy(configUrl)
    ensures GetApiBaseUrl(envUrl, configUrl, true) == "http://localhost:3001"
    ensures GetApiBaseUrl(envUrl, configUrl, false) == "https://api.sungaze.com"
    ensures ApiTrpcUrl(envUrl, configUrl, false) == "https://api.sungaze.com/trpc"
  {
  }

  /** The strip removes at most one slash: it is idempotent exactly on the
      strings that do not end in "//" ("x//" becomes "x/"). */
  lemma StripIdempotentUnlessDoubled(url: string)
    ensures StripTrailingSlash(StripTrailingSlash(url)) == StripTrailingSlash(url)
      <==> !(|url| >= 2 && url[|url| - 2..] == "//")
  {
    if |url| >= 2 && url[|url| - 2..] == "//" {
      assert url[|url| - 2] == '/' && url[|url| - 1] == '/';
      assert EndsWithSlash(StripTrailingSlash(url));
    }
  }

  /** The resolved base URL ends in `/` only when the chosen URL ended in "//",
      so the "without trailing slash" promise holds for every other input. */
  lemma BaseUrlTrailingSlash(envUrl: Option<string>, configUrl: Option<string>, isDev: bool)
    ensures var url := GetApiBaseUrl(envUrl, configUrl, isDev);
      EndsWithSlash(url) ==>
        var chosen := if Truthy(envUrl) then envUrl.value else configUrl.value;
        (Truthy(envUrl) || Truthy(configUrl)) && |chosen| >= 2 && chosen[|chosen| - 2..] == "//"
  {
    var url := GetApiBaseUrl(envUrl, configUrl, isDev);
    if EndsWithSlash(url) {
      assert !EndsWithSlash(DevelopmentApiUrl) && !EndsWithSlash(ProductionApiUrl);
      var chosen := if Truthy(envUrl) then envUrl.value else configUrl.value;
      assert url + "/" == chosen;
      assert chosen[|chosen| - 2] == url[|url| - 1];
    }
  }
}
