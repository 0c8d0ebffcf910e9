/** The HTTP client of src/api/axios.js: which server it talks to and the Authorization
    header its request interceptor adds. */
module ApiClient {
  import opened Js
  import opened Text

  const ProductionUrl: string := "https://back-sisconi.com"
  const LocalUrl: string := "http://127.0.0.1:8000"

  /** The request timeout, in milliseconds. */
  const TimeoutMs: nat := 20000

  /** The server used when no URL is configured: production when the page is served from
      Vercel or over HTTPS, the local development server otherwise. */
  function Fallback(hostname: string, protocol: string): (url: string)
    ensures url == ProductionUrl <==> Contains(hostname, "vercel.app") || protocol == "https:"
    ensures url == LocalUrl <==> !(Contains(hostname, "vercel.app") || protocol == "https:")
  {
    assert ProductionUrl[4] == 's' && LocalUrl[4] == ':';
    if Contains(hostname, "vercel.app") || protocol == "https:" then ProductionUrl else LocalUrl
  }

  /** `s.replace(/\/$/, "")`: one "/" at the very end is dropped. */
  function StripTrailingSlash(s: string): (r: string)
    ensures s != [] && s[|s| - 1] == '/' ==> r + "/" == s
    ensures (s == [] || s[|s| - 1] != '/') ==> r == s
  {
    if s != [] && s[|s| - 1] == '/' then s[..|s| - 1] else s
  }

  /** Only one slash goes: "x//" becomes "x/". */
  lemma StripsOneSlashOnly(s: string)
    ensures StripTrailingSlash(s + "//") == s + "/"
  {
    assert (s + "//")[..|s| + 1] == s + "/";
  }

  /** `baseURL`: the configured `VITE_API_URL` when it is set and non-empty, the fallback
      otherwise, without its trailing "/". */
  function BaseUrl(envUrl: Option<string>, hostname: string, protocol: string): (url: string)
    ensures envUrl.Some? && envUrl.value != "" ==> url == StripTrailingSlash(envUrl.value)
    ensures envUrl.None? || envUrl.value == "" ==> url == Fallback(hostname, protocol)
  {
    var chosen := if envUrl.Some? && envUrl.value != "" then envUrl.value else Fallback(hostname, protocol);
    assert ProductionUrl[|ProductionUrl| - 1] == 'm' && LocalUrl[|LocalUrl| - 1] == '0';
    StripTrailingSlash(chosen)
  }

  /** The configuration object a request passes through the interceptor. */
  class RequestConfig {
    var headers: map<string, string>

    constructor (headers: map<string, string>)
      ensures this.headers == headers
    {
      this.headers := headers;
    }
  }

  /** The request interceptor: with a non-empty stored token it sets
      `Authorization: Bearer <token>` on the configuration itself, and hands the same object on. */
  method Intercept(config: RequestConfig, token: Option<string>) returns (out: RequestConfig)
    modifies config
    ensures out == config
    ensures token.Some? && token.value != "" ==>
      config.headers == old(config.headers)["Authorization" := "Bearer " + token.value]
    ensures token.None? || token.value == "" ==> config.headers == old(config.headers)
  {
    if token.Some? && token.value != "" {
      config.headers := config.headers["Authorization" := "Bearer " + token.value];
    }
    return config;
  }
}
