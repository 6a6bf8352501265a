/**
 * The decisions main.ts takes about a request before any I/O: whether
 * `httpRequest` hands `fetch` a body, which URL `fetchSites` asks, and how
 * `fetchSites` normalises the decoded response.
 */
module Requests {
  import opened Wrappers
  import opened Json

  /** The options object passed to `fetch`; `body` is absent for bodiless methods. */
  datatype FetchInit = FetchInit(httpMethod: string, headers: map<string, string>, body: Option<string>)

  /** The exact (case-sensitive) method names for which no body is sent. */
  predicate IsBodylessMethod(httpMethod: string)
    ensures IsBodylessMethod(httpMethod) ==> forall i :: 0 <= i < |httpMethod| ==> 'A' <= httpMethod[i] <= 'Z'
  {
    httpMethod == "GET" || httpMethod == "DELETE" || httpMethod == "HEAD"
  }

  /** The two `fetch` calls of `httpRequest`: the same method and headers, the body only for other methods. */
  function BuildFetchInit(httpMethod: string, headers: map<string, string>, body: string): (init: FetchInit)
    ensures init.httpMethod == httpMethod && init.headers == headers
    ensures init.body.None? <==> IsBodylessMethod(httpMethod)
    ensures init.body.Some? ==> init.body.value == body
  {
    if IsBodylessMethod(httpMethod) then FetchInit(httpMethod, headers, None)
    else FetchInit(httpMethod, headers, Some(body))
  }

  /** The comparison is exact: a lower-case `get` sends its body, and so does every POST main.ts makes. */
  lemma BodyRuleExamples(headers: map<string, string>, body: string)
    ensures BuildFetchInit("GET", headers, body).body == None
    ensures BuildFetchInit("HEAD", headers, body).body == None
    ensures BuildFetchInit("DELETE", headers, body).body == None
    ensures BuildFetchInit("POST", headers, body).body == Some(body)
    ensures BuildFetchInit("get", headers, body).body == Some(body)
  {
  }

  const SitesPath: string := "/v1/sites"

  /**
   * The URL of `fetchSites`: the per-domain endpoint when a domain is given
   * and non-empty (JavaScript truthiness), the list endpoint otherwise.
   */
  function SitesUrl(apiUrl: string, domain: Option<string>): (url: string)
    ensures apiUrl + SitesPath <= url
    ensures domain.None? || domain.value == "" ==> url == apiUrl + SitesPath
    ensures domain.Some? && domain.value != "" ==> url == apiUrl + SitesPath + "/" + domain.value
  {
    match domain
    case Some(d) => if d != "" then apiUrl + SitesPath + "/" + d else apiUrl + SitesPath
    case None => apiUrl + SitesPath
  }

  /** Which site a sites URL under `apiUrl` asks for: `None` for the list endpoint. */
  function RequestedDomain(apiUrl: string, url: string): (domain: Option<string>)
    requires apiUrl + SitesPath <= url
    ensures domain.Some? ==> domain.value != ""
  {
    var rest := url[|apiUrl + SitesPath|..];
    if |rest| >= 2 && rest[0] == '/' then Some(rest[1..]) else None
  }

  /** The URL names the given site, or none when the domain is missing or empty. */
  lemma SitesUrlRoundTrip(apiUrl: string, domain: Option<string>)
    ensures RequestedDomain(apiUrl, SitesUrl(apiUrl, domain))
      == if domain.Some? && domain.value != "" then domain else None
  {
    var url := SitesUrl(apiUrl, domain);
    var n := |apiUrl + SitesPath|;
    if domain.Some? && domain.value != "" {
      assert url == (apiUrl + SitesPath) + ("/" + domain.value);
      assert url[n..] == "/" + domain.value;
    } else {
      assert url[n..] == [];
    }
  }

  /** Distinct sites are asked for at distinct URLs, and never at the list URL. */
  lemma SitesUrlDistinguishesDomains(apiUrl: string, d1: string, d2: string)
    requires d1 != "" && d1 != d2
    ensures SitesUrl(apiUrl, Some(d1)) != SitesUrl(apiUrl, Some(d2))
    ensures SitesUrl(apiUrl, Some(d1)) != SitesUrl(apiUrl, None)
  {
    SitesUrlRoundTrip(apiUrl, Some(d1));
    SitesUrlRoundTrip(apiUrl, Some(d2));
    SitesUrlRoundTrip(apiUrl, None);
  }

  const InvalidSitesResponse: string := "Invalid response format: expected an array or object"

  /**
   * `fetchSites` after decoding: an array is returned as it is, any other
   * object (not `null`) is wrapped in a one-element list, and every other
   * value is an error.
   */
  function NormalizeSites(data: JsonValue): (r: Result<seq<JsonValue>, string>)
    ensures data.JArray? ==> r == Success(data.items)
    ensures data.JObject? ==> r == Success([data])
    ensures r.Failure? <==> !(data.JArray? || data.JObject?)
    ensures r.Failure? ==> r.error == InvalidSitesResponse
  {
    match data
    case JArray(items) => Success(items)
    case JObject(_) => Success([data])
    case _ => Failure(InvalidSitesResponse)
  }

  /** A normalised response is a fixed point: normalising it again as an array gives it back. */
  lemma NormalizeSitesIdempotent(data: JsonValue)
    requires NormalizeSites(data).Success?
    ensures NormalizeSites(JArray(NormalizeSites(data).value)) == NormalizeSites(data)
  {
  }
}
