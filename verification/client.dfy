/** The `shadertoy` crate's blocking `Client` (shadertoy/src/client.rs). It
    repeats the parsers and URL formats of the query module with the root URL
    written out, and reports errors through the crate's error chain. The HTTP
    exchange is a parameter: `fetch` maps a URL to what came back. */
module Client {
  import opened Wrappers
  import opened Json
  import Text
  import Types
  import Query

  /** `SearchSortOrder::from_str` as this file writes it. */
  function ParseSortOrder(s: string): Option<Query.SortOrder> {
    match s
    case "Name" => Some(Query.Name)
    case "Love" => Some(Query.Love)
    case "Popular" => Some(Query.Popular)
    case "Newest" => Some(Query.Newest)
    case "Hot" => Some(Query.Hot)
    case _ => None
  }

  /** `SearchFilter::from_str` as this file writes it. */
  function ParseFilter(s: string): Option<Query.Filter> {
    match s
    case "VR" => Some(Query.Vr)
    case "SoundOutput" => Some(Query.SoundOutput)
    case "SoundInput" => Some(Query.SoundInput)
    case "Webcam" => Some(Query.Webcam)
    case "MultiPass" => Some(Query.MultiPass)
    case "MusicStream" => Some(Query.MusicStream)
    case _ => None
  }

  /** Both files accept exactly the same strings, with the same meaning. */
  lemma ParsersAgree(s: string)
    ensures ParseSortOrder(s) == Query.ParseSortOrder(s)
    ensures ParseFilter(s) == Query.ParseFilter(s)
  {
  }

  datatype SearchParams = SearchParams(text: string, sort: Query.SortOrder, filters: seq<Query.Filter>)

  /** The start of both URLs, which this file spells out in full. */
  const ShadersUrl: string := "https://www.shadertoy.com/api/v1/shaders"

  /** The URL `Client::search` formats. */
  function SearchUrl(apiKey: string, p: SearchParams): string {
    ShadersUrl
      + (if p.text == "" then "" else "/query/" + p.text)
      + "?sort=" + Text.Lower(Query.SortDebug(p.sort)) + "&"
      + Text.Join(p.filters, Query.FilterToken) + "key=" + apiKey
  }

  /** The URL `Client::get_shader` formats. */
  function ShaderUrl(apiKey: string, id: string): string {
    ShadersUrl + "/" + id + "?key=" + apiKey
  }

  /** The hard-coded search URL is the query module's `SearchQuery::url`. */
  lemma SearchUrlAgrees(apiKey: string, p: SearchParams)
    ensures SearchUrl(apiKey, p) == Query.SearchUrl(Query.SearchQuery(p.text, p.sort, p.filters, apiKey))
  {
    var q := Query.SearchQuery(p.text, p.sort, p.filters, apiKey);
    var head := ShadersUrl + (if p.text == "" then "" else "/query/" + p.text);
    var sort := Text.Lower(Query.SortDebug(p.sort));
    var tokens := Text.Join(p.filters, Query.FilterToken);
    BaseUrlAgrees();
    assert head == Query.ShadersUrl + Query.QuerySegment(p.text);
    Text.AppendTail(head, "?sort=", sort);
    Text.AppendTail(head, "?sort=" + sort, "&");
    Text.AppendTail(head, "?sort=" + sort + "&", tokens);
    Text.AppendTail(head, "?sort=" + sort + "&" + tokens, "key=");
    Text.AppendTail(head, "?sort=" + sort + "&" + tokens + "key=", apiKey);
    assert SearchUrl(apiKey, p) == head + Query.SearchParams(q);
  }

  lemma BaseUrlAgrees()
    ensures ShadersUrl == Query.ShadersUrl
  {
  }

  /** The hard-coded shader URL is the query module's `ShaderQuery::url`. */
  lemma ShaderUrlAgrees(apiKey: string, id: string)
    ensures ShaderUrl(apiKey, id) == Query.ShaderUrl(id, apiKey)
  {
    BaseUrlAgrees();
  }

  /** The crate's error chain, reduced to what can be told apart:
      a reqwest failure (transport, or `json::<T>()` failing to decode),
      a `bail!` message, or a serde error chained under a context message. */
  datatype ClientError = Http | Message(text: string) | JsonChained(context: string)

  const SearchErrorPrefix: string := "Shadertoy REST search query returned error: "
  const ShaderErrorPrefix: string := "Shadertoy REST shader query returned error: "
  const SearchParseContext: string := "JSON parsing of Shadertoy search result failed"

  /** `Client::search`. */
  function Search(apiKey: string, p: SearchParams, fetch: string -> Reply): (r: Result<seq<string>, ClientError>)
    ensures fetch(SearchUrl(apiKey, p)).TransportError? ==> r == Err(Http)
    ensures r.Err? && r.error.Message? ==>
      |r.error.text| > |SearchErrorPrefix| && r.error.text[..|SearchErrorPrefix|] == SearchErrorPrefix
  {
    match fetch(SearchUrl(apiKey, p))
    case TransportError => Err(Http)
    case Received(None) => Err(JsonChained(SearchParseContext))
    case Received(Some(j)) =>
      match Query.DecodeSearchResult(j)
      case None => Err(JsonChained(SearchParseContext))
      case Some(sr) =>
        if sr.error != "" then Err(Message(SearchErrorPrefix + sr.error)) else Ok(sr.results)
  }

  /** How a search outcome of the query module reads in this client's error chain. */
  function SearchOutcome(r: Result<seq<string>, Query.QueryError>): Result<seq<string>, ClientError> {
    match r
    case Ok(ids) => Ok(ids)
    case Err(Server(m)) => Err(Message(SearchErrorPrefix + m))
    case Err(JsonParse) => Err(JsonChained(SearchParseContext))
  }

  /** Once a body has arrived, `Client::search` decides exactly as
      `SearchQuery::process_response` does: same precedence, same results. */
  lemma SearchAgreesWithQuery(apiKey: string, p: SearchParams, fetch: string -> Reply)
    requires fetch(SearchUrl(apiKey, p)).Received?
    ensures Search(apiKey, p, fetch)
      == SearchOutcome(Query.ProcessSearchResponse(fetch(SearchUrl(apiKey, p)).body))
  {
  }

  /** `Client::get_shader`. Decoding happens inside reqwest's `json::<T>()`, so a
      malformed body is a reqwest error like a failed transfer. */
  function GetShader(apiKey: string, id: string, fetch: string -> Reply): (r: Result<Types.Shader, ClientError>)
    ensures r.Ok? ==> fetch(ShaderUrl(apiKey, id)).Received?
    ensures r.Err? && r.error.Message? ==>
      |r.error.text| > |ShaderErrorPrefix| && r.error.text[..|ShaderErrorPrefix|] == ShaderErrorPrefix
    ensures !r.Err? || !r.error.JsonChained?
  {
    match fetch(ShaderUrl(apiKey, id))
    case TransportError => Err(Http)
    case Received(None) => Err(Http)
    case Received(Some(j)) =>
      match Query.DecodeShaderRoot(j)
      case None => Err(Http)
      case Some(sr) =>
        if sr.error != "" then Err(Message(ShaderErrorPrefix + sr.error)) else Ok(sr.shader)
  }

  function ShaderOutcome(r: Result<Types.Shader, Query.QueryError>): Result<Types.Shader, ClientError> {
    match r
    case Ok(s) => Ok(s)
    case Err(Server(m)) => Err(Message(ShaderErrorPrefix + m))
    case Err(JsonParse) => Err(Http)
  }

  /** `Client::get_shader` and `ShaderQuery::process_response` agree on every body. */
  lemma GetShaderAgreesWithQuery(apiKey: string, id: string, fetch: string -> Reply)
    requires fetch(ShaderUrl(apiKey, id)).Received?
    ensures GetShader(apiKey, id, fetch)
      == ShaderOutcome(Query.ProcessShaderResponse(fetch(ShaderUrl(apiKey, id)).body))
  {
  }
}
