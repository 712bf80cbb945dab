/** The older client bundled with the browser (src/shadertoy/src/client.rs).
    Same parsers and URL format as the `shadertoy` crate, but its replies are
    decoded leniently: unknown keys are ignored, "Results" is required and the
    "Error" field is never looked at. Its shader schema lives in a file that is
    not part of this model, so the shader decoder is a parameter. */
module LegacyClient {
  import opened Wrappers
  import opened Json
  import Text
  import Query
  import Client

  function ParseSortOrder(s: string): Option<Query.SortOrder> {
    match s
    case "Name" => Some(Query.Name)
    case "Love" => Some(Query.Love)
    case "Popular" => Some(Query.Popular)
    case "Newest" => Some(Query.Newest)
    case "Hot" => Some(Query.Hot)
    case _ => None
  }

  function ParseFilter(s: string): Option<Query.Filter> {
    match s
    case "VR" => Some(Query.Vr)
    case "SoundOutput" => Some(Query.SoundOutput)
    case "SoundInput" => Some(Query.SoundInput)
    case "Webcam" => Some(Query.Webcam)
    case "MultiPass" => Some(Query.MultiPass)
    case "MusicStream" => Some(Query.MusicStream)
    case _ => None
  }

  /** The older parsers accept exactly the strings the newer crate accepts. */
  lemma ParsersAgree(s: string)
    ensures ParseSortOrder(s) == Client.ParseSortOrder(s)
    ensures ParseFilter(s) == Client.ParseFilter(s)
  {
  }

  const ShadersUrl: string := "https://www.shadertoy.com/api/v1/shaders"

  /** The URL `Client::search` formats (and prints). */
  function SearchUrl(apiKey: string, p: Client.SearchParams): string {
    ShadersUrl
      + (if p.text == "" then "" else "/query/" + p.text)
      + "?sort=" + Text.Lower(Query.SortDebug(p.sort)) + "&"
      + Text.Join(p.filters, Query.FilterToken) + "key=" + apiKey
  }

  function ShaderUrl(apiKey: string, id: string): string {
    ShadersUrl + "/" + id + "?key=" + apiKey
  }

  lemma BaseUrlAgrees()
    ensures ShadersUrl == Query.ShadersUrl
  {
  }

  /** The older search URL has the same shape as `SearchQuery::url`. */
  lemma SearchUrlAgrees(apiKey: string, p: Client.SearchParams)
    ensures SearchUrl(apiKey, p) == Query.SearchUrl(Query.SearchQuery(p.text, p.sort, p.filters, apiKey))
  {
    BaseUrlAgrees();
    Client.BaseUrlAgrees();
    Client.SearchUrlAgrees(apiKey, p);
    assert SearchUrl(apiKey, p) == Client.SearchUrl(apiKey, p);
  }

  lemma ShaderUrlAgrees(apiKey: string, id: string)
    ensures ShaderUrl(apiKey, id) == Query.ShaderUrl(id, apiKey)
  {
    BaseUrlAgrees();
  }

  /** `Box<dyn Error>` reduced to where the failure came from. */
  datatype LegacyError = Http | Decode

  /** The local `SearchResult`: one required field, "Results", in an object
      whose other keys are ignored or in a one-element array. */
  const ResultsLayout: Layout := Layout(["Results"], {"Results"}, {}, false)

  /** The entries a reply is read from. */
  function ResultsEntries(j: Json): map<string, Json> {
    FieldsOf(j, ResultsLayout)
  }

  /** What the local `SearchResult` accepts: a reply whose "Results" is a list
      of strings, whatever else an object holds. */
  predicate ResultsDecode(j: Json) {
    StructFields(j, ResultsLayout).Some? && "Results" in ResultsEntries(j)
    && DecodeStrings(ResultsEntries(j)["Results"]).Some?
  }

  function ResultsField(o: map<string, Json>): Option<seq<string>> {
    Required(o, "Results", DecodeStrings)
  }

  function DecodeSearchResult(j: Json): (r: Option<seq<string>>)
    ensures r.Some? <==> ResultsDecode(j)
    ensures j.Obj? ==> (r.Some? <==> "Results" in j.fields && DecodeStrings(j.fields["Results"]).Some?)
    ensures r.Some? ==> EncodeStrings(r.value) == ResultsEntries(j)["Results"]
  {
    DecodeStruct(j, ResultsLayout, ResultsField)
  }

  /** `Client::search`: a failed request is an HTTP error; a body is a decode
      error unless its "Results" is a list of strings, which is returned. */
  function Search(apiKey: string, p: Client.SearchParams, fetch: string -> Reply): (r: Result<seq<string>, LegacyError>)
    ensures r == Err(Http) <==> fetch(SearchUrl(apiKey, p)).TransportError?
    ensures r.Ok? <==> fetch(SearchUrl(apiKey, p)).Received? && fetch(SearchUrl(apiKey, p)).body.Some?
                       && ResultsDecode(fetch(SearchUrl(apiKey, p)).body.value)
    ensures r.Ok? ==> EncodeStrings(r.value) == ResultsEntries(fetch(SearchUrl(apiKey, p)).body.value)["Results"]
  {
    match fetch(SearchUrl(apiKey, p))
    case TransportError => Err(Http)
    case Received(None) => Err(Decode)
    case Received(Some(j)) =>
      match DecodeSearchResult(j)
      case None => Err(Decode)
      case Some(ids) => Ok(ids)
  }

  /** A reply with results and nothing else yields those results. */
  lemma PlainResultsReply(apiKey: string, p: Client.SearchParams, fetch: string -> Reply, ids: seq<string>)
    requires fetch(SearchUrl(apiKey, p)) == Received(Some(Obj(map["Results" := EncodeStrings(ids)])))
    ensures Search(apiKey, p, fetch) == Ok(ids)
  {
    StringsRoundTrip(ids);
  }

  /** A body without "Results" is a decode error, whatever else it holds. */
  lemma MissingResultsIsDecodeError(apiKey: string, p: Client.SearchParams, fetch: string -> Reply,
                                    o: map<string, Json>)
    requires fetch(SearchUrl(apiKey, p)) == Received(Some(Obj(o))) && "Results" !in o
    ensures Search(apiKey, p, fetch) == Err(Decode)
  {
  }

  /** Where the two clients part ways on the same reply. An error reply without
      results fails in both, but only the newer client reports the server's message. */
  lemma ErrorReplyWithoutResults(apiKey: string, p: Client.SearchParams, fetch: string -> Reply, message: string)
    requires message != ""
    requires fetch(SearchUrl(apiKey, p)) == Received(Some(Obj(map["Error" := Str(message)])))
    ensures Search(apiKey, p, fetch) == Err(Decode)
    ensures Client.Search(apiKey, p, fetch) == Err(Client.Message(Client.SearchErrorPrefix + message))
  {
    SearchUrlAgrees(apiKey, p);
    Client.SearchUrlAgrees(apiKey, p);
    var o := map["Error" := Str(message)];
    assert o.Keys == {"Error"};
    assert Defaulted(o, "Error", AsString, "") == Some(message);
    assert Defaulted(o, "Shaders", AsU64, 0) == Some(0);
    assert Defaulted(o, "Results", DecodeStrings, []) == Some([]);
  }

  /** A reply carrying both an error and results: the older client returns the
      results, the newer one the error. */
  lemma ErrorReplyWithResults(apiKey: string, p: Client.SearchParams, fetch: string -> Reply, r: Query.SearchResult)
    requires r.error != ""
    requires fetch(SearchUrl(apiKey, p)) == Received(Some(Query.EncodeSearchResult(r)))
    ensures Search(apiKey, p, fetch) == Ok(r.results)
    ensures Client.Search(apiKey, p, fetch) == Err(Client.Message(Client.SearchErrorPrefix + r.error))
  {
    SearchUrlAgrees(apiKey, p);
    Client.SearchUrlAgrees(apiKey, p);
    Query.SearchResultRoundTrip(r);
    StringsRoundTrip(r.results);
  }

  /** Keys other than "Results" never change the older client's answer. */
  lemma SearchIgnoresOtherKeys(o: map<string, Json>, k: string, v: Json)
    requires k != "Results"
    ensures DecodeSearchResult(Obj(o[k := v])) == DecodeSearchResult(Obj(o))
  {
  }

  /** The one-element array `[ids]` is a reply holding those results; a longer
      array is a decode error. */
  lemma ResultsArrayReply(apiKey: string, p: Client.SearchParams, fetch: string -> Reply, ids: seq<string>, rest: seq<Json>)
    requires fetch(SearchUrl(apiKey, p)) == Received(Some(Arr([EncodeStrings(ids)] + rest)))
    ensures Search(apiKey, p, fetch) == if rest == [] then Ok(ids) else Err(Decode)
  {
    var items := [EncodeStrings(ids)] + rest;
    StringsRoundTrip(ids);
    if rest == [] {
      assert ResultsLayout.keys[..1] == ResultsLayout.keys;
      NamedAt(ResultsLayout.keys, items, 0);
      assert ResultsField(Positional(items, ResultsLayout).value) == Some(ids);
    }
  }

  /** The local `ShaderRoot`: one required field, "Shader". */
  const RootLayout: Layout := Layout(["Shader"], {"Shader"}, {}, false)

  function RootEntries(j: Json): map<string, Json> {
    FieldsOf(j, RootLayout)
  }

  /** `Client::get_shader`, for any shader type `S` and its decoder. */
  function GetShader<S(==)>(apiKey: string, id: string, fetch: string -> Reply, decodeShader: Json -> Option<S>)
    : (r: Result<S, LegacyError>)
    ensures r.Ok? ==> (fetch(ShaderUrl(apiKey, id)).Received? && fetch(ShaderUrl(apiKey, id)).body.Some?
                       && Covers(RootEntries(fetch(ShaderUrl(apiKey, id)).body.value), "Shader", decodeShader, r.value))
    ensures forall j :: (fetch(ShaderUrl(apiKey, id)) == Received(Some(j)) && "Shader" in RootEntries(j)
                         && decodeShader(RootEntries(j)["Shader"]).Some?) ==> r == Ok(decodeShader(RootEntries(j)["Shader"]).value)
    ensures forall j :: fetch(ShaderUrl(apiKey, id)) == Received(Some(j)) && j.Obj? ==> RootEntries(j) == j.fields
    ensures fetch(ShaderUrl(apiKey, id)).TransportError? ==> r == Err(Http)
  {
    match fetch(ShaderUrl(apiKey, id))
    case TransportError => Err(Http)
    case Received(None) => Err(Decode)
    case Received(Some(j)) =>
      match DecodeStruct(j, RootLayout, (o: map<string, Json>) => Required(o, "Shader", decodeShader))
      case None => Err(Decode)
      case Some(s) => Ok(s)
  }

  /** The entries hold `key`, which decodes to `value`. */
  predicate Covers<S(==)>(o: map<string, Json>, key: string, decode: Json -> Option<S>, value: S) {
    key in o && decode(o[key]) == Some(value)
  }

  /** The one-element array `[shader]` is read like `{"Shader": shader}`. */
  lemma ShaderArrayReply<S>(apiKey: string, id: string, fetch: string -> Reply, decodeShader: Json -> Option<S>,
                                shader: Json, s: S)
    requires fetch(ShaderUrl(apiKey, id)) == Received(Some(Arr([shader]))) && decodeShader(shader) == Some(s)
    ensures GetShader(apiKey, id, fetch, decodeShader) == Ok(s)
  {
    assert RootLayout.keys[..1] == RootLayout.keys;
    NamedAt(RootLayout.keys, [shader], 0);
    assert RootEntries(Arr([shader]))["Shader"] == shader;
  }
}
