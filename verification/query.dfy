/** The `shadertoy` crate's request builders and response handlers
    (shadertoy/src/query.rs): sort-order and filter parsing, the search and
    shader URLs, and the precedence of parse failure, server error and result. */
module Query {
  import opened Wrappers
  import opened Json
  import Text
  import Types

  const RootUrl: string := "https://www.shadertoy.com/api/v1/"

  datatype SortOrder = Name | Love | Popular | Newest | Hot

  datatype Filter = Vr | SoundOutput | SoundInput | Webcam | MultiPass | MusicStream

  /** The derived `Debug` spelling: the variant's name. */
  function SortDebug(s: SortOrder): string {
    match s
    case Name => "Name"
    case Love => "Love"
    case Popular => "Popular"
    case Newest => "Newest"
    case Hot => "Hot"
  }

  function FilterDebug(f: Filter): string {
    match f
    case Vr => "Vr"
    case SoundOutput => "SoundOutput"
    case SoundInput => "SoundInput"
    case Webcam => "Webcam"
    case MultiPass => "MultiPass"
    case MusicStream => "MusicStream"
  }

  /** The spelling `FromStr` accepts for a filter: the Debug name, except "VR" for `Vr`. */
  function FilterName(f: Filter): string {
    if f == Vr then "VR" else FilterDebug(f)
  }

  /** `SearchSortOrder::from_str`: case-sensitive, exactly the five variant names. */
  function ParseSortOrder(s: string): (r: Option<SortOrder>)
    ensures forall o: SortOrder :: r == Some(o) <==> s == SortDebug(o)
  {
    match s
    case "Name" => Some(Name)
    case "Love" => Some(Love)
    case "Popular" => Some(Popular)
    case "Newest" => Some(Newest)
    case "Hot" => Some(Hot)
    case _ => None
  }

  /** `SearchFilter::from_str`: case-sensitive, exactly six spellings. */
  function ParseFilter(s: string): (r: Option<Filter>)
    ensures forall f: Filter :: r == Some(f) <==> s == FilterName(f)
  {
    match s
    case "VR" => Some(Vr)
    case "SoundOutput" => Some(SoundOutput)
    case "SoundInput" => Some(SoundInput)
    case "Webcam" => Some(Webcam)
    case "MultiPass" => Some(MultiPass)
    case "MusicStream" => Some(MusicStream)
    case _ => None
  }

  /** A filter's own Debug spelling parses back to it for every variant but `Vr`,
      whose Debug spelling "Vr" is not accepted. */
  lemma FilterDebugRoundTrip(f: Filter)
    ensures ParseFilter(FilterDebug(f)) == (if f == Vr then None else Some(f))
  {
    if f == Vr {
      assert FilterDebug(Vr) != FilterName(Vr);
      forall g: Filter ensures FilterDebug(Vr) != FilterName(g) {
      }
    }
  }

  // ---------------------------------------------------------------------------
  // URLs

  datatype SearchQuery = SearchQuery(text: string, sort: SortOrder, filters: seq<Filter>, apiKey: string)

  /** The optional `/query/<text>` path segment; the text is inserted verbatim. */
  function QuerySegment(text: string): (r: string)
    ensures text == "" ==> r == ""
    ensures text != "" ==> |r| == 7 + |text| && r[..7] == "/query/" && r[7..] == text
  {
    if text == "" then "" else "/query/" + text
  }

  /** One `filter=<name>&` token, lower-cased as a whole. */
  function FilterToken(f: Filter): string {
    Text.Lower("filter=" + FilterDebug(f) + "&")
  }

  /** The tokens of all filters, in list order, duplicates kept. */
  function FilterTokens(fs: seq<Filter>): string {
    Text.Join(fs, FilterToken)
  }

  /** The spelling of each filter in a URL, written out. */
  function ApiFilterName(f: Filter): string {
    match f
    case Vr => "vr"
    case SoundOutput => "soundoutput"
    case SoundInput => "soundinput"
    case Webcam => "webcam"
    case MultiPass => "multipass"
    case MusicStream => "musicstream"
  }

  function ApiSortName(s: SortOrder): string {
    match s
    case Name => "name"
    case Love => "love"
    case Popular => "popular"
    case Newest => "newest"
    case Hot => "hot"
  }

  lemma SortTokenSpelling(s: SortOrder)
    ensures Text.Lower(SortDebug(s)) == ApiSortName(s)
  {
    match s
    case Name => assert Text.Lower("Name") == "name";
    case Love => assert Text.Lower("Love") == "love";
    case Popular => assert Text.Lower("Popular") == "popular";
    case Newest => assert Text.Lower("Newest") == "newest";
    case Hot => assert Text.Lower("Hot") == "hot";
  }

  lemma FilterTokenSpelling(f: Filter)
    ensures FilterToken(f) == "filter=" + ApiFilterName(f) + "&"
  {
    Text.LowerConcat("filter=", FilterDebug(f));
    Text.LowerConcat("filter=" + FilterDebug(f), "&");
    assert Text.Lower("filter=") == "filter=";
    assert Text.Lower("&") == "&";
    match f
    case Vr => assert Text.Lower("Vr") == "vr";
    case SoundOutput => assert Text.Lower("SoundOutput") == "soundoutput";
    case SoundInput => assert Text.Lower("SoundInput") == "soundinput";
    case Webcam => assert Text.Lower("Webcam") == "webcam";
    case MultiPass => assert Text.Lower("MultiPass") == "multipass";
    case MusicStream => assert Text.Lower("MusicStream") == "musicstream";
  }

  function RawFilterToken(f: Filter): string {
    "filter=" + FilterDebug(f) + "&"
  }

  /** Lower-casing each token and lower-casing the joined tokens agree. */
  lemma {:induction false} FilterTokensLowerJoined(fs: seq<Filter>)
    ensures FilterTokens(fs) == Text.Lower(Text.Join(fs, RawFilterToken))
  {
    if |fs| > 0 {
      FilterTokensLowerJoined(fs[1..]);
      Text.LowerConcat(RawFilterToken(fs[0]), Text.Join(fs[1..], RawFilterToken));
    }
  }

  /** The query string of a search URL: sort token, filter tokens, key. */
  function SearchParams(q: SearchQuery): string {
    "?sort=" + Text.Lower(SortDebug(q.sort)) + "&" + FilterTokens(q.filters) + "key=" + q.apiKey
  }

  /** `SearchQuery::url`. */
  function SearchUrl(q: SearchQuery): string {
    ShadersUrl + QuerySegment(q.text) + SearchParams(q)
  }

  const ShadersUrl: string := RootUrl + "shaders"


  /** The character right after ".../shaders" is '/' exactly when there is search text
      (then the URL continues with "/query/<text>"), and '?' otherwise. */
  lemma SearchUrlSegment(q: SearchQuery)
    ensures |SearchUrl(q)| > |ShadersUrl|
    ensures SearchUrl(q)[..|ShadersUrl|] == ShadersUrl
    ensures SearchUrl(q)[|ShadersUrl|] == (if q.text == "" then '?' else '/')
    ensures q.text != "" ==> SearchUrl(q)[|ShadersUrl| + 7..|ShadersUrl| + 7 + |q.text|] == q.text
  {
    var params := SearchParams(q);
    assert params[0] == '?';
    SegmentAfterBase(ShadersUrl, q.text, params);
  }

  /** The same layout for any base and any query string that starts with '?'. */
  lemma SegmentAfterBase(base: string, text: string, params: string)
    requires |params| > 0 && params[0] == '?'
    ensures var u := base + QuerySegment(text) + params;
      |u| > |base| && u[..|base|] == base && u[|base|] == (if text == "" then '?' else '/')
      && (text != "" ==> u[|base| + 7..|base| + 7 + |text|] == text)
  {
    var rest := QuerySegment(text) + params;
    assert base + QuerySegment(text) + params == base + rest;
    Text.SplitAt(base, rest);
    if text != "" {
      assert rest == "/query/" + (text + params);
      Text.SplitAt("/query/", text + params);
      Text.SplitAt(text, params);
    }
  }

  /** With no filters the query string is `?sort=<s>&key=<k>`. */
  lemma SearchParamsWithoutFilters(q: SearchQuery)
    requires q.filters == []
    ensures SearchParams(q) == "?sort=" + ApiSortName(q.sort) + "&key=" + q.apiKey
  {
    SortTokenSpelling(q.sort);
    assert FilterTokens([]) == "";
  }

  /** Adding a filter to the end of the list appends one token, right before `key=`. */
  lemma FilterTokensSnoc(fs: seq<Filter>, f: Filter)
    ensures FilterTokens(fs + [f]) == FilterTokens(fs) + "filter=" + ApiFilterName(f) + "&"
  {
    Text.JoinSnoc(fs, f, FilterToken);
    FilterTokenSpelling(f);
  }

  /** `ShaderQuery::url`. */
  function ShaderUrl(id: string, apiKey: string): (r: string)
    ensures |r| == |ShadersUrl| + 1 + |id| + 5 + |apiKey|
    ensures r[..|ShadersUrl| + 1] == ShadersUrl + "/"
    ensures r[|ShadersUrl| + 1..|ShadersUrl| + 1 + |id|] == id
    ensures r[|ShadersUrl| + 1 + |id|..] == "?key=" + apiKey
  {
    var r := ShadersUrl + "/" + id + "?key=" + apiKey;
    Text.SplitAt(ShadersUrl + "/", id + "?key=" + apiKey);
    Text.SplitAt(id, "?key=" + apiKey);
    assert r == (ShadersUrl + "/") + (id + ("?key=" + apiKey));
    r
  }

  /** A shader URL and a search URL with the same key never coincide when the
      search has no text: the search URL has no '/' after "shaders". */
  lemma ShaderUrlIsNotSearchUrl(id: string, q: SearchQuery)
    requires q.text == ""
    ensures ShaderUrl(id, q.apiKey) != SearchUrl(q)
  {
    SearchUrlSegment(q);
    var u := ShaderUrl(id, q.apiKey);
    assert u[|ShadersUrl|] == (ShadersUrl + "/")[|ShadersUrl|] == '/';
  }

  // ---------------------------------------------------------------------------
  // Responses

  datatype QueryError = Server(message: string) | JsonParse

  /** The search reply: all three fields default, unknown keys are rejected. */
  datatype SearchResult = SearchResult(error: string, shaders: U64, results: seq<string>)

  const SearchResultKeys: set<string> := {"Error", "Shaders", "Results"}

  /** Field order, every field defaulted, unknown keys denied. */
  const SearchLayout: Layout := Layout(["Error", "Shaders", "Results"], SearchResultKeys, SearchResultKeys, true)

  function EncodeSearchResult(r: SearchResult): Json {
    Obj(map["Error" := Str(r.error), "Shaders" := Num(r.shaders), "Results" := EncodeStrings(r.results)])
  }

  /** Each of the three fields is absent or of the right type. */
  predicate SearchFieldsDecode(o: map<string, Json>) {
    && OptionalFieldDecodes(o, "Error", AsString)
    && OptionalFieldDecodes(o, "Shaders", AsU64)
    && OptionalFieldDecodes(o, "Results", DecodeStrings)
  }

  /** What serde accepts as a `SearchResult`: an object with no key outside the
      three, or an array of at most three elements, whose fields decode. */
  predicate SearchReplyDecodes(j: Json) {
    StructFields(j, SearchLayout).Some? && SearchFieldsDecode(FieldsOf(j, SearchLayout))
  }

  /** The entries a reply is read from: an object's own, or an array's named in field order. */
  function SearchEntries(j: Json): map<string, Json> {
    FieldsOf(j, SearchLayout)
  }

  /** Reads the three fields, each defaulting when absent. */
  function SearchResultFields(o: map<string, Json>): (r: Option<SearchResult>)
    ensures r.Some? <==> SearchFieldsDecode(o)
    ensures r.Some? && "Error" in o ==> o["Error"] == Str(r.value.error)
    ensures r.Some? && "Error" !in o ==> r.value.error == ""
    ensures r.Some? && "Shaders" in o ==> o["Shaders"] == Num(r.value.shaders)
    ensures r.Some? && "Shaders" !in o ==> r.value.shaders == 0
    ensures r.Some? && "Results" in o ==> EncodeStrings(r.value.results) == o["Results"]
    ensures r.Some? && "Results" !in o ==> r.value.results == []
  {
    var error :- Defaulted(o, "Error", AsString, "");
    var shaders :- Defaulted(o, "Shaders", AsU64, 0);
    var results :- Defaulted(o, "Results", DecodeStrings, []);
    Some(SearchResult(error, shaders, results))
  }

  function DecodeSearchResult(j: Json): (r: Option<SearchResult>)
    ensures r.Some? <==> SearchReplyDecodes(j)
    ensures j.Obj? ==> (r.Some? <==> KnownKeysOnly(j.fields, SearchResultKeys) && SearchFieldsDecode(j.fields))
    ensures r.Some? ==> r == SearchResultFields(SearchEntries(j))
  {
    DecodeStruct(j, SearchLayout, SearchResultFields)
  }

  lemma SearchResultRoundTrip(r: SearchResult)
    ensures DecodeSearchResult(EncodeSearchResult(r)) == Some(r)
  {
    var o := EncodeSearchResult(r).fields;
    StringsRoundTrip(r.results);
    assert o.Keys == SearchResultKeys;
    ObjectReadsFields(o, SearchLayout, SearchResultFields);
    assert Defaulted(o, "Error", AsString, "") == Some(r.error);
    assert Defaulted(o, "Shaders", AsU64, 0) == Some(r.shaders);
    assert Defaulted(o, "Results", DecodeStrings, []) == Some(r.results);
  }

  /** `SearchQuery::process_response`. The body is `None` when the text is not
      JSON. A reply that does not decode is a parse error; one that does is a
      server error exactly when it carries a non-empty "Error", and otherwise
      yields its "Results", or nothing when that field is absent. */
  function ProcessSearchResponse(body: Option<Json>): (r: Result<seq<string>, QueryError>)
    ensures r == Err(JsonParse) <==> body.None? || !SearchReplyDecodes(body.value)
    ensures r.Err? && r.error.Server? <==>
      body.Some? && SearchReplyDecodes(body.value) && "Error" in SearchEntries(body.value)
      && SearchEntries(body.value)["Error"] != Str("")
    ensures r.Err? && r.error.Server? ==>
      r.error.message != "" && SearchEntries(body.value)["Error"] == Str(r.error.message)
    ensures r.Ok? && "Results" in SearchEntries(body.value) ==>
      EncodeStrings(r.value) == SearchEntries(body.value)["Results"]
    ensures r.Ok? && "Results" !in SearchEntries(body.value) ==> r.value == []
  {
    match body
    case None => Err(JsonParse)
    case Some(j) =>
      match DecodeSearchResult(j)
      case None => Err(JsonParse)
      case Some(sr) => if sr.error != "" then Err(Server(sr.error)) else Ok(sr.results)
  }

  /** A non-empty error wins over results that are present as well. */
  lemma SearchServerErrorWins(r: SearchResult)
    requires r.error != ""
    ensures ProcessSearchResponse(Some(EncodeSearchResult(r))) == Err(Server(r.error))
  {
    SearchResultRoundTrip(r);
  }

  /** With an empty error the results come back as sent. */
  lemma SearchResultsReturned(r: SearchResult)
    requires r.error == ""
    ensures ProcessSearchResponse(Some(EncodeSearchResult(r))) == Ok(r.results)
  {
    SearchResultRoundTrip(r);
  }

  /** The API's ordinary reply, a count and the ids without any "Error", yields the ids. */
  lemma PlainSearchReply(n: U64, ids: seq<string>)
    ensures ProcessSearchResponse(Some(Obj(map["Shaders" := Num(n), "Results" := EncodeStrings(ids)]))) == Ok(ids)
  {
    var o := map["Shaders" := Num(n), "Results" := EncodeStrings(ids)];
    StringsRoundTrip(ids);
    assert o.Keys == {"Shaders", "Results"};
    ObjectReadsFields(o, SearchLayout, SearchResultFields);
    assert SearchReplyDecodes(Obj(o));
  }

  /** A reply that only counts shaders (no "Results") is an empty list, not an error. */
  lemma SearchMissingResultsIsEmpty(n: U64)
    ensures ProcessSearchResponse(Some(Obj(map["Shaders" := Num(n)]))) == Ok([])
  {
    var o := map["Shaders" := Num(n)];
    assert o.Keys == {"Shaders"};
    ObjectReadsFields(o, SearchLayout, SearchResultFields);
    assert Defaulted(o, "Error", AsString, "") == Some("");
    assert Defaulted(o, "Shaders", AsU64, 0) == Some(n);
    assert Defaulted(o, "Results", DecodeStrings, []) == Some([]);
  }

  /** Every field is defaulted, so the empty array is a reply with no results. */
  lemma SearchEmptyArray()
    ensures ProcessSearchResponse(Some(Arr([]))) == Ok([])
  {
    var o := Positional([], SearchLayout).value;
    assert o == map[];
    assert SearchResultFields(o) == Some(SearchResult("", 0, []));
  }

  /** An array's first element is the "Error" field: `[message]` is a server error. */
  lemma SearchErrorArray(message: string)
    requires message != ""
    ensures ProcessSearchResponse(Some(Arr([Str(message)]))) == Err(Server(message))
  {
    var items := [Str(message)];
    var o := Positional(items, SearchLayout).value;
    NamedAt(SearchLayout.keys[..1], items, 0);
    assert o.Keys == {"Error"};
    assert o["Error"] == Str(message);
    assert SearchResultFields(o) == Some(SearchResult(message, 0, []));
  }

  /** Four elements are one more than the struct has fields. */
  lemma SearchArrayTooLong(items: seq<Json>)
    requires |items| > 3
    ensures ProcessSearchResponse(Some(Arr(items))) == Err(JsonParse)
  {
  }

  /** The shader reply: "Error" defaults to empty, "Shader" is required, unknown keys are rejected. */
  datatype ShaderRoot = ShaderRoot(error: string, shader: Types.Shader)

  const ShaderRootKeys: set<string> := {"Error", "Shader"}

  /** Field order, "Error" defaulted, unknown keys denied. */
  const ShaderRootLayout: Layout := Layout(["Error", "Shader"], ShaderRootKeys, {"Error"}, true)

  function EncodeShaderRoot(r: ShaderRoot): Json {
    Obj(map["Error" := Str(r.error), "Shader" := Types.EncodeShader(r.shader)])
  }

  /** An optional string "Error" and a required, decodable "Shader". */
  predicate ShaderFieldsDecode(o: map<string, Json>) {
    OptionalFieldDecodes(o, "Error", AsString) && FieldDecodes(o, "Shader", Types.DecodeShader)
  }

  /** What serde accepts as a `ShaderRoot`: an object with no key besides the
      two, or an array of one or two elements, whose fields decode. */
  predicate ShaderReplyDecodes(j: Json) {
    StructFields(j, ShaderRootLayout).Some? && ShaderFieldsDecode(FieldsOf(j, ShaderRootLayout))
  }

  function ShaderEntries(j: Json): map<string, Json> {
    FieldsOf(j, ShaderRootLayout)
  }

  function ShaderRootFields(o: map<string, Json>): (r: Option<ShaderRoot>)
    ensures r.Some? <==> ShaderFieldsDecode(o)
    ensures r.Some? && "Error" in o ==> o["Error"] == Str(r.value.error)
    ensures r.Some? && "Error" !in o ==> r.value.error == ""
    ensures r.Some? ==> Types.DecodeShader(o["Shader"]) == Some(r.value.shader)
  {
    var error :- Defaulted(o, "Error", AsString, "");
    var shader :- Required(o, "Shader", Types.DecodeShader);
    Some(ShaderRoot(error, shader))
  }

  function DecodeShaderRoot(j: Json): (r: Option<ShaderRoot>)
    ensures r.Some? <==> ShaderReplyDecodes(j)
    ensures j.Obj? ==> (r.Some? <==> KnownKeysOnly(j.fields, ShaderRootKeys) && ShaderFieldsDecode(j.fields))
    ensures r.Some? ==> r == ShaderRootFields(ShaderEntries(j))
  {
    DecodeStruct(j, ShaderRootLayout, ShaderRootFields)
  }

  lemma ShaderRootRoundTrip(r: ShaderRoot)
    ensures DecodeShaderRoot(EncodeShaderRoot(r)) == Some(r)
  {
    var o := EncodeShaderRoot(r).fields;
    Types.ShaderRoundTrip(r.shader);
    assert o.Keys == ShaderRootKeys;
    ObjectReadsFields(o, ShaderRootLayout, ShaderRootFields);
    assert Defaulted(o, "Error", AsString, "") == Some(r.error);
    assert Required(o, "Shader", Types.DecodeShader) == Some(r.shader);
  }

  /** `ShaderQuery::process_response`: a reply that does not decode is a parse
      error; one that does is a server error exactly when it carries a
      non-empty "Error", and otherwise yields the shader its "Shader" decodes to. */
  function ProcessShaderResponse(body: Option<Json>): (r: Result<Types.Shader, QueryError>)
    ensures r == Err(JsonParse) <==> body.None? || !ShaderReplyDecodes(body.value)
    ensures r.Err? && r.error.Server? <==>
      body.Some? && ShaderReplyDecodes(body.value) && "Error" in ShaderEntries(body.value)
      && ShaderEntries(body.value)["Error"] != Str("")
    ensures r.Err? && r.error.Server? ==>
      r.error.message != "" && ShaderEntries(body.value)["Error"] == Str(r.error.message)
    ensures r.Ok? ==> Types.DecodeShader(ShaderEntries(body.value)["Shader"]) == Some(r.value)
  {
    match body
    case None => Err(JsonParse)
    case Some(j) =>
      match DecodeShaderRoot(j)
      case None => Err(JsonParse)
      case Some(sr) => if sr.error != "" then Err(Server(sr.error)) else Ok(sr.shader)
  }

  /** An error reply without a shader is a parse failure, not a server error,
      because the shader field is required. */
  lemma ShaderErrorWithoutShader(message: string)
    ensures ProcessShaderResponse(Some(Obj(map["Error" := Str(message)]))) == Err(JsonParse)
  {
    var o := map["Error" := Str(message)];
    assert "Shader" !in o;
  }

  /** The ordinary reply, a shader without any "Error", yields that shader. */
  lemma PlainShaderReply(s: Types.Shader)
    ensures ProcessShaderResponse(Some(Obj(map["Shader" := Types.EncodeShader(s)]))) == Ok(s)
  {
    var o := map["Shader" := Types.EncodeShader(s)];
    ShaderOnlyObject(Types.EncodeShader(s));
    Types.ShaderRoundTrip(s);
    assert Required(o, "Shader", Types.DecodeShader) == Some(s);
    assert ShaderRootFields(o) == Some(ShaderRoot("", s));
  }

  /** An object holding only "Shader" is read from its one entry. */
  lemma ShaderOnlyObject(x: Json)
    ensures DecodeShaderRoot(Obj(map["Shader" := x])) == ShaderRootFields(map["Shader" := x])
  {
    var o := map["Shader" := x];
    assert KnownKeysOnly(o, ShaderRootKeys);
    ObjectReadsFields(o, ShaderRootLayout, ShaderRootFields);
  }

  lemma ShaderServerErrorWins(r: ShaderRoot)
    requires r.error != ""
    ensures ProcessShaderResponse(Some(EncodeShaderRoot(r))) == Err(Server(r.error))
  {
    ShaderRootRoundTrip(r);
  }

  lemma ShaderReturned(s: Types.Shader)
    ensures ProcessShaderResponse(Some(EncodeShaderRoot(ShaderRoot("", s)))) == Ok(s)
  {
    ShaderRootRoundTrip(ShaderRoot("", s));
  }

  /** In the array shape the error comes first: `["", shader]` is read as the
      object `{"Error": "", "Shader": shader}` and yields the shader. */
  lemma ShaderArrayReply(s: Types.Shader)
    ensures ProcessShaderResponse(Some(Arr([Str(""), Types.EncodeShader(s)]))) == Ok(s)
  {
    var items := [Str(""), Types.EncodeShader(s)];
    var o := map["Error" := items[0], "Shader" := items[1]];
    ShaderArrayNamesFields(items);
    ShaderRootRoundTrip(ShaderRoot("", s));
    assert o == EncodeShaderRoot(ShaderRoot("", s)).fields;
    assert DecodeShaderRoot(Arr(items)) == DecodeShaderRoot(Obj(o));
  }

  /** `[e, shader]` is read as `{"Error": e, "Shader": shader}`. */
  lemma ShaderArrayNamesFields(items: seq<Json>)
    requires |items| == 2
    ensures StructFields(Arr(items), ShaderRootLayout) == StructFields(Obj(map["Error" := items[0], "Shader" := items[1]]), ShaderRootLayout)
  {
    var o := Positional(items, ShaderRootLayout).value;
    assert ShaderRootLayout.keys[..2] == ShaderRootLayout.keys;
    NamedAt(ShaderRootLayout.keys, items, 0);
    NamedAt(ShaderRootLayout.keys, items, 1);
    assert o == map["Error" := items[0], "Shader" := items[1]];
    assert KnownKeysOnly(o, ShaderRootKeys);
  }

  /** `[shader]` leaves the required "Shader" field unfilled. */
  lemma ShaderArrayMissingShader(shader: Json)
    ensures ProcessShaderResponse(Some(Arr([shader]))) == Err(JsonParse)
  {
    assert ShaderRootLayout.keys[1] !in ShaderRootLayout.defaulted;
    assert Positional([shader], ShaderRootLayout).None?;
  }
}
