/** The downloader half of `src/main.rs`: find shader ids with one catalog
    query, fetch (or reuse) each shader's JSON, assemble and convert every
    render pass, download texture assets, and collect the Metal sources the
    viewer can show. HTTP is a `fetch` parameter, the compiler stages are a
    `Toolchain`, and the `output/` directory is three abstract stores: the
    cached query replies, the shader JSON files and the asset paths. */
module Ingest {
  import opened Wrappers
  import opened Json
  import Text
  import Query
  import BrowserSchema
  import GlslSource
  import MetalBackend
  import Render

  // ---------------------------------------------------------------------------
  // The catalog query.

  /** The API root as `src/main.rs` spells it out. */
  const ShadersUrl: string := "https://www.shadertoy.com/api/v1/shaders"

  lemma ShadersUrlAgrees()
    ensures ShadersUrl == Query.ShadersUrl
  {
  }

  /** The URL of the one catalog query: a `/query/<search>` path when a search
      string was given, else the whole catalog. */
  function QueryUrl(search: Option<string>, apiKey: string): string {
    match search
    case Some(s) => ShadersUrl + "/query/" + s + "?key=" + apiKey
    case None => ShadersUrl + "?key=" + apiKey
  }

  /** The query URL has the form of the `shadertoy` crate's URLs: with a search
      string it is the shader URL of the id `query/<search>`, and without one it
      is the bare shaders endpoint with the key. */
  lemma QueryUrlShape(search: Option<string>, apiKey: string)
    ensures search.Some? ==> QueryUrl(search, apiKey) == Query.ShaderUrl("query/" + search.value, apiKey)
    ensures search.None? ==> QueryUrl(search, apiKey) == Query.ShadersUrl + "?key=" + apiKey
  {
    ShadersUrlAgrees();
    if search.Some? {
      var s := search.value;
      assert "/" + ("query/" + s) == "/query/" + s;
      Text.AppendTail(ShadersUrl, "/", "query/" + s);
      Text.AppendTail(ShadersUrl, "/query/", s);
    }
  }

  /** The `json` crate's `members()`: the items of an array, nothing otherwise. */
  function Members(j: Json): seq<Json> {
    if j.Arr? then j.items else []
  }

  /** The `json` crate's indexing: a missing key, or a value that is not an object, gives null. */
  function Index(j: Json, key: string): Json {
    if j.Obj? && key in j.fields then j.fields[key] else Null
  }

  /** The strings among `items`, in order; every other value is skipped. */
  function StringsOf(items: seq<Json>): (r: seq<string>)
    ensures |r| <= |items|
    ensures forall k :: 0 <= k < |r| ==> Str(r[k]) in items
    ensures |r| == |items| <==> forall i :: 0 <= i < |items| ==> items[i].Str?
    decreases |items|
  {
    if |items| == 0 then []
    else
      var rest := StringsOf(items[1..]);
      assert forall k :: 0 <= k < |rest| ==> Str(rest[k]) in items by {
        forall k | 0 <= k < |rest| ensures Str(rest[k]) in items {
          assert Str(rest[k]) in items[1..];
        }
      }
      if items[0].Str? then [items[0].s] + rest else rest
  }

  /** The walk over a list split anywhere collects the first part's strings,
      then the second's. */
  lemma {:induction false} StringsOfAppend(x: seq<Json>, y: seq<Json>)
    ensures StringsOf(x + y) == StringsOf(x) + StringsOf(y)
    decreases |x|
  {
    if |x| == 0 {
      assert x + y == y;
    } else {
      assert (x + y)[0] == x[0];
      assert (x + y)[1..] == x[1..] + y;
      StringsOfAppend(x[1..], y);
    }
  }

  /** One member is collected exactly when it is a string. With
      `StringsOfAppend` this makes the walk a filter that keeps every string
      member, in order. */
  lemma StringsOfOne(v: Json)
    ensures StringsOf([v]) == if v.Str? then [v.s] else []
  {
    assert [v][1..] == [];
  }

  /** The ids `main` collects from the query reply. */
  function ResultIds(j: Json): seq<string> {
    StringsOf(Members(Index(j, "Results")))
  }

  /** Where the crate's strict decoder accepts a "Results" list, the lenient
      walk of `main` finds exactly the same ids. */
  lemma {:induction false} StringsOfEncoded(xs: seq<string>)
    ensures StringsOf(EncodeStrings(xs).items) == xs
    decreases |xs|
  {
    if |xs| > 0 {
      var items := EncodeStrings(xs).items;
      var tail := EncodeStrings(xs[1..]).items;
      assert items == [Str(xs[0])] + tail by {
        assert |items| == 1 + |tail|;
        forall k | 0 <= k < |items| ensures items[k] == ([Str(xs[0])] + tail)[k] {
          if k > 0 { assert xs[k] == xs[1..][k - 1]; }
        }
      }
      StringsOfAppend([Str(xs[0])], tail);
      StringsOfOne(Str(xs[0]));
      StringsOfEncoded(xs[1..]);
      assert [xs[0]] + xs[1..] == xs;
    }
  }

  lemma ResultIdsAgree(j: Json, xs: seq<string>)
    requires j.Obj? && "Results" in j.fields && DecodeStrings(j.fields["Results"]) == Some(xs)
    ensures ResultIds(j) == xs
  {
    StringsOfEncoded(xs);
  }

  /** The panic of `Result::unwrap` on a reqwest or serde error, whose `Debug`
      text is not modelled. */
  const UnwrapPanic: Panic := Panic("called `Result::unwrap()` on an `Err` value")

  /** The catalog query: the cached reply when there is one, else a fetch
      whose reply is cached before it is parsed; a failed transfer panics
      before anything is cached, and a reply that is not JSON panics now and
      on every later run. The cache is keyed by URL (the program names the
      file after the URL's base58 spelling, which is one-to-one). */
  function QueryIds(search: Option<string>, apiKey: string, cache: map<string, Option<Json>>, fetch: string -> Reply)
    : (r: (map<string, Option<Json>>, Result<seq<string>, Panic>))
    ensures QueryUrl(search, apiKey) in cache ==> r.0 == cache
    ensures fetch(QueryUrl(search, apiKey)).TransportError? ==> r.0 == cache
    ensures QueryUrl(search, apiKey) !in cache && fetch(QueryUrl(search, apiKey)).Received? ==>
      r.0 == cache[QueryUrl(search, apiKey) := fetch(QueryUrl(search, apiKey)).body]
    ensures r.1.Ok? <==> QueryUrl(search, apiKey) in r.0 && r.0[QueryUrl(search, apiKey)].Some?
    ensures r.1.Ok? ==> r.1.value == ResultIds(r.0[QueryUrl(search, apiKey)].value)
  {
    var url := QueryUrl(search, apiKey);
    var (cache', body) :=
      if url in cache then (cache, Ok(cache[url]))
      else
        match fetch(url)
        case TransportError => (cache, Err(UnwrapPanic))
        case Received(b) => (cache[url := b], Ok(b));
    match body
    case Err(p) => (cache', Err(p))
    case Ok(None) => (cache', Err(UnwrapPanic))
    case Ok(Some(j)) => (cache', Ok(ResultIds(j)))
  }

  /** A second run is answered from the cache: same ids, nothing fetched. */
  lemma QueryIsCached(search: Option<string>, apiKey: string, cache: map<string, Option<Json>>,
                      fetch: string -> Reply, later: string -> Reply)
    requires QueryIds(search, apiKey, cache, fetch).1.Ok?
    ensures var first := QueryIds(search, apiKey, cache, fetch);
      QueryIds(search, apiKey, first.0, later) == first
  {
  }

  /** A reply that is not JSON is cached before the parse panics, so every
      later run panics on it without going back to the network. */
  lemma UnparsableReplySticks(search: Option<string>, apiKey: string, cache: map<string, Option<Json>>,
                              fetch: string -> Reply, later: string -> Reply)
    requires QueryUrl(search, apiKey) !in cache && fetch(QueryUrl(search, apiKey)) == Received(None)
    ensures var first := QueryIds(search, apiKey, cache, fetch);
      first.1.Err? && QueryIds(search, apiKey, first.0, later) == first
  {
  }

  // ---------------------------------------------------------------------------
  // `convert_glsl_to_metal` as `src/main.rs` writes it: plain string errors.

  const CompilePrefix: string := "shaderc compilation failed: "

  /** `convert_glsl_to_metal` in `src/main.rs`; `name` is the input name shaderc
      is given (and may quote in its errors). */
  function Convert<Spirv, Ast>(name: string, source: string, tools: MetalBackend.Toolchain<Spirv, Ast>)
    : (r: Result<Result<string, string>, Panic>)
    ensures tools.compile(name, source).Err? ==> r == Ok(Err(CompilePrefix + tools.compile(name, source).error))
    ensures tools.compile(name, source).Ok? ==> (r.Err? <==> tools.parse(tools.compile(name, source).value).Err?)
    ensures r.Err? ==> r.error == UnwrapErr(tools.parse(tools.compile(name, source).value).error)
  {
    match tools.compile(name, source)
    case Err(e) => Ok(Err(CompilePrefix + e))
    case Ok(binary) =>
      match tools.parse(binary)
      case Err(e) => Err(UnwrapErr(e))
      case Ok(ast) =>
        match tools.crossCompile(ast)
        case Ok(msl) => Ok(Ok(msl))
        case Err(e) => Ok(Err(MetalBackend.CrossMessage(e)))
  }

  /** The downloader's converter and the Metal backend's agree on every input
      name and source: same panics, same Metal source, same spirv-cross
      messages. They differ only in how a SPIR-V compilation error is reported.
      (The two callers pass different input names; see `GlslPath`.) */
  lemma ConvertAgreesWithBackend<Spirv, Ast>(name: string, source: string, tools: MetalBackend.Toolchain<Spirv, Ast>)
    ensures Convert(name, source, tools).Err? <==> MetalBackend.ConvertGlslToMetal(name, source, tools).Err?
    ensures Convert(name, source, tools).Err? ==>
      Convert(name, source, tools).error == MetalBackend.ConvertGlslToMetal(name, source, tools).error
    ensures Convert(name, source, tools).Ok? ==>
      (Convert(name, source, tools).value.Ok? <==> MetalBackend.ConvertGlslToMetal(name, source, tools).value.Ok?)
    ensures Convert(name, source, tools).Ok? && Convert(name, source, tools).value.Ok? ==>
      MetalBackend.ConvertGlslToMetal(name, source, tools).value.value == Convert(name, source, tools).value.value
    ensures tools.compile(name, source).Ok? && Convert(name, source, tools).Ok? && Convert(name, source, tools).value.Err? ==>
      MetalBackend.ConvertGlslToMetal(name, source, tools).value == Err(Render.Msg(Convert(name, source, tools).value.error))
    ensures tools.compile(name, source).Err? ==>
      MetalBackend.ConvertGlslToMetal(name, source, tools).value
        == Err(Render.Chain(MetalBackend.CompileContext, tools.compile(name, source).error))
  {
  }

  /** The path the pass's GLSL is written to, which is also the input name
      shaderc is given. */
  function GlslPath(shadertoy: string, passName: string): string {
    "output/" + shadertoy + " " + passName + ".glsl"
  }

  /** The downloader never gives shaderc the backend's input name, so the two
      converters can be handed different compilation errors for one source. */
  lemma InputNamesDiffer(shadertoy: string, passName: string)
    ensures GlslPath(shadertoy, passName) != MetalBackend.BackendInputName
  {
    assert GlslPath(shadertoy, passName)[0] == 'o';
    assert MetalBackend.BackendInputName[0] == 'u';
  }

  // ---------------------------------------------------------------------------
  // One render pass.

  /** The pass's full GLSL source, or the unknown-ctype panic. */
  function PassSource(pass: BrowserSchema.RenderPass, snippets: GlslSource.Snippets): Result<string, Panic> {
    var samplers :- GlslSource.SamplerSource(pass.inputs);
    Ok(GlslSource.FullSource(snippets, samplers, pass.code, pass.passType))
  }

  /** The pass's conversion outcome. */
  function PassConversion<Spirv, Ast>(shadertoy: string, pass: BrowserSchema.RenderPass, snippets: GlslSource.Snippets,
                                      tools: MetalBackend.Toolchain<Spirv, Ast>): Result<Result<string, string>, Panic> {
    var source :- PassSource(pass, snippets);
    Convert(GlslPath(shadertoy, pass.name), source, tools)
  }

  /** Only input-free image passes can be shown by the viewer. */
  predicate Showable(pass: BrowserSchema.RenderPass) {
    pass.passType == "image" && |pass.inputs| == 0
  }

  /** The input kinds whose `src` is downloaded. */
  const DownloadKinds: set<string> := {"texture", "volume", "cubemap", "buffer"}

  function AssetPath(src: string): string {
    "output" + src
  }

  function AssetPaths(srcs: seq<string>): set<string>
    decreases |srcs|
  {
    if |srcs| == 0 then {} else {AssetPath(srcs[0])} + AssetPaths(srcs[1..])
  }

  /** The asset downloads of one pass, in input order: an input of a download
      kind whose file does not exist yet is fetched and written. */
  function Downloads(inputs: seq<BrowserSchema.RenderPassInput>, assets: set<string>)
    : (r: (set<string>, seq<string>))
    ensures assets <= r.0
    ensures forall k :: 0 <= k < |r.1| ==> AssetPath(r.1[k]) !in assets
    ensures forall i :: 0 <= i < |inputs| && inputs[i].ctype in DownloadKinds ==> AssetPath(inputs[i].src) in r.0
    decreases |inputs|
  {
    if |inputs| == 0 then (assets, [])
    else
      var x := inputs[0];
      if x.ctype in DownloadKinds && AssetPath(x.src) !in assets
      then var (a, d) := Downloads(inputs[1..], assets + {AssetPath(x.src)}); (a, [x.src] + d)
      else Downloads(inputs[1..], assets)
  }

  /** `src` is the source of a downloadable input. */
  predicate DownloadableSource(inputs: seq<BrowserSchema.RenderPassInput>, src: string) {
    exists i :: 0 <= i < |inputs| && inputs[i].src == src && inputs[i].ctype in DownloadKinds
  }

  /** Every download is the file of some input of a download kind. */
  lemma {:induction false} DownloadsComeFromInputs(inputs: seq<BrowserSchema.RenderPassInput>, assets: set<string>)
    ensures forall k :: 0 <= k < |Downloads(inputs, assets).1| ==> DownloadableSource(inputs, Downloads(inputs, assets).1[k])
    decreases |inputs|
  {
    if |inputs| > 0 {
      var x := inputs[0];
      var fetched := x.ctype in DownloadKinds && AssetPath(x.src) !in assets;
      var next := if fetched then assets + {AssetPath(x.src)} else assets;
      DownloadsComeFromInputs(inputs[1..], next);
      var d := Downloads(inputs[1..], next).1;
      var all := Downloads(inputs, assets).1;
      assert all == if fetched then [x.src] + d else d;
      forall k | 0 <= k < |all| ensures DownloadableSource(inputs, all[k]) {
        if fetched && k == 0 {
          assert inputs[0].src == all[k];
        } else {
          var k' := if fetched then k - 1 else k;
          assert all[k] == d[k'];
          assert DownloadableSource(inputs[1..], d[k']);
          var i' :| 0 <= i' < |inputs[1..]| && inputs[1..][i'].src == d[k'] && inputs[1..][i'].ctype in DownloadKinds;
          assert inputs[i' + 1] == inputs[1..][i'];
        }
      }
    }
  }

  /** The asset files after the downloads are the old ones plus one per download. */
  lemma {:induction false} DownloadsAddTheirPaths(inputs: seq<BrowserSchema.RenderPassInput>, assets: set<string>)
    ensures Downloads(inputs, assets).0 == assets + AssetPaths(Downloads(inputs, assets).1)
    decreases |inputs|
  {
    if |inputs| > 0 {
      var x := inputs[0];
      if x.ctype in DownloadKinds && AssetPath(x.src) !in assets {
        DownloadsAddTheirPaths(inputs[1..], assets + {AssetPath(x.src)});
        var d := Downloads(inputs[1..], assets + {AssetPath(x.src)}).1;
        assert ([x.src] + d)[1..] == d;
      } else {
        DownloadsAddTheirPaths(inputs[1..], assets);
      }
    }
  }

  /** Running the downloads again finds every file present and fetches nothing. */
  lemma {:induction false} DownloadsIdempotent(inputs: seq<BrowserSchema.RenderPassInput>, assets: set<string>)
    requires forall i :: 0 <= i < |inputs| && inputs[i].ctype in DownloadKinds ==> AssetPath(inputs[i].src) in assets
    ensures Downloads(inputs, assets) == (assets, [])
    decreases |inputs|
  {
    if |inputs| > 0 {
      DownloadsIdempotent(inputs[1..], assets);
    }
  }

  /** What one pass leaves behind. */
  datatype PassResult = PassResult(converted: bool, shown: Option<string>, assets: set<string>, downloads: seq<string>)

  /** One iteration of the pass loop: assemble, convert, keep a showable
      result for the viewer, then download the pass's assets. */
  function ProcessPass<Spirv, Ast>(shadertoy: string, pass: BrowserSchema.RenderPass, snippets: GlslSource.Snippets,
                                   tools: MetalBackend.Toolchain<Spirv, Ast>, assets: set<string>)
    : (r: Result<PassResult, Panic>)
    ensures r.Ok? <==> PassConversion(shadertoy, pass, snippets, tools).Ok?
    ensures r.Ok? ==> (r.value.converted <==> PassConversion(shadertoy, pass, snippets, tools).value.Ok?)
    ensures r.Ok? ==> (r.value.shown.Some? <==> r.value.converted && Showable(pass))
    ensures r.Ok? && r.value.shown.Some? ==> r.value.shown.value == PassConversion(shadertoy, pass, snippets, tools).value.value
    ensures r.Ok? ==> (r.value.assets, r.value.downloads) == Downloads(pass.inputs, assets)
  {
    var conversion :- PassConversion(shadertoy, pass, snippets, tools);
    var (assets', downloads) := Downloads(pass.inputs, assets);
    var shown := if conversion.Ok? && Showable(pass) then Some(conversion.value) else None;
    Ok(PassResult(conversion.Ok?, shown, assets', downloads))
  }

  /** The Metal sources a list of passes contributes to the viewer, in pass order. */
  function ShownSources<Spirv, Ast>(shadertoy: string, passes: seq<BrowserSchema.RenderPass>, snippets: GlslSource.Snippets,
                                    tools: MetalBackend.Toolchain<Spirv, Ast>): seq<string>
    decreases |passes|
  {
    if |passes| == 0 then [] else ShownBy(shadertoy, passes[0], snippets, tools) + ShownSources(shadertoy, passes[1..], snippets, tools)
  }

  /** What one pass contributes to the viewer: its Metal source when it is
      showable and converted. */
  function ShownBy<Spirv, Ast>(shadertoy: string, pass: BrowserSchema.RenderPass, snippets: GlslSource.Snippets,
                               tools: MetalBackend.Toolchain<Spirv, Ast>): seq<string>
  {
    var c := PassConversion(shadertoy, pass, snippets, tools);
    if Showable(pass) && c.Ok? && c.value.Ok? then [c.value.value] else []
  }

  /** A shader's passes fully converted: no pass failed to convert. */
  predicate AllConvert<Spirv, Ast>(shadertoy: string, passes: seq<BrowserSchema.RenderPass>, snippets: GlslSource.Snippets,
                                   tools: MetalBackend.Toolchain<Spirv, Ast>)
  {
    forall i :: 0 <= i < |passes| ==>
      PassConversion(shadertoy, passes[i], snippets, tools).Ok? && PassConversion(shadertoy, passes[i], snippets, tools).value.Ok?
  }

  /** All passes convert exactly when the first does and all the others do. */
  lemma AllConvertCons<Spirv, Ast>(shadertoy: string, passes: seq<BrowserSchema.RenderPass>, snippets: GlslSource.Snippets,
                                   tools: MetalBackend.Toolchain<Spirv, Ast>)
    requires |passes| > 0
    ensures AllConvert(shadertoy, passes, snippets, tools) <==>
      (PassConversion(shadertoy, passes[0], snippets, tools).Ok? && PassConversion(shadertoy, passes[0], snippets, tools).value.Ok?
       && AllConvert(shadertoy, passes[1..], snippets, tools))
  {
    if AllConvert(shadertoy, passes[1..], snippets, tools) {
      forall i | 1 <= i < |passes|
        ensures PassConversion(shadertoy, passes[i], snippets, tools).Ok? && PassConversion(shadertoy, passes[i], snippets, tools).value.Ok?
      {
        assert passes[i] == passes[1..][i - 1];
      }
    }
  }

  /** What a shader's pass loop leaves behind. */
  datatype ShaderResult = ShaderResult(success: bool, shown: seq<string>, assets: set<string>)

  /** The pass loop of one shader. `success` starts true and only a failed
      conversion clears it; asset downloads never do. */
  function ProcessPasses<Spirv, Ast>(shadertoy: string, passes: seq<BrowserSchema.RenderPass>, snippets: GlslSource.Snippets,
                                     tools: MetalBackend.Toolchain<Spirv, Ast>, assets: set<string>)
    : (r: Result<ShaderResult, Panic>)
    ensures r.Ok? <==> forall i :: 0 <= i < |passes| ==> PassConversion(shadertoy, passes[i], snippets, tools).Ok?
    ensures r.Ok? ==> (r.value.success <==> AllConvert(shadertoy, passes, snippets, tools))
    ensures r.Ok? ==> r.value.shown == ShownSources(shadertoy, passes, snippets, tools)
    ensures r.Ok? ==> assets <= r.value.assets
    decreases |passes|
  {
    if |passes| == 0 then Ok(ShaderResult(true, [], assets))
    else
      var first :- ProcessPass(shadertoy, passes[0], snippets, tools, assets);
      var rest :- ProcessPasses(shadertoy, passes[1..], snippets, tools, first.assets);
      AllConvertCons(shadertoy, passes, snippets, tools);
      Ok(ShaderResult(first.converted && rest.success,
                      (if first.shown.Some? then [first.shown.value] else []) + rest.shown, rest.assets))
  }

  /** The viewer list keeps pass order across consecutive runs of passes. */
  lemma {:induction false} ShownSourcesAppend<Spirv, Ast>(shadertoy: string, a: seq<BrowserSchema.RenderPass>, b: seq<BrowserSchema.RenderPass>,
                                                          snippets: GlslSource.Snippets, tools: MetalBackend.Toolchain<Spirv, Ast>)
    ensures ShownSources(shadertoy, a + b, snippets, tools) == ShownSources(shadertoy, a, snippets, tools) + ShownSources(shadertoy, b, snippets, tools)
    decreases |a|
  {
    if |a| == 0 {
      assert a + b == b;
    } else {
      assert (a + b)[1..] == a[1..] + b;
      assert (a + b)[0] == a[0];
      var head := ShownBy(shadertoy, a[0], snippets, tools);
      calc {
        ShownSources(shadertoy, a + b, snippets, tools);
        head + ShownSources(shadertoy, a[1..] + b, snippets, tools);
        { ShownSourcesAppend(shadertoy, a[1..], b, snippets, tools); }
        head + (ShownSources(shadertoy, a[1..], snippets, tools) + ShownSources(shadertoy, b, snippets, tools));
        ShownSources(shadertoy, a, snippets, tools) + ShownSources(shadertoy, b, snippets, tools);
      }
    }
  }

  // ---------------------------------------------------------------------------
  // One shader's JSON.

  function ShaderJsonPath(id: string): string {
    "output/" + id + ".json"
  }

  /** The per-shader download URL; it is the `shadertoy` crate's shader URL. */
  function ShaderDownloadUrl(id: string, apiKey: string): string {
    ShadersUrl + "/" + id + "?key=" + apiKey
  }

  lemma ShaderDownloadUrlAgrees(id: string, apiKey: string)
    ensures ShaderDownloadUrl(id, apiKey) == Query.ShaderUrl(id, apiKey)
  {
    ShadersUrlAgrees();
  }

  /** Loading a shader: when its file is missing, fetch it, decode it,
      re-encode it with `enc`, write that, and then decode what was written;
      otherwise decode the file. Every decode is unwrapped, so a failure
      panics. The file is written before the second decode, so it stays on
      disk even when that decode panics. */
  function LoadShader(id: string, apiKey: string, disk: map<string, Json>, fetch: string -> Reply,
                      enc: BrowserSchema.FlagEncoding)
    : (r: (map<string, Json>, Result<BrowserSchema.Root, Panic>))
    ensures ShaderJsonPath(id) in disk ==> r.0 == disk
    ensures r.1.Ok? ==> ShaderJsonPath(id) in r.0 && BrowserSchema.DecodeRoot(r.0[ShaderJsonPath(id)]) == Some(r.1.value)
  {
    var (disk', stored) := StoreShader(id, apiKey, disk, fetch, enc);
    match stored
    case Err(p) => (disk', Err(p))
    case Ok(text) =>
      match BrowserSchema.DecodeRoot(text)
      case None => (disk', Err(UnwrapPanic))
      case Some(root) => (disk', Ok(root))
  }

  /** The first half of a load: the document the shader is read from, fetched
      and written when its file is missing. */
  function StoreShader(id: string, apiKey: string, disk: map<string, Json>, fetch: string -> Reply,
                       enc: BrowserSchema.FlagEncoding)
    : (r: (map<string, Json>, Result<Json, Panic>))
    ensures ShaderJsonPath(id) in disk ==> r == (disk, Ok(disk[ShaderJsonPath(id)]))
    ensures r.1.Ok? ==> ShaderJsonPath(id) in r.0 && r.0[ShaderJsonPath(id)] == r.1.value
  {
    var path := ShaderJsonPath(id);
    if path in disk then (disk, Ok(disk[path]))
    else
      match fetch(ShaderDownloadUrl(id, apiKey))
      case TransportError => (disk, Err(UnwrapPanic))
      case Received(None) => (disk, Err(UnwrapPanic))
      case Received(Some(j)) =>
        match BrowserSchema.DecodeRoot(j)
        case None => (disk, Err(UnwrapPanic))
        case Some(root) =>
          var text := BrowserSchema.EncodeRoot(root, enc);
          (disk[path := text], Ok(text))
  }

  /** A fresh download that decodes writes its re-encoding, and the load's
      outcome is the decode of what was written. */
  lemma LoadFresh(id: string, apiKey: string, disk: map<string, Json>, fetch: string -> Reply,
                  enc: BrowserSchema.FlagEncoding, j: Json, root: BrowserSchema.Root)
    requires ShaderJsonPath(id) !in disk
    requires fetch(ShaderDownloadUrl(id, apiKey)) == Received(Some(j))
    requires BrowserSchema.DecodeRoot(j) == Some(root)
    ensures var r := LoadShader(id, apiKey, disk, fetch, enc);
      var text := BrowserSchema.EncodeRoot(root, enc);
      r.0 == disk[ShaderJsonPath(id) := text]
      && r.1 == match BrowserSchema.DecodeRoot(text) case None => Err(UnwrapPanic) case Some(x) => Ok(x)
  {
    StoreFresh(id, apiKey, disk, fetch, enc, j, root);
    var text := BrowserSchema.EncodeRoot(root, enc);
    LoadFromStore(id, apiKey, disk, fetch, enc, disk[ShaderJsonPath(id) := text], text);
  }

  /** The second half of a load decodes what the first half stored. */
  lemma LoadFromStore(id: string, apiKey: string, disk: map<string, Json>, fetch: string -> Reply,
                      enc: BrowserSchema.FlagEncoding, disk': map<string, Json>, text: Json)
    requires StoreShader(id, apiKey, disk, fetch, enc) == (disk', Ok(text))
    ensures LoadShader(id, apiKey, disk, fetch, enc)
      == (disk', match BrowserSchema.DecodeRoot(text) case None => Err(UnwrapPanic) case Some(x) => Ok(x))
  {
  }

  /** A fresh download that decodes is written back re-encoded. */
  lemma StoreFresh(id: string, apiKey: string, disk: map<string, Json>, fetch: string -> Reply,
                   enc: BrowserSchema.FlagEncoding, j: Json, root: BrowserSchema.Root)
    requires ShaderJsonPath(id) !in disk
    requires fetch(ShaderDownloadUrl(id, apiKey)) == Received(Some(j))
    requires BrowserSchema.DecodeRoot(j) == Some(root)
    ensures var text := BrowserSchema.EncodeRoot(root, enc);
      StoreShader(id, apiKey, disk, fetch, enc) == (disk[ShaderJsonPath(id) := text], Ok(text))
  {
  }

  /** A stored file is decoded as it is, whatever the network would say. */
  lemma LoadStored(id: string, apiKey: string, disk: map<string, Json>, fetch: string -> Reply,
                   enc: BrowserSchema.FlagEncoding)
    requires ShaderJsonPath(id) in disk
    ensures LoadShader(id, apiKey, disk, fetch, enc)
      == (disk, match BrowserSchema.DecodeRoot(disk[ShaderJsonPath(id)]) case None => Err(UnwrapPanic) case Some(x) => Ok(x))
  {
  }

  /** As written: with the derived serialiser, a freshly downloaded shader
      that has a pass with inputs panics, and the file it leaves makes every
      later run panic on it too. */
  lemma DerivedDownloadPanics(id: string, apiKey: string, disk: map<string, Json>, fetch: string -> Reply,
                              later: string -> Reply, j: Json, root: BrowserSchema.Root)
    requires ShaderJsonPath(id) !in disk
    requires fetch(ShaderDownloadUrl(id, apiKey)) == Received(Some(j))
    requires BrowserSchema.DecodeRoot(j) == Some(root) && !BrowserSchema.NoInputs(root.shader)
    ensures var first := LoadShader(id, apiKey, disk, fetch, BrowserSchema.Derived);
      first.1 == Err(UnwrapPanic) && LoadShader(id, apiKey, first.0, later, BrowserSchema.Derived) == first
  {
    BrowserSchema.DerivedRoundTrip(root);
    LoadFresh(id, apiKey, disk, fetch, BrowserSchema.Derived, j, root);
    var first := LoadShader(id, apiKey, disk, fetch, BrowserSchema.Derived);
    LoadStored(id, apiKey, first.0, later, BrowserSchema.Derived);
  }

  /** Corrected: writing the flags as strings, the download yields the
      shader the server sent, and later runs read the same shader back. */
  lemma StringFlagsDownloadLoads(id: string, apiKey: string, disk: map<string, Json>, fetch: string -> Reply,
                                 later: string -> Reply, j: Json, root: BrowserSchema.Root)
    requires ShaderJsonPath(id) !in disk
    requires fetch(ShaderDownloadUrl(id, apiKey)) == Received(Some(j))
    requires BrowserSchema.DecodeRoot(j) == Some(root)
    ensures var first := LoadShader(id, apiKey, disk, fetch, BrowserSchema.AsStrings);
      first.1 == Ok(root) && LoadShader(id, apiKey, first.0, later, BrowserSchema.AsStrings) == first
  {
    BrowserSchema.FixedRoundTrip(root);
    LoadFresh(id, apiKey, disk, fetch, BrowserSchema.AsStrings, j, root);
    var first := LoadShader(id, apiKey, disk, fetch, BrowserSchema.AsStrings);
    LoadStored(id, apiKey, first.0, later, BrowserSchema.AsStrings);
  }

  /** One concrete shader showing the discrepancy: a single image pass that
      samples one texture. */
  function TexturedRoot(): (r: BrowserSchema.Root)
    ensures !BrowserSchema.NoInputs(r.shader)
  {
    var sampler := BrowserSchema.Sampler("mipmap", "repeat", true, false, "byte");
    var input := BrowserSchema.RenderPassInput(17, "/media/a/texture.png", "texture", 0, sampler, 1);
    var pass := BrowserSchema.RenderPass([input], [BrowserSchema.RenderPassOutput(37, 0)],
                                         "void mainImage(out vec4 c, in vec2 p) { c = texture(iChannel0, p); }",
                                         "Image", "", "image");
    var info := BrowserSchema.ShaderInfo("XsX3Rn", "1370000000", 0, "textured", "someone", "", 0, 1, 0, [], 0);
    var r := BrowserSchema.Root(BrowserSchema.Shader("0.1", info, [pass]));
    assert |r.shader.renderpass[0].inputs| == 1;
    r
  }

  /** A server answering every request with that shader, flags written as
      strings, which is what the browser's own decoder accepts. */
  function TexturedServer(url: string): (r: Reply)
    ensures r.Received? && r.body.Some? && BrowserSchema.DecodeRoot(r.body.value) == Some(TexturedRoot())
  {
    BrowserSchema.FixedRoundTrip(TexturedRoot());
    Received(Some(BrowserSchema.EncodeRoot(TexturedRoot(), BrowserSchema.AsStrings)))
  }

  /** As written, on that input: the first download of the textured shader
      into an empty output directory panics. */
  lemma TexturedDownloadPanics()
    ensures LoadShader("XsX3Rn", "key", map[], TexturedServer, BrowserSchema.Derived).1 == Err(UnwrapPanic)
  {
    var root := TexturedRoot();
    DerivedDownloadPanics("XsX3Rn", "key", map[], TexturedServer, TexturedServer,
                          TexturedServer(ShaderDownloadUrl("XsX3Rn", "key")).body.value, root);
  }

  /** Corrected, on the same input: the download yields the shader. */
  lemma TexturedDownloadLoads()
    ensures LoadShader("XsX3Rn", "key", map[], TexturedServer, BrowserSchema.AsStrings).1 == Ok(TexturedRoot())
  {
    var root := TexturedRoot();
    StringFlagsDownloadLoads("XsX3Rn", "key", map[], TexturedServer, TexturedServer,
                             TexturedServer(ShaderDownloadUrl("XsX3Rn", "key")).body.value, root);
  }

  // ---------------------------------------------------------------------------
  // The shader loop.

  /** The downloader's state between shaders. */
  datatype State = State(disk: map<string, Json>, assets: set<string>, shown: seq<string>, builtCount: nat)

  /** The environment the loop runs in. */
  datatype Env<!Spirv, !Ast> = Env(
    apiKey: string, fetch: string -> Reply, enc: BrowserSchema.FlagEncoding,
    snippets: GlslSource.Snippets, tools: MetalBackend.Toolchain<Spirv, Ast>)

  /** One shader: load it, run its passes, count it when every pass converted. */
  function IngestShader<Spirv, Ast>(id: string, env: Env<Spirv, Ast>, s: State): (r: Result<State, Panic>)
    ensures r.Ok? ==> r.value.builtCount == s.builtCount || r.value.builtCount == s.builtCount + 1
    ensures r.Ok? ==> |s.shown| <= |r.value.shown| && r.value.shown[..|s.shown|] == s.shown
    ensures r.Ok? ==> s.assets <= r.value.assets
  {
    var (disk, loaded) := LoadShader(id, env.apiKey, s.disk, env.fetch, env.enc);
    var root :- loaded;
    ProcessShader(id, root.shader.renderpass, disk, env, s)
  }

  /** The rest of one shader once it is loaded: run its passes, keep the
      sources to show, and count it when every pass converted. */
  function ProcessShader<Spirv, Ast>(shadertoy: string, passes: seq<BrowserSchema.RenderPass>, disk: map<string, Json>,
                                     env: Env<Spirv, Ast>, s: State): (r: Result<State, Panic>)
    ensures r.Ok? <==> forall i :: 0 <= i < |passes| ==> PassConversion(shadertoy, passes[i], env.snippets, env.tools).Ok?
    ensures r.Ok? ==> r.value.disk == disk && s.assets <= r.value.assets
    ensures r.Ok? ==> (r.value.builtCount == s.builtCount + 1 <==> AllConvert(shadertoy, passes, env.snippets, env.tools))
    ensures r.Ok? ==> r.value.builtCount == s.builtCount || r.value.builtCount == s.builtCount + 1
    ensures r.Ok? ==> r.value.shown == s.shown + ShownSources(shadertoy, passes, env.snippets, env.tools)
  {
    var result :- ProcessPasses(shadertoy, passes, env.snippets, env.tools, s.assets);
    Ok(State(disk, result.assets, s.shown + result.shown, if result.success then s.builtCount + 1 else s.builtCount))
  }

  /** A shader is counted as built exactly when all its passes convert. */
  lemma IngestShaderCounts<Spirv, Ast>(id: string, env: Env<Spirv, Ast>, s: State)
    requires IngestShader(id, env, s).Ok?
    ensures var root := LoadShader(id, env.apiKey, s.disk, env.fetch, env.enc).1.value;
      var r := IngestShader(id, env, s).value;
      (r.builtCount == s.builtCount + 1 <==> AllConvert(id, root.shader.renderpass, env.snippets, env.tools))
      && r.shown == s.shown + ShownSources(id, root.shader.renderpass, env.snippets, env.tools)
  {
    var (disk, loaded) := LoadShader(id, env.apiKey, s.disk, env.fetch, env.enc);
    assert IngestShader(id, env, s) == ProcessShader(id, loaded.value.shader.renderpass, disk, env, s);
  }

  /** The loop over all ids, in order, stopping at the first panic. */
  function IngestAll<Spirv, Ast>(ids: seq<string>, env: Env<Spirv, Ast>, s: State): (r: Result<State, Panic>)
    ensures r.Ok? ==> s.builtCount <= r.value.builtCount <= s.builtCount + |ids|
    ensures r.Ok? ==> |s.shown| <= |r.value.shown| && r.value.shown[..|s.shown|] == s.shown
    decreases |ids|
  {
    if |ids| == 0 then Ok(s)
    else
      var next :- IngestShader(ids[0], env, s);
      var r := IngestAll(ids[1..], env, next);
      if r.Ok? then
        assert r.value.shown[..|s.shown|] == r.value.shown[..|next.shown|][..|s.shown|];
        r
      else r
  }

  /** Ingesting two lists of ids one after the other is ingesting their concatenation. */
  lemma {:induction false} IngestAllAppend<Spirv, Ast>(a: seq<string>, b: seq<string>, env: Env<Spirv, Ast>, s: State)
    ensures IngestAll(a + b, env, s) ==
      match IngestAll(a, env, s) case Err(p) => Err(p) case Ok(mid) => IngestAll(b, env, mid)
    decreases |a|
  {
    if |a| == 0 {
      assert a + b == b;
    } else {
      assert (a + b)[0] == a[0];
      assert (a + b)[1..] == a[1..] + b;
      match IngestShader(a[0], env, s)
      case Err(_) =>
      case Ok(next) => IngestAllAppend(a[1..], b, env, next);
    }
  }
}
