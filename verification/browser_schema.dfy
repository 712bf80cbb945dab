/** The browser binary's own copy of the Shadertoy schema (src/shadertoy/mod.rs).
    Unlike the `shadertoy` crate it does not deny unknown fields, it has no
    `usePreview`, and the sampler flags `vflip`/`srgb` are booleans read through
    `de_from_str`: the JSON value must be the string "true" or "false". The
    derived serialiser, on the other hand, writes them as JSON booleans. */
module BrowserSchema {
  import opened Wrappers
  import opened Json

  datatype Sampler = Sampler(filter: string, wrap: string, vflip: bool, srgb: bool, internal: string)

  datatype RenderPassInput = RenderPassInput(
    id: U64, src: string, ctype: string, channel: U64, sampler: Sampler, published: U64)

  datatype RenderPassOutput = RenderPassOutput(id: U64, channel: U64)

  datatype RenderPass = RenderPass(
    inputs: seq<RenderPassInput>, outputs: seq<RenderPassOutput>,
    code: string, name: string, description: string, passType: string)

  datatype ShaderInfo = ShaderInfo(
    id: string, date: string, viewed: U64, name: string, username: string, description: string,
    likes: U64, published: U64, flags: U64, tags: seq<string>, hasliked: U64)

  datatype Shader = Shader(ver: string, info: ShaderInfo, renderpass: seq<RenderPass>)

  datatype Root = Root(shader: Shader)

  const InfoKeys: set<string> :=
    {"id", "date", "viewed", "name", "username", "description", "likes", "published",
     "flags", "tags", "hasliked"}

  // ---------------------------------------------------------------------------
  // `de_from_str`: a JSON string, then `bool::from_str`.

  /** The spelling `bool::from_str` accepts for `b`. */
  function BoolSpelling(b: bool): string {
    if b then "true" else "false"
  }

  /** Accepts exactly the JSON strings "true" and "false"; a JSON boolean, "True"
      or "1" is a decode error. */
  function DeFromStr(j: Json): (r: Option<bool>)
    ensures forall b: bool :: r == Some(b) <==> j == Str(BoolSpelling(b))
  {
    match j
    case Str(s) => if s == "true" then Some(true) else if s == "false" then Some(false) else None
    case _ => None
  }

  // ---------------------------------------------------------------------------
  // Serialisation. `Derived` is what `#[derive(Serialize)]` produces (the
  // `deserialize_with` attribute does not affect serialisation, so the flags
  // become JSON booleans); `AsStrings` writes them the way `de_from_str` reads them.

  datatype FlagEncoding = Derived | AsStrings

  function EncodeFlag(b: bool, e: FlagEncoding): Json {
    match e
    case Derived => Bool(b)
    case AsStrings => Str(BoolSpelling(b))
  }

  function EncodeSampler(s: Sampler, e: FlagEncoding): Json {
    Obj(map["filter" := Str(s.filter), "wrap" := Str(s.wrap), "vflip" := EncodeFlag(s.vflip, e),
            "srgb" := EncodeFlag(s.srgb, e), "internal" := Str(s.internal)])
  }

  function EncodeInput(x: RenderPassInput, e: FlagEncoding): Json {
    Obj(map["id" := Num(x.id), "src" := Str(x.src), "ctype" := Str(x.ctype),
            "channel" := Num(x.channel), "sampler" := EncodeSampler(x.sampler, e),
            "published" := Num(x.published)])
  }

  function EncodeOutput(x: RenderPassOutput): Json {
    Obj(map["id" := Num(x.id), "channel" := Num(x.channel)])
  }

  function InputEncoder(e: FlagEncoding): RenderPassInput -> Json {
    (x: RenderPassInput) => EncodeInput(x, e)
  }

  function EncodePass(p: RenderPass, e: FlagEncoding): Json {
    Obj(map["inputs" := Arr(EncodeItems(p.inputs, InputEncoder(e))),
            "outputs" := Arr(EncodeItems(p.outputs, EncodeOutput)),
            "code" := Str(p.code), "name" := Str(p.name),
            "description" := Str(p.description), "type" := Str(p.passType)])
  }

  function EncodeInfo(i: ShaderInfo): Json {
    Obj(map["id" := Str(i.id), "date" := Str(i.date), "viewed" := Num(i.viewed),
            "name" := Str(i.name), "username" := Str(i.username),
            "description" := Str(i.description), "likes" := Num(i.likes),
            "published" := Num(i.published), "flags" := Num(i.flags),
            "tags" := EncodeStrings(i.tags), "hasliked" := Num(i.hasliked)])
  }

  function PassEncoder(e: FlagEncoding): RenderPass -> Json {
    (p: RenderPass) => EncodePass(p, e)
  }

  function EncodeShader(s: Shader, e: FlagEncoding): Json {
    Obj(map["ver" := Str(s.ver), "info" := EncodeInfo(s.info),
            "renderpass" := Arr(EncodeItems(s.renderpass, PassEncoder(e)))])
  }

  function EncodeRoot(r: Root, e: FlagEncoding): Json {
    Obj(map["Shader" := EncodeShader(r.shader, e)])
  }

  // ---------------------------------------------------------------------------
  // Deserialisation: required fields, unknown keys ignored. A struct arrives as
  // an object or as an array of its fields in declaration order
  // (`Json.StructFields`); `...Fields` reads the struct from the entries.

  const SamplerLayout: Layout :=
    Layout(["filter", "wrap", "vflip", "srgb", "internal"], {"filter", "wrap", "vflip", "srgb", "internal"}, {}, false)
  const InputLayout: Layout :=
    Layout(["id", "src", "ctype", "channel", "sampler", "published"],
           {"id", "src", "ctype", "channel", "sampler", "published"}, {}, false)
  const OutputLayout: Layout := Layout(["id", "channel"], {"id", "channel"}, {}, false)
  const PassLayout: Layout :=
    Layout(["inputs", "outputs", "code", "name", "description", "type"],
           {"inputs", "outputs", "code", "name", "description", "type"}, {}, false)
  const InfoLayout: Layout :=
    Layout(["id", "date", "viewed", "name", "username", "description", "likes", "published",
            "flags", "tags", "hasliked"], InfoKeys, {}, false)
  const ShaderLayout: Layout := Layout(["ver", "info", "renderpass"], {"ver", "info", "renderpass"}, {}, false)
  const RootLayout: Layout := Layout(["Shader"], {"Shader"}, {}, false)

  /** `o` holds every entry of `part` (and possibly more). */
  predicate Covers(o: map<string, Json>, part: map<string, Json>) {
    forall k :: k in part ==> k in o && o[k] == part[k]
  }

  /** A sampler is exactly what the entries say under the five declared keys,
      with the flags spelt as strings; other keys play no part. */
  function SamplerFields(o: map<string, Json>): (r: Option<Sampler>)
    ensures r.Some? <==> (
      FieldDecodes(o, "filter", AsString) && FieldDecodes(o, "wrap", AsString)
      && FieldDecodes(o, "vflip", DeFromStr) && FieldDecodes(o, "srgb", DeFromStr)
      && FieldDecodes(o, "internal", AsString))
    ensures r.Some? ==> Covers(o, EncodeSampler(r.value, AsStrings).fields)
  {
    var filter :- Required(o, "filter", AsString);
    var wrap :- Required(o, "wrap", AsString);
    var vflip :- Required(o, "vflip", DeFromStr);
    var srgb :- Required(o, "srgb", DeFromStr);
    var internal :- Required(o, "internal", AsString);
    Some(Sampler(filter, wrap, vflip, srgb, internal))
  }

  function DecodeSampler(j: Json): (r: Option<Sampler>)
    ensures j.Obj? ==> r == SamplerFields(j.fields)
    ensures r.Some? <==> StructFields(j, SamplerLayout).Some? && SamplerFields(FieldsOf(j, SamplerLayout)).Some?
    ensures r.Some? ==> r == SamplerFields(FieldsOf(j, SamplerLayout))
  {
    DecodeStruct(j, SamplerLayout, SamplerFields)
  }

  /** An input is read from its six declared keys, each of which must be present
      and decode; other keys are ignored. */
  function InputFields(o: map<string, Json>): (r: Option<RenderPassInput>)
    ensures r.Some? <==> (
      FieldDecodes(o, "id", AsU64) && FieldDecodes(o, "src", AsString)
      && FieldDecodes(o, "ctype", AsString) && FieldDecodes(o, "channel", AsU64)
      && FieldDecodes(o, "sampler", DecodeSampler) && FieldDecodes(o, "published", AsU64))
    ensures r.Some? ==> (
      o["id"] == Num(r.value.id) && o["src"] == Str(r.value.src)
      && o["ctype"] == Str(r.value.ctype) && o["channel"] == Num(r.value.channel)
      && DecodeSampler(o["sampler"]) == Some(r.value.sampler) && o["published"] == Num(r.value.published))
  {
    var id :- Required(o, "id", AsU64);
    var src :- Required(o, "src", AsString);
    var ctype :- Required(o, "ctype", AsString);
    var channel :- Required(o, "channel", AsU64);
    var sampler :- Required(o, "sampler", DecodeSampler);
    var published :- Required(o, "published", AsU64);
    Some(RenderPassInput(id, src, ctype, channel, sampler, published))
  }

  function DecodeInput(j: Json): (r: Option<RenderPassInput>)
    ensures j.Obj? ==> r == InputFields(j.fields)
    ensures r.Some? <==> StructFields(j, InputLayout).Some? && InputFields(FieldsOf(j, InputLayout)).Some?
    ensures r.Some? ==> r == InputFields(FieldsOf(j, InputLayout))
  {
    DecodeStruct(j, InputLayout, InputFields)
  }

  function OutputFields(o: map<string, Json>): (r: Option<RenderPassOutput>)
    ensures r.Some? <==> FieldDecodes(o, "id", AsU64) && FieldDecodes(o, "channel", AsU64)
    ensures r.Some? ==> Covers(o, EncodeOutput(r.value).fields)
  {
    var id :- Required(o, "id", AsU64);
    var channel :- Required(o, "channel", AsU64);
    Some(RenderPassOutput(id, channel))
  }

  function DecodeOutput(j: Json): (r: Option<RenderPassOutput>)
    ensures j.Obj? ==> r == OutputFields(j.fields)
    ensures r.Some? <==> StructFields(j, OutputLayout).Some? && OutputFields(FieldsOf(j, OutputLayout)).Some?
    ensures r.Some? ==> r == OutputFields(FieldsOf(j, OutputLayout))
  {
    DecodeStruct(j, OutputLayout, OutputFields)
  }

  function DecodeInputs(j: Json): Option<seq<RenderPassInput>> {
    AsSeq(j, DecodeInput)
  }

  function DecodeOutputs(j: Json): Option<seq<RenderPassOutput>> {
    AsSeq(j, DecodeOutput)
  }

  /** A pass is read from its six declared keys; `pass_type` comes from "type".
      Other keys are ignored. */
  function PassFields(o: map<string, Json>): (r: Option<RenderPass>)
    ensures r.Some? <==> (
      FieldDecodes(o, "inputs", DecodeInputs)
      && FieldDecodes(o, "outputs", DecodeOutputs) && FieldDecodes(o, "code", AsString)
      && FieldDecodes(o, "name", AsString) && FieldDecodes(o, "description", AsString)
      && FieldDecodes(o, "type", AsString))
    ensures r.Some? ==> (
      DecodeInputs(o["inputs"]) == Some(r.value.inputs)
      && DecodeOutputs(o["outputs"]) == Some(r.value.outputs) && o["code"] == Str(r.value.code)
      && o["name"] == Str(r.value.name) && o["description"] == Str(r.value.description)
      && o["type"] == Str(r.value.passType))
  {
    var inputs :- Required(o, "inputs", DecodeInputs);
    var outputs :- Required(o, "outputs", DecodeOutputs);
    var code :- Required(o, "code", AsString);
    var name :- Required(o, "name", AsString);
    var description :- Required(o, "description", AsString);
    var passType :- Required(o, "type", AsString);
    Some(RenderPass(inputs, outputs, code, name, description, passType))
  }

  function DecodePass(j: Json): (r: Option<RenderPass>)
    ensures j.Obj? ==> r == PassFields(j.fields)
    ensures r.Some? <==> StructFields(j, PassLayout).Some? && PassFields(FieldsOf(j, PassLayout)).Some?
    ensures r.Some? ==> r == PassFields(FieldsOf(j, PassLayout))
  {
    DecodeStruct(j, PassLayout, PassFields)
  }

  /** The info is read from its eleven declared keys; other keys, such as the
      "usePreview" the newer API sends, play no part. */
  function InfoFields(o: map<string, Json>): (r: Option<ShaderInfo>)
    ensures r.Some? <==> (
      FieldDecodes(o, "id", AsString) && FieldDecodes(o, "date", AsString)
      && FieldDecodes(o, "viewed", AsU64) && FieldDecodes(o, "name", AsString)
      && FieldDecodes(o, "username", AsString) && FieldDecodes(o, "description", AsString)
      && FieldDecodes(o, "likes", AsU64) && FieldDecodes(o, "published", AsU64)
      && FieldDecodes(o, "flags", AsU64) && FieldDecodes(o, "tags", DecodeStrings)
      && FieldDecodes(o, "hasliked", AsU64))
    ensures r.Some? ==> (
      o["id"] == Str(r.value.id) && o["date"] == Str(r.value.date) && o["viewed"] == Num(r.value.viewed)
      && o["name"] == Str(r.value.name) && o["username"] == Str(r.value.username)
      && o["description"] == Str(r.value.description) && o["likes"] == Num(r.value.likes)
      && o["published"] == Num(r.value.published) && o["flags"] == Num(r.value.flags)
      && DecodeStrings(o["tags"]) == Some(r.value.tags) && o["hasliked"] == Num(r.value.hasliked))
  {
    var id :- Required(o, "id", AsString);
    var date :- Required(o, "date", AsString);
    var viewed :- Required(o, "viewed", AsU64);
    var name :- Required(o, "name", AsString);
    var username :- Required(o, "username", AsString);
    var description :- Required(o, "description", AsString);
    var likes :- Required(o, "likes", AsU64);
    var published :- Required(o, "published", AsU64);
    var flags :- Required(o, "flags", AsU64);
    var tags :- Required(o, "tags", DecodeStrings);
    var hasliked :- Required(o, "hasliked", AsU64);
    Some(ShaderInfo(id, date, viewed, name, username, description, likes, published,
                    flags, tags, hasliked))
  }

  function DecodeInfo(j: Json): (r: Option<ShaderInfo>)
    ensures j.Obj? ==> r == InfoFields(j.fields)
    ensures r.Some? <==> StructFields(j, InfoLayout).Some? && InfoFields(FieldsOf(j, InfoLayout)).Some?
    ensures r.Some? ==> r == InfoFields(FieldsOf(j, InfoLayout))
  {
    DecodeStruct(j, InfoLayout, InfoFields)
  }

  function DecodePasses(j: Json): Option<seq<RenderPass>> {
    AsSeq(j, DecodePass)
  }

  /** A shader is read from "ver", "info" and "renderpass", each of which must be
      present and decode; other keys are ignored. */
  function ShaderFields(o: map<string, Json>): (r: Option<Shader>)
    ensures r.Some? <==> (
      FieldDecodes(o, "ver", AsString)
      && FieldDecodes(o, "info", DecodeInfo) && FieldDecodes(o, "renderpass", DecodePasses))
    ensures r.Some? ==> (
      o["ver"] == Str(r.value.ver) && DecodeInfo(o["info"]) == Some(r.value.info)
      && DecodePasses(o["renderpass"]) == Some(r.value.renderpass))
  {
    var ver :- Required(o, "ver", AsString);
    var info :- Required(o, "info", DecodeInfo);
    var passes :- Required(o, "renderpass", DecodePasses);
    Some(Shader(ver, info, passes))
  }

  function DecodeShader(j: Json): (r: Option<Shader>)
    ensures j.Obj? ==> r == ShaderFields(j.fields)
    ensures r.Some? <==> StructFields(j, ShaderLayout).Some? && ShaderFields(FieldsOf(j, ShaderLayout)).Some?
    ensures r.Some? ==> r == ShaderFields(FieldsOf(j, ShaderLayout))
  {
    DecodeStruct(j, ShaderLayout, ShaderFields)
  }

  /** `Root` renames its one field to "Shader": the entries decode exactly when
      that key is present and its value decodes as a shader, whatever else they hold. */
  function RootFields(o: map<string, Json>): (r: Option<Root>)
    ensures r.Some? <==> FieldDecodes(o, "Shader", DecodeShader)
    ensures r.Some? ==> DecodeShader(o["Shader"]) == Some(r.value.shader)
  {
    var shader :- Required(o, "Shader", DecodeShader);
    Some(Root(shader))
  }

  function DecodeRoot(j: Json): (r: Option<Root>)
    ensures j.Obj? ==> r == RootFields(j.fields)
    ensures r.Some? <==> StructFields(j, RootLayout).Some? && RootFields(FieldsOf(j, RootLayout)).Some?
    ensures r.Some? ==> r == RootFields(FieldsOf(j, RootLayout))
  {
    DecodeStruct(j, RootLayout, RootFields)
  }

  // ---------------------------------------------------------------------------
  // Round trips. With the flags written as strings every record survives
  // encode-then-decode; with the derived serialiser only input-free passes do.

  /** No render pass of the shader reads an input channel. */
  predicate NoInputs(s: Shader) {
    forall i :: 0 <= i < |s.renderpass| ==> |s.renderpass[i].inputs| == 0
  }

  lemma SamplerRoundTrip(s: Sampler)
    ensures DecodeSampler(EncodeSampler(s, AsStrings)) == Some(s)
  {
  }

  /** A JSON boolean is not a string, so the derived encoding of a sampler never decodes. */
  lemma DerivedSamplerRejected(s: Sampler)
    ensures DecodeSampler(EncodeSampler(s, Derived)) == None
  {
    var o := EncodeSampler(s, Derived).fields;
    assert Required(o, "vflip", DeFromStr) == None;
  }

  lemma InputRoundTrip(x: RenderPassInput)
    ensures DecodeInput(EncodeInput(x, AsStrings)) == Some(x)
  {
    SamplerRoundTrip(x.sampler);
  }

  lemma DerivedInputRejected(x: RenderPassInput)
    ensures DecodeInput(EncodeInput(x, Derived)) == None
  {
    var o := EncodeInput(x, Derived).fields;
    DerivedSamplerRejected(x.sampler);
    assert Required(o, "sampler", DecodeSampler) == None;
  }

  lemma OutputRoundTrip(x: RenderPassOutput)
    ensures DecodeOutput(EncodeOutput(x)) == Some(x)
  {
  }

  lemma InputsRoundTrip(xs: seq<RenderPassInput>, e: FlagEncoding)
    ensures DecodeInputs(Arr(EncodeItems(xs, InputEncoder(e)))) == if e == AsStrings || |xs| == 0 then Some(xs) else None
  {
    var items := EncodeItems(xs, InputEncoder(e));
    if e == AsStrings {
      forall i | 0 <= i < |xs| ensures DecodeInput(InputEncoder(e)(xs[i])) == Some(xs[i]) {
        InputRoundTrip(xs[i]);
      }
      DecodeEncodedItems(xs, InputEncoder(e), DecodeInput);
    } else if |xs| > 0 {
      DerivedInputRejected(xs[0]);
      assert DecodeInput(items[0]) == None;
    }
  }

  lemma OutputsRoundTrip(xs: seq<RenderPassOutput>)
    ensures DecodeOutputs(Arr(EncodeItems(xs, EncodeOutput))) == Some(xs)
  {
    forall i | 0 <= i < |xs| ensures DecodeOutput(EncodeOutput(xs[i])) == Some(xs[i]) {
      OutputRoundTrip(xs[i]);
    }
    DecodeEncodedItems(xs, EncodeOutput, DecodeOutput);
  }

  lemma DecodePassFields(o: map<string, Json>, p: RenderPass)
    requires "inputs" in o && DecodeInputs(o["inputs"]) == Some(p.inputs)
    requires "outputs" in o && DecodeOutputs(o["outputs"]) == Some(p.outputs)
    requires "code" in o && o["code"] == Str(p.code) && "name" in o && o["name"] == Str(p.name)
    requires "description" in o && o["description"] == Str(p.description)
    requires "type" in o && o["type"] == Str(p.passType)
    ensures DecodePass(Obj(o)) == Some(p)
  {
    assert Required(o, "inputs", DecodeInputs) == Some(p.inputs);
    assert Required(o, "outputs", DecodeOutputs) == Some(p.outputs);
    assert Required(o, "code", AsString) == Some(p.code);
    assert Required(o, "name", AsString) == Some(p.name);
    assert Required(o, "description", AsString) == Some(p.description);
    assert Required(o, "type", AsString) == Some(p.passType);
  }

  lemma PassRoundTrip(p: RenderPass, e: FlagEncoding)
    ensures DecodePass(EncodePass(p, e)) == if e == AsStrings || |p.inputs| == 0 then Some(p) else None
  {
    var o := EncodePass(p, e).fields;
    InputsRoundTrip(p.inputs, e);
    if e == AsStrings || |p.inputs| == 0 {
      OutputsRoundTrip(p.outputs);
      DecodePassFields(o, p);
    } else {
      assert Required(o, "inputs", DecodeInputs) == None;
    }
  }

  lemma DecodeInfoFields(o: map<string, Json>, i: ShaderInfo)
    requires "id" in o && o["id"] == Str(i.id) && "date" in o && o["date"] == Str(i.date)
    requires "viewed" in o && o["viewed"] == Num(i.viewed) && "name" in o && o["name"] == Str(i.name)
    requires "username" in o && o["username"] == Str(i.username)
    requires "description" in o && o["description"] == Str(i.description)
    requires "likes" in o && o["likes"] == Num(i.likes)
    requires "published" in o && o["published"] == Num(i.published)
    requires "flags" in o && o["flags"] == Num(i.flags)
    requires "tags" in o && DecodeStrings(o["tags"]) == Some(i.tags)
    requires "hasliked" in o && o["hasliked"] == Num(i.hasliked)
    ensures DecodeInfo(Obj(o)) == Some(i)
  {
    assert Required(o, "id", AsString) == Some(i.id);
    assert Required(o, "date", AsString) == Some(i.date);
    assert Required(o, "viewed", AsU64) == Some(i.viewed);
    assert Required(o, "name", AsString) == Some(i.name);
    assert Required(o, "username", AsString) == Some(i.username);
    assert Required(o, "description", AsString) == Some(i.description);
    assert Required(o, "likes", AsU64) == Some(i.likes);
    assert Required(o, "published", AsU64) == Some(i.published);
    assert Required(o, "flags", AsU64) == Some(i.flags);
    assert Required(o, "tags", DecodeStrings) == Some(i.tags);
    assert Required(o, "hasliked", AsU64) == Some(i.hasliked);
  }

  lemma InfoRoundTrip(i: ShaderInfo)
    ensures DecodeInfo(EncodeInfo(i)) == Some(i)
  {
    StringsRoundTrip(i.tags);
    DecodeInfoFields(EncodeInfo(i).fields, i);
  }

  /** Keys outside the declared eleven, such as the "usePreview" the newer API
      sends, do not change the decoded info. */
  lemma InfoIgnoresUnknownKey(o: map<string, Json>, k: string, v: Json)
    requires k !in InfoKeys
    ensures DecodeInfo(Obj(o[k := v])) == DecodeInfo(Obj(o))
  {
    var o' := o[k := v];
    assert Required(o', "id", AsString) == Required(o, "id", AsString);
    assert Required(o', "date", AsString) == Required(o, "date", AsString);
    assert Required(o', "name", AsString) == Required(o, "name", AsString);
    assert Required(o', "username", AsString) == Required(o, "username", AsString);
    assert Required(o', "description", AsString) == Required(o, "description", AsString);
    assert Required(o', "viewed", AsU64) == Required(o, "viewed", AsU64);
    assert Required(o', "likes", AsU64) == Required(o, "likes", AsU64);
    assert Required(o', "published", AsU64) == Required(o, "published", AsU64);
    assert Required(o', "flags", AsU64) == Required(o, "flags", AsU64);
    assert Required(o', "hasliked", AsU64) == Required(o, "hasliked", AsU64);
    assert Required(o', "tags", DecodeStrings) == Required(o, "tags", DecodeStrings);
  }

  lemma PassesRoundTrip(ps: seq<RenderPass>, e: FlagEncoding)
    ensures DecodePasses(Arr(EncodeItems(ps, PassEncoder(e))))
        == if e == AsStrings || forall i :: 0 <= i < |ps| ==> |ps[i].inputs| == 0 then Some(ps) else None
  {
    if e == AsStrings || forall i :: 0 <= i < |ps| ==> |ps[i].inputs| == 0 {
      PassesSurvive(ps, e);
    } else {
      var i :| 0 <= i < |ps| && |ps[i].inputs| != 0;
      PassesRejected(ps, e, i);
    }
  }

  /** Every pass surviving on its own, the list survives. */
  lemma PassesSurvive(ps: seq<RenderPass>, e: FlagEncoding)
    requires e == AsStrings || forall i :: 0 <= i < |ps| ==> |ps[i].inputs| == 0
    ensures DecodePasses(Arr(EncodeItems(ps, PassEncoder(e)))) == Some(ps)
  {
    forall i | 0 <= i < |ps| ensures DecodePass(PassEncoder(e)(ps[i])) == Some(ps[i]) {
      PassRoundTrip(ps[i], e);
    }
    DecodeEncodedItems(ps, PassEncoder(e), DecodePass);
  }

  /** One pass with inputs, written by the derived serialiser, sinks the whole list. */
  lemma PassesRejected(ps: seq<RenderPass>, e: FlagEncoding, i: nat)
    requires e == Derived && i < |ps| && |ps[i].inputs| != 0
    ensures DecodePasses(Arr(EncodeItems(ps, PassEncoder(e)))) == None
  {
    var items := EncodeItems(ps, PassEncoder(e));
    PassRoundTrip(ps[i], e);
    assert items[i] == EncodePass(ps[i], e);
    assert DecodePass(items[i]) == None;
  }

  lemma DecodeShaderFields(o: map<string, Json>, s: Shader)
    requires "ver" in o && o["ver"] == Str(s.ver)
    requires "info" in o && DecodeInfo(o["info"]) == Some(s.info)
    requires "renderpass" in o && DecodePasses(o["renderpass"]) == Some(s.renderpass)
    ensures DecodeShader(Obj(o)) == Some(s)
  {
    assert Required(o, "ver", AsString) == Some(s.ver);
    assert Required(o, "info", DecodeInfo) == Some(s.info);
    assert Required(o, "renderpass", DecodePasses) == Some(s.renderpass);
  }

  /** Every declared field is required: a document missing one of them is
      rejected, however the rest of it looks. */
  lemma MissingKeyRejected(j: Json, key: string)
    requires j.Obj? && key !in j.fields
    ensures key in {"id", "src", "ctype", "channel", "sampler", "published"} ==> DecodeInput(j).None?
    ensures key in {"inputs", "outputs", "code", "name", "description", "type"} ==> DecodePass(j).None?
    ensures key in {"ver", "info", "renderpass"} ==> DecodeShader(j).None?
    ensures key == "Shader" ==> DecodeRoot(j).None?
  {
  }

  /** A shader whose pass list does not decode does not decode. */
  lemma DecodeShaderNeedsPasses(o: map<string, Json>)
    requires "renderpass" in o && DecodePasses(o["renderpass"]) == None
    ensures DecodeShader(Obj(o)) == None
  {
    assert Required(o, "renderpass", DecodePasses) == None;
  }

  lemma ShaderRoundTrip(s: Shader, e: FlagEncoding)
    ensures DecodeShader(EncodeShader(s, e)) == if e == AsStrings || NoInputs(s) then Some(s) else None
  {
    if e == AsStrings || NoInputs(s) {
      ShaderSurvives(s, e);
    } else {
      ShaderRejected(s, e);
    }
  }

  lemma ShaderSurvives(s: Shader, e: FlagEncoding)
    requires e == AsStrings || NoInputs(s)
    ensures DecodeShader(EncodeShader(s, e)) == Some(s)
  {
    var o := EncodeShader(s, e).fields;
    PassesSurvive(s.renderpass, e);
    InfoRoundTrip(s.info);
    DecodeShaderFields(o, s);
  }

  lemma ShaderRejected(s: Shader, e: FlagEncoding)
    requires e == Derived && !NoInputs(s)
    ensures DecodeShader(EncodeShader(s, e)) == None
  {
    var o := EncodeShader(s, e).fields;
    var i :| 0 <= i < |s.renderpass| && |s.renderpass[i].inputs| != 0;
    PassesRejected(s.renderpass, e, i);
    DecodeShaderNeedsPasses(o);
  }

  /** The round trip `src/main.rs` relies on: with the derived serialiser it holds
      exactly for shaders none of whose passes has inputs. */
  lemma DerivedRoundTrip(r: Root)
    ensures DecodeRoot(EncodeRoot(r, Derived)) == if NoInputs(r.shader) then Some(r) else None
  {
    ShaderRoundTrip(r.shader, Derived);
    var o := EncodeRoot(r, Derived).fields;
    assert Required(o, "Shader", DecodeShader) == DecodeShader(EncodeShader(r.shader, Derived));
  }

  /** Writing the flags as strings makes every document survive the round trip. */
  lemma FixedRoundTrip(r: Root)
    ensures DecodeRoot(EncodeRoot(r, AsStrings)) == Some(r)
  {
    ShaderRoundTrip(r.shader, AsStrings);
    var o := EncodeRoot(r, AsStrings).fields;
    assert Required(o, "Shader", DecodeShader) == Some(r.shader);
  }

  // ---------------------------------------------------------------------------
  // The array shape.

  /** An array is read as the object that names its elements by the declared
      field order. */
  lemma RootArrayReadsAsObject(items: seq<Json>)
    requires Positional(items, RootLayout).Some?
    ensures DecodeRoot(Arr(items)) == DecodeRoot(Obj(Positional(items, RootLayout).value))
  {
    assert RootLayout.Valid();
    ArrayReadsAsObject(items, RootLayout);
  }

  /** No field is defaulted, so an array decodes only when it holds exactly one
      element per field; unknown keys may be ignored, surplus elements may not. */
  lemma ShaderArrayLength(items: seq<Json>)
    requires DecodeShader(Arr(items)).Some?
    ensures |items| == 3
  {
    PositionalNeedsEveryField(items, ShaderLayout);
  }

  lemma RootArrayLength(items: seq<Json>)
    requires DecodeRoot(Arr(items)).Some?
    ensures |items| == 1
  {
    PositionalNeedsEveryField(items, RootLayout);
  }

  /** The document `[shader]` is the root holding that shader. */
  lemma RootFromArray(r: Root)
    ensures DecodeRoot(Arr([EncodeShader(r.shader, AsStrings)])) == Some(r)
  {
    var items := [EncodeShader(r.shader, AsStrings)];
    var o := Positional(items, RootLayout).value;
    assert RootLayout.keys[..1] == RootLayout.keys;
    assert o["Shader"] == items[0];
    ShaderRoundTrip(r.shader, AsStrings);
    assert Required(o, "Shader", DecodeShader) == Some(r.shader);
  }
}
