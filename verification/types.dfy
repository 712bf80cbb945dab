/** The JSON schema of the Shadertoy API as the `shadertoy` crate declares it
    (shadertoy/src/types.rs). Every struct denies unknown fields and has no
    defaulted field, so an object decodes iff its keys are exactly the declared
    ones and every value decodes, and an array iff it lists one value per field
    in declaration order; the sampler flags are plain strings. */
module Types {
  import opened Wrappers
  import opened Json
  import Text

  datatype Sampler = Sampler(filter: string, wrap: string, vflip: string, srgb: string, internal: string)

  datatype RenderPassInput = RenderPassInput(
    id: U64, src: string, ctype: string, channel: U64, sampler: Sampler, published: U64)

  datatype RenderPassOutput = RenderPassOutput(id: U64, channel: U64)

  datatype RenderPass = RenderPass(
    inputs: seq<RenderPassInput>, outputs: seq<RenderPassOutput>,
    code: string, name: string, description: string, passType: string)

  datatype ShaderInfo = ShaderInfo(
    id: string, date: string, viewed: U64, name: string, username: string, description: string,
    likes: U64, published: U64, flags: U64, tags: seq<string>, hasliked: U64, usePreview: U64)

  datatype Shader = Shader(ver: string, info: ShaderInfo, renderpass: seq<RenderPass>)

  // ---------------------------------------------------------------------------
  // JSON keys of each struct.

  /** The JSON keys of each struct in field order. `pass_type` is renamed to
      "type"; `rename_all = "camelCase"` only turns `use_preview` into
      "usePreview". */
  const SamplerKeyList: seq<string> := ["filter", "wrap", "vflip", "srgb", "internal"]
  const InputKeyList: seq<string> := ["id", "src", "ctype", "channel", "sampler", "published"]
  const OutputKeyList: seq<string> := ["id", "channel"]
  const PassKeyList: seq<string> := ["inputs", "outputs", "code", "name", "description", "type"]
  const InfoKeyList: seq<string> :=
    ["id", "date", "viewed", "name", "username", "description", "likes", "published",
     "flags", "tags", "hasliked", "usePreview"]
  const ShaderKeyList: seq<string> := ["ver", "info", "renderpass"]

  const SamplerKeys: set<string> := {"filter", "wrap", "vflip", "srgb", "internal"}
  const InputKeys: set<string> := {"id", "src", "ctype", "channel", "sampler", "published"}
  const OutputKeys: set<string> := {"id", "channel"}
  const PassKeys: set<string> := {"inputs", "outputs", "code", "name", "description", "type"}
  const InfoKeys: set<string> :=
    {"id", "date", "viewed", "name", "username", "description", "likes", "published",
     "flags", "tags", "hasliked", "usePreview"}
  const ShaderKeys: set<string> := {"ver", "info", "renderpass"}

  /** No field has a default and every struct denies unknown fields. */
  const SamplerLayout: Layout := Layout(SamplerKeyList, SamplerKeys, {}, true)
  const InputLayout: Layout := Layout(InputKeyList, InputKeys, {}, true)
  const OutputLayout: Layout := Layout(OutputKeyList, OutputKeys, {}, true)
  const PassLayout: Layout := Layout(PassKeyList, PassKeys, {}, true)
  const InfoLayout: Layout := Layout(InfoKeyList, InfoKeys, {}, true)
  const ShaderLayout: Layout := Layout(ShaderKeyList, ShaderKeys, {}, true)

  /** Each layout's key set is its list's. */
  lemma SamplerLayoutValid() ensures SamplerLayout.Valid() {}
  lemma InputLayoutValid() ensures InputLayout.Valid() {}
  lemma OutputLayoutValid() ensures OutputLayout.Valid() {}
  lemma PassLayoutValid() ensures PassLayout.Valid() {}
  lemma InfoLayoutValid() ensures InfoLayout.Valid() {}
  lemma ShaderLayoutValid() ensures ShaderLayout.Valid() {}

  /** The Rust field names of `ShaderInfo`, in declaration order. */
  const InfoFieldNames: seq<string> :=
    ["id", "date", "viewed", "name", "username", "description", "likes", "published",
     "flags", "tags", "hasliked", "use_preview"]

  lemma UsePreviewIsCamelCased()
    ensures Text.CamelCase("use_preview") == "usePreview"
  {
    assert Text.IsSingleWord("use") && Text.IsSingleWord("preview");
    Text.TwoWordCamelCase("use", "preview");
    assert "use" + "_" + "preview" == "use_preview";
    assert Text.UpperChar('p') == 'P';
    assert "use" + ['P'] + "review" == "usePreview";
  }

  /** Each `ShaderInfo` key is the camelCase spelling of the Rust field in the
      same position (`rename_all = "camelCase"`): the one-word fields keep their
      names and `use_preview` becomes "usePreview". */
  lemma InfoKeyIsCamelCase(i: nat)
    requires i < |InfoFieldNames|
    ensures i < |InfoKeyList| && Text.CamelCase(InfoFieldNames[i]) == InfoKeyList[i]
  {
    if i == 11 {
      UsePreviewIsCamelCased();
    } else {
      var f := InfoFieldNames[i];
      assert f == InfoKeyList[i];
      assert Text.IsSingleWord(f);
      Text.SingleWordCamelCase(f);
    }
  }

  // ---------------------------------------------------------------------------
  // Serialisation (serde's derived `Serialize`).

  function EncodeSampler(s: Sampler): Json {
    Obj(map["filter" := Str(s.filter), "wrap" := Str(s.wrap), "vflip" := Str(s.vflip),
            "srgb" := Str(s.srgb), "internal" := Str(s.internal)])
  }

  function EncodeInput(x: RenderPassInput): Json {
    Obj(map["id" := Num(x.id), "src" := Str(x.src), "ctype" := Str(x.ctype),
            "channel" := Num(x.channel), "sampler" := EncodeSampler(x.sampler),
            "published" := Num(x.published)])
  }

  function EncodeOutput(x: RenderPassOutput): Json {
    Obj(map["id" := Num(x.id), "channel" := Num(x.channel)])
  }

  function EncodePass(p: RenderPass): Json {
    Obj(map["inputs" := Arr(EncodeItems(p.inputs, EncodeInput)),
            "outputs" := Arr(EncodeItems(p.outputs, EncodeOutput)),
            "code" := Str(p.code), "name" := Str(p.name),
            "description" := Str(p.description), "type" := Str(p.passType)])
  }

  function EncodeInfo(i: ShaderInfo): Json {
    Obj(map["id" := Str(i.id), "date" := Str(i.date), "viewed" := Num(i.viewed),
            "name" := Str(i.name), "username" := Str(i.username),
            "description" := Str(i.description), "likes" := Num(i.likes),
            "published" := Num(i.published), "flags" := Num(i.flags),
            "tags" := EncodeStrings(i.tags), "hasliked" := Num(i.hasliked),
            "usePreview" := Num(i.usePreview)])
  }

  function EncodeShader(s: Shader): Json {
    Obj(map["ver" := Str(s.ver), "info" := EncodeInfo(s.info),
            "renderpass" := Arr(EncodeItems(s.renderpass, EncodePass))])
  }

  // ---------------------------------------------------------------------------
  // Deserialisation (serde's derived `Deserialize` with `deny_unknown_fields`).
  // A struct arrives as an object or as an array of its fields in order
  // (`Json.StructFields`); either way the entries must be exactly the declared
  // keys, and `...Fields` reads the struct from them. A struct none of whose
  // fields is itself a struct re-encodes to the entries it was read from; a
  // nested struct is tied to its own decoder instead, since it too may have
  // arrived in either shape.

  /** The entries a struct is read from hold exactly its keys. */
  predicate ExactKeys(o: map<string, Json>, keys: set<string>) {
    o.Keys == keys
  }

  function SamplerFields(o: map<string, Json>): (r: Option<Sampler>)
    ensures r.Some? <==> (
      FieldDecodes(o, "filter", AsString) && FieldDecodes(o, "wrap", AsString)
      && FieldDecodes(o, "vflip", AsString) && FieldDecodes(o, "srgb", AsString)
      && FieldDecodes(o, "internal", AsString))
    ensures r.Some? && KnownKeysOnly(o, SamplerKeys) ==> EncodeSampler(r.value).fields == o
  {
    var filter :- Required(o, "filter", AsString);
    var wrap :- Required(o, "wrap", AsString);
    var vflip :- Required(o, "vflip", AsString);
    var srgb :- Required(o, "srgb", AsString);
    var internal :- Required(o, "internal", AsString);
    var r := Sampler(filter, wrap, vflip, srgb, internal);
    assert KnownKeysOnly(o, SamplerKeys) ==> EncodeSampler(r).fields == o;
    Some(r)
  }

  function DecodeSampler(j: Json): (r: Option<Sampler>)
    ensures j.Obj? && !KnownKeysOnly(j.fields, SamplerKeys) ==> r.None?
    ensures r.Some? <==> StructFields(j, SamplerLayout).Some? && SamplerFields(FieldsOf(j, SamplerLayout)).Some?
    ensures r.Some? ==> r == SamplerFields(FieldsOf(j, SamplerLayout))
    ensures r.Some? ==> EncodeSampler(r.value) == Obj(FieldsOf(j, SamplerLayout))
    ensures r.Some? && j.Obj? ==> EncodeSampler(r.value) == j
  {
    SamplerLayoutValid();
    DecodeStruct(j, SamplerLayout, SamplerFields)
  }

  function InputFields(o: map<string, Json>): (r: Option<RenderPassInput>)
    ensures r.Some? <==> (
      FieldDecodes(o, "id", AsU64) && FieldDecodes(o, "src", AsString)
      && FieldDecodes(o, "ctype", AsString) && FieldDecodes(o, "channel", AsU64)
      && FieldDecodes(o, "sampler", DecodeSampler) && FieldDecodes(o, "published", AsU64))
    ensures r.Some? ==> (
      o["id"] == Num(r.value.id) && o["src"] == Str(r.value.src)
      && o["ctype"] == Str(r.value.ctype) && o["channel"] == Num(r.value.channel)
      && DecodeSampler(o["sampler"]) == Some(r.value.sampler) && o["published"] == Num(r.value.published))
    ensures r.Some? && KnownKeysOnly(o, InputKeys) && o["sampler"].Obj? ==> EncodeInput(r.value).fields == o
  {
    var id :- Required(o, "id", AsU64);
    var src :- Required(o, "src", AsString);
    var ctype :- Required(o, "ctype", AsString);
    var channel :- Required(o, "channel", AsU64);
    var sampler :- Required(o, "sampler", DecodeSampler);
    var published :- Required(o, "published", AsU64);
    var r := RenderPassInput(id, src, ctype, channel, sampler, published);
    assert KnownKeysOnly(o, InputKeys) && o["sampler"].Obj? ==> EncodeInput(r).fields == o;
    Some(r)
  }

  function DecodeInput(j: Json): (r: Option<RenderPassInput>)
    ensures j.Obj? && !KnownKeysOnly(j.fields, InputKeys) ==> r.None?
    ensures r.Some? <==> StructFields(j, InputLayout).Some? && InputFields(FieldsOf(j, InputLayout)).Some?
    ensures r.Some? ==> r == InputFields(FieldsOf(j, InputLayout))
    ensures r.Some? ==> KnownKeysOnly(FieldsOf(j, InputLayout), InputKeys)
    ensures r.Some? && j.Obj? && "sampler" in j.fields && j.fields["sampler"].Obj? ==> EncodeInput(r.value) == j
  {
    InputLayoutValid();
    DecodeStruct(j, InputLayout, InputFields)
  }

  function OutputFields(o: map<string, Json>): (r: Option<RenderPassOutput>)
    ensures r.Some? <==> FieldDecodes(o, "id", AsU64) && FieldDecodes(o, "channel", AsU64)
    ensures r.Some? && KnownKeysOnly(o, OutputKeys) ==> EncodeOutput(r.value).fields == o
  {
    var id :- Required(o, "id", AsU64);
    var channel :- Required(o, "channel", AsU64);
    var r := RenderPassOutput(id, channel);
    assert KnownKeysOnly(o, OutputKeys) ==> EncodeOutput(r).fields == o;
    Some(r)
  }

  function DecodeOutput(j: Json): (r: Option<RenderPassOutput>)
    ensures j.Obj? && !KnownKeysOnly(j.fields, OutputKeys) ==> r.None?
    ensures r.Some? <==> StructFields(j, OutputLayout).Some? && OutputFields(FieldsOf(j, OutputLayout)).Some?
    ensures r.Some? ==> r == OutputFields(FieldsOf(j, OutputLayout))
    ensures r.Some? ==> EncodeOutput(r.value) == Obj(FieldsOf(j, OutputLayout))
    ensures r.Some? && j.Obj? ==> EncodeOutput(r.value) == j
  {
    OutputLayoutValid();
    DecodeStruct(j, OutputLayout, OutputFields)
  }

  function DecodeInputs(j: Json): Option<seq<RenderPassInput>> {
    AsSeq(j, DecodeInput)
  }

  function DecodeOutputs(j: Json): Option<seq<RenderPassOutput>> {
    AsSeq(j, DecodeOutput)
  }

  function PassFields(o: map<string, Json>): (r: Option<RenderPass>)
    ensures r.Some? <==> (
      FieldDecodes(o, "inputs", DecodeInputs) && FieldDecodes(o, "outputs", DecodeOutputs)
      && FieldDecodes(o, "code", AsString) && FieldDecodes(o, "name", AsString)
      && FieldDecodes(o, "description", AsString) && FieldDecodes(o, "type", AsString))
    ensures r.Some? ==> (
      DecodeInputs(o["inputs"]) == Some(r.value.inputs)
      && DecodeOutputs(o["outputs"]) == Some(r.value.outputs) && o["code"] == Str(r.value.code)
      && o["name"] == Str(r.value.name) && o["description"] == Str(r.value.description)
      && o["type"] == Str(r.value.passType))
  {
    var inputs :- Required(o, "inputs", DecodeInputs);
    var outputs :- Required(o, "outputs", DecodeOutputs);
    var code :- Required(o, "code", AsString);
    var name :- Required(o, "name", AsString);
    var description :- Required(o, "description", AsString);
    var passType :- Required(o, "type", AsString);
    Some(RenderPass(inputs, outputs, code, name, description, passType))
  }

  function DecodePass(j: Json): (r: Option<RenderPass>)
    ensures j.Obj? && !KnownKeysOnly(j.fields, PassKeys) ==> r.None?
    ensures r.Some? <==> StructFields(j, PassLayout).Some? && PassFields(FieldsOf(j, PassLayout)).Some?
    ensures r.Some? ==> r == PassFields(FieldsOf(j, PassLayout))
    ensures r.Some? ==> KnownKeysOnly(FieldsOf(j, PassLayout), PassKeys)
  {
    PassLayoutValid();
    DecodeStruct(j, PassLayout, PassFields)
  }

  function InfoFields(o: map<string, Json>): (r: Option<ShaderInfo>)
    ensures r.Some? <==> (
      FieldDecodes(o, "id", AsString) && FieldDecodes(o, "date", AsString)
      && FieldDecodes(o, "viewed", AsU64) && FieldDecodes(o, "name", AsString)
      && FieldDecodes(o, "username", AsString) && FieldDecodes(o, "description", AsString)
      && FieldDecodes(o, "likes", AsU64) && FieldDecodes(o, "published", AsU64)
      && FieldDecodes(o, "flags", AsU64) && FieldDecodes(o, "tags", DecodeStrings)
      && FieldDecodes(o, "hasliked", AsU64) && FieldDecodes(o, "usePreview", AsU64))
    ensures r.Some? && KnownKeysOnly(o, InfoKeys) ==> EncodeInfo(r.value).fields == o
  {
    var id :- Required(o, "id", AsString);
    var date :- Required(o, "date", AsString);
    var viewed :- Required(o, "viewed", AsU64);
    var name :- Required(o, "name", AsString);
    var username :- Required(o, "username", AsString);
    var description :- Required(o, "description", AsString);
    var likes :- Required(o, "likes", AsU64);
    var published :- Required(o, "published", AsU64);
    var flags :- Required(o, "flags", AsU64);
    var tags :- Required(o, "tags", DecodeStrings);
    var hasliked :- Required(o, "hasliked", AsU64);
    var usePreview :- Required(o, "usePreview", AsU64);
    var r := ShaderInfo(id, date, viewed, name, username, description, likes, published,
                        flags, tags, hasliked, usePreview);
    assert KnownKeysOnly(o, InfoKeys) ==> EncodeInfo(r).fields == o;
    Some(r)
  }

  function DecodeInfo(j: Json): (r: Option<ShaderInfo>)
    ensures j.Obj? && !KnownKeysOnly(j.fields, InfoKeys) ==> r.None?
    ensures r.Some? <==> StructFields(j, InfoLayout).Some? && InfoFields(FieldsOf(j, InfoLayout)).Some?
    ensures r.Some? ==> r == InfoFields(FieldsOf(j, InfoLayout))
    ensures r.Some? ==> EncodeInfo(r.value) == Obj(FieldsOf(j, InfoLayout))
    ensures r.Some? && j.Obj? ==> EncodeInfo(r.value) == j
  {
    InfoLayoutValid();
    DecodeStruct(j, InfoLayout, InfoFields)
  }

  function DecodePasses(j: Json): Option<seq<RenderPass>> {
    AsSeq(j, DecodePass)
  }

  function ShaderFields(o: map<string, Json>): (r: Option<Shader>)
    ensures r.Some? <==> (
      FieldDecodes(o, "ver", AsString) && FieldDecodes(o, "info", DecodeInfo)
      && FieldDecodes(o, "renderpass", DecodePasses))
    ensures r.Some? ==> (
      o["ver"] == Str(r.value.ver) && DecodeInfo(o["info"]) == Some(r.value.info)
      && DecodePasses(o["renderpass"]) == Some(r.value.renderpass))
  {
    var ver :- Required(o, "ver", AsString);
    var info :- Required(o, "info", DecodeInfo);
    var passes :- Required(o, "renderpass", DecodePasses);
    Some(Shader(ver, info, passes))
  }

  function DecodeShader(j: Json): (r: Option<Shader>)
    ensures j.Obj? && !KnownKeysOnly(j.fields, ShaderKeys) ==> r.None?
    ensures r.Some? <==> StructFields(j, ShaderLayout).Some? && ShaderFields(FieldsOf(j, ShaderLayout)).Some?
    ensures r.Some? ==> r == ShaderFields(FieldsOf(j, ShaderLayout))
    ensures r.Some? ==> KnownKeysOnly(FieldsOf(j, ShaderLayout), ShaderKeys)
  {
    ShaderLayoutValid();
    DecodeStruct(j, ShaderLayout, ShaderFields)
  }

  // ---------------------------------------------------------------------------
  // Round trips.

  lemma SamplerRoundTrip(s: Sampler)
    ensures DecodeSampler(EncodeSampler(s)) == Some(s)
  {
  }

  lemma InputRoundTrip(x: RenderPassInput)
    ensures DecodeInput(EncodeInput(x)) == Some(x)
  {
    SamplerRoundTrip(x.sampler);
    var o := EncodeInput(x).fields;
    assert ExactKeys(o, InputKeys);
  }

  lemma OutputRoundTrip(x: RenderPassOutput)
    ensures DecodeOutput(EncodeOutput(x)) == Some(x)
  {
  }

  /** The `RenderPass` decoder reads each field from its own key. */
  lemma PassFieldsRead(o: map<string, Json>, p: RenderPass)
    requires "inputs" in o && DecodeInputs(o["inputs"]) == Some(p.inputs)
    requires "outputs" in o && DecodeOutputs(o["outputs"]) == Some(p.outputs)
    requires "code" in o && "name" in o && o["code"] == Str(p.code) && o["name"] == Str(p.name)
    requires "description" in o && "type" in o && o["description"] == Str(p.description) && o["type"] == Str(p.passType)
    ensures PassFields(o) == Some(p)
  {
    assert Required(o, "inputs", DecodeInputs) == Some(p.inputs);
    assert Required(o, "outputs", DecodeOutputs) == Some(p.outputs);
    assert Required(o, "code", AsString) == Some(p.code);
    assert Required(o, "name", AsString) == Some(p.name);
    assert Required(o, "description", AsString) == Some(p.description);
    assert Required(o, "type", AsString) == Some(p.passType);
  }

  lemma DecodePassFields(o: map<string, Json>, p: RenderPass)
    requires ExactKeys(o, PassKeys)
    requires DecodeInputs(o["inputs"]) == Some(p.inputs)
    requires DecodeOutputs(o["outputs"]) == Some(p.outputs)
    requires o["code"] == Str(p.code) && o["name"] == Str(p.name)
    requires o["description"] == Str(p.description) && o["type"] == Str(p.passType)
    ensures DecodePass(Obj(o)) == Some(p)
  {
    PassLayoutValid();
    ObjectReadsFields(o, PassLayout, PassFields);
    PassFieldsRead(o, p);
  }

  lemma InputsRoundTrip(xs: seq<RenderPassInput>)
    ensures DecodeInputs(Arr(EncodeItems(xs, EncodeInput))) == Some(xs)
  {
    forall i | 0 <= i < |xs| ensures DecodeInput(EncodeInput(xs[i])) == Some(xs[i]) {
      InputRoundTrip(xs[i]);
    }
    DecodeEncodedItems(xs, EncodeInput, DecodeInput);
  }

  lemma OutputsRoundTrip(xs: seq<RenderPassOutput>)
    ensures DecodeOutputs(Arr(EncodeItems(xs, EncodeOutput))) == Some(xs)
  {
    forall i | 0 <= i < |xs| ensures DecodeOutput(EncodeOutput(xs[i])) == Some(xs[i]) {
      OutputRoundTrip(xs[i]);
    }
    DecodeEncodedItems(xs, EncodeOutput, DecodeOutput);
  }

  lemma PassEncoding(p: RenderPass)
    ensures var o := EncodePass(p).fields;
      && ExactKeys(o, PassKeys)
      && o["inputs"] == Arr(EncodeItems(p.inputs, EncodeInput))
      && o["outputs"] == Arr(EncodeItems(p.outputs, EncodeOutput))
      && o["code"] == Str(p.code) && o["name"] == Str(p.name)
      && o["description"] == Str(p.description) && o["type"] == Str(p.passType)
  {
  }

  lemma PassRoundTrip(p: RenderPass)
    ensures DecodePass(EncodePass(p)) == Some(p)
  {
    PassEncoding(p);
    InputsRoundTrip(p.inputs);
    OutputsRoundTrip(p.outputs);
    DecodePassFields(EncodePass(p).fields, p);
  }


  /** The `ShaderInfo` decoder reads each field from its own key. */
  lemma InfoFieldsRead(o: map<string, Json>, i: ShaderInfo)
    requires "id" in o && "date" in o && "viewed" in o && o["id"] == Str(i.id) && o["date"] == Str(i.date) && o["viewed"] == Num(i.viewed)
    requires "name" in o && "username" in o && o["name"] == Str(i.name) && o["username"] == Str(i.username)
    requires "description" in o && "likes" in o && o["description"] == Str(i.description) && o["likes"] == Num(i.likes)
    requires "published" in o && "flags" in o && o["published"] == Num(i.published) && o["flags"] == Num(i.flags)
    requires "tags" in o && DecodeStrings(o["tags"]) == Some(i.tags)
    requires "hasliked" in o && "usePreview" in o && o["hasliked"] == Num(i.hasliked) && o["usePreview"] == Num(i.usePreview)
    ensures InfoFields(o) == Some(i)
  {
    assert Required(o, "id", AsString) == Some(i.id);
    assert Required(o, "date", AsString) == Some(i.date);
    assert Required(o, "viewed", AsU64) == Some(i.viewed);
    assert Required(o, "name", AsString) == Some(i.name);
    assert Required(o, "username", AsString) == Some(i.username);
    assert Required(o, "description", AsString) == Some(i.description);
    assert Required(o, "likes", AsU64) == Some(i.likes);
    assert Required(o, "published", AsU64) == Some(i.published);
    assert Required(o, "flags", AsU64) == Some(i.flags);
    assert Required(o, "tags", DecodeStrings) == Some(i.tags);
    assert Required(o, "hasliked", AsU64) == Some(i.hasliked);
    assert Required(o, "usePreview", AsU64) == Some(i.usePreview);
  }

  lemma DecodeInfoFields(o: map<string, Json>, i: ShaderInfo)
    requires ExactKeys(o, InfoKeys)
    requires o["id"] == Str(i.id) && o["date"] == Str(i.date) && o["viewed"] == Num(i.viewed)
    requires o["name"] == Str(i.name) && o["username"] == Str(i.username)
    requires o["description"] == Str(i.description) && o["likes"] == Num(i.likes)
    requires o["published"] == Num(i.published) && o["flags"] == Num(i.flags)
    requires DecodeStrings(o["tags"]) == Some(i.tags)
    requires o["hasliked"] == Num(i.hasliked) && o["usePreview"] == Num(i.usePreview)
    ensures DecodeInfo(Obj(o)) == Some(i)
  {
    InfoLayoutValid();
    ObjectReadsFields(o, InfoLayout, InfoFields);
    InfoFieldsRead(o, i);
  }


  lemma InfoEncodingHead(i: ShaderInfo)
    ensures var o := EncodeInfo(i).fields;
      && ExactKeys(o, InfoKeys)
      && o["id"] == Str(i.id) && o["date"] == Str(i.date) && o["viewed"] == Num(i.viewed)
      && o["name"] == Str(i.name) && o["username"] == Str(i.username)
      && o["description"] == Str(i.description)
  {
  }

  lemma InfoEncodingTail(i: ShaderInfo)
    ensures var o := EncodeInfo(i).fields;
      && o["likes"] == Num(i.likes) && o["published"] == Num(i.published)
      && o["flags"] == Num(i.flags) && o["tags"] == EncodeStrings(i.tags)
      && o["hasliked"] == Num(i.hasliked) && o["usePreview"] == Num(i.usePreview)
  {
  }

  lemma InfoRoundTrip(i: ShaderInfo)
    ensures DecodeInfo(EncodeInfo(i)) == Some(i)
  {
    InfoEncodingHead(i);
    InfoEncodingTail(i);
    StringsRoundTrip(i.tags);
    DecodeInfoFields(EncodeInfo(i).fields, i);
  }

  lemma ShaderFieldsRead(o: map<string, Json>, s: Shader)
    requires "ver" in o && o["ver"] == Str(s.ver)
    requires "info" in o && DecodeInfo(o["info"]) == Some(s.info)
    requires "renderpass" in o && DecodePasses(o["renderpass"]) == Some(s.renderpass)
    ensures ShaderFields(o) == Some(s)
  {
    assert Required(o, "ver", AsString) == Some(s.ver);
    assert Required(o, "info", DecodeInfo) == Some(s.info);
    assert Required(o, "renderpass", DecodePasses) == Some(s.renderpass);
  }

  lemma DecodeShaderFields(o: map<string, Json>, s: Shader)
    requires ExactKeys(o, ShaderKeys)
    requires o["ver"] == Str(s.ver)
    requires DecodeInfo(o["info"]) == Some(s.info)
    requires DecodePasses(o["renderpass"]) == Some(s.renderpass)
    ensures DecodeShader(Obj(o)) == Some(s)
  {
    ShaderLayoutValid();
    ObjectReadsFields(o, ShaderLayout, ShaderFields);
    ShaderFieldsRead(o, s);
  }


  lemma ShaderEncoding(s: Shader)
    ensures var o := EncodeShader(s).fields;
      && ExactKeys(o, ShaderKeys) && o["ver"] == Str(s.ver) && o["info"] == EncodeInfo(s.info)
      && o["renderpass"] == Arr(EncodeItems(s.renderpass, EncodePass))
  {
  }

  lemma PassesRoundTrip(ps: seq<RenderPass>)
    ensures DecodePasses(Arr(EncodeItems(ps, EncodePass))) == Some(ps)
  {
    forall i | 0 <= i < |ps| ensures DecodePass(EncodePass(ps[i])) == Some(ps[i]) {
      PassRoundTrip(ps[i]);
    }
    DecodeEncodedItems(ps, EncodePass, DecodePass);
  }

  /** Encoding a shader and decoding it gives the same shader (the sampler flags
      are strings here, so nothing changes type on the way). */
  lemma ShaderRoundTrip(s: Shader)
    ensures DecodeShader(EncodeShader(s)) == Some(s)
  {
    ShaderEncoding(s);
    PassesRoundTrip(s.renderpass);
    InfoRoundTrip(s.info);
    DecodeShaderFields(EncodeShader(s).fields, s);
  }

  /** Every declared key is required: dropping any one of them is a decode error. */
  lemma MissingKeyRejected(s: Shader, key: string)
    requires key in ShaderKeys
    ensures DecodeShader(Obj(EncodeShader(s).fields - {key})).None?
  {
  }

  /** Any key outside the declared ones is a decode error. */
  lemma UnknownKeyRejected(s: Shader, key: string, v: Json)
    requires key !in ShaderKeys
    ensures DecodeShader(Obj(EncodeShader(s).fields[key := v])).None?
  {
  }

  // ---------------------------------------------------------------------------
  // The array shape.

  /** An array is read as the object that names its elements by the declared
      field order. */
  lemma ShaderArrayReadsAsObject(items: seq<Json>)
    requires Positional(items, ShaderLayout).Some?
    ensures DecodeShader(Arr(items)) == DecodeShader(Obj(Positional(items, ShaderLayout).value))
  {
    ShaderLayoutValid();
    ArrayReadsAsObject(items, ShaderLayout);
  }

  /** No field is defaulted, so an array decodes only when it holds exactly one
      element per field. */
  lemma ShaderArrayLength(items: seq<Json>)
    requires DecodeShader(Arr(items)).Some?
    ensures |items| == |ShaderKeyList|
  {
    PositionalNeedsEveryField(items, ShaderLayout);
  }

  /** An output written as `[id, channel]`. */
  lemma OutputFromArray(id: U64, channel: U64)
    ensures DecodeOutput(Arr([Num(id), Num(channel)])) == Some(RenderPassOutput(id, channel))
  {
    var o := Positional([Num(id), Num(channel)], OutputLayout).value;
    assert OutputKeyList[..2] == OutputKeyList;
    assert o["id"] == Num(id) && o["channel"] == Num(channel);
    assert Required(o, "id", AsU64) == Some(id);
    assert Required(o, "channel", AsU64) == Some(channel);
  }

  /** A shader written as `[ver, info, renderpass]` decodes to the same shader as
      its object form. */
  lemma ShaderFromArray(s: Shader)
    ensures DecodeShader(Arr([Str(s.ver), EncodeInfo(s.info), Arr(EncodeItems(s.renderpass, EncodePass))])) == Some(s)
  {
    var items := [Str(s.ver), EncodeInfo(s.info), Arr(EncodeItems(s.renderpass, EncodePass))];
    var o := Positional(items, ShaderLayout).value;
    assert ShaderKeyList[..3] == ShaderKeyList;
    assert o["ver"] == items[0] && o["info"] == items[1] && o["renderpass"] == items[2];
    PassesRoundTrip(s.renderpass);
    InfoRoundTrip(s.info);
    ShaderFieldsRead(o, s);
    assert StructFields(Arr(items), ShaderLayout) == Some(o);
    assert DecodeStruct(Arr(items), ShaderLayout, ShaderFields) == Some(s);
  }
}
