# shadertoy-browser in Dafny

This project models shadertoy-browser, a tool that does two things:

- It downloads shaders from the Shadertoy REST API, turns each render pass into a complete GLSL fragment shader, and cross-compiles that to Metal.
- It shows the shaders that converted in a window, stepping between them with the arrow keys.

The model covers five parts:

- the two versions of the `shadertoy` API crate: the URL builders, the search and shader response handling, and the serde schemas;
- the downloader's JSON schema, including its string-to-bool field decoder;
- the GLSL assembly and ingestion decisions in `src/main.rs`;
- the Metal viewer in `src/main.rs`;
- the shared render-backend interface, with its wgpu and Metal backends.

Everything is written as pure functions over immutable datatypes. Things outside the program become parameters:

- HTTP is a function from URL to `Reply`: a transport error, or a body that is either JSON or not JSON.
- shaderc, spirv-cross, Metal and wgpu are functions that return `Result`s or nullable values.
- The file system is a map, or a set of paths.

The `unwrap`s, `expect`s, `panic!`s and indexing that depend on the data the program handles are explicit `Panic` outcomes, not preconditions. These are: parsing and decoding JSON, a failed API request, an unknown ctype, `pipelines[handle]`, a missing window, the wgpu adapter and device request, and the spirv-cross parse. The other ones depend only on the platform. They are not modelled, and "## Left out" lists them. JSON is an abstract tree, `Json`. Objects are maps from keys to values, and numbers are integers. A struct with a derived `Deserialize` is read from either of the two shapes serde accepts: an object, or an array that lists the field values in declaration order. An array may stop early only where every remaining field has a default, may not be longer than the struct, and is not subject to `deny_unknown_fields`.

Modules, in dependency order:

- `Wrappers`: `Option`, `Result` and `Panic`.
- `Text`: lower-casing, decimal printing, joining and camelCase.
- `Json`: the JSON tree and the serde building blocks, such as required fields, defaulted fields and `deny_unknown_fields`.
- `Types` and `BrowserSchema`: the two schemas.
- `Query`, `Client` and `LegacyClient`: the three API layers.
- `Render`: the backend trait's data, the draw list and the uniform-block layout.
- `WgpuBackend` and `MetalBackend`: the two backends.
- `GlslSource`: the sampler declarations and the full shader text.
- `Ingest`: the download and convert loop.
- `MetalViewer`: the viewer and its event loop.

## Model

| member | source | states |
|---|---|---|
| Wrappers.UnwrapErr | src/render_metal.rs:362 | the panic of `Result::unwrap` on an error is its fixed message prefix followed by the error's text, so the error can be read back from it |
| Json.AsU64 | shadertoy/src/types.rs:20 | a JSON value decodes as `u64` exactly when it is a number in [0, 2^64), and it re-encodes to itself |
| Json.DecodeItems | shadertoy/src/types.rs:11 | a `Vec<T>` decodes exactly when every item decodes; the result has one element per item, each the item's own decoding |
| Json.DecodeEncodedItems | shadertoy/src/types.rs:11 | encoding every element and decoding the array gives the elements back, when each element survives on its own |
| Json.Required | shadertoy/src/types.rs:8-12 | a field without a serde default is an error when its key is missing, and otherwise is its value's decoding |
| Json.Defaulted | shadertoy/src/query.rs:123-131 | a `#[serde(default)]` field takes the default when its key is missing, and otherwise is its value's decoding |
| Json.Positional | shadertoy/src/types.rs:6-12 | an array is read as a struct exactly when it has no more elements than the struct has fields and every field past its end is defaulted; element i is then the entry of the i-th declared key, and there is no other entry |
| Json.StructFields | shadertoy/src/types.rs:6-7 | a derived struct is read from an object, rejected under `deny_unknown_fields` exactly when it has an undeclared key, or from an array as Positional says; any other JSON value is rejected |
| Json.DecodeStruct | shadertoy/src/types.rs:6-7 | a struct decodes exactly when its JSON has one of the two shapes and the field reader accepts the entries, and then it is what the reader makes of them |
| Json.ArrayReadsAsObject | shadertoy/src/types.rs:6-7 | `deny_unknown_fields` does not restrict the array shape: an array that fits the layout is read exactly like the object of its entries |
| Json.ObjectReadsFields | shadertoy/src/types.rs:6-7 | an object the layout admits is read by the field reader directly |
| Json.PositionalNeedsEveryField | src/shadertoy/mod.rs:9-14 | a struct without defaulted fields is read from an array only when the array has exactly one element per field |
| Text.Lower | shadertoy/src/query.rs:110 | lower-casing keeps the length and maps each character on its own |
| Text.LowerConcat | shadertoy/src/query.rs:110-114 | lower-casing distributes over concatenation, so lower-casing each filter token equals lower-casing their join |
| Text.NatToString | src/main.rs:534 | the decimal spelling of a channel number is a non-empty run of digits that starts with 0 only for the number 0 |
| Text.NatToStringRoundTrip | src/main.rs:534 | reading back the decimal spelling gives the number |
| Text.NatToStringInjective | src/main.rs:534 | different channel numbers get different spellings |
| Text.TwoWordCamelCase | shadertoy/src/types.rs:16 | the camelCase rename of `a_b` is `a` followed by `b` with its first letter upper-cased |
| Text.SingleWordCamelCase | shadertoy/src/types.rs:16 | the camelCase rename leaves a one-word field name unchanged |
| Types.UsePreviewIsCamelCased | shadertoy/src/types.rs:16-29 | the field `use_preview` is read from the key "usePreview" |
| Types.InfoKeyIsCamelCase | shadertoy/src/types.rs:16-29 | each `ShaderInfo` JSON key is the camelCase rename of the Rust field declared in the same position |
| Types.DecodeSampler | shadertoy/src/types.rs:63-73 | a sampler is read from an object or from an array of its five fields in order; an object with an undeclared key is rejected; an accepted sampler re-encodes to the entries it was read from, which for an object is the input itself |
| Types.DecodeInput | shadertoy/src/types.rs:45-54 | a pass input is read from an object or from an array of its six fields in order; an object with an undeclared key is rejected; it decodes exactly when the entries decode as InputFields says, and they then hold only declared keys; an object input whose sampler is also an object re-encodes to itself |
| Types.DecodeOutput | shadertoy/src/types.rs:56-61 | a pass output is read from an object or from `[id, channel]`; an object with an undeclared key is rejected; an accepted output re-encodes to the entries it was read from, which for an object is the input itself |
| Types.DecodePass | shadertoy/src/types.rs:32-43 | a pass is read from an object or from an array of its six fields in order; an object with an undeclared key is rejected; it decodes exactly when the entries decode as PassFields says, and they then hold only declared keys |
| Types.DecodeInfo | shadertoy/src/types.rs:14-30 | shader info is read from an object or from an array of its twelve fields in order; an object with an undeclared key is rejected; accepted info re-encodes to the entries it was read from, which for an object is the input itself |
| Types.DecodeShader | shadertoy/src/types.rs:6-12 | a shader is read from an object or from `[ver, info, renderpass]`; an object with an undeclared key is rejected; it decodes exactly when the entries decode as ShaderFields says, and they then hold only declared keys |
| Types.InputFields | shadertoy/src/types.rs:45-54 | the six entries are required and each must decode; the input holds their values, the sampler being what its entry decodes to; with no undeclared key and an object sampler the input re-encodes to the entries |
| Types.PassFields | shadertoy/src/types.rs:32-43 | the six entries are required and each must decode; the pass holds their values, `pass_type` from "type" and the lists from what their entries decode to |
| Types.InfoFields | shadertoy/src/types.rs:14-30 | the twelve entries are required and each must decode; with no undeclared key the info re-encodes to the entries |
| Types.ShaderFields | shadertoy/src/types.rs:6-12 | the three entries are required and each must decode; the shader holds "ver" and what "info" and "renderpass" decode to |
| Types.SamplerRoundTrip | shadertoy/src/types.rs:63-73 | the flags are plain strings here, so every sampler survives encode-then-decode |
| Types.InputRoundTrip | shadertoy/src/types.rs:45-54 | every pass input survives encode-then-decode |
| Types.OutputRoundTrip | shadertoy/src/types.rs:56-61 | every pass output survives encode-then-decode |
| Types.PassRoundTrip | shadertoy/src/types.rs:32-43 | every render pass survives encode-then-decode |
| Types.InfoRoundTrip | shadertoy/src/types.rs:14-30 | every shader info survives encode-then-decode |
| Types.ShaderRoundTrip | shadertoy/src/types.rs:6-12 | every shader survives encode-then-decode |
| Types.MissingKeyRejected | shadertoy/src/types.rs:8-12 | no shader field has a default: dropping any declared key makes the document fail to decode |
| Types.UnknownKeyRejected | shadertoy/src/types.rs:7 | adding any undeclared key makes the document fail to decode |
| Types.ShaderArrayReadsAsObject | shadertoy/src/types.rs:6-12 | a shader array that fits the layout decodes exactly like the object that names its elements in field order |
| Types.ShaderArrayLength | shadertoy/src/types.rs:6-12 | no shader field is defaulted, so a shader array decodes only when it has exactly three elements |
| Types.OutputFromArray | shadertoy/src/types.rs:56-61 | the array `[id, channel]` decodes to the output with that id and channel |
| Types.ShaderFromArray | shadertoy/src/types.rs:6-12 | the array `[ver, info, renderpass]` of a shader's encoded fields decodes to that shader |
| BrowserSchema.DeFromStr | src/shadertoy/mod.rs:79-84 | a flag decodes to `b` exactly when it is the JSON string spelling `b`: "true" or "false", and nothing else (no JSON boolean, no "True") |
| BrowserSchema.DecodeInput | src/shadertoy/mod.rs:43-51 | an input is read from an object, whose other keys are ignored, or from an array of its six fields in order; an object decodes exactly as InputFields says of its entries |
| BrowserSchema.DecodeOutput | src/shadertoy/mod.rs:53-57 | an output is read from an object, whose other keys are ignored, or from `[id, channel]`; an object decodes exactly as OutputFields says of its entries |
| BrowserSchema.OutputRoundTrip | src/shadertoy/mod.rs:53-57 | an output decodes back to itself |
| BrowserSchema.DecodePass | src/shadertoy/mod.rs:31-41 | a pass is read from an object, whose other keys are ignored, or from an array of its six fields in order; an object decodes exactly as PassFields says of its entries |
| BrowserSchema.DecodeShader | src/shadertoy/mod.rs:9-14 | a shader is read from an object, whose other keys are ignored, or from `[ver, info, renderpass]`; an object decodes exactly as ShaderFields says of its entries |
| BrowserSchema.DecodeRoot | src/shadertoy/mod.rs:3-7 | a document is read from an object, whose other keys (such as the API reply's) are ignored, or from `[shader]`; an object decodes exactly as RootFields says of its entries |
| BrowserSchema.MissingKeyRejected | src/shadertoy/mod.rs:3-51 | no declared field has a default: an input, pass, shader or document missing one of its declared keys is rejected |
| BrowserSchema.DecodeSampler | src/shadertoy/mod.rs:59-70 | a sampler is read from an object, whose other keys are ignored, or from an array of its five fields in order; an object decodes exactly as SamplerFields says of its entries |
| BrowserSchema.DecodeInfo | src/shadertoy/mod.rs:16-29 | shader info is read from an object, whose other keys are ignored, or from an array of its eleven fields in order; an object decodes exactly as InfoFields says of its entries |
| BrowserSchema.SamplerFields | src/shadertoy/mod.rs:59-70 | the five entries are required and each must decode, the flags through `de_from_str`; the entries hold at least what the sampler's re-encoding with string flags has |
| BrowserSchema.InputFields | src/shadertoy/mod.rs:43-51 | the six entries are required and each must decode; the input holds their values, the sampler being what its entry decodes to |
| BrowserSchema.OutputFields | src/shadertoy/mod.rs:53-57 | both entries are required `u64`s; the entries hold at least what the output's re-encoding has |
| BrowserSchema.PassFields | src/shadertoy/mod.rs:31-41 | the six entries are required and each must decode; `pass_type` is read from "type" and the lists from what their entries decode to |
| BrowserSchema.InfoFields | src/shadertoy/mod.rs:16-29 | the eleven entries are required and each must decode, other entries such as "usePreview" playing no part; the info holds their values |
| BrowserSchema.ShaderFields | src/shadertoy/mod.rs:9-14 | "ver", "info" and "renderpass" are required and must decode, and the shader holds their decoded values |
| BrowserSchema.RootFields | src/shadertoy/mod.rs:3-7 | the entries decode exactly when "Shader" is present and decodes, and the root holds that shader |
| BrowserSchema.RootArrayReadsAsObject | src/shadertoy/mod.rs:3-7 | a document array that fits the layout decodes exactly like the object that names its elements |
| BrowserSchema.ShaderArrayLength | src/shadertoy/mod.rs:9-14 | a shader array decodes only when it has exactly three elements: unknown keys are ignored, surplus elements are not |
| BrowserSchema.RootArrayLength | src/shadertoy/mod.rs:3-7 | a document array decodes only when it has exactly one element |
| BrowserSchema.RootFromArray | src/shadertoy/mod.rs:3-7 | the document `[shader]` decodes to the root holding that shader |
| BrowserSchema.SamplerRoundTrip | src/shadertoy/mod.rs:59-70 | a sampler written with string flags decodes back to itself |
| BrowserSchema.DerivedSamplerRejected | src/shadertoy/mod.rs:64-67 | a sampler written by the derived serialiser (JSON booleans) never decodes |
| BrowserSchema.InputRoundTrip | src/shadertoy/mod.rs:43-51 | a pass input written with string flags decodes back to itself |
| BrowserSchema.DerivedInputRejected | src/shadertoy/mod.rs:43-51 | a pass input written by the derived serialiser never decodes |
| BrowserSchema.InputsRoundTrip | src/shadertoy/mod.rs:33 | an input list decodes back to itself when flags are strings or the list is empty, and otherwise does not decode at all |
| BrowserSchema.PassRoundTrip | src/shadertoy/mod.rs:31-41 | a pass decodes back to itself when flags are strings or it has no inputs, and otherwise does not decode at all |
| BrowserSchema.PassesRoundTrip | src/shadertoy/mod.rs:13 | a pass list decodes back to itself when flags are strings or no pass has inputs, and otherwise does not decode at all |
| BrowserSchema.PassesSurvive | src/shadertoy/mod.rs:13 | a pass list written with string flags, or without inputs, decodes back to itself |
| BrowserSchema.PassesRejected | src/shadertoy/mod.rs:13 | one pass with inputs written by the derived serialiser makes the whole pass list fail to decode |
| BrowserSchema.ShaderRoundTrip | src/shadertoy/mod.rs:9-14 | a shader decodes back to itself when flags are strings or no pass has inputs, and otherwise does not decode at all |
| BrowserSchema.DecodeShaderNeedsPasses | src/shadertoy/mod.rs:9-14 | a shader object whose "renderpass" entry fails to decode fails to decode as a whole; the pass list is a required field |
| BrowserSchema.InfoIgnoresUnknownKey | src/shadertoy/mod.rs:16-29 | this schema does not deny unknown fields, so an undeclared info key (such as "usePreview") changes nothing |
| BrowserSchema.DerivedRoundTrip | src/shadertoy/mod.rs:3-7 | a document written by the derived serialiser decodes back to itself exactly when no pass has inputs, and otherwise fails to decode |
| BrowserSchema.FixedRoundTrip | src/shadertoy/mod.rs:3-7 | a document written with string flags always decodes back to itself |
| Query.ParseSortOrder | shadertoy/src/query.rs:33-42 | a string parses to a sort order exactly when it is that order's case-sensitive name |
| Query.ParseFilter | shadertoy/src/query.rs:48-58 | a string parses to a filter exactly when it is that filter's accepted name ("VR" for `Vr`) |
| Query.FilterDebugRoundTrip | shadertoy/src/query.rs:48-58 | parsing a filter's Debug spelling gives the filter back for five variants and fails for `Vr` |
| Query.QuerySegment | shadertoy/src/query.rs:105-109 | the `/query/` segment is empty for an empty search string, and otherwise is "/query/" followed by the string verbatim |
| Query.SortTokenSpelling | shadertoy/src/query.rs:110 | the sort token is the lower-cased Debug name of the order |
| Query.FilterTokensLowerJoined | shadertoy/src/query.rs:111-114 | the filter part is the lower-cased concatenation of one `filter=<Debug>&` token per filter, in list order |
| Query.FilterTokensSnoc | shadertoy/src/query.rs:111-114 | appending a filter appends exactly its token, so duplicates are kept |
| Query.SearchUrlSegment | shadertoy/src/query.rs:101-117 | the search URL starts with the shaders endpoint, then `?` for an empty search or `/` for a non-empty one, and the search string follows "/query/" verbatim |
| Query.SearchParamsWithoutFilters | shadertoy/src/query.rs:101-117 | with no filters the query part is `?sort=<order>&key=<key>` |
| Query.SearchUrl | shadertoy/src/query.rs:101-117 | builds the search URL; its shape is stated by SearchUrlSegment and SearchParamsWithoutFilters |
| Query.ShaderUrl | shadertoy/src/query.rs:155-160 | the shader URL splits into the endpoint plus "/", the id, and "?key=" plus the key |
| Query.ShaderUrlIsNotSearchUrl | shadertoy/src/query.rs:101-117 | a shader URL is never the same as an unfiltered catalog URL with the same key |
| Json.DecodeStrings | shadertoy/src/query.rs:131 | an accepted `Vec<String>` re-encodes to its JSON |
| Json.StringsRoundTrip | shadertoy/src/query.rs:131 | a list of strings survives encode-then-decode |
| Query.DecodeSearchResult | shadertoy/src/query.rs:120-132 | a reply is an object with no key besides "Error", "Shaders" and "Results", or an array of at most three elements naming them in that order; it decodes exactly when each present field is of its type, and then every present field is the decoded value and an absent one its default ("", 0 or []) |
| Query.SearchResultRoundTrip | shadertoy/src/query.rs:120-132 | every search result survives encode-then-decode |
| Query.ProcessSearchResponse | shadertoy/src/query.rs:119-142 | for every body, object or array: a JSON error exactly when it is not JSON or does not decode; otherwise a server error exactly when "Error" is a non-empty string, carrying that string; otherwise Ok of the "Results" list, or [] when "Results" is absent |
| Query.PlainSearchReply | shadertoy/src/query.rs:133-139 | the ordinary reply `{"Shaders": n, "Results": ids}`, without "Error", yields exactly those ids |
| Query.SearchServerErrorWins | shadertoy/src/query.rs:135-137 | a non-empty "Error" is reported as a server error even when results are present |
| Query.SearchResultsReturned | shadertoy/src/query.rs:138 | with an empty "Error" the results are returned as sent |
| Query.SearchMissingResultsIsEmpty | shadertoy/src/query.rs:129-131 | a reply without "Results" gives an empty list, not an error |
| Query.SearchResultFields | shadertoy/src/query.rs:120-132 | the entries decode exactly when each present one is of its type; a present field is its value, an absent one its default ("", 0 or []) |
| Query.SearchEmptyArray | shadertoy/src/query.rs:120-139 | every field is defaulted, so the empty array is a reply with no results, not an error |
| Query.SearchErrorArray | shadertoy/src/query.rs:120-137 | the array `[message]` fills the "Error" field, so a non-empty message is a server error |
| Query.SearchArrayTooLong | shadertoy/src/query.rs:120-141 | an array with more than three elements is a JSON error |
| Query.DecodeShaderRoot | shadertoy/src/query.rs:163-171 | a reply is an object with no key besides "Error" and "Shader", or an array `[error, shader]` or `[error]`; it decodes exactly when "Error", if present, is a string and "Shader" is present and decodes; the error is the present string or "", and the shader is the decoded "Shader" |
| Query.ShaderRootRoundTrip | shadertoy/src/query.rs:163-171 | every shader reply survives encode-then-decode |
| Query.ProcessShaderResponse | shadertoy/src/query.rs:162-181 | for every body, object or array: a JSON error exactly when it is not JSON or does not decode; otherwise a server error exactly when "Error" is a non-empty string, carrying that string; otherwise Ok of the shader the "Shader" entry decodes to |
| Query.PlainShaderReply | shadertoy/src/query.rs:172-178 | the ordinary reply `{"Shader": s}`, without "Error", yields s |
| Query.ShaderErrorWithoutShader | shadertoy/src/query.rs:169-172 | a reply with only "Error" is a JSON error, not a server error, because "Shader" is required |
| Query.ShaderServerErrorWins | shadertoy/src/query.rs:174-176 | a non-empty "Error" next to a valid shader is a server error |
| Query.ShaderReturned | shadertoy/src/query.rs:177 | with an empty "Error" the shader is returned as sent |
| Query.ShaderRootFields | shadertoy/src/query.rs:163-171 | the entries decode exactly when "Error", if present, is a string and "Shader" is present and decodes; the error defaults to "" |
| Query.ShaderArrayReply | shadertoy/src/query.rs:163-178 | the array `["", shader]` yields the shader |
| Query.ShaderArrayNamesFields | shadertoy/src/query.rs:163-171 | a two-element array is read as the object naming its elements "Error" and "Shader" |
| Query.ShaderArrayMissingShader | shadertoy/src/query.rs:163-180 | a one-element array leaves the required "Shader" unfilled and is a JSON error |
| Query.ShaderOnlyObject | shadertoy/src/query.rs:163-171 | an object holding only "Shader" is read from its one entry |
| Client.ParsersAgree | shadertoy/src/client.rs:45-74 | this crate's `FromStr` parsers accept exactly the strings the query module's do, with the same results |
| Client.ParseSortOrder | shadertoy/src/client.rs:45-58 | parses a sort order; ParsersAgree states it accepts exactly the query module's strings |
| Client.ParseFilter | shadertoy/src/client.rs:60-74 | parses a filter; ParsersAgree states it accepts exactly the query module's strings |
| Client.SearchUrlAgrees | shadertoy/src/client.rs:107-121 | `Client::search` builds the same URL as `SearchQuery::url` for the same string, order, filters and key |
| Client.SearchUrl | shadertoy/src/client.rs:107-121 | builds the search URL; SearchUrlAgrees states it is the query module's URL |
| Client.BaseUrlAgrees | shadertoy/src/client.rs:108 | the client's endpoint literal is the query module's endpoint |
| Client.ShaderUrlAgrees | shadertoy/src/client.rs:158-161 | `get_shader` fetches the same URL as `ShaderQuery::url` |
| Client.ShaderUrl | shadertoy/src/client.rs:158-161 | builds the shader URL; ShaderUrlAgrees states it is the query module's URL |
| Client.Search | shadertoy/src/client.rs:106-152 | a transport failure is an HTTP error, and a server error's message starts with the search-error prefix |
| Client.SearchAgreesWithQuery | shadertoy/src/client.rs:141-151 | for any received body, `search` decides exactly as `SearchQuery::process_response`: the same results, the server error as a message, a parse error as a chained error |
| Client.GetShader | shadertoy/src/client.rs:155-180 | a returned shader came from a received reply, and a server error's message starts with the shader-error prefix |
| Client.GetShaderAgreesWithQuery | shadertoy/src/client.rs:155-180 | for any received body, `get_shader` decides exactly as `ShaderQuery::process_response` |
| LegacyClient.ParsersAgree | src/shadertoy/src/client.rs:46-75 | the old crate's parsers accept exactly the newer crate's strings, with the same results |
| LegacyClient.ParseSortOrder | src/shadertoy/src/client.rs:46-59 | parses a sort order; ParsersAgree states it accepts exactly the newer crate's strings |
| LegacyClient.ParseFilter | src/shadertoy/src/client.rs:61-75 | parses a filter; ParsersAgree states it accepts exactly the newer crate's strings |
| LegacyClient.BaseUrlAgrees | src/shadertoy/src/client.rs:90 | the old crate's endpoint literal is the newer one's |
| LegacyClient.SearchUrlAgrees | src/shadertoy/src/client.rs:90-98 | the old search URL is the newer crate's search URL for the same parameters |
| LegacyClient.SearchUrl | src/shadertoy/src/client.rs:90-98 | builds the old search URL; SearchUrlAgrees states it is the newer crate's URL |
| LegacyClient.ShaderUrlAgrees | src/shadertoy/src/client.rs:121 | the old shader URL is the newer crate's shader URL |
| LegacyClient.ShaderUrl | src/shadertoy/src/client.rs:121 | builds the old shader URL; ShaderUrlAgrees states it is the newer crate's URL |
| LegacyClient.DecodeSearchResult | src/shadertoy/src/client.rs:104-108 | a reply decodes exactly when it is an object whose "Results" is a list of strings, whatever else it holds, or the one-element array of such a list; the decoded list re-encodes to that value |
| LegacyClient.Search | src/shadertoy/src/client.rs:88-116 | an HTTP error exactly when the request fails; Ok exactly when a JSON body arrives whose "Results" entry (the key of an object, or the single element of an array) is a list of strings, and then that list; every other reply is a decode error |
| LegacyClient.PlainResultsReply | src/shadertoy/src/client.rs:104-113 | a body holding just a list of results yields that list |
| LegacyClient.MissingResultsIsDecodeError | src/shadertoy/src/client.rs:104-114 | an object body without "Results" is a decode error, whatever else it holds |
| LegacyClient.ErrorReplyWithoutResults | src/shadertoy/src/client.rs:104-115 | an error reply without results is a decode error in the old crate and a server-error message in the new one |
| LegacyClient.ErrorReplyWithResults | src/shadertoy/src/client.rs:104-115 | the old crate returns the results even when "Error" is set, where the new crate reports the error |
| LegacyClient.SearchIgnoresOtherKeys | src/shadertoy/src/client.rs:104-108 | keys other than "Results" never change the old search decoding |
| LegacyClient.ResultsArrayReply | src/shadertoy/src/client.rs:104-115 | the one-element array `[ids]` yields those ids, and a longer array is a decode error |
| LegacyClient.GetShader | src/shadertoy/src/client.rs:118-137 | a returned shader decodes from the reply's "Shader" entry (an object's key, or the single element of an array), any decodable "Shader" entry is returned, an object's entries are its own, and a transport failure is an HTTP error |
| LegacyClient.ShaderArrayReply | src/shadertoy/src/client.rs:125-136 | the one-element array `[shader]` yields the shader its element decodes to |
| Render.NormalisedViewportInside | src/render.rs:40-47 | a quad with normalised position and size gets a viewport that starts inside the target and is no larger than it (its far edge may still lie beyond the target) |
| Render.QuadViewport | src/render_wgpu.rs:224-231 | scales a quad's normalised rectangle by the target size; NormalisedViewportInside and DrawsOne state its properties |
| Render.DrawsOne | src/render_wgpu.rs:171-232 | one quad draws its own pipeline in its scaled viewport with the frame number, or panics when its handle is not registered |
| Render.DrawsAppend | src/render_wgpu.rs:171-232 | the quads of a frame split anywhere draw as the first part then the second, and panic when either part does; with DrawsOne this fixes the draws of every frame |
| Render.DrawQuads | src/render_metal.rs:156-227 | the loop issuing the draws panics exactly when some handle is out of range, and otherwise issues one draw per quad in order, each with the quad's pipeline, its viewport and the frame number |
| Render.Register | src/render_wgpu.rs:307-313 | registering returns the old length as the handle, appends exactly the new pipeline and keeps the earlier ones |
| Render.RegisterAllHandles | src/render.rs:38 | registering pipelines one after another hands out the handles n, n+1, ... and leaves the list as the old list followed by the new pipelines |
| Render.FrameAsI32 | src/render_wgpu.rs:201 | `frame_index as i32` is in the i32 range and equal to the counter modulo 2^32 |
| Render.FrameAsI32Wraps | src/render_wgpu.rs:201 | the counter reaches shaders unchanged below 2^31 and turns negative at 2^31 |
| Render.Offsets | src/render.rs:5-36 | each field's byte offset is 4 times the number of words before it, and the size is 4 times the total |
| Render.WordsStep | src/render.rs:5-36 | the words before field k+1 are the words before field k plus field k's words |
| Render.ConstantsLayoutAligned | src/render.rs:5-36 | `ShadertoyConstants` is 176 bytes, and each 4-wide group starts on a 16-byte boundary |
| WgpuBackend.New | src/render_wgpu.rs:25-36 | a new backend has no window, no pipelines and frame 0 |
| WgpuBackend.InitWindow | src/render_wgpu.rs:49-130 | the first call creates the window state with the window's size and fails if device creation fails; later calls keep the device, take the new size and rebuild only the swapchain; the pipelines and the frame counter never change, and the DPI factor is always overwritten |
| WgpuBackend.ResizesKeepDevice | src/render_wgpu.rs:123-129 | any run of resizes keeps the device and pipelines, ends at the last size, and rebuilds the swapchain once per resize |
| WgpuBackend.SpvPath | src/render_wgpu.rs:252 | the cache file is the shader path with ".spv" appended |
| WgpuBackend.SpirvFor | src/render_wgpu.rs:252-277 | a cached file is read and not compiled; an unreadable file is a chained read error; otherwise a compile error is chained, a write error is returned, and a success writes the binary to the cache |
| WgpuBackend.NewPipeline | src/render_wgpu.rs:246-314 | it panics exactly when no window exists; a success returns the old length and appends one pipeline keeping the others; an error leaves the list unchanged |
| WgpuBackend.CachedSpirvSkipsCompiler | src/render_wgpu.rs:255-259 | with a readable cache file the outcome does not depend on the compiler or the file writer |
| WgpuBackend.SecondRegistrationUsesCache | src/render_wgpu.rs:252-277 | registering the same path twice compiles once: the second call uses the cached binary, gets the next handle, and builds the same pipeline |
| WgpuBackend.RegistrationKeepsEarlierEntries | src/render_wgpu.rs:307-313 | a registration never changes an existing entry |
| WgpuBackend.RenderFrame | src/render_wgpu.rs:132-244 | it panics without a window; the frame counter rises by one on every call, even when no frame was acquired; an acquired frame gets one draw per quad, in order, and panics on an out-of-range handle |
| MetalBackend.NewLibraryWithSource | src/render_metal.rs:263-295 | a built library wins even when an error is set; otherwise the error's message; with neither, "unreachable?" |
| MetalBackend.NewRenderPipelineState | src/render_metal.rs:297-338 | a set error wins over any pointer; otherwise a null pointer is the "returned null" error, and anything else succeeds |
| MetalBackend.HelpersDisagreeOnlyWhenBothSet | src/render_metal.rs:278-336 | the two helpers read the same pointer and error pair the same way except when both are set |
| MetalBackend.CrossMessage | src/render_metal.rs:368-371 | a spirv-cross compilation error is reported as "spirv-cross error: " followed by its text |
| MetalBackend.CrossMessagesDistinct | src/render_metal.rs:368-371 | the two spirv-cross error codes are never reported with the same message |
| MetalBackend.ConvertGlslToMetal | src/render_metal.rs:340-373 | a SPIR-V compile failure of the source under the given input name is a chained error and nothing after it runs; it panics exactly when the parse fails, with `Result::unwrap`'s message carrying the parse error; the Metal source it returns is the cross compiler's output |
| MetalBackend.CreatePipelineState | src/render_metal.rs:74-100 | a pipeline state is returned only when both libraries and both entry points ("vsMain", "main0") were found and the device returned a state with no error; a vertex-library failure is the result |
| MetalBackend.New | src/render_metal.rs:57-72 | a new backend has no layer, no pipelines and frame 0 |
| MetalBackend.InitWindow | src/render_metal.rs:104-127 | the layer takes the window's size and the DPI factor is overwritten; the pipelines and the frame counter are kept |
| MetalBackend.NewPipeline | src/render_metal.rs:241-257 | a success appends one pipeline state, built from the converted source, and returns `len - 1`; any error leaves the list unchanged |
| MetalBackend.RenderFrame | src/render_metal.rs:129-239 | with no layer or no drawable nothing is drawn and the counter stays; otherwise one draw per quad in order, a panic on an out-of-range handle, and the counter rises by one |
| MetalBackend.FrameCountersDiffer | src/render_wgpu.rs:242 | when no frame can be drawn, the wgpu counter advances and the Metal counter does not |
| GlslSource.GlslType | src/main.rs:519-533 | the ten known ctypes map to sampler2D (eight of them), sampler3D ("volume") or samplerCube ("cubemap"), and every other ctype has no type |
| GlslSource.GlslTypesAreWords | src/main.rs:519-529 | every GLSL type used is a single space-free word |
| GlslSource.Decls | src/main.rs:518-535 | the declarations exist exactly when every ctype is known, one per input in order with the input's own channel; otherwise the panic names the first input whose ctype is unknown |
| GlslSource.FirstUnknownUnique | src/main.rs:518-531 | there is only one first input with an unknown ctype |
| GlslSource.DeclsPanicIsFirst | src/main.rs:518-531 | when input i is the first with an unknown ctype, the panic names exactly its ctype |
| GlslSource.DeclLine | src/main.rs:534 | writes one `uniform <T> iChannel<n>;` line; ParseDeclLine states it parses back to its type and channel |
| GlslSource.SamplerSource | src/main.rs:517-535 | builds the sampler block; SamplerBlockParses states its lines and their order |
| GlslSource.ParseDeclLine | src/main.rs:534 | a declaration line parses back to its type and channel |
| GlslSource.ParseBlockCons | src/main.rs:534 | parsing a block that starts with a declaration line gives that declaration followed by the rest |
| GlslSource.ParseJoinedDecls | src/main.rs:517-535 | a block of joined declaration lines parses back to exactly the declarations, in order |
| GlslSource.SamplerBlockParses | src/main.rs:517-535 | the sampler block has exactly one `uniform <T> iChannel<n>;` line per input, in input order, with each input's own channel |
| GlslSource.FooterChoice | src/main.rs:541-544 | the sound footer is chosen exactly for pass type "sound", and the image footer for every other type |
| GlslSource.Footer | src/main.rs:541-544 | picks the footer; FooterChoice states which one for which pass type |
| GlslSource.FullSource | src/main.rs:547 | the full source is as long as its four parts plus three newlines |
| GlslSource.FullSourceParts | src/main.rs:547 | the full source splits back into the header, the samplers, the code and the footer, separated by single newlines |
| Ingest.ShadersUrlAgrees | src/main.rs:408-411 | the downloader's endpoint literal is the API crate's endpoint |
| Ingest.QueryUrlShape | src/main.rs:406-413 | with a search string the query URL is the crate's shader URL of `query/<search>`; without one it is the endpoint with the key |
| Ingest.QueryUrl | src/main.rs:406-413 | builds the catalog URL; QueryUrlShape states its shape |
| Ingest.StringsOf | src/main.rs:436-440 | every collected id is a string member, there are at most as many ids as members, and exactly as many when every member is a string |
| Ingest.StringsOfAppend | src/main.rs:436-440 | the walk over a list split anywhere collects the first part's strings and then the second's |
| Ingest.StringsOfOne | src/main.rs:436-440 | one member is collected exactly when it is a string; with StringsOfAppend the walk keeps every string member, in order, and nothing else |
| Ingest.StringsOfEncoded | src/main.rs:436-440 | walking an encoded list of strings gives the list back |
| Ingest.ResultIdsAgree | src/main.rs:436-440 | where the crate's strict decoder accepts "Results", the downloader's lenient walk finds the same ids |
| Ingest.ResultIds | src/main.rs:434-440 | collects the string members of "Results"; ResultIdsAgree relates it to the crate's decoder |
| Ingest.QueryIds | src/main.rs:404-441 | a cached reply is used without fetching; a transport failure caches nothing; a received reply is cached before it is parsed; ids exist exactly when the cached reply is JSON |
| Ingest.QueryIsCached | src/main.rs:419-432 | a second run is answered from the cache with the same ids, whatever the network says |
| Ingest.UnparsableReplySticks | src/main.rs:429-434 | a reply that is not JSON panics, and every later run panics on the cached copy |
| Ingest.Convert | src/main.rs:316-350 | a compile failure is reported as "shaderc compilation failed: " followed by the compiler's message; it panics exactly when the parse fails, with `Result::unwrap`'s message carrying the parse error |
| Ingest.ConvertAgreesWithBackend | src/main.rs:309-355 | for the same input name and source, the downloader's converter and the Metal backend's agree: the same panics, the same Metal source and the same spirv-cross messages; only the compile-failure report differs |
| Ingest.InputNamesDiffer | src/main.rs:548-553 | the input name the downloader gives shaderc, the `.glsl` path, is never the backend's "unknown name" |
| Ingest.Downloads | src/main.rs:571-598 | no existing file is fetched again, existing files are kept, and afterwards every downloadable input's file exists |
| Ingest.DownloadsComeFromInputs | src/main.rs:571-590 | every download is the file of some input of a download kind (texture, volume, cubemap or buffer) |
| Ingest.DownloadsAddTheirPaths | src/main.rs:578-590 | the files afterwards are the files before plus one per download |
| Ingest.DownloadsIdempotent | src/main.rs:580 | when every wanted file exists, nothing is downloaded and nothing changes |
| Ingest.ProcessPass | src/main.rs:507-599 | a pass panics exactly when its source or conversion panics; it counts as converted exactly when conversion succeeded; its Metal source joins the viewer list exactly when it converted, is an image pass and has no inputs; downloads follow |
| Ingest.PassSource | src/main.rs:517-547 | assembles a pass's full GLSL source; ProcessPass states how its panic decides the pass |
| Ingest.Showable | src/main.rs:559 | an image pass without inputs; ProcessPasses states the viewer gains exactly these passes |
| Ingest.AllConvertCons | src/main.rs:505-567 | all passes convert exactly when the first does and all the others do |
| Ingest.ProcessPasses | src/main.rs:505-599 | the shader succeeds exactly when every pass converted (downloads never clear it); the viewer list gains the showable passes in pass order; no asset file is lost |
| Ingest.ShownSourcesAppend | src/main.rs:559-561 | the viewer list of two runs of passes is the concatenation of their lists, so pass order is kept |
| Ingest.ShaderDownloadUrlAgrees | src/main.rs:470 | the per-shader download URL is the crate's shader URL |
| Ingest.ShaderDownloadUrl | src/main.rs:470 | builds the per-shader URL; ShaderDownloadUrlAgrees states it is the crate's shader URL |
| Ingest.LoadShader | src/main.rs:465-503 | a stored file is used and the store is unchanged; a loaded shader is what the stored file decodes to |
| Ingest.LoadFresh | src/main.rs:469-484 | a fresh download that decodes is re-encoded and written, and the result is the decode of what was written |
| Ingest.LoadStored | src/main.rs:485-503 | a stored file is decoded as it is and nothing is fetched or written |
| Ingest.StoreShader | src/main.rs:466-484 | a stored file is used as it is; otherwise, when the download decodes, its re-encoding is written to the shader's path and is what is returned |
| Ingest.StoreFresh | src/main.rs:469-484 | a fresh download that decodes to a root writes that root's re-encoding and returns it |
| Ingest.LoadFromStore | src/main.rs:500-503 | the load decodes what the store step left, panicking when it does not decode |
| Ingest.DerivedDownloadPanics | src/main.rs:480-503 | as written: a fresh shader with a pass that has inputs panics, and the file it leaves makes every later run panic too |
| Ingest.StringFlagsDownloadLoads | src/main.rs:480-503 | corrected: with string flags a fresh download yields the shader sent, and later runs read the same shader back |
| Ingest.TexturedDownloadPanics | src/main.rs:480-503 | as written, on one shader whose image pass samples a texture: the first download into an empty output directory panics |
| Ingest.TexturedDownloadLoads | src/main.rs:480-503 | corrected, on the same shader: the first download yields that shader |
| Ingest.IngestShader | src/main.rs:460-603 | the built count rises by at most one, the viewer list only grows at its end, and no asset file is lost |
| Ingest.IngestShaderCounts | src/main.rs:601-603 | a shader is counted as built exactly when all its passes convert, and the viewer list gains its showable passes |
| Ingest.ProcessShader | src/main.rs:505-603 | a loaded shader panics exactly when one of its passes panics; otherwise it is counted exactly when every pass converted, the viewer list gains its showable passes' sources in pass order, and no asset file is lost |
| Ingest.IngestAll | src/main.rs:460-604 | over all ids the built count rises by at most the number of ids, and earlier viewer entries are kept |
| Ingest.IngestAllAppend | src/main.rs:460-604 | ingesting two id lists in turn is ingesting their concatenation, stopping at the first panic |
| MetalViewer.New | src/main.rs:139-154 | a new viewer has no layer, frame 0, the empty source and no pipeline |
| MetalViewer.InitWindow | src/main.rs:199-221 | the layer takes the window's inner size and nothing else changes |
| MetalViewer.UpdateShader | src/main.rs:180-195 | the same source changes nothing; any source is recorded; the pipeline always stays what the device builds for the recorded source (or none in the initial state) |
| MetalViewer.WrapPipelineState | src/render_metal.rs:317-318 | metal-rs's pipeline call as the viewer uses it (`src/main.rs:176`): an error is the failure with its message; otherwise the returned pointer, null or not, is accepted |
| MetalViewer.WrapAcceptsNull | src/render_metal.rs:317-336 | metal-rs and the backend's own helper read a pipeline call the same way, except that only metal-rs accepts a null pointer that comes without an error |
| MetalViewer.CreatePipelineState | src/main.rs:156-177 | it succeeds exactly when both libraries build, both entry points are found and the pipeline call reports no error; the first failure's message is the result |
| MetalViewer.CreatePipelineStateAgrees | src/main.rs:156-177 | the viewer builds every pipeline the backend's `create_pipeline_state` builds and fails with the same message; it also accepts a null state, which the backend reports as "returned null" |
| MetalViewer.Built | src/main.rs:156-177 | a source builds exactly when both libraries build, both entry points are found and the pipeline call reports no error; the pipeline is the pointer the device returned, null included |
| MetalViewer.Present | src/main.rs:223-306 | a frame is drawn exactly when the updated viewer has a pipeline, a layer and a drawable; then it uses that pipeline, the layer size and the frame number, and the counter rises by one; otherwise only the shader update happens |
| MetalViewer.PresentAll | src/main.rs:223-306 | over several frames the counter rises by the number of frames drawn |
| MetalViewer.PresentNeverRebuilds | src/main.rs:182-184 | once a source has been presented, presenting it again keeps the pipeline whatever the device would answer |
| MetalViewer.FailedSourceNeverDraws | src/main.rs:225-227 | a recorded source without a pipeline never draws and never changes the viewer |
| MetalViewer.FailedBuildNeverDraws | src/main.rs:186-195 | a source that fails to build is not retried and never drawn |
| MetalViewer.NullPipelineStillDraws | src/main.rs:186-302 | a null pipeline state returned without an error is stored, the next frame is drawn with it and the counter moves on, although the backend's helper would refuse it |
| MetalViewer.EmptySourceNeverBuilds | src/main.rs:151 | a fresh viewer shown the empty source never builds a pipeline, even when the device could |
| MetalViewer.BuiltSourceDrawsEveryFrame | src/main.rs:223-306 | with a built pipeline and a drawable each frame, every frame draws, numbered on from the counter |
| MetalViewer.Step | src/main.rs:646-655 | Left steps back unless at the first shader, Right steps on unless at the last, and the index stays in range |
| MetalViewer.Steps | src/main.rs:646-655 | any run of key presses keeps the index in range |
| MetalViewer.RightsReach | src/main.rs:652-655 | k Right presses advance k shaders or stop at the last |
| MetalViewer.LeftsReturn | src/main.rs:647-650 | k Left presses go back k shaders or stop at the first |
| MetalViewer.Loop | src/main.rs:633-668 | every frame presents a shader from the built list, one per tick, and draws at most one frame per tick |
| MetalViewer.StepsAppend | src/main.rs:646-655 | key presses split anywhere step the index through the first part, then from there through the second |
| MetalViewer.LoopShowsAt | src/main.rs:643-663 | tick k presents the built shader that the key presses of ticks 0..k select from the starting index |
| MetalViewer.LoopFollowsKeys | src/main.rs:643-663 | every tick presents the shader its key presses so far select |
| MetalViewer.Run | src/main.rs:611-668 | the loop runs exactly when some shader was built and rendering was asked for, in a 1024x768 window, and tick k shows the built shader the key presses so far select, starting from the first |
| MetalViewer.LoopKeepsLayer | src/main.rs:635-674 | the loop never changes the window layer |

## Left out

- HTTP, the file system, shaderc, spirv-cross, Metal, wgpu and the Objective-C bridge are parameters of the model. Their own failures are modelled only where the program inspects them.
- `write_file` in `src/main.rs` always succeeds in the model. Its `panic!` when `File::create` fails and its `write_all(..).unwrap()` (`src/main.rs:369-374`) are never outcomes, so neither is a partly written file. Fetching an asset and reading its body (`src/main.rs:582-585`) also always succeed. The asset URL `https://www.shadertoy.com/<src>` is not modelled.
- The query cache file is named after the base58 spelling of the URL. The model keys the cache by the URL itself, which is equivalent because base58 is one-to-one.
- Other panics that depend only on the platform are not modelled:
  - building the shaderc compiler and its options (`src/main.rs:313-314`, `src/render_metal.rs:343-344`, `src/render_wgpu.rs:261-262`);
  - opening and reading a file that exists (`src/main.rs:419-426`, `src/main.rs:492-499`);
  - `to_str` on an output path (`src/main.rs:553`, `src/main.rs:565`);
  - the window downcast and its inner size, the window build, and the colour attachment (`src/main.rs:174`, `src/main.rs:201`, `src/main.rs:217`, `src/main.rs:276`, `src/main.rs:621`);
  - the swapchain format (`src/render_wgpu.rs:71`);
  - the missing `apikey` argument and a poisoned mutex.
- Pretty-printing and parsing JSON text are taken as exact inverses. A stored file is modelled as the JSON tree it holds.
- Floating point is not modelled: the mouse y-flip, the DPI division, the aspect ratio, time, delta time, frame rate, date and the Metal clear colour. Viewports are an idealised `real` product of quad and target size.
- Render.FrameAsI32: the `u64` frame counter is an unbounded `nat`, so its own 2^64 overflow is not modelled. Only the `as i32` truncation is.
- The shader header, footers and the Metal vertex shader are bundled files that are not part of this model. They are parameters (`GlslSource.Snippets`), or a named constant.
- The debug `.glsl` and `.metal` files written next to each pass are not modelled. Nothing reads them back.
- `Client::new`, `Service`, `errors.rs`, the `lib.rs` files, the network tests, the command line, logging and the autorelease pool are not modelled.
- `Mutex`, `RefCell`, atomics and the commented-out parallel loop are not modelled. The registry and the ingest loop are sequential.
- MetalBackend.NewPipeline: modelled against the trait's two-argument signature (`src/render.rs:60`), with the unused path dropped. The code at `src/render_metal.rs:241` declares one argument.
- WgpuBackend.SpirvFor: a failed write leaves the cache as it was. In the source, `File::create` can succeed and `write_all` then fail (`src/render_wgpu.rs:322-323`), leaving a truncated `.spv` that the next `new_pipeline` reads instead of compiling. Partial files are not modelled.
- MetalViewer.CreatePipelineState: `TEST_new_library_with_source` releases the error object before returning its message (`src/main.rs:129`). The backend's copy of that helper notes that this release crashes (`src/render_metal.rs:288`). The model returns the message and does not model the crash.
- MetalViewer.Loop: polling is a list of key presses per frame, and closing the window ends the list of ticks. Cursor movement only feeds `iMouse`, which is floating point.
- `make_spirv` in the wgpu backend and the construction of the wgpu/Metal objects are not modelled. The device's pipeline builder is a parameter.

- Types.DecodeInput: re-encoding gives back the input only when it and its sampler are objects. An array, or a sampler written as an array, re-encodes as an object, so the model states what the entries decode to instead.
- Types.DecodePass: states what each entry decodes to rather than that the pass re-encodes to its input, because nested inputs and outputs may arrive as arrays and re-encode as objects. PassRoundTrip still covers encode-then-decode.
- Types.DecodeShader: as for DecodePass, the entries' decoded values are stated rather than a re-encoding equality. ShaderRoundTrip still covers encode-then-decode.
- The text of serde's error values (`serde_json::Error`'s `Debug` output) is not modelled. The downloader's `unwrap` panics on JSON carry one fixed reason (`Ingest.UnwrapPanic`). The spirv-cross parse panic carries the parse error's text through `Wrappers.UnwrapErr`.
- shaderc's shader kind (always `Fragment`) and the entry point name are folded into the compile parameter. Both callers pass the entry point "main" (`src/main.rs:553`, `src/render_metal.rs:242`), so only the source and the input name vary between calls.

## Findings

| source | as written | input that shows it | evidently intended | confidence | as-written member | corrected member |
|---|---|---|---|---|---|---|
| src/main.rs:480-503 | a freshly downloaded shader is decoded, re-serialised with the derived `Serialize` (which writes `vflip`/`srgb` as JSON booleans), written to `output/<id>.json`, and decoded again with `de_from_str`, which accepts only the strings "true"/"false" | any shader with a render pass that has at least one input, e.g. one texture input with `"vflip": "true"`: the second decode fails and `unwrap` panics; the file stays on disk, so every later run panics on it too | the stored file decodes back to the shader that was downloaded, e.g. by serialising the flags as strings | not executed | Ingest.TexturedDownloadPanics | Ingest.TexturedDownloadLoads |
