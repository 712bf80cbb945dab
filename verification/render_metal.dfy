/** The Metal backend (src/render_metal.rs). The Objective-C calls are
    parameters that return what Metal returns: a nullable pointer and a
    nullable error out-parameter. The conversion chain GLSL -> SPIR-V -> MSL
    goes through a `Toolchain` of uninterpreted stages. `new_pipeline` is
    modelled against the two-argument trait signature; the path is unused. */
module MetalBackend {
  import opened Wrappers
  import Render
  import WgpuBackend

  datatype Library = Library(id: nat)
  datatype Function = Function(id: nat)
  datatype PipelineState = PipelineState(id: nat)

  /** An Objective-C call's nullable result and its nullable `NSError`,
      the error reduced to its `localizedDescription`. */
  datatype ObjcReturn<T> = ObjcReturn(value: Option<T>, error: Option<string>)

  const UnreachableMessage: string := "unreachable?"
  const NullPipelineMessage: string := "newRenderPipelineStateWithDescriptor returned null"

  /** `new_library_with_source`: a library that was built wins even when an
      error object (compiler warnings) came with it. */
  function NewLibraryWithSource(ret: ObjcReturn<Library>): (r: Result<Library, string>)
    ensures r.Ok? <==> ret.value.Some?
    ensures r.Ok? ==> r.value == ret.value.value
    ensures ret.value.None? && ret.error.Some? ==> r == Err(ret.error.value)
    ensures ret.value.None? && ret.error.None? ==> r == Err(UnreachableMessage)
  {
    match ret.value
    case Some(library) => Ok(library)
    case None =>
      match ret.error
      case Some(message) => Err(message)
      case None => Err(UnreachableMessage)
  }

  /** `new_render_pipeline_state` with `try_objc!`: the error object is
      looked at first, then the pointer. */
  function NewRenderPipelineState(ret: ObjcReturn<PipelineState>): (r: Result<PipelineState, string>)
    ensures r.Ok? <==> ret.value.Some? && ret.error.None?
    ensures ret.error.Some? ==> r == Err(ret.error.value)
    ensures ret.error.None? && ret.value.None? ==> r == Err(NullPipelineMessage)
    ensures r.Ok? ==> r.value == ret.value.value
  {
    match ret.error
    case Some(message) => Err(message)
    case None =>
      match ret.value
      case None => Err(NullPipelineMessage)
      case Some(state) => Ok(state)
  }

  /** The two helpers read the same (pointer, error) pair the same way, except
      when both are set: a library with warnings is accepted, a pipeline state
      with an error is not. */
  lemma HelpersDisagreeOnlyWhenBothSet(id: nat, error: Option<string>, isSet: bool)
    ensures var lib := NewLibraryWithSource(ObjcReturn(if isSet then Some(Library(id)) else None, error));
      var state := NewRenderPipelineState(ObjcReturn(if isSet then Some(PipelineState(id)) else None, error));
      (lib.Ok? != state.Ok? <==> isSet && error.Some?)
      && (error.Some? && !isSet ==> lib.error == state.error)
  {
  }

  // ---------------------------------------------------------------------------
  // `convert_glsl_to_metal`

  /** The SPIR-V cross compiler's error codes. */
  datatype CrossError = Unhandled | CompilationError(message: string)

  /** The external stages: shaderc's GLSL to SPIR-V compilation of a source
      under an input name (which its error messages may quote), spirv-cross's
      parse of the module (its `unwrap` panics on an error) and its MSL output. */
  datatype Toolchain<!Spirv, !Ast> = Toolchain(
    compile: (string, string) -> Result<Spirv, string>,
    parse: Spirv -> Result<Ast, string>,
    crossCompile: Ast -> Result<string, CrossError>)

  /** The input name `new_pipeline` gives shaderc. */
  const BackendInputName: string := "unknown name"

  const CompileContext: string := "shaderc compilation to SPIRV failed"
  const UnhandledMessage: string := "spirv-cross handled error"
  const CrossErrorPrefix: string := "spirv-cross error: "

  /** The message a spirv-cross error is reported with. */
  function CrossMessage(e: CrossError): (m: string)
    ensures e.CompilationError? ==>
      (|m| == |CrossErrorPrefix| + |e.message| && m[..|CrossErrorPrefix|] == CrossErrorPrefix
       && m[|CrossErrorPrefix|..] == e.message)
  {
    match e
    case Unhandled => UnhandledMessage
    case CompilationError(s) => CrossErrorPrefix + s
  }

  /** The two error codes can never be reported with the same message. */
  lemma CrossMessagesDistinct(s: string)
    ensures CrossMessage(Unhandled) != CrossMessage(CompilationError(s))
  {
    var m := CrossMessage(CompilationError(s));
    assert m[12] == m[..|CrossErrorPrefix|][12] == 'e';
    assert UnhandledMessage[12] == 'h';
  }

  /** `convert_glsl_to_metal`. A SPIR-V compilation failure is reported under
      its context message and nothing else runs. */
  function ConvertGlslToMetal<Spirv, Ast>(name: string, source: string, tools: Toolchain<Spirv, Ast>)
    : (r: Result<Result<string, Render.Error>, Panic>)
    ensures tools.compile(name, source).Err? ==> r == Ok(Err(Render.Chain(CompileContext, tools.compile(name, source).error)))
    ensures tools.compile(name, source).Ok? ==> (r.Err? <==> tools.parse(tools.compile(name, source).value).Err?)
    ensures r.Err? ==> r.error == UnwrapErr(tools.parse(tools.compile(name, source).value).error)
    ensures r.Ok? && r.value.Ok? ==>
      (tools.compile(name, source).Ok? && tools.parse(tools.compile(name, source).value).Ok?
       && tools.crossCompile(tools.parse(tools.compile(name, source).value).value) == Ok(r.value.value))
  {
    match tools.compile(name, source)
    case Err(e) => Ok(Err(Render.Chain(CompileContext, e)))
    case Ok(binary) =>
      match tools.parse(binary)
      case Err(e) => Err(UnwrapErr(e))
      case Ok(ast) =>
        match tools.crossCompile(ast)
        case Ok(msl) => Ok(Ok(msl))
        case Err(e) => Ok(Err(Render.Msg(CrossMessage(e))))
  }

  // ---------------------------------------------------------------------------
  // `create_pipeline_state` and `new_pipeline`

  /** The device calls `create_pipeline_state` makes. */
  datatype Device = Device(
    newLibrary: string -> ObjcReturn<Library>,
    getFunction: (Library, string) -> Result<Function, string>,
    newPipelineState: (Function, Function) -> ObjcReturn<PipelineState>)

  /** The vertex shader bundled into the program from `shadertoy_vs.metal`;
      that file is not part of this model, so its text stands here as a name. */
  const VertexSource: string := "shadertoy_vs.metal"
  const VertexEntry: string := "vsMain"
  const FragmentEntry: string := "main0"

  /** `create_pipeline_state`: both libraries, both entry points, then the
      pipeline state; the first failure is the result. */
  function CreatePipelineState(device: Device, msl: string): (r: Result<PipelineState, string>)
    ensures r.Ok? ==>
      var vs := device.newLibrary(VertexSource).value;
      var ps := device.newLibrary(msl).value;
      vs.Some? && ps.Some?
      && device.getFunction(vs.value, VertexEntry).Ok? && device.getFunction(ps.value, FragmentEntry).Ok?
      && var ret := device.newPipelineState(device.getFunction(vs.value, VertexEntry).value,
                                            device.getFunction(ps.value, FragmentEntry).value);
         ret.error.None? && ret.value == Some(r.value)
    ensures NewLibraryWithSource(device.newLibrary(VertexSource)).Err? ==>
      r == Err(NewLibraryWithSource(device.newLibrary(VertexSource)).error)
  {
    var vs :- NewLibraryWithSource(device.newLibrary(VertexSource));
    var ps :- NewLibraryWithSource(device.newLibrary(msl));
    var vsMain :- device.getFunction(vs, VertexEntry);
    var psMain :- device.getFunction(ps, FragmentEntry);
    NewRenderPipelineState(device.newPipelineState(vsMain, psMain))
  }

  /** `MetalRenderBackend`: the layer's drawable size once a window is attached. */
  datatype Layer = Layer(width: nat, height: nat)

  datatype Backend = Backend(layer: Option<Layer>, pipelines: seq<PipelineState>, dpi: real, frameIndex: nat)

  /** `MetalRenderBackend::new`. */
  function New(): (b: Backend)
    ensures b.layer.None? && |b.pipelines| == 0 && b.frameIndex == 0
  {
    Backend(None, [], 1.0, 0)
  }

  /** `init_window`: a fresh layer sized to the window, and the window's DPI factor. */
  function InitWindow(b: Backend, width: nat, height: nat, dpi: real): (r: Backend)
    ensures r.layer == Some(Layer(width, height)) && r.dpi == dpi
    ensures r.pipelines == b.pipelines && r.frameIndex == b.frameIndex
  {
    b.(layer := Some(Layer(width, height)), dpi := dpi)
  }

  /** `new_pipeline`: convert, build the pipeline state, then append it and
      return `len - 1`. Every error returns before the list is touched. */
  function NewPipeline<Spirv, Ast>(b: Backend, shaderPath: string, source: string,
                                   tools: Toolchain<Spirv, Ast>, device: Device)
    : (r: Result<(seq<PipelineState>, Result<Render.PipelineHandle, Render.Error>), Panic>)
    ensures r.Ok? && r.value.1.Ok? ==>
      |r.value.0| == |b.pipelines| + 1 && r.value.1.value == |r.value.0| - 1
      && r.value.0[..|b.pipelines|] == b.pipelines
    ensures r.Ok? && r.value.1.Err? ==> r.value.0 == b.pipelines
    ensures r.Ok? && r.value.1.Ok? ==>
      ConvertGlslToMetal(BackendInputName, source, tools).Ok? && ConvertGlslToMetal(BackendInputName, source, tools).value.Ok?
      && CreatePipelineState(device, ConvertGlslToMetal(BackendInputName, source, tools).value.value) == Ok(r.value.0[r.value.1.value])
  {
    var converted :- ConvertGlslToMetal(BackendInputName, source, tools);
    match converted
    case Err(e) => Ok((b.pipelines, Err(e)))
    case Ok(msl) =>
      match CreatePipelineState(device, msl)
      case Err(m) => Ok((b.pipelines, Err(Render.Msg(m))))
      case Ok(state) =>
        var pipelines := b.pipelines + [state];
        Ok((pipelines, Ok(|pipelines| - 1)))
  }

  /** `render_frame`. Without a layer, or when no drawable is available,
      nothing is drawn and the frame counter stays put. */
  function RenderFrame(b: Backend, quads: seq<Render.Quad>, drawable: bool)
    : (r: Result<(Backend, seq<Render.Draw<PipelineState>>), Panic>)
    ensures b.layer.None? || !drawable ==> r == Ok((b, []))
    ensures b.layer.Some? && drawable ==> (r.Ok? <==> Render.HandlesInRange(b.pipelines, quads))
    ensures r.Ok? && b.layer.Some? && drawable ==>
      (r.value.0 == b.(frameIndex := b.frameIndex + 1)
       && |r.value.1| == |quads| && forall i :: 0 <= i < |quads| ==>
         r.value.1[i] == Render.Draw(b.pipelines[quads[i].pipelineHandle],
           Render.QuadViewport(quads[i], b.layer.value.width as real, b.layer.value.height as real),
           Render.FrameAsI32(b.frameIndex)))
  {
    match b.layer
    case None => Ok((b, []))
    case Some(layer) =>
      if !drawable then Ok((b, []))
      else
        var draws :- Render.Draws(b.pipelines, quads, layer.width as real, layer.height as real,
                                  Render.FrameAsI32(b.frameIndex));
        Ok((b.(frameIndex := b.frameIndex + 1), draws))
  }

  /** The two backends count frames differently: when no frame can be
      acquired, wgpu still advances its counter and Metal does not. */
  lemma FrameCountersDiffer<P>(w: WgpuBackend.Backend<P>, m: Backend, quads: seq<Render.Quad>)
    requires w.inner.Some? && m.layer.Some?
    ensures WgpuBackend.RenderFrame(w, quads, false).value.0.frameIndex == w.frameIndex + 1
    ensures RenderFrame(m, quads, false).value.0.frameIndex == m.frameIndex
  {
  }
}
