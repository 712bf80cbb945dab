/** The wgpu backend (src/render_wgpu.rs) as a state machine over an immutable
    record. The GPU objects are opaque: `Device` stands for the surface,
    device, queue, vertex shader and pipeline layout created together on the
    first `init_window`; the swap chain is its size plus a generation counter
    that grows each time it is recreated. The shader compiler, the disk and the
    pipeline constructor are parameters. */
module WgpuBackend {
  import opened Wrappers
  import Render

  /** The GPU objects created once, on the first `init_window`. */
  datatype Device = Device(id: nat)

  /** A window's `inner_size` (u32 pixels) and `scale_factor`. */
  datatype Window = Window(width: nat, height: nat, scale: real)

  /** `WgpuRenderBackendInner`: the long-lived objects, the swap chain
      descriptor's size, and how many swap chains were created so far. */
  datatype Inner = Inner(device: Device, width: nat, height: nat, swapchains: nat)

  /** `WgpuRenderBackend`. The pipeline list lives outside `inner`. */
  datatype Backend<P> = Backend(inner: Option<Inner>, pipelines: seq<P>, dpi: real, frameIndex: nat)

  const NotInitialised: string := "A window should have been initialised by this point"

  /** `WgpuRenderBackend::new`. */
  function New<P>(): (b: Backend<P>)
    ensures b.inner.None? && |b.pipelines| == 0 && b.frameIndex == 0
  {
    Backend(None, [], 1.0, 0)
  }

  /** `init_window`. `create` is what requesting an adapter and a device
      yields on the first call (either `unwrap` may panic); later calls resize. */
  function InitWindow<P>(b: Backend<P>, w: Window, create: Result<Device, Panic>): (r: Result<Backend<P>, Panic>)
    ensures b.inner.None? ==> (r.Ok? <==> create.Ok?)
    ensures b.inner.None? && r.Ok? ==>
      r.value.inner == Some(Inner(create.value, w.width, w.height, 1))
    ensures b.inner.Some? ==>
      (r.Ok? && r.value.inner.Some?
       && r.value.inner.value.device == b.inner.value.device
       && r.value.inner.value.width == w.width && r.value.inner.value.height == w.height
       && r.value.inner.value.swapchains == b.inner.value.swapchains + 1)
    ensures r.Ok? ==>
      (r.value.pipelines == b.pipelines && r.value.frameIndex == b.frameIndex && r.value.dpi == w.scale)
  {
    match b.inner
    case None =>
      (match create
       case Err(p) => Err(p)
       case Ok(d) => Ok(b.(inner := Some(Inner(d, w.width, w.height, 1)), dpi := w.scale)))
    case Some(i) =>
      Ok(b.(inner := Some(i.(width := w.width, height := w.height, swapchains := i.swapchains + 1)), dpi := w.scale))
  }

  /** Whatever sequence of windows follows the first, the device stays the
      one created first, the pipelines stay registered, and the swap chain
      has the last window's size. */
  lemma {:induction false} ResizesKeepDevice<P>(b: Backend<P>, ws: seq<Window>, create: Result<Device, Panic>)
    requires b.inner.Some? && |ws| > 0
    ensures var r := InitAll(b, ws, create);
      r.Ok? && r.value.inner.Some? && r.value.inner.value.device == b.inner.value.device
      && r.value.pipelines == b.pipelines
      && r.value.inner.value.width == ws[|ws| - 1].width && r.value.inner.value.height == ws[|ws| - 1].height
      && r.value.inner.value.swapchains == b.inner.value.swapchains + |ws|
    decreases |ws|
  {
    var next := InitWindow(b, ws[0], create);
    if |ws| > 1 {
      ResizesKeepDevice(next.value, ws[1..], create);
      assert ws[1..][|ws[1..]| - 1] == ws[|ws| - 1];
    }
  }

  /** `init_window` once per window, stopping at the first panic. */
  function InitAll<P>(b: Backend<P>, ws: seq<Window>, create: Result<Device, Panic>): Result<Backend<P>, Panic>
    decreases |ws|
  {
    if |ws| == 0 then Ok(b)
    else
      var next :- InitWindow(b, ws[0], create);
      InitAll(next, ws[1..], create)
  }

  // ---------------------------------------------------------------------------
  // `new_pipeline`: the `.spv` cache and the pipeline registry.

  type Bytes = seq<bv8>

  /** What `File::open` followed by `read_to_end` finds at a path. */
  datatype SpvFile = Contents(bytes: Bytes) | Unreadable(reason: string)

  /** The files `new_pipeline` looks at; a path absent from the map cannot be opened. */
  type Disk = map<string, SpvFile>

  const ReadContext: string := "failed reading spir-v shader file"
  const CompileContext: string := "shaderc compilation to SPIRV failed"

  function SpvPath(shaderPath: string): (p: string)
    ensures |p| == |shaderPath| + 4 && p[..|shaderPath|] == shaderPath
  {
    shaderPath + ".spv"
  }

  /** Where `new_pipeline` leaves things: the registry, the disk, and its result. */
  datatype Outcome<P> = Outcome(pipelines: seq<P>, disk: Disk, handle: Result<Render.PipelineHandle, Render.Error>)

  /** The SPIR-V `new_pipeline` hands to the device: the cached file when it
      can be opened, else a fresh compilation, which is then written out. */
  function SpirvFor(disk: Disk, shaderPath: string, source: string,
                    compile: string -> Result<Bytes, string>, writeError: Option<string>)
    : (r: (Disk, Result<Bytes, Render.Error>))
    ensures SpvPath(shaderPath) in disk ==> r.0 == disk
    ensures SpvPath(shaderPath) in disk && disk[SpvPath(shaderPath)].Contents? ==>
      r.1 == Ok(disk[SpvPath(shaderPath)].bytes)
    ensures SpvPath(shaderPath) in disk && disk[SpvPath(shaderPath)].Unreadable? ==>
      r.1 == Err(Render.Chain(ReadContext, disk[SpvPath(shaderPath)].reason))
    ensures SpvPath(shaderPath) !in disk && compile(source).Err? ==>
      r == (disk, Err(Render.Chain(CompileContext, compile(source).error)))
    ensures SpvPath(shaderPath) !in disk && compile(source).Ok? ==>
      (writeError.None? ==> r == (disk[SpvPath(shaderPath) := Contents(compile(source).value)], Ok(compile(source).value)))
      && (writeError.Some? ==> r == (disk, Err(Render.Msg(writeError.value))))
  {
    var spv := SpvPath(shaderPath);
    if spv in disk then
      match disk[spv]
      case Contents(bytes) => (disk, Ok(bytes))
      case Unreadable(reason) => (disk, Err(Render.Chain(ReadContext, reason)))
    else
      match compile(source)
      case Err(e) => (disk, Err(Render.Chain(CompileContext, e)))
      case Ok(binary) =>
        match writeError
        case Some(e) => (disk, Err(Render.Msg(e)))
        case None => (disk[spv := Contents(binary)], Ok(binary))
  }

  /** `new_pipeline`. It borrows the backend immutably, so besides the disk it
      can change only the locked pipeline list; `build` stands for creating
      the shader module and the render pipeline on the device. */
  function NewPipeline<P>(b: Backend<P>, disk: Disk, shaderPath: string, source: string,
                          compile: string -> Result<Bytes, string>, writeError: Option<string>,
                          build: (Device, Bytes) -> P)
    : (r: Result<Outcome<P>, Panic>)
    ensures b.inner.None? <==> r == Err(Panic(NotInitialised))
    ensures r.Ok? && r.value.handle.Ok? ==>
      r.value.handle.value == |b.pipelines|
      && |r.value.pipelines| == |b.pipelines| + 1
      && r.value.pipelines[..|b.pipelines|] == b.pipelines
    ensures r.Ok? && r.value.handle.Err? ==> r.value.pipelines == b.pipelines
  {
    match b.inner
    case None => Err(Panic(NotInitialised))
    case Some(inner) =>
      var (disk', spirv) := SpirvFor(disk, shaderPath, source, compile, writeError);
      match spirv
      case Err(e) => Ok(Outcome(b.pipelines, disk', Err(e)))
      case Ok(bytes) =>
        var (pipelines, handle) := Render.Register(b.pipelines, build(inner.device, bytes));
        Ok(Outcome(pipelines, disk', Ok(handle)))
  }

  /** A readable cached `.spv` is used as is: the compiler is never consulted
      and nothing is written. */
  lemma CachedSpirvSkipsCompiler<P>(b: Backend<P>, disk: Disk, shaderPath: string, source: string,
                                    compile1: string -> Result<Bytes, string>, compile2: string -> Result<Bytes, string>,
                                    writeError1: Option<string>, writeError2: Option<string>,
                                    build: (Device, Bytes) -> P)
    requires SpvPath(shaderPath) in disk && disk[SpvPath(shaderPath)].Contents?
    ensures NewPipeline(b, disk, shaderPath, source, compile1, writeError1, build)
         == NewPipeline(b, disk, shaderPath, source, compile2, writeError2, build)
  {
  }

  /** After a compilation was written out, registering the same path again
      reads the cache and builds the same pipeline, whatever the compiler
      would now say. */
  lemma SecondRegistrationUsesCache<P>(b: Backend<P>, disk: Disk, shaderPath: string, source: string,
                                       compile: string -> Result<Bytes, string>, later: string -> Result<Bytes, string>,
                                       build: (Device, Bytes) -> P)
    requires b.inner.Some? && SpvPath(shaderPath) !in disk && compile(source).Ok?
    ensures var first := NewPipeline(b, disk, shaderPath, source, compile, None, build).value;
      var again := NewPipeline(b.(pipelines := first.pipelines), first.disk, shaderPath, source, later, Some("any"), build).value;
      first.handle == Ok(|b.pipelines|) && again.handle == Ok(|b.pipelines| + 1)
      && again.disk == first.disk
      && again.pipelines[|b.pipelines| + 1] == first.pipelines[|b.pipelines|]
  {
    var first := NewPipeline(b, disk, shaderPath, source, compile, None, build).value;
    assert first.disk == disk[SpvPath(shaderPath) := Contents(compile(source).value)];
    assert first.pipelines == b.pipelines + [build(b.inner.value.device, compile(source).value)];
  }

  /** Registering a pipeline, whatever its path, never moves an entry that
      was registered before. */
  lemma RegistrationKeepsEarlierEntries<P>(b: Backend<P>, disk: Disk, paths: seq<string>, source: string,
                                compile: string -> Result<Bytes, string>, build: (Device, Bytes) -> P, k: nat)
    requires b.inner.Some? && k < |b.pipelines|
    ensures forall path :: var r := NewPipeline(b, disk, path, source, compile, None, build);
      r.Ok? && r.value.pipelines[k] == b.pipelines[k]
  {
    forall path
      ensures var r := NewPipeline(b, disk, path, source, compile, None, build);
        r.Ok? && r.value.pipelines[k] == b.pipelines[k]
    {
      var r := NewPipeline(b, disk, path, source, compile, None, build);
      if r.value.handle.Ok? {
        assert r.value.pipelines[..|b.pipelines|][k] == b.pipelines[k];
      }
    }
  }

  // ---------------------------------------------------------------------------
  // `render_frame`

  /** `render_frame`. `acquired` says whether `get_current_frame` returned a
      frame; the frame counter advances either way. */
  function RenderFrame<P>(b: Backend<P>, quads: seq<Render.Quad>, acquired: bool)
    : (r: Result<(Backend<P>, seq<Render.Draw<P>>), Panic>)
    ensures b.inner.None? ==> r == Err(Panic(NotInitialised))
    ensures b.inner.Some? && !acquired ==> r == Ok((b.(frameIndex := b.frameIndex + 1), []))
    ensures b.inner.Some? && acquired ==> (r.Ok? <==> Render.HandlesInRange(b.pipelines, quads))
    ensures r.Ok? ==> r.value.0 == b.(frameIndex := b.frameIndex + 1)
    ensures r.Ok? && acquired ==> |r.value.1| == |quads| && forall i :: 0 <= i < |quads| ==>
      r.value.1[i] == Render.Draw(b.pipelines[quads[i].pipelineHandle],
        Render.QuadViewport(quads[i], b.inner.value.width as real, b.inner.value.height as real),
        Render.FrameAsI32(b.frameIndex))
  {
    match b.inner
    case None => Err(Panic(NotInitialised))
    case Some(inner) =>
      var draws :- if acquired
        then Render.Draws(b.pipelines, quads, inner.width as real, inner.height as real, Render.FrameAsI32(b.frameIndex))
        else Ok([]);
      Ok((b.(frameIndex := b.frameIndex + 1), draws))
  }
}
