/** The viewer half of `src/main.rs`: `MetalRenderBackend`, which keeps one
    pipeline state for the Metal source it was last given, and the event loop
    that steps through the built shaders with the arrow keys. Metal calls go
    through a `MetalBackend.Device`; the next drawable's availability is a
    parameter of each frame. */
module MetalViewer {
  import opened Wrappers
  import Render
  import MetalBackend

  /** A `metal::RenderPipelineState` as the viewer holds it: metal-rs wraps
      whatever pointer the device returned, so it may be null (`None`). */
  datatype Pipeline = Pipeline(state: Option<MetalBackend.PipelineState>)

  /** The backend's state: the layer's drawable size once a window is
      attached, the frame counter, the source last asked for and the
      pipeline built from it, if building succeeded. */
  datatype Viewer = Viewer(layer: Option<MetalBackend.Layer>, frameIndex: nat, shaderSource: string,
                           pipeline: Option<Pipeline>)

  /** `MetalRenderBackend::new`: no window, no source, no pipeline. */
  function New(): (v: Viewer)
    ensures v.layer.None? && v.frameIndex == 0 && v.shaderSource == "" && v.pipeline.None?
  {
    Viewer(None, 0, "", None)
  }

  /** `init_window`: the layer's drawable size is the window's inner size. */
  function InitWindow(v: Viewer, width: nat, height: nat): (r: Viewer)
    ensures r.layer == Some(MetalBackend.Layer(width, height))
    ensures r.frameIndex == v.frameIndex && r.shaderSource == v.shaderSource && r.pipeline == v.pipeline
  {
    v.(layer := Some(MetalBackend.Layer(width, height)))
  }

  // ---------------------------------------------------------------------------
  // Building a pipeline. The viewer has its own copy of the library helper
  // (`TEST_new_library_with_source`, read the same way as the backend's) but
  // asks metal-rs itself for the pipeline state.

  /** metal-rs's `new_render_pipeline_state`: a set error wins, and otherwise
      the returned pointer is wrapped as it is, null included. */
  function WrapPipelineState(ret: MetalBackend.ObjcReturn<MetalBackend.PipelineState>): (r: Result<Pipeline, string>)
    ensures r.Err? <==> ret.error.Some?
    ensures r.Err? ==> r.error == ret.error.value
    ensures r.Ok? ==> r.value.state == ret.value
  {
    match ret.error
    case Some(message) => Err(message)
    case None => Ok(Pipeline(ret.value))
  }

  /** The two readings of a pipeline call differ only on a null pointer without
      an error: metal-rs accepts it, the backend's own helper rejects it. */
  lemma WrapAcceptsNull(ret: MetalBackend.ObjcReturn<MetalBackend.PipelineState>)
    ensures MetalBackend.NewRenderPipelineState(ret).Ok? ==>
      WrapPipelineState(ret) == Ok(Pipeline(Some(MetalBackend.NewRenderPipelineState(ret).value)))
    ensures WrapPipelineState(ret).Err? ==> MetalBackend.NewRenderPipelineState(ret) == Err(WrapPipelineState(ret).error)
    ensures WrapPipelineState(ret).Ok? != MetalBackend.NewRenderPipelineState(ret).Ok? <==>
      ret.error.None? && ret.value.None?
  {
  }

  /** Both libraries were built and both entry points found, so the pipeline call is made. */
  predicate EntryPointsFound(device: MetalBackend.Device, msl: string) {
    var vs := device.newLibrary(MetalBackend.VertexSource).value;
    var ps := device.newLibrary(msl).value;
    vs.Some? && ps.Some?
    && device.getFunction(vs.value, MetalBackend.VertexEntry).Ok?
    && device.getFunction(ps.value, MetalBackend.FragmentEntry).Ok?
  }

  /** What the device answers to the pipeline call. */
  function PipelineCall(device: MetalBackend.Device, msl: string): MetalBackend.ObjcReturn<MetalBackend.PipelineState>
    requires EntryPointsFound(device, msl)
  {
    device.newPipelineState(
      device.getFunction(device.newLibrary(MetalBackend.VertexSource).value.value, MetalBackend.VertexEntry).value,
      device.getFunction(device.newLibrary(msl).value.value, MetalBackend.FragmentEntry).value)
  }

  /** The viewer's `create_pipeline_state`: both libraries, both entry points,
      then metal-rs's pipeline call; the first failure is the result. */
  function CreatePipelineState(device: MetalBackend.Device, msl: string): (r: Result<Pipeline, string>)
    ensures r.Ok? <==> EntryPointsFound(device, msl) && PipelineCall(device, msl).error.None?
    ensures r.Ok? ==> r.value.state == PipelineCall(device, msl).value
    ensures EntryPointsFound(device, msl) && PipelineCall(device, msl).error.Some? ==>
      r == Err(PipelineCall(device, msl).error.value)
  {
    var vs :- MetalBackend.NewLibraryWithSource(device.newLibrary(MetalBackend.VertexSource));
    var ps :- MetalBackend.NewLibraryWithSource(device.newLibrary(msl));
    var vsMain :- device.getFunction(vs, MetalBackend.VertexEntry);
    var psMain :- device.getFunction(ps, MetalBackend.FragmentEntry);
    WrapPipelineState(device.newPipelineState(vsMain, psMain))
  }

  /** The viewer builds whatever the backend's stricter `create_pipeline_state`
      builds, fails as it fails, and in addition accepts a null pipeline state
      that comes without an error. */
  lemma CreatePipelineStateAgrees(device: MetalBackend.Device, msl: string)
    ensures MetalBackend.CreatePipelineState(device, msl).Ok? ==>
      CreatePipelineState(device, msl) == Ok(Pipeline(Some(MetalBackend.CreatePipelineState(device, msl).value)))
    ensures CreatePipelineState(device, msl).Err? ==>
      MetalBackend.CreatePipelineState(device, msl) == Err(CreatePipelineState(device, msl).error)
    ensures CreatePipelineState(device, msl) == Ok(Pipeline(None)) ==>
      MetalBackend.CreatePipelineState(device, msl) == Err(MetalBackend.NullPipelineMessage)
  {
  }

  /** The pipeline a device builds for a source, if it builds one: whenever the
      pipeline call is reached and reports no error, null pointers included. */
  function Built(device: MetalBackend.Device, source: string): (r: Option<Pipeline>)
    ensures r.Some? <==> EntryPointsFound(device, source) && PipelineCall(device, source).error.None?
    ensures r.Some? ==> r.value.state == PipelineCall(device, source).value
  {
    match CreatePipelineState(device, source)
    case Ok(state) => Some(state)
    case Err(_) => None
  }

  /** The backend's invariant: the pipeline is what the device builds for the
      recorded source, except in the initial state, where the empty source
      has no pipeline. */
  predicate Consistent(v: Viewer, device: MetalBackend.Device) {
    (v.shaderSource == "" && v.pipeline.None?) || v.pipeline == Built(device, v.shaderSource)
  }

  /** `update_shader`: a source equal to the recorded one changes nothing;
      any other is recorded and built, and a failed build leaves no pipeline. */
  function UpdateShader(v: Viewer, source: string, device: MetalBackend.Device): (r: Viewer)
    ensures source == v.shaderSource ==> r == v
    ensures r.shaderSource == source
    ensures r.layer == v.layer && r.frameIndex == v.frameIndex
    ensures Consistent(v, device) ==> Consistent(r, device)
  {
    if source == v.shaderSource then v
    else v.(shaderSource := source, pipeline := Built(device, source))
  }

  /** What one drawn frame hands to Metal: the pipeline, the drawable's size
      (for `iResolution`) and the frame number as `iFrame`. */
  datatype Frame = Frame(pipeline: Pipeline, width: nat, height: nat, frame: int)

  /** `present`: update the shader first; without a pipeline, a layer or a
      drawable nothing is drawn and the frame counter stays put. */
  function Present(v: Viewer, source: string, device: MetalBackend.Device, drawable: bool)
    : (r: (Viewer, Option<Frame>))
    ensures r.1.Some? <==> UpdateShader(v, source, device).pipeline.Some? && v.layer.Some? && drawable
    ensures r.1.None? ==> r.0 == UpdateShader(v, source, device)
    ensures r.1.Some? ==>
      r.0 == UpdateShader(v, source, device).(frameIndex := v.frameIndex + 1)
      && r.1.value == Frame(r.0.pipeline.value, v.layer.value.width, v.layer.value.height,
                            Render.FrameAsI32(v.frameIndex))
  {
    var u := UpdateShader(v, source, device);
    match u.pipeline
    case None => (u, None)
    case Some(state) =>
      match u.layer
      case None => (u, None)
      case Some(layer) =>
        if !drawable then (u, None)
        else (u.(frameIndex := u.frameIndex + 1),
              Some(Frame(state, layer.width, layer.height, Render.FrameAsI32(u.frameIndex))))
  }

  /** Presenting the same source over several frames, one drawable flag per frame. */
  function PresentAll(v: Viewer, source: string, device: MetalBackend.Device, drawables: seq<bool>)
    : (r: (Viewer, seq<Frame>))
    ensures |r.1| <= |drawables|
    ensures r.0.frameIndex == v.frameIndex + |r.1|
    decreases |drawables|
  {
    if |drawables| == 0 then (v, [])
    else
      var (v', frame) := Present(v, source, device, drawables[0]);
      var (last, frames) := PresentAll(v', source, device, drawables[1..]);
      (last, (if frame.Some? then [frame.value] else []) + frames)
  }

  /** A source is built at most once: once presented, presenting it again
      keeps the pipeline whatever the device would now answer. */
  lemma PresentNeverRebuilds(v: Viewer, source: string, device: MetalBackend.Device, later: MetalBackend.Device,
                             drawable: bool, drawableLater: bool)
    ensures var first := Present(v, source, device, drawable).0;
      Present(first, source, later, drawableLater).0.pipeline == first.pipeline
  {
  }

  /** A source the device cannot build is not retried: every later frame
      showing it draws nothing and the frame counter stands still. */
  lemma {:induction false} FailedSourceNeverDraws(v: Viewer, source: string, device: MetalBackend.Device,
                                                  drawables: seq<bool>)
    requires v.shaderSource == source && v.pipeline.None?
    ensures PresentAll(v, source, device, drawables) == (v, [])
    decreases |drawables|
  {
    if |drawables| > 0 {
      FailedSourceNeverDraws(v, source, device, drawables[1..]);
    }
  }

  /** A source that fails to build, presented to a consistent viewer, is never drawn. */
  lemma FailedBuildNeverDraws(v: Viewer, source: string, device: MetalBackend.Device, drawables: seq<bool>)
    requires Consistent(v, device) && CreatePipelineState(device, source).Err?
    ensures PresentAll(v, source, device, drawables).1 == []
  {
    if |drawables| > 0 {
      var v' := Present(v, source, device, drawables[0]).0;
      assert v'.shaderSource == source && v'.pipeline.None?;
      FailedSourceNeverDraws(v', source, device, drawables[1..]);
    }
  }

  /** A device that answers the pipeline call with a null pointer and no error
      still gets a frame drawn, with the null state, and the counter moves on;
      the backend's own helper would have refused that pipeline. */
  lemma NullPipelineStillDraws(device: MetalBackend.Device, source: string, width: nat, height: nat)
    requires source != "" && EntryPointsFound(device, source)
    requires PipelineCall(device, source) == MetalBackend.ObjcReturn(None, None)
    ensures var r := Present(InitWindow(New(), width, height), source, device, true);
      r.1 == Some(Frame(Pipeline(None), width, height, Render.FrameAsI32(0))) && r.0.frameIndex == 1
    ensures MetalBackend.CreatePipelineState(device, source) == Err(MetalBackend.NullPipelineMessage)
  {
    CreatePipelineStateAgrees(device, source);
  }

  /** A fresh viewer shown the empty source never builds a pipeline, even when
      the device could build one for it. */
  lemma EmptySourceNeverBuilds(device: MetalBackend.Device, width: nat, height: nat, drawables: seq<bool>)
    ensures PresentAll(InitWindow(New(), width, height), "", device, drawables).1 == []
  {
    FailedSourceNeverDraws(InitWindow(New(), width, height), "", device, drawables);
  }

  /** With a window, a built pipeline and a drawable every frame, every frame
      draws, numbered on from the counter. */
  lemma {:induction false} BuiltSourceDrawsEveryFrame(v: Viewer, source: string, device: MetalBackend.Device, n: nat)
    requires v.layer.Some? && v.shaderSource == source && v.pipeline.Some?
    ensures var r := PresentAll(v, source, device, seq(n, _ => true));
      |r.1| == n && forall k :: 0 <= k < n ==> r.1[k].frame == Render.FrameAsI32(v.frameIndex + k)
    decreases n
  {
    if n > 0 {
      var drawables := seq(n, _ => true);
      assert drawables[1..] == seq(n - 1, _ => true);
      var v' := Present(v, source, device, true).0;
      BuiltSourceDrawsEveryFrame(v', source, device, n - 1);
      var rest := PresentAll(v', source, device, drawables[1..]).1;
      var r := PresentAll(v, source, device, drawables);
      assert r.1 == [Present(v, source, device, true).1.value] + rest;
      forall k | 0 <= k < n ensures r.1[k].frame == Render.FrameAsI32(v.frameIndex + k) {
        if k > 0 {
          assert r.1[k] == rest[k - 1];
        }
      }
    }
  }

  // ---------------------------------------------------------------------------
  // The event loop.

  /** The keys the loop reacts to; every other event is ignored. */
  datatype Key = Left | Right | Other

  /** One key press: Left steps back unless at the first shader, Right steps
      on unless at the last. */
  function Step(index: nat, key: Key, count: nat): (r: nat)
    requires index < count
    ensures r < count
    ensures key == Left ==> r == (if index == 0 then 0 else index - 1)
    ensures key == Right ==> r == (if index + 1 < count then index + 1 else index)
    ensures key == Other ==> r == index
  {
    match key
    case Left => if index != 0 then index - 1 else index
    case Right => if index + 1 < count then index + 1 else index
    case Other => index
  }

  function Steps(index: nat, keys: seq<Key>, count: nat): (r: nat)
    requires index < count
    ensures r < count
    decreases |keys|
  {
    if |keys| == 0 then index else Steps(Step(index, keys[0], count), keys[1..], count)
  }

  /** Pressing Right k times from the first shader reaches the k-th, or stops at the last. */
  lemma {:induction false} RightsReach(index: nat, k: nat, count: nat)
    requires index < count
    ensures Steps(index, seq(k, _ => Right), count) == if index + k < count then index + k else count - 1
    decreases k
  {
    if k > 0 {
      assert seq(k, _ => Right)[1..] == seq(k - 1, _ => Right);
      RightsReach(Step(index, Right, count), k - 1, count);
    }
  }

  /** Pressing Left as often as the index is large returns to the first shader. */
  lemma {:induction false} LeftsReturn(index: nat, k: nat, count: nat)
    requires index < count
    ensures Steps(index, seq(k, _ => Left), count) == if k <= index then index - k else 0
    decreases k
  {
    if k > 0 {
      assert seq(k, _ => Left)[1..] == seq(k - 1, _ => Left);
      LeftsReturn(Step(index, Left, count), k - 1, count);
    }
  }

  /** One pass of the loop: the events polled since the last frame and whether
      a drawable is available for this one. */
  datatype Tick = Tick(keys: seq<Key>, drawable: bool)

  /** The frames of the loop after the first `ticks`: each tick moves the
      index and presents the shader it lands on. */
  function Loop(built: seq<string>, index: nat, v: Viewer, device: MetalBackend.Device, ticks: seq<Tick>)
    : (r: (Viewer, seq<string>, seq<Frame>))
    requires index < |built|
    ensures |r.1| == |ticks|
    ensures forall k :: 0 <= k < |r.1| ==> r.1[k] in built
    ensures |r.2| <= |ticks|
    decreases |ticks|
  {
    if |ticks| == 0 then (v, [], [])
    else
      var i := Steps(index, ticks[0].keys, |built|);
      var (v', frame) := Present(v, built[i], device, ticks[0].drawable);
      var (last, shown, frames) := Loop(built, i, v', device, ticks[1..]);
      (last, [built[i]] + shown, (if frame.Some? then [frame.value] else []) + frames)
  }

  /** The key presses of a run of ticks, in order. */
  function KeysOf(ticks: seq<Tick>): seq<Key>
    decreases |ticks|
  {
    if |ticks| == 0 then [] else ticks[0].keys + KeysOf(ticks[1..])
  }

  /** Key presses split anywhere step the index through the first part, then the second. */
  lemma {:induction false} StepsAppend(index: nat, a: seq<Key>, b: seq<Key>, count: nat)
    requires index < count
    ensures Steps(index, a + b, count) == Steps(Steps(index, a, count), b, count)
    decreases |a|
  {
    if |a| == 0 {
      assert a + b == b;
    } else {
      assert (a + b)[0] == a[0];
      assert (a + b)[1..] == a[1..] + b;
      StepsAppend(Step(index, a[0], count), a[1..], b, count);
    }
  }

  /** Tick k shows the built shader the keys pressed up to and including
      that tick lead to, starting from `index`. */
  lemma {:induction false} LoopShowsAt(built: seq<string>, index: nat, v: Viewer, device: MetalBackend.Device,
                                       ticks: seq<Tick>, k: nat)
    requires index < |built| && k < |ticks|
    ensures Loop(built, index, v, device, ticks).1[k] == built[Steps(index, KeysOf(ticks[..k + 1]), |built|)]
    decreases k
  {
    var i := Steps(index, ticks[0].keys, |built|);
    var v' := Present(v, built[i], device, ticks[0].drawable).0;
    var rest := Loop(built, i, v', device, ticks[1..]).1;
    assert Loop(built, index, v, device, ticks).1 == [built[i]] + rest;
    var prefix := ticks[..k + 1];
    var later := KeysOf(ticks[1..][..k]);
    assert prefix[0] == ticks[0];
    assert prefix[1..] == ticks[1..][..k];
    assert KeysOf(prefix) == ticks[0].keys + later;
    StepsAppend(index, ticks[0].keys, later, |built|);
    if k == 0 {
      assert later == [];
    } else {
      LoopShowsAt(built, i, v', device, ticks[1..], k - 1);
    }
  }

  /** Every tick shows the shader its key presses so far select. */
  lemma LoopFollowsKeys(built: seq<string>, index: nat, v: Viewer, device: MetalBackend.Device, ticks: seq<Tick>)
    requires index < |built|
    ensures forall k :: 0 <= k < |ticks| ==>
      Loop(built, index, v, device, ticks).1[k] == built[Steps(index, KeysOf(ticks[..k + 1]), |built|)]
  {
    forall k | 0 <= k < |ticks|
      ensures Loop(built, index, v, device, ticks).1[k] == built[Steps(index, KeysOf(ticks[..k + 1]), |built|)]
    {
      LoopShowsAt(built, index, v, device, ticks, k);
    }
  }

  /** The tail of `main`: nothing happens unless some shader was built and
      rendering was asked for; otherwise a 1024x768 window opens on the first
      built shader and the loop runs. */
  function Run(built: seq<string>, render: bool, device: MetalBackend.Device, ticks: seq<Tick>)
    : (r: Option<(Viewer, seq<string>, seq<Frame>)>)
    ensures r.Some? <==> |built| > 0 && render
    ensures r.Some? ==> |r.value.1| == |ticks| && forall k :: 0 <= k < |ticks| ==> r.value.1[k] in built
    ensures r.Some? ==> r.value.0.layer == Some(MetalBackend.Layer(WindowWidth, WindowHeight))
    ensures r.Some? ==> forall k :: 0 <= k < |ticks| ==>
      r.value.1[k] == built[Steps(0, KeysOf(ticks[..k + 1]), |built|)]
  {
    if |built| == 0 || !render then None
    else
      var v := InitWindow(New(), WindowWidth, WindowHeight);
      LoopKeepsLayer(built, 0, v, device, ticks);
      LoopFollowsKeys(built, 0, v, device, ticks);
      Some(Loop(built, 0, v, device, ticks))
  }

  const WindowWidth: nat := 1024
  const WindowHeight: nat := 768

  /** The loop never changes the layer. */
  lemma {:induction false} LoopKeepsLayer(built: seq<string>, index: nat, v: Viewer, device: MetalBackend.Device,
                                          ticks: seq<Tick>)
    requires index < |built|
    ensures Loop(built, index, v, device, ticks).0.layer == v.layer
    decreases |ticks|
  {
    if |ticks| > 0 {
      var i := Steps(index, ticks[0].keys, |built|);
      LoopKeepsLayer(built, i, Present(v, built[i], device, ticks[0].drawable).0, device, ticks[1..]);
    }
  }
}
