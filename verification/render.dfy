/** The backend-independent rendering interface (src/render.rs): pipeline
    handles, quads, the draws a frame issues, and the `repr(C)` layout of the
    uniform block `ShadertoyConstants`. Floating-point values are idealised as
    `real`. */
module Render {
  import opened Wrappers

  /** `RenderPipelineHandle`: a plain index into a backend's pipeline list. */
  type PipelineHandle = nat

  /** `RenderQuad`. */
  datatype Quad = Quad(x: real, y: real, width: real, height: real, pipelineHandle: PipelineHandle)

  /** The documented range of a quad's position and size: normalised [0, 1] coordinates. */
  predicate Normalised(q: Quad) {
    0.0 <= q.x <= 1.0 && 0.0 <= q.y <= 1.0 && 0.0 <= q.width <= 1.0 && 0.0 <= q.height <= 1.0
  }

  datatype Viewport = Viewport(x: real, y: real, width: real, height: real)

  /** The viewport both backends set for a quad on a `w` by `h` target. */
  function QuadViewport(q: Quad, w: real, h: real): Viewport {
    Viewport(q.x * w, q.y * h, q.width * w, q.height * h)
  }

  /** A fraction of a non-negative size lies between zero and that size. */
  lemma ScaleWithin(a: real, w: real, p: real)
    requires 0.0 <= a <= 1.0 && w >= 0.0 && p == a * w
    ensures 0.0 <= p <= w
  {
    assert 0.0 * w <= a * w;
    assert (1.0 - a) * w == w - a * w;
    assert (1.0 - a) * w >= 0.0 * w;
  }

  /** A normalised quad's viewport starts inside the target and is no larger than it. */
  lemma NormalisedViewportInside(q: Quad, w: real, h: real)
    requires Normalised(q) && w >= 0.0 && h >= 0.0
    ensures var v := QuadViewport(q, w, h);
      0.0 <= v.x <= w && 0.0 <= v.y <= h && 0.0 <= v.width <= w && 0.0 <= v.height <= h
  {
    var v := QuadViewport(q, w, h);
    ScaleWithin(q.x, w, v.x);
    ScaleWithin(q.y, h, v.y);
    ScaleWithin(q.width, w, v.width);
    ScaleWithin(q.height, h, v.height);
  }

  /** One `draw(0..3)` / `draw_primitives(Triangle, 0, 3)`: the full-screen
      triangle with the pipeline the quad names, clipped to its viewport, and
      the `iFrame` value pushed with it. */
  datatype Draw<P> = Draw(pipeline: P, viewport: Viewport, frame: int)

  /** Every quad names a registered pipeline; indexing `pipelines[handle]`
      panics otherwise. */
  predicate HandlesInRange<P>(pipelines: seq<P>, quads: seq<Quad>) {
    forall i :: 0 <= i < |quads| ==> quads[i].pipelineHandle < |pipelines|
  }

  /** The draws of one frame, one per quad in caller order, or the panic of
      `pipelines[handle]` when some quad names an unregistered pipeline. */
  function Draws<P>(pipelines: seq<P>, quads: seq<Quad>, w: real, h: real, frame: int)
    : Result<seq<Draw<P>>, Panic>
  {
    if HandlesInRange(pipelines, quads) then
      Ok(seq(|quads|, i requires 0 <= i < |quads| =>
        Draw(pipelines[quads[i].pipelineHandle], QuadViewport(quads[i], w, h), frame)))
    else Err(Panic(IndexPanic))
  }

  const IndexPanic: string := "index out of bounds"

  /** A single quad draws its pipeline in its viewport, or panics when its
      handle is not registered. With `DrawsAppend` this fixes every frame's draws. */
  lemma DrawsOne<P>(pipelines: seq<P>, q: Quad, w: real, h: real, frame: int)
    ensures Draws(pipelines, [q], w, h, frame) ==
      if q.pipelineHandle < |pipelines|
      then Ok([Draw(pipelines[q.pipelineHandle], Viewport(q.x * w, q.y * h, q.width * w, q.height * h), frame)])
      else Err(Panic(IndexPanic))
  {
    if q.pipelineHandle < |pipelines| {
      assert HandlesInRange(pipelines, [q]);
      var d := Draws(pipelines, [q], w, h, frame).value;
      assert |d| == 1 && d[0] == Draw(pipelines[q.pipelineHandle], QuadViewport(q, w, h), frame);
      assert d == [d[0]];
      assert QuadViewport(q, w, h) == Viewport(q.x * w, q.y * h, q.width * w, q.height * h);
      assert Draws(pipelines, [q], w, h, frame) == Ok(d);
    } else {
      assert [q][0] == q;
    }
  }

  /** A frame's quads split anywhere draw as the two halves one after the
      other, and panic when either half does. */
  lemma DrawsAppend<P>(pipelines: seq<P>, a: seq<Quad>, b: seq<Quad>, w: real, h: real, frame: int)
    ensures Draws(pipelines, a + b, w, h, frame) ==
      if Draws(pipelines, a, w, h, frame).Ok? && Draws(pipelines, b, w, h, frame).Ok?
      then Ok(Draws(pipelines, a, w, h, frame).value + Draws(pipelines, b, w, h, frame).value)
      else Err(Panic(IndexPanic))
  {
    var ab := a + b;
    if HandlesInRange(pipelines, a) && HandlesInRange(pipelines, b) {
      DrawsConcatInRange(pipelines, a, b, w, h, frame);
    } else if !HandlesInRange(pipelines, a) {
      var i :| 0 <= i < |a| && a[i].pipelineHandle >= |pipelines|;
      assert ab[i] == a[i];
    } else {
      var i :| 0 <= i < |b| && b[i].pipelineHandle >= |pipelines|;
      assert ab[|a| + i] == b[i];
    }
  }

  /** The in-range half of `DrawsAppend`. */
  lemma DrawsConcatInRange<P>(pipelines: seq<P>, a: seq<Quad>, b: seq<Quad>, w: real, h: real, frame: int)
    requires HandlesInRange(pipelines, a) && HandlesInRange(pipelines, b)
    ensures Draws(pipelines, a + b, w, h, frame) ==
      Ok(Draws(pipelines, a, w, h, frame).value + Draws(pipelines, b, w, h, frame).value)
  {
    var ab := a + b;
    assert HandlesInRange(pipelines, ab) by {
      forall i | 0 <= i < |ab| ensures ab[i].pipelineHandle < |pipelines| {
        if i < |a| { assert ab[i] == a[i]; } else { assert ab[i] == b[i - |a|]; }
      }
    }
    var da := Draws(pipelines, a, w, h, frame).value;
    var db := Draws(pipelines, b, w, h, frame).value;
    var d := Draws(pipelines, ab, w, h, frame).value;
    forall i | 0 <= i < |d| ensures d[i] == (da + db)[i] {
      if i < |a| {
        assert ab[i] == a[i];
        assert (da + db)[i] == da[i];
      } else {
        assert ab[i] == b[i - |a|];
        assert (da + db)[i] == db[i - |a|];
      }
    }
    assert d == da + db;
  }

  /** The backends' `for quad in params.quads` loop: it encodes one draw per
      quad and stops at the first handle that is out of range. */
  method DrawQuads<P>(pipelines: seq<P>, quads: seq<Quad>, w: real, h: real, frame: int)
    returns (r: Result<seq<Draw<P>>, Panic>)
    ensures r.Ok? <==> HandlesInRange(pipelines, quads)
    ensures r.Ok? ==> |r.value| == |quads|
    ensures r.Ok? ==> forall i :: 0 <= i < |quads| ==>
      r.value[i] == Draw(pipelines[quads[i].pipelineHandle], QuadViewport(quads[i], w, h), frame)
    ensures r == Draws(pipelines, quads, w, h, frame)
  {
    var draws: seq<Draw<P>> := [];
    var i := 0;
    while i < |quads|
      invariant 0 <= i <= |quads|
      invariant |draws| == i
      invariant HandlesInRange(pipelines, quads[..i])
      invariant forall k :: 0 <= k < i ==>
        draws[k] == Draw(pipelines[quads[k].pipelineHandle], QuadViewport(quads[k], w, h), frame)
    {
      var q := quads[i];
      if q.pipelineHandle >= |pipelines| {
        return Err(Panic(IndexPanic));
      }
      draws := draws + [Draw(pipelines[q.pipelineHandle], QuadViewport(q, w, h), frame)];
      i := i + 1;
    }
    assert quads[..i] == quads;
    assert draws == Draws(pipelines, quads, w, h, frame).value;
    return Ok(draws);
  }

  /** The crate's `error_chain` error: a message, or a context message
      chained over the error that caused it. */
  datatype Error = Msg(text: string) | Chain(context: string, cause: string)

  // ---------------------------------------------------------------------------
  // The pipeline registry: an append-only list whose handles are indices.

  /** Appends one pipeline; its handle is the list's old length. */
  function Register<P>(pipelines: seq<P>, p: P): (r: (seq<P>, PipelineHandle))
    ensures r.1 == |pipelines| && |r.0| == |pipelines| + 1
    ensures r.0[..|pipelines|] == pipelines && r.0[r.1] == p
  {
    (pipelines + [p], |pipelines|)
  }

  /** Registering `ps` one after another. */
  function RegisterAll<P>(pipelines: seq<P>, ps: seq<P>): (r: (seq<P>, seq<PipelineHandle>))
    ensures |r.1| == |ps|
    decreases |ps|
  {
    if |ps| == 0 then (pipelines, [])
    else
      var (next, h) := Register(pipelines, ps[0]);
      var (last, hs) := RegisterAll(next, ps[1..]);
      (last, [h] + hs)
  }

  /** A run of registrations hands out the handles |old|, |old|+1, ... in order,
      so they are distinct, and each handle finds the pipeline registered under it. */
  lemma {:induction false} RegisterAllHandles<P>(pipelines: seq<P>, ps: seq<P>)
    ensures RegisterAll(pipelines, ps).0 == pipelines + ps
    ensures forall i :: 0 <= i < |ps| ==> RegisterAll(pipelines, ps).1[i] == |pipelines| + i
    decreases |ps|
  {
    if |ps| > 0 {
      var next := pipelines + [ps[0]];
      RegisterAllHandles(next, ps[1..]);
      assert next + ps[1..] == pipelines + ps;
    }
  }

  // ---------------------------------------------------------------------------
  // `iFrame: self.frame_index as i32`

  const I32_LIMIT: int := 0x8000_0000

  /** `u64 as i32`: keep the low 32 bits and read them as two's complement. */
  function FrameAsI32(frameIndex: nat): (r: int)
    ensures -I32_LIMIT <= r < I32_LIMIT
    ensures (r - frameIndex) % (2 * I32_LIMIT) == 0
  {
    var low := frameIndex % (2 * I32_LIMIT);
    if low < I32_LIMIT then low else low - 2 * I32_LIMIT
  }

  /** The frame counter reaches shaders unchanged for the first 2^31 frames, then goes negative. */
  lemma FrameAsI32Wraps(frameIndex: nat)
    ensures frameIndex < I32_LIMIT ==> FrameAsI32(frameIndex) == frameIndex
    ensures frameIndex == I32_LIMIT ==> FrameAsI32(frameIndex) == -I32_LIMIT
  {
  }

  // ---------------------------------------------------------------------------
  // `#[repr(C)] struct ShadertoyConstants`: every field is built of 4-byte
  // scalars (f32 or i32), so there is no padding and each field starts where
  // the previous one ends.

  /** A field and its size in 4-byte words. */
  datatype Field = Field(name: string, words: nat)

  const ConstantsLayout: seq<Field> := [
    Field("iResolution", 3), Field("pad1", 1), Field("iMouse", 4),
    Field("iTime", 1), Field("iTimeDelta", 1), Field("iFrameRate", 1), Field("iSampleRate", 1),
    Field("iFrame", 1), Field("pad2", 3), Field("iDate", 4), Field("iChannelTime", 4),
    Field("iChannelResolution", 16), Field("iBlockOffset", 1), Field("pad3", 3)
  ]

  function Words(fields: seq<Field>): nat {
    if |fields| == 0 then 0 else Words(fields[..|fields| - 1]) + fields[|fields| - 1].words
  }

  /** The byte offset of every field, and the size of the whole struct. */
  method Offsets(fields: seq<Field>) returns (offsets: seq<nat>, size: nat)
    ensures |offsets| == |fields|
    ensures forall i :: 0 <= i < |fields| ==> offsets[i] == 4 * Words(fields[..i])
    ensures size == 4 * Words(fields)
  {
    offsets := [];
    size := 0;
    var i := 0;
    while i < |fields|
      invariant 0 <= i <= |fields|
      invariant |offsets| == i
      invariant size == 4 * Words(fields[..i])
      invariant forall k :: 0 <= k < i ==> offsets[k] == 4 * Words(fields[..k])
    {
      WordsStep(fields, i);
      offsets := offsets + [size];
      size := size + 4 * fields[i].words;
      i := i + 1;
    }
    assert fields[..i] == fields;
  }

  lemma WordsStep(fields: seq<Field>, k: nat)
    requires k < |fields|
    ensures Words(fields[..k + 1]) == Words(fields[..k]) + fields[k].words
  {
    assert fields[..k + 1][..k] == fields[..k];
  }

  /** Byte offset of field `i`. */
  function OffsetOf(fields: seq<Field>, i: nat): nat
    requires i <= |fields|
  {
    4 * Words(fields[..i])
  }

  /** The fields that begin a 16-byte (four-float) group, as a GPU uniform
      block lays them out: iResolution+pad1, iMouse, iTime..iSampleRate,
      iFrame+pad2, iDate, iChannelTime, iChannelResolution (its four rows
      follow at 16-byte steps) and iBlockOffset+pad3. */
  const GroupStarts: seq<nat> := [0, 2, 3, 7, 9, 10, 11, 12]

  /** Running word counts of the first seven fields. */
  lemma LayoutWordsLow()
    ensures Words(ConstantsLayout[..2]) == 4
    ensures Words(ConstantsLayout[..3]) == 8
    ensures Words(ConstantsLayout[..7]) == 12
  {
    assert ConstantsLayout[..0] == [];
    WordsStep(ConstantsLayout, 0);
    WordsStep(ConstantsLayout, 1);
    WordsStep(ConstantsLayout, 2);
    WordsStep(ConstantsLayout, 3);
    WordsStep(ConstantsLayout, 4);
    WordsStep(ConstantsLayout, 5);
    WordsStep(ConstantsLayout, 6);
  }

  /** Running word counts of the remaining fields. */
  lemma LayoutWordsHigh()
    ensures Words(ConstantsLayout[..9]) == 16
    ensures Words(ConstantsLayout[..10]) == 20
    ensures Words(ConstantsLayout[..11]) == 24
    ensures Words(ConstantsLayout[..12]) == 40
    ensures Words(ConstantsLayout[..14]) == 44
  {
    LayoutWordsLow();
    WordsStep(ConstantsLayout, 7);
    WordsStep(ConstantsLayout, 8);
    WordsStep(ConstantsLayout, 9);
    WordsStep(ConstantsLayout, 10);
    WordsStep(ConstantsLayout, 11);
    WordsStep(ConstantsLayout, 12);
    WordsStep(ConstantsLayout, 13);
  }

  /** The struct is 44 words (176 bytes) and every group starts on a 16-byte boundary. */
  lemma ConstantsLayoutAligned()
    ensures 4 * Words(ConstantsLayout) == 176
    ensures forall g :: 0 <= g < |GroupStarts| ==>
      (GroupStarts[g] < |ConstantsLayout| && OffsetOf(ConstantsLayout, GroupStarts[g]) % 16 == 0)
  {
    LayoutWordsLow();
    LayoutWordsHigh();
    assert ConstantsLayout[..0] == [];
    assert ConstantsLayout[..14] == ConstantsLayout;
  }
}
