/// `glslsandbox_example::ShaderWork`
/// (frontend/src/shaders/glslsandbox_example.rs): a full-canvas quad drawn
/// from an indexed vertex buffer by a fragment shader in the style of
/// glslsandbox, fed every frame with the resolution, the elapsed time, a
/// frame counter and the pointer position through a uniform buffer.
module GlslsandboxShader {

  import opened Options
  import opened Wgpu
  import opened GpuContexts
  import FrameState

  const ShaderSource := "glslsandbox_example.wgsl"

  // ------ Geometry ------

  /** `size_of::<Vertex>()`: one `[f32; 2]` position. */
  const VertexSize: nat := StructSize([F32ArraySize(2)])

  /** `Vertex::desc`: the position at offset 0 feeding location 0. */
  function Desc(): (l: VertexBufferLayout)
    ensures WellFormedLayout(l)
    ensures l.arrayStride == 8 && l.stepMode == PerVertex
    ensures |l.attributes| == 1 && FormatSize(l.attributes[0].format) == l.arrayStride
    ensures l.attributes[0].offset == 0 && l.attributes[0].shaderLocation == 0
  {
    VertexBufferLayout(VertexSize, PerVertex, [VertexAttribute(Float32x2, 0, 0)])
  }

  /** `VERTICES`: the corners of clip space, top left first, counter-clockwise. */
  const Vertices: seq<(int, int)> := [(-1, 1), (-1, -1), (1, -1), (1, 1)]

  /** `INDICES`, `u16` values: two triangles. */
  const Indices: seq<nat> := [0, 1, 3, 1, 2, 3]

  const U16_MAX: nat := 0xFFFF

  /** Twice the signed area of the `t`-th triangle of the index list. */
  function TriangleOrientation(t: nat): int
    requires 3 * t + 2 < |Indices|
    requires forall i :: 0 <= i < |Indices| ==> Indices[i] < |Vertices|
  {
    Orientation(Vertices[Indices[3 * t]], Vertices[Indices[3 * t + 1]], Vertices[Indices[3 * t + 2]])
  }

  /** The index list describes whole triangles over existing vertices, every
      index fits the `Uint16` index format, both triangles face the viewer,
      they share the diagonal from vertex 1 to vertex 3, every vertex is
      used, and their areas add up to the area of clip space (2 by 2): the
      quad covers the whole canvas. */
  lemma QuadCoversClipSpace()
    ensures |Indices| == 6 && |Indices| % 3 == 0
    ensures forall i :: 0 <= i < |Indices| ==> Indices[i] < |Vertices| && Indices[i] <= U16_MAX
    ensures TriangleOrientation(0) > 0 && TriangleOrientation(1) > 0
    ensures TriangleOrientation(0) + TriangleOrientation(1) == 2 * (2 * 2)
    ensures 1 in Indices[..3] && 3 in Indices[..3] && 1 in Indices[3..] && 3 in Indices[3..]
    ensures forall v :: 0 <= v < |Vertices| ==> v in Indices
  {
  }

  // ------ Uniform ------

  const I32_MIN: int := -0x8000_0000
  const I32_MAX: int := 0x7FFF_FFFF

  predicate IsI32(x: int)
  {
    I32_MIN <= x <= I32_MAX
  }

  /** `x` reduced into the `i32` range by two's-complement wrap-around:
      the one `i32` value that differs from `x` by a multiple of 2^32. */
  function WrapI32(x: int): (r: int)
    ensures IsI32(r)
    ensures (r - x) % 0x1_0000_0000 == 0
    ensures IsI32(x) ==> r == x
  {
    var m := 0x1_0000_0000;
    var q := (x - I32_MIN) / m;
    ModUnique(-q * m, -q, 0, m);
    (x - I32_MIN) % m + I32_MIN
  }

  /** `self.frame += 1` on an `i32` in a release build, where overflow
      checks are off and the counter wraps. */
  function WrappingIncrement(x: int): (r: int)
    requires IsI32(x)
    ensures IsI32(r)
    ensures r == WrapI32(x + 1)
  {
    if x == I32_MAX then I32_MIN else x + 1
  }

  /** The values of a `Uniform`. Time is kept in whole milliseconds. */
  datatype UniformValue = UniformValue(
    resolution: (nat, nat), timeMs: int, frame: int, mouse: (int, int), padding: (int, int))

  /** The field sizes of `Uniform`: `[f32; 2]`, `f32`, `i32`, `[f32; 2]`, `[f32; 2]`. */
  const UniformFieldSizes: seq<nat> := [F32ArraySize(2), 4, 4, F32ArraySize(2), F32ArraySize(2)]

  /** The uniform buffer is 32 bytes, a multiple of the 16-byte alignment a
      WGSL uniform buffer requires; the padding field is what makes it so. */
  lemma UniformSizeAligned()
    ensures StructSize(UniformFieldSizes) == 32
    ensures StructSize(UniformFieldSizes) % 16 == 0
    ensures StructSize(UniformFieldSizes[..4]) % 16 != 0
  {
    assert UniformFieldSizes[..4] == [8, 4, 4, 8];
    assert StructSize([8]) == 8;
    assert StructSize([4, 8]) == 12;
    assert StructSize([4, 4, 8]) == 16;
  }

  /** The byte offset of each field of `Uniform`: the sizes of the fields
      before it, `#[repr(C)]` adding no gaps between these 4-byte-aligned fields. */
  lemma UniformFieldOffsets()
    ensures StructSize(UniformFieldSizes[..0]) == 0
    ensures StructSize(UniformFieldSizes[..1]) == 8
    ensures StructSize(UniformFieldSizes[..2]) == 12
    ensures StructSize(UniformFieldSizes[..3]) == 16
    ensures StructSize(UniformFieldSizes[..4]) == 24
    ensures StructSize(UniformFieldSizes[..5]) == 32
  {
    assert UniformFieldSizes[..1] == [8];
    assert UniformFieldSizes[..2] == [8, 4];
    assert UniformFieldSizes[..3] == [8, 4, 4];
    assert UniformFieldSizes[..4] == [8, 4, 4, 8];
    assert UniformFieldSizes[..5] == [8, 4, 4, 8, 8];
    assert StructSize([8]) == 8;
    assert StructSize([4, 8]) == 12;
    assert StructSize([4, 4, 8]) == 16;
    assert StructSize([8, 8]) == 16;
    assert StructSize([4, 8, 8]) == 20;
    assert StructSize([4, 4, 8, 8]) == 24;
  }

  /** The values of each field of a uniform, as 4-byte words, in declaration order. */
  function FieldWords(v: UniformValue): (f: seq<seq<int>>)
    ensures |f| == |UniformFieldSizes|
    ensures forall k :: 0 <= k < |f| ==> 4 * |f[k]| == UniformFieldSizes[k]
  {
    [[v.resolution.0, v.resolution.1], [v.timeMs], [v.frame], [v.mouse.0, v.mouse.1], [v.padding.0, v.padding.1]]
  }

  /** `bytemuck::cast_slice(&[uniform])`, four bytes per word: each 4-byte
      word of the buffer, in field order. Each field's words start at its
      byte offset divided by 4. */
  function UniformWords(v: UniformValue): (w: seq<int>)
    ensures 4 * |w| == StructSize(UniformFieldSizes)
    ensures forall k :: 0 <= k < |UniformFieldSizes| ==>
      var lo, hi := StructSize(UniformFieldSizes[..k]) / 4, StructSize(UniformFieldSizes[..k + 1]) / 4;
      0 <= lo <= hi <= |w| && w[lo..hi] == FieldWords(v)[k]
    ensures w[..2] == [v.resolution.0, v.resolution.1]
    ensures w[2] == v.timeMs && w[3] == v.frame
    ensures w[4..6] == [v.mouse.0, v.mouse.1] && w[6..] == [v.padding.0, v.padding.1]
  {
    UniformFieldOffsets();
    [v.resolution.0, v.resolution.1, v.timeMs, v.frame, v.mouse.0, v.mouse.1, v.padding.0, v.padding.1]
  }

  /** `Uniform::update` as a function of the previous values, the configured
      surface size, the elapsed milliseconds and the pointer position. */
  function Updated(v: UniformValue, size: (nat, nat), deltaMs: int, pointer: (int, int)): (r: UniformValue)
    requires IsI32(v.frame)
    ensures r.resolution == size && r.mouse == pointer && r.padding == v.padding
    ensures r.timeMs == v.timeMs + deltaMs
    ensures r.frame == WrapI32(v.frame + 1)
  {
    v.(resolution := size, timeMs := v.timeMs + deltaMs, frame := WrappingIncrement(v.frame), mouse := pointer)
  }

  /** What one frame's update reads: the surface size, the elapsed time and
      the pointer position. */
  datatype Tick = Tick(size: (nat, nat), deltaMs: int, pointer: (int, int))

  function UpdatedAll(v: UniformValue, ticks: seq<Tick>): UniformValue
    requires IsI32(v.frame)
    decreases |ticks|
  {
    if ticks == [] then v
    else
      var t := ticks[0];
      var next := Updated(v, t.size, t.deltaMs, t.pointer);
      UpdatedAll(next, ticks[1..])
  }

  function SumDeltas(ticks: seq<Tick>): int
  {
    if ticks == [] then 0 else ticks[0].deltaMs + SumDeltas(ticks[1..])
  }

  /** After any sequence of frames the shader sees the time elapsed since the
      start (the sum of the frame deltas), a frame counter advanced once per
      frame modulo 2^32, and the latest frame's size and pointer. */
  lemma {:induction false} UpdatesAccumulate(v: UniformValue, ticks: seq<Tick>)
    requires IsI32(v.frame)
    ensures UpdatedAll(v, ticks).timeMs == v.timeMs + SumDeltas(ticks)
    ensures UpdatedAll(v, ticks).frame == WrapI32(v.frame + |ticks|)
    ensures UpdatedAll(v, ticks).padding == v.padding
    ensures ticks != [] ==> UpdatedAll(v, ticks).resolution == ticks[|ticks| - 1].size
    ensures ticks != [] ==> UpdatedAll(v, ticks).mouse == ticks[|ticks| - 1].pointer
    decreases |ticks|
  {
    if ticks != [] {
      var t := ticks[0];
      var next := Updated(v, t.size, t.deltaMs, t.pointer);
      UpdatesAccumulate(next, ticks[1..]);
      assert WrapI32(next.frame + |ticks| - 1) == WrapI32(v.frame + |ticks|) by {
        WrapShift(v.frame + 1, |ticks| - 1);
      }
    }
  }

  /** Wrapping first and adding later wraps to the same value. */
  lemma WrapShift(x: int, n: nat)
    ensures WrapI32(WrapI32(x) + n) == WrapI32(x + n)
  {
    var m := 0x1_0000_0000;
    var q := (x - I32_MIN) / m;
    assert x - I32_MIN == q * m + (x - I32_MIN) % m;
    assert (WrapI32(x) + n - I32_MIN) == (x + n - I32_MIN) - q * m;
    ModShift(x + n - I32_MIN, q, m);
  }

  lemma ModShift(a: int, q: int, m: int)
    requires m > 0
    ensures (a - q * m) % m == a % m
  {
    var r := a % m;
    var d := a / m;
    assert a == d * m + r;
    assert a - q * m == (d - q) * m + r by {
      assert (d - q) * m == d * m - q * m;
    }
    ModUnique(a - q * m, d - q, r, m);
  }

  /** The remainder of `k * m + r` by `m` is `r` when `0 <= r < m`. */
  lemma ModUnique(x: int, k: int, r: int, m: int)
    requires m > 0 && 0 <= r < m && x == k * m + r
    ensures x % m == r
  {
    var k', r' := x / m, x % m;
    assert x == k' * m + r';
    assert (k - k') * m == r' - r by {
      assert (k - k') * m == k * m - k' * m;
    }
    if k > k' {
      MulAtLeast(k - k', m);
    } else if k < k' {
      MulAtLeast(k' - k, m);
    }
  }

  lemma MulAtLeast(j: int, m: int)
    requires j >= 1 && m > 0
    ensures j * m >= m
  {
    assert j * m == (j - 1) * m + m;
    assert (j - 1) * m >= 0;
  }

  /** `Uniform`: the struct written to the uniform buffer, updated in place
      by the animation loop. */
  class Uniform {
    var resolution: (nat, nat)
    var timeMs: int
    var frame: int
    var mouse: (int, int)
    var padding: (int, int)

    function Value(): UniformValue
      reads this
    {
      UniformValue(resolution, timeMs, frame, mouse, padding)
    }

    /** `Uniform::new`: every field zero. */
    constructor ()
      ensures Value() == UniformValue((0, 0), 0, 0, (0, 0), (0, 0))
    {
      resolution, timeMs, frame, mouse, padding := (0, 0), 0, 0, (0, 0), (0, 0);
    }

    /** `Uniform::update`: the surface size in physical pixels, the elapsed
        time added to the running time, the frame counter advanced, and the
        pointer position. */
    method Update(ctx: GpuContext, deltaMs: int, shared: FrameState.SharedFrameState)
      requires IsI32(frame)
      modifies this
      ensures Value() == Updated(old(Value()), (ctx.config.width, ctx.config.height), deltaMs, shared.pointerPosition)
    {
      resolution := (ctx.config.width, ctx.config.height);
      timeMs := timeMs + deltaMs;
      frame := if frame == I32_MAX then I32_MIN else frame + 1;
      mouse := shared.pointerPosition;
    }
  }

  // ------ Setup and frames ------

  function SetupEvents(format: TextureFormat): (e: seq<GpuEvent>)
    ensures |e| > 0
    ensures e[|e| - 1].CreateRenderPipeline? && e[|e| - 1].targetFormat == format
    ensures forall i :: 0 <= i < |e| - 1 ==> !e[i].CreateRenderPipeline?
    ensures forall i :: 0 <= i < |e| ==> !e[i].Configure?
  {
    [CreateShaderModule(ShaderSource),
     CreateBuffer({VertexData}, |Vertices| * VertexSize),
     CreateBuffer({IndexData}, |Indices| * 2),
     CreateBuffer({UniformData, CopyDestination}, StructSize(UniformFieldSizes)),
     CreateBindGroupLayout,
     CreateBindGroup,
     CreatePipelineLayout(1),
     CreateRenderPipeline([Desc()], format)]
  }

  /** Bind the pipeline, the uniform bind group at 0, the vertex buffer at
      slot 0 and the `Uint16` index buffer, then draw every index once. */
  const PassCommands: seq<GpuEvent> := [
    SetPipeline, SetBindGroup(0), SetVertexBuffer(0), SetIndexBuffer(Uint16),
    DrawIndexed(Range(0, |Indices|), 0, Range(0, 1))]

  /** The pass is well formed: after the pipeline it binds the uniform bind
      group at index 0, the vertex buffer at slot 0 and the `Uint16` index
      buffer, each once, and then draws the two triangles of the quad. */
  lemma PassCommandsWellFormed()
    ensures WellFormedPass(PassCommands)
    ensures PassCommands[1..|PassCommands| - 1] == [SetBindGroup(0), SetVertexBuffer(0), SetIndexBuffer(Uint16)]
    ensures forall b :: b in [SetBindGroup(0), SetVertexBuffer(0), SetIndexBuffer(Uint16)] ==>
      b in PassCommands[1..|PassCommands| - 1]
    ensures PassCommands[|PassCommands| - 1] == DrawIndexed(Range(0, 2 * 3), 0, Range(0, 1))
  {
    assert PassCommands[1..|PassCommands| - 1] == [SetBindGroup(0), SetVertexBuffer(0), SetIndexBuffer(Uint16)];
  }

  /** The vertex, index and uniform buffers are created with exactly the
      size of their contents. */
  lemma BuffersSized(format: TextureFormat)
    ensures SetupEvents(format)[1].byteLength == |Vertices| * Desc().arrayStride
    ensures SetupEvents(format)[2].byteLength == |Indices| * 2
    ensures SetupEvents(format)[3].byteLength == 4 * |UniformWords(UniformValue((0, 0), 0, 0, (0, 0), (0, 0)))|
  {
    UniformSizeAligned();
  }

  /** The calls of one frame after the resize, `words` being the updated
      uniform and `view` the format of the texture view: the uniform upload,
      then the frame proper: the uniform is written before the surface
      texture is requested, whatever the outcome of that request. */
  function FrameCalls(words: seq<int>, view: TextureFormat, acquired: bool): (e: seq<GpuEvent>)
    ensures |e| > 1 && e[0] == WriteBuffer(0, words) && e[1] == AcquireTexture(acquired)
  {
    [WriteBuffer(0, words)] + FrameEvents(acquired, Some(view), PassCommands)
  }

  /** The uniform is written first, even when no texture is then
      available, and a failed acquisition ends the frame there. */
  lemma FailedFrameOutcome(words: seq<int>, view: TextureFormat)
    ensures FrameCalls(words, view, false) == [WriteBuffer(0, words), AcquireTexture(false)]
  {
  }

  /** A frame whose texture was acquired writes the uniform first, draws the
      six indices once, then submits once before presenting once. */
  lemma SuccessfulFrameOutcome(words: seq<int>, view: TextureFormat)
    ensures FrameCalls(words, view, true)[0] == WriteBuffer(0, words)
    ensures DrawCount(FrameCalls(words, view, true)) == 1
    ensures var e := FrameCalls(words, view, true);
      && e[|e| - 4] == DrawIndexed(Range(0, 6), 0, Range(0, 1))
      && e[|e| - 2] == Submit && e[|e| - 1] == Present
  {
    PassCommandsWellFormed();
    var f := FrameEvents(true, Some(view), PassCommands);
    FrameEnds(Some(view), PassCommands);
    PrefixKeepsEnds(WriteBuffer(0, words), f);
  }

  class FrameLoop {
    const ctx: GpuContext
    const shared: FrameState.SharedFrameState
    const uniform: Uniform

    constructor (ctx: GpuContext, shared: FrameState.SharedFrameState, uniform: Uniform)
      ensures this.ctx == ctx && this.shared == shared && this.uniform == uniform
    {
      this.ctx := ctx;
      this.shared := shared;
      this.uniform := uniform;
    }

    /** One call of the closure, `deltaMs` being the time since the previous
        frame: reconcile the surface size, update the uniform and write it to
        the uniform buffer (whether or not a texture is then available), then
        render into a view in the sRGB variant of the surface format. */
    method Frame(deltaMs: int, textureAvailable: bool)
      requires ctx.Valid(shared.pixelRatio)
      requires shared.Valid() && shared.ScaledFits()
      requires shared.animationLoop == Some(this)
      requires IsI32(uniform.frame)
      modifies ctx, uniform
      ensures ctx.Valid(shared.pixelRatio)
      ensures ctx.State() == Reconcile(old(ctx.State()), shared.CanvasSize(), shared.pixelRatio)
      ensures uniform.Value() == Updated(old(uniform.Value()), (ctx.config.width, ctx.config.height), deltaMs, shared.pointerPosition)
      ensures ctx.trace == old(ctx.trace)
        + ReconcileEvents(old(ctx.State()), shared.CanvasSize(), shared.pixelRatio)
        + FrameCalls(UniformWords(uniform.Value()), AddSrgbSuffix(ctx.config.format), textureAvailable)
    {
      ctx.Resize(shared);
      uniform.Update(ctx, deltaMs, shared);
      var view := AddSrgbSuffix(ctx.config.format);
      FrameEventsNoConfigure(textureAvailable, Some(view), PassCommands);
      var events := FrameCalls(UniformWords(uniform.Value()), view, textureAvailable);
      assert forall i :: 1 <= i < |events| ==> events[i] == FrameEvents(textureAvailable, Some(view), PassCommands)[i - 1];
      ctx.Record(events, shared.pixelRatio);
    }
  }

  /** `ShaderWork::run`. */
  method Run(caps: SurfaceCapabilities, shared: FrameState.SharedFrameState) returns (l: FrameLoop)
    requires Advertised(caps)
    requires shared.Valid() && shared.ScaledFits()
    modifies shared
    ensures fresh(l) && fresh(l.ctx) && fresh(l.uniform) && l.shared == shared
    ensures l.ctx.size == shared.CanvasSize()
    ensures l.ctx.config == InitialConfig(caps, shared.CanvasSize(), shared.pixelRatio)
    ensures l.ctx.trace == [Configure(l.ctx.config)] + SetupEvents(l.ctx.config.format)
    ensures l.ctx.Valid(shared.pixelRatio)
    ensures l.uniform.Value() == UniformValue((0, 0), 0, 0, (0, 0), (0, 0))
    ensures shared.animationLoop == Some(l)
    ensures shared.CanvasSize() == old(shared.CanvasSize())
    ensures shared.pointerPosition == old(shared.pointerPosition)
  {
    var ctx := new GpuContext(caps, shared);
    var uniform := new Uniform();
    ctx.Record(SetupEvents(ctx.config.format), shared.pixelRatio);
    l := new FrameLoop(ctx, shared, uniform);
    shared.InstallLoop(l);
  }
}
