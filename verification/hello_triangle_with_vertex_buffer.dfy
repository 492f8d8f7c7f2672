/// `hello_triangle_with_vertex_buffer::ShaderWork`
/// (frontend/src/shaders/hello_triangle_with_vertex_buffer.rs): the same
/// triangle, its corners and colours now read from a vertex buffer.
module VertexBufferShader {

  import opened Options
  import opened Wgpu
  import opened GpuContexts
  import FrameState

  const ShaderSource := "hello_triangle_with_vertex_buffer.wgsl"

  /** A `Vertex`: a position and an RGB colour. Coordinates are in halves
      (`0.5` is `1`), colour channels in whole units; both are exact. */
  datatype Vertex = Vertex(position: (int, int, int), color: (int, int, int))

  /** `size_of::<Vertex>()`: two `[f32; 3]` fields. */
  const VertexSize: nat := StructSize([F32ArraySize(3), F32ArraySize(3)])

  /** `Vertex::desc`: per-vertex stepping, the position at offset 0 feeding
      location 0, the colour right after it feeding location 1. */
  function Desc(): (l: VertexBufferLayout)
    ensures WellFormedLayout(l)
    ensures l.arrayStride == 24
    ensures l.stepMode == PerVertex
    ensures |l.attributes| == 2
    ensures l.attributes[0].offset + FormatSize(l.attributes[0].format) == l.attributes[1].offset
    ensures l.attributes[1].offset + FormatSize(l.attributes[1].format) == l.arrayStride
    ensures l.attributes[0].offset == 0 && l.attributes[0].shaderLocation == 0
    ensures l.attributes[1].offset == 12 && l.attributes[1].shaderLocation == 1
  {
    VertexBufferLayout(VertexSize, PerVertex, [
      VertexAttribute(Float32x3, 0, 0),
      VertexAttribute(Float32x3, F32ArraySize(3), 1)])
  }

  /** `VERTICES`: top (red), bottom left (green), bottom right (blue). */
  const Vertices: seq<Vertex> := [
    Vertex((0, 1, 0), (1, 0, 0)),
    Vertex((-1, -1, 0), (0, 1, 0)),
    Vertex((1, -1, 0), (0, 0, 1))]

  /** The clip-space (x, y) of a position. */
  function XY(p: (int, int, int)): (int, int)
  {
    (p.0, p.1)
  }

  /** The three vertices form one non-degenerate triangle facing the viewer
      under the default counter-clockwise front face, with one primary
      colour per corner. */
  lemma VerticesFormFrontFacingTriangle()
    ensures |Vertices| == 3
    ensures Orientation(XY(Vertices[0].position), XY(Vertices[1].position), XY(Vertices[2].position)) > 0
    ensures forall i :: 0 <= i < 3 ==> Vertices[i].position.2 == 0
    ensures forall i, j :: 0 <= i < j < 3 ==> Vertices[i].color != Vertices[j].color
  {
  }

  /** The vertex buffer holds `VERTICES` cast to bytes, one stride per vertex. */
  function SetupEvents(format: TextureFormat): (e: seq<GpuEvent>)
    ensures |e| > 0
    ensures e[|e| - 1].CreateRenderPipeline? && e[|e| - 1].targetFormat == format
    ensures forall i :: 0 <= i < |e| - 1 ==> !e[i].CreateRenderPipeline?
    ensures forall i :: 0 <= i < |e| ==> !e[i].Configure?
  {
    [CreateShaderModule(ShaderSource),
     CreateBuffer({VertexData}, |Vertices| * VertexSize),
     CreatePipelineLayout(0),
     CreateRenderPipeline([Desc()], format)]
  }

  /** Bind the pipeline and the vertex buffer at slot 0, then draw every
      vertex of the buffer once. */
  const PassCommands: seq<GpuEvent> := [SetPipeline, SetVertexBuffer(0), Draw(Range(0, |Vertices|), Range(0, 1))]

  /** The pass is well formed, binds no bind group, and draws exactly the
      vertices the buffer holds. */
  lemma PassCommandsWellFormed()
    ensures WellFormedPass(PassCommands)
    ensures forall i :: 0 <= i < |PassCommands| ==> !PassCommands[i].SetBindGroup?
    ensures PassCommands[|PassCommands| - 1] == Draw(Range(0, |Vertices|), Range(0, 1))
  {
  }

  /** The vertex buffer is created with exactly the size of the vertices,
      the pipeline reads exactly one vertex buffer laid out by `Desc`, and
      that buffer is bound at slot 0, the pipeline's only slot. */
  lemma VertexBufferBound(format: TextureFormat)
    ensures SetupEvents(format)[1] == CreateBuffer({VertexData}, |Vertices| * Desc().arrayStride)
    ensures SetupEvents(format)[|SetupEvents(format)| - 1].vertexBuffers == [Desc()]
    ensures SetVertexBuffer(0) in PassCommands
    ensures forall i :: 0 <= i < |PassCommands| && PassCommands[i].SetVertexBuffer? ==>
      PassCommands[i].slot < |SetupEvents(format)[|SetupEvents(format)| - 1].vertexBuffers|
  {
  }

  /** After the resize, a frame either stops at a failed acquisition with
      nothing drawn, submitted or presented, or draws the buffer's vertices
      once after binding it, then submits once before presenting once. */
  lemma FrameOutcome(acquired: bool)
    ensures !acquired ==> FrameEvents(acquired, None, PassCommands) == [AcquireTexture(false)]
    ensures acquired ==> SuccessfulFrame(FrameEvents(acquired, None, PassCommands), PassCommands)
    ensures acquired ==> var e := FrameEvents(acquired, None, PassCommands);
      e[|e| - 5] == SetVertexBuffer(0) && e[|e| - 4] == Draw(Range(0, |Vertices|), Range(0, 1))
  {
    PassCommandsWellFormed();
    FrameEventsShape(acquired, None, PassCommands);
    if acquired {
      FramePassAt(None, PassCommands, 1);
      FramePassAt(None, PassCommands, 2);
    }
  }

  class FrameLoop {
    const ctx: GpuContext
    const shared: FrameState.SharedFrameState

    constructor (ctx: GpuContext, shared: FrameState.SharedFrameState)
      ensures this.ctx == ctx && this.shared == shared
    {
      this.ctx := ctx;
      this.shared := shared;
    }

    /** One call of the closure; the elapsed time it is given is ignored. */
    method Frame(textureAvailable: bool)
      requires ctx.Valid(shared.pixelRatio)
      requires shared.Valid() && shared.ScaledFits()
      requires shared.animationLoop == Some(this)
      modifies ctx
      ensures ctx.Valid(shared.pixelRatio)
      ensures ctx.State() == Reconcile(old(ctx.State()), shared.CanvasSize(), shared.pixelRatio)
      ensures ctx.trace == old(ctx.trace)
        + ReconcileEvents(old(ctx.State()), shared.CanvasSize(), shared.pixelRatio)
        + FrameEvents(textureAvailable, None, PassCommands)
    {
      ctx.Resize(shared);
      FrameEventsNoConfigure(textureAvailable, None, PassCommands);
      ctx.Record(FrameEvents(textureAvailable, None, PassCommands), shared.pixelRatio);
    }
  }

  /** `ShaderWork::run`. */
  method Run(caps: SurfaceCapabilities, shared: FrameState.SharedFrameState) returns (l: FrameLoop)
    requires Advertised(caps)
    requires shared.Valid() && shared.ScaledFits()
    modifies shared
    ensures fresh(l) && fresh(l.ctx) && l.shared == shared
    ensures l.ctx.size == shared.CanvasSize()
    ensures l.ctx.config == InitialConfig(caps, shared.CanvasSize(), shared.pixelRatio)
    ensures l.ctx.trace == [Configure(l.ctx.config)] + SetupEvents(l.ctx.config.format)
    ensures l.ctx.Valid(shared.pixelRatio)
    ensures shared.animationLoop == Some(l)
    ensures shared.CanvasSize() == old(shared.CanvasSize())
    ensures shared.pointerPosition == old(shared.pointerPosition)
  {
    var ctx := new GpuContext(caps, shared);
    ctx.Record(SetupEvents(ctx.config.format), shared.pixelRatio);
    l := new FrameLoop(ctx, shared);
    shared.InstallLoop(l);
  }
}
