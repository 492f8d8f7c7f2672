/// `hello_triangle::ShaderWork` (frontend/src/shaders/hello_triangle.rs):
/// a render pipeline without vertex buffers whose vertex shader produces
/// the three corners of a triangle itself, drawn once per animation frame.
module HelloTriangleShader {

  import opened Options
  import opened Wgpu
  import opened GpuContexts
  import FrameState

  const ShaderSource := "hello_triangle.wgsl"

  /** The resources `run` creates before the animation loop starts, for a
      surface configured with `format`: the shader module, a pipeline layout
      with no bind group layouts and a pipeline with no vertex buffers
      rendering into the surface format. */
  function SetupEvents(format: TextureFormat): (e: seq<GpuEvent>)
    ensures |e| > 0
    ensures e[|e| - 1].CreateRenderPipeline? && e[|e| - 1].targetFormat == format
    ensures forall i :: 0 <= i < |e| - 1 ==> !e[i].CreateRenderPipeline?
    ensures forall i :: 0 <= i < |e| ==> !e[i].Configure?
  {
    [CreateShaderModule(ShaderSource), CreatePipelineLayout(0), CreateRenderPipeline([], format)]
  }

  /** The setup creates no buffer and no bind group, and its one pipeline
      reads no vertex buffer and uses a layout without bind groups. */
  lemma SetupHasNoInputs(format: TextureFormat)
    ensures forall i :: 0 <= i < |SetupEvents(format)| ==>
      !SetupEvents(format)[i].CreateBuffer? && !SetupEvents(format)[i].CreateBindGroup?
    ensures forall i :: 0 <= i < |SetupEvents(format)| && SetupEvents(format)[i].CreateRenderPipeline? ==>
      SetupEvents(format)[i].vertexBuffers == []
    ensures forall i :: 0 <= i < |SetupEvents(format)| && SetupEvents(format)[i].CreatePipelineLayout? ==>
      SetupEvents(format)[i].bindGroupLayouts == 0
  {
  }

  /** The render pass body of each frame: bind the pipeline and draw three
      vertices of one instance. */
  const PassCommands: seq<GpuEvent> := [SetPipeline, Draw(Range(0, 3), Range(0, 1))]

  /** The pass binds the pipeline first, binds no bind group and no vertex
      buffer, ends with its only draw, and draws exactly one triangle: three
      vertices, one instance. */
  lemma PassCommandsWellFormed()
    ensures WellFormedPass(PassCommands)
    ensures forall i :: 0 <= i < |PassCommands| ==> !PassCommands[i].SetBindGroup? && !PassCommands[i].SetVertexBuffer?
    ensures var d := PassCommands[|PassCommands| - 1];
      d.Draw? && d.vertices.end - d.vertices.start == 3 && d.instances.end - d.instances.start == 1
  {
  }

  /** After the resize, a frame either stops at a failed acquisition with
      nothing drawn, submitted or presented, or clears to the background,
      draws the three vertices once, and submits once before presenting once. */
  lemma FrameOutcome(acquired: bool)
    ensures !acquired ==> FrameEvents(acquired, None, PassCommands) == [AcquireTexture(false)]
    ensures acquired ==> SuccessfulFrame(FrameEvents(acquired, None, PassCommands), PassCommands)
    ensures acquired ==> var e := FrameEvents(acquired, None, PassCommands);
      e[|e| - 4] == Draw(Range(0, 3), Range(0, 1))
  {
    PassCommandsWellFormed();
    FrameEventsShape(acquired, None, PassCommands);
  }

  /** The animation loop's closure together with what it owns: the context
      and the shared cells it reads. */
  class FrameLoop {
    const ctx: GpuContext
    const shared: FrameState.SharedFrameState

    constructor (ctx: GpuContext, shared: FrameState.SharedFrameState)
      ensures this.ctx == ctx && this.shared == shared
    {
      this.ctx := ctx;
      this.shared := shared;
    }

    /** One call of the closure: reconcile the surface size, then acquire a
        texture (`textureAvailable` is whether `get_current_texture`
        succeeds) and, if there is one, record, submit and present the
        frame; the view uses the default descriptor. */
    method Frame(textureAvailable: bool)
      requires ctx.Valid(shared.pixelRatio)
      requires shared.Valid() && shared.ScaledFits()
      requires shared.animationLoop == Some(this)
      modifies ctx
      ensures ctx.Valid(shared.pixelRatio)
      ensures ctx.State() == Reconcile(old(ctx.State()), shared.CanvasSize(), shared.pixelRatio)
      ensures ctx.trace == old(ctx.trace)
        + ReconcileEvents(old(ctx.State()), shared.CanvasSize(), shared.pixelRatio)
        + FrameEvents(textureAvailable, None, PassCommands)
    {
      ctx.Resize(shared);
      PassCommandsWellFormed();
      FrameEventsNoConfigure(textureAvailable, None, PassCommands);
      ctx.Record(FrameEvents(textureAvailable, None, PassCommands), shared.pixelRatio);
    }
  }

  /** `ShaderWork::run`: creates the context, the shader module and the
      pipeline, then installs the animation loop in `ANIMATION_LOOP`. */
  method Run(caps: SurfaceCapabilities, shared: FrameState.SharedFrameState) returns (l: FrameLoop)
    requires Advertised(caps)
    requires shared.Valid() && shared.ScaledFits()
    modifies shared
    ensures fresh(l) && fresh(l.ctx) && l.shared == shared
    ensures l.ctx.size == shared.CanvasSize()
    ensures l.ctx.config == InitialConfig(caps, shared.CanvasSize(), shared.pixelRatio)
    ensures l.ctx.trace == [Configure(l.ctx.config)] + SetupEvents(l.ctx.config.format)
    ensures l.ctx.Valid(shared.pixelRatio)
    ensures shared.animationLoop == Some(l)
    ensures shared.CanvasSize() == old(shared.CanvasSize())
    ensures shared.pointerPosition == old(shared.pointerPosition)
  {
    var ctx := new GpuContext(caps, shared);
    ctx.Record(SetupEvents(ctx.config.format), shared.pixelRatio);
    l := new FrameLoop(ctx, shared);
    shared.InstallLoop(l);
  }
}
