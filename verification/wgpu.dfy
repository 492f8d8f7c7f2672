/// The values that cross the boundary between the rendering core and the
/// graphics API (wgpu): surface formats, capabilities and configuration,
/// vertex buffer layouts, and the calls a shader work makes on the device,
/// queue and surface, recorded as trace events in the order they are made.
module Wgpu {

  import opened Options

  const U32_MAX: nat := 0xFFFF_FFFF

  // ------ Surface formats and configuration ------

  /** The colour formats a canvas surface can advertise. */
  datatype TextureFormat =
    | Rgba8Unorm | Rgba8UnormSrgb
    | Bgra8Unorm | Bgra8UnormSrgb
    | Rgba16Float | Rgb10a2Unorm

  /** `TextureFormat::is_srgb`: the format is gamma-corrected. */
  predicate IsSrgb(f: TextureFormat)
  {
    f == Rgba8UnormSrgb || f == Bgra8UnormSrgb
  }

  /** `TextureFormat::add_srgb_suffix`: the sRGB twin of a format that has one,
      otherwise the format itself. */
  function AddSrgbSuffix(f: TextureFormat): (r: TextureFormat)
    ensures IsSrgb(f) ==> r == f
    ensures r == f || IsSrgb(r)
    ensures f == Rgba8Unorm ==> r == Rgba8UnormSrgb
    ensures f == Bgra8Unorm ==> r == Bgra8UnormSrgb
    ensures f == Rgba16Float || f == Rgb10a2Unorm ==> r == f
  {
    match f
    case Rgba8Unorm => Rgba8UnormSrgb
    case Bgra8Unorm => Bgra8UnormSrgb
    case _ => f
  }

  datatype PresentMode = AutoVsync | AutoNoVsync | Fifo | FifoRelaxed | Immediate | Mailbox

  datatype CompositeAlphaMode = Auto | Opaque | PreMultiplied | PostMultiplied | Inherit

  datatype TextureUsage = CopySrc | CopyDst | TextureBinding | StorageBinding | RenderAttachment

  datatype SurfaceConfiguration = SurfaceConfiguration(
    usage: set<TextureUsage>,
    format: TextureFormat,
    width: nat,
    height: nat,
    presentMode: PresentMode,
    alphaMode: CompositeAlphaMode,
    viewFormats: seq<TextureFormat>,
    desiredMaximumFrameLatency: nat)

  /** What `surface.get_capabilities(&adapter)` reports, most preferred first. */
  datatype SurfaceCapabilities = SurfaceCapabilities(
    formats: seq<TextureFormat>,
    presentModes: seq<PresentMode>,
    alphaModes: seq<CompositeAlphaMode>)

  /** A surface compatible with the negotiated adapter advertises at least one
      format, present mode and alpha mode; context creation indexes `[0]` of each. */
  predicate Advertised(caps: SurfaceCapabilities)
  {
    |caps.formats| > 0 && |caps.presentModes| > 0 && |caps.alphaModes| > 0
  }

  /** Position of the first sRGB format, as `formats.iter().find(|f| f.is_srgb())` finds it. */
  function FirstSrgb(formats: seq<TextureFormat>): (r: Option<nat>)
    ensures r.Some? ==> r.value < |formats| && IsSrgb(formats[r.value])
    ensures r.Some? ==> forall j :: 0 <= j < r.value ==> !IsSrgb(formats[j])
    ensures r.None? ==> forall j :: 0 <= j < |formats| ==> !IsSrgb(formats[j])
  {
    if formats == [] then None
    else if IsSrgb(formats[0]) then Some(0)
    else match FirstSrgb(formats[1..])
      case None => None
      case Some(i) => Some(i + 1)
  }

  /** The surface format `GpuContext::new` picks: the first advertised sRGB
      format when there is one, otherwise the first advertised format. */
  function ChooseFormat(formats: seq<TextureFormat>): (f: TextureFormat)
    requires |formats| > 0
    ensures f in formats
    ensures IsSrgb(f) <==> exists i :: 0 <= i < |formats| && IsSrgb(formats[i])
    ensures IsSrgb(f) ==> exists i :: 0 <= i < |formats| && formats[i] == f && forall j :: 0 <= j < i ==> !IsSrgb(formats[j])
    ensures !IsSrgb(f) ==> f == formats[0]
  {
    match FirstSrgb(formats)
    case Some(i) => formats[i]
    case None => formats[0]
  }

  /** The extra formats views of the surface texture may use: the sRGB twin
      when the surface format itself is not sRGB, none otherwise. */
  function ViewFormats(format: TextureFormat): (v: seq<TextureFormat>)
    ensures v == [] <==> IsSrgb(format)
    ensures forall g :: g in v ==> g == AddSrgbSuffix(format)
  {
    if !IsSrgb(format) then [AddSrgbSuffix(format)] else []
  }

  /** A view of the surface texture in the gamma-corrected variant of the
      surface format is allowed by the configuration: the variant is the
      surface format itself or one of the declared view formats. */
  predicate SrgbViewAllowed(config: SurfaceConfiguration)
  {
    AddSrgbSuffix(config.format) == config.format || AddSrgbSuffix(config.format) in config.viewFormats
  }

  /** The configuration `GpuContext::new` applies to a fresh surface, for a
      canvas of `size` logical pixels and a pixel ratio already truncated to
      an integer. */
  function InitialConfig(caps: SurfaceCapabilities, size: (nat, nat), dpr: nat): (c: SurfaceConfiguration)
    requires Advertised(caps)
    ensures c.usage == {RenderAttachment}
    ensures c.format == ChooseFormat(caps.formats)
    ensures c.width == size.0 * dpr && c.height == size.1 * dpr
    ensures c.presentMode == caps.presentModes[0] && c.alphaMode == caps.alphaModes[0]
    ensures c.desiredMaximumFrameLatency == 2
    ensures SrgbViewAllowed(c)
  {
    var format := ChooseFormat(caps.formats);
    SurfaceConfiguration(
      {RenderAttachment}, format, size.0 * dpr, size.1 * dpr,
      caps.presentModes[0], caps.alphaModes[0], ViewFormats(format), 2)
  }

  /** Choosing the format and its view formats: an sRGB format is used
      whenever one is advertised, and view formats are declared exactly when
      it is not, so an sRGB view is always possible. */
  lemma InitialConfigPrefersSrgb(caps: SurfaceCapabilities, size: (nat, nat), dpr: nat)
    requires Advertised(caps)
    ensures var c := InitialConfig(caps, size, dpr);
      && ((exists i :: 0 <= i < |caps.formats| && IsSrgb(caps.formats[i])) <==> IsSrgb(c.format))
      && (c.viewFormats == [] <==> IsSrgb(c.format))
      && (!IsSrgb(c.format) ==> c.format == caps.formats[0] && c.viewFormats == [AddSrgbSuffix(c.format)])
  {
  }

  // ------ Vertex buffer layouts ------

  datatype VertexFormat = Float32x2 | Float32x3

  /** `VertexFormat::size` in bytes. */
  function FormatSize(f: VertexFormat): nat
  {
    match f
    case Float32x2 => 8
    case Float32x3 => 12
  }

  datatype VertexStepMode = PerVertex | PerInstance

  datatype VertexAttribute = VertexAttribute(format: VertexFormat, offset: nat, shaderLocation: nat)

  datatype VertexBufferLayout = VertexBufferLayout(
    arrayStride: nat, stepMode: VertexStepMode, attributes: seq<VertexAttribute>)

  /** Every attribute lies inside one vertex, no two attributes share a byte,
      and no two attributes feed the same shader location. */
  predicate WellFormedLayout(l: VertexBufferLayout)
  {
    && (forall i :: 0 <= i < |l.attributes| ==>
          l.attributes[i].offset + FormatSize(l.attributes[i].format) <= l.arrayStride)
    && (forall i, j :: 0 <= i < j < |l.attributes| ==>
          (l.attributes[i].offset + FormatSize(l.attributes[i].format) <= l.attributes[j].offset
           || l.attributes[j].offset + FormatSize(l.attributes[j].format) <= l.attributes[i].offset))
    && (forall i, j :: 0 <= i < j < |l.attributes| ==>
          l.attributes[i].shaderLocation != l.attributes[j].shaderLocation)
  }

  /** `std::mem::size_of` of a `#[repr(C)]` struct whose fields are all
      4-byte aligned: the sum of the field sizes, with no padding. */
  function StructSize(fieldSizes: seq<nat>): nat
  {
    if fieldSizes == [] then 0 else fieldSizes[0] + StructSize(fieldSizes[1..])
  }

  /** `size_of::<[f32; n]>()`. */
  function F32ArraySize(n: nat): nat
  {
    4 * n
  }

  /** Twice the signed area of the triangle `a b` `c` of clip-space points
      (x, y): positive when the corners run counter-clockwise, the front
      face of the default `PrimitiveState`. */
  function Orientation(a: (int, int), b: (int, int), c: (int, int)): int
  {
    (b.0 - a.0) * (c.1 - a.1) - (b.1 - a.1) * (c.0 - a.0)
  }

  // ------ Calls made on the device, queue and surface ------

  /** A colour in tenths: `Color { r: 0.1, .. }` is `Color(1, ..)`. */
  datatype Color = Color(r: int, g: int, b: int, a: int)

  /** The colour every render pass clears to: (0.1, 0.2, 0.3, 1.0). */
  const Background: Color := Color(1, 2, 3, 10)

  datatype IndexFormat = Uint16 | Uint32

  datatype BufferUsage = VertexData | IndexData | UniformData | CopyDestination

  /** A half-open range `start..end`. */
  datatype Range = Range(start: nat, end: nat)

  datatype GpuEvent =
    | Configure(config: SurfaceConfiguration)
    | CreateShaderModule(source: string)
    | CreateBuffer(usage: set<BufferUsage>, byteLength: nat)
    | CreateBindGroupLayout
    | CreateBindGroup
    | CreatePipelineLayout(bindGroupLayouts: nat)
    | CreateRenderPipeline(vertexBuffers: seq<VertexBufferLayout>, targetFormat: TextureFormat)
    | WriteBuffer(offset: nat, words: seq<int>)
    | AcquireTexture(ok: bool)
    | CreateView(format: Option<TextureFormat>)
    | CreateCommandEncoder
    | BeginRenderPass(clear: Color)
    | SetPipeline
    | SetBindGroup(index: nat)
    | SetVertexBuffer(slot: nat)
    | SetIndexBuffer(indexFormat: IndexFormat)
    | Draw(vertices: Range, instances: Range)
    | DrawIndexed(indices: Range, baseVertex: int, instances: Range)
    | EndRenderPass
    | Submit
    | Present

  predicate IsDraw(e: GpuEvent)
  {
    e.Draw? || e.DrawIndexed?
  }

  /** Commands recorded inside a render pass. */
  predicate IsPassCommand(e: GpuEvent)
  {
    e.SetPipeline? || e.SetBindGroup? || e.SetVertexBuffer? || e.SetIndexBuffer? || IsDraw(e)
  }

  /** A render pass body: binds the pipeline first, then resources, and ends
      with its single draw call. */
  predicate WellFormedPass(pass: seq<GpuEvent>)
  {
    && |pass| >= 2
    && pass[0] == SetPipeline
    && IsDraw(pass[|pass| - 1])
    && (forall i :: 0 <= i < |pass| ==> IsPassCommand(pass[i]))
    && (forall i :: 0 <= i < |pass| - 1 ==> !IsDraw(pass[i]))
  }

  function DrawCount(events: seq<GpuEvent>): nat
  {
    if events == [] then 0 else (if IsDraw(events[0]) then 1 else 0) + DrawCount(events[1..])
  }

  lemma {:induction false} DrawCountAppend(a: seq<GpuEvent>, b: seq<GpuEvent>)
    ensures DrawCount(a + b) == DrawCount(a) + DrawCount(b)
  {
    if a == [] {
      assert a + b == b;
    } else {
      DrawCountAppend(a[1..], b);
      assert (a + b)[1..] == a[1..] + b;
    }
  }

  lemma {:induction false} DrawCountPass(pass: seq<GpuEvent>)
    requires WellFormedPass(pass)
    ensures DrawCount(pass) == 1
  {
    var body := pass[..|pass| - 1];
    assert pass == body + [pass[|pass| - 1]];
    DrawCountAppend(body, [pass[|pass| - 1]]);
    NoDrawNoCount(body);
  }

  lemma {:induction false} NoDrawNoCount(events: seq<GpuEvent>)
    requires forall i :: 0 <= i < |events| ==> !IsDraw(events[i])
    ensures DrawCount(events) == 0
  {
    if events != [] {
      NoDrawNoCount(events[1..]);
    }
  }

  /** The part of a frame callback from texture acquisition on: when the
      surface yields no texture the frame stops there; otherwise a view, one
      command encoder and one render pass clearing to `Background` are
      created, the pass body is recorded, and the commands are submitted and
      the texture presented. */
  function FrameEvents(acquired: bool, view: Option<TextureFormat>, pass: seq<GpuEvent>): (e: seq<GpuEvent>)
    ensures |e| == if acquired then |pass| + 7 else 1
    ensures e[0] == AcquireTexture(acquired)
    ensures acquired ==> e[|e| - 2] == Submit && e[|e| - 1] == Present
  {
    [AcquireTexture(acquired)]
    + if acquired then
        [CreateView(view), CreateCommandEncoder, BeginRenderPass(Background)]
        + pass
        + [EndRenderPass, Submit, Present]
      else []
  }

  /** Every frame starts by acquiring a texture. A failed acquisition draws,
      submits and presents nothing. A successful one draws exactly once,
      submits exactly once and presents exactly once, in that order, as the
      last two calls of the frame. */
  lemma FrameEventsShape(acquired: bool, view: Option<TextureFormat>, pass: seq<GpuEvent>)
    requires WellFormedPass(pass)
    ensures FrameEvents(acquired, view, pass)[0] == AcquireTexture(acquired)
    ensures !acquired ==> FrameEvents(acquired, view, pass) == [AcquireTexture(false)]
    ensures !acquired ==> DrawCount(FrameEvents(acquired, view, pass)) == 0
    ensures acquired ==> SuccessfulFrame(FrameEvents(acquired, view, pass), pass)
  {
    if acquired {
      SuccessfulFrameShape(view, pass);
    }
  }

  /** The shape of a frame whose texture was acquired. */
  predicate SuccessfulFrame(e: seq<GpuEvent>, pass: seq<GpuEvent>)
    requires |pass| > 0
  {
    && |e| == |pass| + 7
    && e[3] == BeginRenderPass(Background)
    && e[4..|e| - 3] == pass
    && e[|e| - 4] == pass[|pass| - 1]
    && e[|e| - 3] == EndRenderPass
    && e[|e| - 2] == Submit && e[|e| - 1] == Present
    && DrawCount(e) == 1
    && multiset(e)[Submit] == 1
    && multiset(e)[Present] == 1
  }

  lemma SuccessfulFrameShape(view: Option<TextureFormat>, pass: seq<GpuEvent>)
    requires WellFormedPass(pass)
    ensures SuccessfulFrame(FrameEvents(true, view, pass), pass)
  {
    FrameEnds(view, pass);
    FrameBody(view, pass);
    FrameSubmitsOnce(view, pass);
  }

  /** A frame whose texture was acquired records its pass body right after
      starting the render pass that clears to `Background`. */
  lemma FrameBody(view: Option<TextureFormat>, pass: seq<GpuEvent>)
    ensures var e := FrameEvents(true, view, pass);
      |e| == |pass| + 7 && e[3] == BeginRenderPass(Background) && e[4..|e| - 3] == pass
  {
    var head := [AcquireTexture(true), CreateView(view), CreateCommandEncoder, BeginRenderPass(Background)];
    assert FrameEvents(true, view, pass) == head + pass + [EndRenderPass, Submit, Present];
  }

  /** A frame whose texture was acquired submits once and presents once. */
  lemma FrameSubmitsOnce(view: Option<TextureFormat>, pass: seq<GpuEvent>)
    requires WellFormedPass(pass)
    ensures multiset(FrameEvents(true, view, pass))[Submit] == 1
    ensures multiset(FrameEvents(true, view, pass))[Present] == 1
  {
    var head := [AcquireTexture(true), CreateView(view), CreateCommandEncoder, BeginRenderPass(Background)];
    var tail := [EndRenderPass, Submit, Present];
    assert FrameEvents(true, view, pass) == head + pass + tail;
    FrameSubmitPresentCount(head, pass, tail);
  }

  lemma FrameDrawCount(head: seq<GpuEvent>, pass: seq<GpuEvent>, tail: seq<GpuEvent>)
    requires WellFormedPass(pass)
    requires forall i :: 0 <= i < |head| ==> !IsDraw(head[i])
    requires forall i :: 0 <= i < |tail| ==> !IsDraw(tail[i])
    ensures DrawCount(head + pass + tail) == 1
  {
    DrawCountAppend(head + pass, tail);
    DrawCountAppend(head, pass);
    DrawCountPass(pass);
    NoDrawNoCount(head);
    NoDrawNoCount(tail);
  }

  lemma FrameSubmitPresentCount(head: seq<GpuEvent>, pass: seq<GpuEvent>, tail: seq<GpuEvent>)
    requires WellFormedPass(pass)
    requires Submit !in head && Present !in head
    requires tail == [EndRenderPass, Submit, Present]
    ensures multiset(head + pass + tail)[Submit] == 1
    ensures multiset(head + pass + tail)[Present] == 1
  {
    assert Submit !in pass && Present !in pass by {
      forall i | 0 <= i < |pass| ensures pass[i] != Submit && pass[i] != Present {
        assert IsPassCommand(pass[i]);
      }
    }
    assert multiset(head + pass + tail) == multiset(head) + multiset(pass) + multiset(tail);
  }

  /** In a frame whose texture was acquired, the pass body is recorded right
      after the acquisition, the view, the encoder and the start of the pass. */
  lemma FramePassAt(view: Option<TextureFormat>, pass: seq<GpuEvent>, k: nat)
    requires k < |pass|
    ensures |FrameEvents(true, view, pass)| == |pass| + 7
    ensures FrameEvents(true, view, pass)[4 + k] == pass[k]
  {
    var head := [AcquireTexture(true), CreateView(view), CreateCommandEncoder, BeginRenderPass(Background)];
    assert FrameEvents(true, view, pass) == head + pass + [EndRenderPass, Submit, Present];
  }

  /** A frame whose texture was acquired ends with the draw of its pass,
      the end of the pass, the submission and the presentation, and draws once. */
  lemma FrameEnds(view: Option<TextureFormat>, pass: seq<GpuEvent>)
    requires WellFormedPass(pass)
    ensures var e := FrameEvents(true, view, pass);
      && |e| == |pass| + 7
      && e[|e| - 4] == pass[|pass| - 1]
      && e[|e| - 3] == EndRenderPass
      && e[|e| - 2] == Submit && e[|e| - 1] == Present
      && DrawCount(e) == 1
  {
    var head := [AcquireTexture(true), CreateView(view), CreateCommandEncoder, BeginRenderPass(Background)];
    var tail := [EndRenderPass, Submit, Present];
    assert FrameEvents(true, view, pass) == head + pass + tail;
    FrameDrawCount(head, pass, tail);
  }

  /** One call that is not a draw, recorded before `events`, shifts them by
      one and leaves the number of draws as it was. */
  lemma {:induction false} PrefixKeepsEnds(first: GpuEvent, events: seq<GpuEvent>)
    requires !IsDraw(first)
    ensures ([first] + events)[0] == first
    ensures |[first] + events| == |events| + 1
    ensures forall i :: 0 <= i < |events| ==> ([first] + events)[i + 1] == events[i]
    ensures DrawCount([first] + events) == DrawCount(events)
  {
    assert ([first] + events)[1..] == events;
  }

  /** A frame never reconfigures the surface. */
  lemma FrameEventsNoConfigure(acquired: bool, view: Option<TextureFormat>, pass: seq<GpuEvent>)
    requires forall i :: 0 <= i < |pass| ==> IsPassCommand(pass[i])
    ensures forall i :: 0 <= i < |FrameEvents(acquired, view, pass)| ==> !FrameEvents(acquired, view, pass)[i].Configure?
  {
    var e := FrameEvents(acquired, view, pass);
    if acquired {
      var head := [AcquireTexture(true), CreateView(view), CreateCommandEncoder, BeginRenderPass(Background)];
      var tail := [EndRenderPass, Submit, Present];
      assert e == head + pass + tail;
      forall i | 0 <= i < |e| ensures !e[i].Configure? {
        if 4 <= i < 4 + |pass| {
          assert e[i] == pass[i - 4];
        }
      }
    }
  }
}
