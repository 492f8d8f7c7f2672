/// `GpuContext` (frontend/src/shaders.rs): the surface, device and queue of
/// one canvas, its surface configuration and the canvas size that
/// configuration was last computed for, together with the reconciliation
/// that keeps the configuration in step with the shared canvas size.
module GpuContexts {

  import opened Options
  import opened Wgpu
  import opened Signals
  import FrameState

  /** The part of a context that resize reconciliation reads and writes:
      the cached canvas size and the surface configuration. */
  datatype SizeState = SizeState(size: (nat, nat), config: SurfaceConfiguration)

  /** The configured surface size is the cached canvas size scaled by the
      (integer) pixel ratio. */
  predicate Synced(s: SizeState, dpr: nat)
  {
    s.config.width == s.size.0 * dpr && s.config.height == s.size.1 * dpr
  }

  /** Two configurations that differ at most in their size. */
  predicate SameSettings(a: SurfaceConfiguration, b: SurfaceConfiguration)
  {
    && a.usage == b.usage
    && a.format == b.format
    && a.presentMode == b.presentMode
    && a.alphaMode == b.alphaMode
    && a.viewFormats == b.viewFormats
    && a.desiredMaximumFrameLatency == b.desiredMaximumFrameLatency
  }

  /** `config` resized for a canvas of `size` logical pixels. */
  function Scaled(config: SurfaceConfiguration, size: (nat, nat), dpr: nat): (c: SurfaceConfiguration)
    ensures SameSettings(c, config)
    ensures Synced(SizeState(size, c), dpr)
  {
    config.(width := size.0 * dpr, height := size.1 * dpr)
  }

  /** What `GpuContext::resize` leaves behind when the shared canvas size is
      `canvas`: an unchanged context when the cached size already matches,
      otherwise the new size and a configuration scaled to it. */
  function Reconcile(s: SizeState, canvas: (nat, nat), dpr: nat): (r: SizeState)
    ensures r.size == canvas
    ensures s.size == canvas ==> r == s
    ensures s.size != canvas ==> Synced(r, dpr)
    ensures Synced(s, dpr) ==> Synced(r, dpr)
    ensures SameSettings(r.config, s.config)
  {
    if s.size == canvas then s else SizeState(canvas, Scaled(s.config, canvas, dpr))
  }

  /** The surface calls `GpuContext::resize` makes: one `configure` with the
      new configuration when the size changed, none otherwise. */
  function ReconcileEvents(s: SizeState, canvas: (nat, nat), dpr: nat): (e: seq<GpuEvent>)
    ensures |e| <= 1
    ensures |e| == 1 <==> s.size != canvas
    ensures e != [] ==> e == [Configure(Reconcile(s, canvas, dpr).config)]
  {
    if s.size == canvas then [] else [Configure(Scaled(s.config, canvas, dpr))]
  }

  /** Reconciling twice against the same canvas size reconfigures at most once. */
  lemma ReconcileIdempotent(s: SizeState, canvas: (nat, nat), dpr: nat)
    ensures Reconcile(Reconcile(s, canvas, dpr), canvas, dpr) == Reconcile(s, canvas, dpr)
    ensures ReconcileEvents(Reconcile(s, canvas, dpr), canvas, dpr) == []
  {
  }

  /** The state after one reconciliation per frame, the shared canvas size
      being `canvases[i]` at frame `i`. */
  function ReconcileRun(s: SizeState, canvases: seq<(nat, nat)>, dpr: nat): SizeState
    decreases |canvases|
  {
    if canvases == [] then s else ReconcileRun(Reconcile(s, canvases[0], dpr), canvases[1..], dpr)
  }

  /** The surface calls made by those reconciliations, frame after frame. */
  function ReconcileRunEvents(s: SizeState, canvases: seq<(nat, nat)>, dpr: nat): seq<GpuEvent>
    decreases |canvases|
  {
    if canvases == [] then []
    else ReconcileEvents(s, canvases[0], dpr) + ReconcileRunEvents(Reconcile(s, canvases[0], dpr), canvases[1..], dpr)
  }

  /** One `configure` call per size, each with the configuration scaled to it. */
  function ConfigureEach(config: SurfaceConfiguration, sizes: seq<(nat, nat)>, dpr: nat): seq<GpuEvent>
  {
    if sizes == [] then [] else [Configure(Scaled(config, sizes[0], dpr))] + ConfigureEach(config, sizes[1..], dpr)
  }

  /** Over any sequence of frames, the surface is reconfigured exactly once
      for each change of the canvas size and never for a repeated size: the
      configurations applied are the deduplicated canvas sizes, scaled. */
  lemma {:induction false} ReconfiguresOncePerChange(s: SizeState, canvases: seq<(nat, nat)>, dpr: nat)
    ensures ReconcileRunEvents(s, canvases, dpr) == ConfigureEach(s.config, DedupeAfter(s.size, canvases), dpr)
    decreases |canvases|
  {
    if canvases != [] {
      var next := Reconcile(s, canvases[0], dpr);
      ReconfiguresOncePerChange(next, canvases[1..], dpr);
      ConfigureEachSettings(s.config, next.config, DedupeAfter(canvases[0], canvases[1..]), dpr);
    }
  }

  lemma {:induction false} ConfigureEachSettings(a: SurfaceConfiguration, b: SurfaceConfiguration, sizes: seq<(nat, nat)>, dpr: nat)
    requires SameSettings(a, b)
    ensures ConfigureEach(a, sizes, dpr) == ConfigureEach(b, sizes, dpr)
  {
    if sizes != [] {
      ConfigureEachSettings(a, b, sizes[1..], dpr);
    }
  }

  /** After any non-empty sequence of frames the cached size is the latest
      canvas size, the configuration is that size scaled by the pixel ratio,
      and only the size of the configuration has changed. */
  lemma {:induction false} ReconcileRunSynced(s: SizeState, canvases: seq<(nat, nat)>, dpr: nat)
    requires Synced(s, dpr)
    ensures Synced(ReconcileRun(s, canvases, dpr), dpr)
    ensures SameSettings(ReconcileRun(s, canvases, dpr).config, s.config)
    ensures canvases != [] ==> ReconcileRun(s, canvases, dpr).size == canvases[|canvases| - 1]
    decreases |canvases|
  {
    if canvases != [] {
      var next := Reconcile(s, canvases[0], dpr);
      ReconcileRunSynced(next, canvases[1..], dpr);
    }
  }

  /** The configuration last applied to the surface, if any. */
  function LastConfigured(trace: seq<GpuEvent>): Option<SurfaceConfiguration>
  {
    if trace == [] then None
    else if trace[|trace| - 1].Configure? then Some(trace[|trace| - 1].config)
    else LastConfigured(trace[..|trace| - 1])
  }

  lemma {:induction false} LastConfiguredAppend(trace: seq<GpuEvent>, more: seq<GpuEvent>)
    requires forall i :: 0 <= i < |more| ==> !more[i].Configure?
    ensures LastConfigured(trace + more) == LastConfigured(trace)
  {
    if more != [] {
      var init := more[..|more| - 1];
      assert (trace + more)[..|trace + more| - 1] == trace + init;
      LastConfiguredAppend(trace, init);
    } else {
      assert trace + more == trace;
    }
  }

  class GpuContext {
    /** `size`: the canvas size the configuration was computed for. */
    var size: (nat, nat)
    var config: SurfaceConfiguration
    /** The calls made so far on this context's device, queue and surface. */
    ghost var trace: seq<GpuEvent>

    function State(): SizeState
      reads this
    {
      SizeState(size, config)
    }

    /** The cached size is a clamped canvas size (never zero), the
        configuration matches it, keeps the settings it was created with, and
        is the one the surface was last configured with. */
    ghost predicate Valid(dpr: nat)
      reads this
    {
      && size.0 >= 1 && size.1 >= 1
      && Synced(State(), dpr)
      && config.usage == {RenderAttachment}
      && config.desiredMaximumFrameLatency == 2
      && SrgbViewAllowed(config)
      && LastConfigured(trace) == Some(config)
    }

    /** `GpuContext::new` once the adapter and device are negotiated: picks
        the surface format, configures the surface for the current shared
        canvas size and remembers that size. */
    constructor (caps: SurfaceCapabilities, shared: FrameState.SharedFrameState)
      requires Advertised(caps)
      requires shared.Valid() && shared.ScaledFits()
      ensures size == shared.CanvasSize()
      ensures config == InitialConfig(caps, size, shared.pixelRatio)
      ensures trace == [Configure(config)]
      ensures Valid(shared.pixelRatio)
    {
      size := (shared.canvasWidth, shared.canvasHeight);
      config := InitialConfig(caps, (shared.canvasWidth, shared.canvasHeight), shared.pixelRatio);
      new;
      trace := [Configure(config)];
    }

    /** `GpuContext::resize`, called at the start of every frame. */
    method Resize(shared: FrameState.SharedFrameState)
      requires Valid(shared.pixelRatio)
      requires shared.Valid() && shared.ScaledFits()
      modifies this
      ensures Valid(shared.pixelRatio)
      ensures State() == Reconcile(old(State()), shared.CanvasSize(), shared.pixelRatio)
      ensures trace == old(trace) + ReconcileEvents(old(State()), shared.CanvasSize(), shared.pixelRatio)
    {
      if size.0 != shared.canvasWidth || size.1 != shared.canvasHeight {
        size := (shared.canvasWidth, shared.canvasHeight);
        config := config.(width := size.0 * shared.pixelRatio, height := size.1 * shared.pixelRatio);
        trace := trace + [Configure(config)];
      }
    }

    /** Records calls that leave the surface configuration alone. */
    ghost method Record(events: seq<GpuEvent>, dpr: nat)
      requires Valid(dpr)
      requires forall i :: 0 <= i < |events| ==> !events[i].Configure?
      modifies this`trace
      ensures Valid(dpr)
      ensures trace == old(trace) + events
    {
      LastConfiguredAppend(trace, events);
      trace := trace + events;
    }
  }
}
