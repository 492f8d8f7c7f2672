/// The process-wide cells the shader pages share (frontend/src/shaders.rs):
/// the canvas size in logical pixels, the device pixel ratio, the pointer
/// position inside the canvas and the handle of the running animation loop.
module FrameState {

  import opened Options
  import opened Wgpu

  /** `std::cmp::max(n, 1)`. */
  function AtLeastOne(n: nat): (r: nat)
    ensures r >= 1 && r >= n
    ensures r == n || r == 1
  {
    if n >= 1 then n else 1
  }

  class SharedFrameState {
    /** `CANVAS_WIDTH` and `CANVAS_HEIGHT`. */
    var canvasWidth: nat
    var canvasHeight: nat
    /** `DEVICE_PIXEL_RATIO` after the `as u32` truncation every reader applies;
        nothing writes the cell after it is first read from the window. */
    const pixelRatio: nat
    /** `CANVAS_POINTER_POSITION`, offset coordinates inside the canvas. */
    var pointerPosition: (int, int)
    /** `ANIMATION_LOOP`: the loop of the mounted canvas, if any. */
    var animationLoop: Option<object>

    /** The initial values of the cells. */
    constructor (devicePixelRatio: nat)
      ensures canvasWidth == 40 && canvasHeight == 30
      ensures pixelRatio == devicePixelRatio
      ensures pointerPosition == (0, 0)
      ensures animationLoop == None
      ensures Valid()
    {
      canvasWidth, canvasHeight := 40, 30;
      pixelRatio := devicePixelRatio;
      pointerPosition := (0, 0);
      animationLoop := None;
    }

    /** Both canvas dimensions are at least one pixel. */
    ghost predicate Valid()
      reads this
    {
      canvasWidth >= 1 && canvasHeight >= 1
    }

    function CanvasSize(): (nat, nat)
      reads this
    {
      (canvasWidth, canvasHeight)
    }

    /** The canvas size scaled by the pixel ratio fits the `u32` a surface
        configuration holds. */
    predicate ScaledFits()
      reads this
    {
      canvasWidth * pixelRatio <= U32_MAX && canvasHeight * pixelRatio <= U32_MAX
    }

    /** The canvas `on_resize` handler: stores each dimension clamped to at
        least 1, writing a cell only when its value changes (`set_neq`). */
    method OnResize(w: nat, h: nat)
      modifies this
      ensures canvasWidth == AtLeastOne(w) && canvasHeight == AtLeastOne(h)
      ensures Valid()
      ensures pointerPosition == old(pointerPosition) && animationLoop == old(animationLoop)
    {
      var width, height := AtLeastOne(w), AtLeastOne(h);
      if canvasWidth != width {
        canvasWidth := width;
      }
      if canvasHeight != height {
        canvasHeight := height;
      }
    }

    /** The canvas `PointerMove` handler. */
    method OnPointerMove(x: int, y: int)
      modifies this
      ensures pointerPosition == (x, y)
      ensures canvasWidth == old(canvasWidth) && canvasHeight == old(canvasHeight)
      ensures animationLoop == old(animationLoop)
    {
      if pointerPosition != (x, y) {
        pointerPosition := (x, y);
      }
    }

    /** `ANIMATION_LOOP.set(Some(loop))` at the end of a shader work's `run`;
        any previous loop is dropped. */
    method InstallLoop(l: object)
      modifies this
      ensures animationLoop == Some(l)
      ensures canvasWidth == old(canvasWidth) && canvasHeight == old(canvasHeight)
      ensures pointerPosition == old(pointerPosition)
    {
      animationLoop := Some(l);
    }

    /** The canvas `after_remove` handler: `ANIMATION_LOOP.set(None)`, which
        cancels the loop and releases everything its closure owns. */
    method Unmount()
      modifies this
      ensures animationLoop == None
      ensures canvasWidth == old(canvasWidth) && canvasHeight == old(canvasHeight)
      ensures pointerPosition == old(pointerPosition)
    {
      animationLoop := None;
    }
  }
}
