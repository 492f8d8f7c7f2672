# atelier.eto.al front end: shader pages, GPU context and shader works

This project models the core of the atelier.eto.al web front end in Dafny.
The front end is a Rust/zoon application that runs small GPU shader works
on an HTML canvas through wgpu. The model covers four parts:

- **Application shell** (`frontend/src/lib.rs`):
  - the desktop/mobile layout chosen from the screen width;
  - the padding that layout selects;
  - the router's routes and what the `main` element shows for each.
- **Shader pages** (`frontend/src/shaders.rs`):
  - `page_content`, the gallery and the per-page layout choices;
  - the `Slug` enum with its strum/heck string forms, page URL, thumbnail URL and title;
  - `run_shader`'s dispatch from a slug to its shader work;
  - the process-wide cells the shader pages share: canvas size, pixel ratio, pointer position and animation loop;
  - `GpuContext`: choosing the surface format, the initial surface configuration, and the `resize` reconciliation run at the start of every frame.
- **The three shader works** (`frontend/src/shaders/*.rs`). For each one:
  - the resources `run` creates;
  - the vertex layouts and vertex/index data;
  - the glslsandbox example's `Uniform` and its per-frame update;
  - the calls every animation frame makes.
- **Theme** (`frontend/src/theme.rs`):
  - the light/dark theme and its flavour;
  - the toggle and the dark-mode switch;
  - the colour roles.

The cells and objects the source updates in place are Dafny classes:

- `FrameState.SharedFrameState`: the `CANVAS_*`, `DEVICE_PIXEL_RATIO` and `ANIMATION_LOOP` statics.
- `GpuContexts.GpuContext`.
- `GlslsandboxShader.Uniform`.
- One `FrameLoop` class per shader work, standing for the animation loop's closure.
- `Theme.ThemeState`: the `THEME` cell.

The calls a shader work makes on the wgpu device, queue and surface are
recorded in a ghost trace of `Wgpu.GpuEvent`s on the context. Each method
states the trace it appends, as a function of its inputs. Pure logic
becomes functions, with lemmas about them. Examples:

- the surface configuration;
- case conversions and parsing;
- routing;
- reconciliation over a run of frames;
- the uniform over a run of frames.

Module layout, in dependency order:

- `options.dfy`
- `signals.dfy`: zoon's `map` and `dedupe` on signals, over sequences of values.
- `wgpu.dfy`
- `frame_state.dfy`
- `gpu_context.dfy`
- `slugs.dfy`
- `hello_triangle.dfy`, `hello_triangle_with_vertex_buffer.dfy`, `glslsandbox_example.dfy`
- `shaders.dfy`
- `theme.dfy`
- `app.dfy`

Design choices that differ from a literal reading:

- **Frame counter.** `Uniform::update` does `self.frame += 1` on an `i32`. The model gives this its release-build meaning, two's-complement wrap-around (`WrapI32`). It does not add a precondition that the counter never reaches `i32::MAX`, so arbitrarily long runs stay in scope.
- **`u32` products.** The source computes the surface size as `size * DEVICE_PIXEL_RATIO as u32` in `u32`. The model requires the products to fit (`SharedFrameState.ScaledFits`) rather than modelling the overflow.
- **The `unreachable!()` arm of `run_shader`.** The model proves this arm is dead: the upper camel case of every slug's kebab-case string is the variant's own identifier.

## Model

| member | source | states |
|---|---|---|
| Signals.Map | frontend/src/lib.rs:35-44 | A mapped signal has one value per source value, each the mapping of the value at the same position. |
| Signals.DedupeNoRepeats | frontend/src/lib.rs:35-44 | A deduplicated signal never emits the same value twice in a row. |
| Signals.DedupeKeepsValues | frontend/src/lib.rs:35-44 | Deduplication drops no distinct value and adds none. Its last value is the source's last value. |
| Signals.DedupeMapDedupe | frontend/src/lib.rs:42-43 | Mapping then deduplicating a deduplicated signal equals mapping and deduplicating the raw signal. |
| Wgpu.AddSrgbSuffix | frontend/src/shaders.rs:284-285 | `Rgba8Unorm` and `Bgra8Unorm` map to their sRGB twins. An sRGB format, and a format with no twin (`Rgba16Float`, `Rgb10a2Unorm`), is unchanged. |
| Wgpu.FirstSrgb | frontend/src/shaders.rs:272-274 | Finds the position of the first sRGB format, with no sRGB format before it. Gives `None` exactly when no advertised format is sRGB. |
| Wgpu.ChooseFormat | frontend/src/shaders.rs:271-275 | The chosen format is advertised. It is sRGB iff some advertised format is, and then it is the first such. Otherwise it is the first advertised format. |
| Wgpu.ViewFormats | frontend/src/shaders.rs:284-288 | View formats are declared exactly when the surface format is not sRGB. They contain only `add_srgb_suffix` of the format: its sRGB twin when it has one, otherwise the format itself. |
| Wgpu.InitialConfig | frontend/src/shaders.rs:276-290 | The first configuration is a render attachment in the chosen format, sized canvas × pixel ratio. It uses the first present mode and alpha mode and a frame latency of 2, and its view formats are `add_srgb_suffix` of a non-sRGB format: its sRGB twin when it has one, otherwise the format itself. |
| Wgpu.InitialConfigPrefersSrgb | frontend/src/shaders.rs:271-290 | An sRGB surface is used whenever one is advertised. Otherwise the first format is used, with `add_srgb_suffix` of it as the only view format: its sRGB twin when it has one, otherwise the format itself. |
| Wgpu.DrawCountPass | frontend/src/shaders/hello_triangle.rs:85-86 | A well-formed render pass body draws exactly once. |
| Wgpu.FrameEventsShape | frontend/src/shaders/hello_triangle.rs:50-91 | Every frame starts by acquiring a texture. A failed acquisition ends the frame with nothing drawn, submitted or presented. A successful one clears to the background, draws once, and submits once then presents once as its last two calls. |
| Wgpu.FrameEvents | frontend/src/shaders/hello_triangle.rs:53-90 | A frame starts by acquiring a texture. Without one it has no other call; with one it has the pass body plus seven calls and ends with the submit then the present. |
| Wgpu.SuccessfulFrameShape | frontend/src/shaders/hello_triangle.rs:53-90 | A frame with a texture records the pass body right after the pass start, then the end of the pass, the submit and the present. The pass's draw is fourth from the end, and exactly one draw, one submit and one present occur. |
| Wgpu.FrameBody | frontend/src/shaders/hello_triangle.rs:59-87 | The pass starts by clearing to the background, and the pass body lies between that start and the end of the pass. |
| Wgpu.FrameSubmitsOnce | frontend/src/shaders/hello_triangle.rs:89-90 | A frame with a texture submits exactly once and presents exactly once. |
| Wgpu.FramePassAt | frontend/src/shaders/hello_triangle_with_vertex_buffer.rs:98-136 | In a frame with a texture, the pass body is recorded in order right after acquisition, view, encoder and pass start. |
| Wgpu.FrameEnds | frontend/src/shaders/glslsandbox_example.rs:169-212 | A frame with a texture ends with the pass's draw, then `EndRenderPass` third from the end, then the submit and the present. It draws once. |
| Wgpu.FrameEventsNoConfigure | frontend/src/shaders/hello_triangle.rs:53-90 | The calls after the resize never reconfigure the surface. |
| FrameState.AtLeastOne | frontend/src/shaders.rs:126-127 | `max(n, 1)`: at least 1 and at least `n`, and equal to one of them. |
| FrameState.SharedFrameState.constructor | frontend/src/shaders.rs:232-236 | The cells start at a 40×30 canvas, pointer (0, 0) and no animation loop. |
| FrameState.SharedFrameState.OnResize | frontend/src/shaders.rs:125-128 | Stores each canvas dimension clamped to at least 1 and keeps both dimensions positive. The pointer and the loop are untouched. |
| FrameState.SharedFrameState.OnPointerMove | frontend/src/shaders.rs:129-131 | Stores the pointer offset and changes nothing else. |
| FrameState.SharedFrameState.InstallLoop | frontend/src/shaders/hello_triangle.rs:93 | Installs the new loop and drops any previous one. The canvas and the pointer are untouched. |
| FrameState.SharedFrameState.Unmount | frontend/src/shaders.rs:134 | Removing the canvas clears the animation loop and nothing else. |
| GpuContexts.Scaled | frontend/src/shaders.rs:305-306 | A resized configuration keeps every setting but the size and matches the new size × pixel ratio. |
| GpuContexts.Reconcile | frontend/src/shaders.rs:302-309 | After a resize the cached size is the canvas size. An unchanged size leaves the context as it was; a changed size leaves it synced. The settings never change. |
| GpuContexts.ReconcileEvents | frontend/src/shaders.rs:302-309 | The surface is reconfigured, once and with the new configuration, exactly when the size changed. |
| GpuContexts.ReconcileIdempotent | frontend/src/shaders.rs:302-309 | A second resize against the same canvas size changes nothing and reconfigures nothing. |
| GpuContexts.ReconfiguresOncePerChange | frontend/src/shaders.rs:302-309 | Over any run of frames, the surface is configured once per change of canvas size, with that size scaled, and never for a repeated size. |
| GpuContexts.ReconcileRunSynced | frontend/src/shaders.rs:302-309 | After any run of frames the configuration is in step with the latest canvas size, and only its size has changed. |
| GpuContexts.GpuContext.constructor | frontend/src/shaders.rs:271-299 | A new context caches the current canvas size and configures the surface once with the initial configuration. |
| GpuContexts.GpuContext.Resize | frontend/src/shaders.rs:302-309 | Updates the size and configuration as `Reconcile` says and appends the matching configure call. It keeps the configuration synced and equal to the last one applied. |
| Slugs.AllSlugsListsEachOnce | frontend/src/shaders.rs:207-214 | `Slug::iter()` yields every variant, each once. |
| Slugs.WordsIdentifier | frontend/src/shaders.rs:207-214 | Capitalised ASCII words written together form an upper-camel identifier with one capital per word. |
| Slugs.VariantWords | frontend/src/shaders.rs:209-211 | Each variant's identifier is made of capitalised ASCII words. |
| Slugs.VariantName | frontend/src/shaders.rs:209-211 | Each variant's identifier is an upper-camel identifier. |
| Slugs.VariantNameInjective | frontend/src/shaders.rs:207-214 | No two variants share an identifier. |
| Slugs.CapitalizedKebab | frontend/src/shaders.rs:196 | Capitalising the words of an identifier's kebab case and joining them re-inserts the joiner at each word boundary. |
| Slugs.CamelKebabRoundTrip | frontend/src/shaders.rs:190-196 | heck's upper camel case undoes strum's kebab-case serialisation of an identifier. |
| Slugs.SpacedWords | frontend/src/shaders.rs:217-219 | Re-spacing an identifier built from words gives those words joined by the joiner. |
| Slugs.SnakeOfKebab | frontend/src/shaders.rs:187 | The snake case of an identifier's kebab case is its snake case. |
| Slugs.SnakeCase | frontend/src/shaders.rs:226 | Snake case keeps the length of its input. What it computes on a kebab-case string is stated by `SnakeOfKebab`. |
| Slugs.KebabCase | frontend/src/shaders.rs:190 | An identifier's kebab case is non-empty and uses only lower-case letters and `-`. |
| Slugs.UpperCamelCase | frontend/src/shaders.rs:196 | Upper camel case is no longer than its input and capitalises its first letter. That it undoes the kebab case is stated by `CamelKebabRoundTrip`. |
| Slugs.TitleCase | frontend/src/shaders.rs:217-219 | Title case keeps the length of its input and capitalises its first letter. Its words are stated by `CapitalizedKebab` and `Title`. |
| Slugs.ToString | frontend/src/shaders.rs:189-190 | A slug's string is one non-empty path segment of lower-case letters and `-`. |
| Slugs.ToStringInjective | frontend/src/shaders.rs:189-190 | Distinct slugs serialise to distinct strings. |
| Slugs.FindByName | frontend/src/shaders.rs:196-200 | Finds a listed slug with the given name, or reports that none has it. |
| Slugs.Parse | frontend/src/shaders.rs:16-20 | A parsed slug serialises to the input. A parse error means no slug serialises to it. |
| Slugs.ParseToString | frontend/src/shaders.rs:189-190 | Parsing a slug's string gives the slug back. |
| Slugs.DispatchName | frontend/src/shaders.rs:196-200 | A match arm is selected exactly when the name is that variant's identifier. The fallback is reached only when no identifier matches. |
| Slugs.DispatchReachesOwnWork | frontend/src/shaders.rs:195-202 | `run_shader` dispatches every slug to its own shader work, so `unreachable!()` is indeed unreachable. |
| Slugs.Title | frontend/src/shaders.rs:217-219 | A slug's title is its variant's words separated by single spaces. |
| Slugs.PageUrl | frontend/src/shaders.rs:221-223 | A page URL is `/shaders/` followed by one segment that parses back to the slug. |
| Slugs.ThumbnailUrl | frontend/src/shaders.rs:225-227 | A thumbnail is `shaders/thumbnail/<module name>.webp`, named after the shader work's module. |
| HelloTriangleShader.PassCommandsWellFormed | frontend/src/shaders/hello_triangle.rs:85-86 | The pass binds the pipeline first, binds no bind group or vertex buffer, and ends with its only draw: three vertices, one instance. |
| HelloTriangleShader.SetupEvents | frontend/src/shaders/hello_triangle.rs:15-47 | The setup ends by creating the one render pipeline, in the surface format, and never configures the surface. |
| HelloTriangleShader.SetupHasNoInputs | frontend/src/shaders/hello_triangle.rs:19-47 | The setup creates no buffer or bind group. Its pipeline reads no vertex buffer and its layout has no bind group layouts. |
| HelloTriangleShader.FrameOutcome | frontend/src/shaders/hello_triangle.rs:53-90 | A frame without a texture only tries to acquire one. A frame with one draws the triangle once, then submits and presents. |
| HelloTriangleShader.FrameLoop.Frame | frontend/src/shaders/hello_triangle.rs:50-91 | One animation frame of the installed loop: the resize reconciliation, then the frame's calls, appended to the trace. The context stays valid. |
| HelloTriangleShader.Run | frontend/src/shaders/hello_triangle.rs:14-94 | Configures a fresh context, caching the canvas size, and creates the shader, the layout and a pipeline with no vertex buffers. Installs the loop; the canvas and the pointer are unchanged. |
| VertexBufferShader.Desc | frontend/src/shaders/hello_triangle_with_vertex_buffer.rs:19-36 | The layout is well formed, steps per vertex and has a 24-byte stride. Position is at offset 0 for location 0 and colour at offset 12 for location 1; they are adjacent and fill the stride. |
| VertexBufferShader.VerticesFormFrontFacingTriangle | frontend/src/shaders/hello_triangle_with_vertex_buffer.rs:39-43 | The three vertices lie in the z = 0 plane and run counter-clockwise, with a distinct colour at each corner. |
| VertexBufferShader.PassCommandsWellFormed | frontend/src/shaders/hello_triangle_with_vertex_buffer.rs:130-132 | The pass is well formed, binds no bind group, and draws exactly the vertices in the buffer. |
| VertexBufferShader.SetupEvents | frontend/src/shaders/hello_triangle_with_vertex_buffer.rs:51-92 | The setup ends by creating the one render pipeline, in the surface format, and never configures the surface. |
| VertexBufferShader.VertexBufferBound | frontend/src/shaders/hello_triangle_with_vertex_buffer.rs:55-92 | The vertex buffer is exactly one stride per vertex. The pipeline has exactly one vertex buffer layout, `Desc()`, and the pass binds slot 0, its only slot. |
| VertexBufferShader.FrameOutcome | frontend/src/shaders/hello_triangle_with_vertex_buffer.rs:98-136 | A frame with a texture binds the vertex buffer, then draws every vertex once, then submits and presents. |
| VertexBufferShader.FrameLoop.Frame | frontend/src/shaders/hello_triangle_with_vertex_buffer.rs:95-137 | One animation frame of the installed loop: the resize reconciliation, then the frame's calls, appended to the trace. The context stays valid. |
| VertexBufferShader.Run | frontend/src/shaders/hello_triangle_with_vertex_buffer.rs:50-140 | Configures a fresh context, caching the canvas size, and creates the shader and the vertex buffer, then the pipeline with the vertex layout. Installs the loop. |
| GlslsandboxShader.Desc | frontend/src/shaders/glslsandbox_example.rs:19-31 | The layout is well formed with an 8-byte stride. Its single position attribute is at offset 0 for location 0 and fills the stride. |
| GlslsandboxShader.QuadCoversClipSpace | frontend/src/shaders/glslsandbox_example.rs:34-44 | The indices are valid `u16` vertex indices forming two counter-clockwise triangles. The triangles share the diagonal, use every vertex and together cover all of clip space. |
| GlslsandboxShader.WrapI32 | frontend/src/shaders/glslsandbox_example.rs:51 | Wrapping lands in the `i32` range, is congruent to its input modulo 2^32 (two's-complement wrap-around), and leaves `i32` values unchanged. |
| GlslsandboxShader.WrappingIncrement | frontend/src/shaders/glslsandbox_example.rs:70 | Incrementing the counter is `x + 1` wrapped into `i32`. |
| GlslsandboxShader.UniformSizeAligned | frontend/src/shaders/glslsandbox_example.rs:48-54 | The uniform is 32 bytes, a multiple of 16. Without the padding field it would not be. |
| GlslsandboxShader.UniformWords | frontend/src/shaders/glslsandbox_example.rs:167 | The bytes uploaded are 32 bytes of 4-byte words. Each field's words sit at its byte offset divided by 4, in declaration order: resolution, time, frame, mouse, padding. |
| GlslsandboxShader.UniformFieldOffsets | frontend/src/shaders/glslsandbox_example.rs:46-54 | The fields of `Uniform` start at bytes 0, 8, 12, 16 and 24, and the struct ends at 32. |
| GlslsandboxShader.Updated | frontend/src/shaders/glslsandbox_example.rs:67-73 | An update sets the resolution to the surface size and adds the elapsed time. It advances the frame counter by one, wrapping, and takes the pointer position. |
| GlslsandboxShader.UpdatesAccumulate | frontend/src/shaders/glslsandbox_example.rs:67-73 | After any run of frames, time is the start time plus the sum of the deltas and the counter has advanced once per frame modulo 2^32. The latest size and pointer are shown and the padding is untouched. |
| GlslsandboxShader.Uniform.constructor | frontend/src/shaders/glslsandbox_example.rs:57-65 | A new uniform has every field zero. |
| GlslsandboxShader.Uniform.Update | frontend/src/shaders/glslsandbox_example.rs:67-73 | The fields after `update` are the `Updated` value of the fields before it. |
| GlslsandboxShader.SetupEvents | frontend/src/shaders/glslsandbox_example.rs:82-162 | The setup ends by creating the one render pipeline, in the surface format, and never configures the surface. |
| GlslsandboxShader.PassCommandsWellFormed | frontend/src/shaders/glslsandbox_example.rs:204-208 | The pass binds the pipeline first, then bind group 0, vertex buffer 0 and the `u16` index buffer before its only draw, which draws all six indices. |
| GlslsandboxShader.BuffersSized | frontend/src/shaders/glslsandbox_example.rs:86-101 | The vertex, index and uniform buffers are created with exactly the size of their contents. |
| GlslsandboxShader.FrameCalls | frontend/src/shaders/glslsandbox_example.rs:164-172 | The uniform is written before the surface texture is requested, whatever the outcome of the request. |
| GlslsandboxShader.FailedFrameOutcome | frontend/src/shaders/glslsandbox_example.rs:165-172 | The uniform is uploaded even when no texture is available, and the frame ends at the failed acquisition. |
| GlslsandboxShader.SuccessfulFrameOutcome | frontend/src/shaders/glslsandbox_example.rs:164-212 | A frame with a texture uploads the uniform first and draws the six indices once, then submits and presents. |
| GlslsandboxShader.FrameLoop.Frame | frontend/src/shaders/glslsandbox_example.rs:164-213 | One animation frame: the resize reconciliation and the uniform update. Then the upload of the updated uniform and a frame whose texture view uses the sRGB variant of the surface format, when it has one. The loop must be the installed one. The context stays valid. |
| GlslsandboxShader.Run | frontend/src/shaders/glslsandbox_example.rs:81-216 | Configures a fresh context, caching the canvas size, creates every buffer, bind group and pipeline, starts a zero uniform and installs the loop. |
| Shaders.Reversed | frontend/src/shaders.rs:35-36 | Reversal keeps the length and mirrors every position. |
| Shaders.GalleryLinks | frontend/src/shaders.rs:28-48 | The gallery has one link per slug, in reverse declaration order. |
| Shaders.LinkFor | frontend/src/shaders.rs:37-46 | A slug's gallery link goes to a page URL that parses back to the slug, so distinct slugs get distinct links. Its thumbnail is named after the slug's module and its description is "Shader work: " and the title. |
| Shaders.GalleryListsEverySlugOnce | frontend/src/shaders.rs:28-48 | Every slug appears exactly once in the gallery, and no two entries are equal. |
| Shaders.PageContent | frontend/src/shaders.rs:16-25 | No slug gives the gallery of every slug's link, in reverse declaration order. A slug that parses gives its page. Any other gives "Shader not found". |
| Shaders.PageContentOfSlug | frontend/src/shaders.rs:16-25 | A slug's own string shows that slug's page. |
| Shaders.GalleryItemMinWidth | frontend/src/shaders.rs:40 | Gallery items take the full row exactly below 376 pixels. |
| Shaders.ShaderPagePadding | frontend/src/shaders.rs:115 | A shader page is unpadded exactly in the mobile layout, and padded by 16 otherwise. |
| Shaders.RunShader | frontend/src/shaders.rs:195-202 | Each slug starts its own shader work and no other, and installs that work's loop. The new context caches the canvas size, is valid, and has configured the surface once before the work's setup calls. |
| Theme.FlavorOf | frontend/src/theme.rs:13-20 | The light theme uses Latte and the dark one Mocha. |
| Theme.Toggled | frontend/src/theme.rs:31-36 | A toggle always changes the theme. |
| Theme.ToggleInvolutive | frontend/src/theme.rs:31-36 | Toggling twice restores the theme, and each toggle switches the flavour. |
| Theme.IsChecked | frontend/src/theme.rs:48 | The dark-mode switch is checked exactly when the Mocha (dark) flavour is in use. |
| Theme.CheckboxIcon | frontend/src/theme.rs:52-62 | The checked icon is shown exactly when the switch is checked. |
| Theme.ToggleFlipsSwitch | frontend/src/theme.rs:43-50 | Clicking the switch flips its checked state and its icon. |
| Theme.ThemeState.constructor | frontend/src/theme.rs:37 | The theme starts dark. |
| Theme.ThemeState.Toggle | frontend/src/theme.rs:30-36 | A click replaces the theme with the other one. |
| Theme.ColorOfInjective | frontend/src/theme.rs:91-97 | No two colour roles share a palette colour. |
| App.LayoutOf | frontend/src/lib.rs:35-40 | The layout is desktop exactly from 768 pixels up. |
| Signals.Dedupe | frontend/src/lib.rs:35-44 | Deduplication never lengthens a signal, keeps its first value, and is empty only for an empty signal. |
| App.LayoutSignal | frontend/src/lib.rs:35-40 | The layout signal never repeats, carries only layouts of widths it was given, and ends on the layout of the latest width. |
| App.MobileLayoutSignal | frontend/src/lib.rs:42-44 | The mobile flag never repeats and ends on whether the latest width gives the mobile layout. |
| App.MobileLayoutIsNarrowWidth | frontend/src/lib.rs:35-44 | The mobile flag is the deduplicated narrowness of the width and never repeats. Its latest value follows the latest width, and it starts mobile from the default width 0. |
| App.HorizontalPadding | frontend/src/lib.rs:65 | The page column is padded by 20 on mobile and 40 otherwise. |
| App.PaddingByWidth | frontend/src/lib.rs:65 | The padding is 20 below 768 pixels and 40 from there up. Shader pages are unpadded exactly below 768. |
| App.Split | frontend/src/lib.rs:12-21 | Splitting a path gives at least one segment, and no segment contains `/`. |
| App.JoinSplit | frontend/src/lib.rs:12-21 | Joining a path's segments with `/` gives the path back. |
| App.Resolve | frontend/src/lib.rs:12-21 | Resolving a URL always yields a route or an unknown route, never no route. |
| App.RouteUrl | frontend/src/lib.rs:12-21 | A route's URL is an absolute path, and it is `/` only for the home route. |
| App.ResolveRouteUrl | frontend/src/lib.rs:12-21 | Every route is matched by its own URL, when its title is one non-empty segment. |
| App.ResolvedIsRouteUrl | frontend/src/lib.rs:12-21 | A path that reaches a route is that route's URL, and any page title it reaches is one non-empty segment. |
| App.ResolveExactly | frontend/src/lib.rs:12-21 | A path reaches a route if and only if it is that route's URL, with a title of one non-empty segment. No other path reaches the route. |
| App.MainChild | frontend/src/lib.rs:72-83 | `main` is empty before routing and shows "404" for unknown URLs. It shows the gallery of every slug's link for home and `/shaders`, and the page content of the title otherwise. |
| App.GalleryLinkShowsItsShader | frontend/src/lib.rs:72-83 | Following any gallery link shows the page of that link's shader work. |

## Left out

- Adapter and device negotiation in `GpuContext::new` (instance, adapter and device requests) are asynchronous calls into the browser. The model starts from the surface capabilities they yield. A failed request, which panics in the source, is not modelled.
- wgpu itself, the browser canvas and the `.wgsl` shaders are left out. The model records the calls the source makes as an abstract trace; it does not model what the GPU does with them.
- Floating point is left out:
  - Time is whole milliseconds rather than `f32` seconds.
  - The vertex-buffer triangle's coordinates (±0.5, 0.0) are stored in halves, so 0.5 is 1. The glslsandbox quad's corners (±1.0) are stored as whole units, ±1. Colour channels are whole units.
  - The clear colour is in tenths.
  - Resolution and mouse are exact integers, not `f32` casts.
  - `DEVICE_PIXEL_RATIO` is the natural number left after the `as u32` cast the readers apply.
- The canvas height signal `w * 9 / 16` in `f32` (`frontend/src/shaders.rs:121-123`) is not modelled. The canvas size is whatever `on_resize` reports.
- GpuContexts.GpuContext.Resize: `size * dpr` overflowing `u32` is excluded by the `ScaledFits` requires rather than modelled.
- GlslsandboxShader.Updated: the frame counter wraps as in a release build. A debug build would panic on overflow instead.
- Shader page content is left out: the CMS fetch, the typing animation, `markup_to_string`, the blinking cursor and its colours (`frontend/src/shaders.rs:53-111`, `145-176`). They are asynchronous UI over network data.
- Signals, `Task::start` and `AnimationLoop` are left out as reactive machinery. A signal is the sequence of values it emits. An animation loop is the `FrameLoop.Frame` method, called once per frame.
- The gallery's own viewport-width cell is left out. `GalleryItemMinWidth` takes the width as a parameter.
- Slugs.KebabCase: heck and strum case conversion is modelled only for identifiers made of ASCII words of one capital and lower-case letters. That covers every variant. Digits, acronyms and Unicode are not modelled.
- The Catppuccin palette's hex values, the icon SVG data and the styles are not modelled. Only which named colour each role uses is.
- App.Resolve: the router's percent-decoding, query strings and trailing slashes are not modelled. It never yields `NoRoute`, which the router reports only before its first URL.
- Run, InstallLoop and Unmount: each `run` awaits adapter and device negotiation before `ANIMATION_LOOP.set`, while `after_remove` (`frontend/src/shaders.rs:134`) may clear the cell during those awaits. The model runs `Run` atomically, so an unmount or a second mount in between, which leaves a loop installed for a canvas that is gone, is not captured. `Frame` instead requires that its own loop be the installed one.
- Logging is not modelled: the `eprintln!` on a failed texture acquisition and the `println!` in the theme toggle handler.
- Each shader work's `PassCommands` is a constant, so its contents are stated by that work's `PassCommandsWellFormed`.
- Theme.ColorOf is a table from role to palette colour. What is stated about it is `ColorOfInjective`.
- `frontend/src/cms.rs`, `frontend/src/header.rs` and the backend are not part of this model.
- zoon's `public_url` prefix is not modelled. `PublicUrl` keeps only the path it is given.
