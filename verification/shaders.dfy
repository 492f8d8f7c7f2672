/// The shader pages (frontend/src/shaders.rs): what `page_content` shows
/// for a route parameter, the gallery of shader works, the layout choices
/// of a shader page, and `run_shader`, which starts the shader work of a
/// slug on a freshly inserted canvas.
module Shaders {

  import opened Options
  import opened Wgpu
  import opened Slugs
  import FrameState
  import HelloTriangleShader
  import VertexBufferShader
  import GlslsandboxShader

  // ------ Page content ------

  /** One gallery entry: a link to the shader page labelled with the
      shader's thumbnail and its description. */
  datatype GalleryLink = GalleryLink(to: string, thumbnail: PublicUrl, description: string)

  datatype Page =
    | Gallery(links: seq<GalleryLink>)
    | ShaderPage(slug: Slug)
    | NotFound(message: string)

  /** The gallery entry of one slug: it links to a page URL that parses back
      to the slug, shows the thumbnail named after the slug's module and
      describes the work by its title. */
  function LinkFor(s: Slug): (l: GalleryLink)
    ensures |l.to| > |ShadersPath| && l.to[..|ShadersPath|] == ShadersPath
    ensures Parse(l.to[|ShadersPath|..]) == Some(s)
    ensures l.thumbnail == PublicUrl("shaders/thumbnail/" + ModuleName(s) + ".webp")
    ensures l.description == "Shader work: " + Join(VariantWords(s), " ")
  {
    GalleryLink(PageUrl(s), ThumbnailUrl(s), "Shader work: " + Title(s))
  }

  function Reversed<T>(s: seq<T>): (r: seq<T>)
    ensures |r| == |s|
    ensures forall i :: 0 <= i < |s| ==> r[i] == s[|s| - 1 - i]
  {
    if s == [] then [] else Reversed(s[1..]) + [s[0]]
  }

  /** `shader_gallery`: one link per slug, in the reverse of declaration
      order (`Slug::iter().rev()`), so the most recently added work comes first. */
  function GalleryLinks(): (links: seq<GalleryLink>)
    ensures |links| == |AllSlugs|
    ensures forall i :: 0 <= i < |links| ==> links[i] == LinkFor(AllSlugs[|AllSlugs| - 1 - i])
  {
    var order := Reversed(AllSlugs);
    seq(|order|, i requires 0 <= i < |order| => LinkFor(order[i]))
  }

  /** Every slug has exactly one gallery entry, and no two entries are the
      same (what each entry shows is stated by `LinkFor`). */
  lemma GalleryListsEverySlugOnce(s: Slug)
    ensures exists i :: 0 <= i < |GalleryLinks()| && GalleryLinks()[i] == LinkFor(s)
    ensures forall i, j :: 0 <= i < j < |GalleryLinks()| ==> GalleryLinks()[i] != GalleryLinks()[j]
  {
    var links := GalleryLinks();
    AllSlugsListsEachOnce(s);
    var k :| 0 <= k < |AllSlugs| && AllSlugs[k] == s;
    assert links[|AllSlugs| - 1 - k] == LinkFor(s);
    forall i, j | 0 <= i < j < |links| ensures links[i] != links[j] {
      var a, b := AllSlugs[|AllSlugs| - 1 - i], AllSlugs[|AllSlugs| - 1 - j];
      assert Parse(LinkFor(a).to[|ShadersPath|..]) == Some(a);
      assert Parse(LinkFor(b).to[|ShadersPath|..]) == Some(b);
    }
  }

  /** `page_content`: the gallery without a slug, the slug's page when the
      slug parses, and the text "Shader not found" otherwise. */
  function PageContent(slug: Option<string>): (p: Page)
    ensures slug.None? <==> p.Gallery?
    ensures slug.None? ==> p == Gallery(GalleryLinks())
    ensures slug.Some? && p.ShaderPage? ==> ToString(p.slug) == slug.value
    ensures p.NotFound? <==> slug.Some? && forall s :: ToString(s) != slug.value
    ensures p.NotFound? ==> p.message == "Shader not found"
  {
    match slug
    case None => Gallery(GalleryLinks())
    case Some(str) =>
      match Parse(str)
      case None => NotFound("Shader not found")
      case Some(s) => ShaderPage(s)
  }

  /** The route parameter of a slug's own page shows that slug's page. */
  lemma PageContentOfSlug(s: Slug)
    ensures PageContent(Some(ToString(s))) == ShaderPage(s)
  {
    ParseToString(s);
  }

  // ------ Layout of the pages ------

  /** The gallery entries' `min-width`: the full row below 376 logical pixels. */
  function GalleryItemMinWidth(width: nat): (r: Option<string>)
    ensures r.Some? <==> width < 376
    ensures r.Some? ==> r.value == "100%"
  {
    if width < 376 then Some("100%") else None
  }

  /** The horizontal padding of a shader page: none in the mobile layout,
      16 pixels otherwise. */
  function ShaderPagePadding(mobile: bool): (r: nat)
    ensures mobile <==> r == 0
    ensures !mobile ==> r == 16
  {
    if mobile then 0 else 16
  }

  // ------ Running a shader work ------

  /** `run_shader`: matches the upper camel case of the slug's string
      against each variant's identifier and runs that variant's shader
      work; the `unreachable!()` arm is the `None` case, which cannot
      happen. */
  method RunShader(slug: Slug, caps: SurfaceCapabilities, shared: FrameState.SharedFrameState) returns (l: object?)
    requires Advertised(caps)
    requires shared.Valid() && shared.ScaledFits()
    modifies shared
    ensures l != null && shared.animationLoop == Some(l)
    ensures l is HelloTriangleShader.FrameLoop ==>
      var w := l as HelloTriangleShader.FrameLoop;
      && w.shared == shared && w.ctx.size == shared.CanvasSize() && w.ctx.Valid(shared.pixelRatio)
      && w.ctx.trace == [Configure(w.ctx.config)] + HelloTriangleShader.SetupEvents(w.ctx.config.format)
    ensures l is VertexBufferShader.FrameLoop ==>
      var w := l as VertexBufferShader.FrameLoop;
      && w.shared == shared && w.ctx.size == shared.CanvasSize() && w.ctx.Valid(shared.pixelRatio)
      && w.ctx.trace == [Configure(w.ctx.config)] + VertexBufferShader.SetupEvents(w.ctx.config.format)
    ensures l is GlslsandboxShader.FrameLoop ==>
      var w := l as GlslsandboxShader.FrameLoop;
      && w.shared == shared && w.ctx.size == shared.CanvasSize() && w.ctx.Valid(shared.pixelRatio)
      && w.ctx.trace == [Configure(w.ctx.config)] + GlslsandboxShader.SetupEvents(w.ctx.config.format)
    ensures slug == HelloTriangle <==> l is HelloTriangleShader.FrameLoop
    ensures slug == HelloTriangleWithVertexBuffer <==> l is VertexBufferShader.FrameLoop
    ensures slug == GlslsandboxExample <==> l is GlslsandboxShader.FrameLoop
    ensures shared.CanvasSize() == old(shared.CanvasSize())
    ensures shared.pointerPosition == old(shared.pointerPosition)
  {
    DispatchReachesOwnWork(slug);
    match DispatchName(UpperCamelCase(ToString(slug)))
    case Some(HelloTriangle) =>
      l := HelloTriangleShader.Run(caps, shared);
    case Some(HelloTriangleWithVertexBuffer) =>
      l := VertexBufferShader.Run(caps, shared);
    case Some(GlslsandboxExample) =>
      l := GlslsandboxShader.Run(caps, shared);
    case None =>
      assert false;
  }
}
