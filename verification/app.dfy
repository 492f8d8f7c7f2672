/// The application shell (frontend/src/lib.rs): the desktop/mobile layout
/// derived from the screen width, the horizontal padding it selects, the
/// routes of the site and the content the `main` element shows for each.
module App {

  import opened Options
  import opened Signals
  import Slugs
  import Pages = Shaders

  // ------ Layout ------

  datatype Layout = Desktop | Mobile

  /** The layout for a screen width: desktop from 768 logical pixels up. */
  function LayoutOf(width: nat): (l: Layout)
    ensures l == Desktop <==> width >= 768
  {
    if width >= 768 then Desktop else Mobile
  }

  predicate IsMobile(l: Layout)
  {
    l == Mobile
  }

  predicate IsNarrow(width: nat)
  {
    width < 768
  }

  /** `layout_signal`: the layout of each `SCREEN_WIDTH` value, deduplicated.
      `widths` starts with the cell's current value; the cell is created
      with the default width 0. */
  function LayoutSignal(widths: seq<nat>): (r: seq<Layout>)
    ensures NoRepeats(r)
    ensures forall l :: l in r ==> exists i :: 0 <= i < |widths| && LayoutOf(widths[i]) == l
    ensures widths != [] ==> |r| > 0 && r[|r| - 1] == LayoutOf(widths[|widths| - 1])
  {
    var layouts := Map(LayoutOf, widths);
    DedupeNoRepeats(layouts);
    DedupeKeepsValues(layouts);
    Dedupe(layouts)
  }

  /** `mobile_layout_signal`: whether each layout is mobile, deduplicated. */
  function MobileLayoutSignal(widths: seq<nat>): (r: seq<bool>)
    ensures NoRepeats(r)
    ensures widths != [] ==> |r| > 0 && r[|r| - 1] == IsMobile(LayoutOf(widths[|widths| - 1]))
  {
    var flags := Map(IsMobile, LayoutSignal(widths));
    DedupeNoRepeats(flags);
    DedupeKeepsValues(flags);
    Dedupe(flags)
  }

  /** The mobile flag tracks the width directly: it is the deduplicated
      sequence of `width < 768`, it never repeats a value, its latest value
      is that of the latest width, and it starts mobile from the default width. */
  lemma MobileLayoutIsNarrowWidth(widths: seq<nat>)
    ensures MobileLayoutSignal(widths) == Dedupe(Map(IsNarrow, widths))
    ensures NoRepeats(MobileLayoutSignal(widths)) && NoRepeats(LayoutSignal(widths))
    ensures widths != [] ==>
      (|MobileLayoutSignal(widths)| > 0
       && MobileLayoutSignal(widths)[|MobileLayoutSignal(widths)| - 1] == IsNarrow(widths[|widths| - 1]))
    ensures widths != [] && widths[0] == 0 ==> MobileLayoutSignal(widths)[0]
  {
    var layouts := Map(LayoutOf, widths);
    DedupeMapDedupe(IsMobile, layouts);
    assert Map(IsMobile, layouts) == Map(IsNarrow, widths);
  }

  /** The horizontal padding of the page column: 20 pixels on mobile, 40 otherwise. */
  function HorizontalPadding(mobile: bool): (r: nat)
    ensures mobile ==> r == 20
    ensures !mobile ==> r == 40
  {
    if mobile then 20 else 40
  }

  /** The padding follows the width: 20 below 768 pixels, 40 from there up,
      and the mobile layout leaves the shader pages themselves unpadded. */
  lemma PaddingByWidth(width: nat)
    ensures HorizontalPadding(IsMobile(LayoutOf(width))) == (if width < 768 then 20 else 40)
    ensures Pages.ShaderPagePadding(IsMobile(LayoutOf(width))) == 0 <==> width < 768
  {
  }

  // ------ Routes ------

  /** `Route`: `#[route()] Home`, `#[route("shaders")] Shaders` and
      `#[route("shaders", title)] ShaderPage { title }`. */
  datatype Route = Home | Shaders | ShaderPage(title: string)

  /** The router's current route: none yet, a URL no route matches, or a route. */
  datatype RouteState = NoRoute | UnknownRoute | KnownRoute(route: Route)

  /** The segments of a path, split at every `/`. */
  function Split(s: string): (r: seq<string>)
    ensures |r| > 0
    ensures forall i :: 0 <= i < |r| ==> '/' !in r[i]
  {
    if s == [] then [""]
    else
      var rest := Split(s[1..]);
      if s[0] == '/' then [""] + rest else [[s[0]] + rest[0]] + rest[1..]
  }

  lemma {:induction false} SplitNoSlash(a: string)
    requires '/' !in a
    ensures Split(a) == [a]
  {
    if a != [] {
      SplitNoSlash(a[1..]);
      assert a == [a[0]] + a[1..];
    }
  }

  lemma {:induction false} SplitSlash(a: string, b: string)
    requires '/' !in a
    ensures Split(a + "/" + b) == [a] + Split(b)
  {
    if a == [] {
      assert a + "/" + b == "/" + b;
    } else {
      assert (a + "/" + b)[1..] == a[1..] + "/" + b;
      SplitSlash(a[1..], b);
      assert a == [a[0]] + a[1..];
    }
  }

  /** How the `#[route]` attributes match a URL path: `/` is `Home`,
      `/shaders` is `Shaders`, `/shaders/<title>` with a non-empty title is
      `ShaderPage`, and anything else matches no route. */
  function Resolve(path: string): (r: RouteState)
    ensures !r.NoRoute?
  {
    if |path| == 0 || path[0] != '/' then UnknownRoute
    else
      var segments := Split(path[1..]);
      if segments == [""] then KnownRoute(Home)
      else if segments == ["shaders"] then KnownRoute(Shaders)
      else if |segments| == 2 && segments[0] == "shaders" && segments[1] != "" then KnownRoute(ShaderPage(segments[1]))
      else UnknownRoute
  }

  /** The URL of a route, as links to it are written: an absolute path, and
      `/` only for `Home`. */
  function RouteUrl(r: Route): (u: string)
    ensures |u| > 0 && u[0] == '/'
    ensures u == "/" <==> r == Home
  {
    match r
    case Home => "/"
    case Shaders => "/shaders"
    case ShaderPage(title) => "/shaders/" + title
  }

  /** Every route is matched by its own URL, provided a page title is one
      non-empty path segment. */
  lemma ResolveRouteUrl(r: Route)
    requires r.ShaderPage? ==> r.title != "" && '/' !in r.title
    ensures Resolve(RouteUrl(r)) == KnownRoute(r)
  {
    match r
    case Home =>
      assert RouteUrl(r)[1..] == "";
    case Shaders =>
      assert RouteUrl(r)[1..] == "shaders";
      SplitNoSlash("shaders");
    case ShaderPage(title) =>
      assert RouteUrl(r)[1..] == "shaders" + "/" + title;
      SplitSlash("shaders", title);
      SplitNoSlash(title);
  }

  /** Joining the segments of a path with `/` gives the path back. */
  lemma {:induction false} JoinSplit(s: string)
    ensures Slugs.Join(Split(s), "/") == s
  {
    if s != [] {
      JoinSplit(s[1..]);
      var rest := Split(s[1..]);
      if s[0] == '/' {
        assert Split(s) == [""] + rest;
      } else {
        assert Split(s) == [[s[0]] + rest[0]] + rest[1..];
        if |rest| > 1 {
          assert rest == [rest[0]] + rest[1..];
        }
      }
      assert s == [s[0]] + s[1..];
    }
  }

  /** A path that reaches a route is that route's URL, and a page title it
      reaches is one non-empty segment. */
  lemma ResolvedIsRouteUrl(path: string)
    requires Resolve(path).KnownRoute?
    ensures path == RouteUrl(Resolve(path).route)
    ensures Resolve(path).route.ShaderPage? ==> Resolve(path).route.title != "" && '/' !in Resolve(path).route.title
  {
    var segments := Split(path[1..]);
    JoinSplit(path[1..]);
    assert path == "/" + path[1..];
    if segments == [""] {
      assert path[1..] == "";
    } else if segments == ["shaders"] {
      assert path[1..] == "shaders";
    } else {
      assert segments == [segments[0]] + [segments[1]];
      assert path[1..] == "shaders" + "/" + segments[1];
    }
  }

  /** A path reaches a route exactly when it is that route's URL, with a
      page title of one non-empty segment: no other path reaches it. */
  lemma ResolveExactly(path: string, r: Route)
    ensures Resolve(path) == KnownRoute(r) <==>
      path == RouteUrl(r) && (r.ShaderPage? ==> r.title != "" && '/' !in r.title)
  {
    if r.ShaderPage? ==> r.title != "" && '/' !in r.title {
      ResolveRouteUrl(r);
    }
    if Resolve(path) == KnownRoute(r) {
      ResolvedIsRouteUrl(path);
    }
  }

  // ------ Page content ------

  /** What the `main` element holds: a plain text, or a shader page content. */
  datatype MainContent = PlainText(text: string) | Content(page: Pages.Page)

  /** `page_content` of lib.rs: no child before the first route, "404" for an
      unknown URL, the gallery for `Home` and `Shaders`, and the shader page
      content of the title for `ShaderPage`. */
  function MainChild(r: RouteState): (c: Option<MainContent>)
    ensures c.None? <==> r.NoRoute?
    ensures r.UnknownRoute? ==> c == Some(PlainText("404"))
    ensures r.KnownRoute? && !r.route.ShaderPage? ==> c == Some(Content(Pages.Gallery(Pages.GalleryLinks())))
    ensures r.KnownRoute? && r.route.ShaderPage? ==> c == Some(Content(Pages.PageContent(Some(r.route.title))))
  {
    match r
    case NoRoute => None
    case UnknownRoute => Some(PlainText("404"))
    case KnownRoute(route) =>
      match route
      case Home => Some(Content(Pages.PageContent(None)))
      case Shaders => Some(Content(Pages.PageContent(None)))
      case ShaderPage(title) => Some(Content(Pages.PageContent(Some(title))))
  }

  /** Following a gallery link shows the page of that link's shader work. */
  lemma GalleryLinkShowsItsShader(s: Slugs.Slug)
    ensures MainChild(Resolve(Pages.LinkFor(s).to)) == Some(Content(Pages.ShaderPage(s)))
  {
    var title := Slugs.ToString(s);
    ResolveRouteUrl(ShaderPage(title));
    assert Pages.LinkFor(s).to == RouteUrl(ShaderPage(title));
    Pages.PageContentOfSlug(s);
  }
}
