/// `Slug` (frontend/src/shaders.rs): the closed set of shader works, their
/// kebab-case identifiers, the case conversions derived from them, and the
/// paths of their pages and thumbnails.
///
/// The case conversions are those of the `heck` crate restricted to
/// identifiers made of ASCII words that each start with one capital letter
/// followed by lower-case letters, which covers every variant.
module Slugs {

  import opened Options

  datatype Slug = HelloTriangle | HelloTriangleWithVertexBuffer | GlslsandboxExample

  /** The variants in declaration order, as `Slug::iter()` yields them. */
  const AllSlugs: seq<Slug> := [HelloTriangle, HelloTriangleWithVertexBuffer, GlslsandboxExample]

  lemma AllSlugsComplete()
    ensures forall s :: s in AllSlugs
  {
    forall s: Slug ensures s in AllSlugs {
      AllSlugsListsEachOnce(s);
    }
  }

  lemma AllSlugsListsEachOnce(s: Slug)
    ensures s in AllSlugs
    ensures forall i, j :: 0 <= i < j < |AllSlugs| ==> AllSlugs[i] != AllSlugs[j]
  {
    match s
    case HelloTriangle => assert AllSlugs[0] == s;
    case HelloTriangleWithVertexBuffer => assert AllSlugs[1] == s;
    case GlslsandboxExample => assert AllSlugs[2] == s;
  }

  // ------ ASCII letters ------

  predicate IsUpper(c: char)
  {
    'A' <= c <= 'Z'
  }

  predicate IsLower(c: char)
  {
    'a' <= c <= 'z'
  }

  predicate IsLetter(c: char)
  {
    IsUpper(c) || IsLower(c)
  }

  function Lower(c: char): (r: char)
    ensures IsUpper(c) ==> IsLower(r)
    ensures !IsUpper(c) ==> r == c
  {
    if IsUpper(c) then (c as int + 32) as char else c
  }

  function Upper(c: char): (r: char)
    ensures IsLower(c) ==> IsUpper(r)
    ensures !IsLower(c) ==> r == c
  {
    if IsLower(c) then (c as int - 32) as char else c
  }

  lemma UpperLower(c: char)
    requires IsUpper(c)
    ensures Upper(Lower(c)) == c
  {
  }

  /** `s` holds ASCII letters only. */
  predicate AllLetters(s: string)
  {
    forall i :: 0 <= i < |s| ==> IsLetter(s[i])
  }

  /** An identifier of words, each one capital letter followed by lower-case
      letters, such as `HelloTriangle`. */
  predicate IsCamelIdentifier(id: string)
  {
    && |id| > 0
    && IsUpper(id[0])
    && AllLetters(id)
    && (forall i :: 0 < i < |id| ==> IsUpper(id[i]) ==> IsLower(id[i - 1]))
  }

  /** One word of an identifier: a capital letter and at least one lower-case letter. */
  predicate IsWord(w: string)
  {
    |w| > 1 && IsUpper(w[0]) && forall i :: 1 <= i < |w| ==> IsLower(w[i])
  }

  function Concat(ws: seq<string>): (r: string)
    ensures ws != [] ==> |r| >= |ws[0]| && r[..|ws[0]|] == ws[0]
  {
    if ws == [] then [] else ws[0] + Concat(ws[1..])
  }

  /** The number of capital letters. */
  function Capitals(s: string): nat
  {
    if s == [] then 0 else (if IsUpper(s[0]) then 1 else 0) + Capitals(s[1..])
  }

  lemma {:induction false} CapitalsAppend(a: string, b: string)
    ensures Capitals(a + b) == Capitals(a) + Capitals(b)
  {
    if a != [] {
      assert (a + b)[1..] == a[1..] + b;
      CapitalsAppend(a[1..], b);
    } else {
      assert a + b == b;
    }
  }

  lemma {:induction false} CapitalsOfLower(s: string)
    requires forall i :: 0 <= i < |s| ==> IsLower(s[i])
    ensures Capitals(s) == 0
  {
    if s != [] {
      CapitalsOfLower(s[1..]);
    }
  }

  /** A word followed by an identifier is an identifier. */
  lemma WordThenIdentifier(a: string, b: string)
    requires IsWord(a) && IsCamelIdentifier(b)
    ensures IsCamelIdentifier(a + b)
  {
    var ab := a + b;
    forall i | 0 < i < |ab| ensures IsUpper(ab[i]) ==> IsLower(ab[i - 1]) {
      if i < |a| {
        assert ab[i] == a[i];
      } else if i == |a| {
        assert ab[i - 1] == a[|a| - 1];
      } else {
        assert ab[i] == b[i - |a|] && ab[i - 1] == b[i - 1 - |a|];
      }
    }
    forall i | 0 <= i < |ab| ensures IsLetter(ab[i]) {
      if i >= |a| {
        assert ab[i] == b[i - |a|];
      }
    }
  }

  /** Words written one after the other form an identifier that starts with
      the first word and has one capital letter per word. */
  lemma {:induction false} WordsIdentifier(ws: seq<string>)
    requires |ws| > 0
    requires forall i :: 0 <= i < |ws| ==> IsWord(ws[i])
    ensures IsCamelIdentifier(Concat(ws))
    ensures IsLower(Concat(ws)[|Concat(ws)| - 1])
    ensures Capitals(Concat(ws)) == |ws|
  {
    var a := ws[0];
    CapitalsOfLower(a[1..]);
    assert Capitals(a) == 1;
    if |ws| == 1 {
      assert Concat(ws) == a + [];
      assert a + [] == a;
      CapitalsAppend(a, []);
    } else {
      WordsIdentifier(ws[1..]);
      var b := Concat(ws[1..]);
      assert Concat(ws) == a + b;
      CapitalsAppend(a, b);
      WordThenIdentifier(a, b);
      assert (a + b)[|a + b| - 1] == b[|b| - 1];
    }
  }

  // ------ Variant names ------

  /** The words of each variant's identifier. */
  function VariantWords(s: Slug): (ws: seq<string>)
    ensures forall i :: 0 <= i < |ws| ==> IsWord(ws[i])
  {
    assert IsWord("Hello") && IsWord("Triangle");
    assert IsWord("With") && IsWord("Vertex") && IsWord("Buffer");
    assert IsWord("Glslsandbox") && IsWord("Example");
    match s
    case HelloTriangle => ["Hello", "Triangle"]
    case HelloTriangleWithVertexBuffer => ["Hello", "Triangle", "With", "Vertex", "Buffer"]
    case GlslsandboxExample => ["Glslsandbox", "Example"]
  }

  /** The variant's identifier as written in the `shader_mod!` invocation,
      which is also what `stringify!` yields in `run_shader`: its words
      written one after the other. */
  function VariantName(s: Slug): (id: string)
    ensures IsCamelIdentifier(id)
  {
    WordsIdentifier(VariantWords(s));
    Concat(VariantWords(s))
  }

  /** No two variants share an identifier. */
  lemma VariantNameInjective(a: Slug, b: Slug)
    requires VariantName(a) == VariantName(b)
    ensures a == b
  {
    WordsIdentifier(VariantWords(a));
    WordsIdentifier(VariantWords(b));
    var name := VariantName(a);
    assert name[0] == name[..|VariantWords(a)[0]|][0] == VariantWords(a)[0][0];
    assert name[0] == name[..|VariantWords(b)[0]|][0] == VariantWords(b)[0][0];
    assert Capitals(name) == |VariantWords(a)| == |VariantWords(b)|;
  }

  // ------ Case conversions ------

  /** Lower-case words joined by `sep`: `Delimited("HelloTriangle", '-')` is
      `"hello-triangle"` (kebab case), with `'_'` it is snake case. */
  function Delimited(id: string, sep: char): string
  {
    if id == [] then [] else [Lower(id[0])] + DelimitedTail(id[1..], sep)
  }

  function DelimitedTail(s: string, sep: char): string
  {
    if s == [] then []
    else (if IsUpper(s[0]) then [sep, Lower(s[0])] else [s[0]]) + DelimitedTail(s[1..], sep)
  }

  /** The words of a kebab-case string, capitalised and joined by `joiner`:
      `""` gives upper camel case, `" "` title case. */
  function Capitalized(k: string, joiner: string): string
  {
    if k == [] then [] else [Upper(k[0])] + CapitalizedTail(k[1..], joiner)
  }

  function CapitalizedTail(s: string, joiner: string): (r: string)
    decreases |s|
    ensures |joiner| <= 1 ==> |r| <= |s|
    ensures |joiner| == 1 ==> |r| == |s|
  {
    if s == [] then []
    else if s[0] == '-' && |s| >= 2 then joiner + [Upper(s[1])] + CapitalizedTail(s[2..], joiner)
    else [s[0]] + CapitalizedTail(s[1..], joiner)
  }

  /** heck's `to_kebab_case`: the kebab-case form of an identifier is
      non-empty and made of lower-case letters and dashes only. */
  function KebabCase(id: string): (k: string)
    ensures IsCamelIdentifier(id) ==> |k| > 0
    ensures IsCamelIdentifier(id) ==> forall i :: 0 <= i < |k| ==> IsLower(k[i]) || k[i] == '-'
  {
    if IsCamelIdentifier(id) then
      DelimitedTailLetters(id[1..], '-');
      Delimited(id, '-')
    else
      Delimited(id, '-')
  }

  /** heck's `to_upper_camel_case` of a kebab-case string: the first letter
      is capitalised and each dash before a letter is dropped. */
  function UpperCamelCase(k: string): (r: string)
    ensures |r| <= |k|
    ensures k != [] ==> |r| > 0 && r[0] == Upper(k[0])
  {
    Capitalized(k, "")
  }

  /** heck's `to_title_case` of a kebab-case string: each dash before a
      letter becomes a space, so the length is kept. */
  function TitleCase(k: string): (r: string)
    ensures |r| == |k|
    ensures k != [] ==> r[0] == Upper(k[0])
  {
    Capitalized(k, " ")
  }

  /** heck's `to_snake_case` of a lower-case kebab-case string. */
  function SnakeCase(k: string): (r: string)
    ensures |r| == |k|
  {
    if k == [] then [] else [if k[0] == '-' then '_' else k[0]] + SnakeCase(k[1..])
  }

  /** The identifier with `joiner` written before each capital letter but
      the first: `Spaced("HelloTriangle", " ")` is `"Hello Triangle"`. */
  function Spaced(id: string, joiner: string): string
  {
    if id == [] then [] else [id[0]] + SpacedTail(id[1..], joiner)
  }

  function SpacedTail(s: string, joiner: string): string
  {
    if s == [] then []
    else (if IsUpper(s[0]) then joiner + [s[0]] else [s[0]]) + SpacedTail(s[1..], joiner)
  }

  lemma {:induction false} CapitalizedDelimitedTail(s: string, joiner: string)
    requires AllLetters(s)
    ensures CapitalizedTail(DelimitedTail(s, '-'), joiner) == SpacedTail(s, joiner)
  {
    if s != [] {
      CapitalizedDelimitedTail(s[1..], joiner);
      var rest := DelimitedTail(s[1..], '-');
      if IsUpper(s[0]) {
        assert DelimitedTail(s, '-') == ['-', Lower(s[0])] + rest;
        assert (['-', Lower(s[0])] + rest)[2..] == rest;
        UpperLower(s[0]);
      } else {
        assert DelimitedTail(s, '-') == [s[0]] + rest;
        assert ([s[0]] + rest)[1..] == rest;
      }
    }
  }

  lemma {:induction false} SpacedTailNoJoiner(s: string)
    ensures SpacedTail(s, "") == s
  {
    if s != [] {
      SpacedTailNoJoiner(s[1..]);
      assert s == [s[0]] + s[1..];
    }
  }

  /** Converting an identifier to kebab case and back capitalises each word
      again and writes `joiner` between the words. */
  lemma CapitalizedKebab(id: string, joiner: string)
    requires IsCamelIdentifier(id)
    ensures Capitalized(KebabCase(id), joiner) == Spaced(id, joiner)
  {
    var rest := DelimitedTail(id[1..], '-');
    assert KebabCase(id) == [Lower(id[0])] + rest;
    assert ([Lower(id[0])] + rest)[1..] == rest;
    UpperLower(id[0]);
    CapitalizedDelimitedTail(id[1..], joiner);
  }

  /** Upper camel case undoes kebab case: converting an identifier to kebab
      case and back gives the identifier. */
  lemma CamelKebabRoundTrip(id: string)
    requires IsCamelIdentifier(id)
    ensures UpperCamelCase(KebabCase(id)) == id
  {
    CapitalizedKebab(id, "");
    SpacedTailNoJoiner(id[1..]);
    assert id == [id[0]] + id[1..];
  }

  /** The words separated by `sep`. */
  function Join(ws: seq<string>, sep: string): string
  {
    if ws == [] then [] else if |ws| == 1 then ws[0] else ws[0] + sep + Join(ws[1..], sep)
  }

  lemma {:induction false} SpacedTailAppend(a: string, b: string, joiner: string)
    ensures SpacedTail(a + b, joiner) == SpacedTail(a, joiner) + SpacedTail(b, joiner)
  {
    if a == [] {
      assert a + b == b;
    } else {
      assert (a + b)[1..] == a[1..] + b;
      SpacedTailAppend(a[1..], b, joiner);
    }
  }

  lemma {:induction false} SpacedTailLower(s: string, joiner: string)
    requires forall i :: 0 <= i < |s| ==> IsLower(s[i])
    ensures SpacedTail(s, joiner) == s
  {
    if s != [] {
      SpacedTailLower(s[1..], joiner);
      assert s == [s[0]] + s[1..];
    }
  }

  lemma SpacedTailCapital(b: string, joiner: string)
    requires |b| > 0 && IsUpper(b[0])
    ensures SpacedTail(b, joiner) == joiner + Spaced(b, joiner)
  {
  }

  /** Spacing out words written one after the other separates them by the joiner. */
  lemma {:induction false} SpacedWords(ws: seq<string>, joiner: string)
    requires |ws| > 0
    requires forall i :: 0 <= i < |ws| ==> IsWord(ws[i])
    ensures Spaced(Concat(ws), joiner) == Join(ws, joiner)
  {
    var a := ws[0];
    SpacedTailLower(a[1..], joiner);
    assert a == [a[0]] + a[1..];
    if |ws| == 1 {
      assert Concat(ws) == a + [];
      assert a + [] == a;
    } else {
      var b := Concat(ws[1..]);
      SpacedWords(ws[1..], joiner);
      assert b[0] == ws[1][0];
      SpacedTailCapital(b, joiner);
      calc {
        Spaced(Concat(ws), joiner);
        { assert Concat(ws) == a + b; }
        Spaced(a + b, joiner);
        { assert (a + b)[1..] == a[1..] + b; }
        [a[0]] + SpacedTail(a[1..] + b, joiner);
        { SpacedTailAppend(a[1..], b, joiner); }
        [a[0]] + a[1..] + SpacedTail(b, joiner);
        a + joiner + Join(ws[1..], joiner);
      }
    }
  }

  lemma {:induction false} SnakeOfDelimitedTail(s: string)
    requires AllLetters(s)
    ensures SnakeCase(DelimitedTail(s, '-')) == DelimitedTail(s, '_')
  {
    if s != [] {
      SnakeOfDelimitedTail(s[1..]);
      var rest := DelimitedTail(s[1..], '-');
      if IsUpper(s[0]) {
        assert DelimitedTail(s, '-') == ['-', Lower(s[0])] + rest;
        assert (['-', Lower(s[0])] + rest)[1..] == [Lower(s[0])] + rest;
        assert ([Lower(s[0])] + rest)[1..] == rest;
      } else {
        assert DelimitedTail(s, '-') == [s[0]] + rest;
        assert ([s[0]] + rest)[1..] == rest;
      }
    }
  }

  /** Snake case of the kebab-case form is the snake case of the identifier. */
  lemma SnakeOfKebab(id: string)
    requires IsCamelIdentifier(id)
    ensures SnakeCase(KebabCase(id)) == Delimited(id, '_')
  {
    var rest := DelimitedTail(id[1..], '-');
    assert KebabCase(id) == [Lower(id[0])] + rest;
    assert ([Lower(id[0])] + rest)[1..] == rest;
    SnakeOfDelimitedTail(id[1..]);
  }

  lemma {:induction false} DelimitedTailLetters(s: string, sep: char)
    requires AllLetters(s)
    ensures forall i :: 0 <= i < |DelimitedTail(s, sep)| ==>
      IsLower(DelimitedTail(s, sep)[i]) || DelimitedTail(s, sep)[i] == sep
  {
    if s != [] {
      DelimitedTailLetters(s[1..], sep);
    }
  }

  // ------ Serialisation, parsing and derived names ------

  /** `slug.to_string()`: strum's `Display` with `serialize_all = "kebab-case"`.
      A slug's string is one non-empty path segment of lower-case letters
      and dashes. */
  function ToString(s: Slug): (r: string)
    ensures r != []
    ensures forall i :: 0 <= i < |r| ==> IsLower(r[i]) || r[i] == '-'
    ensures '/' !in r
  {
    KebabCase(VariantName(s))
  }

  /** Distinct slugs serialise to distinct strings. */
  lemma ToStringInjective(a: Slug, b: Slug)
    requires ToString(a) == ToString(b)
    ensures a == b
  {
    CamelKebabRoundTrip(VariantName(a));
    CamelKebabRoundTrip(VariantName(b));
    VariantNameInjective(a, b);
  }

  /** The first of `slugs` whose name under `name` is `str`. */
  function FindByName(str: string, slugs: seq<Slug>, name: Slug -> string): (r: Option<Slug>)
    ensures r.Some? ==> r.value in slugs && name(r.value) == str
    ensures r.None? ==> forall s :: s in slugs ==> name(s) != str
  {
    if slugs == [] then None
    else if name(slugs[0]) == str then Some(slugs[0])
    else FindByName(str, slugs[1..], name)
  }

  /** `Slug::from_str`: strum's `EnumString` tries the serialised form of
      each variant in turn; `None` stands for its parse error. */
  function Parse(str: string): (r: Option<Slug>)
    ensures r.Some? ==> ToString(r.value) == str
    ensures r.None? ==> forall s :: ToString(s) != str
  {
    AllSlugsComplete();
    FindByName(str, AllSlugs, ToString)
  }

  /** Parsing a slug's string gives the slug back. */
  lemma ParseToString(s: Slug)
    ensures Parse(ToString(s)) == Some(s)
  {
    ToStringInjective(Parse(ToString(s)).value, s);
  }

  /** The match arms of `run_shader`, one per variant in declaration order:
      a name equal to a variant's identifier selects that variant's shader
      work; any other name falls into `unreachable!()`, here `None`. */
  function DispatchName(name: string): (r: Option<Slug>)
    ensures r.Some? ==> VariantName(r.value) == name
    ensures r.None? ==> forall s :: VariantName(s) != name
  {
    AllSlugsComplete();
    FindByName(name, AllSlugs, VariantName)
  }

  /** `run_shader` recovers the variant from its serialised form: the upper
      camel case of the slug's string selects the slug's own shader work,
      so the `unreachable!()` arm is never taken. */
  lemma DispatchReachesOwnWork(s: Slug)
    ensures DispatchName(UpperCamelCase(ToString(s))) == Some(s)
  {
    CamelKebabRoundTrip(VariantName(s));
    var r := DispatchName(VariantName(s));
    VariantNameInjective(r.value, s);
  }

  /** `Slug::title`: the words of the variant separated by single spaces. */
  function Title(s: Slug): (t: string)
    ensures t == Join(VariantWords(s), " ")
  {
    CapitalizedKebab(VariantName(s), " ");
    SpacedWords(VariantWords(s), " ");
    TitleCase(ToString(s))
  }

  const ShadersPath := "/shaders/"

  /** `Slug::page_url`: `/shaders/` followed by one non-empty path segment
      that parses back to the slug. */
  function PageUrl(s: Slug): (u: string)
    ensures |u| > |ShadersPath|
    ensures u[..|ShadersPath|] == ShadersPath
    ensures '/' !in u[|ShadersPath|..]
    ensures Parse(u[|ShadersPath|..]) == Some(s)
  {
    var u := ShadersPath + ToString(s);
    assert u[|ShadersPath|..] == ToString(s);
    ParseToString(s);
    u
  }

  /** A path under the site's public directory, as zoon's `public_url` builds it. */
  datatype PublicUrl = PublicUrl(path: string)

  /** `Slug::thumbnail_url`: the thumbnail is named after the shader work's
      module, `shaders/thumbnail/<module>.webp`. */
  function ThumbnailUrl(s: Slug): (u: PublicUrl)
    ensures u == PublicUrl("shaders/thumbnail/" + ModuleName(s) + ".webp")
  {
    SnakeOfKebab(VariantName(s));
    PublicUrl("shaders/thumbnail/" + SnakeCase(ToString(s)) + ".webp")
  }

  /** The name of the slug's shader work module, `[< $slug:snake >]`. */
  function ModuleName(s: Slug): string
  {
    Delimited(VariantName(s), '_')
  }
}
