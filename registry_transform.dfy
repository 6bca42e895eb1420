/**
 * packages/fractal-registry/src/transform.ts: the registry's own compilation of a fractal
 * source. The source must open with the directive; the directive is cut off, the styles
 * are pulled out of the code by four global regular-expression replacements, and the rest
 * is compiled by esbuild. esbuild and `Math.random` are parameters.
 */
module RegistryTransform {
  import opened Wrappers
  import opened JsStrings
  import opened RegexReplace

  /** What `transformFractal` resolves to. */
  datatype Compiled = Compiled(code: string, styles: Option<string>)

  /** What `extractStyles` returns: the code left over and the collected styles (`null` when empty). */
  datatype Extracted = Extracted(code: string, styles: Option<string>)

  const MissingDirective: string := "Missing fractal directive"

  /**
   * `/^["']use fractal["'];?\s*\n?/`: the length of the directive match at the start of the
   * text, or `None`. Either quote opens and either closes; the semicolon is optional; the
   * greedy `\s*` takes every following whitespace character, line breaks included, so `\n?`
   * never adds anything.
   */
  function DirectiveLength(s: string): (n: Option<nat>)
    ensures n.Some? ==> 13 <= n.value <= |s|
  {
    if |s| >= 13 && IsQuote(s[0]) && s[1..12] == "use fractal" && IsQuote(s[12]) then
      var q := if |s| > 13 && s[13] == ';' then 14 else 13;
      Some(q + SpaceRun(s, q))
    else None
  }

  /**
   * The directive and the whitespace after it, exactly: quote, `use fractal`, quote, an
   * optional semicolon, then whitespace up to the first character that is not.
   */
  lemma {:induction false} DirectiveLengthSpec(s: string)
    ensures var n := DirectiveLength(s);
            && (n.Some? <==> |s| >= 13 && IsQuote(s[0]) && s[1..12] == "use fractal" && IsQuote(s[12]))
            && (n.Some? ==> var q := if |s| > 13 && s[13] == ';' then 14 else 13;
                            && q <= n.value
                            && (forall k :: q <= k < n.value ==> IsSpace(s[k]))
                            && (n.value == |s| || !IsSpace(s[n.value])))
  {
    if DirectiveLength(s).Some? {
      SpaceRunSpec(s, if |s| > 13 && s[13] == ';' then 14 else 13);
    }
  }

  /** The directive opened and closed by either quote character, with anything after it. */
  function Directive(open: char, close: char): string {
    [open] + "use fractal" + [close]
  }

  /** `'use fractal'` and `"use fractal"`, and the mixed forms, all pass the test. */
  lemma {:induction false} EitherQuoteAccepted(open: char, close: char, rest: string)
    requires IsQuote(open) && IsQuote(close)
    ensures DirectiveLength(Directive(open, close) + rest).Some?
  {
    var s := Directive(open, close) + rest;
    assert s[1..12] == "use fractal";
  }

  /** The directive must be the very first thing: a source opening with whitespace is refused. */
  lemma {:induction false} LeadingWhitespaceRejected(s: string)
    requires s != [] && IsSpace(s[0])
    ensures DirectiveLength(s).None?
  {
  }

  // What ends the negated character classes of the style patterns.
  const Gt: set<char> := {'>'}
  const Lt: set<char> := {'<'}
  const Backtick: set<char> := {'`'}
  const Quotes: set<char> := {'"', '\''}

  /**
   * `/<style[^>]*>\{`([^`]+)`\}<\/style>/gi` at the start of `t`: a style element whose body
   * is a template literal in braces; the group is the literal's text.
   */
  function TemplateStyle(t: string): (m: Option<Hit<string>>)
    ensures m.Some? ==> 0 < m.value.end <= |t|
  {
    if !LiteralAtIgnoreCase(t, 0, "<style") then None
    else
      var g := 6 + RunUntil(t, 6, Gt);
      if g + 3 <= |t| && t[g] == '>' && t[g + 1] == '{' && t[g + 2] == '`' then
        var e := g + 3 + RunUntil(t, g + 3, Backtick);
        if e > g + 3 && LiteralAtIgnoreCase(t, e, "`}</style>") then Some(Hit(e + 10, t[g + 3..e])) else None
      else None
  }

  /** `/<style[^>]*>([^<]+)<\/style>/gi` at the start of `t`: a style element with a plain text body. */
  function PlainStyle(t: string): (m: Option<Hit<string>>)
    ensures m.Some? ==> 0 < m.value.end <= |t|
  {
    if !LiteralAtIgnoreCase(t, 0, "<style") then None
    else
      var g := 6 + RunUntil(t, 6, Gt);
      if g < |t| && t[g] == '>' then
        var e := g + 1 + RunUntil(t, g + 1, Lt);
        if e > g + 1 && LiteralAtIgnoreCase(t, e, "</style>") then Some(Hit(e + 8, t[g + 1..e])) else None
      else None
  }

  /**
   * `import\s+['"][^'"]+\.css['"]\s*;?\s*` at the start of `t`: a side-effect import of a
   * stylesheet, with the whitespace and semicolon after it. The module name runs to the first
   * quote after the opening one and must end in `.css` with at least one character before it.
   */
  function CssImport(t: string): (m: Option<Hit<()>>)
    ensures m.Some? ==> 0 < m.value.end <= |t|
  {
    if !LiteralAt(t, 0, "import") then None
    else
      var q := 6 + SpaceRun(t, 6);
      if q == 6 || q >= |t| || !IsQuote(t[q]) then None
      else
        var c := q + 1 + RunUntil(t, q + 1, Quotes);
        if c >= q + 6 && c < |t| && LiteralAt(t, c - 4, ".css") then
          var e := c + 1 + SpaceRun(t, c + 1);
          var e' := if e < |t| && t[e] == ';' then e + 1 else e;
          Some(Hit(e' + SpaceRun(t, e'), ()))
        else None
  }

  /**
   * `/styled\.(\w+)`([^`]+)`/g` at the start of `t`: a styled-components tagged template; the
   * groups are the tag and the template's text.
   */
  function Styled(t: string): (m: Option<Hit<(string, string)>>)
    ensures m.Some? ==> 0 < m.value.end <= |t|
  {
    if !LiteralAt(t, 0, "styled.") then None
    else
      var b := 7 + WordRun(t, 7);
      if b == 7 || b >= |t| || t[b] != '`' then None
      else
        var e := b + 1 + RunUntil(t, b + 1, Backtick);
        if e > b + 1 && e < |t| then Some(Hit(e + 1, (t[7..b], t[b + 1..e]))) else None
  }

  // The four patterns, tried at each position of the text by the global replacement.
  function TemplateStyleAt(s: string, p: nat): Option<Hit<string>> { Anchored(TemplateStyle, s, p) }
  function PlainStyleAt(s: string, p: nat): Option<Hit<string>> { Anchored(PlainStyle, s, p) }
  function CssImportAt(s: string, p: nat): Option<Hit<()>> { Anchored(CssImport, s, p) }
  function StyledAt(s: string, p: nat): Option<Hit<(string, string)>> { Anchored(Styled, s, p) }

  /** The style-element callback: the element goes, its trimmed text joins the styles. */
  function CollectCss(k: nat, css: string): Replaced {
    Replaced("", Trim(css) + "\n")
  }

  /** The import callback: the import goes. */
  function DropImport(k: nat, u: ()): Replaced {
    Replaced("", "")
  }

  /** `f-<id>-<random>`, the class given to the `k`-th styled component. */
  function ClassName(id: string, random: nat -> string, k: nat): (cls: string)
    ensures StartsWith(cls, "f-" + id + "-")
  {
    "f-" + id + "-" + random(k)
  }

  /**
   * The styled-component callback: the tagged template becomes a component rendering the tag
   * with a fresh class, and a rule for that class joins the styles.
   */
  function StyledComponent(id: string, random: nat -> string, k: nat, g: (string, string)): Replaced {
    var cls := ClassName(id, random, k);
    Replaced("props => React.createElement('" + g.0 + "', { ...props, className: '" + cls + "' })",
             "." + cls + " { " + Trim(g.1) + " }\n")
  }

  /** `styles.trim() || null`. */
  function StylesOf(collected: string): (r: Option<string>)
    ensures r.None? <==> Trim(collected) == ""
    ensures r.Some? ==> r.value == Trim(collected)
  {
    var t := Trim(collected);
    if t == "" then None else Some(t)
  }

  /**
   * `extractStyles(source, id)`: template style elements, then plain style elements, then CSS
   * imports, then styled components; what the callbacks collected, in that order, are the styles.
   */
  function ExtractStyles(source: string, id: string, random: nat -> string): Extracted {
    var t := ReplaceAll(TemplateStyleAt, source, CollectCss);
    var p := ReplaceAll(PlainStyleAt, t.out, CollectCss);
    var i := ReplaceAll(CssImportAt, p.out, DropImport);
    var st := ReplaceAll(StyledAt, i.out, (k, g) => StyledComponent(id, random, k, g));
    Extracted(Trim(st.out), StylesOf(t.extra + p.extra + st.extra))
  }

  /**
   * `transformFractal(source, id)`: refused without the directive; otherwise the directive is
   * cut off, the styles extracted, and the remaining code compiled (`esbuild` rejecting is
   * passed on).
   */
  function TransformFractal(source: string, id: string, esbuild: string -> Result<string>,
                            random: nat -> string): (r: Result<Compiled>)
    ensures DirectiveLength(source).None? ==> r == Err(MissingDirective)
    ensures DirectiveLength(source).Some? ==>
              var ex := ExtractStyles(source[DirectiveLength(source).value..], id, random);
              && (r.Ok? <==> esbuild(ex.code).Ok?)
              && (r.Ok? ==> r.value == Compiled(esbuild(ex.code).value, ex.styles))
  {
    match DirectiveLength(source)
    case None => Err(MissingDirective)
    case Some(n) =>
      var ex := ExtractStyles(source[n..], id, random);
      match esbuild(ex.code)
      case Err(e) => Err(e)
      case Ok(code) => Ok(Compiled(code, ex.styles))
  }

  /** A style element whose body is a template literal in braces. */
  function TemplateBlock(attrs: string, css: string): string {
    "<style" + attrs + ">{`" + css + "`}</style>"
  }

  /** A style element with a plain text body. */
  function PlainBlock(attrs: string, css: string): string {
    "<style" + attrs + ">" + css + "</style>"
  }

  /** Attributes and a body the template pattern matches in full. */
  predicate TemplateParts(attrs: string, css: string) {
    '>' !in attrs && '<' !in attrs && css != [] && '`' !in css
  }

  /** Attributes and a body the plain pattern matches in full. */
  predicate PlainParts(attrs: string, css: string) {
    '>' !in attrs && '<' !in attrs && css != [] && '<' !in css
  }

  /** Neither style pattern matches where no `<` is, nor at a closing tag's `</`. */
  lemma {:induction false} NoStyleAt(s: string, j: nat)
    requires j <= |s|
    requires j == |s| || s[j] != '<' || (j + 1 < |s| && s[j + 1] == '/')
    ensures TemplateStyleAt(s, j).None? && PlainStyleAt(s, j).None?
  {
    var t := s[j..];
    if j < |s| {
      if s[j] != '<' {
        assert ToUpperChar(t[0 + 0]) != ToUpperChar("<style"[0]);
      } else {
        assert ToUpperChar(t[0 + 1]) != ToUpperChar("<style"[1]);
      }
    }
  }

  /** A literal placed between two texts is found there, up to case. */
  lemma {:induction false} LiteralFirst(x: string, lit: string, y: string)
    ensures LiteralAtIgnoreCase(x + (lit + y), |x|, lit)
  {
    var s := x + (lit + y);
    assert forall k :: 0 <= k < |lit| ==> s[|x| + k] == lit[k];
  }

  /** A run of characters outside `stop` ends where the next part starts with one in `stop`. */
  lemma {:induction false} RunUntilFirst(x: string, w: string, y: string, stop: set<char>)
    requires forall k :: 0 <= k < |w| ==> w[k] !in stop
    requires y == [] || y[0] in stop
    ensures RunUntil(x + (w + y), |x|, stop) == |w|
  {
    var s := x + (w + y);
    assert forall k :: 0 <= k < |w| ==> s[|x| + k] == w[k];
    RunUntilExact(s, |x|, |w|, stop);
  }

  /** The template pattern's match, from where its parts are: `>` at `g`, the closing at `e`. */
  lemma {:induction false} TemplateStyleFound(t: string, g: nat, e: nat, len: nat, css: string)
    requires 6 <= g && g + 3 < e <= |t| && len == e + 10 && css == t[g + 3..e]
    requires LiteralAtIgnoreCase(t, 0, "<style") && RunUntil(t, 6, Gt) == g - 6
    requires t[g] == '>' && t[g + 1] == '{' && t[g + 2] == '`'
    requires RunUntil(t, g + 3, Backtick) == e - g - 3
    requires LiteralAtIgnoreCase(t, e, "`}</style>")
    ensures TemplateStyle(t) == Some(Hit(len, css))
  {
  }

  /** The plain pattern's match, from where its parts are: `>` at `g`, the closing at `e`. */
  lemma {:induction false} PlainStyleFound(t: string, g: nat, e: nat, len: nat, css: string)
    requires 6 <= g && g + 1 < e <= |t| && len == e + 8 && css == t[g + 1..e]
    requires LiteralAtIgnoreCase(t, 0, "<style") && RunUntil(t, 6, Gt) == g - 6
    requires t[g] == '>'
    requires RunUntil(t, g + 1, Lt) == e - g - 1
    requires LiteralAtIgnoreCase(t, e, "</style>")
    ensures PlainStyle(t) == Some(Hit(len, css))
  {
  }

  /** How a style element opens: `<style`, attributes without `>`, then `>`. */
  lemma {:induction false} OpeningOfBlock(attrs: string, rest: string)
    requires '>' !in attrs && rest != [] && rest[0] == '>'
    ensures LiteralAtIgnoreCase("<style" + attrs + rest, 0, "<style")
    ensures RunUntil("<style" + attrs + rest, 6, Gt) == |attrs|
  {
    var t := "<style" + attrs + rest;
    assert forall k :: 0 <= k < 6 ==> t[k] == "<style"[k];
    assert forall k :: 6 <= k < 6 + |attrs| ==> t[k] == attrs[k - 6];
    assert t[6 + |attrs|] == rest[0];
    RunUntilExact(t, 6, |attrs|, Gt);
  }

  /** How a style element's body ends: the body without a `stop` character, then the closing tag. */
  lemma {:induction false} BodyOfBlock(head: string, css: string, close: string, b: string, stop: set<char>)
    requires forall k :: 0 <= k < |css| ==> css[k] !in stop
    requires close != [] && close[0] in stop
    ensures RunUntil(head + css + close + b, |head|, stop) == |css|
    ensures LiteralAtIgnoreCase(head + css + close + b, |head| + |css|, close)
    ensures (head + css + close + b)[|head|..|head| + |css|] == css
  {
    var t := head + css + close + b;
    assert forall k :: |head| <= k < |head| + |css| ==> t[k] == css[k - |head|];
    assert forall k :: 0 <= k < |close| ==> t[|head| + |css| + k] == close[k];
    assert t[|head| + |css|] == close[0];
    RunUntilExact(t, |head|, |css|, stop);
    var body := t[|head|..|head| + |css|];
    assert forall k :: 0 <= k < |css| ==> body[k] == css[k];
  }

  /** Where the template pattern's parts lie in a template block followed by any text. */
  lemma {:induction false} TemplateBlockParts(attrs: string, css: string, b: string, t: string, g: nat, e: nat, len: nat)
    requires TemplateParts(attrs, css) && t == TemplateBlock(attrs, css) + b
    requires g == 6 + |attrs| && e == g + 3 + |css| && len == |TemplateBlock(attrs, css)|
    ensures 6 <= g && g + 3 < e <= |t| && len == e + 10 && css == t[g + 3..e]
    ensures LiteralAtIgnoreCase(t, 0, "<style") && RunUntil(t, 6, Gt) == g - 6
    ensures t[g] == '>' && t[g + 1] == '{' && t[g + 2] == '`'
    ensures RunUntil(t, g + 3, Backtick) == e - g - 3
    ensures LiteralAtIgnoreCase(t, e, "`}</style>")
  {
    TemplateOpening(attrs, css, b, t);
    TemplateBody(attrs, css, b, t);
  }

  lemma {:induction false} TemplateOpening(attrs: string, css: string, b: string, t: string)
    requires '>' !in attrs && t == TemplateBlock(attrs, css) + b
    ensures LiteralAtIgnoreCase(t, 0, "<style") && RunUntil(t, 6, Gt) == |attrs|
    ensures t[6 + |attrs|] == '>' && t[7 + |attrs|] == '{' && t[8 + |attrs|] == '`'
  {
    var rest := ">{`" + css + "`}</style>" + b;
    assert t == "<style" + attrs + rest;
    OpeningOfBlock(attrs, rest);
    assert t[6 + |attrs|..9 + |attrs|] == rest[..3] == ">{`";
  }

  lemma {:induction false} TemplateBody(attrs: string, css: string, b: string, t: string)
    requires '`' !in css && t == TemplateBlock(attrs, css) + b
    ensures RunUntil(t, 9 + |attrs|, Backtick) == |css|
    ensures LiteralAtIgnoreCase(t, 9 + |attrs| + |css|, "`}</style>")
    ensures t[9 + |attrs|..9 + |attrs| + |css|] == css
  {
    var head := "<style" + attrs + ">{`";
    assert t == head + css + "`}</style>" + b;
    BodyOfBlock(head, css, "`}</style>", b, Backtick);
  }

  /** The template pattern matches a template block in full, capturing its body. */
  lemma {:induction false} TemplateOfBlock(attrs: string, css: string, b: string)
    requires TemplateParts(attrs, css)
    ensures TemplateStyle(TemplateBlock(attrs, css) + b) == Some(Hit(|TemplateBlock(attrs, css)|, css))
  {
    var t, g, len := TemplateBlock(attrs, css) + b, 6 + |attrs|, |TemplateBlock(attrs, css)|;
    TemplateBlockParts(attrs, css, b, t, g, g + 3 + |css|, len);
    TemplateStyleFound(t, g, g + 3 + |css|, len, css);
  }

  /** Where the plain pattern's parts lie in a plain block followed by any text. */
  lemma {:induction false} PlainBlockParts(attrs: string, css: string, b: string, t: string, g: nat, e: nat, len: nat)
    requires PlainParts(attrs, css) && t == PlainBlock(attrs, css) + b
    requires g == 6 + |attrs| && e == g + 1 + |css| && len == |PlainBlock(attrs, css)|
    ensures 6 <= g && g + 1 < e <= |t| && len == e + 8 && css == t[g + 1..e]
    ensures LiteralAtIgnoreCase(t, 0, "<style") && RunUntil(t, 6, Gt) == g - 6
    ensures t[g] == '>'
    ensures RunUntil(t, g + 1, Lt) == e - g - 1
    ensures LiteralAtIgnoreCase(t, e, "</style>")
  {
    var head := "<style" + attrs + ">";
    assert LiteralAtIgnoreCase(t, 0, "<style") && RunUntil(t, 6, Gt) == |attrs| by {
      assert t == "<style" + attrs + (">" + css + "</style>" + b);
      OpeningOfBlock(attrs, ">" + css + "</style>" + b);
    }
    assert t[g] == '>';
    assert t == head + css + "</style>" + b;
    BodyOfBlock(head, css, "</style>", b, Lt);
  }

  /** The plain pattern matches a plain block in full, capturing its body. */
  lemma {:induction false} PlainOfBlock(attrs: string, css: string, b: string)
    requires PlainParts(attrs, css)
    ensures PlainStyle(PlainBlock(attrs, css) + b) == Some(Hit(|PlainBlock(attrs, css)|, css))
  {
    var t, g, len := PlainBlock(attrs, css) + b, 6 + |attrs|, |PlainBlock(attrs, css)|;
    PlainBlockParts(attrs, css, b, t, g, g + 1 + |css|, len);
    PlainStyleFound(t, g, g + 1 + |css|, len, css);
  }

  /** The template pattern, at a template block's position, matches the whole block. */
  lemma {:induction false} TemplateAtBlock(a: string, attrs: string, css: string, b: string)
    requires TemplateParts(attrs, css)
    ensures TemplateStyleAt(a + TemplateBlock(attrs, css) + b, |a|) == Some(Hit(|a| + |TemplateBlock(attrs, css)|, css))
  {
    assert (a + TemplateBlock(attrs, css) + b)[|a|..] == TemplateBlock(attrs, css) + b;
    TemplateOfBlock(attrs, css, b);
  }

  /** The plain pattern, at a plain block's position, matches the whole block. */
  lemma {:induction false} PlainAtBlock(a: string, attrs: string, css: string, b: string)
    requires PlainParts(attrs, css)
    ensures PlainStyleAt(a + PlainBlock(attrs, css) + b, |a|) == Some(Hit(|a| + |PlainBlock(attrs, css)|, css))
  {
    assert (a + PlainBlock(attrs, css) + b)[|a|..] == PlainBlock(attrs, css) + b;
    PlainOfBlock(attrs, css, b);
  }

  /** A plain block whose body does not open with `{` is no template block. */
  lemma {:induction false} TemplateNotAtPlain(a: string, attrs: string, css: string, b: string)
    requires PlainParts(attrs, css) && css[0] != '{'
    ensures TemplateStyleAt(a + PlainBlock(attrs, css) + b, |a|).None?
  {
    var t := PlainBlock(attrs, css) + b;
    assert (a + PlainBlock(attrs, css) + b)[|a|..] == t;
    assert t == "<style" + (attrs + (">" + css + "</style>" + b));
    RunUntilFirst("<style", attrs, ">" + css + "</style>" + b, Gt);
    assert t[6 + |attrs| + 1] == css[0];
  }

  /** Inside a plain block the only `<` other than the first opens its closing tag. */
  lemma {:induction false} PlainBlockInside(attrs: string, css: string, i: nat)
    requires PlainParts(attrs, css)
    requires 0 < i < |PlainBlock(attrs, css)| && PlainBlock(attrs, css)[i] == '<'
    ensures i + 1 < |PlainBlock(attrs, css)| && PlainBlock(attrs, css)[i + 1] == '/'
  {
    var blk := PlainBlock(attrs, css);
    var g := 6 + |attrs|;
    assert forall k :: 0 <= k < |attrs| ==> blk[6 + k] == attrs[k];
    assert forall k :: 0 <= k < |css| ==> blk[g + 1 + k] == css[k];
    assert forall k :: 0 < k < 6 ==> blk[k] != '<';
    assert blk[g] == '>' && blk[g + 1 + |css| + 1] == '/';
  }

  /** Neither style pattern matches anywhere in a stretch without `<`, nor at the end of the text. */
  lemma {:induction false} NoStyleWhere(s: string, lo: nat, hi: nat)
    requires lo <= hi <= |s|
    requires forall j :: lo <= j < hi ==> s[j] != '<'
    ensures forall j :: lo <= j < hi ==> TemplateStyleAt(s, j).None? && PlainStyleAt(s, j).None?
    ensures hi == |s| ==> forall j :: lo <= j <= hi ==> TemplateStyleAt(s, j).None? && PlainStyleAt(s, j).None?
  {
    forall j | lo <= j <= hi && (j < hi || hi == |s|)
      ensures TemplateStyleAt(s, j).None? && PlainStyleAt(s, j).None?
    {
      NoStyleAt(s, j);
    }
  }

  /** The characters of a part without `<` are not `<` in the whole text either. */
  lemma {:induction false} NoLtIn(s: string, x: string, y: string, z: string)
    requires s == x + y + z && '<' !in y
    ensures forall j :: |x| <= j < |x| + |y| ==> s[j] != '<'
  {
    forall j | |x| <= j < |x| + |y|
      ensures s[j] != '<'
    {
      assert s[j] == y[j - |x|];
    }
  }

  /** The pieces around a part are what comes before and after it. */
  lemma {:induction false} AroundPart(s: string, x: string, y: string, z: string)
    requires s == x + y + z
    ensures s[..|x|] == x && s[|x| + |y|..] == z
  {
  }

  /**
   * The template pattern matches nowhere from the start of the text to the end of a plain
   * block whose body does not open with `{`, when no `<` comes before the block.
   */
  lemma {:induction false} NoTemplateThroughPlain(s: string, a: string, attrs: string, css: string, rest: string)
    requires PlainParts(attrs, css) && css[0] != '{' && '<' !in a
    requires s == a + PlainBlock(attrs, css) + rest
    ensures forall j :: 0 <= j < |a| + |PlainBlock(attrs, css)| ==> TemplateStyleAt(s, j).None?
  {
    var pb := PlainBlock(attrs, css);
    NoLtIn(s, [], a, pb + rest);
    NoStyleWhere(s, 0, |a|);
    TemplateNotAtPlain(a, attrs, css, rest);
    forall j | |a| < j < |a| + |pb|
      ensures TemplateStyleAt(s, j).None?
    {
      assert s[j] == pb[j - |a|];
      if pb[j - |a|] == '<' {
        PlainBlockInside(attrs, css, j - |a|);
        assert s[j + 1] == pb[j + 1 - |a|];
      }
      NoStyleAt(s, j);
    }
  }

  /**
   * Around a template block placed after a plain block whose body does not open with `{`,
   * with no `<` elsewhere, the template pattern matches nowhere else.
   */
  lemma {:induction false} TemplateOnlyAtBlock(s: string, a: string, attrs1: string, css1: string, b: string,
                                               attrs2: string, css2: string, c: string)
    requires PlainParts(attrs1, css1) && css1[0] != '{' && TemplateParts(attrs2, css2)
    requires '<' !in a && '<' !in b && '<' !in c
    requires s == a + PlainBlock(attrs1, css1) + b + TemplateBlock(attrs2, css2) + c
    ensures forall j :: 0 <= j < |a + PlainBlock(attrs1, css1) + b| ==> TemplateStyleAt(s, j).None?
    ensures forall j :: |a + PlainBlock(attrs1, css1) + b| + |TemplateBlock(attrs2, css2)| <= j <= |s| ==> TemplateStyleAt(s, j).None?
  {
    var pb, tb := PlainBlock(attrs1, css1), TemplateBlock(attrs2, css2);
    var p1, p2 := |a| + |pb|, |a| + |pb| + |b|;
    NoTemplateThroughPlain(s, a, attrs1, css1, b + tb + c);
    NoLtIn(s, a + pb, b, tb + c);
    NoStyleWhere(s, p1, p2);
    NoLtIn(s, a + pb + b + tb, c, []);
    NoStyleWhere(s, p2 + |tb|, |s|);
  }

  /**
   * The template pass over text holding a plain block and, after it, a template block: only
   * the template block is replaced.
   */
  lemma {:induction false} TemplatePassSkipsPlain(a: string, attrs1: string, css1: string, b: string,
                               attrs2: string, css2: string, c: string)
    requires PlainParts(attrs1, css1) && css1[0] != '{' && TemplateParts(attrs2, css2)
    requires '<' !in a && '<' !in b && '<' !in c
    ensures ReplaceAll(TemplateStyleAt, a + PlainBlock(attrs1, css1) + b + TemplateBlock(attrs2, css2) + c, CollectCss)
            == Replaced(a + PlainBlock(attrs1, css1) + b + c, Trim(css2) + "\n")
  {
    var x, tb := a + PlainBlock(attrs1, css1) + b, TemplateBlock(attrs2, css2);
    var s := x + tb + c;
    TemplateAtBlock(x, attrs2, css2, c);
    TemplateOnlyAtBlock(s, a, attrs1, css1, b, attrs2, css2, c);
    TemplateReplaceOnly(s, |x|, |x| + |tb|, css2);
    AroundPart(s, x, tb, c);
  }

  /** The template pass over text where the pattern matches once, from `p` to `end`. */
  lemma {:induction false} TemplateReplaceOnly(s: string, p: nat, end: nat, css: string)
    requires TemplateStyleAt(s, p) == Some(Hit(end, css)) && p < end <= |s|
    requires forall j :: 0 <= j < p ==> TemplateStyleAt(s, j).None?
    requires forall j :: end <= j <= |s| ==> TemplateStyleAt(s, j).None?
    ensures ReplaceAll(TemplateStyleAt, s, CollectCss) == Replaced(s[..p] + s[end..], Trim(css) + "\n")
  {
    ReplaceOnly(TemplateStyleAt, s, p, end, css, CollectCss);
    assert s[..p] + CollectCss(0, css).out + s[end..] == s[..p] + s[end..];
  }

  /** The plain pass over text where the pattern matches once, from `p` to `end`. */
  lemma {:induction false} PlainReplaceOnly(s: string, p: nat, end: nat, css: string)
    requires PlainStyleAt(s, p) == Some(Hit(end, css)) && p < end <= |s|
    requires forall j :: 0 <= j < p ==> PlainStyleAt(s, j).None?
    requires forall j :: end <= j <= |s| ==> PlainStyleAt(s, j).None?
    ensures ReplaceAll(PlainStyleAt, s, CollectCss) == Replaced(s[..p] + s[end..], Trim(css) + "\n")
  {
    ReplaceOnly(PlainStyleAt, s, p, end, css, CollectCss);
    assert s[..p] + CollectCss(0, css).out + s[end..] == s[..p] + s[end..];
  }

  /** Around a plain block, with no `<` elsewhere, the plain pattern matches nowhere else. */
  lemma {:induction false} PlainOnlyAtBlock(s: string, a: string, attrs: string, css: string, b: string)
    requires PlainParts(attrs, css) && '<' !in a && '<' !in b
    requires s == a + PlainBlock(attrs, css) + b
    ensures forall j :: 0 <= j < |a| ==> PlainStyleAt(s, j).None?
    ensures forall j :: |s| - |b| <= j <= |s| ==> PlainStyleAt(s, j).None?
  {
    var pb := PlainBlock(attrs, css);
    NoLtIn(s, [], a, pb + b);
    NoStyleWhere(s, 0, |a|);
    NoLtIn(s, a + pb, b, []);
    NoStyleWhere(s, |a| + |pb|, |s|);
  }

  /** The plain pass over text holding one plain block: the block goes, its body is collected. */
  lemma {:induction false} PlainPassOne(a: string, attrs: string, css: string, b: string)
    requires PlainParts(attrs, css) && '<' !in a && '<' !in b
    ensures ReplaceAll(PlainStyleAt, a + PlainBlock(attrs, css) + b, CollectCss) == Replaced(a + b, Trim(css) + "\n")
  {
    var pb := PlainBlock(attrs, css);
    var s := a + pb + b;
    PlainAtBlock(a, attrs, css, b);
    PlainOnlyAtBlock(s, a, attrs, css, b);
    PlainReplaceOnly(s, |a|, |a| + |pb|, css);
    AroundPart(s, a, pb, b);
  }

  /** A side-effect stylesheet import written as `import '<path>.css';`. */
  function ImportStatement(path: string): string {
    "import '" + path + ".css';"
  }

  /** The import pattern's match, from where its parts are: the closing quote at `c`. */
  lemma {:induction false} CssImportFound(t: string, c: nat, len: nat)
    requires 13 <= c && c + 2 <= |t| && len == c + 2
    requires LiteralAt(t, 0, "import") && SpaceRun(t, 6) == 1 && IsQuote(t[7])
    requires RunUntil(t, 8, Quotes) == c - 8 && LiteralAt(t, c - 4, ".css")
    requires t[c + 1] == ';' && SpaceRun(t, c + 1) == 0 && SpaceRun(t, c + 2) == 0
    ensures CssImport(t) == Some(Hit(len, ()))
  {
  }

  /** Where the import pattern's parts lie in an import statement followed by other text. */
  lemma {:induction false} ImportStatementParts(path: string, rest: string, t: string, c: nat, len: nat)
    requires path != [] && '\'' !in path && '"' !in path && (rest == [] || !IsSpace(rest[0]))
    requires t == ImportStatement(path) + rest && c == 8 + |path| + 4 && len == |ImportStatement(path)|
    ensures 13 <= c && c + 2 <= |t| && len == c + 2
    ensures LiteralAt(t, 0, "import") && SpaceRun(t, 6) == 1 && IsQuote(t[7])
    ensures RunUntil(t, 8, Quotes) == c - 8 && LiteralAt(t, c - 4, ".css")
    ensures t[c + 1] == ';' && SpaceRun(t, c + 1) == 0 && SpaceRun(t, c + 2) == 0
  {
    assert t == "import '" + (path + ".css") + ("';" + rest);
    assert forall k :: 0 <= k < 8 ==> t[k] == "import '"[k];
    assert forall k :: 8 <= k < c ==> t[k] == (path + ".css")[k - 8];
    assert t[c] == '\'' && t[c + 1] == ';';
    RunUntilExact(t, 8, c - 8, Quotes);
    assert c + 2 == |t| || t[c + 2] == rest[0];
  }

  /** `import '<path>.css';` is matched as a whole, up to the text after it when that is no whitespace. */
  lemma {:induction false} CssImportOfStatement(path: string, rest: string)
    requires path != [] && '\'' !in path && '"' !in path && (rest == [] || !IsSpace(rest[0]))
    ensures CssImport(ImportStatement(path) + rest) == Some(Hit(|ImportStatement(path)|, ()))
  {
    var t, c, len := ImportStatement(path) + rest, 8 + |path| + 4, |ImportStatement(path)|;
    ImportStatementParts(path, rest, t, c, len);
    CssImportFound(t, c, len);
  }

  /** A stylesheet import that is not a bare path is no match: `import styles from './a.css'`. */
  lemma {:induction false} BindingImportKept(rest: string)
    ensures CssImport("import styles from './a.css'" + rest).None?
  {
    var t := "import styles from './a.css'" + rest;
    assert t[6] == ' ' && t[7] == 's';
    assert SpaceRun(t, 7) == 0;
  }

  /** A styled-components tagged template, `styled.<tag>`<css>``. */
  function StyledTemplate(tag: string, css: string): string {
    "styled." + tag + "`" + css + "`"
  }

  /** The styled pattern's match, from where its parts are: the opening backtick at `b`, the closing at `e`. */
  lemma {:induction false} StyledFound(t: string, b: nat, e: nat, len: nat, tag: string, css: string)
    requires 7 < b && b + 1 < e < |t| && len == e + 1 && tag == t[7..b] && css == t[b + 1..e]
    requires LiteralAt(t, 0, "styled.") && WordRun(t, 7) == b - 7 && t[b] == '`'
    requires RunUntil(t, b + 1, Backtick) == e - b - 1
    ensures Styled(t) == Some(Hit(len, (tag, css)))
  {
  }

  /** Where the styled pattern's parts lie in a tagged template followed by any text. */
  lemma {:induction false} StyledTemplateParts(tag: string, css: string, rest: string, t: string, b: nat, e: nat, len: nat)
    requires tag != [] && (forall k :: 0 <= k < |tag| ==> IsWordChar(tag[k])) && css != [] && '`' !in css
    requires t == StyledTemplate(tag, css) + rest && b == 7 + |tag| && e == b + 1 + |css| && len == |StyledTemplate(tag, css)|
    ensures 7 < b && b + 1 < e < |t| && len == e + 1 && tag == t[7..b] && css == t[b + 1..e]
    ensures LiteralAt(t, 0, "styled.") && WordRun(t, 7) == b - 7 && t[b] == '`'
    ensures RunUntil(t, b + 1, Backtick) == e - b - 1
  {
    StyledHead(t, tag, "`" + css + "`" + rest);
    assert t == ("styled." + tag + "`") + css + "`" + rest;
    BodyOfBlock("styled." + tag + "`", css, "`", rest, Backtick);
  }

  /** How a tagged template opens: `styled.`, then the tag as a whole word, then a backtick. */
  lemma {:induction false} StyledHead(t: string, tag: string, tail: string)
    requires (forall k :: 0 <= k < |tag| ==> IsWordChar(tag[k])) && tail != [] && tail[0] == '`'
    requires t == "styled." + tag + tail
    ensures LiteralAt(t, 0, "styled.") && WordRun(t, 7) == |tag|
    ensures t[7 + |tag|] == '`' && t[7..7 + |tag|] == tag
  {
    assert forall k :: 0 <= k < 7 ==> t[k] == "styled."[k];
    TagRun(t, tag, tail);
    MiddlePart(t, "styled.", tag, tail);
  }

  /** The word run after `styled.` is the tag, when a backtick follows it. */
  lemma {:induction false} TagRun(t: string, tag: string, rest: string)
    requires (forall k :: 0 <= k < |tag| ==> IsWordChar(tag[k])) && rest != [] && rest[0] == '`'
    requires t == "styled." + tag + rest
    ensures WordRun(t, 7) == |tag|
  {
    assert forall k :: 7 <= k < 7 + |tag| ==> t[k] == tag[k - 7];
    assert t[7 + |tag|] == rest[0];
    WordRunExact(t, 7, |tag|);
  }

  /** The part in the middle of three is the slice between the ends of the first two. */
  lemma {:induction false} MiddlePart(s: string, x: string, y: string, z: string)
    requires s == x + y + z
    ensures s[|x|..|x| + |y|] == y
  {
    var m := s[|x|..|x| + |y|];
    assert forall k :: 0 <= k < |y| ==> m[k] == y[k];
  }

  /** A tagged template is matched as a whole, with its tag and its CSS as the groups. */
  lemma {:induction false} StyledOfTemplate(tag: string, css: string, rest: string)
    requires tag != [] && (forall k :: 0 <= k < |tag| ==> IsWordChar(tag[k])) && css != [] && '`' !in css
    ensures Styled(StyledTemplate(tag, css) + rest) == Some(Hit(|StyledTemplate(tag, css)|, (tag, css)))
  {
    var t, b := StyledTemplate(tag, css) + rest, 7 + |tag|;
    var e, len := b + 1 + |css|, |StyledTemplate(tag, css)|;
    StyledTemplateParts(tag, css, rest, t, b, e, len);
    StyledFound(t, b, e, len, tag, css);
  }

  /**
   * The component a tagged template becomes and the rule it contributes name the same class,
   * `f-<id>-` followed by the random part.
   */
  lemma {:induction false} StyledRuleMatchesElement(id: string, random: nat -> string, k: nat, g: (string, string))
    ensures var cls := ClassName(id, random, k);
            var r := StyledComponent(id, random, k, g);
            && StartsWith(cls, "f-" + id + "-")
            && StartsWith(r.extra, "." + cls + " { ")
            && Contains(r.out, cls)
  {
    var cls := ClassName(id, random, k);
    var r := StyledComponent(id, random, k, g);
    var pre := "props => React.createElement('" + g.0 + "', { ...props, className: '";
    assert r.out == pre + (cls + "' })");
    assert StartsWith(r.out[|pre|..], cls) by {
      assert r.out[|pre|..] == cls + "' })";
    }
    ContainsAt(r.out, cls, |pre|);
    assert r.extra == "." + cls + " { " + (Trim(g.1) + " }\n");
  }

  /** Text in which no pattern matches leaves every pass unchanged and contributes no styles. */
  lemma {:induction false} PassUnchanged<G>(m: Pattern<G>, s: string, f: (nat, G) -> Replaced)
    requires forall j :: 0 <= j <= |s| ==> m(s, j).None?
    ensures ReplaceAll(m, s, f) == Replaced(s, "")
  {
    ReplaceNone(m, s, 0, 0, 0, f);
    assert s[0..] == s;
  }

  /**
   * The styles follow the order of the passes, not of the source: a template block's CSS comes
   * before that of a plain block written above it. Both blocks are removed from the code.
   */
  lemma {:induction false} StylesInPassOrder(a: string, attrs1: string, css1: string, b: string,
                          attrs2: string, css2: string, c: string, id: string, random: nat -> string)
    requires PlainParts(attrs1, css1) && css1[0] != '{' && TemplateParts(attrs2, css2)
    requires '<' !in a && '<' !in b && '<' !in c
    requires forall j :: 0 <= j <= |a + b + c| ==> CssImportAt(a + b + c, j).None?
    requires forall j :: 0 <= j <= |a + b + c| ==> StyledAt(a + b + c, j).None?
    ensures ExtractStyles(a + PlainBlock(attrs1, css1) + b + TemplateBlock(attrs2, css2) + c, id, random)
            == Extracted(Trim(a + b + c), StylesOf(Trim(css2) + "\n" + Trim(css1) + "\n"))
  {
    TemplatePassSkipsPlain(a, attrs1, css1, b, attrs2, css2, c);
    assert '<' !in b + c;
    assert a + PlainBlock(attrs1, css1) + b + c == a + PlainBlock(attrs1, css1) + (b + c);
    PlainPassOne(a, attrs1, css1, b + c);
    assert a + (b + c) == a + b + c;
    PassUnchanged(CssImportAt, a + b + c, DropImport);
    PassUnchanged(StyledAt, a + b + c, (k, g) => StyledComponent(id, random, k, g));
    Regroup(Trim(css2) + "\n", Trim(css1), "\n");
  }

  /** Concatenation regrouped, with nothing appended after it. */
  lemma {:induction false} Regroup(x: string, y: string, z: string)
    ensures x + (y + z) + "" == x + y + z
  {
  }

  /** Source in which no pattern matches anywhere comes back trimmed, with no styles. */
  lemma {:induction false} NothingToExtract(source: string, id: string, random: nat -> string)
    requires forall j :: 0 <= j <= |source| ==> TemplateStyleAt(source, j).None?
    requires forall j :: 0 <= j <= |source| ==> PlainStyleAt(source, j).None?
    requires forall j :: 0 <= j <= |source| ==> CssImportAt(source, j).None?
    requires forall j :: 0 <= j <= |source| ==> StyledAt(source, j).None?
    ensures ExtractStyles(source, id, random) == Extracted(Trim(source), None)
  {
    PassUnchanged(TemplateStyleAt, source, CollectCss);
    PassUnchanged(PlainStyleAt, source, CollectCss);
    PassUnchanged(CssImportAt, source, DropImport);
    PassUnchanged(StyledAt, source, (k, g) => StyledComponent(id, random, k, g));
    assert StylesOf("" + "" + "") == None by {
      assert "" + "" + "" == "";
      assert |Trim("")| == 0;
    }
  }
}
