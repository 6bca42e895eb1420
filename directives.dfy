/**
 * The fractal directive is recognised in four places, each differently: the CLI detector
 * (packages/fractal-cli/src/utils/fractal-detector.ts), the CLI analyzer
 * (packages/fractal-cli/src/utils/fractal-analyzer.ts), the registry's transform
 * (packages/fractal-registry/src/transform.ts) and the build plugin's detector and loader
 * (packages/fractal-plugin/src/detector.ts, loaders/fractal-loader.ts). These lemmas relate them.
 */
module Directives {
  import opened Wrappers
  import opened JsStrings
  import CliDetector
  import FractalAnalyzer
  import RegistryTransform
  import PluginLoader

  /** Whatever the CLI accepts, the plugin's detector selects: it only asks for a mention. */
  lemma {:induction false} CliImpliesPluginDetector(c: string)
    requires CliDetector.IsFractalContent(Some(c))
    ensures Contains(c, "use fractal")
  {
    var t := TrimStart(c);
    var i := |c| - |t| + 1;
    assert t[..13] == "\"use fractal\"";
    assert t[1..12] == t[..13][1..12] == "use fractal";
    assert c[i..][..11] == t[1..12];
    ContainsAt(c, "use fractal", i);
  }

  /** Whatever the CLI accepts, the plugin's loader rewrites: its quoted alternative allows leading whitespace too. */
  lemma {:induction false} CliImpliesPluginLoader(c: string)
    requires CliDetector.IsFractalContent(Some(c))
    ensures PluginLoader.DirectiveMatch(c).Some?
  {
    var t := TrimStart(c);
    var p := |c| - |t|;
    assert t[..13] == "\"use fractal\"";
    assert c[p] == t[0] == '"' && c[p + 12] == t[12] == '"';
    assert forall k :: 0 <= k < p ==> c[..p][k] == c[k];
    PluginLoader.SpaceRunPrefix(c, c[..p]);
    assert c[p + 1..p + 12] == t[1..12] == t[..13][1..12];
    PluginLoader.QuotedAt(c, p);
  }

  /** Whatever the CLI accepts, the analyzer counts as a fractal file. */
  lemma {:induction false} CliImpliesAnalyzer(c: string)
    requires CliDetector.IsFractalContent(Some(c))
    ensures FractalAnalyzer.IsFractalFile(Some(c))
  {
  }

  /** What the registry accepts, the loader accepts as well, and cuts the same prefix. */
  lemma {:induction false} RegistryImpliesPluginLoader(s: string)
    requires RegistryTransform.DirectiveLength(s).Some?
    ensures PluginLoader.DirectiveMatch(s) == RegistryTransform.DirectiveLength(s)
  {
    assert SpaceRun(s, 0) == 0;
  }

  /** The registry accepts a single-quoted directive that the CLI detector refuses. */
  lemma {:induction false} SingleQuotesRegistryOnly(rest: string)
    ensures RegistryTransform.DirectiveLength("'use fractal'" + rest).Some?
    ensures !CliDetector.IsFractalContent(Some("'use fractal'" + rest))
  {
    var s := "'use fractal'" + rest;
    assert s[1..12] == "use fractal";
    assert TrimStart(s) == s;
  }

  /** The CLI looks past leading whitespace, which the registry refuses outright. */
  lemma {:induction false} IndentedDirectiveCliOnly(c: string)
    requires c != [] && IsSpace(c[0])
    ensures CliDetector.IsFractalContent(Some(c)) == CliDetector.IsFractalContent(Some(c[1..]))
    ensures RegistryTransform.DirectiveLength(c).None?
  {
    assert TrimStart(c) == TrimStart(c[1..]);
  }

  /** A mere mention is selected by the plugin's detector, yet the loader passes the file through. */
  lemma {:induction false} MentionIsNoDirective()
    ensures Contains("x = 'use fractal'", "use fractal")
    ensures PluginLoader.DirectiveMatch("x = 'use fractal'").None?
  {
    var s := "x = 'use fractal'";
    assert s[5..][..11] == "use fractal";
    ContainsAt(s, "use fractal", 5);
    assert SpaceRun(s, 0) == 0;
  }
}
