/**
 * `s.replace(regex, callback)` with the global flag, as the registry's style extraction
 * uses it. A pattern is given by its anchored matcher: where a match starting at `p` ends
 * and what its capture groups hold. The matches are those of successive `exec` calls;
 * each is replaced by what the callback returns for it, and the callback may also append
 * to an outer accumulator (`extra`), called in match order.
 */
module RegexReplace {
  import opened Wrappers

  datatype Hit<G> = Hit(end: nat, groups: G)

  type Pattern<G> = (string, nat) -> Option<Hit<G>>

  /**
   * A pattern given by its matcher at the start of a text, tried at `p` on what follows `p`;
   * the hit's end is then counted from the start of the whole text.
   */
  function Anchored<G>(m: string -> Option<Hit<G>>, s: string, p: nat): (r: Option<Hit<G>>)
    ensures r.Some? <==> p <= |s| && m(s[p..]).Some?
    ensures r.Some? ==> r.value == Hit(p + m(s[p..]).value.end, m(s[p..]).value.groups)
  {
    if p > |s| then None
    else
      match m(s[p..])
      case None => None
      case Some(h) => Some(Hit(p + h.end, h.groups))
  }

  /** The replacement text and what the callback appends to its accumulator. */
  datatype Replaced = Replaced(out: string, extra: string)

  /**
   * Scanning from `i` with the text from `from` not yet copied: copy up to the next match,
   * put the callback's replacement in its place (`k` earlier calls), and go on after it.
   * A match that is empty or runs past the text is not taken; none of the patterns this
   * model uses has one.
   */
  function ReplaceFrom<G>(m: Pattern<G>, s: string, from: nat, i: nat, k: nat, f: (nat, G) -> Replaced): Replaced
    requires from <= i <= |s|
    decreases |s| - i
  {
    if Matches(m, s, i) then
      var h := m(s, i).value;
      var here := f(k, h.groups);
      var rest := ReplaceFrom(m, s, h.end, h.end, k + 1, f);
      Replaced(s[from..i] + here.out + rest.out, here.extra + rest.extra)
    else if i == |s| then Replaced(s[from..], "")
    else ReplaceFrom(m, s, from, i + 1, k, f)
  }

  /** A match that is taken at `i`: non-empty and inside the text. */
  predicate Matches<G>(m: Pattern<G>, s: string, i: nat) {
    m(s, i).Some? && i < m(s, i).value.end <= |s|
  }

  function ReplaceAll<G>(m: Pattern<G>, s: string, f: (nat, G) -> Replaced): Replaced {
    ReplaceFrom(m, s, 0, 0, 0, f)
  }

  /** Without a match from `i` on, the rest of the text is copied and the callback never runs. */
  lemma {:induction false} ReplaceNone<G>(m: Pattern<G>, s: string, from: nat, i: nat, k: nat, f: (nat, G) -> Replaced)
    requires from <= i <= |s|
    requires forall j :: i <= j <= |s| ==> m(s, j).None?
    ensures ReplaceFrom(m, s, from, i, k, f) == Replaced(s[from..], "")
    decreases |s| - i
  {
    if i < |s| {
      ReplaceNone(m, s, from, i + 1, k, f);
    }
  }

  /** Positions without a match are passed over: scanning resumes at the next one that has one. */
  lemma {:induction false} ReplaceSkip<G>(m: Pattern<G>, s: string, from: nat, i: nat, p: nat, k: nat, f: (nat, G) -> Replaced)
    requires from <= i <= p <= |s|
    requires forall j :: i <= j < p ==> m(s, j).None?
    ensures ReplaceFrom(m, s, from, i, k, f) == ReplaceFrom(m, s, from, p, k, f)
    decreases p - i
  {
    if i < p {
      ReplaceSkip(m, s, from, i + 1, p, k, f);
    }
  }

  /**
   * A text with a single match: the text before it, the callback's replacement and the text
   * after it, and the callback's contribution once.
   */
  lemma {:induction false} ReplaceOnly<G>(m: Pattern<G>, s: string, p: nat, end: nat, g: G, f: (nat, G) -> Replaced)
    requires m(s, p) == Some(Hit(end, g)) && p < end <= |s|
    requires forall j :: 0 <= j < p ==> m(s, j).None?
    requires forall j :: end <= j <= |s| ==> m(s, j).None?
    ensures ReplaceAll(m, s, f) == Replaced(s[..p] + f(0, g).out + s[end..], f(0, g).extra)
  {
    ReplaceSkip(m, s, 0, 0, p, 0, f);
    ReplaceNone(m, s, end, end, 1, f);
  }
}
