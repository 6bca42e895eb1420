/**
 * The `while ((match = regex.exec(s)) !== null)` idiom of the CLI analyzers. A pattern is
 * given by its anchored matcher: where a match starting at `p` ends and what its one
 * capture group holds. `exec` with the global flag returns the leftmost match starting at
 * or after `lastIndex` and moves `lastIndex` to its end.
 */
module RegexScan {
  import opened Wrappers

  /** A successful match: where it ends and the text of its capture group. */
  datatype Capture = Capture(end: nat, text: string)

  type Matcher = (string, nat) -> Option<Capture>

  /** Every match ends after it starts and within the text, so an `exec` loop always advances. */
  ghost predicate Advances(m: Matcher, s: string) {
    forall p :: 0 <= p <= |s| && m(s, p).Some? ==> p < m(s, p).value.end <= |s|
  }

  /** `regex.exec(s)` with `regex.lastIndex == lastIndex`. */
  function Exec(m: Matcher, s: string, lastIndex: nat): (r: Option<Capture>)
    requires lastIndex <= |s| && Advances(m, s)
    ensures r.Some? ==> lastIndex < r.value.end <= |s|
    ensures r.Some? ==> exists p :: lastIndex <= p <= |s| && m(s, p) == r
                                    && forall j :: lastIndex <= j < p ==> m(s, j).None?
    ensures r.None? ==> forall j :: lastIndex <= j <= |s| ==> m(s, j).None?
    decreases |s| - lastIndex
  {
    if m(s, lastIndex).Some? then m(s, lastIndex)
    else if lastIndex == |s| then None
    else Exec(m, s, lastIndex + 1)
  }

  /** The captures of the successive `exec` calls from `lastIndex` on, in order. */
  function Captures(m: Matcher, s: string, lastIndex: nat): seq<string>
    requires lastIndex <= |s| && Advances(m, s)
    decreases |s| - lastIndex
  {
    match Exec(m, s, lastIndex)
    case None => []
    case Some(c) => [c.text] + Captures(m, s, c.end)
  }

  /** Every capture comes from a match of the pattern somewhere in the scanned text. */
  lemma {:induction false} CapturesMatched(m: Matcher, s: string, lastIndex: nat)
    requires lastIndex <= |s| && Advances(m, s)
    ensures forall x :: x in Captures(m, s, lastIndex) ==>
      exists p :: lastIndex <= p <= |s| && m(s, p).Some? && m(s, p).value.text == x
    decreases |s| - lastIndex
  {
    match Exec(m, s, lastIndex)
    case None =>
    case Some(c) =>
      CapturesMatched(m, s, c.end);
      var p :| lastIndex <= p <= |s| && m(s, p) == Some(c);
  }

  /** The text's only match is the one capture. */
  lemma {:induction false} SingleMatch(m: Matcher, s: string, p: nat)
    requires p <= |s| && Advances(m, s)
    requires m(s, p).Some?
    requires forall j :: 0 <= j <= |s| && j != p ==> m(s, j).None?
    ensures Captures(m, s, 0) == [m(s, p).value.text]
  {
    var c := m(s, p).value;
    assert Exec(m, s, 0) == Some(c);
    assert Exec(m, s, c.end).None?;
  }
}
