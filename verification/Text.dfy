/** Character scanning shared by the readers of text. */
module Text {

  /** Whitespace as `str.isspace`, `str.strip` and the regular expression `\s` know it. */
  predicate IsSpace(c: char) {
    var n := c as int;
    || 9 <= n <= 13 || 28 <= n <= 32 || n == 0x85 || n == 0xA0 || n == 0x1680 || 0x2000 <= n <= 0x200A
    || n == 0x2028 || n == 0x2029 || n == 0x202F || n == 0x205F || n == 0x3000
  }

  predicate IsBlank(s: string) { forall k :: 0 <= k < |s| ==> IsSpace(s[k]) }

  predicate IsDigit(c: char) { '0' <= c <= '9' }

  predicate IsUpper(c: char) { 'A' <= c <= 'Z' }

  predicate IsLetter(c: char) { IsUpper(c) || 'a' <= c <= 'z' }

  /** How many leading characters of s satisfy p. */
  function Span(s: string, p: char -> bool): (n: nat)
    ensures n <= |s| && (forall k :: 0 <= k < n ==> p(s[k])) && (n < |s| ==> !p(s[n]))
  {
    if s != "" && p(s[0]) then 1 + Span(s[1..], p) else 0
  }

  function Lstrip(s: string): string { s[Span(s, IsSpace)..] }

  function Rstrip(s: string): (r: string)
    ensures r <= s
  {
    if s != "" && IsSpace(s[|s| - 1]) then Rstrip(s[..|s| - 1]) else s
  }

  function Strip(s: string): string { Rstrip(Lstrip(s)) }

  lemma SpanOf(run: string, rest: string, p: char -> bool)
    requires (forall k :: 0 <= k < |run| ==> p(run[k])) && (rest != "" ==> !p(rest[0]))
    ensures Span(run + rest, p) == |run|
  {
    hide Span;
    var s := run + rest;
    assert forall k :: 0 <= k < |run| ==> s[k] == run[k];
    assert rest != "" ==> s[|run|] == rest[0];
  }

  lemma {:induction false} RstripBlank(core: string, blank: string)
    requires IsBlank(blank) && (core != "" ==> !IsSpace(core[|core| - 1]))
    ensures Rstrip(core + blank) == core
  {
    if blank == "" {
      assert core + blank == core;
    } else {
      assert (core + blank)[..|core + blank| - 1] == core + blank[..|blank| - 1];
      RstripBlank(core, blank[..|blank| - 1]);
    }
  }

  lemma StripBlanks(before: string, core: string, after: string)
    requires IsBlank(before) && IsBlank(after)
    requires core != "" && !IsSpace(core[0]) && !IsSpace(core[|core| - 1])
    ensures Strip(before + core + after) == core
  {
    hide IsSpace;
    assert before + core + after == before + (core + after);
    SpanOf(before, core + after, IsSpace);
    assert (before + (core + after))[|before|..] == core + after;
    RstripBlank(core, after);
  }
}
