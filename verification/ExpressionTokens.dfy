/** The tokenizer of workflow conditions in `dev/guards/_workflows.py`: one regular expression matched again and again,
    and the printed form it undoes. */
module ExpressionTokens {
  import opened Options
  import opened Text

  // ---------- the regular expression ----------

  predicate IsNameStart(c: char) { IsLetter(c) || c == '_' }

  predicate IsNameChar(c: char) { IsNameStart(c) || IsDigit(c) || c == '.' || c == '-' }

  /** Where `(?:[^']|'')*'` ends when matched from i: the star takes a doubled quote if the rest can still be closed,
      and gives it back, closing on its first half, if not. */
  function QuoteEnd(s: string, i: nat): (r: Option<nat>)
    requires i <= |s|
    ensures r.Some? ==> i < r.value <= |s| && s[r.value - 1] == '\''
    decreases |s| - i
  {
    if i == |s| then None
    else if s[i] != '\'' then QuoteEnd(s, i + 1)
    else if i + 1 < |s| && s[i + 1] == '\'' then
      var further := QuoteEnd(s, i + 2);
      if further.Some? then further else Some(i + 1)
    else Some(i + 1)
  }

  /** What `(?:[^']|'')*` matches. */
  predicate Starred(t: string) {
    || t == ""
    || (t[0] != '\'' && Starred(t[1..]))
    || (|t| >= 2 && t[0] == '\'' && t[1] == '\'' && Starred(t[2..]))
  }

  /** A match from i may end at e: what the star matches, and a closing quote. */
  predicate MayEnd(s: string, i: nat, e: nat) {
    i < e <= |s| && s[e - 1] == '\'' && Starred(s[i..e - 1])
  }

  lemma MayEndSteps(s: string, i: nat, e: nat)
    requires i < |s|
    ensures s[i] != '\'' ==> (MayEnd(s, i, e) <==> MayEnd(s, i + 1, e))
    ensures s[i] == '\'' ==> (MayEnd(s, i, e) <==>
              e == i + 1 || (i + 1 < |s| && s[i + 1] == '\'' && MayEnd(s, i + 2, e)))
  {
    if i + 1 < e <= |s| {
      assert s[i..e - 1][0] == s[i] && s[i..e - 1][1..] == s[i + 1..e - 1];
      if i + 2 < e { assert s[i..e - 1][1] == s[i + 1] && s[i..e - 1][2..] == s[i + 2..e - 1]; }
    } else if e == i + 1 {
      assert s[i..e - 1] == "";
    }
  }

  /** Backtracking finds the last place a match may end, and fails only if there is none. */
  lemma {:induction false} QuoteEndsLast(s: string, i: nat)
    requires i <= |s|
    ensures QuoteEnd(s, i).Some? ==> MayEnd(s, i, QuoteEnd(s, i).value)
    ensures forall e: nat :: MayEnd(s, i, e) ==> QuoteEnd(s, i).Some? && e <= QuoteEnd(s, i).value
    decreases |s| - i
  {
    hide MayEnd;
    if i == |s| {
      assert forall e: nat :: !MayEnd(s, i, e) by { NoEnd(s); }
    } else {
      forall e: nat
        ensures s[i] != '\'' ==> (MayEnd(s, i, e) <==> MayEnd(s, i + 1, e))
        ensures s[i] == '\'' ==> (MayEnd(s, i, e) <==>
                  e == i + 1 || (i + 1 < |s| && s[i + 1] == '\'' && MayEnd(s, i + 2, e)))
      {
        MayEndSteps(s, i, e);
      }
      if s[i] != '\'' {
        QuoteEndsLast(s, i + 1);
      } else if i + 1 < |s| && s[i + 1] == '\'' {
        QuoteEndsLast(s, i + 2);
      }
    }
  }

  lemma NoEnd(s: string)
    ensures forall e: nat :: !MayEnd(s, |s|, e)
  {}

  function IsTwoCharOperator(t: string): bool { t in {"||", "&&", "==", "!="} }

  /** The length of the token that begins s, by the first alternative that matches. */
  function TokenLength(s: string): (n: nat)
    requires s != "" && !IsSpace(s[0])
    ensures 0 < n <= |s|
  {
    if |s| >= 2 && IsTwoCharOperator(s[..2]) then 2
    else if s[0] == '\'' then (var end := QuoteEnd(s, 1); if end.Some? then end.value else 1)
    else if IsNameStart(s[0]) then Span(s, IsNameChar)
    else 1
  }

  function Tokenize(s: string): seq<string>
    decreases |s|
  {
    var blank := Span(s, IsSpace);
    if blank == |s| then [] else
    var rest := s[blank..];
    var n := TokenLength(rest);
    [rest[..n]] + Tokenize(rest[n..])
  }

  method Tokens(expression: string) returns (tokens: seq<string>)
    ensures tokens == Tokenize(expression)
  {
    tokens := [];
    var position := 0;
    while position < |expression|
      invariant position <= |expression|
      invariant tokens + Tokenize(expression[position..]) == Tokenize(expression)
    {
      var rest := expression[position..];
      var blank := Span(rest, IsSpace);
      if blank == |rest| {
        break;
      }
      var n := TokenLength(rest[blank..]);
      tokens := tokens + [rest[blank..][..n]];
      position := position + blank + n;
      assert rest[blank..][n..] == expression[position..];
    }
  }

  // ---------- printed tokens ----------

  function Doubled(s: string): string {
    if s == "" then "" else (if s[0] == '\'' then "''" else [s[0]]) + Doubled(s[1..])
  }

  /** `replace("''", "'")`, left to right. */
  function Undoubled(s: string): string {
    if s == "" then ""
    else if |s| >= 2 && s[0] == '\'' && s[1] == '\'' then "'" + Undoubled(s[2..])
    else [s[0]] + Undoubled(s[1..])
  }

  function Quoted(s: string): string { "'" + Doubled(s) + "'" }

  predicate IsName(t: string) {
    t != "" && IsNameStart(t[0]) && forall k :: 0 <= k < |t| ==> IsNameChar(t[k])
  }

  predicate IsSymbol(t: string) {
    || IsTwoCharOperator(t)
    || (|t| == 1 && !IsSpace(t[0]) && !IsNameStart(t[0]) && t[0] !in {'\'', '|', '&', '='})
  }

  ghost predicate IsToken(t: string) { IsSymbol(t) || IsName(t) || exists s :: t == Quoted(s) }

  /** Whether a token would still be read as itself with this text right behind it. */
  predicate EndsBefore(t: string, next: string) {
    next == "" || IsSpace(next[0])
    || !(  (IsName(t) && IsNameChar(next[0]))
        || (t != "" && t[0] == '\'' && next[0] == '\'')
        || (t == "!" && next[0] == '='))
  }

  /** Tokens laid out with blanks before each of them. */
  datatype Piece = Piece(gap: string, token: string)

  function Layout(pieces: seq<Piece>): string {
    if pieces == [] then "" else pieces[0].gap + (pieces[0].token + Layout(pieces[1..]))
  }

  function TokensOf(pieces: seq<Piece>): seq<string> {
    if pieces == [] then [] else [pieces[0].token] + TokensOf(pieces[1..])
  }

  ghost predicate LaidOut(pieces: seq<Piece>, after: string) {
    IsBlank(after) &&
    (pieces == [] ||
     (&& IsBlank(pieces[0].gap) && IsToken(pieces[0].token)
      && EndsBefore(pieces[0].token, Layout(pieces[1..]) + after)
      && LaidOut(pieces[1..], after)))
  }

  lemma {:induction false} UndoubledDoubled(s: string)
    ensures Undoubled(Doubled(s)) == s
  {
    if s != "" {
      UndoubledDoubled(s[1..]);
      var d := Doubled(s);
      if s[0] == '\'' {
        assert d[2..] == Doubled(s[1..]);
      } else {
        assert d[1..] == Doubled(s[1..]);
      }
    }
  }

  /** Past its opening quote, a doubled literal ends at its own closing quote. */
  lemma {:induction false} QuotedEnds(before: string, s: string, next: string)
    requires next != "" ==> next[0] != '\''
    ensures QuoteEnd(before + (Doubled(s) + ("'" + next)), |before|) == Some(|before| + |Doubled(s)| + 1)
    decreases |s|
  {
    var text := before + (Doubled(s) + ("'" + next));
    if s == "" {
      assert text[|before|] == '\'';
      assert |before| + 1 < |text| ==> text[|before| + 1] == next[0];
    } else {
      var head := if s[0] == '\'' then "''" else [s[0]];
      assert text == (before + head) + (Doubled(s[1..]) + ("'" + next));
      QuotedEnds(before + head, s[1..], next);
      assert text[|before|] == s[0];
      if s[0] == '\'' { assert text[|before| + 1] == '\''; }
    }
  }

  lemma TokenFits(t: string, next: string)
    requires IsToken(t) && EndsBefore(t, next)
    ensures t != "" && !IsSpace(t[0]) && TokenLength(t + next) == |t|
  {
    hide QuoteEnd, Span;
    var text := t + next;
    if IsTwoCharOperator(t) {
      assert text[..2] == t;
    } else if s :| t == Quoted(s) {
      QuotedFits(s, next);
    } else if IsName(t) {
      assert |text| >= 2 ==> text[..2][0] == t[0];
      if next != "" { NameEnds(t, next); }
      SpanOf(t, next, IsNameChar);
    } else {
      assert t == [t[0]];
      assert |text| >= 2 ==> text[..2] == [t[0], text[1]] && text[1] == next[0];
    }
  }

  lemma NameEnds(t: string, next: string)
    requires IsName(t) && EndsBefore(t, next) && next != ""
    ensures !IsNameChar(next[0])
  {}

  lemma QuotedFits(s: string, next: string)
    requires EndsBefore(Quoted(s), next)
    ensures TokenLength(Quoted(s) + next) == |Quoted(s)|
  {
    hide QuoteEnd, Span, Doubled;
    var text := Quoted(s) + next;
    assert text[0] == '\'' && text[..2][0] == '\'';
    assert Quoted(s)[0] == '\'';
    assert text == "'" + (Doubled(s) + ("'" + next));
    QuotedEnds("'", s, next);
  }

  /** The tokenizer gives back exactly the tokens laid out. */
  lemma {:induction false} TokenizeLayout(pieces: seq<Piece>, after: string)
    requires LaidOut(pieces, after)
    ensures Tokenize(Layout(pieces) + after) == TokensOf(pieces)
  {
    hide IsSpace, TokenLength, IsToken, EndsBefore, Span;
    var text := Layout(pieces) + after;
    if pieces == [] {
      assert text == after;
      assert after == after + "";
      SpanOf(after, "", IsSpace);
    } else {
      var gap, token, next := pieces[0].gap, pieces[0].token, Layout(pieces[1..]) + after;
      assert text == gap + (token + next);
      TokenFits(token, next);
      SpanOf(gap, token + next, IsSpace);
      assert text[|gap|..] == token + next;
      assert (token + next)[..|token|] == token && (token + next)[|token|..] == next;
      TokenizeLayout(pieces[1..], after);
    }
  }
}
