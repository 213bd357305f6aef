/** What reading a workflow condition means: the parser undoes a minimal printer, and a known answer holds for every way
    of filling in what is not known. */
module ExpressionLaws {
  import opened Options
  import opened Text
  import opened ExpressionTokens
  import opened Expressions

  // ---------- printing ----------

  function Level(e: Expr): (n: nat)
    ensures 1 <= n <= 5
  {
    match e
    case Or(_, _) => 1
    case And(_, _) => 2
    case Compare(_, _, _) => 3
    case Not(_) => 4
    case _ => 5
  }

  /** Parentheses only where an operand binds more loosely than its place; operators group to the left. */
  function Print(e: Expr, level: nat): seq<string>
    decreases e, if Level(e) < level then 1 else 0
  {
    if Level(e) < level then ["("] + Print(e, 1) + [")"] else
    match e
    case Missing => []
    case Literal(s) => [Quoted(s)]
    case Flag(b) => [if b then "true" else "false"]
    case Reference(name) => [name]
    case Call(name, arguments) => [name] + arguments
    case Not(a) => ["!"] + Print(a, 4)
    case Compare(equal, l, r) => Print(l, 3) + [if equal then "==" else "!="] + Print(r, 4)
    case And(l, r) => Print(l, 2) + ["&&"] + Print(r, 3)
    case Or(l, r) => Print(l, 1) + ["||"] + Print(r, 2)
  }

  /** The list ends with the parenthesis that brings its depth back to nothing, for the first time. */
  predicate Closes(ts: seq<string>, depth: int) {
    ts != [] &&
    if ts[0] == "(" then Closes(ts[1..], depth + 1)
    else if ts[0] == ")" then (if depth == 1 then |ts| == 1 else Closes(ts[1..], depth - 1))
    else Closes(ts[1..], depth)
  }

  predicate IsArgumentList(ts: seq<string>) { ts != [] && ts[0] == "(" && Closes(ts, 0) }

  lemma {:induction false} AfterClosed(ts: seq<string>, depth: int, rest: seq<string>)
    requires Closes(ts, depth)
    ensures AfterCall(ts + rest, depth) == rest
  {
    assert (ts + rest)[1..] == ts[1..] + rest;
    if ts[0] == "(" {
      AfterClosed(ts[1..], depth + 1, rest);
    } else if ts[0] != ")" {
      AfterClosed(ts[1..], depth, rest);
    } else if depth != 1 {
      AfterClosed(ts[1..], depth - 1, rest);
    }
  }

  predicate Printable(e: Expr) {
    match e
    case Missing => false
    case Literal(_) => true
    case Flag(_) => true
    case Reference(name) => IsName(name) && name != "true" && name != "false"
    case Call(name, arguments) => IsName(name) && IsArgumentList(arguments)
    case Not(a) => Printable(a)
    case Compare(_, l, r) => Printable(l) && Printable(r)
    case And(l, r) => Printable(l) && Printable(r)
    case Or(l, r) => Printable(l) && Printable(r)
  }

  /** Nothing that would bind an operand at this level further to the right. */
  predicate Stops(rest: seq<string>, level: nat) {
    rest != [] ==>
      && rest[0] != "("
      && (level <= 2 ==> rest[0] != "==" && rest[0] != "!=")
      && (level <= 1 ==> rest[0] != "&&")
  }

  lemma PrintableParts(e: Expr)
    requires Printable(e)
    ensures e.Not? ==> Printable(e.operand)
    ensures e.Compare? || e.And? || e.Or? ==> Printable(e.left) && Printable(e.right)
  {}

  lemma {:induction false} ParsePrintOr(e: Expr, rest: seq<string>)
    requires Printable(e) && Stops(rest, 1)
    ensures ParseOr(Print(e, 1) + rest) == OrLoop(e, rest)
    decreases e, 0, 4
  {
    hide Printable;
    if e.Or? {
      PrintableParts(e);
      var more := ["||"] + (Print(e.right, 2) + rest);
      assert Print(e, 1) + rest == Print(e.left, 1) + more;
      ParsePrintOr(e.left, more);
      ParsePrintAnd(e.right, rest);
      assert more[1..] == Print(e.right, 2) + rest;
    } else {
      assert Print(e, 1) == Print(e, 2);
      ParsePrintAnd(e, rest);
    }
  }

  lemma {:induction false} ParsePrintAnd(e: Expr, rest: seq<string>)
    requires Printable(e) && Stops(rest, 2)
    ensures ParseAnd(Print(e, 2) + rest) == AndLoop(e, rest)
    decreases e, if Level(e) < 2 then 1 else 0, 3
  {
    hide Printable;
    if e.And? {
      PrintableParts(e);
      var more := ["&&"] + (Print(e.right, 3) + rest);
      assert Print(e, 2) + rest == Print(e.left, 2) + more;
      ParsePrintAnd(e.left, more);
      ParsePrintCompare(e.right, rest);
      assert more[1..] == Print(e.right, 3) + rest;
    } else {
      assert Print(e, 2) == Print(e, 3);
      ParsePrintCompare(e, rest);
    }
  }

  lemma {:induction false} ParsePrintCompare(e: Expr, rest: seq<string>)
    requires Printable(e) && Stops(rest, 3)
    ensures ParseCompare(Print(e, 3) + rest) == CompareLoop(e, rest)
    decreases e, if Level(e) < 3 then 1 else 0, 2
  {
    hide Printable;
    if e.Compare? {
      PrintableParts(e);
      var more := [if e.equal then "==" else "!="] + (Print(e.right, 4) + rest);
      assert Print(e, 3) + rest == Print(e.left, 3) + more;
      ParsePrintCompare(e.left, more);
      ParsePrintUnary(e.right, rest);
      assert more[1..] == Print(e.right, 4) + rest;
    } else {
      assert Print(e, 3) == Print(e, 4);
      ParsePrintUnary(e, rest);
    }
  }

  lemma {:induction false} ParsePrintUnary(e: Expr, rest: seq<string>)
    requires Printable(e) && Stops(rest, 4)
    ensures ParseUnary(Print(e, 4) + rest) == (e, rest)
    decreases e, if Level(e) < 4 then 1 else 0, 1
  {
    if e.Not? {
      assert Print(e, 4) + rest == ["!"] + (Print(e.operand, 4) + rest);
      ParsePrintUnary(e.operand, rest);
    } else if Level(e) < 4 {
      var inner := [")"] + rest;
      assert Print(e, 4) + rest == ["("] + (Print(e, 1) + inner);
      ParsePrintOr(e, inner);
    } else {
      ParsePrintPrimary(e, rest);
    }
  }

  lemma ParsePrintPrimary(e: Expr, rest: seq<string>)
    requires Printable(e) && Stops(rest, 4) && Level(e) == 5
    ensures ParseUnary(Print(e, 4) + rest) == (e, rest)
  {
    hide ParseUnary, IsName, IsArgumentList;
    match e
    case Literal(s) => ParseLiteral(s, rest);
    case Call(name, arguments) => ParseCall(name, arguments, rest);
    case Reference(name) => ParseName(name, rest);
    case Flag(b) =>
      assert IsName("true") && IsName("false") by { FlagsAreNames(); }
      ParseName(if b then "true" else "false", rest);
  }

  lemma FlagsAreNames()
    ensures IsName("true") && IsName("false")
  {}

  lemma ParseLiteral(s: string, rest: seq<string>)
    ensures ParseUnary([Quoted(s)] + rest) == (Literal(s), rest)
  {
    hide Doubled, Undoubled, ParseOr;
    UndoubledDoubled(s);
    var token := Quoted(s);
    assert Inside(token) == Doubled(s);
    assert |token| >= 2 && token[0] == '\'';
    assert ([token] + rest)[1..] == rest;
  }

  lemma ParseName(name: string, rest: seq<string>)
    requires IsName(name) && Stops(rest, 4)
    ensures ParseUnary([name] + rest)
         == (if name == "true" || name == "false" then Flag(name == "true") else Reference(name), rest)
  {
    hide ParseOr, Undoubled;
    assert name[0] != '\'' && name != "!" && name != "(";
    assert ([name] + rest)[1..] == rest;
  }

  lemma ParseCall(name: string, arguments: seq<string>, rest: seq<string>)
    requires IsName(name) && IsArgumentList(arguments)
    ensures ParseUnary([name] + arguments + rest) == (Call(name, arguments), rest)
  {
    hide ParseOr, Undoubled, AfterCall;
    assert name[0] != '\'' && name != "!" && name != "(";
    AfterClosed(arguments, 0, rest);
    var ts := [name] + (arguments + rest);
    assert [name] + arguments + rest == ts && ts[1..] == arguments + rest;
    assert ts[1..][..|arguments|] == arguments;
  }

  /** The parser reads the printed form back as the expression it prints, every token used. */
  lemma ParsePrint(e: Expr)
    requires Printable(e)
    ensures ParseOr(Print(e, 1)) == (e, [])
  {
    ParsePrintOr(e, []);
    assert Print(e, 1) + [] == Print(e, 1);
  }

  // ---------- from text to answer ----------

  datatype Tri = TRUE | FALSE | MAYBE

  function Answer(v: Known): Tri {
    if v.None? then MAYBE else if Truthy(v.value) then TRUE else FALSE
  }

  /** The text between `${{` and `}}`, when the whole condition is so wrapped. */
  function Unwrapped(expression: string): string {
    var inner := Strip(expression);
    if |inner| >= 5 && inner[..3] == "${{" && inner[|inner| - 2..] == "}}" then inner[3..|inner| - 2] else inner
  }

  function Meaning(expression: string): Expr { ParseOr(Tokenize(Unwrapped(expression))).0 }

  function ContextFor(event: string, bindings: Context): Context { bindings["github.event_name" := Str(event)] }

  method Evaluate(expression: string, event: string, bindings: Context) returns (answer: Tri)
    ensures answer == Answer(Eval(Meaning(expression), ContextFor(event, bindings)))
  {
    var tokens := Tokens(Unwrapped(expression));
    var parser := new Parser(tokens, ContextFor(event, bindings));
    var value := parser.Or();
    if value.None? {
      return MAYBE;
    }
    return if Truthy(value.value) then TRUE else FALSE;
  }

  lemma TokenEnds(t: string)
    requires IsToken(t)
    ensures t != "" && !IsSpace(t[|t| - 1])
  {
    if s :| t == Quoted(s) { assert t[|t| - 1] == '\''; }
  }

  lemma {:induction false} LayoutEnds(pieces: seq<Piece>, after: string)
    requires LaidOut(pieces, after) && pieces != []
    ensures Layout(pieces) != "" && !IsSpace(Layout(pieces)[|Layout(pieces)| - 1])
    ensures LaidOut(pieces, "")
  {
    hide IsSpace, IsToken, EndsBefore;
    var next := Layout(pieces[1..]);
    TokenEnds(pieces[0].token);
    assert next + "" == next;
    if pieces[1..] == [] {
      assert EndsBefore(pieces[0].token, "") by { NothingFollows(pieces[0].token); }
      assert Layout(pieces) == pieces[0].gap + (pieces[0].token + "");
    } else {
      LayoutEnds(pieces[1..], after);
      assert EndsBefore(pieces[0].token, next) by { SameStart(pieces[0].token, next, after); }
    }
  }

  lemma NothingFollows(t: string)
    ensures EndsBefore(t, "")
  {}

  lemma SameStart(t: string, next: string, after: string)
    requires next != "" && EndsBefore(t, next + after)
    ensures EndsBefore(t, next)
  {}

  /** A layout's surrounding blanks strip away and nothing else does. */
  lemma StripLayout(pieces: seq<Piece>, after: string)
    requires LaidOut(pieces, after) && pieces != []
    ensures var bare := [pieces[0].(gap := "")] + pieces[1..];
      Strip(Layout(pieces) + after) == Layout(bare) && LaidOut(bare, "") && TokensOf(bare) == TokensOf(pieces)
    ensures pieces[0].token <= Strip(Layout(pieces) + after)
  {
    hide IsSpace, IsToken, EndsBefore;
    var bare := [pieces[0].(gap := "")] + pieces[1..];
    var next := Layout(pieces[1..]);
    var core := pieces[0].token + next;
    assert bare[1..] == pieces[1..] && Layout(bare) == "" + core == core;
    LayoutEnds(pieces, after);
    TokenFits(pieces[0].token, next + after);
    assert Layout(pieces) == pieces[0].gap + core;
    StripBlanks(pieces[0].gap, core, after);
  }

  lemma {:induction false} PrintStarts(e: Expr, level: nat)
    requires Printable(e)
    ensures Print(e, level) != [] && Print(e, level)[0] != "" && Print(e, level)[0][0] != '$'
    decreases e
  {
    match e
    case Compare(_, l, _) => PrintStarts(l, 3);
    case And(l, _) => PrintStarts(l, 2);
    case Or(l, _) => PrintStarts(l, 1);
    case _ =>
  }

  /** However its tokens are spaced, a printed condition means what it prints, bare or wrapped. */
  lemma PrintedTextMeansIt(e: Expr, pieces: seq<Piece>, after: string, before: string, behind: string)
    requires Printable(e) && TokensOf(pieces) == Print(e, 1) && LaidOut(pieces, after)
    requires IsBlank(before) && IsBlank(behind)
    ensures Meaning(Layout(pieces) + after) == e
    ensures Meaning(before + ("${{" + (Layout(pieces) + after) + "}}") + behind) == e
  {
    hide Tokenize, Strip, Layout, LaidOut, ParseOr, Print, Printable, IsSpace;
    PrintStarts(e, 1);
    ParsePrint(e);
    StripLayout(pieces, after);
    var bare := [pieces[0].(gap := "")] + pieces[1..];
    TokenizeLayout(bare, "");
    assert Layout(bare) + "" == Layout(bare);
    TokenizeLayout(pieces, after);
    var text := Layout(pieces) + after;
    assert Strip(text)[0] == pieces[0].token[0];
    var wrapped := "${{" + text + "}}";
    assert !IsSpace('$') && !IsSpace('}') by { NotBlank(); }
    StripBlanks(before, wrapped, behind);
    assert wrapped[..3] == "${{" && wrapped[|wrapped| - 2..] == "}}" && wrapped[3..|wrapped| - 2] == text;
  }

  lemma NotBlank()
    ensures !IsSpace('$') && !IsSpace('}')
  {}

  // ---------- three values ----------

  predicate Extends(context: Context, more: Context) {
    forall name :: name in context ==> name in more && more[name] == context[name]
  }

  /** Binding more never changes a known value. */
  lemma {:induction false} EvalIsMonotone(e: Expr, context: Context, more: Context)
    requires Extends(context, more)
    ensures Eval(e, context).Some? ==> Eval(e, more) == Eval(e, context)
  {
    match e
    case Not(a) => EvalIsMonotone(a, context, more);
    case Compare(_, l, r) => EvalIsMonotone(l, context, more); EvalIsMonotone(r, context, more);
    case And(l, r) => EvalIsMonotone(l, context, more); EvalIsMonotone(r, context, more);
    case Or(l, r) => EvalIsMonotone(l, context, more); EvalIsMonotone(r, context, more);
    case _ =>
  }

  /** What a connective makes of its operands' values. */
  function Combined(e: Expr, x: Value, y: Value): Value
    requires e.Compare? || e.And? || e.Or?
  {
    if e.Compare? then Bool(Equal(x, y) == e.equal)
    else if e.And? then Bool(Truthy(x) && Truthy(y))
    else Bool(Truthy(x) || Truthy(y))
  }

  /** The values a condition can take when every call, every missing operand and every unbound reference may be
      anything, each occurrence on its own, and both operands of `&&` and `||` count by their truth alone. */
  ghost predicate Possible(e: Expr, context: Context, v: Value) {
    match e
    case Missing => true
    case Literal(s) => v == Str(s)
    case Flag(b) => v == Bool(b)
    case Reference(name) => name in context ==> v == context[name]
    case Call(_, _) => true
    case Not(a) => exists x :: Possible(a, context, x) && v == Bool(!Truthy(x))
    case Compare(_, l, r) => exists x, y :: Possible(l, context, x) && Possible(r, context, y) && v == Combined(e, x, y)
    case And(l, r) => exists x, y :: Possible(l, context, x) && Possible(r, context, y) && v == Combined(e, x, y)
    case Or(l, r) => exists x, y :: Possible(l, context, x) && Possible(r, context, y) && v == Combined(e, x, y)
  }

  lemma OperandsOf(e: Expr, context: Context, v: Value) returns (x: Value, y: Value)
    requires Possible(e, context, v) && (e.Compare? || e.And? || e.Or?)
    ensures Possible(e.left, context, x) && Possible(e.right, context, y) && v == Combined(e, x, y)
  {
    hide Combined;
    x, y :| Possible(e.left, context, x) && Possible(e.right, context, y) && v == Combined(e, x, y);
  }

  lemma CombinedIsPossible(e: Expr, context: Context, x: Value, y: Value)
    requires e.Compare? || e.And? || e.Or?
    requires Possible(e.left, context, x) && Possible(e.right, context, y)
    ensures Possible(e, context, Combined(e, x, y))
  {
    hide Combined;
  }

  lemma OperandOf(e: Expr, context: Context, v: Value) returns (x: Value)
    requires e.Not? && Possible(e, context, v)
    ensures Possible(e.operand, context, x) && v == Bool(!Truthy(x))
  {
    x :| Possible(e.operand, context, x) && v == Bool(!Truthy(x));
  }

  lemma NotIsPossible(a: Expr, context: Context, x: Value)
    requires Possible(a, context, x)
    ensures Possible(Not(a), context, Bool(!Truthy(x)))
  {
    hide Truthy;
  }

  lemma PossibleLeaf(e: Expr, context: Context, v: Value)
    requires Possible(e, context, v) && Level(e) == 5
    ensures Eval(e, context).Some? ==> v == Eval(e, context).value
  {}

  /** A known value is the only possible one. */
  lemma {:induction false} EvalIsSound(e: Expr, context: Context, v: Value)
    requires Eval(e, context).Some? && Possible(e, context, v)
    ensures v == Eval(e, context).value
  {
    hide Equal, Truthy, Possible;
    if e.Not? {
      var x := OperandOf(e, context, v);
      EvalIsSound(e.operand, context, x);
    } else if e.Compare? || e.And? || e.Or? {
      var x, y := OperandsOf(e, context, v);
      if Eval(e.left, context).Some? { EvalIsSound(e.left, context, x); }
      if Eval(e.right, context).Some? { EvalIsSound(e.right, context, y); }
    } else {
      PossibleLeaf(e, context, v);
    }
  }

  /** Some value is always possible, so a known value is one the condition can really take. */
  lemma {:induction false} SomethingIsPossible(e: Expr, context: Context) returns (v: Value)
    ensures Possible(e, context, v)
  {
    hide Equal, Truthy, Possible;
    if e.Not? {
      var x := SomethingIsPossible(e.operand, context);
      v := Bool(!Truthy(x));
      NotIsPossible(e.operand, context, x);
    } else if e.Compare? || e.And? || e.Or? {
      var x := SomethingIsPossible(e.left, context);
      var y := SomethingIsPossible(e.right, context);
      v := Combined(e, x, y);
      CombinedIsPossible(e, context, x, y);
    } else {
      v := LeafIsPossible(e, context);
    }
  }

  lemma LeafIsPossible(e: Expr, context: Context) returns (v: Value)
    requires Level(e) == 5
    ensures Possible(e, context, v)
  {
    v := match e
      case Literal(s) => Str(s)
      case Flag(b) => Bool(b)
      case Reference(name) => if name in context then context[name] else Null
      case _ => Null;
  }

  /** Nothing in the condition is left open: no call, no missing operand, no unbound reference. */
  predicate Closed(e: Expr, context: Context) {
    match e
    case Missing => false
    case Literal(_) => true
    case Flag(_) => true
    case Reference(name) => name in context
    case Call(_, _) => false
    case Not(a) => Closed(a, context)
    case Compare(_, l, r) => Closed(l, context) && Closed(r, context)
    case And(l, r) => Closed(l, context) && Closed(r, context)
    case Or(l, r) => Closed(l, context) && Closed(r, context)
  }

  /** A condition with nothing left open is never MAYBE: its value is known, and it is the one the condition takes. */
  lemma {:induction false} ClosedIsKnown(e: Expr, context: Context)
    requires Closed(e, context)
    ensures Eval(e, context).Some? && Possible(e, context, Eval(e, context).value)
  {
    hide Equal, Truthy, Possible;
    if e.Not? {
      ClosedIsKnown(e.operand, context);
      NotIsPossible(e.operand, context, Eval(e.operand, context).value);
    } else if e.Compare? || e.And? || e.Or? {
      ClosedIsKnown(e.left, context);
      ClosedIsKnown(e.right, context);
      CombinedIsPossible(e, context, Eval(e.left, context).value, Eval(e.right, context).value);
      KnownIsCombined(e, context);
    } else {
      var v := LeafIsPossible(e, context);
      PossibleLeaf(e, context, v);
    }
  }

  lemma KnownIsCombined(e: Expr, context: Context)
    requires (e.Compare? || e.And? || e.Or?) && Eval(e.left, context).Some? && Eval(e.right, context).Some?
    ensures Eval(e, context) == Some(Combined(e, Eval(e.left, context).value, Eval(e.right, context).value))
  {
    hide Equal, Truthy;
  }

  /** One operand can decide alone, on either side: a falsy one `&&`, a truthy one `||`, whatever the other is. */
  lemma OneOperandDecides(e: Expr, other: Expr, context: Context)
    requires Eval(e, context).Some?
    ensures !Truthy(Eval(e, context).value) ==>
              Eval(And(e, other), context) == Eval(And(other, e), context) == Some(Bool(false))
    ensures Truthy(Eval(e, context).value) ==>
              Eval(Or(e, other), context) == Eval(Or(other, e), context) == Some(Bool(true))
  {
    hide Truthy;
  }

  /** What the guards rely on: FALSE, a job they may drop, is falsy whatever the unknowns are, TRUE is truthy, and no
      binding learnt later takes either back. */
  lemma AnswerHolds(expression: string, event: string, bindings: Context, more: Context, v: Value)
    requires Extends(bindings, more)
    requires Possible(Meaning(expression), ContextFor(event, more), v)
    ensures var answer := Answer(Eval(Meaning(expression), ContextFor(event, bindings)));
      && (answer == FALSE ==> !Truthy(v))
      && (answer == TRUE ==> Truthy(v))
      && (answer != MAYBE ==> Answer(Eval(Meaning(expression), ContextFor(event, more))) == answer)
  {
    hide Meaning, Possible, Eval;
    var e, context, wider := Meaning(expression), ContextFor(event, bindings), ContextFor(event, more);
    EvalIsMonotone(e, context, wider);
    if Eval(e, context).Some? { EvalIsSound(e, wider, v); }
  }

  // ---------- what MAYBE leaves open ----------

  /** The values a condition can take: one, both truths, or any at all. */
  datatype Range = One(value: Value) | Both | Any

  predicate Within(v: Value, r: Range) {
    match r
    case One(w) => v == w
    case Both => v.Bool?
    case Any => true
  }

  /** A value some truth value equals: a truth value, or the number it counts as. */
  predicate IsTruthLike(v: Value) { AsInt(v) == Some(0) || AsInt(v) == Some(1) }

  function NotRange(r: Range): Range {
    if r.One? then One(Bool(!Truthy(r.value))) else Both
  }

  function CompareRange(equal: bool, l: Range, r: Range): Range {
    if l.One? && r.One? then One(Bool(Equal(l.value, r.value) == equal))
    // a truth value not known, against a constant no truth value equals
    else if (l.Both? && r.One? && !IsTruthLike(r.value)) || (l.One? && r.Both? && !IsTruthLike(l.value)) then
      One(Bool(!equal))
    else Both
  }

  /** `&&` when `absorbing` is false, its counterpart when it is true: an operand of that truth decides alone. */
  function ConnectiveRange(absorbing: bool, l: Range, r: Range): Range {
    if (l.One? && Truthy(l.value) == absorbing) || (r.One? && Truthy(r.value) == absorbing) then One(Bool(absorbing))
    else if l.One? && r.One? then One(Bool(!absorbing))
    else Both
  }

  function RangeOf(e: Expr, context: Context): Range {
    match e
    case Missing => Any
    case Call(_, _) => Any
    case Reference(name) => if name in context then One(context[name]) else Any
    case Literal(s) => One(Str(s))
    case Flag(b) => One(Bool(b))
    case Not(a) => NotRange(RangeOf(a, context))
    case Compare(equal, l, r) => CompareRange(equal, RangeOf(l, context), RangeOf(r, context))
    case And(l, r) => ConnectiveRange(false, RangeOf(l, context), RangeOf(r, context))
    case Or(l, r) => ConnectiveRange(true, RangeOf(l, context), RangeOf(r, context))
  }

  /** Two values that make a comparison of these ranges come out as v. */
  lemma CompareTakes(equal: bool, l: Range, r: Range, v: Value) returns (x: Value, y: Value)
    requires Within(v, CompareRange(equal, l, r))
    ensures Within(x, l) && Within(y, r) && v == Bool(Equal(x, y) == equal)
  {
    var same := (v == Bool(equal));
    x := if l.One? then l.value else if r.One? && (l.Any? || IsTruthLike(r.value)) then
           (if l.Any? then (if same then r.value else Apart(r.value))
            else Bool((AsInt(r.value) == Some(1)) == same))
         else Bool(true);
    y := if r.One? then r.value else if l.One? then
           (if r.Any? then (if same then l.value else Apart(l.value))
            else Bool((AsInt(l.value) == Some(1)) == same))
         else Bool(same);
  }

  /** Some value not equal to this one. */
  function Apart(v: Value): (w: Value)
    ensures !Equal(v, w) && !Equal(w, v)
  {
    if v.Null? then Str("") else Null
  }

  lemma CompareStays(equal: bool, l: Range, r: Range, x: Value, y: Value)
    requires Within(x, l) && Within(y, r)
    ensures Within(Bool(Equal(x, y) == equal), CompareRange(equal, l, r))
  {}

  /** Two values that make a connective of these ranges come out as v. */
  lemma ConnectiveTakes(absorbing: bool, l: Range, r: Range, v: Value) returns (x: Value, y: Value)
    requires Within(v, ConnectiveRange(absorbing, l, r))
    ensures Within(x, l) && Within(y, r)
    ensures v == Bool(if absorbing then Truthy(x) || Truthy(y) else Truthy(x) && Truthy(y))
  {
    x := if l.One? then l.value else v;
    y := if r.One? then r.value else v;
  }

  lemma ConnectiveStays(absorbing: bool, l: Range, r: Range, x: Value, y: Value)
    requires Within(x, l) && Within(y, r)
    ensures Within(Bool(if absorbing then Truthy(x) || Truthy(y) else Truthy(x) && Truthy(y)),
                   ConnectiveRange(absorbing, l, r))
  {}

  lemma BinaryRange(e: Expr, context: Context, x: Value, y: Value)
    requires e.Compare? || e.And? || e.Or?
    requires Within(x, RangeOf(e.left, context)) && Within(y, RangeOf(e.right, context))
    ensures Within(Combined(e, x, y), RangeOf(e, context))
  {
    hide Equal, Truthy, Within, CompareRange, ConnectiveRange;
    var l, r := RangeOf(e.left, context), RangeOf(e.right, context);
    match e
    case Compare(equal, _, _) => CompareStays(equal, l, r, x, y);
    case And(_, _) => ConnectiveStays(false, l, r, x, y);
    case Or(_, _) => ConnectiveStays(true, l, r, x, y);
  }

  lemma BinaryTakes(e: Expr, context: Context, v: Value) returns (x: Value, y: Value)
    requires (e.Compare? || e.And? || e.Or?) && Within(v, RangeOf(e, context))
    ensures Within(x, RangeOf(e.left, context)) && Within(y, RangeOf(e.right, context)) && v == Combined(e, x, y)
  {
    hide Equal, Truthy, Within, CompareRange, ConnectiveRange;
    var l, r := RangeOf(e.left, context), RangeOf(e.right, context);
    match e
    case Compare(equal, _, _) => x, y := CompareTakes(equal, l, r, v);
    case And(_, _) => x, y := ConnectiveTakes(false, l, r, v);
    case Or(_, _) => x, y := ConnectiveTakes(true, l, r, v);
  }

  lemma NotTakes(r: Range, v: Value) returns (x: Value)
    requires Within(v, NotRange(r))
    ensures Within(x, r) && v == Bool(!Truthy(x))
  {
    x := if r.One? then r.value else Bool(v == Bool(false));
  }

  lemma NotStays(r: Range, x: Value)
    requires Within(x, r)
    ensures Within(Bool(!Truthy(x)), NotRange(r))
  {}

  /** The range is exact for occurrences taken on their own: every value in it is possible and no other. */
  lemma {:induction false} RangeIsExact(e: Expr, context: Context, v: Value)
    ensures Possible(e, context, v) <==> Within(v, RangeOf(e, context))
  {
    hide Equal, Truthy, Possible, Within, NotRange, CompareRange, ConnectiveRange;
    if e.Not? {
      if Possible(e, context, v) {
        var x := OperandOf(e, context, v);
        RangeIsExact(e.operand, context, x);
        NotStays(RangeOf(e.operand, context), x);
      }
      if Within(v, RangeOf(e, context)) {
        var x := NotTakes(RangeOf(e.operand, context), v);
        RangeIsExact(e.operand, context, x);
        NotIsPossible(e.operand, context, x);
      }
    } else if e.Compare? || e.And? || e.Or? {
      if Possible(e, context, v) {
        var x, y := OperandsOf(e, context, v);
        RangeIsExact(e.left, context, x);
        RangeIsExact(e.right, context, y);
        BinaryRange(e, context, x, y);
      }
      if Within(v, RangeOf(e, context)) {
        var x, y := BinaryTakes(e, context, v);
        RangeIsExact(e.left, context, x);
        RangeIsExact(e.right, context, y);
        CombinedIsPossible(e, context, x, y);
      }
    } else {
      LeafRange(e, context, v);
    }
  }

  lemma LeafRange(e: Expr, context: Context, v: Value)
    requires Level(e) == 5
    ensures Possible(e, context, v) <==> Within(v, RangeOf(e, context))
  {}

  lemma KnownIsOne(e: Expr, context: Context)
    requires Eval(e, context).Some?
    ensures RangeOf(e, context) == One(Eval(e, context).value)
  {
    hide Possible, Eval, RangeOf;
    var r := RangeOf(e, context);
    var v := if r.One? then r.value else Bool(true);
    RangeIsExact(e, context, v);
    EvalIsSound(e, context, v);
    if !r.One? {
      RangeIsExact(e, context, Bool(false));
      EvalIsSound(e, context, Bool(false));
    }
  }

  /** Taking each occurrence on its own, a condition can come out both ways exactly when its range is not a single
      value; a known one never can. */
  lemma OpenIffNotSettled(e: Expr, context: Context)
    ensures (exists v, w :: Possible(e, context, v) && Truthy(v) && Possible(e, context, w) && !Truthy(w))
       <==> !RangeOf(e, context).One?
    ensures Eval(e, context).Some? ==> RangeOf(e, context) == One(Eval(e, context).value)
  {
    hide Possible, RangeOf, Eval;
    if !RangeOf(e, context).One? {
      RangeIsExact(e, context, Bool(true));
      RangeIsExact(e, context, Bool(false));
      assert Possible(e, context, Bool(true)) && Truthy(Bool(true));
      assert Possible(e, context, Bool(false)) && !Truthy(Bool(false));
    } else if v, w :| Possible(e, context, v) && Truthy(v) && Possible(e, context, w) && !Truthy(w) {
      RangeIsExact(e, context, v);
      RangeIsExact(e, context, w);
    }
    if Eval(e, context).Some? { KnownIsOne(e, context); }
  }

  /** Somewhere in the condition an open truth value is compared with a constant that no truth value equals. */
  predicate ComparesUnlike(e: Expr, context: Context) {
    match e
    case Not(a) => ComparesUnlike(a, context)
    case Compare(_, l, r) =>
      var x, y := RangeOf(l, context), RangeOf(r, context);
      || (x.Both? && y.One? && !IsTruthLike(y.value)) || (x.One? && y.Both? && !IsTruthLike(x.value))
      || ComparesUnlike(l, context) || ComparesUnlike(r, context)
    case And(l, r) => ComparesUnlike(l, context) || ComparesUnlike(r, context)
    case Or(l, r) => ComparesUnlike(l, context) || ComparesUnlike(r, context)
    case _ => false
  }

  /** Without such a comparison MAYBE leaves both answers possible, each occurrence of a reference taken on its own. */
  lemma {:induction false} MaybeIsOpen(e: Expr, context: Context)
    requires !ComparesUnlike(e, context) && Eval(e, context).None?
    ensures !RangeOf(e, context).One?
    ensures exists v, w :: Possible(e, context, v) && Truthy(v) && Possible(e, context, w) && !Truthy(w)
  {
    hide Possible, Equal, Truthy, IsTruthLike;
    OpenIffNotSettled(e, context);
    if e.Not? {
      MaybeIsOpen(e.operand, context);
    } else if e.Compare? || e.And? || e.Or? {
      OpenIffNotSettled(e.left, context);
      OpenIffNotSettled(e.right, context);
      if Eval(e.left, context).None? { MaybeIsOpen(e.left, context); }
      if Eval(e.right, context).None? { MaybeIsOpen(e.right, context); }
    }
  }

  /** With one, MAYBE may be settled after all: nothing negated equals a string. */
  lemma MaybeCanBeSettled(v: Value)
    ensures var e := Compare(true, Not(Reference("x")), Literal("a"));
      && Eval(e, map[]).None? && ComparesUnlike(e, map[]) && RangeOf(e, map[]) == One(Bool(false))
      && (Possible(e, map[], v) <==> v == Bool(false))
  {
    hide Possible;
    RangeIsExact(Compare(true, Not(Reference("x")), Literal("a")), map[], v);
  }

  // ---------- one value for each reference ----------

  /** How often each reference occurs. */
  function Refs(e: Expr): multiset<string> {
    match e
    case Reference(name) => multiset{name}
    case Not(a) => Refs(a)
    case Compare(_, l, r) => Refs(l) + Refs(r)
    case And(l, r) => Refs(l) + Refs(r)
    case Or(l, r) => Refs(l) + Refs(r)
    case _ => multiset{}
  }

  function Unbound(e: Expr, context: Context): set<string> { set name | name in Refs(e) && name !in context }

  function Repeated(e: Expr, context: Context): set<string> {
    set name | name in Refs(e) && name !in context && Refs(e)[name] > 1
  }

  predicate Completes(e: Expr, context: Context, more: Context) {
    Extends(context, more) && forall name :: name in Refs(e) ==> name in more
  }

  /** The values a condition can come to when each reference is bound, to one value wherever it occurs; only calls and
      missing operands stay open. */
  ghost predicate Takes(e: Expr, context: Context, v: Value) {
    exists more :: Completes(e, context, more) && Possible(e, more, v)
  }

  predicate CallFree(e: Expr) {
    match e
    case Missing => false
    case Call(_, _) => false
    case Not(a) => CallFree(a)
    case Compare(_, l, r) => CallFree(l) && CallFree(r)
    case And(l, r) => CallFree(l) && CallFree(r)
    case Or(l, r) => CallFree(l) && CallFree(r)
    case _ => true
  }

  lemma {:induction false} CompletedIsClosed(e: Expr, context: Context, more: Context)
    requires CallFree(e) && Completes(e, context, more)
    ensures Closed(e, more)
  {
    match e
    case Not(a) => CompletedIsClosed(a, context, more);
    case Compare(_, l, r) => CompletedIsClosed(l, context, more); CompletedIsClosed(r, context, more);
    case And(l, r) => CompletedIsClosed(l, context, more); CompletedIsClosed(r, context, more);
    case Or(l, r) => CompletedIsClosed(l, context, more); CompletedIsClosed(r, context, more);
    case _ =>
  }

  /** Of a condition without calls these are the values it evaluates to under some binding of its references. */
  lemma TakesIsEvaluates(e: Expr, context: Context, v: Value)
    requires CallFree(e)
    ensures Takes(e, context, v) <==> exists more :: Completes(e, context, more) && Eval(e, more) == Some(v)
  {
    hide Eval, Possible, Completes, Closed, CallFree;
    forall more | Completes(e, context, more) ensures Possible(e, more, v) <==> Eval(e, more) == Some(v) {
      CompletedIsClosed(e, context, more);
      ClosedIsKnown(e, more);
      if Possible(e, more, v) { EvalIsSound(e, more, v); }
    }
  }

  /** Unbinding references loses no value. */
  lemma {:induction false} FewerBindingsAllowMore(e: Expr, context: Context, more: Context, v: Value)
    requires Extends(context, more) && Possible(e, more, v)
    ensures Possible(e, context, v)
  {
    hide Equal, Truthy, Possible, Extends;
    if e.Not? {
      var x := OperandOf(e, more, v);
      FewerBindingsAllowMore(e.operand, context, more, x);
      NotIsPossible(e.operand, context, x);
    } else if e.Compare? || e.And? || e.Or? {
      var x, y := OperandsOf(e, more, v);
      FewerBindingsAllowMore(e.left, context, more, x);
      FewerBindingsAllowMore(e.right, context, more, y);
      CombinedIsPossible(e, context, x, y);
    } else {
      LeafAllowsMore(e, context, more, v);
    }
  }

  lemma LeafAllowsMore(e: Expr, context: Context, more: Context, v: Value)
    requires Extends(context, more) && Possible(e, more, v) && Level(e) == 5
    ensures Possible(e, context, v)
  {}

  /** Binding what does not occur loses no value either. */
  lemma {:induction false} OtherBindingsAllowAll(e: Expr, context: Context, more: Context, v: Value)
    requires Extends(context, more) && Possible(e, context, v)
    requires forall name :: name in Refs(e) ==> name in context
    ensures Possible(e, more, v)
  {
    hide Equal, Truthy, Possible, Extends;
    if e.Not? {
      var x := OperandOf(e, context, v);
      OtherBindingsAllowAll(e.operand, context, more, x);
      NotIsPossible(e.operand, more, x);
    } else if e.Compare? || e.And? || e.Or? {
      var x, y := OperandsOf(e, context, v);
      OtherBindingsAllowAll(e.left, context, more, x);
      OtherBindingsAllowAll(e.right, context, more, y);
      CombinedIsPossible(e, more, x, y);
    } else {
      BoundLeafAllowsAll(e, context, more, v);
    }
  }

  lemma BoundLeafAllowsAll(e: Expr, context: Context, more: Context, v: Value)
    requires Extends(context, more) && Possible(e, context, v) && Level(e) == 5
    requires e.Reference? ==> e.name in context
    ensures Possible(e, more, v)
  {}

  lemma UnrepeatedParts(e: Expr, context: Context)
    requires (e.Compare? || e.And? || e.Or?) && Repeated(e, context) == {}
    ensures Repeated(e.left, context) == {} && Repeated(e.right, context) == {}
    ensures Unbound(e.left, context) !! Unbound(e.right, context)
    ensures Unbound(e, context) == Unbound(e.left, context) + Unbound(e.right, context)
  {
    hide Refs;
    assert Refs(e) == Refs(e.left) + Refs(e.right) by { RefsOfParts(e); }
    forall name | name !in context ensures Refs(e.left)[name] + Refs(e.right)[name] <= 1 {
      if name in Refs(e) { assert name !in Repeated(e, context); }
    }
  }

  lemma RefsOfParts(e: Expr)
    requires e.Compare? || e.And? || e.Or?
    ensures Refs(e) == Refs(e.left) + Refs(e.right)
  {}

  /** Two completions that share only the context, together. */
  lemma Together(context: Context, a: Context, b: Context, left: set<string>, right: set<string>)
    requires Extends(context, a) && a.Keys == context.Keys + left
    requires Extends(context, b) && b.Keys == context.Keys + right
    requires left !! right
    ensures Extends(a, a + b) && Extends(b, a + b) && (a + b).Keys == context.Keys + (left + right)
    ensures Extends(context, a + b)
  {}

  /** While no unbound reference repeats, every value of the range is taken. */
  lemma {:induction false} RangeIsTaken(e: Expr, context: Context, v: Value) returns (more: Context)
    requires Repeated(e, context) == {} && Within(v, RangeOf(e, context))
    ensures Extends(context, more) && more.Keys == context.Keys + Unbound(e, context) && Possible(e, more, v)
  {
    hide Equal, Truthy, Possible, Within, NotRange, CompareRange, ConnectiveRange, Repeated, Unbound, Extends, Refs;
    if e.Not? {
      assert Refs(e) == Refs(e.operand) by { RefsOfNot(e); }
      var x := NotTakes(RangeOf(e.operand, context), v);
      assert Repeated(e.operand, context) == {} && Unbound(e.operand, context) == Unbound(e, context) by {
        SameRefs(e, e.operand, context);
      }
      more := RangeIsTaken(e.operand, context, x);
      NotIsPossible(e.operand, more, x);
    } else if e.Compare? || e.And? || e.Or? {
      UnrepeatedParts(e, context);
      var x, y := BinaryTakes(e, context, v);
      var a := RangeIsTaken(e.left, context, x);
      var b := RangeIsTaken(e.right, context, y);
      Together(context, a, b, Unbound(e.left, context), Unbound(e.right, context));
      more := a + b;
      AllBound(e.left, context, a);
      AllBound(e.right, context, b);
      OtherBindingsAllowAll(e.left, a, more, x);
      OtherBindingsAllowAll(e.right, b, more, y);
      CombinedIsPossible(e, more, x, y);
    } else {
      more := LeafIsTaken(e, context, v);
    }
  }

  lemma RefsOfNot(e: Expr)
    requires e.Not?
    ensures Refs(e) == Refs(e.operand)
  {}

  lemma SameRefs(e: Expr, f: Expr, context: Context)
    requires Refs(e) == Refs(f)
    ensures Repeated(e, context) == Repeated(f, context) && Unbound(e, context) == Unbound(f, context)
  {}

  lemma AllBound(e: Expr, context: Context, more: Context)
    requires more.Keys == context.Keys + Unbound(e, context)
    ensures forall name :: name in Refs(e) ==> name in more
  {
    forall name | name in Refs(e) ensures name in more { assert name in context.Keys + Unbound(e, context); }
  }

  lemma LeafIsTaken(e: Expr, context: Context, v: Value) returns (more: Context)
    requires Level(e) == 5 && Within(v, RangeOf(e, context))
    ensures Extends(context, more) && more.Keys == context.Keys + Unbound(e, context) && Possible(e, more, v)
  {
    more := if e.Reference? && e.name !in context then context[e.name := v] else context;
  }

  /** Bindings of the repeated references alone. */
  predicate BindsRepeated(e: Expr, context: Context, some: Context) {
    Extends(context, some) && some.Keys == context.Keys + Repeated(e, context)
  }

  /** The bindings of the repeated references that a completion makes. */
  function RepeatedIn(e: Expr, context: Context, more: Context): Context {
    map name | name in more && (name in context || name in Repeated(e, context)) :: more[name]
  }

  lemma BoundAlone(e: Expr, context: Context, more: Context)
    requires Completes(e, context, more)
    ensures BindsRepeated(e, context, RepeatedIn(e, context, more)) && Extends(RepeatedIn(e, context, more), more)
  {
    hide Refs;
    forall name | name in context.Keys + Repeated(e, context) ensures name in RepeatedIn(e, context, more) {}
  }

  lemma NoneRepeatedAfter(e: Expr, context: Context, some: Context)
    requires BindsRepeated(e, context, some)
    ensures Repeated(e, some) == {}
  {
    hide Refs;
    forall name | name in Refs(e) && name !in some ensures name !in Repeated(e, some) {
      assert name !in context.Keys + Repeated(e, context);
    }
  }

  /** Bindings of the repeated references, completed to take any value then in the range. */
  lemma CompletedFrom(e: Expr, context: Context, some: Context, v: Value) returns (more: Context)
    requires BindsRepeated(e, context, some) && Within(v, RangeOf(e, some))
    ensures Completes(e, context, more) && Possible(e, more, v)
  {
    hide Possible, Within, RangeOf, Refs, Repeated, Unbound;
    NoneRepeatedAfter(e, context, some);
    more := RangeIsTaken(e, some, v);
    AllBound(e, some, more);
  }

  /** What a condition can come to, exactly: the values in its range under some binding of the references it repeats. */
  lemma TakesIff(e: Expr, context: Context, v: Value)
    ensures Takes(e, context, v) <==> exists some :: BindsRepeated(e, context, some) && Within(v, RangeOf(e, some))
  {
    hide Possible, Within, RangeOf, Completes, BindsRepeated, RepeatedIn, Extends;
    if more :| Completes(e, context, more) && Possible(e, more, v) {
      BoundAlone(e, context, more);
      var some := RepeatedIn(e, context, more);
      FewerBindingsAllowMore(e, some, more, v);
      RangeIsExact(e, some, v);
      assert BindsRepeated(e, context, some) && Within(v, RangeOf(e, some));
    }
    if some :| BindsRepeated(e, context, some) && Within(v, RangeOf(e, some)) {
      var more := CompletedFrom(e, context, some, v);
      assert Completes(e, context, more) && Possible(e, more, v);
    }
  }

  /** While none repeats, the range itself. */
  lemma UnrepeatedTakesIff(e: Expr, context: Context, v: Value)
    requires Repeated(e, context) == {}
    ensures Takes(e, context, v) <==> Within(v, RangeOf(e, context))
  {
    hide Within, RangeOf, Takes, Repeated;
    TakesIff(e, context, v);
    assert BindsRepeated(e, context, context);
    forall some | BindsRepeated(e, context, some) ensures some == context {}
  }

  /** Without calls either, these are just the values it is evaluated to under the bindings that may yet be learnt. */
  lemma UnrepeatedEvaluatesIff(e: Expr, context: Context, v: Value)
    requires CallFree(e) && Repeated(e, context) == {}
    ensures (exists more :: Extends(context, more) && Eval(e, more) == Some(v)) <==> Within(v, RangeOf(e, context))
  {
    hide Within, RangeOf, Possible, Extends, Repeated, CallFree, Eval;
    if Within(v, RangeOf(e, context)) {
      UnrepeatedTakesIff(e, context, v);
      TakesIsEvaluates(e, context, v);
    }
    if more :| Extends(context, more) && Eval(e, more) == Some(v) {
      var w := SomethingIsPossible(e, more);
      EvalIsSound(e, more, w);
      FewerBindingsAllowMore(e, context, more, v);
      RangeIsExact(e, context, v);
    }
  }

  ghost predicate BothAnswers(e: Expr, context: Context) {
    exists v, w :: Takes(e, context, v) && Truthy(v) && Takes(e, context, w) && !Truthy(w)
  }

  /** While no unbound reference repeats, both answers are given by some bindings exactly when the range is not a single
      value; and MAYBE says so unless an open truth value is compared with a constant no truth value equals. */
  lemma MaybeHasBothAnswers(e: Expr, context: Context)
    requires Repeated(e, context) == {}
    ensures BothAnswers(e, context) <==> !RangeOf(e, context).One?
    ensures Eval(e, context).None? && !ComparesUnlike(e, context) ==> BothAnswers(e, context)
  {
    hide RangeOf, Takes, Eval, ComparesUnlike, Repeated;
    if RangeOf(e, context).One? {
      if v, w :| Takes(e, context, v) && Truthy(v) && Takes(e, context, w) && !Truthy(w) {
        UnrepeatedTakesIff(e, context, v);
        UnrepeatedTakesIff(e, context, w);
      }
    } else {
      UnrepeatedTakesIff(e, context, Bool(true));
      UnrepeatedTakesIff(e, context, Bool(false));
      assert Takes(e, context, Bool(true)) && Truthy(Bool(true));
      assert Takes(e, context, Bool(false)) && !Truthy(Bool(false));
    }
    if Eval(e, context).None? && !ComparesUnlike(e, context) { MaybeIsOpen(e, context); }
  }

  /** A reference that repeats can settle MAYBE as well: a value or its negation is truthy for every value. */
  lemma RepeatedReferenceSettles(v: Value)
    ensures var e := Or(Reference("x"), Not(Reference("x")));
      && Eval(e, map[]).None? && !ComparesUnlike(e, map[]) && RangeOf(e, map[]) == Both
      && Eval(e, map["x" := v]) == Some(Bool(true))
      && (Takes(e, map[], v) <==> v == Bool(true))
  {
    var e := Or(Reference("x"), Not(Reference("x")));
    var context: Context := map[];
    assert Refs(e) == multiset{"x", "x"} && Repeated(e, context) == {"x"};
    TakesIff(e, context, v);
    var bound: Context := map["x" := v];
    assert BindsRepeated(e, context, bound);
    forall some | BindsRepeated(e, context, some) ensures RangeOf(e, some) == One(Bool(true)) {
      assert "x" in some.Keys;
    }
  }

  // ---------- what known values decide ----------

  /** How two known operands compare: texts by their characters, truths and integers as numbers with true one and false
      zero, null with itself alone, and anything else unequal. */
  lemma CompareDecides(e: Expr, f: Expr, context: Context, v: Value, w: Value)
    requires Eval(e, context) == Some(v) && Eval(f, context) == Some(w)
    ensures var same := Eval(Compare(true, e, f), context) == Some(Bool(true));
      && (v.Str? && w.Str? ==> (same <==> v.text == w.text))
      && (v.Bool? && w.Bool? ==> (same <==> v.flag == w.flag))
      && (v.Int? && w.Int? ==> (same <==> v.number == w.number))
      && (v.Bool? && w.Int? ==> (same <==> w.number == (if v.flag then 1 else 0)))
      && (v.Int? && w.Bool? ==> (same <==> v.number == (if w.flag then 1 else 0)))
      && (v.Null? && w.Null? ==> same)
      && (v.Str? != w.Str? || v.Null? != w.Null? ==> !same)
    ensures Eval(Compare(false, e, f), context)
         == Some(Bool(Eval(Compare(true, e, f), context) == Some(Bool(false))))
  {}

  /** What a known value answers: any text but the empty one, true, and any number but zero. */
  lemma ValueDecides(e: Expr, context: Context, v: Value)
    requires Eval(e, context) == Some(v)
    ensures Answer(Eval(e, context)) == TRUE <==>
              (v.Str? && |v.text| > 0) || (v.Bool? && v.flag) || (v.Int? && (v.number > 0 || v.number < 0))
    ensures Answer(Eval(e, context)) == TRUE || Answer(Eval(e, context)) == FALSE
    ensures Answer(Eval(Not(e), context)) == TRUE <==> Answer(Eval(e, context)) == FALSE
  {}

  /** The comparison the workflows rest on, however it is spaced: it holds for the event named and for no other,
      whatever is bound besides; and its negation the other way round. */
  lemma EventDecides(equal: bool, name: string, pieces: seq<Piece>, after: string, event: string, bindings: Context)
    requires TokensOf(pieces) == ["github.event_name", if equal then "==" else "!=", Quoted(name)]
    requires LaidOut(pieces, after)
    ensures Answer(Eval(Meaning(Layout(pieces) + after), ContextFor(event, bindings)))
         == if (event == name) == equal then TRUE else FALSE
  {
    hide Meaning, LaidOut, Layout, IsName, Equal, IsSpace;
    var left, right := Reference("github.event_name"), Literal(name);
    var e := Compare(equal, left, right);
    assert IsName("github.event_name") by { EventIsAName(); }
    assert Print(left, 3) == ["github.event_name"] && Print(right, 4) == [Quoted(name)];
    assert Print(e, 1) == TokensOf(pieces);
    PrintedTextMeansIt(e, pieces, after, "", "");
    CompareDecides(left, right, ContextFor(event, bindings), Str(event), Str(name));
  }

  lemma EventIsAName()
    ensures IsName("github.event_name")
  {}

  /** Written as the workflows write it, one blank between the tokens. */
  lemma EventTextDecides(equal: bool, name: string, event: string, bindings: Context)
    ensures var text := "github.event_name" + (" " + ((if equal then "==" else "!=") + (" " + Quoted(name))));
      Answer(Eval(Meaning(text), ContextFor(event, bindings))) == if (event == name) == equal then TRUE else FALSE
  {
    hide Meaning, Eval, ContextFor, Quoted, Answer, Layout, TokensOf, LaidOut, IsToken, IsBlank, IsSpace;
    var operator := if equal then "==" else "!=";
    EventTokens(operator, name);
    var third := PieceBefore(" ", Quoted(name), []);
    var second := PieceBefore(" ", operator, third);
    var pieces := PieceBefore("", "github.event_name", second);
    var text := "github.event_name" + (" " + (operator + (" " + Quoted(name))));
    assert Layout(third) == " " + Quoted(name);
    assert Layout(pieces) + "" == text;
    EventDecides(equal, name, pieces, "", event, bindings);
  }

  lemma EventTokens(operator: string, name: string)
    requires operator == "==" || operator == "!="
    ensures IsToken("github.event_name") && IsToken(operator) && IsToken(Quoted(name))
    ensures IsBlank("") && IsBlank(" ") && IsSpace(' ')
    ensures LaidOut([], "") && Layout([]) == "" && TokensOf([]) == []
  {
    hide Quoted, IsName;
    EventIsAName();
  }

  /** One more token in front of a layout that is empty or begins with a blank. */
  lemma PieceBefore(gap: string, token: string, rest: seq<Piece>) returns (pieces: seq<Piece>)
    requires IsBlank(gap) && IsToken(token) && LaidOut(rest, "")
    requires Layout(rest) != "" ==> IsSpace(Layout(rest)[0])
    ensures LaidOut(pieces, "") && TokensOf(pieces) == [token] + TokensOf(rest)
    ensures Layout(pieces) == gap + (token + Layout(rest))
  {
    hide IsToken, IsSpace;
    pieces := [Piece(gap, token)] + rest;
    assert pieces[1..] == rest && Layout(rest) + "" == Layout(rest);
  }
}
