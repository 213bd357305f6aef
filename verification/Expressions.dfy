/** Workflow conditions in `dev/guards/_workflows.py`: a recursive-descent parser with a moving index that evaluates
    as it goes, in three-valued logic. */
module Expressions {
  import opened Options
  import opened ExpressionTokens

  /** What a context reference may be bound to. */
  datatype Value = Str(text: string) | Bool(flag: bool) | Int(number: int) | Null

  function Truthy(v: Value): bool {
    match v
    case Str(s) => s != ""
    case Bool(b) => b
    case Int(n) => n != 0
    case Null => false
  }

  /** `==` of the host language, to which a boolean is a number. */
  function Equal(a: Value, b: Value): bool {
    var x, y := AsInt(a), AsInt(b);
    if x.Some? && y.Some? then x == y else a == b
  }

  function AsInt(v: Value): Option<int> {
    match v
    case Bool(b) => Some(if b then 1 else 0)
    case Int(n) => Some(n)
    case _ => None
  }

  /** A value, or nothing when it is not known. */
  type Known = Option<Value>

  function AndValues(left: Known, right: Known): Known {
    if (left.Some? && !Truthy(left.value)) || (right.Some? && !Truthy(right.value)) then Some(Bool(false))
    else if left.None? || right.None? then None
    else Some(Bool(true))
  }

  function OrValues(left: Known, right: Known): Known {
    if (left.Some? && Truthy(left.value)) || (right.Some? && Truthy(right.value)) then Some(Bool(true))
    else if left.None? || right.None? then None
    else Some(Bool(false))
  }

  function CompareValues(equal: bool, left: Known, right: Known): Known {
    if left.None? || right.None? then None else Some(Bool(Equal(left.value, right.value) == equal))
  }

  function NotValue(v: Known): Known {
    if v.None? then None else Some(Bool(!Truthy(v.value)))
  }

  type Context = map<string, Value>

  // ---------- the language ----------

  /** What a token list says; `Missing` stands where the tokens ran out, and a call keeps its argument tokens unread. */
  datatype Expr =
    | Missing
    | Literal(text: string)
    | Flag(value: bool)
    | Reference(name: string)
    | Call(name: string, arguments: seq<string>)
    | Not(operand: Expr)
    | Compare(equal: bool, left: Expr, right: Expr)
    | And(left: Expr, right: Expr)
    | Or(left: Expr, right: Expr)

  function Eval(e: Expr, context: Context): Known {
    match e
    case Missing => None
    case Literal(s) => Some(Str(s))
    case Flag(b) => Some(Bool(b))
    case Reference(name) => if name in context then Some(context[name]) else None
    case Call(_, _) => None
    case Not(a) => NotValue(Eval(a, context))
    case Compare(equal, l, r) => CompareValues(equal, Eval(l, context), Eval(r, context))
    case And(l, r) => AndValues(Eval(l, context), Eval(r, context))
    case Or(l, r) => OrValues(Eval(l, context), Eval(r, context))
  }

  // ---------- the grammar, as functions of the tokens left ----------

  type Parsed = (Expr, seq<string>)

  function ParseOr(ts: seq<string>): (r: Parsed)
    ensures |r.1| <= |ts|
    decreases |ts|, 8
  {
    var (left, rest) := ParseAnd(ts);
    OrLoop(left, rest)
  }

  function OrLoop(left: Expr, ts: seq<string>): (r: Parsed)
    ensures |r.1| <= |ts|
    decreases |ts|, 7
  {
    if ts == [] || ts[0] != "||" then (left, ts) else
    var (right, rest) := ParseAnd(ts[1..]);
    OrLoop(Or(left, right), rest)
  }

  function ParseAnd(ts: seq<string>): (r: Parsed)
    ensures |r.1| <= |ts|
    decreases |ts|, 6
  {
    var (left, rest) := ParseCompare(ts);
    AndLoop(left, rest)
  }

  function AndLoop(left: Expr, ts: seq<string>): (r: Parsed)
    ensures |r.1| <= |ts|
    decreases |ts|, 5
  {
    if ts == [] || ts[0] != "&&" then (left, ts) else
    var (right, rest) := ParseCompare(ts[1..]);
    AndLoop(And(left, right), rest)
  }

  function ParseCompare(ts: seq<string>): (r: Parsed)
    ensures |r.1| <= |ts|
    decreases |ts|, 4
  {
    var (left, rest) := ParseUnary(ts);
    CompareLoop(left, rest)
  }

  function CompareLoop(left: Expr, ts: seq<string>): (r: Parsed)
    ensures |r.1| <= |ts|
    decreases |ts|, 3
  {
    if ts == [] || (ts[0] != "==" && ts[0] != "!=") then (left, ts) else
    var (right, rest) := ParseUnary(ts[1..]);
    CompareLoop(Compare(ts[0] == "==", left, right), rest)
  }

  function ParseUnary(ts: seq<string>): (r: Parsed)
    ensures |r.1| <= |ts|
    decreases |ts|, 2
  {
    if ts == [] || ts[0] != "!" then ParsePrimary(ts) else
    var (operand, rest) := ParseUnary(ts[1..]);
    (Not(operand), rest)
  }

  function ParsePrimary(ts: seq<string>): (r: Parsed)
    ensures |r.1| <= |ts|
    decreases |ts|, 1
  {
    if ts == [] then (Missing, []) else
    var token, after := ts[0], ts[1..];
    if token == "(" then
      var (inner, rest) := ParseOr(after);
      (inner, if rest != [] && rest[0] == ")" then rest[1..] else rest)
    else if token != "" && token[0] == '\'' then (Literal(Undoubled(Inside(token))), after)
    else if after != [] && after[0] == "(" then
      var rest := AfterCall(after, 0);
      (Call(token, after[..|after| - |rest|]), rest)
    else if token == "true" || token == "false" then (Flag(token == "true"), after)
    else (Reference(token), after)
  }

  /** `token[1:-1]`. */
  function Inside(token: string): string {
    if |token| < 2 then "" else token[1..|token| - 1]
  }

  /** What follows a call's argument list, `depth` parentheses into it. */
  function AfterCall(ts: seq<string>, depth: int): (rest: seq<string>)
    ensures |rest| <= |ts| && rest == ts[|ts| - |rest|..]
  {
    if ts == [] then []
    else if ts[0] == "(" then AfterCall(ts[1..], depth + 1)
    else if ts[0] == ")" then (if depth == 1 then ts[1..] else AfterCall(ts[1..], depth - 1))
    else AfterCall(ts[1..], depth)
  }

  // ---------- the parser ----------

  /** Every method reads off the tokens what the grammar says they spell, and moves the index past just that, whatever
      the context holds. */
  class Parser {
    const tokens: seq<string>
    const context: Context
    var index: nat

    constructor (tokens: seq<string>, context: Context)
      ensures this.tokens == tokens && this.context == context && index == 0
    {
      this.tokens, this.context := tokens, context;
      index := 0;
    }

    ghost predicate Valid()
      reads this
    {
      index <= |tokens|
    }

    function Left(): seq<string>
      reads this
      requires Valid()
    {
      tokens[index..]
    }

    predicate Peeks(token: string)
      reads this
      requires Valid()
    {
      index < |tokens| && tokens[index] == token
    }

    method Take() returns (token: Option<string>)
      requires Valid()
      modifies this
      ensures Valid()
      ensures token == if old(Left()) == [] then None else Some(old(Left())[0])
      ensures Left() == if old(Left()) == [] then [] else old(Left())[1..]
    {
      if index == |tokens| {
        return None;
      }
      token := Some(tokens[index]);
      index := index + 1;
    }

    method Or() returns (value: Known)
      requires Valid()
      modifies this
      ensures Valid() && index >= old(index)
      ensures Left() == ParseOr(old(Left())).1 && value == Eval(ParseOr(old(Left())).0, context)
      decreases |tokens| - index, 6
    {
      ghost var ts := Left();
      ghost var e := ParseAnd(ts).0;
      value := this.And();
      while Peeks("||")
        invariant Valid() && index >= old(index)
        invariant value == Eval(e, context) && OrLoop(e, Left()) == ParseOr(ts)
        decreases |tokens| - index
      {
        var _ := Take();
        e := Expr.Or(e, ParseAnd(Left()).0);
        var right := this.And();
        value := OrValues(value, right);
      }
    }

    method And() returns (value: Known)
      requires Valid()
      modifies this
      ensures Valid() && index >= old(index)
      ensures Left() == ParseAnd(old(Left())).1 && value == Eval(ParseAnd(old(Left())).0, context)
      decreases |tokens| - index, 5
    {
      ghost var ts := Left();
      ghost var e := ParseCompare(ts).0;
      value := this.Compare();
      while Peeks("&&")
        invariant Valid() && index >= old(index)
        invariant value == Eval(e, context) && AndLoop(e, Left()) == ParseAnd(ts)
        decreases |tokens| - index
      {
        var _ := Take();
        e := Expr.And(e, ParseCompare(Left()).0);
        var right := this.Compare();
        value := AndValues(value, right);
      }
    }

    method Compare() returns (value: Known)
      requires Valid()
      modifies this
      ensures Valid() && index >= old(index)
      ensures Left() == ParseCompare(old(Left())).1 && value == Eval(ParseCompare(old(Left())).0, context)
      decreases |tokens| - index, 4
    {
      ghost var ts := Left();
      ghost var e := ParseUnary(ts).0;
      value := this.Unary();
      while Peeks("==") || Peeks("!=")
        invariant Valid() && index >= old(index)
        invariant value == Eval(e, context) && CompareLoop(e, Left()) == ParseCompare(ts)
        decreases |tokens| - index
      {
        var operator := Take();
        e := Expr.Compare(operator == Some("=="), e, ParseUnary(Left()).0);
        var right := this.Unary();
        if value.None? || right.None? {
          value := None;
        } else if operator == Some("==") {
          value := Some(Bool(Equal(value.value, right.value)));
        } else {
          value := Some(Bool(!Equal(value.value, right.value)));
        }
      }
    }

    method Unary() returns (value: Known)
      requires Valid()
      modifies this
      ensures Valid() && index >= old(index)
      ensures Left() == ParseUnary(old(Left())).1 && value == Eval(ParseUnary(old(Left())).0, context)
      decreases |tokens| - index, 3
    {
      if !Peeks("!") {
        value := this.Primary();
        return;
      }
      var _ := Take();
      value := this.Unary();
      value := if value.None? then None else Some(Bool(!Truthy(value.value)));
    }

    method Primary() returns (value: Known)
      requires Valid()
      modifies this
      ensures Valid() && index >= old(index)
      ensures Left() == ParsePrimary(old(Left())).1 && value == Eval(ParsePrimary(old(Left())).0, context)
      decreases |tokens| - index, 2
    {
      var took := Take();
      if took.None? {
        return None;
      }
      var token := took.value;
      if token == "(" {
        value := this.Or();
        if Peeks(")") {
          var _ := Take();
        }
        return;
      }
      if token != "" && token[0] == '\'' {
        return Some(Str(Undoubled(Inside(token))));
      }
      if Peeks("(") {
        SkipCall();
        return None;
      }
      if token == "true" || token == "false" {
        return Some(Bool(token == "true"));
      }
      return if token in context then Some(context[token]) else None;
    }

    method SkipCall()
      requires Valid()
      modifies this
      ensures Valid() && index >= old(index)
      ensures Left() == AfterCall(old(Left()), 0)
      decreases |tokens| - index, 1
    {
      var depth := 0;
      while index < |tokens|
        invariant Valid() && index >= old(index)
        invariant AfterCall(Left(), depth) == AfterCall(old(Left()), 0)
        decreases |tokens| - index
      {
        var token := Take();
        if token == Some("(") {
          depth := depth + 1;
        } else if token == Some(")") {
          depth := depth - 1;
          if depth == 0 {
            return;
          }
        }
      }
    }
  }
}
