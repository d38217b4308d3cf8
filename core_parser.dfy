/** The recursive-descent parser of `JavpyCore` (javpy_core.py). The Python
    code consumes one shared token list with `pop(0)`; here the list is the
    field `tokens` of a `Parser` object, and each `parse_*` helper is a method
    proved equal to a function on token sequences that returns the tree and
    the tokens left over. */
module CoreParser {
  import opened Lexing
  import opened CoreLexer

  /** Expression nodes. A STRING token's value and an identifier's name are
      the token's payload; a number is the value `float` gives it. */
  datatype Expr =
    | NumberLit(x: real)
    | StringLit(value: Payload)
    | BoolLit(b: bool)
    | Identifier(name: Payload)
    | Operation(op: string, left: Expr, right: Expr)

  /** Statement nodes: `print` and `[const] name : expr`. */
  datatype Stmt = PrintStmt(expr: Expr) | VarDecl(name: Payload, expr: Expr, isConst: bool)

  datatype ParseError =
    | UnexpectedEnd                 // no token where a primary is expected
    | MissingParen                  // "(" expression not followed by ")"
    | UnexpectedToken(kind: Kind)   // a token that cannot start a primary
    | ExpectedColon                 // a declared name not followed by ":"
    | PopFromEmpty                  // a declaration cut short: `pop(0)` of an empty list

  /** The result of a `parse_*` helper: the tree and the unconsumed tokens, or an error. */
  datatype Partial<T> = POk(value: T, rest: seq<Token>) | PErr(error: ParseError)

  /** The result of a parser method; the unconsumed tokens are in the parser's field. */
  datatype Outcome<T> = Parsed(value: T) | Failed(error: ParseError)

  const AddOps: set<string> := {"+", "-"}
  const MulOps: set<string> := {"*", "/", "//", "%"}
  const BinaryOps: set<string> := {"+", "-", "*", "/", "//", "%", "**"}

  /** The next token's value is the text of one of `ops`: operators are
      recognised by value, whatever the token's kind. */
  predicate Ahead(ts: seq<Token>, ops: set<string>)
  {
    ts != [] && ts[0].value.Text? && ts[0].value.text in ops
  }

  /** Python's `float(token_value)` on a NUMBER token. */
  function NumberValue(p: Payload): real
  {
    match p
    case Float(x) => x
    case Text(t) => DecimalValue(t)
  }

  function Expression(ts: seq<Token>): (r: Partial<Expr>)
    ensures r.POk? ==> |r.rest| < |ts|
    decreases |ts|, 8
  {
    Addition(ts)
  }

  /** `addition := multiplication (('+'|'-') multiplication)*` */
  function Addition(ts: seq<Token>): (r: Partial<Expr>)
    ensures r.POk? ==> |r.rest| < |ts|
    decreases |ts|, 7
  {
    match Multiplication(ts)
    case PErr(e) => PErr(e)
    case POk(left, rest) => AdditionTail(left, rest)
  }

  /** The `while` loop of `parse_addition`, with `left` built so far. */
  function AdditionTail(left: Expr, ts: seq<Token>): (r: Partial<Expr>)
    ensures r.POk? ==> |r.rest| <= |ts|
    decreases |ts|, 6
  {
    if Ahead(ts, AddOps) then
      match Multiplication(ts[1..])
      case PErr(e) => PErr(e)
      case POk(right, rest) => AdditionTail(Operation(ts[0].value.text, left, right), rest)
    else POk(left, ts)
  }

  /** `multiplication := power (('*'|'/'|'//'|'%') power)*` */
  function Multiplication(ts: seq<Token>): (r: Partial<Expr>)
    ensures r.POk? ==> |r.rest| < |ts|
    decreases |ts|, 5
  {
    match Power(ts)
    case PErr(e) => PErr(e)
    case POk(left, rest) => MultiplicationTail(left, rest)
  }

  function MultiplicationTail(left: Expr, ts: seq<Token>): (r: Partial<Expr>)
    ensures r.POk? ==> |r.rest| <= |ts|
    decreases |ts|, 4
  {
    if Ahead(ts, MulOps) then
      match Power(ts[1..])
      case PErr(e) => PErr(e)
      case POk(right, rest) => MultiplicationTail(Operation(ts[0].value.text, left, right), rest)
    else POk(left, ts)
  }

  /** `power := primary ('**' power)*`, the right operand being a whole `power`. */
  function Power(ts: seq<Token>): (r: Partial<Expr>)
    ensures r.POk? ==> |r.rest| < |ts|
    decreases |ts|, 3
  {
    match Primary(ts)
    case PErr(e) => PErr(e)
    case POk(left, rest) => PowerTail(left, rest)
  }

  function PowerTail(left: Expr, ts: seq<Token>): (r: Partial<Expr>)
    ensures r.POk? ==> |r.rest| <= |ts|
    decreases |ts|, 2
  {
    if Ahead(ts, {"**"}) then
      match Power(ts[1..])
      case PErr(e) => PErr(e)
      case POk(right, rest) => PowerTail(Operation("**", left, right), rest)
    else POk(left, ts)
  }

  /** `primary := NUMBER | STRING | True | False | IDENT | '(' expression ')'` */
  function Primary(ts: seq<Token>): (r: Partial<Expr>)
    ensures r.POk? ==> |r.rest| < |ts|
    decreases |ts|, 1
  {
    if ts == [] then PErr(UnexpectedEnd)
    else
      var t := ts[0];
      if t.kind == Number then POk(NumberLit(NumberValue(t.value)), ts[1..])
      else if t.kind == String then POk(StringLit(t.value), ts[1..])
      else if t.kind == Ident && (t.value == Text("True") || t.value == Text("False")) then
        POk(BoolLit(t.value == Text("True")), ts[1..])
      else if t.kind == Ident then POk(Identifier(t.value), ts[1..])
      else if t.value == Text("(") then
        match Expression(ts[1..])
        case PErr(e) => PErr(e)
        case POk(e, rest) =>
          if rest == [] || rest[0].value != Text(")") then PErr(MissingParen)
          else POk(e, rest[1..])
      else PErr(UnexpectedToken(t.kind))
  }

  /** The top-level `while tokens` loop of `parse`, with the statements
      collected so far in `acc`. */
  function Statements(ts: seq<Token>, acc: seq<Stmt>): (r: Outcome<seq<Stmt>>)
    ensures r.Parsed? ==> acc <= r.value && |r.value| <= |acc| + |ts|
    decreases |ts|
  {
    if ts == [] then Parsed(acc)
    else if ts[0].kind == Print then
      match Expression(ts[1..])
      case PErr(e) => Failed(e)
      case POk(e, rest) => Statements(rest, acc + [PrintStmt(e)])
    else if ts[0].kind == Const || ts[0].kind == Ident then
      var isConst := ts[0].kind == Const;
      var afterKeyword := if isConst then ts[1..] else ts;
      if afterKeyword == [] then Failed(PopFromEmpty)
      else
        var name := afterKeyword[0].value;
        var afterName := afterKeyword[1..];
        if afterName == [] then Failed(PopFromEmpty)
        else if afterName[0].kind != Colon then Failed(ExpectedColon)
        else
          match Expression(afterName[1..])
          case PErr(e) => Failed(e)
          case POk(e, rest) => Statements(rest, acc + [VarDecl(name, e, isConst)])
    else Statements(ts[1..], acc)
  }

  /** What `JavpyCore.parse` returns or raises: None for an empty token
      list, otherwise the statements in source order. */
  function Program(ts: seq<Token>): (r: Outcome<Option<seq<Stmt>>>)
    ensures r == Parsed(None) <==> ts == []
    ensures r.Parsed? && r.value.Some? ==> |r.value.value| <= |ts|
  {
    if ts == [] then Parsed(None)
    else
      match Statements(ts, [])
      case Failed(e) => Failed(e)
      case Parsed(ss) => Parsed(Some(ss))
  }

  /** The method's outcome paired with the tokens it left, as a `Partial`. */
  function Pair<T>(r: Outcome<T>, rest: seq<Token>): Partial<T>
  {
    match r
    case Parsed(v) => POk(v, rest)
    case Failed(e) => PErr(e)
  }

  /** The state of one call of `JavpyCore.parse`: the token list that its
      nested helpers share and consume from the front. */
  class Parser {
    var tokens: seq<Token>

    constructor (ts: seq<Token>)
      ensures tokens == ts
    {
      tokens := ts;
    }

    /** `tokens.pop(0)`, on a list known to be non-empty. */
    method Pop() returns (t: Token)
      requires tokens != []
      modifies this
      ensures t == old(tokens)[0] && tokens == old(tokens)[1..]
    {
      t := tokens[0];
      tokens := tokens[1..];
    }

    method ParseExpression() returns (r: Outcome<Expr>)
      modifies this
      ensures Pair(r, tokens) == Expression(old(tokens))
      decreases |tokens|, 8
    {
      r := ParseAddition();
    }

    method ParseAddition() returns (r: Outcome<Expr>)
      modifies this
      ensures Pair(r, tokens) == Addition(old(tokens))
      decreases |tokens|, 7
    {
      var first := ParseMultiplication();
      if first.Failed? {
        return first;
      }
      var left := first.value;
      while Ahead(tokens, AddOps)
        invariant |tokens| < |old(tokens)|
        invariant AdditionTail(left, tokens) == Addition(old(tokens))
        decreases |tokens|
      {
        var operator := Pop();
        var right := ParseMultiplication();
        if right.Failed? {
          return right;
        }
        left := Operation(operator.value.text, left, right.value);
      }
      return Parsed(left);
    }

    method ParseMultiplication() returns (r: Outcome<Expr>)
      modifies this
      ensures Pair(r, tokens) == Multiplication(old(tokens))
      decreases |tokens|, 5
    {
      var first := ParsePower();
      if first.Failed? {
        return first;
      }
      var left := first.value;
      while Ahead(tokens, MulOps)
        invariant |tokens| < |old(tokens)|
        invariant MultiplicationTail(left, tokens) == Multiplication(old(tokens))
        decreases |tokens|
      {
        var operator := Pop();
        var right := ParsePower();
        if right.Failed? {
          return right;
        }
        left := Operation(operator.value.text, left, right.value);
      }
      return Parsed(left);
    }

    method ParsePower() returns (r: Outcome<Expr>)
      modifies this
      ensures Pair(r, tokens) == Power(old(tokens))
      decreases |tokens|, 3
    {
      var first := ParsePrimary();
      if first.Failed? {
        return first;
      }
      var left := first.value;
      while Ahead(tokens, {"**"})
        invariant |tokens| < |old(tokens)|
        invariant PowerTail(left, tokens) == Power(old(tokens))
        decreases |tokens|
      {
        var operator := Pop();
        var right := ParsePower();
        if right.Failed? {
          return right;
        }
        left := Operation(operator.value.text, left, right.value);
      }
      return Parsed(left);
    }

    method ParsePrimary() returns (r: Outcome<Expr>)
      modifies this
      ensures Pair(r, tokens) == Primary(old(tokens))
      decreases |tokens|, 1
    {
      if tokens == [] {
        return Failed(UnexpectedEnd);
      }
      var tokenType, tokenValue := tokens[0].kind, tokens[0].value;
      if tokenType == Number {
        var _ := Pop();
        return Parsed(NumberLit(NumberValue(tokenValue)));
      } else if tokenType == String {
        var _ := Pop();
        return Parsed(StringLit(tokenValue));
      } else if tokenType == Ident && (tokenValue == Text("True") || tokenValue == Text("False")) {
        var _ := Pop();
        return Parsed(BoolLit(tokenValue == Text("True")));
      } else if tokenType == Ident {
        var _ := Pop();
        return Parsed(Identifier(tokenValue));
      } else if tokenValue == Text("(") {
        var _ := Pop();
        var expr := ParseExpression();
        if expr.Failed? {
          return expr;
        }
        if tokens == [] || tokens[0].value != Text(")") {
          return Failed(MissingParen);
        }
        var _ := Pop();
        return expr;
      }
      return Failed(UnexpectedToken(tokenType));
    }

    /** `JavpyCore.parse`: on success the whole token list is consumed. */
    method Parse() returns (r: Outcome<Option<seq<Stmt>>>)
      modifies this
      ensures r == Program(old(tokens))
      ensures r.Parsed? ==> tokens == []
    {
      if tokens == [] {
        return Parsed(None);
      }
      var statements: seq<Stmt> := [];
      while tokens != []
        invariant Statements(tokens, statements) == Statements(old(tokens), [])
        decreases |tokens|
      {
        var head := tokens[0].kind;
        if head == Print {
          var _ := Pop();
          var expr := ParseExpression();
          if expr.Failed? {
            return Failed(expr.error);
          }
          statements := statements + [PrintStmt(expr.value)];
        } else if head == Const || head == Ident {
          if head == Const {
            var _ := Pop();
          }
          if tokens == [] {
            return Failed(PopFromEmpty);
          }
          var varName := Pop();
          if tokens == [] {
            return Failed(PopFromEmpty);
          }
          var colon := Pop();
          if colon.kind != Colon {
            return Failed(ExpectedColon);
          }
          var value := ParseExpression();
          if value.Failed? {
            return Failed(value.error);
          }
          statements := statements + [VarDecl(varName.value, value.value, head == Const)];
        } else {
          var _ := Pop();
        }
      }
      return Parsed(Some(statements));
    }
  }
}
