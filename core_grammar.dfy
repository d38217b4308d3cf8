/** Properties of the `JavpyCore` grammar: operator precedence and
    associativity, stated as a round trip through a printer that writes a tree
    back as tokens, and the behaviour of the statement loop. */
module CoreGrammar {
  import opened Lexing
  import opened CoreLexer
  import opened CoreParser

  /** Binding strength: `+ -` is 1, `* / // %` is 2, `**` is 3, and a
      literal or a name is 4. */
  function Prec(e: Expr): (p: nat)
    ensures 1 <= p <= 4
    ensures p == 4 <==> !e.Operation?
  {
    match e
    case Operation(op, _, _) => if op in AddOps then 1 else if op in MulOps then 2 else 3
    case _ => 4
  }

  /** The trees the parser can build: every operator is one of the seven,
      and no identifier is spelled `True` or `False` (those are literals). */
  predicate WellFormed(e: Expr)
  {
    match e
    case Operation(op, l, r) => op in BinaryOps && WellFormed(l) && WellFormed(r)
    case Identifier(name) => name != Text("True") && name != Text("False")
    case _ => true
  }

  /** The token an operator or a parenthesis is printed as. */
  function OperatorToken(op: string): Token
  {
    Token(Operator, Text(op))
  }

  const LeftParen := OperatorToken("(")
  const RightParen := OperatorToken(")")

  /** The one token that denotes a literal or a name. */
  function AtomToken(e: Expr): (t: Token)
    requires !e.Operation?
    ensures t.kind in {Number, String, Ident}
  {
    match e
    case NumberLit(x) => Token(Number, Float(x))
    case StringLit(p) => Token(String, p)
    case BoolLit(b) => Token(Ident, Text(if b then "True" else "False"))
    case Identifier(p) => Token(Ident, p)
  }

  /** Tokens for `e` in a context that needs binding strength at least `k`:
      parentheses exactly where the precedence requires them. The left operand
      of a `+ - * / // %` may have the operator's own strength (left
      associativity), the right operand of `**` may (right associativity). */
  function Unparse(e: Expr, k: nat): (ts: seq<Token>)
    ensures ts != []
    decreases e
  {
    match e
    case Operation(op, l, r) =>
      var p := Prec(e);
      var inner := if p == 3 then Unparse(l, 4) + [OperatorToken(op)] + Unparse(r, 3)
                   else Unparse(l, p) + [OperatorToken(op)] + Unparse(r, p + 1);
      if p < k then [LeftParen] + inner + [RightParen] else inner
    case _ => [AtomToken(e)]
  }

  lemma UnparseWeaker(e: Expr, k: nat, j: nat)
    requires k <= j && Prec(e) < k
    ensures Unparse(e, k) == Unparse(e, j)
  {
  }

  lemma UnparseUnparenthesised(e: Expr, k: nat, j: nat)
    requires k <= j <= Prec(e)
    ensures Unparse(e, k) == Unparse(e, j)
  {
  }

  /** `parse_primary` reads back a tree printed at full strength. */
  lemma {:induction false} PrimaryRoundTrip(e: Expr, rest: seq<Token>)
    requires WellFormed(e)
    ensures Primary(Unparse(e, 4) + rest) == POk(e, rest)
    decreases e, if Prec(e) == 4 then 0 else 10
  {
    if e.Operation? {
      var inner := Unparse(e, 1);
      UnparseUnparenthesised(e, 1, Prec(e));
      assert Unparse(e, 4) == [LeftParen] + inner + [RightParen];
      var ts := Unparse(e, 4) + rest;
      assert ts == [LeftParen] + (inner + ([RightParen] + rest));
      assert ts[1..] == inner + ([RightParen] + rest);
      ExpressionRoundTrip(e, [RightParen] + rest);
      assert ([RightParen] + rest)[1..] == rest;
    } else {
      assert Unparse(e, 4) + rest == [AtomToken(e)] + rest;
    }
  }

  /** `parse_power` reads back a tree printed at strength 3 and stops before
      anything that is not `**`. */
  lemma {:induction false} PowerRoundTrip(e: Expr, rest: seq<Token>)
    requires WellFormed(e) && !Ahead(rest, {"**"})
    ensures Power(Unparse(e, 3) + rest) == POk(e, rest)
    decreases e, if Prec(e) == 3 then 6 else 11
  {
    if Prec(e) == 3 {
      PowerOperand(e, rest);
    } else if Prec(e) == 4 {
      UnparseUnparenthesised(e, 3, 4);
      PrimaryRoundTrip(e, rest);
    } else {
      UnparseWeaker(e, 3, 4);
      PrimaryRoundTrip(e, rest);
    }
  }

  /** The `**` case of `PowerRoundTrip`: the right operand is read by the
      recursive `parse_power`. */
  lemma {:induction false} PowerOperand(e: Expr, rest: seq<Token>)
    requires WellFormed(e) && !Ahead(rest, {"**"}) && Prec(e) == 3
    ensures Power(Unparse(e, 3) + rest) == POk(e, rest)
    decreases e, 5
  {
    var Operation(op, l, r) := e;
    var mid := Unparse(r, 3) + rest;
    var tail := [OperatorToken(op)] + mid;
    assert Unparse(e, 3) + rest == Unparse(l, 4) + tail;
    PrimaryRoundTrip(l, tail);
    PowerRoundTrip(r, rest);
    PowerStep(Unparse(l, 4) + tail, l, op, mid, r, rest);
  }

  /** One turn of the loop of `parse_power`: a primary, `**`, a power. */
  lemma PowerStep(ts: seq<Token>, l: Expr, op: string, mid: seq<Token>, r: Expr, rest: seq<Token>)
    requires op == "**" && Primary(ts) == POk(l, [OperatorToken(op)] + mid)
    requires Power(mid) == POk(r, rest) && !Ahead(rest, {"**"})
    ensures Power(ts) == POk(Operation(op, l, r), rest)
  {
    var tail := [OperatorToken(op)] + mid;
    assert tail[1..] == mid;
    assert Ahead(tail, {"**"});
    assert PowerTail(Operation(op, l, r), rest) == POk(Operation(op, l, r), rest);
    assert PowerTail(l, tail) == PowerTail(Operation(op, l, r), rest);
  }

  /** `parse_multiplication` reads back a tree printed at strength 2, leaving
      the loop of `parse_multiplication` to decide what follows. */
  lemma {:induction false} MultiplicationRoundTrip(e: Expr, rest: seq<Token>)
    requires WellFormed(e) && !Ahead(rest, {"**"})
    ensures Multiplication(Unparse(e, 2) + rest) == MultiplicationTail(e, rest)
    decreases e, if Prec(e) == 2 || Prec(e) == 3 then 7 else 12
  {
    if Prec(e) == 2 {
      var Operation(op, l, r) := e;
      var mid := Unparse(r, 3) + rest;
      var tail := [OperatorToken(op)] + mid;
      assert Unparse(e, 2) + rest == Unparse(l, 2) + tail;
      MultiplicationRoundTrip(l, tail);
      PowerRoundTrip(r, rest);
      MultiplicationStep(l, op, mid, r, rest);
    } else if Prec(e) == 1 {
      UnparseWeaker(e, 2, 3);
      PowerRoundTrip(e, rest);
    } else {
      UnparseUnparenthesised(e, 2, 3);
      PowerRoundTrip(e, rest);
    }
  }

  /** One turn of the loop of `parse_multiplication`. */
  lemma MultiplicationStep(l: Expr, op: string, mid: seq<Token>, r: Expr, rest: seq<Token>)
    requires op in MulOps && Power(mid) == POk(r, rest)
    ensures MultiplicationTail(l, [OperatorToken(op)] + mid) == MultiplicationTail(Operation(op, l, r), rest)
  {
    assert ([OperatorToken(op)] + mid)[1..] == mid;
  }

  /** One turn of the loop of `parse_addition`; the right operand is a
      multiplication that nothing multiplicative follows. */
  lemma AdditionStep(l: Expr, op: string, mid: seq<Token>, r: Expr, rest: seq<Token>)
    requires op in AddOps && Multiplication(mid) == MultiplicationTail(r, rest) && !Ahead(rest, MulOps)
    ensures AdditionTail(l, [OperatorToken(op)] + mid) == AdditionTail(Operation(op, l, r), rest)
  {
    assert ([OperatorToken(op)] + mid)[1..] == mid;
    assert MultiplicationTail(r, rest) == POk(r, rest);
  }

  /** `parse_addition` reads back a tree printed at strength 1, leaving the
      loop of `parse_addition` to decide what follows. */
  lemma {:induction false} AdditionRoundTrip(e: Expr, rest: seq<Token>)
    requires WellFormed(e) && !Ahead(rest, MulOps + {"**"})
    ensures Addition(Unparse(e, 1) + rest) == AdditionTail(e, rest)
    decreases e, if Prec(e) == 1 then 1 else if Prec(e) == 4 then 13 else 8
  {
    if Prec(e) == 1 {
      var Operation(op, l, r) := e;
      var mid := Unparse(r, 2) + rest;
      var tail := [OperatorToken(op)] + mid;
      assert Unparse(e, 1) + rest == Unparse(l, 1) + tail;
      AdditionRoundTrip(l, tail);
      MultiplicationRoundTrip(r, rest);
      AdditionStep(l, op, mid, r, rest);
    } else {
      UnparseUnparenthesised(e, 1, 2);
      MultiplicationRoundTrip(e, rest);
    }
  }

  /** PRECEDENCE AND ASSOCIATIVITY. `parse_expression` reads back every tree
      it can build from the tokens that print it with the fewest parentheses,
      and stops at the first token that is not an operator. So `+ -` bind
      loosest and group to the left, `* / // %` bind tighter and group to the
      left, and `**` binds tightest and groups to the right. */
  lemma {:induction false} ExpressionRoundTrip(e: Expr, rest: seq<Token>)
    requires WellFormed(e) && !Ahead(rest, BinaryOps)
    ensures Expression(Unparse(e, 1) + rest) == POk(e, rest)
    decreases e, if Prec(e) == 1 then 2 else if Prec(e) == 4 then 14 else 9
  {
    AdditionRoundTrip(e, rest);
  }

  // Consequences for three operands: how `a o b o' c` is grouped.


  /** `a - b + c` is `(a - b) + c`. */
  lemma {:induction false} AdditiveOperatorsGroupLeft(a: Expr, b: Expr, c: Expr, op1: string, op2: string, rest: seq<Token>)
    requires !a.Operation? && !b.Operation? && !c.Operation?
    requires WellFormed(a) && WellFormed(b) && WellFormed(c)
    requires op1 in AddOps && op2 in AddOps && !Ahead(rest, BinaryOps)
    ensures Expression([AtomToken(a), OperatorToken(op1), AtomToken(b), OperatorToken(op2), AtomToken(c)] + rest)
         == POk(Operation(op2, Operation(op1, a, b), c), rest)
  {
    var e := Operation(op2, Operation(op1, a, b), c);
    assert Unparse(Operation(op1, a, b), 1) == [AtomToken(a), OperatorToken(op1), AtomToken(b)];
    assert Unparse(e, 1) == [AtomToken(a), OperatorToken(op1), AtomToken(b)] + [OperatorToken(op2), AtomToken(c)];
    assert Unparse(e, 1) == [AtomToken(a), OperatorToken(op1), AtomToken(b), OperatorToken(op2), AtomToken(c)];
    ExpressionRoundTrip(e, rest);
  }

  /** `a / b * c` is `(a / b) * c`. */
  lemma {:induction false} MultiplicativeOperatorsGroupLeft(a: Expr, b: Expr, c: Expr, op1: string, op2: string, rest: seq<Token>)
    requires !a.Operation? && !b.Operation? && !c.Operation?
    requires WellFormed(a) && WellFormed(b) && WellFormed(c)
    requires op1 in MulOps && op2 in MulOps && !Ahead(rest, BinaryOps)
    ensures Expression([AtomToken(a), OperatorToken(op1), AtomToken(b), OperatorToken(op2), AtomToken(c)] + rest)
         == POk(Operation(op2, Operation(op1, a, b), c), rest)
  {
    var e := Operation(op2, Operation(op1, a, b), c);
    assert Unparse(Operation(op1, a, b), 2) == [AtomToken(a), OperatorToken(op1), AtomToken(b)];
    assert Unparse(e, 2) == [AtomToken(a), OperatorToken(op1), AtomToken(b)] + [OperatorToken(op2), AtomToken(c)];
    assert Unparse(e, 1) == Unparse(e, 2);
    assert Unparse(e, 1) == [AtomToken(a), OperatorToken(op1), AtomToken(b), OperatorToken(op2), AtomToken(c)];
    ExpressionRoundTrip(e, rest);
  }

  /** `a ** b ** c` is `a ** (b ** c)`. */
  lemma {:induction false} PowerGroupsRight(a: Expr, b: Expr, c: Expr, rest: seq<Token>)
    requires !a.Operation? && !b.Operation? && !c.Operation?
    requires WellFormed(a) && WellFormed(b) && WellFormed(c)
    requires !Ahead(rest, BinaryOps)
    ensures Expression([AtomToken(a), OperatorToken("**"), AtomToken(b), OperatorToken("**"), AtomToken(c)] + rest)
         == POk(Operation("**", a, Operation("**", b, c)), rest)
  {
    var e := Operation("**", a, Operation("**", b, c));
    assert Unparse(Operation("**", b, c), 3) == [AtomToken(b), OperatorToken("**"), AtomToken(c)];
    assert Unparse(e, 3) == [AtomToken(a), OperatorToken("**")] + [AtomToken(b), OperatorToken("**"), AtomToken(c)];
    assert Unparse(e, 1) == Unparse(e, 3);
    assert Unparse(e, 1) == [AtomToken(a), OperatorToken("**"), AtomToken(b), OperatorToken("**"), AtomToken(c)];
    ExpressionRoundTrip(e, rest);
  }

  /** `a + b * c` is `a + (b * c)`. */
  lemma {:induction false} MultiplicationBindsTighter(a: Expr, b: Expr, c: Expr, add: string, mul: string, rest: seq<Token>)
    requires !a.Operation? && !b.Operation? && !c.Operation?
    requires WellFormed(a) && WellFormed(b) && WellFormed(c)
    requires add in AddOps && mul in MulOps && !Ahead(rest, BinaryOps)
    ensures Expression([AtomToken(a), OperatorToken(add), AtomToken(b), OperatorToken(mul), AtomToken(c)] + rest)
         == POk(Operation(add, a, Operation(mul, b, c)), rest)
  {
    var e1 := Operation(add, a, Operation(mul, b, c));
    assert Unparse(Operation(mul, b, c), 2) == [AtomToken(b), OperatorToken(mul), AtomToken(c)];
    assert Unparse(e1, 1) == [AtomToken(a), OperatorToken(add)] + [AtomToken(b), OperatorToken(mul), AtomToken(c)];
    assert Unparse(e1, 1) == [AtomToken(a), OperatorToken(add), AtomToken(b), OperatorToken(mul), AtomToken(c)];
    ExpressionRoundTrip(e1, rest);
  }

  /** `a * b + c` is `(a * b) + c`. */
  lemma {:induction false} MultiplicationBindsTighterOnTheLeft(a: Expr, b: Expr, c: Expr, add: string, mul: string, rest: seq<Token>)
    requires !a.Operation? && !b.Operation? && !c.Operation?
    requires WellFormed(a) && WellFormed(b) && WellFormed(c)
    requires add in AddOps && mul in MulOps && !Ahead(rest, BinaryOps)
    ensures Expression([AtomToken(a), OperatorToken(mul), AtomToken(b), OperatorToken(add), AtomToken(c)] + rest)
         == POk(Operation(add, Operation(mul, a, b), c), rest)
  {
    var e2 := Operation(add, Operation(mul, a, b), c);
    assert Unparse(Operation(mul, a, b), 1) == [AtomToken(a), OperatorToken(mul), AtomToken(b)];
    assert Unparse(e2, 1) == [AtomToken(a), OperatorToken(mul), AtomToken(b)] + [OperatorToken(add), AtomToken(c)];
    assert Unparse(e2, 1) == [AtomToken(a), OperatorToken(mul), AtomToken(b), OperatorToken(add), AtomToken(c)];
    ExpressionRoundTrip(e2, rest);
  }

  /** An error of `parse_primary` at the front is the error of the whole expression. */
  lemma PrimaryErrorPropagates(ts: seq<Token>)
    requires Primary(ts).PErr?
    ensures Expression(ts) == Primary(ts)
  {
    assert Power(ts) == Primary(ts);
    assert Multiplication(ts) == Primary(ts);
    assert Addition(ts) == Primary(ts);
  }

  /** `( e` not followed by `)` is the missing-parenthesis error. */
  lemma {:induction false} UnclosedParenthesis(e: Expr, rest: seq<Token>)
    requires WellFormed(e) && !Ahead(rest, BinaryOps)
    requires rest == [] || rest[0].value != Text(")")
    ensures Expression([LeftParen] + Unparse(e, 1) + rest) == PErr(MissingParen)
  {
    var ts := [LeftParen] + Unparse(e, 1) + rest;
    assert ts[1..] == Unparse(e, 1) + rest;
    ExpressionRoundTrip(e, rest);
    assert Primary(ts) == PErr(MissingParen);
    PrimaryErrorPropagates(ts);
  }

  /** Running out of tokens where an operand is expected is the
      end-of-input error: an empty expression, or a binary operator with
      nothing after it. */
  lemma MissingOperandReported(a: Expr, op: string)
    requires !a.Operation? && WellFormed(a) && op in BinaryOps
    ensures Expression([]) == PErr(UnexpectedEnd)
    ensures Expression([AtomToken(a), OperatorToken(op)]) == PErr(UnexpectedEnd)
  {
    var ts := [AtomToken(a), OperatorToken(op)];
    var tail := [OperatorToken(op)];
    assert ts == Unparse(a, 4) + tail;
    PrimaryRoundTrip(a, tail);
    assert tail[1..] == [];
    assert Power([]) == PErr(UnexpectedEnd);
    if op == "**" {
      assert Power(ts) == PErr(UnexpectedEnd);
      assert Multiplication(ts) == PErr(UnexpectedEnd);
    } else {
      assert Power(ts) == POk(a, tail);
      if op in MulOps {
        assert Multiplication(ts) == PErr(UnexpectedEnd);
      } else {
        assert Multiplication(ts) == POk(a, tail);
        assert Multiplication(tail[1..]) == PErr(UnexpectedEnd);
        assert AdditionTail(a, tail) == PErr(UnexpectedEnd);
      }
    }
  }

  /** A token that cannot start a primary, where an expression is expected,
      is the unexpected-token error naming its kind. */
  lemma UnexpectedTokenReported(ts: seq<Token>)
    requires ts != [] && ts[0].kind !in {Number, String, Ident} && ts[0].value != Text("(")
    ensures Expression(ts) == PErr(UnexpectedToken(ts[0].kind))
  {
    PrimaryErrorPropagates(ts);
  }

  // Statements.

  const PrintKeyword := Token(Print, Text("print"))
  const ConstKeyword := Token(Const, Text("const"))
  const ColonToken := Token(Colon, Text(":"))

  /** Tokens for one statement: `print e`, `const name : e` or `name : e`. */
  function StatementTokens(st: Stmt): seq<Token>
  {
    match st
    case PrintStmt(e) => [PrintKeyword] + Unparse(e, 1)
    case VarDecl(name, e, isConst) =>
      (if isConst then [ConstKeyword] else []) + [Token(Ident, name), ColonToken] + Unparse(e, 1)
  }

  function ProgramTokens(ss: seq<Stmt>): seq<Token>
  {
    if ss == [] then [] else StatementTokens(ss[0]) + ProgramTokens(ss[1..])
  }

  /** A statement the parser can produce and print back unambiguously: its
      expression is well formed and a declared name is not spelled like an
      operator (it would otherwise continue the previous expression). */
  predicate StatementWellFormed(st: Stmt)
  {
    WellFormed(st.expr) && (st.VarDecl? ==> !(st.name.Text? && st.name.text in BinaryOps))
  }

  /** Every statement of `ss` is well formed. */
  predicate AllWellFormed(ss: seq<Stmt>)
  {
    forall i :: 0 <= i < |ss| ==> StatementWellFormed(ss[i])
  }

  lemma {:induction false} ProgramTokensStart(ss: seq<Stmt>)
    requires AllWellFormed(ss)
    ensures !Ahead(ProgramTokens(ss), BinaryOps)
  {
    if ss != [] {
      var st := ss[0];
      assert StatementWellFormed(st);
      match st
      case PrintStmt(_) =>
      case VarDecl(_, _, isConst) =>
        if !isConst {
          assert ProgramTokens(ss)[0] == Token(Ident, st.name);
        }
    }
  }

  lemma {:induction false} StatementRoundTrip(st: Stmt, rest: seq<Token>, acc: seq<Stmt>)
    requires StatementWellFormed(st) && !Ahead(rest, BinaryOps)
    ensures Statements(StatementTokens(st) + rest, acc) == Statements(rest, acc + [st])
  {
    ExpressionRoundTrip(st.expr, rest);
    match st
    case PrintStmt(e) =>
      assert StatementTokens(st) + rest == [PrintKeyword] + (Unparse(e, 1) + rest);
      PrintStep(Unparse(e, 1) + rest, e, rest, acc);
    case VarDecl(name, e, isConst) =>
      var keyword := if isConst then [ConstKeyword] else [];
      assert StatementTokens(st) + rest == keyword + [Token(Ident, name), ColonToken] + (Unparse(e, 1) + rest);
      DeclarationStep(isConst, name, Unparse(e, 1) + rest, e, rest, acc);
  }

  /** One turn of the statement loop on `print expr`. */
  lemma PrintStep(body: seq<Token>, e: Expr, rest: seq<Token>, acc: seq<Stmt>)
    requires Expression(body) == POk(e, rest)
    ensures Statements([PrintKeyword] + body, acc) == Statements(rest, acc + [PrintStmt(e)])
  {
    assert ([PrintKeyword] + body)[1..] == body;
  }

  /** One turn of the statement loop on `[const] name : expr`. */
  lemma DeclarationStep(isConst: bool, name: Payload, body: seq<Token>, e: Expr, rest: seq<Token>, acc: seq<Stmt>)
    requires Expression(body) == POk(e, rest)
    ensures Statements((if isConst then [ConstKeyword] else []) + [Token(Ident, name), ColonToken] + body, acc)
         == Statements(rest, acc + [VarDecl(name, e, isConst)])
  {
    var decl := [Token(Ident, name), ColonToken] + body;
    assert decl[1..][1..] == body;
    if isConst {
      var ts := [ConstKeyword] + decl;
      assert ts[0] == ConstKeyword && ts[1..] == decl;
    } else {
      assert [] + decl == decl;
    }
  }

  /** STATEMENTS IN SOURCE ORDER. `parse` reads back every sequence of
      statements from its tokens, in order, with `is_const` set exactly for
      the declarations that begin with `const`. */
  lemma {:induction false} ProgramRoundTrip(ss: seq<Stmt>, acc: seq<Stmt>)
    requires AllWellFormed(ss)
    ensures Statements(ProgramTokens(ss), acc) == Parsed(acc + ss)
    decreases |ss|
  {
    if ss == [] {
      assert acc + ss == acc;
    } else {
      ProgramStep(ss, acc);
      ProgramRoundTrip(ss[1..], acc + [ss[0]]);
      AppendHead(acc, ss);
    }
  }

  /** One turn of the statement loop over the tokens of a program: the first
      statement is read and the loop goes on with the tokens of the others,
      which are well formed too. */
  lemma ProgramStep(ss: seq<Stmt>, acc: seq<Stmt>)
    requires ss != [] && AllWellFormed(ss)
    ensures AllWellFormed(ss[1..])
    ensures Statements(ProgramTokens(ss), acc) == Statements(ProgramTokens(ss[1..]), acc + [ss[0]])
  {
    var tail := ss[1..];
    forall i | 0 <= i < |tail| ensures StatementWellFormed(tail[i]) {
      assert tail[i] == ss[i + 1];
    }
    ProgramTokensStart(tail);
    assert ProgramTokens(ss) == StatementTokens(ss[0]) + ProgramTokens(tail);
    assert StatementWellFormed(ss[0]);
    StatementRoundTrip(ss[0], ProgramTokens(tail), acc);
  }

  lemma AppendHead(acc: seq<Stmt>, ss: seq<Stmt>)
    requires ss != []
    ensures acc + [ss[0]] + ss[1..] == acc + ss
  {
    assert [ss[0]] + ss[1..] == ss;
  }

  /** What `parse` returns for the tokens of a non-empty program. */
  lemma ParseProgram(ss: seq<Stmt>)
    requires ss != [] && AllWellFormed(ss)
    ensures Program(ProgramTokens(ss)) == Parsed(Some(ss))
  {
    var ts := ProgramTokens(ss);
    ProgramRoundTrip(ss, []);
    assert [] + ss == ss;
    assert ts != [] by {
      assert ts == StatementTokens(ss[0]) + ProgramTokens(ss[1..]);
      assert StatementTokens(ss[0]) != [];
    }
  }

  /** Top-level tokens that cannot begin a statement are skipped. */
  lemma {:induction false} StrayTokensSkipped(junk: seq<Token>, ts: seq<Token>, acc: seq<Stmt>)
    requires forall i :: 0 <= i < |junk| ==> junk[i].kind !in {Print, Const, Ident}
    ensures Statements(junk + ts, acc) == Statements(ts, acc)
    decreases |junk|
  {
    if junk != [] {
      var all := junk + ts;
      assert all[0] == junk[0];
      assert all[0].kind !in {Print, Const, Ident};
      assert all[1..] == junk[1..] + ts;
      assert Statements(all, acc) == Statements(all[1..], acc);
      StrayTokensSkipped(junk[1..], ts, acc);
    } else {
      assert junk + ts == ts;
    }
  }

  /** Declarations cut short: `pop(0)` of an empty list, or a name not
      followed by a colon. */
  lemma TruncatedDeclarations(first: Token, name: Token, next: Token, rest: seq<Token>, acc: seq<Stmt>)
    ensures first.kind in {Const, Ident} ==> Statements([first], acc) == Failed(PopFromEmpty)
    ensures first.kind == Const ==> Statements([first, name], acc) == Failed(PopFromEmpty)
    ensures first.kind == Ident && name.kind != Colon ==> Statements([first, name] + rest, acc) == Failed(ExpectedColon)
    ensures first.kind == Const && next.kind != Colon ==> Statements([first, name, next] + rest, acc) == Failed(ExpectedColon)
  {
    assert ([first, name] + rest)[1..] == [name] + rest;
    assert ([first, name, next] + rest)[1..] == [name, next] + rest;
    assert ([name, next] + rest)[1..] == [next] + rest;
  }
}
