/** `JavpyCore.evaluate`: a recursive walk over an expression tree that reads
    the interpreter's `variables`. Numbers are exact rationals here, not
    binary floating point; the operators follow Python's rules for the value
    kinds the language has (numbers, strings and booleans). */
module CoreEval {
  import opened Lexing
  import opened CoreLexer
  import opened CoreParser

  /** A run-time value: a number (Python `float`; booleans and the integers
      that arise from them are numbers too when an operator needs one), a
      string or a boolean. */
  datatype Value = Num(x: real) | Str(s: string) | Bool(b: bool)

  datatype RuntimeError =
    | NameError(name: Payload)            // an identifier not in `variables`
    | TypeError(op: string)               // an operator applied to values it does not accept
    | ZeroDivision(op: string)            // `/`, `//`, `%` by zero, `0 ** -n`
    | Unsupported(op: string)             // a result this model does not compute (see README)
    | ConstantRedeclared(name: Payload)   // a declaration of a name in `constants`

  datatype Answer<T> = Returned(value: T) | Raised(error: RuntimeError)

  /** The identifiers an expression reads. */
  function Names(e: Expr): set<Payload>
  {
    match e
    case Identifier(n) => {n}
    case Operation(_, l, r) => Names(l) + Names(r)
    case _ => {}
  }

  /** The number a value stands for in arithmetic: `True` is 1 and `False` is 0,
      as Python's `bool` is a subclass of `int`. */
  function AsNumber(v: Value): (r: Option<real>)
    ensures r.None? <==> v.Str?
    ensures v.Num? ==> r == Some(v.x)
    ensures v.Bool? ==> r == Some(if v.b then 1.0 else 0.0)
  {
    match v
    case Num(x) => Some(x)
    case Bool(b) => Some(if b then 1.0 else 0.0)
    case Str(_) => None
  }

  /** `x ** n` for a natural exponent. */
  function Power(x: real, n: nat): real
  {
    if n == 0 then 1.0 else x * Power(x, n - 1)
  }

  lemma {:induction false} PowerOfNonzero(x: real, n: nat)
    requires x != 0.0
    ensures Power(x, n) != 0.0
  {
    if n > 0 {
      PowerOfNonzero(x, n - 1);
    }
  }

  /** Python's `//` on numbers: the floor of the quotient. */
  function FloorDiv(a: real, b: real): real
    requires b != 0.0
  {
    (a / b).Floor as real
  }

  /** Python's `%` on numbers: the remainder that goes with `//`, taking the
      sign of the divisor. */
  function FloorMod(a: real, b: real): real
    requires b != 0.0
  {
    a - b * FloorDiv(a, b)
  }

  /** A binary operator on two numbers. */
  function Arith(op: string, a: real, b: real): (r: Answer<Value>)
    requires op in BinaryOps
    ensures r.Returned? ==> r.value.Num?
    ensures r.Raised? ==> r.error == ZeroDivision(op) || r.error == Unsupported(op)
  {
    if op == "+" then Returned(Num(a + b))
    else if op == "-" then Returned(Num(a - b))
    else if op == "*" then Returned(Num(a * b))
    else if op in {"/", "//", "%"} && b == 0.0 then Raised(ZeroDivision(op))
    else if op == "/" then Returned(Num(a / b))
    else if op == "//" then Returned(Num(FloorDiv(a, b)))
    else if op == "%" then Returned(Num(FloorMod(a, b)))
    else if a == 0.0 && b < 0.0 then Raised(ZeroDivision(op))
    else if b != b.Floor as real then Raised(Unsupported(op))
    else if b >= 0.0 then Returned(Num(Power(a, b.Floor)))
    else
      PowerOfNonzero(a, -b.Floor);
      Returned(Num(1.0 / Power(a, -b.Floor)))
  }

  /** The `if node.value == ...` chain of `evaluate` on two evaluated
      operands. `+` on two strings concatenates them; a string times a
      boolean repeats it once or not at all; any other use of a string is a
      type error (or, for `%`, string formatting, which is not modelled). An
      operator outside the seven falls through to `return node.value`. */
  function Apply(op: string, left: Value, right: Value): (r: Answer<Value>)
    ensures op !in BinaryOps ==> r == Returned(Str(op))
    ensures left.Str? && right.Str? && op == "+" ==> r == Returned(Str(left.s + right.s))
    ensures !left.Str? && !right.Str? && op in BinaryOps ==> r == Arith(op, AsNumber(left).value, AsNumber(right).value)
  {
    if op !in BinaryOps then Returned(Str(op))
    else if left.Str? && right.Str? && op == "+" then Returned(Str(left.s + right.s))
    else if op == "*" && left.Str? && right.Bool? then Returned(Str(if right.b then left.s else ""))
    else if op == "*" && left.Bool? && right.Str? then Returned(Str(if left.b then right.s else ""))
    else if op == "%" && left.Str? then Raised(Unsupported(op))
    else
      match (AsNumber(left), AsNumber(right))
      case (Some(a), Some(b)) => Arith(op, a, b)
      case _ => Raised(TypeError(op))
  }

  /** `JavpyCore.evaluate(node)` with `JavpyCore.variables` passed as `vars`.
      A name error names an identifier of the tree that is not bound, and a
      tree whose identifiers are all bound raises no name error. */
  function Evaluate(e: Expr, vars: map<Payload, Value>): (r: Answer<Value>)
    ensures r.Raised? && r.error.NameError? ==> r.error.name in Names(e) && r.error.name !in vars
    ensures Names(e) <= vars.Keys ==> !(r.Raised? && r.error.NameError?)
  {
    match e
    case NumberLit(x) => Returned(Num(x))
    case StringLit(p) => Returned(match p case Text(s) => Str(s) case Float(x) => Num(x))
    case BoolLit(b) => Returned(Bool(b))
    case Identifier(n) => if n in vars then Returned(vars[n]) else Raised(NameError(n))
    case Operation(op, l, r) =>
      match Evaluate(l, vars)
      case Raised(err) => Raised(err)
      case Returned(a) =>
        match Evaluate(r, vars)
        case Raised(err) => Raised(err)
        case Returned(b) => Apply(op, a, b)
  }

  /** A literal evaluates to what the parser stored in it (a Boolean node
      falls through to `return node.value`), and an identifier to its binding. */
  lemma LeavesEvaluate(e: Expr, vars: map<Payload, Value>)
    ensures e.NumberLit? ==> Evaluate(e, vars) == Returned(Num(e.x))
    ensures e.StringLit? && e.value.Text? ==> Evaluate(e, vars) == Returned(Str(e.value.text))
    ensures e.BoolLit? ==> Evaluate(e, vars) == Returned(Bool(e.b))
    ensures e.Identifier? ==> (Evaluate(e, vars) == Raised(NameError(e.name)) <==> e.name !in vars)
    ensures e.Identifier? && e.name in vars ==> Evaluate(e, vars) == Returned(vars[e.name])
  {
  }

  /** LEFT BEFORE RIGHT. The left operand's error wins over the right one's,
      and the operator is applied only when both operands have values. */
  lemma OperandsInOrder(op: string, l: Expr, r: Expr, vars: map<Payload, Value>)
    ensures Evaluate(l, vars).Raised? ==> Evaluate(Operation(op, l, r), vars) == Evaluate(l, vars)
    ensures Evaluate(l, vars).Returned? && Evaluate(r, vars).Raised? ==>
            Evaluate(Operation(op, l, r), vars) == Evaluate(r, vars)
    ensures Evaluate(l, vars).Returned? && Evaluate(r, vars).Returned? ==>
            Evaluate(Operation(op, l, r), vars) == Apply(op, Evaluate(l, vars).value, Evaluate(r, vars).value)
  {
    var e := Operation(op, l, r);
    match Evaluate(l, vars)
    case Raised(err) =>
      assert Evaluate(e, vars) == Raised(err);
    case Returned(a) =>
      match Evaluate(r, vars)
      case Raised(err) =>
        assert Evaluate(e, vars) == Raised(err);
      case Returned(b) =>
        assert Evaluate(e, vars) == Apply(op, a, b);
  }

  /** `evaluate` reads `variables` only at the tree's own identifiers. */
  lemma {:induction false} EvaluateReadsOnlyNames(e: Expr, v1: map<Payload, Value>, v2: map<Payload, Value>)
    requires forall n :: n in Names(e) ==> (n in v1 <==> n in v2)
    requires forall n :: n in Names(e) && n in v1 ==> v1[n] == v2[n]
    ensures Evaluate(e, v1) == Evaluate(e, v2)
  {
    match e
    case Operation(_, l, r) =>
      EvaluateReadsOnlyNames(l, v1, v2);
      EvaluateReadsOnlyNames(r, v1, v2);
    case _ =>
  }

  /** `//` and `%` by a non-zero number: the quotient is a whole number and
      the remainder lies between zero and the divisor, with the divisor's
      sign, so that `a == b * (a // b) + a % b`. */
  lemma FloorDivisionLaw(a: real, b: real)
    requires b != 0.0
    ensures Arith("//", a, b) == Returned(Num(FloorDiv(a, b)))
    ensures Arith("%", a, b) == Returned(Num(FloorMod(a, b)))
    ensures FloorDiv(a, b) == FloorDiv(a, b).Floor as real
    ensures a == b * FloorDiv(a, b) + FloorMod(a, b)
    ensures b > 0.0 ==> 0.0 <= FloorMod(a, b) < b
    ensures b < 0.0 ==> b < FloorMod(a, b) <= 0.0
  {
    var q := FloorDiv(a, b);
    if b > 0.0 {
      PositiveDivisorBounds(a, b);
    } else {
      assert (-a) / (-b) == a / b;
      assert FloorDiv(-a, -b) == q;
      PositiveDivisorBounds(-a, -b);
      assert (-b) * q == -(b * q);
    }
  }

  /** For a positive divisor, `b * (a // b)` is the largest multiple of `b`
      that is not above `a`. */
  lemma PositiveDivisorBounds(a: real, b: real)
    requires b > 0.0
    ensures b * FloorDiv(a, b) <= a < b * FloorDiv(a, b) + b
  {
    var q := FloorDiv(a, b);
    var d := a / b;
    assert q <= d < q + 1.0;
    assert b * d == a;
    MultiplyMonotone(b, q, d);
    MultiplyMonotone(b, d, q + 1.0);
    var high := b * (q + 1.0);
    assert a < high;
    assert high == b * q + b;
  }

  lemma MultiplyMonotone(c: real, x: real, y: real)
    requires c > 0.0 && x <= y
    ensures c * x <= c * y
    ensures x < y ==> c * x < c * y
  {
  }

  /** ZeroDivisionError: `/`, `//` and `%` by zero (or `False`), and zero
      raised to any negative power, whole or fractional; nothing else. */
  lemma ZeroDivisionExactly(op: string, a: real, b: real)
    requires op in BinaryOps
    ensures Arith(op, a, b) == Raised(ZeroDivision(op)) <==>
            (op in {"/", "//", "%"} && b == 0.0) || (op == "**" && a == 0.0 && b < 0.0)
  {
  }

  /** `print 0 ** (0 - 0.5)`: zero to a negative fractional power raises the
      zero-division error, as Python's `0.0 ** -0.5` does. */
  lemma ZeroToNegativeFractionRaises(vars: map<Payload, Value>)
    ensures Evaluate(Operation("**", NumberLit(0.0), Operation("-", NumberLit(0.0), NumberLit(0.5))), vars)
            == Raised(ZeroDivision("**"))
  {
    assert Evaluate(Operation("-", NumberLit(0.0), NumberLit(0.5)), vars) == Returned(Num(-0.5));
    assert Apply("**", Num(0.0), Num(-0.5)) == Arith("**", 0.0, -0.5);
  }
}
