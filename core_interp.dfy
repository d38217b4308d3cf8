/** `JavpyCore.interpret`: the statement loop over the class-level stores
    `variables` (a dict) and `constants` (a set), which persist from one call
    to the next. Printing appends the printed value to `output`. */
module CoreInterp {
  import opened Lexing
  import opened CoreLexer
  import opened CoreParser
  import opened CoreEval

  /** The interpreter's state as a value. */
  datatype Store = Store(variables: map<Payload, Value>, constants: set<Payload>, output: seq<Value>)

  /** Every constant is a bound variable: a name enters `constants` only
      right after it is bound. */
  predicate Consistent(s: Store)
  {
    s.constants <= s.variables.Keys
  }

  /** One statement of the `for node in ast` loop. A declaration of a name
      that is both bound and constant is refused before its expression is
      evaluated; an error leaves the state as it was. */
  function Exec(s: Store, st: Stmt): (r: Answer<Store>)
    ensures r.Returned? ==> s.constants <= r.value.constants && s.output <= r.value.output
    ensures r.Returned? && Consistent(s) ==> Consistent(r.value)
    ensures r.Returned? && Consistent(s) ==> forall n :: n in s.constants ==> n in r.value.variables && r.value.variables[n] == s.variables[n]
  {
    match st
    case PrintStmt(e) =>
      (match Evaluate(e, s.variables)
       case Raised(err) => Raised(err)
       case Returned(v) => Returned(s.(output := s.output + [v])))
    case VarDecl(name, e, isConst) =>
      if name in s.variables && name in s.constants then Raised(ConstantRedeclared(name))
      else
        match Evaluate(e, s.variables)
        case Raised(err) => Raised(err)
        case Returned(v) =>
          Returned(Store(s.variables[name := v], if isConst then s.constants + {name} else s.constants, s.output))
  }

  /** The statements run in order until one raises; the state is the one
      reached before the failing statement, and the error is returned. */
  function Run(s: Store, ss: seq<Stmt>): (Store, Option<RuntimeError>)
    decreases |ss|
  {
    if ss == [] then (s, None)
    else
      match Exec(s, ss[0])
      case Raised(err) => (s, Some(err))
      case Returned(s') => Run(s', ss[1..])
  }

  /** `interpret(ast)`: nothing for a missing or empty tree. */
  function Interpretation(s: Store, ast: Option<seq<Stmt>>): (Store, Option<RuntimeError>)
  {
    match ast
    case None => (s, None)
    case Some(ss) => Run(s, ss)
  }

  /** CONSTANT PROTECTION. Once a name is constant, declaring it again, with
      or without `const`, raises before its expression is evaluated (so a
      broken expression raises nothing else) and changes nothing. */
  lemma RedeclaredConstantRejected(s: Store, name: Payload, e: Expr, isConst: bool)
    requires Consistent(s) && name in s.constants
    ensures Exec(s, VarDecl(name, e, isConst)) == Raised(ConstantRedeclared(name))
    ensures Run(s, [VarDecl(name, e, isConst)]) == (s, Some(ConstantRedeclared(name)))
  {
  }

  /** Any other declaration binds the name to the value and makes it
      constant exactly when declared `const`; every other name keeps its
      binding and its status, and the output is untouched. */
  lemma DeclarationEffect(s: Store, name: Payload, e: Expr, isConst: bool)
    requires !(name in s.variables && name in s.constants)
    requires Evaluate(e, s.variables).Returned?
    ensures Exec(s, VarDecl(name, e, isConst)).Returned?
    ensures var t := Exec(s, VarDecl(name, e, isConst)).value;
      && t.variables.Keys == s.variables.Keys + {name}
      && t.variables[name] == Evaluate(e, s.variables).value
      && (forall n :: n in s.variables && n != name ==> t.variables[n] == s.variables[n])
      && (name in t.constants <==> isConst || name in s.constants)
      && (forall n :: n != name ==> (n in t.constants <==> n in s.constants))
      && t.output == s.output
  {
  }

  /** A print statement appends the value of its expression and changes
      nothing else; an expression that raises stops the program. */
  lemma PrintEffect(s: Store, e: Expr)
    ensures Evaluate(e, s.variables).Returned? ==>
      Exec(s, PrintStmt(e)) == Returned(Store(s.variables, s.constants, s.output + [Evaluate(e, s.variables).value]))
    ensures Evaluate(e, s.variables).Raised? ==> Exec(s, PrintStmt(e)) == Raised(Evaluate(e, s.variables).error)
  {
  }

  /** Constants only grow, the output only grows, and consistency is kept,
      over any number of statements. */
  lemma {:induction false} RunMonotone(s: Store, ss: seq<Stmt>)
    ensures s.constants <= Run(s, ss).0.constants
    ensures s.output <= Run(s, ss).0.output
    ensures Consistent(s) ==> Consistent(Run(s, ss).0)
    decreases |ss|
  {
    if ss != [] {
      match Exec(s, ss[0])
      case Raised(_) =>
      case Returned(s') =>
        RunMonotone(s', ss[1..]);
    }
  }

  /** A constant's binding never changes, however many statements run. */
  lemma {:induction false} ConstantsKeepTheirValues(s: Store, ss: seq<Stmt>, n: Payload)
    requires Consistent(s) && n in s.constants
    ensures n in Run(s, ss).0.constants && n in Run(s, ss).0.variables
    ensures Run(s, ss).0.variables[n] == s.variables[n]
    decreases |ss|
  {
    if ss != [] {
      match Exec(s, ss[0])
      case Raised(_) =>
      case Returned(s') =>
        ConstantsKeepTheirValues(s', ss[1..], n);
    }
  }

  /** Running `a + b` is running `a`, then `b` from where `a` left off,
      unless `a` raised: then `b` never runs. */
  lemma {:induction false} RunSequence(s: Store, a: seq<Stmt>, b: seq<Stmt>)
    ensures Run(s, a).1.Some? ==> Run(s, a + b) == Run(s, a)
    ensures Run(s, a).1.None? ==> Run(s, a + b) == Run(Run(s, a).0, b)
    decreases |a|
  {
    if a == [] {
      assert a + b == b;
    } else {
      assert (a + b)[0] == a[0];
      assert (a + b)[1..] == a[1..] + b;
      match Exec(s, a[0])
      case Raised(_) =>
      case Returned(s') =>
        RunSequence(s', a[1..], b);
    }
  }

  /** The interpreter object: the two class-level stores of `JavpyCore` and
      the printed values. */
  class Interpreter {
    var variables: map<Payload, Value>
    var constants: set<Payload>
    var output: seq<Value>

    constructor ()
      ensures variables == map[] && constants == {} && output == []
      ensures Valid()
    {
      variables := map[];
      constants := {};
      output := [];
    }

    function State(): Store
      reads this
    {
      Store(variables, constants, output)
    }

    predicate Valid()
      reads this
    {
      Consistent(State())
    }

    /** The body of the `for` loop for one statement; `Some(error)` is the
        exception it raises. */
    method Execute(st: Stmt) returns (err: Option<RuntimeError>)
      modifies this
      ensures match Exec(old(State()), st)
              case Raised(e) => err == Some(e) && State() == old(State())
              case Returned(t) => err == None && State() == t
    {
      match st
      case PrintStmt(e) =>
        var result := Evaluate(e, variables);
        if result.Raised? {
          return Some(result.error);
        }
        output := output + [result.value];
        return None;
      case VarDecl(name, e, isConst) =>
        if name in variables {
          if name in constants {
            return Some(ConstantRedeclared(name));
          }
        }
        var evaluated := Evaluate(e, variables);
        if evaluated.Raised? {
          return Some(evaluated.error);
        }
        variables := variables[name := evaluated.value];
        if isConst {
          constants := constants + {name};
        }
        return None;
    }

    /** `JavpyCore.interpret(ast)`. The stores are those of `Interpretation`;
        constants only grow and stay bound to the values they had. */
    method Interpret(ast: Option<seq<Stmt>>) returns (err: Option<RuntimeError>)
      modifies this
      ensures (State(), err) == Interpretation(old(State()), ast)
      ensures old(constants) <= constants
      ensures old(Valid()) ==> Valid()
      ensures old(Valid()) ==> forall n :: n in old(constants) ==> n in variables && variables[n] == old(variables)[n]
    {
      RunMonotone(State(), if ast.Some? then ast.value else []);
      if ast.None? || ast.value == [] {
        return None;
      }
      var ss := ast.value;
      ghost var start := State();
      forall n | n in start.constants && Consistent(start)
        ensures n in Run(start, ss).0.variables && Run(start, ss).0.variables[n] == start.variables[n]
      {
        ConstantsKeepTheirValues(start, ss, n);
      }
      var i := 0;
      while i < |ss|
        invariant 0 <= i <= |ss|
        invariant Run(State(), ss[i..]) == Run(start, ss)
        decreases |ss| - i
      {
        ghost var before := State();
        err := Execute(ss[i]);
        assert ss[i..][0] == ss[i] && ss[i..][1..] == ss[i + 1..];
        if err.Some? {
          assert Run(before, ss[i..]) == (before, err);
          return err;
        }
        i := i + 1;
      }
      return None;
    }
  }
}
