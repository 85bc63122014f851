/**
 * The tree-walking evaluator of src/lox/Interpreter/Interpreter.cs over the flat environment.
 * The operator rules, truthiness and equality are pure functions on values; `Eval`, `Exec`
 * and `Run` say what evaluating an expression, executing a statement and interpreting a
 * program compute from the environment's dictionary and the printed output, and the class
 * `Interpreter` does the same in place and is proved to agree with them.
 */
module Interpreting {
  import opened Wrappers
  import opened Values
  import opened Tokens
  import opened Ast
  import opened RuntimeErrors
  import opened FlatEnvironment

  const PlusOperands: string := "Operands must be two numbers or two strings."
  const NumberOperands: string := "Operands must be numbers."
  const NumberOperand: string := "Operand must be a number."

  /**
   * Why evaluation stopped: a RuntimeError the interpreter reports, a visitor that is not
   * implemented, or a division by zero, which IEEE arithmetic would answer with an infinity
   * or NaN that exact numbers do not have.
   */
  datatype Fault = Thrown(error: RuntimeError) | NotImplemented | ZeroDivisor(op: Token)

  /** Only nil and false are falsy. */
  function IsTruthy(v: Value): (r: bool)
    ensures !r <==> v == Nil || v == Bool(false)
  {
    match v
    case Nil => false
    case Bool(b) => b
    case _ => true
  }

  /** object.Equals on the boxed values: same type and same value. */
  function IsEqual(a: Value, b: Value): (r: bool)
    ensures r <==> a == b
  {
    if a == Nil && b == Nil then true
    else if a == Nil then false
    else match (a, b)
      case (Bool(x), Bool(y)) => x == y
      case (Num(x), Num(y)) => x == y
      case (Str(x), Str(y)) => x == y
      case _ => false
  }

  const Arithmetic: set<TokenType> := {MINUS, SLASH, STAR}
  const Comparisons: set<TokenType> := {GREATER, GREATER_EQUAL, LESS, LESS_EQUAL}

  function CheckNumberOperands(op: Token, a: Value, b: Value): (r: Result<(), Fault>)
    ensures r.Success? <==> a.Num? && b.Num?
    ensures r.Failure? ==> r.error == Thrown(RuntimeError(op, NumberOperands))
  {
    if a.Num? && b.Num? then Success(()) else Failure(Thrown(RuntimeError(op, NumberOperands)))
  }

  /**
   * A binary operator on two evaluated operands. `+` adds numbers and concatenates strings;
   * the arithmetic and comparison operators need two numbers; `==` and `!=` never fail.
   */
  function ApplyBinary(op: Token, a: Value, b: Value): (r: Result<Value, Fault>)
    ensures op.kind == PLUS ==>
      && (r.Success? <==> (a.Num? && b.Num?) || (a.Str? && b.Str?))
      && (r.Failure? ==> r.error == Thrown(RuntimeError(op, PlusOperands)))
    ensures op.kind == PLUS && a.Str? && b.Str? ==> r == Success(Str(a.s + b.s))
    ensures op.kind in Arithmetic + Comparisons ==>
      (!(a.Num? && b.Num?) <==> r == Failure(Thrown(RuntimeError(op, NumberOperands))))
    ensures a.Num? && b.Num? ==>
      && (op.kind == PLUS ==> r == Success(Num(a.n + b.n)))
      && (op.kind == MINUS ==> r == Success(Num(a.n - b.n)))
      && (op.kind == STAR ==> r == Success(Num(a.n * b.n)))
      && (op.kind == SLASH && b.n != 0.0 ==> r == Success(Num(a.n / b.n)))
      && (op.kind == GREATER ==> r == Success(Bool(a.n > b.n)))
      && (op.kind == GREATER_EQUAL ==> r == Success(Bool(a.n >= b.n)))
      && (op.kind == LESS ==> r == Success(Bool(a.n < b.n)))
      && (op.kind == LESS_EQUAL ==> r == Success(Bool(a.n <= b.n)))
    ensures op.kind == SLASH && a.Num? && b.Num? ==> (r.Failure? <==> b.n == 0.0)
    ensures op.kind == EQUAL_EQUAL ==> r == Success(Bool(a == b))
    ensures op.kind == BANG_EQUAL ==> r == Success(Bool(a != b))
  {
    match op.kind
    case MINUS =>
      var _ :- CheckNumberOperands(op, a, b);
      Success(Num(a.n - b.n))
    case SLASH =>
      var _ :- CheckNumberOperands(op, a, b);
      if b.n == 0.0 then Failure(ZeroDivisor(op)) else Success(Num(a.n / b.n))
    case STAR =>
      var _ :- CheckNumberOperands(op, a, b);
      Success(Num(a.n * b.n))
    case PLUS =>
      if a.Num? && b.Num? then Success(Num(a.n + b.n))
      else if a.Str? && b.Str? then Success(Str(a.s + b.s))
      else Failure(Thrown(RuntimeError(op, PlusOperands)))
    case GREATER =>
      var _ :- CheckNumberOperands(op, a, b);
      Success(Bool(a.n > b.n))
    case GREATER_EQUAL =>
      var _ :- CheckNumberOperands(op, a, b);
      Success(Bool(a.n >= b.n))
    case LESS =>
      var _ :- CheckNumberOperands(op, a, b);
      Success(Bool(a.n < b.n))
    case LESS_EQUAL =>
      var _ :- CheckNumberOperands(op, a, b);
      Success(Bool(a.n <= b.n))
    case EQUAL_EQUAL => Success(Bool(IsEqual(a, b)))
    case BANG_EQUAL => Success(Bool(!IsEqual(a, b)))
    case _ => Success(Nil)
  }

  /** A unary operator: `-` needs a number, `!` negates truthiness. */
  function ApplyUnary(op: Token, v: Value): (r: Result<Value, Fault>)
    ensures op.kind == MINUS ==>
      && (r.Success? <==> v.Num?)
      && (r.Success? ==> r.value == Num(0.0 - v.n))
      && (r.Failure? ==> r.error == Thrown(RuntimeError(op, NumberOperand)))
    ensures op.kind == BANG ==> r == Success(Bool(!IsTruthy(v)))
  {
    match op.kind
    case MINUS =>
      if v.Num? then Success(Num(-v.n)) else Failure(Thrown(RuntimeError(op, NumberOperand)))
    case BANG => Success(Bool(!IsTruthy(v)))
    case _ => Success(Nil)
  }

  /** The value of an expression (or why it has none) and the environment after it. */
  datatype Evaluated = Evaluated(result: Result<Value, Fault>, env: map<string, Value>)

  /**
   * Evaluate: operands left to right, each seeing the environment the previous one left.
   * Assignment changes the value of a bound name but never binds a new one.
   */
  function Eval(env: map<string, Value>, e: Expr): (r: Evaluated)
    ensures r.env.Keys == env.Keys
    decreases e
  {
    match e
    case Literal(_, v) => Evaluated(Success(v), env)
    case Grouping(_, inner) => Eval(env, inner)
    case Unary(_, op, right) =>
      var operand := Eval(env, right);
      if operand.result.Failure? then operand
      else Evaluated(ApplyUnary(op, operand.result.value), operand.env)
    case Binary(_, left, op, right) =>
      var l := Eval(env, left);
      if l.result.Failure? then l
      else
        var r := Eval(l.env, right);
        if r.result.Failure? then r
        else Evaluated(ApplyBinary(op, l.result.value, r.result.value), r.env)
    case Variable(_, name) =>
      (match Lookup(env, name)
       case Success(v) => Evaluated(Success(v), env)
       case Failure(err) => Evaluated(Failure(Thrown(err)), env))
    case Assign(_, name, value) =>
      var v := Eval(env, value);
      if v.result.Failure? then v
      else
        (match Assigned(v.env, name, v.result.value)
         case Success(updated) => Evaluated(v.result, updated)
         case Failure(err) => Evaluated(Failure(Thrown(err)), v.env))
    case Logical(_, _, _, _) => Evaluated(Failure(NotImplemented), env)
    case Call(_, _, _, _) => Evaluated(Failure(NotImplemented), env)
  }

  /** The interpreter's observable state: the global dictionary and the values printed so far. */
  datatype Machine = Machine(env: map<string, Value>, output: seq<Value>)

  datatype Executed = Executed(result: Result<(), Fault>, m: Machine)

  /**
   * Execute one statement. Printing appends at most the one printed value; only `var` binds
   * a name. The other statement kinds are not implemented.
   */
  function Exec(m: Machine, s: Stmt): (r: Executed)
    ensures m.output <= r.m.output && |r.m.output| <= |m.output| + 1
    ensures r.m.env.Keys == m.env.Keys + (if s.Var? && r.result.Success? then {s.name.lexeme} else {})
    ensures s.Print? ==> var v := Eval(m.env, s.expression);
      && (r.result.Success? <==> v.result.Success?)
      && (v.result.Success? ==> r.m == Machine(v.env, m.output + [v.result.value]))
    ensures s.Var? ==>
      var v := if s.initializer.None? then Evaluated(Success(Nil), m.env) else Eval(m.env, s.initializer.value);
      && (r.result.Success? <==> v.result.Success?)
      && (v.result.Success? ==> r.m == Machine(v.env[s.name.lexeme := v.result.value], m.output))
  {
    match s
    case Expression(e) =>
      var v := Eval(m.env, e);
      Executed(if v.result.Failure? then Failure(v.result.error) else Success(()), m.(env := v.env))
    case Print(e) =>
      var v := Eval(m.env, e);
      if v.result.Failure? then Executed(Failure(v.result.error), m.(env := v.env))
      else Executed(Success(()), Machine(v.env, m.output + [v.result.value]))
    case Var(name, init) =>
      if init.None? then Executed(Success(()), m.(env := m.env[name.lexeme := Nil]))
      else
        var v := Eval(m.env, init.value);
        if v.result.Failure? then Executed(Failure(v.result.error), m.(env := v.env))
        else Executed(Success(()), m.(env := v.env[name.lexeme := v.result.value]))
    case _ => Executed(Failure(NotImplemented), m)
  }

  /**
   * How Interpret ends: after every statement, after a RuntimeError it caught and reported,
   * or with a fault it does not catch escaping.
   */
  datatype Ending = Finished | Reported(error: RuntimeError) | Escaped(fault: Fault)

  datatype Ran = Ran(ending: Ending, m: Machine)

  /** Interpret: the statements in order, null entries skipped, stopping at the first fault. */
  function Run(m: Machine, program: seq<Option<Stmt>>): Ran
    decreases program
  {
    if program == [] then Ran(Finished, m)
    else if program[0].None? then Run(m, program[1..])
    else
      var step := Exec(m, program[0].value);
      match step.result
      case Success(_) => Run(step.m, program[1..])
      case Failure(Thrown(err)) => Ran(Reported(err), step.m)
      case Failure(fault) => Ran(Escaped(fault), step.m)
  }

  /** Once a program stops at a fault, statements after it never run. */
  lemma {:induction false} RunStopsAtFault(m: Machine, program: seq<Option<Stmt>>, later: seq<Option<Stmt>>)
    requires Run(m, program).ending != Finished
    ensures Run(m, program + later) == Run(m, program)
    decreases program
  {
    assert program != [];
    assert (program + later)[1..] == program[1..] + later;
    if program[0].None? {
      RunStopsAtFault(m, program[1..], later);
    } else {
      var step := Exec(m, program[0].value);
      if step.result.Success? {
        RunStopsAtFault(step.m, program[1..], later);
      }
    }
  }

  /** A program that finishes hands its state on to whatever follows it. */
  lemma {:induction false} RunInSequence(m: Machine, program: seq<Option<Stmt>>, later: seq<Option<Stmt>>)
    requires Run(m, program).ending == Finished
    ensures Run(m, program + later) == Run(Run(m, program).m, later)
    decreases program
  {
    if program == [] {
      assert program + later == later;
    } else {
      assert (program + later)[1..] == program[1..] + later;
      if program[0].None? {
        RunInSequence(m, program[1..], later);
      } else {
        RunInSequence(Exec(m, program[0].value).m, program[1..], later);
      }
    }
  }

  /** Printing only ever appends: what was printed before a run is a prefix of what is printed after. */
  lemma {:induction false} RunOnlyAppends(m: Machine, program: seq<Option<Stmt>>)
    ensures m.output <= Run(m, program).m.output
    decreases program
  {
    if program != [] {
      if program[0].None? {
        RunOnlyAppends(m, program[1..]);
      } else {
        var step := Exec(m, program[0].value);
        if step.result.Success? {
          RunOnlyAppends(step.m, program[1..]);
        }
      }
    }
  }

  /** Both operands are evaluated, left then right, before the operator looks at their types. */
  lemma OperandsBeforeTypes(env: map<string, Value>, id: nat, left: Expr, op: Token, right: Expr)
    requires Eval(env, left).result.Success? && Eval(Eval(env, left).env, right).result.Failure?
    ensures Eval(env, Binary(id, left, op, right)) == Eval(Eval(env, left).env, right)
  {
  }

  /** `var` without an initializer binds nil, and rebinding a global silently replaces it. */
  lemma VarWithoutInitializerBindsNil(m: Machine, name: Token)
    ensures Exec(m, Var(name, None)) == Executed(Success(()), m.(env := m.env[name.lexeme := Nil]))
  {
  }

  /**
   * An assignment evaluates to the assigned value and replaces that one binding; to an
   * unbound name it throws "Undefined variable" and binds nothing.
   */
  lemma AssignmentYieldsValue(env: map<string, Value>, id: nat, name: Token, value: Expr)
    requires Eval(env, value).result.Success?
    ensures var v := Eval(env, value);
      var r := Eval(env, Assign(id, name, value));
      if name.lexeme in v.env then r == Evaluated(v.result, v.env[name.lexeme := v.result.value])
      else r == Evaluated(Failure(Thrown(Undefined(name))), v.env)
  {
  }

  /** `!=` is exactly the negation of `==`, and `==` is reflexive and symmetric. */
  lemma EqualityLaws(op: Token, neg: Token, a: Value, b: Value)
    requires op.kind == EQUAL_EQUAL && neg.kind == BANG_EQUAL
    ensures ApplyBinary(neg, a, b) == Success(Bool(!ApplyBinary(op, a, b).value.b))
    ensures ApplyBinary(op, a, a) == Success(Bool(true))
    ensures ApplyBinary(op, a, b) == ApplyBinary(op, b, a)
  {
  }

  /** The interpreter: the global environment object and the values printed so far. */
  class Interpreter {
    const environment: Environment
    var output: seq<Value>

    function State(): Machine
      reads this, environment
    {
      Machine(environment.values, output)
    }

    constructor ()
      ensures fresh(environment) && State() == Machine(map[], [])
    {
      environment := new Environment();
      output := [];
    }

    method Evaluate(e: Expr) returns (r: Result<Value, Fault>)
      modifies environment
      ensures Evaluated(r, environment.values) == Eval(old(environment.values), e)
      decreases e
    {
      match e
      case Literal(_, v) =>
        r := Success(v);
      case Grouping(_, inner) =>
        r := Evaluate(inner);
      case Unary(_, op, right) =>
        var operand := Evaluate(right);
        if operand.Failure? {
          return operand;
        }
        r := ApplyUnary(op, operand.value);
      case Binary(_, left, op, right) =>
        var a := Evaluate(left);
        if a.Failure? {
          return a;
        }
        var b := Evaluate(right);
        if b.Failure? {
          return b;
        }
        r := ApplyBinary(op, a.value, b.value);
      case Variable(_, name) =>
        var got := environment.Get(name);
        r := if got.Success? then Success(got.value) else Failure(Thrown(got.error));
      case Assign(_, name, value) =>
        r := Evaluate(value);
        if r.Failure? {
          return;
        }
        var stored := environment.Assign(name, r.value);
        if stored.Failure? {
          r := Failure(Thrown(stored.error));
        }
      case Logical(_, _, _, _) =>
        r := Failure(NotImplemented);
      case Call(_, _, _, _) =>
        r := Failure(NotImplemented);
    }

    method Execute(s: Stmt) returns (r: Result<(), Fault>)
      modifies this, environment
      ensures Executed(r, State()) == Exec(old(State()), s)
    {
      match s
      case Expression(e) =>
        var v := Evaluate(e);
        r := if v.Failure? then Failure(v.error) else Success(());
      case Print(e) =>
        var v := Evaluate(e);
        if v.Failure? {
          return Failure(v.error);
        }
        output := output + [v.value];
        r := Success(());
      case Var(name, init) =>
        var value := Nil;
        if init.Some? {
          var v := Evaluate(init.value);
          if v.Failure? {
            return Failure(v.error);
          }
          value := v.value;
        }
        environment.Define(name.lexeme, value);
        r := Success(());
      case _ =>
        r := Failure(NotImplemented);
    }

    method Interpret(program: seq<Option<Stmt>>) returns (ending: Ending)
      modifies this, environment
      ensures Ran(ending, State()) == Run(old(State()), program)
    {
      for i := 0 to |program|
        invariant Run(old(State()), program) == Run(State(), program[i..])
      {
        assert program[i..][1..] == program[i + 1..];
        if program[i].Some? {
          var r := Execute(program[i].value);
          if r.Failure? {
            return if r.error.Thrown? then Reported(r.error.error) else Escaped(r.error);
          }
        }
      }
      return Finished;
    }
  }
}
