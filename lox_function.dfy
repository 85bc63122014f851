/**
 * The user function of src/lox/Interpreter/LoxFunction.cs: a function declaration together
 * with the environment it closed over. Calling it binds the parameters in a fresh environment
 * enclosed by the closure and runs the body there.
 *
 * Running a block belongs to an interpreter that is not part of this model, so the body's
 * outcome is given by the caller as a function of the statements and of the parameter
 * bindings they run under.
 */
module Functions {
  import opened Wrappers
  import opened Values
  import opened Tokens
  import opened Ast
  import opened RuntimeErrors
  import opened ChainedEnvironment

  /** How running the body ended: falling off its end, a caught return, or a RuntimeError. */
  datatype BodyOutcome = Normal | Returned(value: Value) | Raised(error: RuntimeError)

  /** The dictionary that defining parameter k to argument k, for k in order, produces from an empty one. */
  function Bindings(params: seq<Token>, arguments: seq<Value>): map<string, Value>
    requires |params| <= |arguments|
    decreases |params|
  {
    if params == [] then map[]
    else Bindings(params[..|params| - 1], arguments)[params[|params| - 1].lexeme := arguments[|params| - 1]]
  }

  /**
   * With distinct parameter names, parameter k is bound to argument k and nothing else is
   * bound; extra arguments are ignored.
   */
  lemma {:induction false} BindingsPairUp(params: seq<Token>, arguments: seq<Value>)
    requires |params| <= |arguments| && DistinctNames(params)
    ensures forall k :: 0 <= k < |params| ==>
      params[k].lexeme in Bindings(params, arguments) && Bindings(params, arguments)[params[k].lexeme] == arguments[k]
    ensures forall n :: n in Bindings(params, arguments) ==> exists k :: 0 <= k < |params| && params[k].lexeme == n
    ensures |Bindings(params, arguments)| == |params|
    decreases |params|
  {
    if params != [] {
      var init := params[..|params| - 1];
      var last := params[|params| - 1];
      assert DistinctNames(init) by {
        forall i, j | 0 <= i < j < |init| ensures init[i].lexeme != init[j].lexeme {
          assert init[i] == params[i] && init[j] == params[j];
        }
      }
      BindingsPairUp(init, arguments);
      assert last.lexeme !in Bindings(init, arguments) by {
        forall k | 0 <= k < |init|
          ensures init[k].lexeme != last.lexeme
        {
          assert init[k] == params[k];
        }
      }
      forall k | 0 <= k < |params|
        ensures params[k].lexeme in Bindings(params, arguments)
        ensures Bindings(params, arguments)[params[k].lexeme] == arguments[k]
      {
        if k < |params| - 1 {
          assert params[k] == init[k];
        }
      }
    }
  }

  /** The printed form `<fn NAME>`; the name can be read back from it. */
  function Describe(name: Token): (s: string)
    ensures |s| == |name.lexeme| + 5 && s[..4] == "<fn " && s[|s| - 1] == '>'
    ensures s[4..|s| - 1] == name.lexeme
  {
    "<fn " + name.lexeme + ">"
  }

  /** Two functions print alike exactly when their names are the same text. */
  lemma DescribeInjective(a: Token, b: Token)
    ensures Describe(a) == Describe(b) <==> a.lexeme == b.lexeme
  {
    if Describe(a) == Describe(b) {
      assert a.lexeme == Describe(a)[4..|Describe(a)| - 1];
    }
  }

  class LoxFunction {
    const name: Token
    const params: seq<Token>
    const body: seq<Stmt>
    const closure: LoxEnvironment

    /** The declaration this function was made from. */
    function Declaration(): (d: Stmt)
      ensures d.Function? && d.name == name && d.params == params && d.fnBody == body
    {
      Function(name, params, body)
    }

    constructor (declaration: Stmt, closure: LoxEnvironment)
      requires declaration.Function?
      ensures Declaration() == declaration && this.closure == closure
    {
      name := declaration.name;
      params := declaration.params;
      body := declaration.fnBody;
      this.closure := closure;
    }

    /** The number of parameters: with distinct names, the number of bindings a call makes. */
    function Arity(): (n: nat)
      ensures DistinctNames(params) ==> forall arguments: seq<Value> {:trigger Bindings(params, arguments)} ::
        |arguments| >= |params| ==> n == |Bindings(params, arguments)|
    {
      ArityCountsBindings(params);
      |params|
    }

    function ToString(): (s: string)
      ensures s == Describe(name)
    {
      Describe(name)
    }

    /**
     * Call: a fresh environment enclosed by the closure (not the caller's environment) gets
     * parameter k bound to argument k; the body runs there; a body that falls off its end
     * gives nil, a caught return gives its value, and a RuntimeError propagates. Call itself
     * changes no object that existed before it; what the body does to the closure's chain is
     * part of the outcome function, not of this model.
     */
    method Call(arguments: seq<Value>, run: (seq<Stmt>, map<string, Value>) -> BodyOutcome)
      returns (r: Result<Value, RuntimeError>, environment: LoxEnvironment)
      requires closure.Valid() && |arguments| >= Arity()
      modifies {}
      ensures fresh(environment) && environment.Valid() && environment.enclosing == closure
      ensures environment.Scopes() == [Bindings(params, arguments)] + closure.Scopes()
      ensures match run(body, Bindings(params, arguments))
        case Normal => r == Success(Nil)
        case Returned(v) => r == Success(v)
        case Raised(err) => r == Failure(err)
    {
      environment := new LoxEnvironment(closure);
      for i := 0 to |params|
        invariant fresh(environment) && environment.Valid() && environment.enclosing == closure
        invariant environment.values == Bindings(params[..i], arguments)
      {
        assert params[..i + 1][..i] == params[..i];
        environment.Define(params[i].lexeme, arguments[i]);
      }
      assert params[..|params|] == params;
      assert environment.Scopes() == [environment.values] + closure.Scopes();
      match run(body, environment.values)
      case Normal => r := Success(Nil);
      case Returned(v) => r := Success(v);
      case Raised(err) => r := Failure(err);
    }
  }

  lemma ArityCountsBindings(params: seq<Token>)
    ensures DistinctNames(params) ==> forall arguments: seq<Value> {:trigger Bindings(params, arguments)} ::
      |arguments| >= |params| ==> |params| == |Bindings(params, arguments)|
  {
    if DistinctNames(params) {
      forall arguments: seq<Value> | |arguments| >= |params|
        ensures |params| == |Bindings(params, arguments)|
      {
        BindingsPairUp(params, arguments);
      }
    }
  }
}
