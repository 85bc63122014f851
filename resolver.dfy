/**
 * The static resolver of src/lox/Interpreter/Resolver.cs. It walks the tree with a stack of
 * scopes, each mapping a name to whether its declaration is complete, and records for every
 * variable reference and assignment how many scopes out its binding lives. The interpreter's
 * binding table is the `locals` map, keyed by expression node id. Reports through Lox.Error
 * are collected in `reports` and resolution goes on; a thrown RuntimeError aborts it.
 *
 * The pure functions below say what each visitor computes from a `Resolution` state; the class
 * `Resolver` at the end mutates that state in place and is proved to agree with them.
 */
module Resolving {
  import opened Wrappers
  import opened Tokens
  import opened Ast
  import opened RuntimeErrors
  import opened Scopes

  datatype FunctionType = NONE | FUNCTION | METHOD | INITIALIZER

  /** A report through Lox.Error: resolution goes on after it. */
  datatype Diagnostic = Diagnostic(token: Token, message: string)

  const SelfInitializer: string := "Can't read local variable in its own initializer."
  const TopLevelReturn: string := "Cannot return from top-level code."
  const InitializerReturn: string := "Cannot return a value from an initializer."

  function Redeclared(name: Token): RuntimeError
  {
    RuntimeError(name, "Variable '" + name.lexeme + "' already declared in this scope.")
  }

  /** The resolver's state; scopes[0] is the top of the stack, the innermost scope. */
  datatype Resolution = Resolution(
    scopes: seq<map<string, bool>>,
    current: FunctionType,
    locals: map<nat, nat>,
    reports: seq<Diagnostic>)

  /** How a visit ends: normally, or by a thrown RuntimeError with the state at the throw. */
  datatype Outcome = Resolved(st: Resolution) | Aborted(st: Resolution, error: RuntimeError)

  function Pushed(st: Resolution): Resolution
  {
    st.(scopes := [map[]] + st.scopes)
  }

  function Popped(st: Resolution): Resolution
    requires st.scopes != []
  {
    st.(scopes := st.scopes[1..])
  }

  /** Declare: on an empty stack nothing happens; otherwise the name enters the innermost scope, not yet ready. */
  function Declared(st: Resolution, name: Token): (r: Outcome)
    ensures r.Aborted? <==> st.scopes != [] && name.lexeme in st.scopes[0]
    ensures r.Aborted? ==> r == Aborted(st, Redeclared(name))
    ensures r.Resolved? ==> r.st.(scopes := st.scopes) == st && |r.st.scopes| == |st.scopes|
  {
    if st.scopes == [] then Resolved(st)
    else if name.lexeme in st.scopes[0] then Aborted(st, Redeclared(name))
    else Resolved(WithInnermost(st, st.scopes[0][name.lexeme := false]))
  }

  /** Define: the name becomes ready in the innermost scope; on an empty stack nothing happens. */
  function Defined(st: Resolution, name: Token): (r: Resolution)
    ensures r.(scopes := st.scopes) == st && |r.scopes| == |st.scopes|
  {
    if st.scopes == [] then st
    else WithInnermost(st, st.scopes[0][name.lexeme := true])
  }

  /** The state with its innermost scope replaced. */
  function WithInnermost(st: Resolution, m: map<string, bool>): (r: Resolution)
    requires st.scopes != []
    ensures |r.scopes| == |st.scopes| && r.scopes[0] == m && r.scopes[1..] == st.scopes[1..]
    ensures r.(scopes := st.scopes) == st
  {
    st.(scopes := [m] + st.scopes[1..])
  }

  lemma WithInnermostTwice(st: Resolution, m1: map<string, bool>, m2: map<string, bool>)
    requires st.scopes != []
    ensures WithInnermost(WithInnermost(st, m1), m2) == WithInnermost(st, m2)
  {
    assert WithInnermost(WithInnermost(st, m1), m2).scopes == WithInnermost(st, m2).scopes;
  }

  /**
   * ResolveLocal: when some scope binds the name, the node's distance is the index of the
   * innermost such scope (0 is the innermost); when none does, nothing is recorded. Nothing
   * else changes.
   */
  function Located(st: Resolution, id: nat, name: Token): (r: Resolution)
    ensures r.(locals := st.locals) == st
    ensures forall other :: other != id ==> (other in r.locals <==> other in st.locals)
    ensures forall other :: other in st.locals && other != id ==> r.locals[other] == st.locals[other]
    ensures (exists k :: 0 <= k < |st.scopes| && name.lexeme in st.scopes[k]) ==>
      && id in r.locals && r.locals[id] < |st.scopes|
      && name.lexeme in st.scopes[r.locals[id]]
      && forall k :: 0 <= k < r.locals[id] ==> name.lexeme !in st.scopes[k]
    ensures (forall k :: 0 <= k < |st.scopes| ==> name.lexeme !in st.scopes[k]) ==> r == st
  {
    match Nearest(st.scopes, name.lexeme)
    case Some(k) => st.(locals := st.locals[id := k])
    case None => st
  }

  /** Reading a name the innermost scope holds as not yet ready is reported; then it is located. */
  function VariableResolved(st: Resolution, id: nat, name: Token): Resolution
  {
    var checked :=
      if st.scopes != [] && name.lexeme in st.scopes[0] && !st.scopes[0][name.lexeme]
      then st.(reports := st.reports + [Diagnostic(name, SelfInitializer)])
      else st;
    Located(checked, id, name)
  }

  /** An expression changes no scope and not the current function, and only adds reports. */
  function ExprResolved(st: Resolution, e: Expr): (r: Resolution)
    ensures r.scopes == st.scopes && r.current == st.current && st.reports <= r.reports
    decreases e
  {
    match e
    case Literal(_, _) => st
    case Grouping(_, inner) => ExprResolved(st, inner)
    case Unary(_, _, right) => ExprResolved(st, right)
    case Binary(_, left, _, right) => ExprResolved(ExprResolved(st, left), right)
    case Logical(_, left, _, right) => ExprResolved(ExprResolved(st, left), right)
    case Variable(id, name) => VariableResolved(st, id, name)
    case Assign(id, name, value) => Located(ExprResolved(st, value), id, name)
    case Call(_, callee, _, args) => ExprsResolved(ExprResolved(st, callee), args)
  }

  /** A sequence of expressions, resolved left to right. */
  function ExprsResolved(st: Resolution, es: seq<Expr>): (r: Resolution)
    ensures r.scopes == st.scopes && r.current == st.current && st.reports <= r.reports
    decreases es
  {
    if es == [] then st else ExprsResolved(ExprResolved(st, es[0]), es[1..])
  }

  /** The scopes a statement may leave: only the innermost scope can change. */
  predicate SameOuterScopes(before: seq<map<string, bool>>, after: seq<map<string, bool>>)
  {
    |after| == |before| && (before != [] ==> after[1..] == before[1..])
  }

  /**
   * A statement that resolves normally leaves the stack as deep as it found it, changes no
   * scope but the innermost one, and leaves the current function type as it was.
   */
  function StmtResolved(st: Resolution, s: Stmt): (r: Outcome)
    ensures r.Resolved? ==> SameOuterScopes(st.scopes, r.st.scopes) && r.st.current == st.current
    decreases s, 0
  {
    match s
    case Expression(e) => Resolved(ExprResolved(st, e))
    case Print(e) => Resolved(ExprResolved(st, e))
    case Var(name, init) =>
      (match Declared(st, name)
       case Aborted(at, err) => Aborted(at, err)
       case Resolved(declared) =>
         var initialized := if init.Some? then ExprResolved(declared, init.value) else declared;
         Resolved(Defined(initialized, name)))
    case Block(stmts) =>
      (match StmtsResolved(Pushed(st), stmts)
       case Aborted(at, err) => Aborted(at, err)
       case Resolved(inner) => Resolved(Popped(inner)))
    case If(cond, thenBranch, elseBranch) =>
      var afterThen := StmtResolved(ExprResolved(st, cond), thenBranch);
      if afterThen.Resolved? && elseBranch.Some? then StmtResolved(afterThen.st, elseBranch.value)
      else afterThen
    case While(cond, body) => StmtResolved(ExprResolved(st, cond), body)
    case Function(name, params, body) => FunctionDeclared(st, name, params, body)
    case Return(keyword, value) =>
      if st.current == NONE then Aborted(st, RuntimeError(keyword, TopLevelReturn))
      else if st.current == INITIALIZER && value.Some? then Aborted(st, RuntimeError(keyword, InitializerReturn))
      else if value.Some? then Resolved(ExprResolved(st, value.value))
      else Resolved(st)
    case Break => Resolved(st)
    case Continue => Resolved(st)
  }

  /** Statements in order; the first thrown error ends the walk. */
  function StmtsResolved(st: Resolution, ss: seq<Stmt>): (r: Outcome)
    ensures r.Resolved? ==> SameOuterScopes(st.scopes, r.st.scopes) && r.st.current == st.current
    decreases ss, 0
  {
    if ss == [] then Resolved(st)
    else match StmtResolved(st, ss[0])
      case Aborted(at, err) => Aborted(at, err)
      case Resolved(next) => StmtsResolved(next, ss[1..])
  }

  /** A function statement: its name is declared and defined, then the function is resolved. */
  function FunctionDeclared(st: Resolution, name: Token, params: seq<Token>, body: seq<Stmt>): (r: Outcome)
    ensures r.Resolved? ==> SameOuterScopes(st.scopes, r.st.scopes) && r.st.current == st.current
    decreases body, 2
  {
    match Declared(st, name)
    case Aborted(at, err) => Aborted(at, err)
    case Resolved(declared) => FunctionResolved(Defined(declared, name), params, body, FUNCTION)
  }

  /** Each parameter declared, then defined, in order. */
  function ParamsDeclared(st: Resolution, params: seq<Token>): (r: Outcome)
    decreases params
  {
    if params == [] then Resolved(st)
    else match Declared(st, params[0])
      case Aborted(at, err) => Aborted(at, err)
      case Resolved(declared) => ParamsDeclared(Defined(declared, params[0]), params[1..])
  }

  /**
   * ResolveFunction: the body is resolved with the given function type in a fresh scope that
   * holds the parameters. Afterwards the stack is exactly as it was and the enclosing function
   * type is back.
   */
  function FunctionResolved(st: Resolution, params: seq<Token>, body: seq<Stmt>, kind: FunctionType): (r: Outcome)
    ensures r.Resolved? ==> r.st.scopes == st.scopes && r.st.current == st.current
    decreases body, 1
  {
    match ParamsDeclared(Pushed(st.(current := kind)), params)
    case Aborted(at, err) => Aborted(at, err)
    case Resolved(bound) =>
      ParamsKeepOuterScopes(Pushed(st.(current := kind)), params);
      match StmtsResolved(bound, body)
      case Aborted(at, err) => Aborted(at, err)
      case Resolved(done) => Resolved(Popped(done).(current := st.current))
  }

  /** Binding parameters touches the innermost scope only. */
  lemma {:induction false} ParamsKeepOuterScopes(st: Resolution, params: seq<Token>)
    ensures var r := ParamsDeclared(st, params);
      r.Resolved? ==> SameOuterScopes(st.scopes, r.st.scopes) && r.st.current == st.current
    decreases params
  {
    if params != [] {
      var d := Declared(st, params[0]);
      if d.Resolved? {
        ParamsKeepOuterScopes(Defined(d.st, params[0]), params[1..]);
      }
    }
  }

  /**
   * How a resolution step may change the binding table: entries of nodes outside `ids` stay as
   * they are, and every new or changed entry belongs to a node in `ids` and names one of the
   * `depth` scopes.
   */
  predicate LocalsWithin(before: map<nat, nat>, after: map<nat, nat>, ids: set<nat>, depth: nat)
  {
    && (forall id :: id in before && id !in ids ==> id in after && after[id] == before[id])
    && (forall id :: id in after ==> (id in before && after[id] == before[id]) || (id in ids && after[id] < depth))
  }

  lemma LocalsWithinChain(a: map<nat, nat>, b: map<nat, nat>, c: map<nat, nat>, ids1: set<nat>, ids2: set<nat>, depth: nat)
    requires LocalsWithin(a, b, ids1, depth) && LocalsWithin(b, c, ids2, depth)
    ensures LocalsWithin(a, c, ids1 + ids2, depth)
  {
  }

  /** Resolving an expression records distances only for its own nodes, and only to existing scopes. */
  lemma {:induction false} ExprLocalsWithin(st: Resolution, e: Expr)
    ensures LocalsWithin(st.locals, ExprResolved(st, e).locals, Ids(e), |st.scopes|)
    decreases e
  {
    match e
    case Literal(_, _) =>
    case Grouping(_, inner) => ExprLocalsWithin(st, inner);
    case Unary(_, _, right) => ExprLocalsWithin(st, right);
    case Binary(_, left, _, right) =>
      var mid := ExprResolved(st, left);
      ExprLocalsWithin(st, left);
      ExprLocalsWithin(mid, right);
      LocalsWithinChain(st.locals, mid.locals, ExprResolved(mid, right).locals, Ids(left), Ids(right), |st.scopes|);
    case Logical(_, left, _, right) =>
      var mid := ExprResolved(st, left);
      ExprLocalsWithin(st, left);
      ExprLocalsWithin(mid, right);
      LocalsWithinChain(st.locals, mid.locals, ExprResolved(mid, right).locals, Ids(left), Ids(right), |st.scopes|);
    case Variable(id, name) =>
    case Assign(id, name, value) =>
      ExprLocalsWithin(st, value);
    case Call(_, callee, _, args) =>
      var mid := ExprResolved(st, callee);
      ExprLocalsWithin(st, callee);
      ExprsLocalsWithin(mid, args);
      LocalsWithinChain(st.locals, mid.locals, ExprsResolved(mid, args).locals, Ids(callee), IdsOfAll(args), |st.scopes|);
  }

  lemma {:induction false} ExprsLocalsWithin(st: Resolution, es: seq<Expr>)
    ensures LocalsWithin(st.locals, ExprsResolved(st, es).locals, IdsOfAll(es), |st.scopes|)
    decreases es
  {
    if es != [] {
      var mid := ExprResolved(st, es[0]);
      ExprLocalsWithin(st, es[0]);
      ExprsLocalsWithin(mid, es[1..]);
      LocalsWithinChain(st.locals, mid.locals, ExprsResolved(mid, es[1..]).locals, Ids(es[0]), IdsOfAll(es[1..]), |st.scopes|);
    }
  }

  /** Declare in a scope that lacks the name: the name is now bound there, not yet ready, and found there first. */
  lemma DeclareMarksPending(st: Resolution, name: Token)
    requires st.scopes != [] && name.lexeme !in st.scopes[0]
    ensures var r := Declared(st, name);
      && r.Resolved?
      && r.st.scopes[0] == st.scopes[0][name.lexeme := false]
      && r.st.scopes[1..] == st.scopes[1..]
      && Nearest(r.st.scopes, name.lexeme) == Some(0)
  {
  }

  /** Define marks the name ready in the innermost scope only. */
  lemma DefineMarksReady(st: Resolution, name: Token)
    requires st.scopes != []
    ensures var r := Defined(st, name);
      && r.scopes[0] == st.scopes[0][name.lexeme := true]
      && r.scopes[1..] == st.scopes[1..]
  {
  }

  /** Outside every block the stack is empty: globals are neither tracked nor rejected when redeclared. */
  lemma GlobalsUntracked(st: Resolution, a: Token, b: Token)
    requires st.scopes == [] && a.lexeme == b.lexeme
    ensures Declared(st, a) == Resolved(st) && Defined(st, a) == st
    ensures StmtsResolved(st, [Var(a, None), Var(b, None)]) == Resolved(st)
  {
    var ss := [Var(a, None), Var(b, None)];
    assert StmtResolved(st, ss[0]) == Resolved(st);
    assert StmtResolved(st, ss[1]) == Resolved(st);
    assert ss[1..][1..] == [];
    assert StmtsResolved(st, ss[1..]) == Resolved(st);
  }

  /** Declaring the same name twice in one block throws "already declared". */
  lemma LocalRedeclarationRejected(st: Resolution, a: Token, b: Token)
    requires a.lexeme == b.lexeme
    ensures var r := StmtResolved(st, Block([Var(a, None), Var(b, None)]));
      r.Aborted? && r.error == Redeclared(b)
  {
    var ss := [Var(a, None), Var(b, None)];
    var inner := Pushed(st);
    var first := StmtResolved(inner, ss[0]);
    assert first.Resolved? && a.lexeme in first.st.scopes[0];
    assert StmtResolved(first.st, ss[1]) == Aborted(first.st, Redeclared(b));
    assert StmtsResolved(first.st, ss[1..]) == Aborted(first.st, Redeclared(b));
    assert StmtsResolved(inner, ss) == Aborted(first.st, Redeclared(b));
  }

  /**
   * A local whose initializer reads the variable being declared: the read is reported, its
   * distance 0 is recorded, and the variable is then ready.
   */
  lemma SelfInitializationReported(st: Resolution, name: Token, id: nat, read: Token)
    requires st.scopes != [] && name.lexeme !in st.scopes[0] && read.lexeme == name.lexeme
    ensures var r := StmtResolved(st, Var(name, Some(Variable(id, read))));
      && r.Resolved?
      && r.st.reports == st.reports + [Diagnostic(read, SelfInitializer)]
      && r.st.locals == st.locals[id := 0]
      && r.st.scopes[0] == st.scopes[0][name.lexeme := true]
  {
    var declared := Declared(st, name).st;
    assert Nearest(declared.scopes, read.lexeme) == Some(0);
  }

  /** A return outside every function throws; break and continue are always accepted. */
  lemma TopLevelReturnRejected(st: Resolution, keyword: Token, value: Option<Expr>)
    requires st.current == NONE
    ensures StmtResolved(st, Return(keyword, value)) == Aborted(st, RuntimeError(keyword, TopLevelReturn))
    ensures StmtResolved(st, Break) == Resolved(st) && StmtResolved(st, Continue) == Resolved(st)
  {
  }

  /** A top-level function whose body is a bare return resolves, and leaves the state as it found it. */
  lemma ReturnInsideFunctionAccepted(st: Resolution, name: Token, keyword: Token)
    requires st.scopes == [] && st.current == NONE
    ensures StmtResolved(st, Function(name, [], [Return(keyword, None)])) == Resolved(st)
  {
    var inner := Pushed(st.(current := FUNCTION));
    assert StmtsResolved(inner, [Return(keyword, None)]) == Resolved(inner);
    assert FunctionResolved(st, [], [Return(keyword, None)], FUNCTION) == Resolved(st);
    assert FunctionDeclared(st, name, [], [Return(keyword, None)]) == Resolved(st);
  }

  /** The lexemes of a parameter list. */
  function Names(params: seq<Token>): (r: set<string>)
    ensures forall k :: 0 <= k < |params| ==> params[k].lexeme in r
    ensures forall n :: n in r ==> exists k :: 0 <= k < |params| && params[k].lexeme == n
  {
    if params == [] then {} else {params[0].lexeme} + Names(params[1..])
  }

  /**
   * Distinct parameters, none already in the innermost scope: each becomes bound and ready
   * there, and nothing else changes.
   */
  lemma {:induction false} ParamsBound(st: Resolution, params: seq<Token>)
    requires st.scopes != [] && DistinctNames(params)
    requires forall k :: 0 <= k < |params| ==> params[k].lexeme !in st.scopes[0]
    ensures ParamsDeclared(st, params) == Resolved(WithInnermost(st, st.scopes[0] + (map n | n in Names(params) :: true)))
    decreases params
  {
    var s0 := st.scopes[0];
    if params == [] {
      assert s0 + (map n | n in Names(params) :: true) == s0;
      WithInnermostTwice(st, s0, s0);
      assert WithInnermost(st, s0).scopes == st.scopes;
    } else {
      var p, rest := params[0], params[1..];
      var m1 := s0[p.lexeme := true];
      var next := WithInnermost(st, m1);
      WithInnermostTwice(st, s0[p.lexeme := false], m1);
      assert s0[p.lexeme := false][p.lexeme := true] == m1;
      assert ParamsDeclared(st, params) == ParamsDeclared(next, rest);
      assert forall k :: 0 <= k < |rest| ==> rest[k].lexeme !in m1 by {
        forall k | 0 <= k < |rest| ensures rest[k].lexeme !in m1 {
          assert rest[k] == params[k + 1];
        }
      }
      ParamsBound(next, rest);
      WithInnermostTwice(st, m1, m1 + (map n | n in Names(rest) :: true));
      assert Names(params) == {p.lexeme} + Names(rest);
      MarkReadyStep(s0, p.lexeme, Names(rest));
    }
  }

  lemma MarkReadyStep(s0: map<string, bool>, x: string, rest: set<string>)
    ensures s0[x := true] + (map n | n in rest :: true) == s0 + (map n | n in {x} + rest :: true)
  {
    var l := s0[x := true] + (map n | n in rest :: true);
    var r := s0 + (map n | n in {x} + rest :: true);
    assert l.Keys == r.Keys;
    forall k | k in l.Keys
      ensures l[k] == r[k]
    {
    }
  }

  /** Once a name is in the innermost scope, a later parameter with that name throws. */
  lemma {:induction false} BoundNameRejected(st: Resolution, params: seq<Token>, j: nat)
    requires st.scopes != [] && j < |params| && params[j].lexeme in st.scopes[0]
    ensures ParamsDeclared(st, params).Aborted?
    decreases params
  {
    if j > 0 {
      var d := Declared(st, params[0]);
      if d.Resolved? {
        BoundNameRejected(Defined(d.st, params[0]), params[1..], j - 1);
      }
    }
  }

  /** Two parameters with the same name: binding them throws. */
  lemma {:induction false} DuplicateParamsRejected(st: Resolution, params: seq<Token>, i: nat, j: nat)
    requires st.scopes != [] && i < j < |params| && params[i].lexeme == params[j].lexeme
    ensures ParamsDeclared(st, params).Aborted?
    decreases params
  {
    var d := Declared(st, params[0]);
    if d.Resolved? {
      if i == 0 {
        BoundNameRejected(Defined(d.st, params[0]), params[1..], j - 1);
      } else {
        DuplicateParamsRejected(Defined(d.st, params[0]), params[1..], i - 1, j - 1);
      }
    }
  }

  /**
   * A function statement in a block: its name is bound and ready in the enclosing scope
   * before the body is resolved, so the body can refer to it, and the body runs as FUNCTION.
   */
  lemma FunctionNameBoundFirst(st: Resolution, name: Token, params: seq<Token>, body: seq<Stmt>)
    requires st.scopes != [] && name.lexeme !in st.scopes[0]
    ensures FunctionDeclared(st, name, params, body)
      == FunctionResolved(WithInnermost(st, st.scopes[0][name.lexeme := true]), params, body, FUNCTION)
  {
    var s0 := st.scopes[0];
    WithInnermostTwice(st, s0[name.lexeme := false], s0[name.lexeme := true]);
    assert s0[name.lexeme := false][name.lexeme := true] == s0[name.lexeme := true];
  }

  /**
   * The resolver object: the scope stack with the innermost scope first, the current function
   * type, the binding table handed to the interpreter, and the reports made so far.
   */
  class Resolver {
    var scopes: seq<map<string, bool>>
    var currentFunction: FunctionType
    var locals: map<nat, nat>
    var reports: seq<Diagnostic>

    function State(): Resolution
      reads this
    {
      Resolution(scopes, currentFunction, locals, reports)
    }

    /** A visit that returned normally, or threw the given error. */
    function Ended(thrown: Option<RuntimeError>): Outcome
      reads this
    {
      if thrown.Some? then Aborted(State(), thrown.value) else Resolved(State())
    }

    constructor ()
      ensures State() == Resolution([], NONE, map[], [])
    {
      scopes, currentFunction, locals, reports := [], NONE, map[], [];
    }

    method BeginScope()
      modifies this
      ensures State() == Pushed(old(State()))
    {
      scopes := [map[]] + scopes;
    }

    method EndScope()
      requires scopes != []
      modifies this
      ensures State() == Popped(old(State()))
    {
      scopes := scopes[1..];
    }

    method Declare(name: Token) returns (thrown: Option<RuntimeError>)
      modifies this
      ensures Ended(thrown) == Declared(old(State()), name)
    {
      if scopes == [] {
        return None;
      }
      var scope := scopes[0];
      if name.lexeme in scope {
        return Some(Redeclared(name));
      }
      scopes := [scope[name.lexeme := false]] + scopes[1..];
      return None;
    }

    method Define(name: Token)
      modifies this
      ensures State() == Defined(old(State()), name)
    {
      if scopes == [] {
        return;
      }
      scopes := [scopes[0][name.lexeme := true]] + scopes[1..];
    }

    /** Searches the stack from the innermost scope outwards and records the first hit. */
    method ResolveLocal(id: nat, name: Token)
      modifies this
      ensures State() == Located(old(State()), id, name)
    {
      var i := 0;
      while i < |scopes|
        invariant i <= |scopes| && State() == old(State())
        invariant forall k :: 0 <= k < i ==> name.lexeme !in scopes[k]
      {
        if name.lexeme in scopes[i] {
          locals := locals[id := i];
          return;
        }
        i := i + 1;
      }
    }

    method ResolveExpr(e: Expr)
      modifies this
      ensures State() == ExprResolved(old(State()), e)
      decreases e
    {
      match e
      case Literal(_, _) =>
      case Grouping(_, inner) =>
        ResolveExpr(inner);
      case Unary(_, _, right) =>
        ResolveExpr(right);
      case Binary(_, left, _, right) =>
        ResolveExpr(left);
        ResolveExpr(right);
      case Logical(_, left, _, right) =>
        ResolveExpr(left);
        ResolveExpr(right);
      case Variable(id, name) =>
        if scopes != [] && name.lexeme in scopes[0] && !scopes[0][name.lexeme] {
          reports := reports + [Diagnostic(name, SelfInitializer)];
        }
        ResolveLocal(id, name);
      case Assign(id, name, value) =>
        ResolveExpr(value);
        ResolveLocal(id, name);
      case Call(_, callee, _, args) =>
        ResolveExpr(callee);
        ResolveExprs(args);
    }

    method ResolveExprs(es: seq<Expr>)
      modifies this
      ensures State() == ExprsResolved(old(State()), es)
      decreases es
    {
      for i := 0 to |es|
        invariant ExprsResolved(old(State()), es) == ExprsResolved(State(), es[i..])
      {
        assert es[i..][1..] == es[i + 1..];
        ResolveExpr(es[i]);
      }
    }

    method ResolveStmt(s: Stmt) returns (thrown: Option<RuntimeError>)
      modifies this
      ensures Ended(thrown) == StmtResolved(old(State()), s)
      decreases s, 0
    {
      thrown := None;
      match s
      case Expression(e) =>
        ResolveExpr(e);
      case Print(e) =>
        ResolveExpr(e);
      case Var(name, init) =>
        thrown := Declare(name);
        if thrown.Some? {
          return;
        }
        if init.Some? {
          ResolveExpr(init.value);
        }
        Define(name);
      case Block(stmts) =>
        BeginScope();
        thrown := ResolveStmts(stmts);
        if thrown.Some? {
          return;
        }
        EndScope();
      case If(cond, thenBranch, elseBranch) =>
        ResolveExpr(cond);
        thrown := ResolveStmt(thenBranch);
        if thrown.None? && elseBranch.Some? {
          thrown := ResolveStmt(elseBranch.value);
        }
      case While(cond, body) =>
        ResolveExpr(cond);
        thrown := ResolveStmt(body);
      case Function(name, params, body) =>
        thrown := Declare(name);
        if thrown.Some? {
          return;
        }
        Define(name);
        thrown := ResolveFunction(params, body, FUNCTION);
      case Return(keyword, value) =>
        if currentFunction == NONE {
          return Some(RuntimeError(keyword, TopLevelReturn));
        }
        if currentFunction == INITIALIZER && value.Some? {
          return Some(RuntimeError(keyword, InitializerReturn));
        }
        if value.Some? {
          ResolveExpr(value.value);
        }
      case Break =>
      case Continue =>
    }

    method ResolveStmts(ss: seq<Stmt>) returns (thrown: Option<RuntimeError>)
      modifies this
      ensures Ended(thrown) == StmtsResolved(old(State()), ss)
      decreases ss, 0
    {
      var i := 0;
      while i < |ss|
        invariant i <= |ss| && StmtsResolved(old(State()), ss) == StmtsResolved(State(), ss[i..])
      {
        assert ss[i..][1..] == ss[i + 1..];
        thrown := ResolveStmt(ss[i]);
        if thrown.Some? {
          return;
        }
        i := i + 1;
      }
      return None;
    }

    method ResolveFunction(params: seq<Token>, body: seq<Stmt>, kind: FunctionType) returns (thrown: Option<RuntimeError>)
      modifies this
      ensures Ended(thrown) == FunctionResolved(old(State()), params, body, kind)
      decreases body, 1
    {
      var enclosing := currentFunction;
      currentFunction := kind;
      BeginScope();
      ghost var entry := State();
      ParamsKeepOuterScopes(entry, params);
      for i := 0 to |params|
        invariant ParamsDeclared(entry, params) == ParamsDeclared(State(), params[i..])
      {
        assert params[i..][1..] == params[i + 1..];
        thrown := Declare(params[i]);
        if thrown.Some? {
          return;
        }
        Define(params[i]);
      }
      thrown := ResolveStmts(body);
      if thrown.Some? {
        return;
      }
      EndScope();
      currentFunction := enclosing;
    }
  }
}
