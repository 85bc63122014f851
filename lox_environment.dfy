/**
 * The chained environment of src/lox/Interpreter/LoxEnvironment.cs: a dictionary of its own
 * and a read-only link to the enclosing environment. Lookups and assignments walk the link
 * outwards until the name is found.
 *
 * The chain's dictionaries, innermost first, are the abstract state: `Scopes()`. The pure
 * functions on such a sequence say what Get and Assign compute.
 */
module ChainedEnvironment {
  import opened Wrappers
  import opened Values
  import opened Tokens
  import opened RuntimeErrors
  import opened Scopes

  /** Get along a chain: the value in the nearest dictionary that binds the name. */
  function ChainGet(scopes: seq<map<string, Value>>, name: Token): Result<Value, RuntimeError>
  {
    if scopes == [] then Failure(Undefined(name))
    else if name.lexeme in scopes[0] then Success(scopes[0][name.lexeme])
    else ChainGet(scopes[1..], name)
  }

  /** Assign along a chain: the chain with the nearest binding replaced, or the error. */
  function ChainAssign(scopes: seq<map<string, Value>>, name: Token, value: Value)
    : Result<seq<map<string, Value>>, RuntimeError>
  {
    if scopes == [] then Failure(Undefined(name))
    else if name.lexeme in scopes[0] then Success([scopes[0][name.lexeme := value]] + scopes[1..])
    else
      var rest :- ChainAssign(scopes[1..], name, value);
      Success([scopes[0]] + rest)
  }

  /** Get finds the nearest binding, so an inner binding shadows every outer one. */
  lemma {:induction false} GetFindsNearest(scopes: seq<map<string, Value>>, name: Token)
    ensures match Nearest(scopes, name.lexeme)
      case Some(k) => ChainGet(scopes, name) == Success(scopes[k][name.lexeme])
      case None => ChainGet(scopes, name) == Failure(Undefined(name))
  {
    if scopes != [] && name.lexeme !in scopes[0] {
      GetFindsNearest(scopes[1..], name);
    }
  }

  /**
   * Assign replaces the value in exactly the nearest dictionary binding the name and leaves
   * every other dictionary, including outer ones binding the same name, as it was. With no
   * binding on the chain it fails with "Undefined variable".
   */
  lemma {:induction false} AssignUpdatesNearest(scopes: seq<map<string, Value>>, name: Token, value: Value)
    ensures var r := ChainAssign(scopes, name, value);
      match Nearest(scopes, name.lexeme)
      case Some(k) =>
        && r.Success? && |r.value| == |scopes|
        && r.value[k] == scopes[k][name.lexeme := value]
        && forall j :: 0 <= j < |scopes| && j != k ==> r.value[j] == scopes[j]
      case None => r == Failure(Undefined(name))
  {
    if scopes != [] && name.lexeme !in scopes[0] {
      AssignUpdatesNearest(scopes[1..], name, value);
    }
  }

  /** Get after a successful Assign of the same name reads the assigned value. */
  lemma GetAfterAssign(scopes: seq<map<string, Value>>, name: Token, value: Value)
    requires ChainAssign(scopes, name, value).Success?
    ensures ChainGet(ChainAssign(scopes, name, value).value, name) == Success(value)
  {
    AssignUpdatesNearest(scopes, name, value);
    var k := Nearest(scopes, name.lexeme).value;
    var updated := ChainAssign(scopes, name, value).value;
    GetFindsNearest(updated, name);
    assert Nearest(updated, name.lexeme) == Some(k) by {
      NearestOfSameKeys(scopes, updated, name.lexeme);
    }
  }

  class LoxEnvironment {
    const enclosing: LoxEnvironment?
    var values: map<string, Value>
    /** How many environments enclose this one: the link is read-only, so the chain is finite. */
    ghost const depth: nat

    ghost predicate Valid()
      decreases depth
    {
      && (enclosing == null <==> depth == 0)
      && (enclosing != null ==> enclosing.depth == depth - 1 && enclosing.Valid())
    }

    /** The objects of the chain, for reads and modifies clauses. */
    ghost function Footprint(): (s: set<LoxEnvironment>)
      requires Valid()
      ensures this in s && forall e :: e in s ==> e.Valid() && e.depth <= depth
      ensures enclosing != null ==> s == {this} + enclosing.Footprint() && this !in enclosing.Footprint()
      decreases depth
    {
      if enclosing == null then {this} else {this} + enclosing.Footprint()
    }

    /** The dictionaries of the chain, innermost first. */
    ghost function Scopes(): (ms: seq<map<string, Value>>)
      requires Valid()
      reads Footprint()
      ensures |ms| == depth + 1 && ms[0] == values
      decreases depth
    {
      if enclosing == null then [values] else [values] + enclosing.Scopes()
    }

    constructor (parent: LoxEnvironment?)
      requires parent != null ==> parent.Valid()
      ensures Valid() && enclosing == parent && values == map[]
      ensures parent != null ==> Scopes() == [map[]] + parent.Scopes()
    {
      enclosing := parent;
      depth := if parent == null then 0 else parent.depth + 1;
      values := map[];
    }

    /** Define writes the local dictionary only; the enclosing ones are untouched. */
    method Define(name: string, value: Value)
      requires Valid()
      modifies this
      ensures Valid() && values == old(values)[name := value]
      ensures Scopes() == [old(values)[name := value]] + old(Scopes())[1..]
      ensures enclosing != null ==> enclosing.Scopes() == old(enclosing.Scopes())
    {
      ghost var outer := if enclosing == null then [] else enclosing.Scopes();
      assert Scopes()[1..] == outer;
      assert enclosing != null ==> this !in enclosing.Footprint() by {
        assert this in Footprint();
      }
      values := values[name := value];
      assert enclosing != null ==> enclosing.Scopes() == outer;
    }

    method Get(name: Token) returns (r: Result<Value, RuntimeError>)
      requires Valid()
      ensures r == ChainGet(Scopes(), name)
      decreases depth
    {
      if name.lexeme in values {
        return Success(values[name.lexeme]);
      }
      if enclosing != null {
        r := enclosing.Get(name);
        assert Scopes()[1..] == enclosing.Scopes();
        return;
      }
      return Failure(RuntimeError(name, "Undefined variable '" + name.lexeme + "'."));
    }

    method Assign(name: Token, value: Value) returns (r: Result<(), RuntimeError>)
      requires Valid()
      modifies Footprint()
      ensures Valid()
      ensures var spec := ChainAssign(old(Scopes()), name, value);
        && r.Success? == spec.Success?
        && (spec.Success? ==> Scopes() == spec.value)
        && (spec.Failure? ==> r.error == spec.error && Scopes() == old(Scopes()))
      decreases depth
    {
      if name.lexeme in values {
        values := values[name.lexeme := value];
        return Success(());
      }
      if enclosing != null {
        r := enclosing.Assign(name, value);
        return;
      }
      return Failure(RuntimeError(name, "Undefined variable '" + name.lexeme + "'."));
    }
  }
}
