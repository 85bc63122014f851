/**
 * The flat environment of src/lox/Interpreter/Environment.cs: one dictionary from names to
 * values, changed in place by Define and Assign.
 */
module FlatEnvironment {
  import opened Wrappers
  import opened Values
  import opened Tokens
  import opened RuntimeErrors

  /** Get on a dictionary: the bound value, or the "Undefined variable" error. */
  function Lookup(values: map<string, Value>, name: Token): (r: Result<Value, RuntimeError>)
    ensures r.Success? <==> name.lexeme in values
    ensures r.Success? ==> r.value == values[name.lexeme]
    ensures r.Failure? ==> r.error == Undefined(name)
  {
    if name.lexeme in values then Success(values[name.lexeme]) else Failure(Undefined(name))
  }

  /** Assign on a dictionary: the updated dictionary, or the error when the name is unbound. */
  function Assigned(values: map<string, Value>, name: Token, value: Value): (r: Result<map<string, Value>, RuntimeError>)
    ensures r.Success? <==> name.lexeme in values
    ensures r.Success? ==> r.value.Keys == values.Keys && r.value[name.lexeme] == value
    ensures r.Success? ==> forall n :: n in values && n != name.lexeme ==> r.value[n] == values[n]
    ensures r.Failure? ==> r.error == Undefined(name)
  {
    if name.lexeme in values then Success(values[name.lexeme := value]) else Failure(Undefined(name))
  }

  /** Get after Define gives the defined value, whatever was bound before. */
  lemma GetAfterDefine(values: map<string, Value>, name: Token, value: Value)
    ensures Lookup(values[name.lexeme := value], name) == Success(value)
  {
  }

  /** Define overwrites silently: a second Define of a name replaces the first. */
  lemma DefineOverwrites(values: map<string, Value>, name: string, first: Value, second: Value)
    ensures values[name := first][name := second] == values[name := second]
  {
  }

  /** Assign then Get gives the assigned value; a failed Assign leaves Get failing. */
  lemma GetAfterAssign(values: map<string, Value>, name: Token, value: Value)
    ensures match Assigned(values, name, value)
      case Success(updated) => Lookup(updated, name) == Success(value)
      case Failure(_) => Lookup(values, name) == Failure(Undefined(name))
  {
  }

  /** Assign is Define restricted to names already bound. */
  lemma AssignIsDefineOfBound(values: map<string, Value>, name: Token, value: Value)
    requires name.lexeme in values
    ensures Assigned(values, name, value) == Success(values[name.lexeme := value])
  {
  }

  class Environment {
    var values: map<string, Value>

    constructor ()
      ensures values == map[]
    {
      values := map[];
    }

    method Define(name: string, value: Value)
      modifies this
      ensures values == old(values)[name := value]
    {
      values := values[name := value];
    }

    method Get(name: Token) returns (r: Result<Value, RuntimeError>)
      ensures r == Lookup(values, name)
    {
      if name.lexeme in values {
        return Success(values[name.lexeme]);
      }
      return Failure(RuntimeError(name, "Undefined variable '" + name.lexeme + "'."));
    }

    method Assign(name: Token, value: Value) returns (r: Result<(), RuntimeError>)
      modifies this
      ensures var spec := Assigned(old(values), name, value);
        && r.Success? == spec.Success?
        && (spec.Success? ==> values == spec.value)
        && (spec.Failure? ==> r.error == spec.error && values == old(values))
    {
      if name.lexeme !in values {
        return Failure(RuntimeError(name, "Undefined variable '" + name.lexeme + "'."));
      }
      values := values[name.lexeme := value];
      return Success(());
    }
  }
}
