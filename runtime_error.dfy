/** The RuntimeError of src/lox/Interpreter/RuntimeError.cs: the offending token and the message. */
module RuntimeErrors {
  import opened Tokens

  datatype RuntimeError = RuntimeError(token: Token, message: string)

  /** The error both environments throw for a name with no binding. */
  function Undefined(name: Token): RuntimeError
  {
    RuntimeError(name, "Undefined variable '" + name.lexeme + "'.")
  }
}
