/** Token kinds and the token record shared by the scanner, the parser and the interpreter. */
module Tokens {
  import opened Values

  datatype TokenType =
    // single-character tokens
    | LEFT_PAREN | RIGHT_PAREN | LEFT_BRACE | RIGHT_BRACE
    | COMMA | DOT | MINUS | PLUS | SEMICOLON | SLASH | STAR
    // one- or two-character tokens
    | BANG | BANG_EQUAL | EQUAL | EQUAL_EQUAL
    | GREATER | GREATER_EQUAL | LESS | LESS_EQUAL
    // literals
    | IDENTIFIER | STRING | NUMBER
    // keywords
    | AND | CLASS | ELSE | FALSE | FUN | FOR | IF | NIL | OR
    | PRINT | RETURN | SUPER | THIS | TRUE | VAR | WHILE | BREAK | CONTINUE
    // the native clock
    | CLOCK
    | EOF

  /**
   * A token: its kind, its source text, the literal value it carries (`Nil` where the
   * source leaves it null) and its line. The source's defaults are an empty lexeme and line 0.
   */
  datatype Token = Token(kind: TokenType, lexeme: string, literal: Value, line: int)

  /** No two of the tokens have the same text, as a parameter list declared without repeats. */
  predicate DistinctNames(names: seq<Token>)
  {
    forall i, j :: 0 <= i < j < |names| ==> names[i].lexeme != names[j].lexeme
  }
}
