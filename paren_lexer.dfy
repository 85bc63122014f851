/**
 * The earlier lexer of src/lox/src/Lexer.cs: a cursor (Position, ReadPosition, CurrentChar)
 * over the input whose NextToken knows only parentheses and the end of input. Token kinds
 * are the strings of its `Tokens` constants.
 */
module ParenLexer {
  import opened Wrappers
  import opened Chars

  datatype Token = Token(kind: string, literal: string)

  const EOF: string := "EOF"
  const LEFT_PAREN: string := "LEFT_PAREN"
  const RIGHT_PAREN: string := "RIGHT_PAREN"

  /** One call of NextToken from cursor position i: the token (or the error) and the new position. */
  datatype Lexed = Lexed(token: Result<Token, LexError>, next: nat)

  /**
   * NextToken from position i: blanks are skipped, then a parenthesis or the NUL that ends the
   * input gives a token and moves one character on; anything else throws and leaves the
   * cursor on that character.
   */
  function NextAt(s: string, i: nat): (r: Lexed)
    ensures var j := SkipFrom(s, i);
      && (r.token.Success? <==> CharAt(s, j) in {'(', ')', '\0'})
      && (r.token.Success? ==> r.next == j + 1 && r.token.value.literal == if CharAt(s, j) == '\0' then "" else [CharAt(s, j)])
      && (r.token.Success? ==>
            r.token.value.kind == if CharAt(s, j) == '(' then LEFT_PAREN else if CharAt(s, j) == ')' then RIGHT_PAREN else EOF)
      && (r.token.Failure? ==> r.next == j && r.token.error == UnknownCharacter(CharAt(s, j)))
  {
    var j := SkipFrom(s, i);
    match CharAt(s, j)
    case '(' => Lexed(Success(Token(LEFT_PAREN, "(")), j + 1)
    case ')' => Lexed(Success(Token(RIGHT_PAREN, ")")), j + 1)
    case '\0' => Lexed(Success(Token(EOF, "")), j + 1)
    case c => Lexed(Failure(UnknownCharacter(c)), j)
  }

  /**
   * The first n results of calling NextToken repeatedly from position i. A thrown error is
   * the last result: the exception ends the caller's loop.
   */
  function Run(s: string, i: nat, n: nat): (rs: seq<Result<Token, LexError>>)
    decreases n
  {
    if n == 0 then []
    else
      var step := NextAt(s, i);
      if step.token.Failure? then [step.token] else [step.token] + Run(s, step.next, n - 1)
  }

  /** Once the cursor is at or past the end of the input, every call returns EOF and stays past the end. */
  lemma {:induction false} EofRepeats(s: string, i: nat, n: nat)
    requires |s| <= i
    ensures Run(s, i, n) == seq(n, _ => Success(Token(EOF, "")))
    decreases n
  {
    if n > 0 {
      assert NextAt(s, i) == Lexed(Success(Token(EOF, "")), i + 1);
      EofRepeats(s, i + 1, n - 1);
    }
  }

  /** Blank input to the end: the first call already returns EOF, and so does every later one. */
  lemma BlankTailGivesEof(s: string, i: nat, n: nat)
    requires i <= |s|
    requires forall k :: i <= k < |s| ==> IsWhiteSpace(s[k])
    ensures Run(s, i, n) == seq(n, _ => Success(Token(EOF, "")))
  {
    if n > 0 {
      var j := SkipFrom(s, i);
      assert j == |s|;
      EofRepeats(s, j + 1, n - 1);
      assert Run(s, i, n) == [Success(Token(EOF, ""))] + Run(s, j + 1, n - 1);
    }
  }

  /** The token NextToken returns for a parenthesis. */
  function ParenToken(c: char): (t: Token)
    requires c in {'(', ')'}
    ensures t.literal == [c] && t.kind == (if c == '(' then LEFT_PAREN else RIGHT_PAREN)
  {
    if c == '(' then Token(LEFT_PAREN, "(") else Token(RIGHT_PAREN, ")")
  }

  /** The successful results for a sequence of parentheses. */
  function ParenTokens(ps: string): (rs: seq<Result<Token, LexError>>)
    requires forall k :: 0 <= k < |ps| ==> ps[k] in {'(', ')'}
    ensures |rs| == |ps|
    ensures forall k :: 0 <= k < |ps| ==> rs[k] == Success(ParenToken(ps[k]))
  {
    if ps == [] then [] else [Success(ParenToken(ps[0]))] + ParenTokens(ps[1..])
  }

  /** A text of parentheses and blanks: one token per parenthesis, in order, and EOF after them. */
  lemma {:induction false} ParenthesesInOrder(s: string, i: nat)
    requires i <= |s|
    requires forall k :: i <= k < |s| ==> IsWhiteSpace(s[k]) || s[k] in {'(', ')'}
    ensures ParensOnly(Parens(s[i..]))
    ensures Run(s, i, |Parens(s[i..])| + 1) == ParenTokens(Parens(s[i..])) + [Success(Token(EOF, ""))]
    decreases |s| - i
  {
    var j := SkipFrom(s, i);
    ParensOfBlanks(s, i, j);
    if j == |s| {
      assert s[j..] == [];
      BlankTailGivesEof(s, i, 1);
    } else {
      var ps := Parens(s[j + 1..]);
      ParenthesesInOrder(s, j + 1);
      ParensOfParen(s, j, ps);
      NextAtParen(s, i, j);
      ParenStep(s, i, s[j], ps);
    }
  }

  /** One parenthesis token, then whatever the rest of the text gives. */
  lemma ParenStep(s: string, i: nat, c: char, ps: string)
    requires c in {'(', ')'} && ParensOnly(ps)
    requires NextAt(s, i).token == Success(ParenToken(c))
    requires Run(s, NextAt(s, i).next, |ps| + 1) == ParenTokens(ps) + [Success(Token(EOF, ""))]
    ensures ParensOnly([c] + ps)
    ensures Run(s, i, |ps| + 2) == ParenTokens([c] + ps) + [Success(Token(EOF, ""))]
  {
    var x := Success(ParenToken(c));
    RunStep(s, i, |ps| + 1);
    assert ([c] + ps)[1..] == ps;
    calc {
      Run(s, i, |ps| + 2);
      [x] + Run(s, NextAt(s, i).next, |ps| + 1);
      [x] + (ParenTokens(ps) + [Success(Token(EOF, ""))]);
      ([x] + ParenTokens(ps)) + [Success(Token(EOF, ""))];
      ParenTokens([c] + ps) + [Success(Token(EOF, ""))];
    }
  }

  lemma ParensOfParen(s: string, j: nat, ps: string)
    requires j < |s| && s[j] in {'(', ')'} && ps == Parens(s[j + 1..])
    ensures Parens(s[j..]) == [s[j]] + ps
  {
    assert s[j..][1..] == s[j + 1..];
  }

  lemma NextAtParen(s: string, i: nat, j: nat)
    requires j == SkipFrom(s, i) && j < |s| && s[j] in {'(', ')'}
    ensures NextAt(s, i) == Lexed(Success(ParenToken(s[j])), j + 1)
  {
  }

  lemma RunStep(s: string, i: nat, n: nat)
    requires NextAt(s, i).token.Success?
    ensures Run(s, i, n + 1) == [NextAt(s, i).token] + Run(s, NextAt(s, i).next, n)
  {
  }

  predicate ParensOnly(ps: string)
  {
    forall k :: 0 <= k < |ps| ==> ps[k] in {'(', ')'}
  }

  /** The parentheses of a text, in order. */
  function Parens(cs: string): string
  {
    if cs == [] then []
    else if cs[0] in {'(', ')'} then [cs[0]] + Parens(cs[1..])
    else Parens(cs[1..])
  }

  lemma {:induction false} ParensOfBlanks(s: string, i: nat, j: nat)
    requires i <= j <= |s|
    requires forall k :: i <= k < j ==> IsWhiteSpace(s[k])
    ensures Parens(s[i..]) == Parens(s[j..])
    decreases j - i
  {
    if i < j {
      assert s[i..][1..] == s[i + 1..];
      ParensOfBlanks(s, i + 1, j);
    }
  }

  class Lexer {
    const input: string
    var position: int
    var readPosition: int
    var currentChar: char

    /** What every ReadChar leaves: the cursor sits on the character before the read position. */
    ghost predicate Valid()
      reads this
    {
      0 <= position && readPosition == position + 1 && currentChar == CharAt(input, position)
    }

    constructor (s: string)
      ensures input == s && Valid() && position == 0
      ensures currentChar == if s == [] then '\0' else s[0]
    {
      input := s;
      position, readPosition, currentChar := 0, 0, '\0';
      new;
      ReadChar();
    }

    method ReadChar()
      requires 0 <= readPosition
      modifies this
      ensures currentChar == CharAt(input, old(readPosition))
      ensures position == old(readPosition) && readPosition == position + 1
    {
      currentChar := if readPosition >= |input| then '\0' else input[readPosition];
      position := readPosition;
      readPosition := readPosition + 1;
    }

    method SkipWhitespace()
      requires Valid()
      modifies this
      ensures Valid() && position == SkipFrom(input, old(position))
    {
      while IsWhiteSpace(currentChar)
        invariant Valid() && old(position) <= position
        invariant SkipFrom(input, position) == SkipFrom(input, old(position))
        decreases |input| - position
      {
        ReadChar();
      }
    }

    method NextToken() returns (r: Result<Token, LexError>)
      requires Valid()
      modifies this
      ensures Valid() && Lexed(r, position) == NextAt(input, old(position))
    {
      SkipWhitespace();
      var c := currentChar;
      if c == '(' {
        r := Success(Token(LEFT_PAREN, "("));
      } else if c == ')' {
        r := Success(Token(RIGHT_PAREN, ")"));
      } else if c == '\0' {
        r := Success(Token(EOF, ""));
      } else {
        return Failure(UnknownCharacter(c));
      }
      ReadChar();
    }
  }
}
