/**
 * The punctuation scanner of src/lox/Lexer/Lexer.cs: a character cursor over the source text
 * that turns the ten single-character punctuators into tokens and stops at the end of input
 * (or at an embedded NUL) with one EOF token. Any other non-blank character aborts the scan.
 */
module Scanner {
  import opened Wrappers
  import opened Values
  import opened Tokens
  import opened Chars

  /** The token kind of each punctuator the scanner recognises. */
  function Punctuator(c: char): Option<TokenType>
  {
    match c
    case '(' => Some(LEFT_PAREN)
    case ')' => Some(RIGHT_PAREN)
    case '{' => Some(LEFT_BRACE)
    case '}' => Some(RIGHT_BRACE)
    case ',' => Some(COMMA)
    case '.' => Some(DOT)
    case '-' => Some(MINUS)
    case '+' => Some(PLUS)
    case ';' => Some(SEMICOLON)
    case '*' => Some(STAR)
    case _ => None
  }

  /** The token emitted for a punctuator: its kind, with the character itself as literal. */
  function PunctuatorToken(c: char): Token
    requires Punctuator(c).Some?
  {
    Token(Punctuator(c).value, "", Str([c]), 0)
  }

  lemma PunctuatorIsNotBlank(c: char)
    requires Punctuator(c).Some?
    ensures !IsWhiteSpace(c) && c != '\0'
  {
  }

  const EofToken: Token := Token(EOF, "", Str(""), 0)

  /** A character that the scan passes over without stopping: blank space or a punctuator. */
  predicate Recognised(c: char)
  {
    IsWhiteSpace(c) || Punctuator(c).Some?
  }

  /** One call of NextToken from cursor position i: the token (or the error) and the new position. */
  datatype Lexed = Lexed(token: Result<Token, LexError>, next: nat)

  function NextAt(s: string, i: nat): (r: Lexed)
    requires i <= |s|
    ensures i <= r.next <= |s|
    ensures forall k :: i <= k < r.next ==> Recognised(s[k])
    ensures r.token.Success? && r.token.value.kind != EOF ==>
              i < r.next && Punctuator(s[r.next - 1]).Some?
              && r.token.value == PunctuatorToken(s[r.next - 1])
              && forall k :: i <= k < r.next - 1 ==> IsWhiteSpace(s[k])
    ensures r.token.Failure? || r.token.value.kind == EOF ==> !Recognised(CharAt(s, r.next))
    ensures r.token.Success? && r.token.value.kind == EOF ==> CharAt(s, r.next) == '\0'
    ensures r.token.Failure? ==> CharAt(s, r.next) != '\0'
    ensures r.token.Failure? || r.token.value.kind == EOF ==>
              forall k :: i <= k < r.next ==> IsWhiteSpace(s[k])
    ensures r.token.Failure? ==> r.token.error == UnknownCharacter(CharAt(s, r.next))
    ensures r.token.Success? && r.token.value.kind == EOF ==> r.token.value == EofToken
  {
    var j := SkipFrom(s, i);
    var c := CharAt(s, j);
    if c == '\0' then Lexed(Success(EofToken), j)
    else if Punctuator(c).Some? then Lexed(Success(PunctuatorToken(c)), j + 1)
    else Lexed(Failure(UnknownCharacter(c)), j)
  }

  /**
   * The tokens ScanTokens yields from position i, and the exception that ends the
   * enumeration early, if one is thrown.
   */
  datatype ScanResult = ScanResult(tokens: seq<Token>, error: Option<LexError>)

  function Scan(s: string, i: nat): (r: ScanResult)
    requires i <= |s|
    decreases |s| - i
  {
    var step := NextAt(s, i);
    match step.token
    case Failure(msg) => ScanResult([], Some(msg))
    case Success(t) =>
      if t.kind == EOF then ScanResult([t], None)
      else
        var rest := Scan(s, step.next);
        ScanResult([t] + rest.tokens, rest.error)
  }

  /**
   * A completed scan ends with exactly one EOF token, whose literal is empty, and nothing
   * follows it; a scan that aborted with an error yields no EOF token at all.
   */
  lemma {:induction false} ScanEndsWithEof(s: string, i: nat)
    requires i <= |s|
    ensures var r := Scan(s, i);
      && (r.error.None? ==> |r.tokens| > 0 && r.tokens[|r.tokens| - 1] == EofToken)
      && forall k :: 0 <= k < |r.tokens| ==>
           (r.tokens[k].kind == EOF <==> r.error.None? && k == |r.tokens| - 1)
    decreases |s| - i
  {
    var step := NextAt(s, i);
    if step.token.Success? && step.token.value.kind != EOF {
      ScanEndsWithEof(s, step.next);
    }
  }

  /** The tokens of a run of blanks and punctuators, in source order. */
  function TokensOf(cs: string): (ts: seq<Token>)
    requires forall k :: 0 <= k < |cs| ==> Recognised(cs[k])
  {
    if cs == [] then []
    else
      assert Recognised(cs[0]);
      if IsWhiteSpace(cs[0]) then TokensOf(cs[1..])
      else [PunctuatorToken(cs[0])] + TokensOf(cs[1..])
  }

  /** The characters of a text that are not blank, in order. */
  function NonBlank(cs: string): string
  {
    if cs == [] then []
    else if IsWhiteSpace(cs[0]) then NonBlank(cs[1..])
    else [cs[0]] + NonBlank(cs[1..])
  }

  /** Each token of a run of blanks and punctuators is the token of one non-blank character. */
  lemma {:induction false} TokensOfNonBlank(cs: string)
    requires forall k :: 0 <= k < |cs| ==> Recognised(cs[k])
    ensures |TokensOf(cs)| == |NonBlank(cs)|
    ensures forall k :: 0 <= k < |NonBlank(cs)| ==>
              Punctuator(NonBlank(cs)[k]).Some? && TokensOf(cs)[k] == PunctuatorToken(NonBlank(cs)[k])
  {
    if cs != [] {
      TokensOfNonBlank(cs[1..]);
    }
  }

  lemma {:induction false} TokensOfBlanks(s: string, i: nat, j: nat)
    requires i <= j <= |s|
    requires forall k :: i <= k < j ==> IsWhiteSpace(s[k])
    requires forall k :: j <= k < |s| ==> Recognised(s[k])
    ensures forall k :: i <= k < |s| ==> Recognised(s[k])
    ensures TokensOf(s[i..]) == TokensOf(s[j..])
    decreases j - i
  {
    if i < j {
      assert s[i..][1..] == s[i + 1..];
      TokensOfBlanks(s, i + 1, j);
    }
  }

  /**
   * Where the scan stops. If every character from i up to j is a blank or a punctuator and
   * the character at j is neither (the end of the text, an embedded NUL or an unknown
   * character), the scan yields the punctuator tokens of s[i..j] in order, then EOF when it
   * stopped at a NUL, or the "Unknown character" error otherwise.
   */
  lemma {:induction false} ScanStopsAt(s: string, i: nat, j: nat)
    requires i <= j <= |s|
    requires forall k :: i <= k < j ==> Recognised(s[k])
    requires !Recognised(CharAt(s, j))
    ensures Scan(s, i) ==
      if CharAt(s, j) == '\0' then ScanResult(TokensOf(s[i..j]) + [EofToken], None)
      else ScanResult(TokensOf(s[i..j]), Some(UnknownCharacter(CharAt(s, j))))
    decreases |s| - i
  {
    var step := NextAt(s, i);
    if step.token.Success? && step.token.value.kind != EOF {
      var m := ScanPassesPunctuator(s, i, j);
      ScanStopsAt(s, m, j);
      if CharAt(s, j) == '\0' {
        assert [PunctuatorToken(s[m - 1])] + (TokensOf(s[m..j]) + [EofToken])
            == TokensOf(s[i..j]) + [EofToken];
      }
    } else {
      ScanStopsHere(s, i, j);
    }
  }

  /** The case of ScanStopsAt where NextToken returns a punctuator: the scan goes on after it. */
  lemma ScanPassesPunctuator(s: string, i: nat, j: nat) returns (m: nat)
    requires i <= j <= |s|
    requires forall k :: i <= k < j ==> Recognised(s[k])
    requires !Recognised(CharAt(s, j))
    requires NextAt(s, i).token.Success? && NextAt(s, i).token.value.kind != EOF
    ensures m == NextAt(s, i).next && i < m <= j && Punctuator(s[m - 1]).Some?
    ensures Scan(s, i) == ScanResult([PunctuatorToken(s[m - 1])] + Scan(s, m).tokens, Scan(s, m).error)
    ensures TokensOf(s[i..j]) == [PunctuatorToken(s[m - 1])] + TokensOf(s[m..j])
  {
    m := NextAt(s, i).next;
    TokensOfPunctuator(s, i, m - 1, j);
  }

  /** The case of ScanStopsAt where the first non-blank character is where the scan stops. */
  lemma ScanStopsHere(s: string, i: nat, j: nat)
    requires i <= j <= |s|
    requires forall k :: i <= k < j ==> Recognised(s[k])
    requires !Recognised(CharAt(s, j))
    requires NextAt(s, i).token.Failure? || NextAt(s, i).token.value.kind == EOF
    ensures Scan(s, i) ==
      if CharAt(s, j) == '\0' then ScanResult(TokensOf(s[i..j]) + [EofToken], None)
      else ScanResult(TokensOf(s[i..j]), Some(UnknownCharacter(CharAt(s, j))))
  {
    assert NextAt(s, i).next == j;
    TokensOfBlanks(s[..j], i, j);
    assert s[..j][i..] == s[i..j] && s[..j][j..] == [];
  }

  /** Blanks, then the punctuator at p: the tokens start with that punctuator's token. */
  lemma TokensOfPunctuator(s: string, i: nat, p: nat, j: nat)
    requires i <= p < j <= |s|
    requires forall k :: i <= k < p ==> IsWhiteSpace(s[k])
    requires forall k :: p <= k < j ==> Recognised(s[k])
    requires Punctuator(s[p]).Some?
    ensures forall k :: i <= k < j ==> Recognised(s[k])
    ensures TokensOf(s[i..j]) == [PunctuatorToken(s[p])] + TokensOf(s[p + 1..j])
  {
    TokensOfBlanks(s[..j], i, p);
    assert s[..j][i..] == s[i..j] && s[..j][p..] == s[p..j];
    assert s[p..j][1..] == s[p + 1..j];
    PunctuatorIsNotBlank(s[p]);
  }

  /** For a text of blanks and punctuators: one token per non-blank character, in order, then EOF. */
  lemma PunctuationOnly(s: string)
    requires forall k :: 0 <= k < |s| ==> Recognised(s[k])
    ensures Scan(s, 0).error.None?
    ensures |Scan(s, 0).tokens| == |NonBlank(s)| + 1
    ensures forall k :: 0 <= k < |NonBlank(s)| ==>
              Punctuator(NonBlank(s)[k]).Some? && Scan(s, 0).tokens[k] == PunctuatorToken(NonBlank(s)[k])
    ensures Scan(s, 0).tokens[|NonBlank(s)|] == EofToken
  {
    ScanStopsAt(s, 0, |s|);
    assert s[0..|s|] == s;
    TokensOfNonBlank(s);
  }

  /** Empty or all-blank input yields exactly the EOF token. */
  lemma BlankInput(s: string)
    requires forall k :: 0 <= k < |s| ==> IsWhiteSpace(s[k])
    ensures Scan(s, 0) == ScanResult([EofToken], None)
  {
    ScanStopsAt(s, 0, |s|);
    TokensOfBlanks(s, 0, |s|);
    assert s[0..|s|] == s && s[|s|..] == [];
  }

  /** The first position of a text that the scan does not pass over, or its length. */
  function FirstStop(cs: string): (j: nat)
    ensures j <= |cs| && (j < |cs| ==> !Recognised(cs[j]))
    ensures forall k :: 0 <= k < j ==> Recognised(cs[k])
  {
    if cs == [] || !Recognised(cs[0]) then 0 else 1 + FirstStop(cs[1..])
  }

  /** An embedded NUL ends the scan with EOF, as the end of the text does: what follows is never read. */
  lemma NulEndsScan(a: string, b: string)
    ensures Scan(a + ['\0'] + b, 0) == Scan(a, 0)
  {
    var s := a + ['\0'] + b;
    var j := FirstStop(a);
    assert forall k :: 0 <= k < j ==> s[k] == a[k];
    ScanStopsAt(s, 0, j);
    ScanStopsAt(a, 0, j);
    assert s[0..j] == a[0..j];
  }

  /** The scan aborts exactly when an unknown character comes before any NUL and the end. */
  lemma UnknownCharacterAborts(s: string, j: nat)
    requires j < |s|
    requires forall k :: 0 <= k < j ==> Recognised(s[k])
    requires !Recognised(s[j]) && s[j] != '\0'
    ensures Scan(s, 0).error == Some(UnknownCharacter(s[j]))
    ensures Scan(s, 0).tokens == TokensOf(s[..j])
  {
    ScanStopsAt(s, 0, j);
    assert s[0..j] == s[..j];
  }

  /** The example of the source's tests: "(()" gives LEFT_PAREN, LEFT_PAREN, RIGHT_PAREN, EOF. */
  lemma ParensExample()
    ensures Scan("(()", 0) == ScanResult(
      [ Token(LEFT_PAREN, "", Str("("), 0), Token(LEFT_PAREN, "", Str("("), 0),
        Token(RIGHT_PAREN, "", Str(")"), 0), EofToken ], None)
  {
    var s := "(()";
    ParensTokens();
    ScanStopsAt(s, 0, 3);
    assert s[0..3] == s;
  }

  lemma ParensTokens()
    ensures forall k :: 0 <= k < 3 ==> Recognised("(()"[k])
    ensures TokensOf("(()") == [PunctuatorToken('('), PunctuatorToken('('), PunctuatorToken(')')]
  {
    var s := "(()";
    PunctuatorIsNotBlank('(');
    PunctuatorIsNotBlank(')');
    assert TokensOf(s[2..]) == [PunctuatorToken(')')] by { assert s[2..][1..] == []; }
    assert TokensOf(s[1..]) == [PunctuatorToken('(')] + TokensOf(s[2..]) by { assert s[1..][1..] == s[2..]; }
  }

  /**
   * The lexer object: a cursor (CurrentPosition, NextPosition, CurrentChar) over Source.
   * Scanning runs when the token sequence is enumerated, from the position the constructor
   * leaves; ScanTokens is that enumeration, run to its end.
   */
  class Lexer {
    const source: string
    var currentPosition: int
    var nextPosition: int
    var currentChar: char
    var line: int

    /** The cursor invariant that every ReadChar re-establishes. */
    ghost predicate Valid()
      reads this
    {
      && 0 <= currentPosition <= |source|
      && nextPosition == currentPosition + 1
      && currentChar == CharAt(source, currentPosition)
    }

    constructor (s: string)
      ensures source == s && line == 1
      ensures Valid() && currentPosition == 0 && nextPosition == 1
      ensures currentChar == if s == [] then '\0' else s[0]
    {
      source := s;
      line := 1;
      currentPosition, nextPosition, currentChar := 0, 0, '\0';
      new;
      ReadChar();
      Reset();
      ReadChar();
    }

    method Reset()
      modifies this
      ensures currentPosition == 0 && nextPosition == 0 && currentChar == '\0'
      ensures line == old(line)
    {
      currentPosition := 0;
      nextPosition := 0;
      currentChar := '\0';
    }

    method ReadChar()
      requires 0 <= nextPosition
      modifies this
      ensures currentChar == CharAt(source, old(nextPosition))
      ensures currentPosition == old(nextPosition) && nextPosition == currentPosition + 1
      ensures line == old(line)
    {
      currentChar := if nextPosition >= |source| then '\0' else source[nextPosition];
      currentPosition := nextPosition;
      nextPosition := nextPosition + 1;
    }

    method SkipWhitespace()
      requires Valid()
      modifies this
      ensures Valid() && line == old(line)
      ensures currentPosition == SkipFrom(source, old(currentPosition))
    {
      while IsWhiteSpace(currentChar)
        invariant Valid() && line == old(line)
        invariant old(currentPosition) <= currentPosition
        invariant SkipFrom(source, currentPosition) == SkipFrom(source, old(currentPosition))
        decreases |source| - currentPosition
      {
        ReadChar();
      }
    }

    method NextToken() returns (r: Result<Token, LexError>)
      requires Valid()
      modifies this
      ensures Valid() && line == old(line)
      ensures Lexed(r, currentPosition) == NextAt(source, old(currentPosition))
    {
      SkipWhitespace();
      var c := currentChar;
      if c == '\0' {
        return Success(EofToken);
      }
      var kind := Punctuator(c);
      if kind.None? {
        return Failure(UnknownCharacter(c));
      }
      r := Success(Token(kind.value, "", Str([c]), 0));
      ReadChar();
    }

    /**
     * The enumeration of the token sequence: NextToken until EOF (yielded, then stop) or
     * until NextToken throws. The cursor is left on the first character that is neither a
     * blank nor a punctuator.
     */
    method ScanTokens() returns (r: ScanResult)
      requires Valid()
      modifies this
      ensures Valid() && line == old(line)
      ensures r == Scan(source, old(currentPosition))
      ensures old(currentPosition) <= currentPosition && !Recognised(currentChar)
      ensures forall k :: old(currentPosition) <= k < currentPosition ==> Recognised(source[k])
    {
      var produced: seq<Token> := [];
      while true
        invariant Valid() && line == old(line)
        invariant old(currentPosition) <= currentPosition
        invariant forall k :: old(currentPosition) <= k < currentPosition ==> Recognised(source[k])
        invariant Scan(source, old(currentPosition)) ==
          var rest := Scan(source, currentPosition); ScanResult(produced + rest.tokens, rest.error)
        decreases |source| - currentPosition
      {
        ghost var before := currentPosition;
        var token := NextToken();
        if token.Failure? {
          return ScanResult(produced, Some(token.error));
        }
        if token.value.kind == EOF {
          return ScanResult(produced + [token.value], None);
        }
        produced := produced + [token.value];
      }
    }
  }
}
