/**
 * The recursive-descent expression parser of src/lox/Parser/Parser.cs. The grammar is a ladder
 * of precedence levels, loosest first:
 *   equality (level 4), comparison (3), term (2), factor (1), unary (0), primary.
 * Every binary level parses one operand of the next level and then, while the current token
 * is one of its operators, one more operand, folding to the left.
 *
 * The pure functions below say what each parsing method computes from a cursor position; the
 * class `Parser` holds the cursor and is proved to compute exactly that. Each node created
 * gets as id the index of the token that created it: the literal, the operator, or the `(`.
 */
module Parsing {
  import opened Wrappers
  import opened Values
  import opened Tokens
  import opened Ast

  /** A token list the parser can walk: it is never empty and it ends with EOF. */
  predicate WellFormed(toks: seq<Token>)
  {
    |toks| > 0 && toks[|toks| - 1].kind == EOF
  }

  /** The error a failed parse throws: the token it failed at and the message. */
  datatype ParseError = ParseError(token: Token, message: string)

  /** One line reported to the user: the line, the location text, the message. */
  datatype Report = Report(line: int, where: string, message: string)

  const ExpectExpression: string := "Expect expression."
  const ExpectRightParen: string := "Expect ')' after expression."

  /** The location text of a report: " at end" for EOF, otherwise the offending lexeme. */
  function Where(t: Token): (w: string)
    ensures t.kind == EOF ==> w == " at end"
    ensures t.kind != EOF ==> w == " at '" + t.lexeme + "'"
  {
    if t.kind == EOF then " at end" else " at '" + t.lexeme + "'"
  }

  /** What reporting an error prints. */
  function ReportOf(e: ParseError): (r: Report)
    ensures r.line == e.token.line && r.message == e.message && r.where == Where(e.token)
  {
    Report(e.token.line, Where(e.token), e.message)
  }

  /** The operators of binary level n: 4 equality, 3 comparison, 2 term, 1 factor. */
  function Operators(n: nat): set<TokenType>
  {
    if n == 4 then {BANG_EQUAL, EQUAL_EQUAL}
    else if n == 3 then {GREATER, GREATER_EQUAL, LESS, LESS_EQUAL}
    else if n == 2 then {MINUS, PLUS}
    else if n == 1 then {SLASH, STAR}
    else {}
  }

  /** Match/Check at a position: the token is of one of the kinds, and the cursor is not at EOF. */
  predicate Matches(toks: seq<Token>, pos: nat, kinds: set<TokenType>)
    requires pos < |toks|
  {
    toks[pos].kind != EOF && toks[pos].kind in kinds
  }

  /** The outcome of parsing from a cursor position: the tree and the new cursor, or the error thrown. */
  datatype Step = Parsed(expr: Expr, next: nat) | Failed(error: ParseError)

  /**
   * What a parse from pos guarantees: a success consumed at least one token and leaves the
   * cursor on the list, so never past EOF; a failure carries one of the parser's two messages.
   */
  predicate Sound(toks: seq<Token>, pos: nat, r: Step)
  {
    && (r.Parsed? ==> pos < r.next < |toks|)
    && (r.Failed? ==> r.error.message in {ExpectExpression, ExpectRightParen})
  }

  /**
   * Level n from pos: for n in 1..4 the binary level of that precedence, for n == 0 unary.
   * Expression is level 4.
   */
  function Level(toks: seq<Token>, n: nat, pos: nat): (r: Step)
    requires WellFormed(toks) && pos < |toks| && n <= 4
    ensures Sound(toks, pos, r)
    decreases |toks| - pos, n + 2
  {
    if n == 0 then
      if Matches(toks, pos, {BANG, MINUS}) then
        match Level(toks, 0, pos + 1)
        case Parsed(right, q) => Parsed(Unary(pos, toks[pos], right), q)
        case Failed(e) => Failed(e)
      else PrimaryAt(toks, pos)
    else
      match Level(toks, n - 1, pos)
      case Parsed(left, p) => Tail(toks, n, left, p)
      case Failed(e) => Failed(e)
  }

  /**
   * The loop of binary level n, with `left` parsed so far and the cursor at pos: while the
   * token is an operator of the level, parse the right operand and fold.
   */
  function Tail(toks: seq<Token>, n: nat, left: Expr, pos: nat): (r: Step)
    requires WellFormed(toks) && pos < |toks| && 1 <= n <= 4
    ensures r.Parsed? ==> pos <= r.next < |toks|
    ensures r.Failed? ==> r.error.message in {ExpectExpression, ExpectRightParen}
    decreases |toks| - pos, n + 1
  {
    if Matches(toks, pos, Operators(n)) then
      match Level(toks, n - 1, pos + 1)
      case Parsed(right, q) => Tail(toks, n, Binary(pos, left, toks[pos], right), q)
      case Failed(e) => Failed(e)
    else Parsed(left, pos)
  }

  /** The primary rule: a literal, a parenthesised expression, or the "Expect expression." error. */
  function PrimaryAt(toks: seq<Token>, pos: nat): (r: Step)
    requires WellFormed(toks) && pos < |toks|
    ensures Sound(toks, pos, r)
    decreases |toks| - pos, 1
  {
    if Matches(toks, pos, {FALSE}) then Parsed(Literal(pos, Bool(false)), pos + 1)
    else if Matches(toks, pos, {TRUE}) then Parsed(Literal(pos, Bool(true)), pos + 1)
    else if Matches(toks, pos, {NIL}) then Parsed(Literal(pos, Nil), pos + 1)
    else if Matches(toks, pos, {NUMBER, STRING}) then Parsed(Literal(pos, toks[pos].literal), pos + 1)
    else if Matches(toks, pos, {LEFT_PAREN}) then
      match Level(toks, 4, pos + 1)
      case Parsed(inner, p) =>
        if Matches(toks, p, {RIGHT_PAREN}) then Parsed(Grouping(pos, inner), p + 1)
        else Failed(ParseError(toks[p], ExpectRightParen))
      case Failed(e) => Failed(e)
    else Failed(ParseError(toks[pos], ExpectExpression))
  }

  /** Parse: one expression from the start of the list; a parse error gives no tree. */
  function ParseTokens(toks: seq<Token>): (r: Option<Expr>)
    requires WellFormed(toks)
    ensures r.Some? <==> Level(toks, 4, 0).Parsed?
    ensures r.Some? ==> r.value == Level(toks, 4, 0).expr
  {
    match Level(toks, 4, 0)
    case Parsed(e, _) => Some(e)
    case Failed(_) => None
  }

  /** Every id of e lies in [lo, hi). */
  predicate IdsWithin(e: Expr, lo: int, hi: int)
  {
    forall id :: id in Ids(e) ==> lo <= id < hi
  }

  /**
   * Node identity: a parsed tree has distinct ids, each the index of one of the tokens it
   * consumed, so trees parsed from disjoint stretches of the list never share an id.
   */
  lemma {:induction false} LevelIds(toks: seq<Token>, n: nat, pos: nat)
    requires WellFormed(toks) && pos < |toks| && n <= 4
    ensures var r := Level(toks, n, pos);
      r.Parsed? ==> UniqueIds(r.expr) && IdsWithin(r.expr, pos, r.next)
    decreases |toks| - pos, n + 2
  {
    if n == 0 {
      if Matches(toks, pos, {BANG, MINUS}) {
        LevelIds(toks, 0, pos + 1);
      } else {
        PrimaryIds(toks, pos);
      }
    } else {
      LevelIds(toks, n - 1, pos);
      var r := Level(toks, n - 1, pos);
      if r.Parsed? {
        TailIds(toks, n, r.expr, r.next);
      }
    }
  }

  lemma {:induction false} TailIds(toks: seq<Token>, n: nat, left: Expr, pos: nat)
    requires WellFormed(toks) && pos < |toks| && 1 <= n <= 4
    ensures var r := Tail(toks, n, left, pos);
      UniqueIds(left) && IdsWithin(left, 0, pos) && r.Parsed? ==>
        UniqueIds(r.expr) && forall id :: id in Ids(r.expr) ==> id in Ids(left) || pos <= id < r.next
    decreases |toks| - pos, n + 1
  {
    if Matches(toks, pos, Operators(n)) {
      LevelIds(toks, n - 1, pos + 1);
      var r := Level(toks, n - 1, pos + 1);
      if r.Parsed? && UniqueIds(left) && IdsWithin(left, 0, pos) {
        var e := Binary(pos, left, toks[pos], r.expr);
        FoldIds(left, pos, toks[pos], r.expr, r.next);
        TailIds(toks, n, e, r.next);
      }
    }
  }

  /** Folding an operand into the tree keeps the ids distinct: the operator's index lies between. */
  lemma FoldIds(left: Expr, pos: nat, op: Token, right: Expr, q: nat)
    requires UniqueIds(left) && IdsWithin(left, 0, pos)
    requires UniqueIds(right) && IdsWithin(right, pos + 1, q)
    ensures UniqueIds(Binary(pos, left, op, right)) && IdsWithin(Binary(pos, left, op, right), 0, q)
    ensures Ids(Binary(pos, left, op, right)) == {pos} + Ids(left) + Ids(right)
  {
  }

  lemma {:induction false} PrimaryIds(toks: seq<Token>, pos: nat)
    requires WellFormed(toks) && pos < |toks|
    ensures var r := PrimaryAt(toks, pos);
      r.Parsed? ==> UniqueIds(r.expr) && IdsWithin(r.expr, pos, r.next)
    decreases |toks| - pos, 1
  {
    if !Matches(toks, pos, {FALSE, TRUE, NIL, NUMBER, STRING}) && Matches(toks, pos, {LEFT_PAREN}) {
      LevelIds(toks, 4, pos + 1);
    }
  }

  /** The reports a parse from pos prints: one for the error it throws, none on success. */
  function ReportsOf(r: Step): seq<Report>
  {
    if r.Failed? then [ReportOf(r.error)] else []
  }

  /** A binary level over an operand not followed by one of its operators is that operand. */
  lemma LevelPassesThrough(toks: seq<Token>, n: nat, pos: nat)
    requires WellFormed(toks) && pos < |toks| && 1 <= n <= 4
    requires Level(toks, n - 1, pos).Parsed?
    requires !Matches(toks, Level(toks, n - 1, pos).next, Operators(n))
    ensures Level(toks, n, pos) == Level(toks, n - 1, pos)
  {
  }

  /**
   * Precedence: a level's operator takes as operands whole trees of the next tighter level,
   * so `a op b` builds one Binary node over them.
   */
  lemma LevelFoldsOnce(toks: seq<Token>, n: nat, pos: nat)
    requires WellFormed(toks) && pos < |toks| && 1 <= n <= 4
    requires Level(toks, n - 1, pos).Parsed?
    requires var p := Level(toks, n - 1, pos).next;
      Matches(toks, p, Operators(n)) && Level(toks, n - 1, p + 1).Parsed?
      && !Matches(toks, Level(toks, n - 1, p + 1).next, Operators(n))
    ensures var a := Level(toks, n - 1, pos);
      var b := Level(toks, n - 1, a.next + 1);
      Level(toks, n, pos) == Parsed(Binary(a.next, a.expr, toks[a.next], b.expr), b.next)
  {
    var a := Level(toks, n - 1, pos);
    var b := Level(toks, n - 1, a.next + 1);
    TailFolds(toks, n, a.expr, a.next);
    TailStops(toks, n, Binary(a.next, a.expr, toks[a.next], b.expr), b.next);
  }

  /** Left associativity: `a op b op' c` at one level groups as `(a op b) op' c`. */
  lemma LeftAssociative(toks: seq<Token>, n: nat, pos: nat)
    requires WellFormed(toks) && pos < |toks| && 1 <= n <= 4
    requires Level(toks, n - 1, pos).Parsed?
    requires var p := Level(toks, n - 1, pos).next;
      Matches(toks, p, Operators(n)) && Level(toks, n - 1, p + 1).Parsed?
      && var q := Level(toks, n - 1, p + 1).next;
      Matches(toks, q, Operators(n)) && Level(toks, n - 1, q + 1).Parsed?
      && !Matches(toks, Level(toks, n - 1, q + 1).next, Operators(n))
    ensures var a := Level(toks, n - 1, pos);
      var b := Level(toks, n - 1, a.next + 1);
      var c := Level(toks, n - 1, b.next + 1);
      Level(toks, n, pos)
        == Parsed(Binary(b.next, Binary(a.next, a.expr, toks[a.next], b.expr), toks[b.next], c.expr), c.next)
  {
    var a := Level(toks, n - 1, pos);
    var b := Level(toks, n - 1, a.next + 1);
    var c := Level(toks, n - 1, b.next + 1);
    var ab := Binary(a.next, a.expr, toks[a.next], b.expr);
    TailFolds(toks, n, a.expr, a.next);
    TailFolds(toks, n, ab, b.next);
    TailStops(toks, n, Binary(b.next, ab, toks[b.next], c.expr), c.next);
  }

  /** `!` and `-` nest to the right: the operand of a unary operator is again a unary expression. */
  lemma UnaryNests(toks: seq<Token>, pos: nat)
    requires WellFormed(toks) && pos < |toks| && toks[pos].kind in {BANG, MINUS}
    ensures var r := Level(toks, 0, pos + 1);
      Level(toks, 0, pos) == if r.Parsed? then Parsed(Unary(pos, toks[pos], r.expr), r.next) else r
  {
  }

  /** true, false and nil become their values; a number or a string carries the token's literal. */
  lemma LiteralTokens(toks: seq<Token>, pos: nat)
    requires WellFormed(toks) && pos < |toks|
    ensures toks[pos].kind == FALSE ==> Level(toks, 0, pos) == Parsed(Literal(pos, Bool(false)), pos + 1)
    ensures toks[pos].kind == TRUE ==> Level(toks, 0, pos) == Parsed(Literal(pos, Bool(true)), pos + 1)
    ensures toks[pos].kind == NIL ==> Level(toks, 0, pos) == Parsed(Literal(pos, Nil), pos + 1)
    ensures toks[pos].kind in {NUMBER, STRING} ==>
      Level(toks, 0, pos) == Parsed(Literal(pos, toks[pos].literal), pos + 1)
  {
  }

  /**
   * A `(` must close: after the inner expression comes `)` and the tree is a Grouping, or the
   * parse fails at that token with "Expect ')' after expression.".
   */
  lemma GroupingNeedsParen(toks: seq<Token>, pos: nat)
    requires WellFormed(toks) && pos < |toks| && toks[pos].kind == LEFT_PAREN
    requires Level(toks, 4, pos + 1).Parsed?
    ensures var inner := Level(toks, 4, pos + 1);
      && (toks[inner.next].kind == RIGHT_PAREN ==>
            Level(toks, 0, pos) == Parsed(Grouping(pos, inner.expr), inner.next + 1))
      && (toks[inner.next].kind != RIGHT_PAREN ==>
            Level(toks, 0, pos) == Failed(ParseError(toks[inner.next], ExpectRightParen)))
  {
  }

  /** The tokens that can start an expression. */
  const ExpressionStarts: set<TokenType> := {BANG, MINUS, FALSE, TRUE, NIL, NUMBER, STRING, LEFT_PAREN}

  /** At a token that starts no expression, every level fails there with "Expect expression.". */
  lemma {:induction false} NoExpression(toks: seq<Token>, n: nat, pos: nat)
    requires WellFormed(toks) && pos < |toks| && n <= 4
    requires toks[pos].kind !in ExpressionStarts
    ensures Level(toks, n, pos) == Failed(ParseError(toks[pos], ExpectExpression))
    decreases n
  {
    if n > 0 {
      NoExpression(toks, n - 1, pos);
    }
  }

  /** Parsing an empty token list fails, and the report's location reads " at end". */
  lemma EmptyInputReportsAtEnd(eof: Token)
    requires eof.kind == EOF
    ensures ParseTokens([eof]) == None
    ensures ReportsOf(Level([eof], 4, 0)) == [Report(eof.line, " at end", ExpectExpression)]
  {
    NoExpression([eof], 4, 0);
  }

  /** A stray `)` fails with the lexeme quoted in the report's location. */
  lemma StrayParenReportsLexeme(paren: Token, eof: Token)
    requires paren.kind == RIGHT_PAREN && eof.kind == EOF
    ensures ReportsOf(Level([paren, eof], 4, 0))
      == [Report(paren.line, " at '" + paren.lexeme + "'", ExpectExpression)]
  {
    NoExpression([paren, eof], 4, 0);
  }

  function NumToken(lexeme: string, n: real): Token
  {
    Token(NUMBER, lexeme, Value.Num(n), 1)
  }

  function Op(kind: TokenType, lexeme: string): Token
  {
    Token(kind, lexeme, Nil, 1)
  }

  const Eof: Token := Token(EOF, "", Nil, 1)

  /** Every level from pos, for a literal followed by a token that is no binary operator. */
  lemma {:induction false} AtomAtEveryLevel(toks: seq<Token>, n: nat, pos: nat)
    requires WellFormed(toks) && pos + 1 < |toks| && n <= 4
    requires toks[pos].kind in {NUMBER, STRING}
    requires forall k :: 1 <= k <= 4 ==> !Matches(toks, pos + 1, Operators(k))
    ensures Level(toks, n, pos) == Parsed(Literal(pos, toks[pos].literal), pos + 1)
    decreases n
  {
    if n == 0 {
      LiteralTokens(toks, pos);
    } else {
      AtomAtEveryLevel(toks, n - 1, pos);
      LevelPassesThrough(toks, n, pos);
    }
  }

  /** `1 + 2 * 3` parses as `1 + (2 * 3)`: factor binds tighter than term. */
  lemma PrecedenceExample()
    ensures var toks := [NumToken("1", 1.0), Op(PLUS, "+"), NumToken("2", 2.0), Op(STAR, "*"), NumToken("3", 3.0), Eof];
      ParseTokens(toks) == Some(Binary(1, Literal(0, Value.Num(1.0)), toks[1],
                                       Binary(3, Literal(2, Value.Num(2.0)), toks[3], Literal(4, Value.Num(3.0)))))
  {
    var toks := [NumToken("1", 1.0), Op(PLUS, "+"), NumToken("2", 2.0), Op(STAR, "*"), NumToken("3", 3.0), Eof];
    assert WellFormed(toks);
    LiteralTokens(toks, 0);
    LiteralTokens(toks, 2);
    LiteralTokens(toks, 4);
    LevelPassesThrough(toks, 1, 0);
    LevelPassesThrough(toks, 1, 4);
    LevelFoldsOnce(toks, 1, 2);
    LevelFoldsOnce(toks, 2, 0);
    LevelPassesThrough(toks, 3, 0);
    LevelPassesThrough(toks, 4, 0);
  }

  /** `!!true` nests: the outer `!` applies to `!true`. */
  lemma DoubleNegationExample()
    ensures var toks := [Op(BANG, "!"), Op(BANG, "!"), Op(TRUE, "true"), Eof];
      Level(toks, 0, 0) == Parsed(Unary(0, toks[0], Unary(1, toks[1], Literal(2, Bool(true)))), 3)
  {
    var toks := [Op(BANG, "!"), Op(BANG, "!"), Op(TRUE, "true"), Eof];
    assert WellFormed(toks);
    LiteralTokens(toks, 2);
    UnaryNests(toks, 1);
    UnaryNests(toks, 0);
  }

  /** Parse stops after one expression: in `"bar" "baz"` the second string is ignored. */
  lemma TrailingTokensIgnored()
    ensures var toks := [Token(STRING, "\"bar\"", Str("bar"), 1), Token(STRING, "\"baz\"", Str("baz"), 1), Eof];
      ParseTokens(toks) == Some(Literal(0, Str("bar")))
  {
    var toks := [Token(STRING, "\"bar\"", Str("bar"), 1), Token(STRING, "\"baz\"", Str("baz"), 1), Eof];
    assert WellFormed(toks);
    AtomAtEveryLevel(toks, 4, 0);
  }

  /** The step a parsing method's result and final cursor describe. */
  function Outcome(r: Result<Expr, ParseError>, cursor: nat): Step
  {
    match r
    case Success(e) => Parsed(e, cursor)
    case Failure(err) => Failed(err)
  }

  /** The kinds before which Synchronize stops: the keywords that start a statement. */
  const StatementStarts: set<TokenType> := {CLASS, FUN, VAR, FOR, IF, WHILE, PRINT, RETURN}

  /** A point where Synchronize stops: EOF, just after a `;`, or before a statement keyword. */
  predicate SyncPoint(toks: seq<Token>, q: nat)
    requires 0 < q < |toks|
  {
    toks[q].kind == EOF || toks[q - 1].kind == SEMICOLON || toks[q].kind in StatementStarts
  }

  /** A binary level's loop stops at a token that is not one of its operators. */
  lemma TailStops(toks: seq<Token>, n: nat, left: Expr, pos: nat)
    requires WellFormed(toks) && pos < |toks| && 1 <= n <= 4
    requires !Matches(toks, pos, Operators(n))
    ensures Tail(toks, n, left, pos) == Parsed(left, pos)
  {
  }

  /** One turn of a binary level's loop: fold the operator and the next operand into the tree. */
  lemma TailFolds(toks: seq<Token>, n: nat, left: Expr, pos: nat)
    requires WellFormed(toks) && pos < |toks| && 1 <= n <= 4
    requires Matches(toks, pos, Operators(n))
    ensures var r := Level(toks, n - 1, pos + 1);
      && (r.Failed? ==> Tail(toks, n, left, pos) == Failed(r.error))
      && (r.Parsed? ==> Tail(toks, n, left, pos) == Tail(toks, n, Binary(pos, left, toks[pos], r.expr), r.next))
  {
  }

  class Parser {
    const tokens: seq<Token>
    var current: nat
    /** The lines reported through Lox.Report, oldest first. */
    var reports: seq<Report>

    ghost predicate Valid()
      reads this
    {
      WellFormed(tokens) && current < |tokens|
    }

    constructor (toks: seq<Token>)
      requires WellFormed(toks)
      ensures Valid() && tokens == toks && current == 0 && reports == []
    {
      tokens, current, reports := toks, 0, [];
    }

    function Previous(): Token
      reads this
      requires 0 < current <= |tokens|
    {
      tokens[current - 1]
    }

    function Peek(): Token
      reads this
      requires Valid()
    {
      tokens[current]
    }

    function IsAtEnd(): bool
      reads this
      requires Valid()
    {
      Peek().kind == EOF
    }

    /** Check is false at EOF whatever kind is asked for, so it never lets the cursor pass EOF. */
    function Check(kind: TokenType): (b: bool)
      reads this
      requires Valid()
      ensures b <==> tokens[current].kind != EOF && tokens[current].kind == kind
    {
      if IsAtEnd() then false else Peek().kind == kind
    }

    /** Advance moves one token on unless the cursor is on EOF, and returns the token before the cursor. */
    method Advance() returns (t: Token)
      requires Valid() && (tokens[current].kind != EOF || 0 < current)
      modifies this
      ensures Valid() && reports == old(reports)
      ensures current == if tokens[old(current)].kind == EOF then old(current) else old(current) + 1
      ensures 0 < current && t == tokens[current - 1]
    {
      if !IsAtEnd() {
        current := current + 1;
      }
      t := Previous();
    }

    method Match(kinds: set<TokenType>) returns (b: bool)
      requires Valid()
      modifies this
      ensures Valid() && reports == old(reports)
      ensures b == Matches(tokens, old(current), kinds)
      ensures current == if b then old(current) + 1 else old(current)
    {
      if !(exists k | k in kinds :: Check(k)) {
        return false;
      }
      var _ := Advance();
      return true;
    }

    /** Error reports the token's location and the message, and gives the error to throw. */
    method Error(token: Token, message: string) returns (e: ParseError)
      modifies this
      ensures e == ParseError(token, message)
      ensures reports == old(reports) + [ReportOf(e)] && current == old(current)
    {
      e := ParseError(token, message);
      reports := reports + [Report(token.line, if token.kind == EOF then " at end" else " at '" + token.lexeme + "'", message)];
    }

    method Consume(kind: TokenType, message: string) returns (err: Option<ParseError>)
      requires Valid()
      modifies this
      ensures Valid()
      ensures Matches(tokens, old(current), {kind}) ==>
        err.None? && current == old(current) + 1 && reports == old(reports)
      ensures !Matches(tokens, old(current), {kind}) ==>
        && err == Some(ParseError(tokens[old(current)], message))
        && current == old(current) && reports == old(reports) + [ReportOf(err.value)]
    {
      if Check(kind) {
        var _ := Advance();
        err := None;
      } else {
        var e := Error(Peek(), message);
        err := Some(e);
      }
    }

    method Expression() returns (r: Result<Expr, ParseError>)
      requires Valid()
      modifies this
      ensures Valid() && Outcome(r, current) == Level(tokens, 4, old(current))
      ensures reports == old(reports) + ReportsOf(Level(tokens, 4, old(current)))
      decreases |tokens| - current, 7
    {
      r := Equality();
    }

    method Equality() returns (r: Result<Expr, ParseError>)
      requires Valid()
      modifies this
      ensures Valid() && Outcome(r, current) == Level(tokens, 4, old(current))
      ensures reports == old(reports) + ReportsOf(Level(tokens, 4, old(current)))
      decreases |tokens| - current, 6
    {
      r := Comparison();
      if r.Failure? {
        return;
      }
      var expr := r.value;
      while true
        invariant Valid() && reports == old(reports)
        invariant Level(tokens, 4, old(current)) == Tail(tokens, 4, expr, current)
        decreases |tokens| - current
      {
        assert Operators(4) == {BANG_EQUAL, EQUAL_EQUAL};
        var more := Match({BANG_EQUAL, EQUAL_EQUAL});
        if !more {
          TailStops(tokens, 4, expr, current);
          break;
        }
        var op, at := Previous(), current - 1;
        TailFolds(tokens, 4, expr, at);
        var right := Comparison();
        if right.Failure? {
          return right;
        }
        expr := Binary(at, expr, op, right.value);
      }
      return Success(expr);
    }

    method Comparison() returns (r: Result<Expr, ParseError>)
      requires Valid()
      modifies this
      ensures Valid() && Outcome(r, current) == Level(tokens, 3, old(current))
      ensures reports == old(reports) + ReportsOf(Level(tokens, 3, old(current)))
      decreases |tokens| - current, 5
    {
      r := Term();
      if r.Failure? {
        return;
      }
      var expr := r.value;
      while true
        invariant Valid() && reports == old(reports)
        invariant Level(tokens, 3, old(current)) == Tail(tokens, 3, expr, current)
        decreases |tokens| - current
      {
        assert Operators(3) == {GREATER, GREATER_EQUAL, LESS, LESS_EQUAL};
        var more := Match({GREATER, GREATER_EQUAL, LESS, LESS_EQUAL});
        if !more {
          TailStops(tokens, 3, expr, current);
          break;
        }
        var op, at := Previous(), current - 1;
        TailFolds(tokens, 3, expr, at);
        var right := Term();
        if right.Failure? {
          return right;
        }
        expr := Binary(at, expr, op, right.value);
      }
      return Success(expr);
    }

    method Term() returns (r: Result<Expr, ParseError>)
      requires Valid()
      modifies this
      ensures Valid() && Outcome(r, current) == Level(tokens, 2, old(current))
      ensures reports == old(reports) + ReportsOf(Level(tokens, 2, old(current)))
      decreases |tokens| - current, 4
    {
      r := Factor();
      if r.Failure? {
        return;
      }
      var expr := r.value;
      while true
        invariant Valid() && reports == old(reports)
        invariant Level(tokens, 2, old(current)) == Tail(tokens, 2, expr, current)
        decreases |tokens| - current
      {
        assert Operators(2) == {MINUS, PLUS};
        var more := Match({MINUS, PLUS});
        if !more {
          TailStops(tokens, 2, expr, current);
          break;
        }
        var op, at := Previous(), current - 1;
        TailFolds(tokens, 2, expr, at);
        var right := Factor();
        if right.Failure? {
          return right;
        }
        expr := Binary(at, expr, op, right.value);
      }
      return Success(expr);
    }

    method Factor() returns (r: Result<Expr, ParseError>)
      requires Valid()
      modifies this
      ensures Valid() && Outcome(r, current) == Level(tokens, 1, old(current))
      ensures reports == old(reports) + ReportsOf(Level(tokens, 1, old(current)))
      decreases |tokens| - current, 3
    {
      r := Unary();
      if r.Failure? {
        return;
      }
      var expr := r.value;
      while true
        invariant Valid() && reports == old(reports)
        invariant Level(tokens, 1, old(current)) == Tail(tokens, 1, expr, current)
        decreases |tokens| - current
      {
        assert Operators(1) == {SLASH, STAR};
        var more := Match({SLASH, STAR});
        if !more {
          TailStops(tokens, 1, expr, current);
          break;
        }
        var op, at := Previous(), current - 1;
        TailFolds(tokens, 1, expr, at);
        var right := Unary();
        if right.Failure? {
          return right;
        }
        expr := Binary(at, expr, op, right.value);
      }
      return Success(expr);
    }

    method Unary() returns (r: Result<Expr, ParseError>)
      requires Valid()
      modifies this
      ensures Valid() && Outcome(r, current) == Level(tokens, 0, old(current))
      ensures reports == old(reports) + ReportsOf(Level(tokens, 0, old(current)))
      decreases |tokens| - current, 2
    {
      var negated := Match({BANG, MINUS});
      if !negated {
        r := Primary();
        return;
      }
      var op, at := Previous(), current - 1;
      var right := Unary();
      if right.Failure? {
        return right;
      }
      return Success(Expr.Unary(at, op, right.value));
    }

    method Primary() returns (r: Result<Expr, ParseError>)
      requires Valid()
      modifies this
      ensures Valid() && Outcome(r, current) == PrimaryAt(tokens, old(current))
      ensures reports == old(reports) + ReportsOf(PrimaryAt(tokens, old(current)))
      decreases |tokens| - current, 1
    {
      var m := Match({FALSE});
      if m {
        return Success(Literal(current - 1, Bool(false)));
      }
      m := Match({TRUE});
      if m {
        return Success(Literal(current - 1, Bool(true)));
      }
      m := Match({NIL});
      if m {
        return Success(Literal(current - 1, Nil));
      }
      m := Match({NUMBER, STRING});
      if m {
        return Success(Literal(current - 1, Previous().literal));
      }
      m := Match({LEFT_PAREN});
      if m {
        r := FinishGrouping(current - 1);
        return;
      }
      var e := Error(Peek(), ExpectExpression);
      return Failure(e);
    }

    /** The rest of a grouping whose '(' is at index `at`: an expression, then the ')'. */
    method FinishGrouping(at: nat) returns (r: Result<Expr, ParseError>)
      requires Valid() && current == at + 1 && Matches(tokens, at, {LEFT_PAREN})
      modifies this
      ensures Valid() && Outcome(r, current) == PrimaryAt(tokens, at)
      ensures reports == old(reports) + ReportsOf(PrimaryAt(tokens, at))
      decreases |tokens| - current, 8
    {
      var inner := Expression();
      if inner.Failure? {
        return inner;
      }
      var err := Consume(RIGHT_PAREN, ExpectRightParen);
      if err.Some? {
        return Failure(err.value);
      }
      return Success(Grouping(at, inner.value));
    }

    /** Parse: one expression; a parse error is caught and gives no tree. */
    method Parse() returns (r: Option<Expr>)
      requires Valid()
      modifies this
      ensures Valid()
      ensures r.Some? <==> Level(tokens, 4, old(current)).Parsed?
      ensures r.Some? ==> r.value == Level(tokens, 4, old(current)).expr
      ensures old(current) == 0 ==> r == ParseTokens(tokens)
      ensures reports == old(reports) + ReportsOf(Level(tokens, 4, old(current)))
    {
      var e := Expression();
      if e.Failure? {
        return None;
      }
      return Some(e.value);
    }

    /**
     * Panic-mode recovery: advance once, then on to the first point after a `;`, before a
     * statement keyword, or at EOF.
     */
    method Synchronize()
      requires Valid() && (tokens[current].kind != EOF || 0 < current)
      modifies this
      ensures Valid() && reports == old(reports)
      ensures var first := if tokens[old(current)].kind == EOF then old(current) else old(current) + 1;
        && first <= current && SyncPoint(tokens, current)
        && forall q :: first <= q < current ==> !SyncPoint(tokens, q)
    {
      var _ := Advance();
      ghost var first := current;
      while !IsAtEnd()
        invariant Valid() && reports == old(reports) && 0 < first <= current
        invariant first == if tokens[old(current)].kind == EOF then old(current) else old(current) + 1
        invariant forall q :: first <= q < current ==> !SyncPoint(tokens, q)
        decreases |tokens| - current
      {
        if Previous().kind == SEMICOLON {
          return;
        }
        if Peek().kind in {CLASS, FUN, VAR, FOR, IF, WHILE, PRINT, RETURN} {
          return;
        }
        var _ := Advance();
      }
    }
  }
}
