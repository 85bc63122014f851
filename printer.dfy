/**
 * The AST printer of src/lox/Parser/AstPrinter.cs: renders an expression in Lisp-like form,
 * `(op left right)`, `(op operand)`, `(group inner)`, with literals as their text. Variable,
 * Logical and Call nodes have no rendering: the source throws NotImplementedException there.
 */
module AstPrinting {
  import opened Wrappers
  import opened Values
  import opened Tokens
  import opened Ast

  /** The exception a node without a rendering throws. */
  datatype PrintError = NotImplemented

  /** The decimal digits of a natural number, most significant first, without leading zeros. */
  function Digits(n: nat): (s: string)
    ensures |s| > 0 && forall k :: 0 <= k < |s| ==> '0' <= s[k] <= '9'
    ensures |s| > 1 ==> s[0] != '0'
  {
    if n < 10 then [DigitChar(n)] else Digits(n / 10) + [DigitChar(n % 10)]
  }

  function DigitChar(d: nat): (c: char)
    requires d < 10
    ensures '0' <= c <= '9' && c as int - '0' as int == d
  {
    ('0' as int + d) as char
  }

  /** The number a string of decimal digits denotes: the inverse of Digits. */
  function DecimalValue(s: string): nat
    requires forall k :: 0 <= k < |s| ==> '0' <= s[k] <= '9'
  {
    if s == [] then 0 else DecimalValue(s[..|s| - 1]) * 10 + (s[|s| - 1] as int - '0' as int)
  }

  /** Digits loses nothing: reading the digits back gives the number. */
  lemma {:induction false} DigitsRoundTrip(n: nat)
    ensures DecimalValue(Digits(n)) == n
  {
    if n >= 10 {
      DigitsRoundTrip(n / 10);
      var s := Digits(n);
      assert s[..|s| - 1] == Digits(n / 10);
    }
  }

  /** Digits is injective: two numbers with the same digits are equal. */
  lemma DigitsInjective(m: nat, n: nat)
    requires Digits(m) == Digits(n)
    ensures m == n
  {
    DigitsRoundTrip(m);
    DigitsRoundTrip(n);
  }

  /** A number with no fractional part. */
  predicate Integral(x: real)
  {
    x.Floor as real == x
  }

  /** The "F1" format of an integral number: its integer digits, a sign if negative, and ".0". */
  function FixedOneDecimal(x: real): (s: string)
    requires Integral(x)
    ensures |s| >= 3 && s[|s| - 2..] == ".0"
    ensures x >= 0.0 ==> s == Digits(x.Floor) + ".0"
    ensures x < 0.0 ==> s == "-" + Digits(-x.Floor) + ".0"
  {
    var k := x.Floor;
    (if k < 0 then "-" + Digits(-k) else Digits(k)) + ".0"
  }

  /**
   * A literal's text. `general` is the "G" format the source uses for a number with a
   * fractional part; the .NET formatting routine is not part of this model.
   */
  function LiteralText(v: Value, general: real -> string): (s: string)
    ensures v == Nil ==> s == "nil"
    ensures v.Bool? ==> s == if v.b then "true" else "false"
    ensures v.Str? ==> s == v.s
    ensures v.Num? && Integral(v.n) ==> s == FixedOneDecimal(v.n)
    ensures v.Num? && !Integral(v.n) ==> s == general(v.n)
  {
    match v
    case Num(x) => if Integral(x) then FixedOneDecimal(x) else general(x)
    case Bool(b) => if b then "true" else "false"
    case Nil => "nil"
    case Str(text) => text
  }

  /** Parenthesize: `(`, the name, a space before each rendered child, `)`. */
  function Parenthesize(name: string, children: seq<string>): (s: string)
    ensures |s| >= 2 + |name| && s[0] == '(' && s[|s| - 1] == ')' && s[1..1 + |name|] == name
    ensures |children| == 0 ==> s == "(" + name + ")"
    ensures |children| == 1 ==> s == "(" + name + " " + children[0] + ")"
    ensures |children| == 2 ==> s == "(" + name + " " + children[0] + " " + children[1] + ")"
  {
    SpacedFew(children);
    "(" + name + Spaced(children) + ")"
  }

  lemma SpacedFew(children: seq<string>)
    ensures |children| == 0 ==> Spaced(children) == ""
    ensures |children| == 1 ==> Spaced(children) == " " + children[0]
    ensures |children| == 2 ==> Spaced(children) == " " + children[0] + " " + children[1]
  {
    if |children| == 2 {
      assert children[1..][1..] == [];
    } else if |children| == 1 {
      assert children[1..] == [];
    }
  }

  /** Every child preceded by one space. */
  function Spaced(children: seq<string>): string
  {
    if children == [] then "" else " " + children[0] + Spaced(children[1..])
  }

  /** The nodes the printer can render. */
  predicate Printable(e: Expr)
  {
    match e
    case Literal(_, _) => true
    case Grouping(_, inner) => Printable(inner)
    case Unary(_, _, right) => Printable(right)
    case Binary(_, left, _, right) => Printable(left) && Printable(right)
    case Assign(_, _, value) => Printable(value)
    case Variable(_, _) => false
    case Logical(_, _, _, _) => false
    case Call(_, _, _, _) => false
  }

  /** Print: the rendering of an expression. */
  function Print(e: Expr, general: real -> string): (r: Result<string, PrintError>)
    ensures r.Success? <==> Printable(e)
  {
    match e
    case Literal(_, v) => Success(LiteralText(v, general))
    case Grouping(_, inner) =>
      var s :- Print(inner, general);
      Success(Parenthesize("group", [s]))
    case Unary(_, op, right) =>
      var s :- Print(right, general);
      Success(Parenthesize(op.lexeme, [s]))
    case Binary(_, left, op, right) =>
      var l :- Print(left, general);
      var r :- Print(right, general);
      Success(Parenthesize(op.lexeme, [l, r]))
    case Assign(_, name, value) =>
      var s :- Print(value, general);
      Success(" = " + name.lexeme + " " + s)
    case Variable(_, _) => Failure(NotImplemented)
    case Logical(_, _, _, _) => Failure(NotImplemented)
    case Call(_, _, _, _) => Failure(NotImplemented)
  }

  /** The shapes of the printed forms named by the printer's visitors. */
  lemma PrintedForms(e: Expr, general: real -> string)
    requires Printable(e)
    ensures e.Binary? ==> Print(e, general) == Success(
      "(" + e.op.lexeme + " " + Print(e.left, general).value + " " + Print(e.right, general).value + ")")
    ensures e.Unary? ==> Print(e, general) == Success("(" + e.op.lexeme + " " + Print(e.right, general).value + ")")
    ensures e.Grouping? ==> Print(e, general) == Success("(group " + Print(e.expression, general).value + ")")
    ensures e.Assign? ==> Print(e, general) == Success(" = " + e.name.lexeme + " " + Print(e.value, general).value)
    ensures e.Literal? ==> Print(e, general) == Success(LiteralText(e.val, general))
  {
    assert "(" + "group" + " " == "(group ";
  }

  /** `81` prints with one decimal digit, as `81.0`; `-3` as `-3.0`. */
  lemma IntegralExamples()
    ensures FixedOneDecimal(81.0) == "81.0"
    ensures FixedOneDecimal(-3.0) == "-3.0"
  {
    assert Digits(81) == Digits(8) + [DigitChar(1)];
  }

  // Balanced parentheses: the printer's own parentheses always pair up.

  /** Opening minus closing parentheses of a string. */
  function Net(s: string): int
  {
    if s == [] then 0
    else Net(s[..|s| - 1]) + (if s[|s| - 1] == '(' then 1 else if s[|s| - 1] == ')' then -1 else 0)
  }

  /** Every prefix has at least as many `(` as `)`, and the whole string as many of each. */
  predicate Balanced(s: string)
  {
    Net(s) == 0 && forall k :: 0 <= k <= |s| ==> Net(s[..k]) >= 0
  }

  predicate ParenFree(s: string)
  {
    forall k :: 0 <= k < |s| ==> s[k] != '(' && s[k] != ')'
  }

  lemma {:induction false} NetConcat(a: string, b: string)
    ensures Net(a + b) == Net(a) + Net(b)
    decreases |b|
  {
    if b == [] {
      assert a + b == a;
    } else {
      var b' := b[..|b| - 1];
      assert (a + b)[..|a + b| - 1] == a + b';
      assert (a + b)[|a + b| - 1] == b[|b| - 1];
      NetConcat(a, b');
    }
  }

  lemma {:induction false} ParenFreeNet(s: string)
    requires ParenFree(s)
    ensures Net(s) == 0
    decreases |s|
  {
    if s != [] {
      assert ParenFree(s[..|s| - 1]);
      ParenFreeNet(s[..|s| - 1]);
    }
  }

  lemma ParenFreeBalanced(s: string)
    requires ParenFree(s)
    ensures Balanced(s)
  {
    ParenFreeNet(s);
    forall k | 0 <= k <= |s|
      ensures Net(s[..k]) >= 0
    {
      assert ParenFree(s[..k]);
      ParenFreeNet(s[..k]);
    }
  }

  lemma BalancedConcat(a: string, b: string)
    requires Balanced(a) && Balanced(b)
    ensures Balanced(a + b)
  {
    NetConcat(a, b);
    forall k | 0 <= k <= |a + b|
      ensures Net((a + b)[..k]) >= 0
    {
      if k <= |a| {
        assert (a + b)[..k] == a[..k];
      } else {
        assert (a + b)[..k] == a + b[..k - |a|];
        NetConcat(a, b[..k - |a|]);
      }
    }
  }

  /** A prefix's excess of `(` over `)` when the string itself is preceded by `(`. */
  lemma BalancedWrap(s: string)
    requires Balanced(s)
    ensures Balanced("(" + s + ")")
  {
    var w := "(" + s + ")";
    NetConcat("(", s);
    NetConcat("(" + s, ")");
    assert Net("(") == 1 by { assert "("[..0] == []; }
    assert Net(")") == -1 by { assert ")"[..0] == []; }
    forall k | 0 <= k <= |w|
      ensures Net(w[..k]) >= 0
    {
      if k == 0 {
        assert w[..k] == [];
      } else if k <= |s| + 1 {
        assert w[..k] == "(" + s[..k - 1];
        NetConcat("(", s[..k - 1]);
      } else {
        assert w[..k] == w;
      }
    }
  }

  /** All text the printer copies from the tree: literal strings, operator and name lexemes. */
  predicate TextParenFree(e: Expr, general: real -> string)
  {
    match e
    case Literal(_, v) => ParenFree(LiteralText(v, general))
    case Grouping(_, inner) => TextParenFree(inner, general)
    case Unary(_, op, right) => ParenFree(op.lexeme) && TextParenFree(right, general)
    case Binary(_, left, op, right) =>
      ParenFree(op.lexeme) && TextParenFree(left, general) && TextParenFree(right, general)
    case Assign(_, name, value) => ParenFree(name.lexeme) && TextParenFree(value, general)
    case Variable(_, _) => true
    case Logical(_, _, _, _) => true
    case Call(_, _, _, _) => true
  }

  /**
   * The printed form is balanced: every `(` the printer writes is closed by its `)`, provided
   * the literal text and lexemes it copies contain no parentheses themselves.
   */
  lemma {:induction false} PrintBalanced(e: Expr, general: real -> string)
    requires TextParenFree(e, general) && Print(e, general).Success?
    ensures Balanced(Print(e, general).value)
  {
    match e
    case Literal(_, v) => ParenFreeBalanced(LiteralText(v, general));
    case Grouping(_, inner) =>
      PrintBalanced(inner, general);
      WrapChildren("group", [Print(inner, general).value]);
    case Unary(_, op, right) =>
      PrintBalanced(right, general);
      WrapChildren(op.lexeme, [Print(right, general).value]);
    case Binary(_, left, op, right) =>
      PrintBalanced(left, general);
      PrintBalanced(right, general);
      WrapChildren(op.lexeme, [Print(left, general).value, Print(right, general).value]);
    case Assign(_, name, value) =>
      PrintBalanced(value, general);
      var s := Print(value, general).value;
      ParenFreeBalanced(" = " + name.lexeme + " ");
      BalancedConcat(" = " + name.lexeme + " ", s);
  }

  /** Parenthesize of balanced children under a parenthesis-free name is balanced. */
  lemma WrapChildren(name: string, children: seq<string>)
    requires ParenFree(name) && forall k :: 0 <= k < |children| ==> Balanced(children[k])
    ensures Balanced(Parenthesize(name, children))
  {
    SpacedBalanced(children);
    ParenFreeBalanced(name);
    BalancedConcat(name, Spaced(children));
    BalancedWrap(name + Spaced(children));
    assert Parenthesize(name, children) == "(" + (name + Spaced(children)) + ")";
  }

  lemma {:induction false} SpacedBalanced(children: seq<string>)
    requires forall k :: 0 <= k < |children| ==> Balanced(children[k])
    ensures Balanced(Spaced(children))
    decreases |children|
  {
    if children == [] {
      assert Spaced(children) == [];
    } else {
      SpacedBalanced(children[1..]);
      ParenFreeBalanced(" ");
      BalancedConcat(" ", children[0]);
      BalancedConcat(" " + children[0], Spaced(children[1..]));
    }
  }
}
