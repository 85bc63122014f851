# A verified model of a C# Lox interpreter

This project models the core of a tree-walking interpreter for Lox, written in C#. The
repository holds several snapshots of the interpreter, and they do not fully agree with each
other. Each core file is modelled as written:

- two character-cursor lexers, which turn a string into punctuator tokens ending in EOF;
- the recursive-descent expression parser, which climbs the precedence ladder
  equality < comparison < term < factor < unary < primary;
- the AST printer, which renders an expression as `(op left right)`;
- the static resolver, which keeps a stack of `name -> ready?` scopes and records how far out
  each variable reference binds;
- the flat environment and the chained environment;
- the expression evaluator and the `var` / `print` / expression statements;
- the user-function object, with its call, arity and printed form.

Each file that changes state step by step becomes a Dafny `class` with the source's fields,
and its methods are proved equal to pure specification functions. Those functions are in
turn proved to have the properties the interpreter promises. The laws of the operators are
plain functions.

An AST node carries a natural-number id. The parser gives every node the index of the token
that created it: the literal, the operator, or the `(`. The resolver's binding table maps
these ids to scope distances.

Files:
- `wrappers.dfy`: Option and Result.
- `values.dfy`: runtime values `Nil | Bool | Num | Str`, with numbers as `real`.
- `tokens.dfy`: token kinds and tokens.
- `ast.dfy`: expressions and statements, with node ids.
- `runtime_error.dfy`: RuntimeError.
- `chars.dfy`: whitespace and the lexer cursor.
- `scopes.dfy`: innermost-first dictionary stacks.
- `scanner.dfy`: `src/lox/Lexer/Lexer.cs`.
- `paren_lexer.dfy`: `src/lox/src/Lexer.cs`.
- `parser.dfy`: `src/lox/Parser/Parser.cs`.
- `printer.dfy`: `src/lox/Parser/AstPrinter.cs`.
- `resolver.dfy`: `src/lox/Interpreter/Resolver.cs`.
- `environment.dfy`: `src/lox/Interpreter/Environment.cs`.
- `lox_environment.dfy`: `src/lox/Interpreter/LoxEnvironment.cs`.
- `interpreter.dfy`: `src/lox/Interpreter/Interpreter.cs`.
- `lox_function.dfy`: `src/lox/Interpreter/LoxFunction.cs`.

The Resolver source belongs to a different snapshot from the Interpreter source (its namespace
is `CSharpLox`, not `LoxInterpreter`). The resolver visits `break`, `continue`, blocks,
functions, `if` and `while`. The interpreter snapshot implements none of these. Each model
follows its own file.

## Model

| member | source | states |
|---|---|---|
| Chars.SkipFrom | src/lox/Lexer/Lexer.cs:37-43 | where a SkipWhitespace loop started at position i stops: every character it passes is white space, the one it stops on is not, NUL at the end included |
| Scopes.Nearest | src/lox/Interpreter/Resolver.cs:198-210 | the index of the innermost dictionary binding a name: that dictionary binds it, no inner one does, and None only when no dictionary does |
| Scanner.PunctuatorIsNotBlank | src/lox/Lexer/Lexer.cs:52-81 | none of the ten punctuator characters is white space or NUL, so SkipWhitespace never eats one and none is mistaken for EOF |
| Scanner.NextAt | src/lox/Lexer/Lexer.cs:45-91 | one NextToken from position i: it passes only blanks and one punctuator, yielding that punctuator's token; otherwise it stops on the first other character, giving EOF with an empty literal for NUL or "Unknown character" for anything else |
| Scanner.ScanEndsWithEof | src/lox/Lexer/Lexer.cs:93-106 | a completed scan ends with exactly one EOF token, whose literal is empty, and nothing follows it; an aborted scan yields no EOF |
| Scanner.TokensOfNonBlank | src/lox/Lexer/Lexer.cs:52-81 | over blanks and punctuators there is one token per non-blank character, of that character's kind and with that character as literal, in source order |
| Scanner.ScanStopsAt | src/lox/Lexer/Lexer.cs:93-106 | from an unbroken run of blanks and punctuators up to a stopping character, the scan yields the run's tokens in order, then EOF at a NUL or the error at any other character |
| Scanner.PunctuationOnly | src/lox/Lexer/Lexer.cs:45-106 | for a text of blanks and punctuators: no error, token count = non-blank count + 1, the tokens in source order, then EOF |
| Scanner.BlankInput | src/lox/Lexer/Lexer.cs:37-43 | empty or all-white-space input yields exactly the EOF token |
| Scanner.NulEndsScan | src/lox/Lexer/Lexer.cs:31 | for any text before it, an embedded NUL ends the scan as the end of the text does; what follows it is never read |
| Scanner.UnknownCharacterAborts | src/lox/Lexer/Lexer.cs:84-85 | the first character that is neither blank, punctuator nor NUL aborts the scan with "Unknown character", after the tokens before it |
| Scanner.ParensExample | src/lox/Lexer/Lexer.cs:93-106 | "(()" gives LEFT_PAREN, LEFT_PAREN, RIGHT_PAREN, EOF |
| Scanner.Lexer.constructor | src/lox/Lexer/Lexer.cs:12-20 | after construction the cursor is on the first character (NUL for empty input), at position 0, with the read position one ahead |
| Scanner.Lexer.Reset | src/lox/Lexer/Lexer.cs:22-27 | both positions are 0 and the current character is NUL |
| Scanner.Lexer.ReadChar | src/lox/Lexer/Lexer.cs:29-35 | the current character is the one at the old read position, or NUL past the end; the current position is the old read position, and the read position is one ahead of it |
| Scanner.Lexer.SkipWhitespace | src/lox/Lexer/Lexer.cs:37-43 | the cursor ends where SkipFrom says, and the cursor invariant holds |
| Scanner.Lexer.NextToken | src/lox/Lexer/Lexer.cs:45-91 | the token or error and the new cursor position are those of NextAt from the old position |
| Scanner.Lexer.ScanTokens | src/lox/Lexer/Lexer.cs:93-106 | the tokens and the error are those of Scan from the old position; the cursor stops on the first character that is neither blank nor punctuator, after passing only such characters |
| ParenLexer.NextAt | src/lox/src/Lexer.cs:34-57 | NextToken skips blanks; `(` gives LEFT_PAREN and `)` gives RIGHT_PAREN, with the character as literal, consuming exactly that character; NUL gives EOF with an empty literal and moves one on; anything else throws "Unknown character" and leaves the cursor there |
| ParenLexer.EofRepeats | src/lox/src/Lexer.cs:19 | once the cursor is at or past the end, every call returns EOF |
| ParenLexer.BlankTailGivesEof | src/lox/src/Lexer.cs:26-49 | with only blanks left, the next call and every later call return EOF |
| ParenLexer.ParenToken | src/lox/src/Lexer.cs:41-46 | `(` gives LEFT_PAREN and `)` gives RIGHT_PAREN, each with the character as literal |
| ParenLexer.ParenTokens | src/lox/src/Lexer.cs:41-46 | the successful results for a sequence of parentheses: one per parenthesis, in order |
| ParenLexer.ParenthesesInOrder | src/lox/src/Lexer.cs:34-57 | for parentheses and blanks, repeated calls give one token per parenthesis in order, then EOF |
| ParenLexer.Lexer.constructor | src/lox/src/Lexer.cs:10-14 | the position is 0 and the current character is the first input character, or NUL for empty input |
| ParenLexer.Lexer.ReadChar | src/lox/src/Lexer.cs:17-23 | the current character is the input at the old read position, or NUL past the end; the position is one behind the read position |
| ParenLexer.Lexer.SkipWhitespace | src/lox/src/Lexer.cs:26-32 | the position ends where SkipFrom says, and the cursor invariant holds |
| ParenLexer.Lexer.NextToken | src/lox/src/Lexer.cs:34-57 | the result and the new position are those of NextAt from the old position |
| Parsing.Level | src/lox/Parser/Parser.cs:56-128 | each precedence level, from a position: on success it consumed at least one token and the cursor stays on the list, never past EOF; a failure carries one of the parser's two messages |
| Parsing.Tail | src/lox/Parser/Parser.cs:63-68 | a binary level's loop only moves the cursor forward on the list, and fails only with the parser's messages |
| Parsing.PrimaryAt | src/lox/Parser/Parser.cs:131-151 | the primary rule: it consumes at least one token, stays within the list, and fails only with "Expect expression." or "Expect ')' after expression." |
| Parsing.ParseTokens | src/lox/Parser/Parser.cs:19-29 | Parse gives a tree exactly when the expression level succeeds from the start, and it is that tree; a parse error gives no tree |
| Parsing.LevelIds | src/lox/Parser/Parser.cs:59-151 | the ids of a parsed tree are distinct, and each is the index of a token that the parse consumed |
| Parsing.LevelPassesThrough | src/lox/Parser/Parser.cs:59-118 | a binary level whose first operand is not followed by one of its operators is just that operand |
| Parsing.LevelFoldsOnce | src/lox/Parser/Parser.cs:59-118 | precedence: `a op b` at a level builds one Binary node whose operands are whole trees of the next tighter level |
| Parsing.LeftAssociative | src/lox/Parser/Parser.cs:63-68 | `a op b op' c` at one level groups as `(a op b) op' c` |
| Parsing.UnaryNests | src/lox/Parser/Parser.cs:121-128 | the operand of `!` or `-` is again a unary expression, so unary operators nest to the right |
| Parsing.LiteralTokens | src/lox/Parser/Parser.cs:133-140 | false, true and nil become those literal values; NUMBER and STRING become a literal holding the token's literal value |
| Parsing.GroupingNeedsParen | src/lox/Parser/Parser.cs:143-148 | after `(` and an expression, a `)` gives a Grouping over it; anything else fails there with "Expect ')' after expression." |
| Parsing.NoExpression | src/lox/Parser/Parser.cs:150 | at a token that starts no expression, every level fails at that token with "Expect expression." |
| Parsing.EmptyInputReportsAtEnd | src/lox/Parser/Parser.cs:19-29 | a list holding only EOF parses to no tree, and the one report reads " at end" |
| Parsing.StrayParenReportsLexeme | src/lox/Parser/Parser.cs:159-163 | a stray `)` is reported with its lexeme quoted in the location |
| Parsing.AtomAtEveryLevel | src/lox/Parser/Parser.cs:59-140 | a literal followed by no binary operator parses at every level to that literal, consuming one token |
| Parsing.PrecedenceExample | src/lox/Parser/Parser.cs:90-118 | `1 + 2 * 3` parses as `1 + (2 * 3)` |
| Parsing.DoubleNegationExample | src/lox/Parser/Parser.cs:121-128 | `!!true` parses as `!(!true)` |
| Parsing.TrailingTokensIgnored | src/lox/Parser/Parser.cs:19-24 | in `"bar" "baz"` the parse stops after the first string and yields its literal |
| Parsing.Parser.constructor | src/lox/Parser/Parser.cs:15-17 | the parser starts at cursor 0 with no reports |
| Parsing.Parser.Check | src/lox/Parser/Parser.cs:43-47 | true exactly when the current token is of the kind asked for and is not EOF |
| Parsing.Parser.Advance | src/lox/Parser/Parser.cs:49-53 | the cursor moves one on unless it is on EOF, and the token just before the cursor is returned |
| Parsing.Parser.Match | src/lox/Parser/Parser.cs:35-41 | true exactly when the current token, not EOF, is of one of the kinds; only then does the cursor move one on |
| Parsing.Parser.Error | src/lox/Parser/Parser.cs:159-163 | one report is appended for the token and message, and the error to throw is returned |
| Parsing.Parser.Consume | src/lox/Parser/Parser.cs:153-157 | on the expected kind the cursor moves one on with no report; otherwise it fails at the current token with the message and reports it |
| Parsing.Parser.Expression | src/lox/Parser/Parser.cs:56 | the tree, the final cursor and the reports are those of Level 4 from the old cursor |
| Parsing.Parser.Equality | src/lox/Parser/Parser.cs:59-71 | the tree, the cursor and the reports are those of Level 4 |
| Parsing.Parser.Comparison | src/lox/Parser/Parser.cs:75-87 | the tree, the cursor and the reports are those of Level 3 |
| Parsing.Parser.Term | src/lox/Parser/Parser.cs:90-102 | the tree, the cursor and the reports are those of Level 2 |
| Parsing.Parser.Factor | src/lox/Parser/Parser.cs:106-118 | the tree, the cursor and the reports are those of Level 1 |
| Parsing.Parser.Unary | src/lox/Parser/Parser.cs:121-128 | the tree, the cursor and the reports are those of Level 0 |
| Parsing.Parser.Primary | src/lox/Parser/Parser.cs:131-151 | the tree, the cursor and the reports are those of PrimaryAt |
| Parsing.Parser.FinishGrouping | src/lox/Parser/Parser.cs:143-148 | after a matched `(` at index at, the result, the cursor and the reports are those of PrimaryAt(at) |
| Parsing.Parser.Parse | src/lox/Parser/Parser.cs:19-29 | a tree exactly when the expression parses, and that tree; from cursor 0 it is ParseTokens; the parse error is reported once |
| Parsing.Parser.Synchronize | src/lox/Parser/Parser.cs:165-176 | advances at least once (unless on EOF), then stops at the first point at EOF, just after a `;` or before a statement keyword; no report is made |
| AstPrinting.Digits | src/lox/Parser/AstPrinter.cs:70 | the decimal digits of a natural number: non-empty, all digits, no leading zero |
| AstPrinting.DigitsRoundTrip | src/lox/Parser/AstPrinter.cs:70 | reading the digits back gives the number |
| AstPrinting.DigitsInjective | src/lox/Parser/AstPrinter.cs:70 | two numbers with the same digits are equal |
| AstPrinting.FixedOneDecimal | src/lox/Parser/AstPrinter.cs:70 | an integral number prints as its digits, with a sign when negative, followed by exactly ".0" |
| AstPrinting.IntegralExamples | src/lox/Parser/AstPrinter.cs:70 | 81 prints as "81.0" and -3 as "-3.0" |
| AstPrinting.LiteralText | src/lox/Parser/AstPrinter.cs:66-77 | nil, true and false print as those words, strings verbatim, integral numbers in "F1" form, and others through the given "G" formatter |
| AstPrinting.Parenthesize | src/lox/Parser/AstPrinter.cs:35-47 | `(`, the name, one space before each child, `)`; written out for zero, one and two children |
| AstPrinting.Print | src/lox/Parser/AstPrinter.cs:7-98 | printing succeeds exactly on trees built from the nodes the printer renders |
| AstPrinting.PrintedForms | src/lox/Parser/AstPrinter.cs:26-83 | Binary prints as `(op left right)`, Unary as `(op operand)`, Grouping as `(group inner)`, Assign as `" = " + name + " " + value`, and a literal as its text |
| AstPrinting.PrintBalanced | src/lox/Parser/AstPrinter.cs:35-47 | the printed form's parentheses are balanced, given that the copied lexemes and literal texts contain none |
| Resolving.Declared | src/lox/Interpreter/Resolver.cs:218-226 | Declare throws "Variable '<lexeme>' already declared in this scope." exactly when the innermost scope holds the name; otherwise it changes only the scopes and keeps the stack depth |
| Resolving.Defined | src/lox/Interpreter/Resolver.cs:228-233 | Define changes only the scopes and keeps the stack depth |
| Resolving.DeclareMarksPending | src/lox/Interpreter/Resolver.cs:218-226 | declaring a new name binds it, not ready, in the innermost scope only, where it is now found first |
| Resolving.DefineMarksReady | src/lox/Interpreter/Resolver.cs:228-233 | Define marks the name ready in the innermost scope and changes no outer scope |
| Resolving.GlobalsUntracked | src/lox/Interpreter/Resolver.cs:220-230 | on an empty stack Declare and Define do nothing, and two global `var`s of one name resolve with no change |
| Resolving.Located | src/lox/Interpreter/Resolver.cs:198-210 | ResolveLocal records, for the node, the index of the innermost scope binding the name; with no such scope nothing changes; other nodes' entries are kept |
| Resolving.ExprResolved | src/lox/Interpreter/Resolver.cs:25-99 | resolving an expression changes no scope and not the current function type, and only appends reports |
| Resolving.ExprsResolved | src/lox/Interpreter/Resolver.cs:39-45 | the same for a list of arguments resolved in order |
| Resolving.ExprLocalsWithin | src/lox/Interpreter/Resolver.cs:25-99 | an expression records distances only for its own nodes, each naming an existing scope, and keeps every other entry |
| Resolving.ExprsLocalsWithin | src/lox/Interpreter/Resolver.cs:39-45 | the same for a list of expressions |
| Resolving.StmtResolved | src/lox/Interpreter/Resolver.cs:101-178 | a statement that resolves normally leaves the stack at the same depth, changes no scope below the innermost, and keeps the current function type |
| Resolving.StmtsResolved | src/lox/Interpreter/Resolver.cs:212 | the same for statements in order; the first thrown error ends the walk |
| Resolving.FunctionDeclared | src/lox/Interpreter/Resolver.cs:120-127 | a function statement keeps the stack depth, the outer scopes and the current function type |
| Resolving.FunctionResolved | src/lox/Interpreter/Resolver.cs:180-196 | after ResolveFunction the stack is exactly as before and the enclosing function type is restored |
| Resolving.LocalRedeclarationRejected | src/lox/Interpreter/Resolver.cs:101-107 | declaring one name twice in a block throws "already declared" for the second declaration |
| Resolving.SelfInitializationReported | src/lox/Interpreter/Resolver.cs:89-99 | a local whose initializer reads itself is reported with "Can't read local variable in its own initializer.", its distance 0 is recorded, and the variable ends as ready |
| Resolving.TopLevelReturnRejected | src/lox/Interpreter/Resolver.cs:145-161 | `return` outside every function throws "Cannot return from top-level code."; break and continue are accepted with no change |
| Resolving.ReturnInsideFunctionAccepted | src/lox/Interpreter/Resolver.cs:120-157 | a top-level function whose body is a bare return resolves and leaves the state as it was |
| Resolving.Names | src/lox/Interpreter/Resolver.cs:186-190 | the set of parameter lexemes: each parameter's lexeme is in it and nothing else is |
| Resolving.ParamsBound | src/lox/Interpreter/Resolver.cs:185-190 | distinct parameters, none already in the innermost scope, are each bound and ready there, and nothing else changes |
| Resolving.BoundNameRejected | src/lox/Interpreter/Resolver.cs:186-190 | a parameter whose name the innermost scope already holds makes parameter binding throw |
| Resolving.DuplicateParamsRejected | src/lox/Interpreter/Resolver.cs:186-190 | two parameters with the same name make parameter binding throw |
| Resolving.FunctionNameBoundFirst | src/lox/Interpreter/Resolver.cs:120-127 | a function statement in a block binds its name, ready, in the enclosing scope before the body is resolved as FUNCTION |
| Resolving.Resolver.constructor | src/lox/Interpreter/Resolver.cs:22-23 | an empty stack, function type NONE, an empty binding table and no reports |
| Resolving.Resolver.BeginScope | src/lox/Interpreter/Resolver.cs:215 | pushes one empty scope |
| Resolving.Resolver.EndScope | src/lox/Interpreter/Resolver.cs:216 | pops the innermost scope |
| Resolving.Resolver.Declare | src/lox/Interpreter/Resolver.cs:218-226 | the state after it, or the error thrown, is Declared of the old state |
| Resolving.Resolver.Define | src/lox/Interpreter/Resolver.cs:228-233 | the new state is Defined of the old state |
| Resolving.Resolver.ResolveLocal | src/lox/Interpreter/Resolver.cs:198-210 | the index loop leaves the state Located of the old one |
| Resolving.Resolver.ResolveExpr | src/lox/Interpreter/Resolver.cs:25-99 | the new state is ExprResolved of the old state |
| Resolving.Resolver.ResolveExprs | src/lox/Interpreter/Resolver.cs:39-45 | the new state is ExprsResolved of the old state |
| Resolving.Resolver.ResolveStmt | src/lox/Interpreter/Resolver.cs:101-178 | the new state, or the error thrown, is StmtResolved of the old state |
| Resolving.Resolver.ResolveStmts | src/lox/Interpreter/Resolver.cs:212 | the new state, or the first error thrown, is StmtsResolved of the old state |
| Resolving.Resolver.ResolveFunction | src/lox/Interpreter/Resolver.cs:180-196 | the new state, or the error thrown, is FunctionResolved of the old state |
| FlatEnvironment.Assigned | src/lox/Interpreter/Environment.cs:27-36 | Assign succeeds exactly for a bound name; it keeps the set of names, stores the value, and leaves every other binding; otherwise it fails with "Undefined variable" |
| FlatEnvironment.GetAfterDefine | src/lox/Interpreter/Environment.cs:7-22 | Get after Define returns the defined value |
| FlatEnvironment.DefineOverwrites | src/lox/Interpreter/Environment.cs:7-10 | a second Define of a name replaces the first |
| FlatEnvironment.GetAfterAssign | src/lox/Interpreter/Environment.cs:12-36 | Get after a successful Assign reads the assigned value; after a failed one Get still fails and no binding was made |
| FlatEnvironment.AssignIsDefineOfBound | src/lox/Interpreter/Environment.cs:35 | on a bound name, Assign is Define |
| FlatEnvironment.Environment.constructor | src/lox/Interpreter/Environment.cs:5 | the dictionary starts empty |
| FlatEnvironment.Environment.Define | src/lox/Interpreter/Environment.cs:7-10 | the dictionary becomes the old one with the name bound to the value |
| FlatEnvironment.Environment.Get | src/lox/Interpreter/Environment.cs:12-25 | the result is Lookup of the dictionary |
| FlatEnvironment.Environment.Assign | src/lox/Interpreter/Environment.cs:27-36 | succeeds exactly when Assigned does and then holds its dictionary; on failure the error is Assigned's and the dictionary is unchanged |
| ChainedEnvironment.GetFindsNearest | src/lox/Interpreter/LoxEnvironment.cs:25-35 | Get finds the value in the nearest dictionary on the chain that binds the name, so inner bindings shadow outer ones; with none it fails with "Undefined variable" |
| ChainedEnvironment.AssignUpdatesNearest | src/lox/Interpreter/LoxEnvironment.cs:43-55 | Assign replaces the value in exactly the nearest dictionary binding the name and leaves every other dictionary, outer ones of the same name included; with none it fails |
| ChainedEnvironment.GetAfterAssign | src/lox/Interpreter/LoxEnvironment.cs:18-56 | Get after a successful Assign of a name reads the assigned value |
| ChainedEnvironment.LoxEnvironment.Footprint | src/lox/Interpreter/LoxEnvironment.cs:5 | the chain's objects: it contains this environment, and the link never leads back to it, so the chain is finite and acyclic |
| ChainedEnvironment.LoxEnvironment.Scopes | src/lox/Interpreter/LoxEnvironment.cs:5-6 | the chain's dictionaries, innermost first: one per environment, starting with this one's own |
| ChainedEnvironment.LoxEnvironment.constructor | src/lox/Interpreter/LoxEnvironment.cs:8-11 | the link is fixed to the given enclosing environment; the new chain is an empty dictionary in front of the enclosing chain |
| ChainedEnvironment.LoxEnvironment.Define | src/lox/Interpreter/LoxEnvironment.cs:13-16 | only the local dictionary changes; every enclosing dictionary is as it was |
| ChainedEnvironment.LoxEnvironment.Get | src/lox/Interpreter/LoxEnvironment.cs:18-36 | the result is ChainGet over the chain's dictionaries |
| ChainedEnvironment.LoxEnvironment.Assign | src/lox/Interpreter/LoxEnvironment.cs:38-56 | succeeds exactly when ChainAssign does and the chain becomes its result; on failure the error is ChainAssign's and no dictionary changes |
| Interpreting.IsTruthy | src/lox/Interpreter/Interpreter.cs:230-238 | only nil and false are falsy |
| Interpreting.IsEqual | src/lox/Interpreter/Interpreter.cs:221-228 | true exactly when the values have the same type and value; nil equals only nil |
| Interpreting.ApplyBinary | src/lox/Interpreter/Interpreter.cs:52-88 | `+` succeeds exactly on two numbers or two strings and gives their sum or concatenation, else "Operands must be two numbers or two strings."; `- / * > >= < <=` fail with "Operands must be numbers." exactly when an operand is not a number, and on two numbers give the difference, quotient (non-zero divisor), product, or the comparison's boolean; `==`/`!=` never fail and compare by value |
| Interpreting.ApplyUnary | src/lox/Interpreter/Interpreter.cs:95-109 | `-` succeeds exactly on a number and negates it, else "Operand must be a number."; `!` negates truthiness |
| Interpreting.Eval | src/lox/Interpreter/Interpreter.cs:35-122 | evaluation never changes which names are bound, assignment included |
| Interpreting.Exec | src/lox/Interpreter/Interpreter.cs:155-198 | a statement appends at most one printed value and never removes one; only a successful `var` binds a name, its own; `print e` succeeds exactly when e evaluates and then appends e's value; `var x = e` succeeds exactly when e evaluates and binds x to its value (nil without an initializer), printing nothing |
| Interpreting.RunStopsAtFault | src/lox/Interpreter/Interpreter.cs:15-28 | once a program stops at an error, statements after it never run |
| Interpreting.RunInSequence | src/lox/Interpreter/Interpreter.cs:19-22 | a program that finishes hands its state on to what follows: statements run in order |
| Interpreting.RunOnlyAppends | src/lox/Interpreter/Interpreter.cs:171-176 | what was printed before a run is a prefix of what is printed after |
| Interpreting.OperandsBeforeTypes | src/lox/Interpreter/Interpreter.cs:49-50 | the right operand is evaluated after the left and before any type check: its error wins over the operator's |
| Interpreting.VarWithoutInitializerBindsNil | src/lox/Interpreter/Interpreter.cs:183-198 | `var x;` binds nil and silently replaces an earlier global of that name |
| Interpreting.AssignmentYieldsValue | src/lox/Interpreter/Interpreter.cs:35-45 | an assignment evaluates to the assigned value and replaces that one binding; to an unbound name it throws "Undefined variable" and binds nothing |
| Interpreting.EqualityLaws | src/lox/Interpreter/Interpreter.cs:82-85 | `!=` is the negation of `==`, and `==` is reflexive and symmetric |
| Interpreting.Interpreter.constructor | src/lox/Interpreter/Interpreter.cs:8 | a fresh empty global environment and no output |
| Interpreting.Interpreter.Evaluate | src/lox/Interpreter/Interpreter.cs:10-13 | the value or fault and the environment after it are those of Eval on the old dictionary |
| Interpreting.Interpreter.Execute | src/lox/Interpreter/Interpreter.cs:30-33 | the outcome and the new environment and output are those of Exec on the old state |
| Interpreting.Interpreter.Interpret | src/lox/Interpreter/Interpreter.cs:15-28 | the ending and the final state are those of Run on the old state |
| Functions.BindingsPairUp | src/lox/Interpreter/LoxFunction.cs:10-14 | with distinct names, parameter k is bound to argument k, only parameters are bound, and there are as many bindings as parameters |
| Functions.Describe | src/lox/Interpreter/LoxFunction.cs:30 | the printed form is `<fn NAME>`, and the name can be read back from it |
| Functions.DescribeInjective | src/lox/Interpreter/LoxFunction.cs:30 | two functions print alike exactly when their names are the same text |
| Functions.LoxFunction.Declaration | src/lox/Interpreter/LoxFunction.cs:5 | a function's name, parameters and body are those of its declaration |
| Functions.LoxFunction.constructor | src/lox/Interpreter/LoxFunction.cs:5 | the function captures the declaration and the closure it is given |
| Functions.LoxFunction.Arity | src/lox/Interpreter/LoxFunction.cs:28 | the parameter count; with distinct names, the number of bindings a call makes |
| Functions.LoxFunction.ToString | src/lox/Interpreter/LoxFunction.cs:30 | the printed form is Describe of the name |
| Functions.LoxFunction.Call | src/lox/Interpreter/LoxFunction.cs:7-26 | a fresh environment enclosed by the closure binds parameter k to argument k; the body's normal end gives nil, a return its value, a RuntimeError propagates; Call itself changes no existing object |

## Left out

- The lexer in `src/lox/Lexer/Lexer.cs` produces its tokens lazily, as a C# iterator. The
  constructor's scan is only a deferred enumeration, and enumerating the sequence again starts
  from wherever the cursor is. The model's `ScanTokens` runs the enumeration once, eagerly,
  from the cursor it is given. `Line` is never changed by the source, and the model keeps it
  unchanged.
- A C# string is a sequence of UTF-16 code units, while a Dafny string is a sequence of
  Unicode scalar values. For a character outside the Basic Multilingual Plane, both lexers in
  the source throw "Unknown character" on its lone high surrogate. The model throws
  `UnknownCharacter` with the whole character, and the positions after it differ by one per
  such character.
- The `TokenType` enumeration is not part of this model's sources. `tokens.dfy` declares the
  kinds the core names, plus the Lox keywords.
- Lexemes and literals are never null in the model. Every `Lexeme is null` branch in the
  environments, the printer and the interpreter (for example `Interpreter.cs:38-41`) is
  therefore unreachable and left out.
- Numbers are exact `real`s, not IEEE doubles, so NaN, infinities and negative zero are not
  modelled. Dividing by zero in `Interpreter.cs:57-59` would give an infinity or NaN. The model
  stops there with a `ZeroDivisor` fault, which the source does not have.
- AstPrinting.LiteralText: the .NET "G" format for a number with a fractional part is a
  parameter, not a model. Printing an integral number takes `Floor` of the exact value.
- `Lox.Stringify` is not part of this model's sources. A `print` statement appends the value
  itself to the output sequence, and nothing is written to the console.
- Reporting goes through `Lox.Report`, `Lox.Error` and `Lox.RuntimeError`, whose I/O is not
  modelled. The parser and the resolver collect their reports in a `reports` sequence.
  `Interpret` ends with `Reported(error)` where the source hands the error to
  `Lox.RuntimeError`. `Lox.cs`, `Program.cs` and `main.cs` (the command line, file reading and
  the REPL) are not part of this model.
- Several visitors throw `NotImplementedException`:
  - in the interpreter, Logical, Call, Block, Class, Function, If, Return and While;
  - in the printer, Variable, Logical and Call.
  The model gives each of them a `NotImplemented` fault or a failed print. `Interpret` does not
  catch this exception, and the model's `Escaped` ending reflects that. The interpreter
  snapshot has no Break or Continue visitors; the model treats them as not implemented too.
- Get, Set, This, Super and Class nodes are not in the model's AST. Every visitor for them
  throws `NotImplementedException` in all three walkers, and nothing produces them.
- The resolver's `METHOD` and `INITIALIZER` function types are never set, because classes are
  not implemented. The initializer-return check (`Resolver.cs:150-151`) is modelled but
  unreachable from the visitors.
- The binding table is handed to `LoxInterpreter.Resolve(expr, i)`, which is not part of this
  model's sources. The model keeps it as the resolver's `locals` map from node id to distance,
  and a later entry for the same node replaces an earlier one.
- Parsing.Parser.constructor and the parsing methods require a non-empty token list ending in
  EOF (`WellFormed`), as the lexers always produce. On other lists the source would index out
  of range.
- Parsing.Parser.Advance and Parsing.Parser.Synchronize require that the cursor is not on an
  EOF at index 0. In that case the source's `Previous()` would read `tokens[-1]` and throw.
  `Synchronize` is never called by `Parse` in this snapshot.
- Functions.LoxFunction.Call requires at least as many arguments as parameters. Checking the
  arity is the caller's job, and the caller is not part of this model. With fewer arguments the
  source would throw out of range.
- Functions.LoxFunction.Call: `ExecuteBlock` and `ReturnException` are not part of this
  model's sources. The body's outcome (normal end, a return with a value, or a RuntimeError) is
  a function the caller passes in, of the body and the parameter bindings. Functions are not
  runtime values in the model, because `ICallable` values have no place in the value type.
- Functions.LoxFunction.Call: `modifies {}` says only that Call itself changes no existing
  object. The body runs through `ExecuteBlock` in an environment chained to the closure, so in
  the source it can assign to the closure's variables. Those effects are not modelled, because
  the body's outcome is a pure function passed in.
- `src/lox/Interpreter/Functions/LoxFunction.cs` repeats `src/lox/Interpreter/LoxFunction.cs`
  line for line in another namespace, so one model covers both.
- `Clock.cs` reads the wall clock and is not modelled.
