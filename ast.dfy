/**
 * The expression and statement trees. Every expression node carries an `id`: the stable
 * identity that the resolver's binding table is keyed by (the source uses object identity).
 */
module Ast {
  import opened Wrappers
  import opened Values
  import opened Tokens

  datatype Expr =
    | Literal(id: nat, val: Value)
    | Grouping(id: nat, expression: Expr)
    | Unary(id: nat, op: Token, right: Expr)
    | Binary(id: nat, left: Expr, op: Token, right: Expr)
    | Variable(id: nat, name: Token)
    | Assign(id: nat, name: Token, value: Expr)
    | Logical(id: nat, left: Expr, op: Token, right: Expr)
    | Call(id: nat, callee: Expr, paren: Token, arguments: seq<Expr>)

  datatype Stmt =
    | Expression(expression: Expr)
    | Print(expression: Expr)
    | Var(name: Token, initializer: Option<Expr>)
    | Block(statements: seq<Stmt>)
    | If(condition: Expr, thenBranch: Stmt, elseBranch: Option<Stmt>)
    | While(condition: Expr, body: Stmt)
    | Function(name: Token, params: seq<Token>, fnBody: seq<Stmt>)
    | Return(keyword: Token, result: Option<Expr>)
    | Break
    | Continue

  /** The ids of all nodes of an expression. */
  function Ids(e: Expr): set<nat>
  {
    match e
    case Literal(id, _) => {id}
    case Grouping(id, inner) => {id} + Ids(inner)
    case Unary(id, _, right) => {id} + Ids(right)
    case Binary(id, left, _, right) => {id} + Ids(left) + Ids(right)
    case Variable(id, _) => {id}
    case Assign(id, _, value) => {id} + Ids(value)
    case Logical(id, left, _, right) => {id} + Ids(left) + Ids(right)
    case Call(id, callee, _, args) => {id} + Ids(callee) + IdsOfAll(args)
  }

  function IdsOfAll(es: seq<Expr>): set<nat>
  {
    if es == [] then {} else Ids(es[0]) + IdsOfAll(es[1..])
  }

  /** No two nodes of the tree share an id. */
  predicate UniqueIds(e: Expr)
  {
    match e
    case Literal(_, _) => true
    case Variable(_, _) => true
    case Grouping(id, inner) => UniqueIds(inner) && id !in Ids(inner)
    case Unary(id, _, right) => UniqueIds(right) && id !in Ids(right)
    case Assign(id, _, value) => UniqueIds(value) && id !in Ids(value)
    case Binary(id, left, _, right) =>
      UniqueIds(left) && UniqueIds(right) && Ids(left) !! Ids(right)
      && id !in Ids(left) + Ids(right)
    case Logical(id, left, _, right) =>
      UniqueIds(left) && UniqueIds(right) && Ids(left) !! Ids(right)
      && id !in Ids(left) + Ids(right)
    case Call(id, callee, _, args) =>
      UniqueIds(callee) && UniqueIdsAll(args) && Ids(callee) !! IdsOfAll(args)
      && id !in Ids(callee) + IdsOfAll(args)
  }

  predicate UniqueIdsAll(es: seq<Expr>)
  {
    es == [] || (UniqueIds(es[0]) && UniqueIdsAll(es[1..]) && Ids(es[0]) !! IdsOfAll(es[1..]))
  }
}
