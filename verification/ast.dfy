/**
  The syntax tree (Expr.java, and the statement classes the parser and the
  interpreter use). The visitor classes become datatypes; `accept` becomes
  `match`, which is exhaustive and dispatches each variant to its own case.
*/
module Ast {
  import opened Results
  import opened Values
  import opened Tokens

  datatype Expr =
    | Assign(name: Token, value: Expr)
    | Binary(left: Expr, operator: Token, right: Expr)
    | Ternary(first: Expr, question: Token, second: Expr, colon: Token, last: Expr)
    | Grouping(expression: Expr)
    | Literal(literal: Value)
    | Unary(operator: Token, right: Expr)
    | Variable(name: Token)

  /**
    Statement nodes. A block holds what the parser returned for each of its
    declarations, so a declaration that failed to parse is a None entry.
  */
  datatype Stmt =
    | Expression(expression: Expr)
    | Print(expression: Expr)
    | Var(name: Token, initializer: Option<Expr>)
    | Block(statements: seq<Option<Stmt>>)

  /**
    The binary precedence tier an operator belongs to: 1 factor, 2 term,
    3 comparison, 4 equality; 0 for a kind that is no binary operator.
  */
  function TierOf(kind: TokenType): nat
  {
    match kind
    case SLASH | STAR => 1
    case MINUS | PLUS => 2
    case GREATER | GREATER_EQUAL | LESS | LESS_EQUAL => 3
    case BANG_EQUAL | EQUAL_EQUAL => 4
    case _ => 0
  }

  /**
    How loosely an expression binds, numbered like the grammar levels:
    0 for unary and primary forms, 1-4 for a binary node of that tier,
    5 for a ternary and 6 for an assignment.
  */
  function Prec(e: Expr): nat
  {
    match e
    case Assign(_, _) => 6
    case Ternary(_, _, _, _, _) => 5
    case Binary(_, op, _) => TierOf(op.kind)
    case _ => 0
  }

  /** Operators the interpreter's visitors handle; any other one is "Unreachable code reached!". */
  predicate ValidOps(e: Expr)
  {
    match e
    case Assign(_, v) => ValidOps(v)
    case Binary(l, op, r) => TierOf(op.kind) > 0 && ValidOps(l) && ValidOps(r)
    case Ternary(c, _, a, _, b) => ValidOps(c) && ValidOps(a) && ValidOps(b)
    case Grouping(inner) => ValidOps(inner)
    case Literal(_) => true
    case Unary(op, r) => op.kind in {BANG, MINUS} && ValidOps(r)
    case Variable(_) => true
  }

  /**
    The trees the parser can build: every token has the kind the grammar
    puts there, a binary node's left operand binds no looser and its right
    operand strictly tighter than its own tier (left associativity), a
    unary operand is unary or primary, a ternary's condition is at most an
    equality and its branches at most ternaries (right associativity).
  */
  predicate WellFormed(e: Expr)
  {
    match e
    case Assign(name, v) => name.kind == IDENTIFIER && WellFormed(v)
    case Binary(l, op, r) =>
      && TierOf(op.kind) > 0
      && Prec(l) <= TierOf(op.kind) && Prec(r) < TierOf(op.kind)
      && WellFormed(l) && WellFormed(r)
    case Ternary(c, q, a, col, b) =>
      && q.kind == QUESTION && col.kind == COLON
      && Prec(c) <= 4 && Prec(a) <= 5 && Prec(b) <= 5
      && WellFormed(c) && WellFormed(a) && WellFormed(b)
    case Grouping(inner) => WellFormed(inner)
    case Literal(_) => true
    case Unary(op, r) => op.kind in {BANG, MINUS} && Prec(r) == 0 && WellFormed(r)
    case Variable(name) => name.kind == IDENTIFIER
  }

  lemma {:induction false} WellFormedHasValidOps(e: Expr)
    requires WellFormed(e)
    ensures ValidOps(e)
  {
    match e
    case Assign(_, v) => WellFormedHasValidOps(v);
    case Binary(l, _, r) => WellFormedHasValidOps(l); WellFormedHasValidOps(r);
    case Ternary(c, _, a, _, b) => WellFormedHasValidOps(c); WellFormedHasValidOps(a); WellFormedHasValidOps(b);
    case Grouping(inner) => WellFormedHasValidOps(inner);
    case Unary(_, r) => WellFormedHasValidOps(r);
    case _ =>
  }

  /** A statement the parser can build; failed declarations inside blocks are allowed. */
  predicate StmtWellFormed(s: Stmt)
  {
    match s
    case Expression(e) => WellFormed(e)
    case Print(e) => WellFormed(e)
    case Var(name, init) => name.kind == IDENTIFIER && (init.Some? ==> WellFormed(init.value))
    case Block(ss) => forall i :: 0 <= i < |ss| ==> ss[i].Some? ==> StmtWellFormed(ss[i].value)
  }

  /** No declaration anywhere inside failed to parse. */
  predicate NullFree(s: Stmt)
  {
    match s
    case Block(ss) => forall i :: 0 <= i < |ss| ==> ss[i].Some? && NullFree(ss[i].value)
    case _ => true
  }

  /** A statement the interpreter can run without a null or an unhandled operator. */
  predicate Executable(s: Stmt)
  {
    match s
    case Expression(e) => ValidOps(e)
    case Print(e) => ValidOps(e)
    case Var(_, init) => init.Some? ==> ValidOps(init.value)
    case Block(ss) => forall i :: 0 <= i < |ss| ==> ss[i].Some? && Executable(ss[i].value)
  }

  /** A statement list the interpreter can run. */
  predicate AllExecutable(ss: seq<Option<Stmt>>)
  {
    forall i :: 0 <= i < |ss| ==> ss[i].Some? && Executable(ss[i].value)
  }

  /** What the parser promises about a statement with no diagnostics is what the interpreter needs. */
  lemma {:induction false} ParsedStatementIsExecutable(s: Stmt)
    requires StmtWellFormed(s) && NullFree(s)
    ensures Executable(s)
  {
    match s
    case Expression(e) => WellFormedHasValidOps(e);
    case Print(e) => WellFormedHasValidOps(e);
    case Var(_, init) => if init.Some? { WellFormedHasValidOps(init.value); }
    case Block(ss) =>
      forall i | 0 <= i < |ss|
        ensures ss[i].Some? && Executable(ss[i].value)
      {
        ParsedStatementIsExecutable(ss[i].value);
      }
  }
}
