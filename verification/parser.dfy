/**
  The recursive-descent parser (Parser.java) as functions over a token list
  and a position. Each parsing function returns where it stopped and the
  diagnostics it reported; a thrown ParseError becomes a Failed result at the
  position where it was thrown. Termination is by the number of tokens left,
  then by the grammar level of the function.
*/
module Parser {
  import opened Results
  import opened Values
  import opened Tokens
  import opened Errors
  import opened Ast

  /** A token list as the scanner delivers it: it ends with EOF. */
  predicate Valid(t: seq<Token>)
  {
    |t| > 0 && t[|t| - 1].kind == EOF
  }

  /**
    The result of a parsing function: the value, the position after it and
    what was reported on the way; or the position of a thrown ParseError
    with everything reported up to and including it.
  */
  datatype Parsed<+T> =
    | Parsed(value: T, pos: nat, diagnostics: seq<Diagnostic>)
    | Failed(pos: nat, diagnostics: seq<Diagnostic>)

  datatype Program = Program(statements: seq<Option<Stmt>>, diagnostics: seq<Diagnostic>)

  /** `isAtEnd`: the current token is EOF. */
  predicate AtEnd(t: seq<Token>, p: nat)
    requires p < |t|
  {
    t[p].kind == EOF
  }

  /** `check(kind)`: never true at EOF. */
  predicate Check(t: seq<Token>, p: nat, kind: TokenType)
    requires p < |t|
    ensures Check(t, p, kind) <==> kind != EOF && t[p].kind == kind
  {
    !AtEnd(t, p) && t[p].kind == kind
  }

  /**
    What every parsing function promises about where it stops: never before
    its start, never past EOF, strictly after its start when it succeeds,
    and with a diagnostic reported when it fails.
  */
  predicate Progress<T>(t: seq<Token>, p: nat, r: Parsed<T>)
  {
    && p <= r.pos < |t|
    && (r.Parsed? ==> p < r.pos)
    && (r.Failed? ==> r.diagnostics != [])
  }

  /** A successful expression parse is a tree the grammar can build at `level` or tighter. */
  predicate ExprBuilt(r: Parsed<Expr>, level: nat)
  {
    r.Parsed? ==> WellFormed(r.value) && Prec(r.value) <= level
  }

  const ExpectExpression := "Expected expression."
  const ExpectRightParen := "Expect ')' after expression."
  const ExpectColon := "Expected ':'."
  const InvalidTarget := "Invalid assignment target."
  const ExpectSemicolonAfterValue := "Expected ';' after value."
  const ExpectVariableName := "Expect variable name."
  const ExpectSemicolonAfterVar := "Expect ';' after variable declaration."
  const ExpectRightBrace := "Expect '}' after block."

  /**
    `consume(kind, message)` once `value` has been parsed up to `p`: step over
    the expected token, or report `message` at the current token and throw.
  */
  function Finish<T>(t: seq<Token>, kind: TokenType, message: string, value: T, p: nat, d: seq<Diagnostic>): (r: Parsed<T>)
    requires Valid(t) && p < |t|
    ensures p <= r.pos < |t| && (r.Failed? ==> r.diagnostics != [])
    ensures r.Parsed? <==> Check(t, p, kind)
    ensures r.Parsed? ==> r == Parsed(value, p + 1, d)
  {
    if Check(t, p, kind) then Parsed(value, p + 1, d)
    else Failed(p, d + [AtToken(t[p], message)])
  }

  // ---------------------------------------------------------------- expressions

  /** expression → assignment ("," assignment)*, keeping only the last operand. */
  function ParseExpression(t: seq<Token>, p: nat): (r: Parsed<Expr>)
    requires Valid(t) && p < |t|
    ensures Progress(t, p, r) && ExprBuilt(r, 6)
    decreases |t| - p, 18
  {
    match ParseAssignment(t, p)
    case Failed(q, d) => Failed(q, d)
    case Parsed(e, q, d) => ParseCommaRest(t, e, q, d)
  }

  /** The loop of `expression`: each comma replaces the expression with the next assignment. */
  function ParseCommaRest(t: seq<Token>, e: Expr, p: nat, d: seq<Diagnostic>): (r: Parsed<Expr>)
    requires Valid(t) && p < |t| && WellFormed(e)
    ensures p <= r.pos < |t| && (r.Failed? ==> r.diagnostics != []) && ExprBuilt(r, 6)
    decreases |t| - p, 17
  {
    if Check(t, p, COMMA) then
      match ParseAssignment(t, p + 1)
      case Failed(q, d2) => Failed(q, d + d2)
      case Parsed(next, q, d2) => ParseCommaRest(t, next, q, d + d2)
    else Parsed(e, p, d)
  }

  /**
    assignment → IDENTIFIER "=" assignment | ternary. Any other left side is
    reported as an invalid target but not thrown: the left side is returned
    and the parsed right side is dropped.
  */
  function ParseAssignment(t: seq<Token>, p: nat): (r: Parsed<Expr>)
    requires Valid(t) && p < |t|
    ensures Progress(t, p, r) && ExprBuilt(r, 6)
    decreases |t| - p, 16
  {
    match ParseTernary(t, p)
    case Failed(q, d) => Failed(q, d)
    case Parsed(target, q, d) => ParseAssignValue(t, target, q, d)
  }

  /** The optional `"=" assignment` after the left side `target`, which has been parsed up to `p`. */
  function ParseAssignValue(t: seq<Token>, target: Expr, p: nat, d: seq<Diagnostic>): (r: Parsed<Expr>)
    requires Valid(t) && p < |t| && WellFormed(target) && Prec(target) <= 5
    ensures p <= r.pos < |t| && (r.Failed? ==> r.diagnostics != []) && ExprBuilt(r, 6)
    decreases |t| - p, 16
  {
    if Check(t, p, EQUAL) then
      match ParseAssignment(t, p + 1)
      case Failed(q, d2) => Failed(q, d + d2)
      case Parsed(v, q, d2) =>
        if target.Variable? then Parsed(Assign(target.name, v), q, d + d2)
        else Parsed(target, q, d + d2 + [AtToken(t[p], InvalidTarget)])
    else Parsed(target, p, d)
  }

  /** ternary → equality ("?" ternary ":" ternary)?, right-associative in both branches. */
  function ParseTernary(t: seq<Token>, p: nat): (r: Parsed<Expr>)
    requires Valid(t) && p < |t|
    ensures Progress(t, p, r) && ExprBuilt(r, 5)
    decreases |t| - p, 15
  {
    match ParseTier(t, p, 4)
    case Failed(q, d) => Failed(q, d)
    case Parsed(c, q, d) => ParseBranches(t, c, q, d)
  }

  /** The optional part of `ternary` once the condition `c` has been parsed up to `p`. */
  function ParseBranches(t: seq<Token>, c: Expr, p: nat, d: seq<Diagnostic>): (r: Parsed<Expr>)
    requires Valid(t) && p < |t| && WellFormed(c) && Prec(c) <= 4
    ensures p <= r.pos < |t| && (r.Failed? ==> r.diagnostics != []) && ExprBuilt(r, 5)
    decreases |t| - p, 14
  {
    if Check(t, p, QUESTION) then
      match ParseTernary(t, p + 1)
      case Failed(q, d1) => Failed(q, d + d1)
      case Parsed(a, q, d1) => ParseElse(t, c, t[p], a, q, d + d1)
    else Parsed(c, p, d)
  }

  /** The `":" ternary` that must follow the first branch `a`, which has been parsed up to `p`. */
  function ParseElse(t: seq<Token>, c: Expr, question: Token, a: Expr, p: nat, d: seq<Diagnostic>): (r: Parsed<Expr>)
    requires Valid(t) && p < |t| && question.kind == QUESTION
    requires WellFormed(c) && Prec(c) <= 4 && WellFormed(a) && Prec(a) <= 5
    ensures p <= r.pos < |t| && (r.Failed? ==> r.diagnostics != []) && ExprBuilt(r, 5)
    decreases |t| - p, 13
  {
    if Check(t, p, COLON) then
      match ParseTernary(t, p + 1)
      case Failed(q, d2) => Failed(q, d + d2)
      case Parsed(b, q, d2) => Parsed(Ternary(c, question, a, t[p], b), q, d + d2)
    else Failed(p, d + [AtToken(t[p], ExpectColon)])
  }

  /**
    The four left-associative binary tiers — 4 equality, 3 comparison,
    2 term, 1 factor — each an operand of the next tighter tier followed by
    a loop over its own operators.
  */
  function ParseTier(t: seq<Token>, p: nat, k: nat): (r: Parsed<Expr>)
    requires Valid(t) && p < |t| && 1 <= k <= 4
    ensures Progress(t, p, r) && ExprBuilt(r, k)
    decreases |t| - p, 3 * k + 2
  {
    match ParseOperand(t, p, k)
    case Failed(q, d) => Failed(q, d)
    case Parsed(e, q, d) => ParseTierRest(t, e, q, d, k)
  }

  /** The loop of tier `k`: while an operator of the tier follows, fold it in on the left. */
  function ParseTierRest(t: seq<Token>, e: Expr, p: nat, d: seq<Diagnostic>, k: nat): (r: Parsed<Expr>)
    requires Valid(t) && p < |t| && 1 <= k <= 4
    requires WellFormed(e) && Prec(e) <= k
    ensures p <= r.pos < |t| && (r.Failed? ==> r.diagnostics != []) && ExprBuilt(r, k)
    decreases |t| - p, 3 * k + 1
  {
    if TierOf(t[p].kind) == k then
      match ParseOperand(t, p + 1, k)
      case Failed(q, d2) => Failed(q, d + d2)
      case Parsed(right, q, d2) => ParseTierRest(t, Binary(e, t[p], right), q, d + d2, k)
    else Parsed(e, p, d)
  }

  /** An operand of tier `k`: the next tighter tier, or a unary below factor. */
  function ParseOperand(t: seq<Token>, p: nat, k: nat): (r: Parsed<Expr>)
    requires Valid(t) && p < |t| && 1 <= k <= 4
    ensures Progress(t, p, r) && ExprBuilt(r, k - 1)
    decreases |t| - p, 3 * k
  {
    if k == 1 then ParseUnary(t, p) else ParseTier(t, p, k - 1)
  }

  /** unary → ("!" | "-") unary | primary. */
  function ParseUnary(t: seq<Token>, p: nat): (r: Parsed<Expr>)
    requires Valid(t) && p < |t|
    ensures Progress(t, p, r) && ExprBuilt(r, 0)
    decreases |t| - p, 1
  {
    if Check(t, p, BANG) || Check(t, p, MINUS) then
      match ParseUnary(t, p + 1)
      case Failed(q, d) => Failed(q, d)
      case Parsed(right, q, d) => Parsed(Unary(t[p], right), q, d)
    else ParsePrimary(t, p)
  }

  /** primary → "false" | "true" | "nil" | NUMBER | STRING | IDENTIFIER | "(" expression ")". */
  function ParsePrimary(t: seq<Token>, p: nat): (r: Parsed<Expr>)
    requires Valid(t) && p < |t|
    ensures Progress(t, p, r) && ExprBuilt(r, 0)
    decreases |t| - p, 0
  {
    if Check(t, p, FALSE) then Parsed(Literal(Bool(false)), p + 1, [])
    else if Check(t, p, TRUE) then Parsed(Literal(Bool(true)), p + 1, [])
    else if Check(t, p, NIL) then Parsed(Literal(Nil), p + 1, [])
    else if Check(t, p, NUMBER) || Check(t, p, STRING) then Parsed(Literal(t[p].literal), p + 1, [])
    else if Check(t, p, IDENTIFIER) then Parsed(Variable(t[p]), p + 1, [])
    else if Check(t, p, LEFT_PAREN) then ParseGrouping(t, p + 1)
    else Failed(p, [AtToken(t[p], ExpectExpression)])
  }

  /** The rest of a parenthesised expression, from just after its "(". */
  function ParseGrouping(t: seq<Token>, p: nat): (r: Parsed<Expr>)
    requires Valid(t) && p < |t|
    ensures p <= r.pos < |t| && (r.Failed? ==> r.diagnostics != []) && ExprBuilt(r, 0)
    decreases |t| - p, 19
  {
    match ParseExpression(t, p)
    case Failed(q, d) => Failed(q, d)
    case Parsed(e, q, d) => Finish(t, RIGHT_PAREN, ExpectRightParen, Grouping(e), q, d)
  }

  // ---------------------------------------------------------------- statements

  /** What a parsed statement satisfies: the grammar's shapes, and no failed declaration inside when nothing was reported. */
  predicate StmtBuilt(r: Parsed<Stmt>)
  {
    r.Parsed? ==> StmtWellFormed(r.value) && (r.diagnostics == [] ==> NullFree(r.value))
  }

  /** Kinds that begin a declaration or statement; `synchronize` stops before them. */
  predicate StartsStatement(kind: TokenType)
  {
    kind in {CLASS, FUN, VAR, FOR, IF, WHILE, PRINT, RETURN}
  }

  /** Where `synchronize` may stop: at EOF, just after a semicolon, or before a statement keyword. */
  predicate Boundary(t: seq<Token>, c: nat)
    requires 0 < c < |t|
  {
    AtEnd(t, c) || t[c - 1].kind == SEMICOLON || StartsStatement(t[c].kind)
  }

  /**
    `synchronize`: after a ParseError thrown at `p`, advance once, then
    discard tokens up to the first boundary.
  */
  function Synchronize(t: seq<Token>, p: nat): (r: nat)
    requires Valid(t) && p < |t|
    ensures p <= r < |t|
    ensures AtEnd(t, p) ==> r == p
    ensures !AtEnd(t, p) ==> p < r && Boundary(t, r)
    ensures forall c :: p < c < r ==> !Boundary(t, c)
  {
    if AtEnd(t, p) then p else SynchronizeLoop(t, p + 1)
  }

  /** The loop of `synchronize`, from a position just after an advance. */
  function SynchronizeLoop(t: seq<Token>, c: nat): (r: nat)
    requires Valid(t) && 0 < c < |t|
    ensures c <= r < |t| && Boundary(t, r)
    ensures forall j :: c <= j < r ==> !Boundary(t, j)
    decreases |t| - c
  {
    if Boundary(t, c) then c else SynchronizeLoop(t, c + 1)
  }

  /**
    declaration → varDecl | statement. A ParseError thrown inside is caught
    here: the declaration yields None and parsing resumes after
    `synchronize`. It always consumes at least one token.
  */
  function ParseDeclaration(t: seq<Token>, p: nat): (r: Parsed<Option<Stmt>>)
    requires Valid(t) && p < |t| && !AtEnd(t, p)
    ensures r.Parsed? && p < r.pos < |t|
    ensures r.value.Some? ==> StmtWellFormed(r.value.value)
    ensures r.value.None? ==> r.diagnostics != []
    ensures r.diagnostics == [] ==> r.value.Some? && NullFree(r.value.value)
    decreases |t| - p, 2
  {
    var attempt := if Check(t, p, VAR) then ParseVarDeclaration(t, p + 1) else ParseStatement(t, p);
    match attempt
    case Parsed(s, q, d) => Parsed(Some(s), q, d)
    case Failed(q, d) => Parsed(None, Synchronize(t, q), d)
  }

  /** varDecl → "var" IDENTIFIER ("=" expression)? ";", after the "var". */
  function ParseVarDeclaration(t: seq<Token>, p: nat): (r: Parsed<Stmt>)
    requires Valid(t) && p < |t|
    ensures Progress(t, p, r) && StmtBuilt(r)
  {
    if !Check(t, p, IDENTIFIER) then Failed(p, [AtToken(t[p], ExpectVariableName)])
    else if Check(t, p + 1, EQUAL) then
      match ParseExpression(t, p + 2)
      case Failed(q, d) => Failed(q, d)
      case Parsed(init, q, d) => Finish(t, SEMICOLON, ExpectSemicolonAfterVar, Var(t[p], Some(init)), q, d)
    else Finish(t, SEMICOLON, ExpectSemicolonAfterVar, Var(t[p], None), p + 1, [])
  }

  /** statement → printStmt | block | exprStmt. */
  function ParseStatement(t: seq<Token>, p: nat): (r: Parsed<Stmt>)
    requires Valid(t) && p < |t|
    ensures Progress(t, p, r) && StmtBuilt(r)
    decreases |t| - p, 1
  {
    if Check(t, p, PRINT) then
      match ParseExpression(t, p + 1)
      case Failed(q, d) => Failed(q, d)
      case Parsed(e, q, d) => Finish(t, SEMICOLON, ExpectSemicolonAfterValue, Print(e), q, d)
    else if Check(t, p, LEFT_BRACE) then
      match ParseBlock(t, p + 1)
      case Failed(q, d) => Failed(q, d)
      case Parsed(ss, q, d) => Parsed(Block(ss), q, d)
    else
      match ParseExpression(t, p)
      case Failed(q, d) => Failed(q, d)
      case Parsed(e, q, d) => Finish(t, SEMICOLON, ExpectSemicolonAfterValue, Expression(e), q, d)
  }

  /** block → "{" declaration* "}", after the "{". Only the closing brace can throw. */
  function ParseBlock(t: seq<Token>, p: nat): (r: Parsed<seq<Option<Stmt>>>)
    requires Valid(t) && p < |t|
    ensures Progress(t, p, r)
    ensures r.Parsed? ==> forall i :: 0 <= i < |r.value| ==> r.value[i].Some? ==> StmtWellFormed(r.value[i].value)
    ensures r.Parsed? && r.diagnostics == [] ==>
              forall i :: 0 <= i < |r.value| ==> r.value[i].Some? && NullFree(r.value[i].value)
    decreases |t| - p, 3
  {
    if Check(t, p, RIGHT_BRACE) || AtEnd(t, p) then Finish(t, RIGHT_BRACE, ExpectRightBrace, [], p, [])
    else
      var first := ParseDeclaration(t, p);
      match ParseBlock(t, first.pos)
      case Failed(q, d) => Failed(q, first.diagnostics + d)
      case Parsed(rest, q, d) => Parsed([first.value] + rest, q, first.diagnostics + d)
  }

  /** The loop of `parse` from position `p`: one entry per declaration until EOF. */
  function ParseFrom(t: seq<Token>, p: nat): (r: Program)
    requires Valid(t) && p < |t|
    ensures |r.statements| <= |t| - 1 - p
    ensures forall i :: 0 <= i < |r.statements| ==> r.statements[i].Some? ==> StmtWellFormed(r.statements[i].value)
    ensures forall i :: 0 <= i < |r.statements| ==> r.statements[i].None? ==> r.diagnostics != []
    ensures r.diagnostics == [] ==> forall i :: 0 <= i < |r.statements| ==> r.statements[i].Some? && NullFree(r.statements[i].value)
    decreases |t| - p
  {
    if AtEnd(t, p) then Program([], [])
    else
      var first := ParseDeclaration(t, p);
      var rest := ParseFrom(t, first.pos);
      Program([first.value] + rest.statements, first.diagnostics + rest.diagnostics)
  }

  /**
    `parse`: never throws. A program parsed without diagnostics contains no
    failed declaration and only what the interpreter can execute.
  */
  function Parse(t: seq<Token>): (r: Program)
    requires Valid(t)
    ensures |r.statements| <= |t| - 1
    ensures forall i :: 0 <= i < |r.statements| ==> r.statements[i].None? ==> r.diagnostics != []
    ensures r.diagnostics == [] ==> AllExecutable(r.statements)
  {
    var r := ParseFrom(t, 0);
    if r.diagnostics == [] then
      assert forall i :: 0 <= i < |r.statements| ==> Executable(r.statements[i].value) by {
        forall i | 0 <= i < |r.statements| ensures Executable(r.statements[i].value) {
          ParsedStatementIsExecutable(r.statements[i].value);
        }
      }
      r
    else r
  }
}
