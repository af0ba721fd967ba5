/**
  What the round trip and a few direct unfoldings say about particular
  token shapes: how operators group, what a comma keeps, what an invalid
  assignment target, a missing ':' or a missing operand produce, and how
  `synchronize` lets parsing resume after an error.
*/
module ParserProperties {
  import opened Results
  import opened Values
  import opened Tokens
  import opened Errors
  import opened Ast
  import opened Parser
  import opened ParserRoundTrip

  // ------------------------------------------------ grouping, from the round trip

  /**
    Two operators of one tier group to the left: wherever the tokens of
    `x - y - z` are followed by EOF, they parse as `(x - y) - z`.
  */
  lemma LeftAssociative(t: seq<Token>, p: nat, x: Expr, op1: Token, y: Expr, op2: Token, z: Expr, n: nat)
    requires TierOf(op1.kind) > 0 && TierOf(op2.kind) == TierOf(op1.kind)
    requires WellFormed(x) && WellFormed(y) && WellFormed(z)
    requires Prec(x) <= TierOf(op1.kind) && Prec(y) < TierOf(op1.kind) && Prec(z) < TierOf(op1.kind)
    requires Valid(t) && p <= n < |t| && t[p..n] == Unparse(x) + [op1] + Unparse(y) + [op2] + Unparse(z) && t[n].kind == EOF
    ensures ParseExpression(t, p) == Parsed(Binary(Binary(x, op1, y), op2, z), n, [])
  {
    LeftShape(x, op1, y, op2, z);
    Closers();
    ExpressionSlice(t, p, Binary(Binary(x, op1, y), op2, z), n);
  }

  /**
    A tighter operator after a looser one takes the operand between them:
    the tokens of `x + y * z` parse as `x + (y * z)`.
  */
  lemma TighterBindsFirst(t: seq<Token>, p: nat, x: Expr, op1: Token, y: Expr, op2: Token, z: Expr, n: nat)
    requires 0 < TierOf(op2.kind) < TierOf(op1.kind)
    requires WellFormed(x) && WellFormed(y) && WellFormed(z)
    requires Prec(x) <= TierOf(op1.kind) && Prec(y) < TierOf(op2.kind) && Prec(z) < TierOf(op2.kind)
    requires Valid(t) && p <= n < |t| && t[p..n] == Unparse(x) + [op1] + Unparse(y) + [op2] + Unparse(z) && t[n].kind == EOF
    ensures ParseExpression(t, p) == Parsed(Binary(x, op1, Binary(y, op2, z)), n, [])
  {
    RightShape(x, op1, y, op2, z);
    Closers();
    ExpressionSlice(t, p, Binary(x, op1, Binary(y, op2, z)), n);
  }

  /** The tokens of two binary operators grouped to the left. */
  lemma LeftShape(x: Expr, op1: Token, y: Expr, op2: Token, z: Expr)
    ensures Unparse(Binary(Binary(x, op1, y), op2, z)) == Unparse(x) + [op1] + Unparse(y) + [op2] + Unparse(z)
  {
  }

  /** The tokens of two binary operators grouped to the right: the same tokens as grouped to the left. */
  lemma RightShape(x: Expr, op1: Token, y: Expr, op2: Token, z: Expr)
    ensures Unparse(Binary(x, op1, Binary(y, op2, z))) == Unparse(x) + [op1] + Unparse(y) + [op2] + Unparse(z)
  {
    var a, b, c := Unparse(x), Unparse(y), Unparse(z);
    assert Unparse(Binary(y, op2, z)) == b + [op2] + c;
    assert a + [op1] + (b + [op2] + c) == a + [op1] + b + [op2] + c;
  }

  /**
    The conditional groups to the right: the tokens of `x ? y : z ? u : w`,
    which also print the left-grouped `(x ? y : z) ? u : w`, parse as
    `x ? y : (z ? u : w)`.
  */
  lemma TernaryRightAssociative(t: seq<Token>, p: nat, x: Expr, q1: Token, y: Expr, c1: Token, z: Expr, q2: Token, u: Expr, c2: Token, w: Expr, n: nat)
    requires WellFormed(Ternary(x, q1, y, c1, Ternary(z, q2, u, c2, w)))
    requires Valid(t) && p <= n < |t| && t[n].kind == EOF
    requires t[p..n] == Unparse(Ternary(Ternary(x, q1, y, c1, z), q2, u, c2, w))
    ensures ParseExpression(t, p) == Parsed(Ternary(x, q1, y, c1, Ternary(z, q2, u, c2, w)), n, [])
  {
    SameTokens(x, q1, y, c1, z, q2, u, c2, w);
    Closers();
    ExpressionSlice(t, p, Ternary(x, q1, y, c1, Ternary(z, q2, u, c2, w)), n);
  }

  /** Both groupings of two conditionals print the same tokens. */
  lemma SameTokens(x: Expr, q1: Token, y: Expr, c1: Token, z: Expr, q2: Token, u: Expr, c2: Token, w: Expr)
    ensures Unparse(Ternary(Ternary(x, q1, y, c1, z), q2, u, c2, w)) == Unparse(Ternary(x, q1, y, c1, Ternary(z, q2, u, c2, w)))
  {
    TernaryShape(x, q1, y, c1, z, q2, u, c2, w);
    var a := Unparse(x) + [q1] + Unparse(y) + [c1];
    assert Unparse(Ternary(Ternary(x, q1, y, c1, z), q2, u, c2, w)) == a + Unparse(z) + [q2] + Unparse(u) + [c2] + Unparse(w);
  }

  /** The tokens of a conditional nested in the else branch of another. */
  lemma TernaryShape(x: Expr, q1: Token, y: Expr, c1: Token, z: Expr, q2: Token, u: Expr, c2: Token, w: Expr)
    ensures Unparse(Ternary(x, q1, y, c1, Ternary(z, q2, u, c2, w)))
            == Unparse(x) + [q1] + Unparse(y) + [c1] + Unparse(z) + [q2] + Unparse(u) + [c2] + Unparse(w)
  {
    var a := Unparse(x) + [q1] + Unparse(y) + [c1];
    var b := Unparse(z) + [q2] + Unparse(u) + [c2];
    assert Unparse(Ternary(z, q2, u, c2, w)) == b + Unparse(w);
    Regroup(a, b, Unparse(w));
    Regroup(a, Unparse(z) + [q2] + Unparse(u), [c2]);
    Regroup(a, Unparse(z) + [q2], Unparse(u));
    Regroup(a, Unparse(z), [q2]);
  }

  lemma Regroup(a: seq<Token>, b: seq<Token>, c: seq<Token>)
    ensures a + (b + c) == a + b + c
  {
  }

  /** The tokens that close an operand in the statements below, and the levels they close. */
  lemma Closers()
    ensures Ends(EOF, 7) && Ends(SEMICOLON, 7) && Ends(COLON, 7)
    ensures Ends(COMMA, 6) && Ends(EQUAL, 5) && Ends(QUESTION, 4)
  {
  }

  // ------------------------------------------------ one step of the top levels

  lemma ExpressionStep(t: seq<Token>, p: nat, e: Expr, q: nat, d: seq<Diagnostic>)
    requires Valid(t) && p < |t| && ParseAssignment(t, p) == Parsed(e, q, d)
    ensures q < |t| && WellFormed(e)
    ensures ParseExpression(t, p) == ParseCommaRest(t, e, q, d)
  {
  }

  lemma CommaStep(t: seq<Token>, x: Expr, n: nat, y: Expr, m: nat)
    requires Valid(t) && n + 1 < |t| && WellFormed(x) && t[n].kind == COMMA
    requires ParseAssignment(t, n + 1) == Parsed(y, m, [])
    ensures ParseCommaRest(t, x, n, []) == ParseCommaRest(t, y, m, [])
  {
    var none: seq<Diagnostic> := [];
    assert Check(t, n, COMMA) && none + none == none;
  }

  lemma CommaStop(t: seq<Token>, e: Expr, p: nat, d: seq<Diagnostic>)
    requires Valid(t) && p < |t| && WellFormed(e) && t[p].kind != COMMA
    ensures ParseCommaRest(t, e, p, d) == Parsed(e, p, d)
  {
  }

  // ------------------------------------------------ printed operands, wherever they lie

  lemma TierSlice(t: seq<Token>, p: nat, e: Expr, q: nat)
    requires Valid(t) && WellFormed(e) && Prec(e) <= 4
    requires p <= q < |t| && t[p..q] == Unparse(e) && Ends(t[q].kind, 4)
    ensures ParseTier(t, p, 4) == Parsed(e, q, [])
  {
    SliceAt(t, p, Unparse(e));
    UnparsePlaced(t, p, e);
    TierRoundTrip(t, p, e, 4, q);
  }

  lemma TernarySlice(t: seq<Token>, p: nat, e: Expr, q: nat)
    requires Valid(t) && WellFormed(e) && Prec(e) <= 5
    requires p <= q < |t| && t[p..q] == Unparse(e) && Ends(t[q].kind, 5)
    ensures ParseTernary(t, p) == Parsed(e, q, [])
  {
    SliceAt(t, p, Unparse(e));
    UnparsePlaced(t, p, e);
    TernaryRoundTrip(t, p, e, q);
  }

  lemma AssignmentSlice(t: seq<Token>, p: nat, e: Expr, q: nat)
    requires Valid(t) && WellFormed(e)
    requires p <= q < |t| && t[p..q] == Unparse(e) && Ends(t[q].kind, 6)
    ensures ParseAssignment(t, p) == Parsed(e, q, [])
  {
    SliceAt(t, p, Unparse(e));
    UnparsePlaced(t, p, e);
    AssignmentRoundTrip(t, p, e, q);
  }

  lemma ExpressionSlice(t: seq<Token>, p: nat, e: Expr, q: nat)
    requires Valid(t) && WellFormed(e)
    requires p <= q < |t| && t[p..q] == Unparse(e) && Ends(t[q].kind, 7)
    ensures ParseExpression(t, p) == Parsed(e, q, [])
  {
    SliceAt(t, p, Unparse(e));
    UnparsePlaced(t, p, e);
    ExpressionRoundTrip(t, p, e, q);
  }

  // ------------------------------------------------ the comma operator

  const Comma := Token(COMMA, ",", Nil, 1)

  /** The operands `xs`, printed with a comma between each two. */
  function UnparseCommas(xs: seq<Expr>): (r: seq<Token>)
    requires |xs| > 0
    ensures |r| == CommasSize(xs)
  {
    if |xs| == 1 then Unparse(xs[0]) else Unparse(xs[0]) + [Comma] + UnparseCommas(xs[1..])
  }

  function CommasSize(xs: seq<Expr>): nat
    requires |xs| > 0
  {
    if |xs| == 1 then Size(xs[0]) else Size(xs[0]) + 1 + CommasSize(xs[1..])
  }

  predicate AllWellFormed(xs: seq<Expr>)
  {
    forall i :: 0 <= i < |xs| ==> WellFormed(xs[i])
  }

  /**
    From position `n` on, `t` holds `, x1 , x2 ... , xk` for `xs == [x1, ..., xk]`,
    ending at `m` (nothing at all when `xs` is empty).
  */
  predicate CommasPlaced(t: seq<Token>, n: nat, xs: seq<Expr>, m: nat)
    decreases |xs|
  {
    if |xs| == 0 then n == m
    else n < |t| && t[n].kind == COMMA && Placed(t, n + 1, xs[0]) && CommasPlaced(t, n + 1 + Size(xs[0]), xs[1..], m)
  }

  /**
    `x1 , x2 , ... , xk` followed by any token that ends an expression is
    `xk`: the comma operator parses every operand, keeps only the last and
    reports nothing.
  */
  lemma CommaKeepsLast(t: seq<Token>, p: nat, xs: seq<Expr>, m: nat)
    requires Valid(t) && |xs| > 0 && AllWellFormed(xs)
    requires p <= m < |t| && t[p..m] == UnparseCommas(xs) && Ends(t[m].kind, 7)
    ensures ParseExpression(t, p) == Parsed(xs[|xs| - 1], m, [])
  {
    var n := CommasFirst(t, p, xs, m);
    AssignmentRoundTrip(t, p, xs[0], n);
    ExpressionStep(t, p, xs[0], n, []);
    CommaRestKeepsLast(t, xs[0], n, xs[1..], m);
  }

  /** The printed list splits into its placed first operand, ending at `n`, and the comma-led rest. */
  lemma CommasFirst(t: seq<Token>, p: nat, xs: seq<Expr>, m: nat) returns (n: nat)
    requires |xs| > 0 && AllWellFormed(xs)
    requires p <= m < |t| && t[p..m] == UnparseCommas(xs) && Ends(t[m].kind, 7)
    ensures n == p + Size(xs[0]) && n < |t| && Ends(t[n].kind, 6)
    ensures WellFormed(xs[0]) && Placed(t, p, xs[0]) && AllWellFormed(xs[1..]) && CommasPlaced(t, n, xs[1..], m)
  {
    n := p + Size(xs[0]);
    assert m == p + CommasSize(xs);
    SliceAt(t, p, UnparseCommas(xs));
    UnparseCommasPlaced(t, p, xs);
    assert WellFormed(xs[0]) && AllWellFormed(xs[1..]);
    if |xs| > 1 {
      assert t[n].kind == COMMA;
      Closers();
    } else {
      assert n == m;
      EndsLower(t[m].kind);
    }
  }

  /** A token that ends an expression also ends an assignment. */
  lemma EndsLower(kind: TokenType)
    requires Ends(kind, 7)
    ensures Ends(kind, 6)
  {
  }

  /** Wherever the printed comma list occurs, its first operand and the comma-led rest are placed there. */
  lemma {:induction false} UnparseCommasPlaced(t: seq<Token>, p: nat, xs: seq<Expr>)
    requires |xs| > 0 && At(t, p, UnparseCommas(xs))
    ensures Placed(t, p, xs[0]) && CommasPlaced(t, p + Size(xs[0]), xs[1..], p + CommasSize(xs))
    decreases |xs|
  {
    if |xs| == 1 {
      UnparsePlaced(t, p, xs[0]);
    } else {
      var n := p + Size(xs[0]);
      AtSplit(t, p, Unparse(xs[0]) + [Comma], UnparseCommas(xs[1..]));
      AtSplit(t, p, Unparse(xs[0]), [Comma]);
      UnparsePlaced(t, p, xs[0]);
      UnparseCommasPlaced(t, n + 1, xs[1..]);
      assert xs[1..][1..] == xs[2..];
    }
  }

  /** The next operand of a comma-led rest, ending at `k`, and what follows it. */
  lemma CommasNext(t: seq<Token>, n: nat, xs: seq<Expr>, m: nat) returns (k: nat)
    requires |xs| > 0 && AllWellFormed(xs) && CommasPlaced(t, n, xs, m) && m < |t| && Ends(t[m].kind, 7)
    ensures n + 1 < |t| && t[n].kind == COMMA && k == n + 1 + Size(xs[0]) && k < |t| && Ends(t[k].kind, 6)
    ensures WellFormed(xs[0]) && Placed(t, n + 1, xs[0]) && AllWellFormed(xs[1..]) && CommasPlaced(t, k, xs[1..], m)
  {
    k := n + 1 + Size(xs[0]);
    assert WellFormed(xs[0]) && AllWellFormed(xs[1..]);
    if |xs| > 1 {
      assert t[k].kind == COMMA;
      Closers();
    } else {
      assert k == m;
      EndsLower(t[m].kind);
    }
  }

  /** The comma loop, at a comma-led rest `, x1 ... , xk`, returns the last operand seen. */
  lemma {:induction false} CommaRestKeepsLast(t: seq<Token>, x: Expr, n: nat, xs: seq<Expr>, m: nat)
    requires Valid(t) && WellFormed(x) && AllWellFormed(xs) && n < |t|
    requires CommasPlaced(t, n, xs, m) && m < |t| && Ends(t[m].kind, 7)
    ensures ParseCommaRest(t, x, n, []) == Parsed(if |xs| == 0 then x else xs[|xs| - 1], m, [])
    decreases |xs|
  {
    if |xs| == 0 {
      CommaStop(t, x, m, []);
    } else {
      var k := CommasNext(t, n, xs, m);
      AssignmentRoundTrip(t, n + 1, xs[0], k);
      CommaStep(t, x, n, xs[0], k);
      CommaRestKeepsLast(t, xs[0], k, xs[1..], m);
    }
  }

  // ------------------------------------------------ an invalid assignment target

  /**
    `x = v`, where `x` is no variable, followed by any token that ends an
    expression (`;` or EOF, say), reports "Invalid assignment target." at
    the `=` and does not throw: the parse succeeds with `x` itself, and the
    right side is parsed and then dropped.
  */
  lemma InvalidTargetReported(t: seq<Token>, p: nat, x: Expr, v: Expr, n: nat, m: nat)
    requires Valid(t) && WellFormed(x) && Prec(x) <= 5 && !x.Variable? && WellFormed(v)
    requires p <= n < m < |t| && t[p..n] == Unparse(x) && t[n].kind == EQUAL && t[n + 1..m] == Unparse(v) && Ends(t[m].kind, 7)
    ensures ParseExpression(t, p) == Parsed(x, m, [AtToken(t[n], InvalidTarget)])
  {
    Closers();
    EndsLower(t[m].kind);
    TernarySlice(t, p, x, n);
    AssignmentSlice(t, n + 1, v, m);
    InvalidTargetAssignment(t, p, x, n, v, m);
  }

  lemma InvalidTargetAssignment(t: seq<Token>, p: nat, x: Expr, n: nat, v: Expr, m: nat)
    requires Valid(t) && p <= n && n + 1 < |t| && t[n].kind == EQUAL && !x.Variable?
    requires ParseTernary(t, p) == Parsed(x, n, []) && ParseAssignment(t, n + 1) == Parsed(v, m, [])
    requires m < |t| && t[m].kind != COMMA
    ensures ParseExpression(t, p) == Parsed(x, m, [AtToken(t[n], InvalidTarget)])
  {
    var d := [AtToken(t[n], InvalidTarget)];
    AssignmentStep(t, p, x, n);
    InvalidTargetStep(t, x, n, v, m);
    ExpressionStep(t, p, x, m, d);
    CommaStop(t, x, m, d);
  }

  lemma InvalidTargetStep(t: seq<Token>, x: Expr, n: nat, v: Expr, m: nat)
    requires Valid(t) && n + 1 < |t| && WellFormed(x) && Prec(x) <= 5 && !x.Variable? && t[n].kind == EQUAL
    requires ParseAssignment(t, n + 1) == Parsed(v, m, [])
    ensures ParseAssignValue(t, x, n, []) == Parsed(x, m, [AtToken(t[n], InvalidTarget)])
  {
    var none: seq<Diagnostic> := [];
    var report := [AtToken(t[n], InvalidTarget)];
    assert Check(t, n, EQUAL) && none + none + report == report;
  }

  // ------------------------------------------------ a conditional without ':'

  /** `c ? a` followed by EOF throws at the EOF with "Expected ':'." and nothing else reported. */
  lemma MissingColon(t: seq<Token>, p: nat, c: Expr, a: Expr, n: nat, m: nat)
    requires Valid(t) && WellFormed(c) && Prec(c) <= 4 && WellFormed(a) && Prec(a) <= 5
    requires p <= n < m < |t| && t[p..n] == Unparse(c) && t[n].kind == QUESTION && t[n + 1..m] == Unparse(a) && t[m].kind == EOF
    ensures ParseExpression(t, p) == Failed(m, [AtToken(t[m], ExpectColon)])
  {
    Closers();
    TierSlice(t, p, c, n);
    TernarySlice(t, n + 1, a, m);
    MissingColonTernary(t, p, c, n, a, m);
  }

  lemma MissingColonTernary(t: seq<Token>, p: nat, c: Expr, n: nat, a: Expr, m: nat)
    requires Valid(t) && p <= n && n + 1 < |t| && t[n].kind == QUESTION
    requires ParseTier(t, p, 4) == Parsed(c, n, []) && ParseTernary(t, n + 1) == Parsed(a, m, [])
    requires m < |t| && t[m].kind != COLON
    ensures ParseExpression(t, p) == Failed(m, [AtToken(t[m], ExpectColon)])
  {
    TernaryStep(t, p, c, n);
    BranchesStep(t, c, n, a, m);
    ElseFails(t, c, t[n], a, m);
    TernaryFails(t, p, m, [AtToken(t[m], ExpectColon)]);
  }

  lemma ElseFails(t: seq<Token>, c: Expr, question: Token, a: Expr, p: nat)
    requires Valid(t) && p < |t| && question.kind == QUESTION && t[p].kind != COLON
    requires WellFormed(c) && Prec(c) <= 4 && WellFormed(a) && Prec(a) <= 5
    ensures ParseElse(t, c, question, a, p, []) == Failed(p, [AtToken(t[p], ExpectColon)])
  {
    var none: seq<Diagnostic> := [];
    assert !Check(t, p, COLON) && none + [AtToken(t[p], ExpectColon)] == [AtToken(t[p], ExpectColon)];
  }

  // ------------------------------------------------ failures pass straight up

  lemma TernaryFails(t: seq<Token>, p: nat, q: nat, d: seq<Diagnostic>)
    requires Valid(t) && p < |t| && ParseTernary(t, p) == Failed(q, d)
    ensures ParseAssignment(t, p) == Failed(q, d) && ParseExpression(t, p) == Failed(q, d)
  {
  }

  lemma TierFourFails(t: seq<Token>, p: nat, q: nat, d: seq<Diagnostic>)
    requires Valid(t) && p < |t| && ParseTier(t, p, 4) == Failed(q, d)
    ensures ParseTernary(t, p) == Failed(q, d)
  {
  }

  // ------------------------------------------------ no operand where one is needed

  /** The kinds `primary` and `unary` accept as the first token of an operand. */
  predicate StartsExpression(kind: TokenType)
  {
    kind in {FALSE, TRUE, NIL, NUMBER, STRING, IDENTIFIER, LEFT_PAREN, BANG, MINUS}
  }

  /**
    A token that cannot start an operand, EOF included, makes every level of
    the expression grammar throw "Expected expression." right there.
  */
  lemma NoExpression(t: seq<Token>, p: nat)
    requires Valid(t) && p < |t| && !StartsExpression(t[p].kind)
    ensures ParseExpression(t, p) == Failed(p, [AtToken(t[p], ExpectExpression)])
  {
    TierFails(t, p, 4);
    TierFourFails(t, p, p, [AtToken(t[p], ExpectExpression)]);
    TernaryFails(t, p, p, [AtToken(t[p], ExpectExpression)]);
  }

  lemma {:induction false} TierFails(t: seq<Token>, p: nat, k: nat)
    requires Valid(t) && p < |t| && !StartsExpression(t[p].kind) && 1 <= k <= 4
    ensures ParseOperand(t, p, k) == Failed(p, [AtToken(t[p], ExpectExpression)])
    ensures ParseTier(t, p, k) == Failed(p, [AtToken(t[p], ExpectExpression)])
  {
    if k == 1 {
      assert ParsePrimary(t, p) == Failed(p, [AtToken(t[p], ExpectExpression)]);
      assert ParseUnary(t, p) == ParsePrimary(t, p);
    } else {
      TierFails(t, p, k - 1);
    }
  }

  // ------------------------------------------------ recovery

  lemma PrintFails(t: seq<Token>, p: nat, q: nat, d: seq<Diagnostic>)
    requires Valid(t) && p + 1 < |t| && t[p].kind == PRINT && ParseExpression(t, p + 1) == Failed(q, d)
    ensures ParseStatement(t, p) == Failed(q, d)
  {
    assert Check(t, p, PRINT);
  }

  lemma PrintParses(t: seq<Token>, p: nat, e: Expr, q: nat)
    requires Valid(t) && p + 1 < |t| && t[p].kind == PRINT && ParseExpression(t, p + 1) == Parsed(e, q, [])
    requires q < |t| && t[q].kind == SEMICOLON
    ensures ParseStatement(t, p) == Parsed(Print(e), q + 1, [])
  {
    assert Check(t, p, PRINT) && Check(t, q, SEMICOLON);
  }

  lemma DeclarationIsStatement(t: seq<Token>, p: nat, s: Stmt, q: nat, d: seq<Diagnostic>)
    requires Valid(t) && p < |t| && !AtEnd(t, p) && t[p].kind != VAR && ParseStatement(t, p) == Parsed(s, q, d)
    ensures ParseDeclaration(t, p) == Parsed(Some(s), q, d)
  {
  }

  lemma FromStep(t: seq<Token>, p: nat, s: Option<Stmt>, q: nat, d: seq<Diagnostic>)
    requires Valid(t) && p < |t| && !AtEnd(t, p) && ParseDeclaration(t, p) == Parsed(s, q, d)
    ensures q < |t|
    ensures ParseFrom(t, p) == Program([s] + ParseFrom(t, q).statements, d + ParseFrom(t, q).diagnostics)
  {
  }

  /**
    A statement that throws at a `;` is caught by `declaration`: it yields a
    null entry with the thrown diagnostics, and `synchronize` resumes right
    after that `;`.
  */
  lemma ResumesAfterSemicolon(t: seq<Token>, p: nat, q: nat, d: seq<Diagnostic>)
    requires Valid(t) && p < |t| && !AtEnd(t, p) && t[p].kind != VAR
    requires ParseStatement(t, p) == Failed(q, d) && t[q].kind == SEMICOLON
    ensures ParseDeclaration(t, p) == Parsed(None, q + 1, d)
  {
    SynchronizeAfterSemicolon(t, q);
  }

  /** `synchronize` after a throw at a `;` stops right after it. */
  lemma SynchronizeAfterSemicolon(t: seq<Token>, q: nat)
    requires Valid(t) && q < |t| && t[q].kind == SEMICOLON
    ensures Synchronize(t, q) == q + 1
  {
    assert Boundary(t, q + 1);
  }

  /** `print ;` throws "Expected expression." at the `;`, and parsing resumes after it. */
  lemma EmptyPrintRecovers(t: seq<Token>, p: nat)
    requires Valid(t) && p + 1 < |t| && t[p].kind == PRINT && t[p + 1].kind == SEMICOLON
    ensures ParseDeclaration(t, p) == Parsed(None, p + 2, [AtToken(t[p + 1], ExpectExpression)])
  {
    var d := [AtToken(t[p + 1], ExpectExpression)];
    NoExpression(t, p + 1);
    PrintFails(t, p, p + 1, d);
    ResumesAfterSemicolon(t, p, p + 1, d);
  }

  /** `print e ;` is a print statement of `e`, with nothing reported. */
  lemma PrintDeclaration(t: seq<Token>, p: nat, e: Expr, m: nat)
    requires Valid(t) && WellFormed(e) && p < m < |t| && t[p].kind == PRINT
    requires t[p + 1..m] == Unparse(e) && t[m].kind == SEMICOLON
    ensures ParseDeclaration(t, p) == Parsed(Some(Print(e)), m + 1, [])
  {
    Closers();
    ExpressionSlice(t, p + 1, e, m);
    PrintParses(t, p, e, m);
    DeclarationIsStatement(t, p, Print(e), m + 1, []);
  }

  /** A final `print e ;` before EOF is the one statement parsed from there on. */
  lemma LastPrint(t: seq<Token>, p: nat, e: Expr, m: nat)
    requires Valid(t) && WellFormed(e) && p < m && m + 1 < |t| && t[p].kind == PRINT
    requires t[p + 1..m] == Unparse(e) && t[m].kind == SEMICOLON && t[m + 1].kind == EOF
    ensures ParseFrom(t, p) == Program([Some(Print(e))], [])
  {
    PrintDeclaration(t, p, e, m);
    FromLast(t, p, Some(Print(e)), m + 1);
  }

  lemma FromLast(t: seq<Token>, p: nat, s: Option<Stmt>, q: nat)
    requires Valid(t) && p < q < |t| && t[p].kind != EOF && ParseDeclaration(t, p) == Parsed(s, q, []) && t[q].kind == EOF
    ensures ParseFrom(t, p) == Program([s], [])
  {
    var none: seq<Diagnostic> := [];
    assert ParseFrom(t, q) == Program([], []);
    assert [s] + [] == [s] && none + none == none;
  }

  lemma ParseIsFrom(t: seq<Token>)
    requires Valid(t)
    ensures Parse(t) == ParseFrom(t, 0)
  {
  }

  /**
    `print ; print e ;`: the first statement throws at the `;`, becomes a
    null entry with one diagnostic, and `synchronize` stops right after
    that `;`, so the second statement parses normally.
  */
  lemma RecoversAfterSemicolon(t: seq<Token>, e: Expr, m: nat)
    requires Valid(t) && WellFormed(e) && 3 <= m && m + 1 < |t|
    requires t[0].kind == PRINT && t[1].kind == SEMICOLON && t[2].kind == PRINT
    requires t[3..m] == Unparse(e) && t[m].kind == SEMICOLON && t[m + 1].kind == EOF
    ensures Parse(t) == Program([None, Some(Print(e))], [AtToken(t[1], ExpectExpression)])
  {
    EmptyPrintRecovers(t, 0);
    LastPrint(t, 2, e, m);
    TwoDeclarations(t, None, 2, [AtToken(t[1], ExpectExpression)], Some(Print(e)));
    ParseIsFrom(t);
  }

  /** A program whose first declaration ends at `q` and whose rest is one declaration. */
  lemma TwoDeclarations(t: seq<Token>, s1: Option<Stmt>, q: nat, d: seq<Diagnostic>, s2: Option<Stmt>)
    requires Valid(t) && !AtEnd(t, 0) && ParseDeclaration(t, 0) == Parsed(s1, q, d)
    requires q < |t| && ParseFrom(t, q) == Program([s2], [])
    ensures ParseFrom(t, 0) == Program([s1, s2], d)
  {
    FromStep(t, 0, s1, q, d);
    assert [s1] + [s2] == [s1, s2] && d + [] == d;
  }
}
