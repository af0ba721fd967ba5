/**
  The parser against an independent description of the trees it builds:
  printing a well-formed tree back to tokens (`Unparse`) and parsing those
  tokens gives the same tree, with nothing reported. Since `WellFormed`
  fixes precedence and associativity, this says that the parser groups
  operators exactly as the grammar's levels say.
*/
module ParserRoundTrip {
  import opened Results
  import opened Values
  import opened Tokens
  import opened Errors
  import opened Ast
  import opened Parser
  import Scanner

  const LeftParen := Token(LEFT_PAREN, "(", Nil, 1)
  const RightParen := Token(RIGHT_PAREN, ")", Nil, 1)
  const Equals := Token(EQUAL, "=", Nil, 1)

  /**
    A token that `primary` turns into the literal `v`. A number token's
    lexeme is left empty: the parser reads only its literal.
  */
  function LiteralToken(v: Value): Token
  {
    match v
    case Nil => Token(NIL, "nil", Nil, 1)
    case Bool(b) => if b then Token(TRUE, "true", Nil, 1) else Token(FALSE, "false", Nil, 1)
    case Num(_) => Token(NUMBER, "", v, 1)
    case Str(s) => Token(STRING, "\"" + s + "\"", v, 1)
  }

  /** How many tokens print `e`. */
  function Size(e: Expr): nat
  {
    match e
    case Assign(_, v) => Size(v) + 2
    case Binary(l, _, r) => Size(l) + 1 + Size(r)
    case Ternary(c, _, a, _, b) => Size(c) + Size(a) + Size(b) + 2
    case Grouping(inner) => Size(inner) + 2
    case Literal(_) => 1
    case Unary(_, r) => Size(r) + 1
    case Variable(_) => 1
  }

  /** The tokens of an expression, with the parentheses and `=` that the tree does not keep. */
  function Unparse(e: Expr): (r: seq<Token>)
    ensures |r| == Size(e)
  {
    match e
    case Assign(name, v) => [name, Equals] + Unparse(v)
    case Binary(l, op, r) => Unparse(l) + [op] + Unparse(r)
    case Ternary(c, q, a, col, b) => Unparse(c) + [q] + Unparse(a) + [col] + Unparse(b)
    case Grouping(inner) => [LeftParen] + Unparse(inner) + [RightParen]
    case Literal(v) => [LiteralToken(v)]
    case Unary(op, r) => [op] + Unparse(r)
    case Variable(name) => [name]
  }

  /**
    The tokens that print `e` lie in `t` from position `p` on, stated token
    by token: each node's own tokens at their positions, each subtree's
    tokens where the subtrees before it end.
  */
  predicate Placed(t: seq<Token>, p: nat, e: Expr)
    decreases e
  {
    match e
    case Assign(name, v) =>
      p + 1 < |t| && t[p] == name && t[p + 1] == Equals && Placed(t, p + 2, v)
    case Binary(l, op, r) =>
      var q := p + Size(l);
      Placed(t, p, l) && q < |t| && t[q] == op && Placed(t, q + 1, r)
    case Ternary(c, q, a, col, b) =>
      var p1 := p + Size(c);
      var p2 := p1 + 1 + Size(a);
      && Placed(t, p, c) && p1 < |t| && t[p1] == q
      && Placed(t, p1 + 1, a) && p2 < |t| && t[p2] == col
      && Placed(t, p2 + 1, b)
    case Grouping(inner) =>
      var q := p + 1 + Size(inner);
      p < |t| && t[p] == LeftParen && Placed(t, p + 1, inner) && q < |t| && t[q] == RightParen
    case Literal(v) => p < |t| && t[p] == LiteralToken(v)
    case Unary(op, r) => p < |t| && t[p] == op && Placed(t, p + 1, r)
    case Variable(name) => p < |t| && t[p] == name
  }

  /**
    A token of `kind` right after an expression ends it at grammar level
    `level` (0 unary, 1-4 the binary tiers, 5 ternary, 6 assignment,
    7 expression): no operator of that level or a tighter one can continue it.
  */
  predicate Ends(kind: TokenType, level: nat)
  {
    && !(1 <= TierOf(kind) <= level)
    && (level >= 5 ==> kind != QUESTION)
    && (level >= 6 ==> kind != EQUAL)
    && (level >= 7 ==> kind != COMMA)
  }

  // ------------------------------------------------ where the printed tokens are

  /** `s` occurs in `t` from position `p` on, token by token. */
  predicate At(t: seq<Token>, p: nat, s: seq<Token>)
    decreases |s|
  {
    if |s| == 0 then p <= |t| else p < |t| && t[p] == s[0] && At(t, p + 1, s[1..])
  }

  /** A slice of `t` occurs where it was taken. */
  lemma {:induction false} SliceAt(t: seq<Token>, p: nat, s: seq<Token>)
    requires p + |s| <= |t| && t[p..p + |s|] == s
    ensures At(t, p, s)
    decreases |s|
  {
    if |s| > 0 {
      assert t[p] == s[0];
      assert t[p + 1..p + 1 + |s[1..]|] == s[1..];
      SliceAt(t, p + 1, s[1..]);
    }
  }

  /** An occurrence of `a + b` is an occurrence of `a` followed by one of `b`. */
  lemma {:induction false} AtSplit(t: seq<Token>, p: nat, a: seq<Token>, b: seq<Token>)
    requires At(t, p, a + b)
    ensures At(t, p, a) && At(t, p + |a|, b)
    decreases |a|
  {
    if |a| == 0 {
      assert a + b == b;
    } else {
      assert (a + b)[0] == a[0];
      assert (a + b)[1..] == a[1..] + b;
      AtSplit(t, p + 1, a[1..], b);
    }
  }

  /** Wherever the printed tokens of `e` occur, `e` is placed there. */
  lemma {:induction false} UnparsePlaced(t: seq<Token>, p: nat, e: Expr)
    requires At(t, p, Unparse(e))
    ensures Placed(t, p, e)
    decreases e, 1
  {
    match e
    case Assign(name, v) =>
      AtSplit(t, p, [name, Equals], Unparse(v));
      assert [name, Equals][1..] == [Equals];
      UnparsePlaced(t, p + 2, v);
    case Binary(l, op, r) =>
      AtSplit(t, p, Unparse(l) + [op], Unparse(r));
      AtSplit(t, p, Unparse(l), [op]);
      UnparsePlaced(t, p, l);
      UnparsePlaced(t, p + Size(l) + 1, r);
    case Ternary(c, q, a, col, b) =>
      UnparsePlacedTernary(t, p, c, q, a, col, b);
    case Grouping(inner) =>
      AtSplit(t, p, [LeftParen] + Unparse(inner), [RightParen]);
      AtSplit(t, p, [LeftParen], Unparse(inner));
      UnparsePlaced(t, p + 1, inner);
    case Literal(v) =>
    case Unary(op, r) =>
      AtSplit(t, p, [op], Unparse(r));
      UnparsePlaced(t, p + 1, r);
    case Variable(name) =>
  }

  lemma {:induction false} UnparsePlacedTernary(t: seq<Token>, p: nat, c: Expr, q: Token, a: Expr, col: Token, b: Expr)
    requires At(t, p, Unparse(Ternary(c, q, a, col, b)))
    ensures Placed(t, p, Ternary(c, q, a, col, b))
    decreases Ternary(c, q, a, col, b), 0
  {
    var p1 := p + Size(c);
    var p2 := p1 + 1 + Size(a);
    var s1 := Unparse(c) + [q];
    var s2 := s1 + Unparse(a);
    AtSplit(t, p, s2 + [col], Unparse(b));
    AtSplit(t, p, s2, [col]);
    AtSplit(t, p, s1, Unparse(a));
    AtSplit(t, p, Unparse(c), [q]);
    UnparsePlaced(t, p, c);
    UnparsePlaced(t, p1 + 1, a);
    UnparsePlaced(t, p2 + 1, b);
  }

  // ------------------------------------------------ left-associative chains

  /** The leftmost operand of the chain of tier-`k` operators at the top of `e`. */
  function Spine(e: Expr, k: nat): Expr
  {
    if e.Binary? && TierOf(e.operator.kind) == k then Spine(e.left, k) else e
  }

  // ------------------------------------------------ one step of each parsing function

  lemma LiteralStep(t: seq<Token>, p: nat, v: Value)
    requires Valid(t) && p < |t| && t[p] == LiteralToken(v)
    ensures ParsePrimary(t, p) == Parsed(Literal(v), p + 1, [])
  {
  }

  lemma GroupingStep(t: seq<Token>, p: nat, inner: Expr, q: nat)
    requires Valid(t) && p + 1 < |t| && t[p].kind == LEFT_PAREN
    requires ParseExpression(t, p + 1) == Parsed(inner, q, []) && t[q].kind == RIGHT_PAREN
    ensures ParsePrimary(t, p) == Parsed(Grouping(inner), q + 1, [])
  {
    assert !Check(t, p, FALSE) && !Check(t, p, TRUE) && !Check(t, p, NIL);
    assert !Check(t, p, NUMBER) && !Check(t, p, STRING) && !Check(t, p, IDENTIFIER);
    assert Check(t, p, LEFT_PAREN) && Check(t, q, RIGHT_PAREN);
    assert ParseGrouping(t, p + 1) == Parsed(Grouping(inner), q + 1, []);
  }

  lemma UnaryStep(t: seq<Token>, p: nat, r: Expr, q: nat)
    requires Valid(t) && p + 1 < |t| && t[p].kind in {BANG, MINUS}
    requires ParseUnary(t, p + 1) == Parsed(r, q, [])
    ensures ParseUnary(t, p) == Parsed(Unary(t[p], r), q, [])
  {
  }

  lemma UnaryIsPrimary(t: seq<Token>, p: nat)
    requires Valid(t) && p < |t| && t[p].kind !in {BANG, MINUS}
    ensures ParseUnary(t, p) == ParsePrimary(t, p)
  {
  }

  lemma OperandIsUnary(t: seq<Token>, p: nat)
    requires Valid(t) && p < |t|
    ensures ParseOperand(t, p, 1) == ParseUnary(t, p)
  {
  }

  lemma OperandIsTier(t: seq<Token>, p: nat, k: nat)
    requires Valid(t) && p < |t| && 2 <= k <= 4
    ensures ParseOperand(t, p, k) == ParseTier(t, p, k - 1)
  {
  }

  lemma TierStep(t: seq<Token>, p: nat, k: nat, s: Expr, q: nat)
    requires Valid(t) && p < |t| && 1 <= k <= 4
    requires ParseOperand(t, p, k) == Parsed(s, q, [])
    ensures q < |t| && WellFormed(s) && Prec(s) <= k
    ensures ParseTier(t, p, k) == ParseTierRest(t, s, q, [], k)
  {
  }

  lemma TierRestStep(t: seq<Token>, e: Expr, p: nat, k: nat, r: Expr, q: nat)
    requires Valid(t) && p + 1 < |t| && 1 <= k <= 4 && WellFormed(e) && Prec(e) <= k
    requires TierOf(t[p].kind) == k && ParseOperand(t, p + 1, k) == Parsed(r, q, [])
    ensures q < |t| && WellFormed(Binary(e, t[p], r)) && Prec(Binary(e, t[p], r)) <= k
    ensures ParseTierRest(t, e, p, [], k) == ParseTierRest(t, Binary(e, t[p], r), q, [], k)
  {
    var none: seq<Diagnostic> := [];
    assert none + none == none;
  }

  lemma TierRestStop(t: seq<Token>, e: Expr, p: nat, k: nat)
    requires Valid(t) && p < |t| && 1 <= k <= 4 && WellFormed(e) && Prec(e) <= k
    requires TierOf(t[p].kind) != k
    ensures ParseTierRest(t, e, p, [], k) == Parsed(e, p, [])
  {
  }

  lemma TernaryStep(t: seq<Token>, p: nat, c: Expr, q: nat)
    requires Valid(t) && p < |t| && ParseTier(t, p, 4) == Parsed(c, q, [])
    ensures q < |t| && WellFormed(c) && Prec(c) <= 4
    ensures ParseTernary(t, p) == ParseBranches(t, c, q, [])
  {
  }

  lemma BranchesStep(t: seq<Token>, c: Expr, p1: nat, a: Expr, p2: nat)
    requires Valid(t) && p1 + 1 < |t| && WellFormed(c) && Prec(c) <= 4 && t[p1].kind == QUESTION
    requires ParseTernary(t, p1 + 1) == Parsed(a, p2, [])
    ensures p2 < |t| && WellFormed(a) && Prec(a) <= 5
    ensures ParseBranches(t, c, p1, []) == ParseElse(t, c, t[p1], a, p2, [])
  {
    var none: seq<Diagnostic> := [];
    assert Check(t, p1, QUESTION);
    assert none + none == none;
  }

  lemma ElseStep(t: seq<Token>, c: Expr, question: Token, a: Expr, p2: nat, b: Expr, p3: nat)
    requires Valid(t) && p2 + 1 < |t| && question.kind == QUESTION && t[p2].kind == COLON
    requires WellFormed(c) && Prec(c) <= 4 && WellFormed(a) && Prec(a) <= 5
    requires ParseTernary(t, p2 + 1) == Parsed(b, p3, [])
    ensures ParseElse(t, c, question, a, p2, []) == Parsed(Ternary(c, question, a, t[p2], b), p3, [])
  {
    var none: seq<Diagnostic> := [];
    assert Check(t, p2, COLON);
    assert none + none == none;
  }

  /** The three parts of a conditional, each parsed, make the conditional parsed. */
  lemma TernaryAssembled(t: seq<Token>, p: nat, c: Expr, p1: nat, a: Expr, p2: nat, b: Expr, q: nat)
    requires Valid(t) && p < |t| && ParseTier(t, p, 4) == Parsed(c, p1, [])
    requires p1 + 1 < |t| && t[p1].kind == QUESTION && ParseTernary(t, p1 + 1) == Parsed(a, p2, [])
    requires p2 + 1 < |t| && t[p2].kind == COLON && ParseTernary(t, p2 + 1) == Parsed(b, q, [])
    ensures ParseTernary(t, p) == Parsed(Ternary(c, t[p1], a, t[p2], b), q, [])
  {
    TernaryStep(t, p, c, p1);
    BranchesStep(t, c, p1, a, p2);
    ElseStep(t, c, t[p1], a, p2, b, q);
  }

  lemma TernaryPlain(t: seq<Token>, p: nat, c: Expr, q: nat)
    requires Valid(t) && p < |t|
    requires ParseTier(t, p, 4) == Parsed(c, q, []) && t[q].kind != QUESTION
    ensures ParseTernary(t, p) == Parsed(c, q, [])
  {
  }

  lemma AssignmentStep(t: seq<Token>, p: nat, target: Expr, q: nat)
    requires Valid(t) && p < |t|
    requires ParseTernary(t, p) == Parsed(target, q, [])
    ensures q < |t| && WellFormed(target) && Prec(target) <= 5
    ensures ParseAssignment(t, p) == ParseAssignValue(t, target, q, [])
  {
  }

  lemma AssignValueStep(t: seq<Token>, name: Token, p: nat, v: Expr, q: nat)
    requires Valid(t) && p + 1 < |t| && name.kind == IDENTIFIER && t[p].kind == EQUAL
    requires ParseAssignment(t, p + 1) == Parsed(v, q, [])
    ensures ParseAssignValue(t, Variable(name), p, []) == Parsed(Assign(name, v), q, [])
  {
    var none: seq<Diagnostic> := [];
    assert Check(t, p, EQUAL) && none + none == none;
  }

  lemma AssignValueStop(t: seq<Token>, target: Expr, p: nat)
    requires Valid(t) && p < |t| && WellFormed(target) && Prec(target) <= 5 && t[p].kind != EQUAL
    ensures ParseAssignValue(t, target, p, []) == Parsed(target, p, [])
  {
  }

  lemma ExpressionPlain(t: seq<Token>, p: nat, e: Expr, q: nat)
    requires Valid(t) && p < |t|
    requires ParseAssignment(t, p) == Parsed(e, q, []) && t[q].kind != COMMA
    ensures ParseExpression(t, p) == Parsed(e, q, [])
  {
  }

  // ------------------------------------------------ the parts of a placed tree

  lemma GroupingParts(t: seq<Token>, p: nat, e: Expr, m: nat, q: nat)
    requires WellFormed(e) && e.Grouping? && Placed(t, p, e)
    requires m == p + 1 + Size(e.expression) && q == p + Size(e) && q < |t|
    ensures WellFormed(e.expression) && p + 1 < |t| && t[p].kind == LEFT_PAREN && Placed(t, p + 1, e.expression)
    ensures q == m + 1 && t[m].kind == RIGHT_PAREN && Ends(t[m].kind, 7)
  {
  }

  lemma BinaryParts(t: seq<Token>, p: nat, e: Expr, k: nat, m: nat, q: nat)
    requires WellFormed(e) && e.Binary? && TierOf(e.operator.kind) == k && 1 <= k <= 4 && Placed(t, p, e)
    requires m == p + Size(e.left) && q == p + Size(e) && q < |t|
    ensures WellFormed(e.left) && Prec(e.left) <= k && Placed(t, p, e.left)
    ensures m + 1 < |t| && TierOf(t[m].kind) == k && Ends(t[m].kind, k - 1)
    ensures WellFormed(e.right) && Prec(e.right) < k && Placed(t, m + 1, e.right) && q == m + 1 + Size(e.right)
    ensures e == Binary(e.left, t[m], e.right) && Spine(e, k) == Spine(e.left, k)
  {
  }

  lemma TernaryParts(t: seq<Token>, p: nat, e: Expr, p1: nat, p2: nat, q: nat)
    requires WellFormed(e) && e.Ternary? && Placed(t, p, e)
    requires p1 == p + Size(e.first) && p2 == p1 + 1 + Size(e.second) && q == p + Size(e) && q < |t|
    ensures WellFormed(e.first) && Prec(e.first) <= 4 && Placed(t, p, e.first)
    ensures p1 + 1 < |t| && t[p1].kind == QUESTION && Ends(t[p1].kind, 4)
    ensures WellFormed(e.second) && Prec(e.second) <= 5 && Placed(t, p1 + 1, e.second)
    ensures p2 + 1 < |t| && t[p2].kind == COLON && Ends(t[p2].kind, 5)
    ensures WellFormed(e.last) && Prec(e.last) <= 5 && Placed(t, p2 + 1, e.last) && q == p2 + 1 + Size(e.last)
    ensures e == Ternary(e.first, t[p1], e.second, t[p2], e.last)
  {
  }

  lemma AssignParts(t: seq<Token>, p: nat, e: Expr, q: nat)
    requires WellFormed(e) && e.Assign? && Placed(t, p, e) && q == p + Size(e) && q < |t|
    ensures WellFormed(Variable(e.name)) && Prec(Variable(e.name)) <= 5 && Placed(t, p, Variable(e.name))
    ensures p + 2 < |t| && t[p + 1].kind == EQUAL && Ends(t[p + 1].kind, 5) && p + 1 == p + Size(Variable(e.name))
    ensures WellFormed(e.value) && Placed(t, p + 2, e.value) && q == p + 2 + Size(e.value)
  {
  }

  // ------------------------------------------------ expressions

  lemma {:induction false} GroupingRoundTrip(t: seq<Token>, p: nat, e: Expr, q: nat)
    requires Valid(t) && WellFormed(e) && e.Grouping?
    requires Placed(t, p, e) && q == p + Size(e) && q < |t|
    ensures ParsePrimary(t, p) == Parsed(e, q, [])
    decreases Size(e), 0
  {
    var inner := e.expression;
    var m := p + 1 + Size(inner);
    GroupingParts(t, p, e, m, q);
    ExpressionRoundTrip(t, p + 1, inner, m);
    GroupingStep(t, p, inner, m);
  }

  lemma {:induction false} PrimaryRoundTrip(t: seq<Token>, p: nat, e: Expr, q: nat)
    requires Valid(t) && WellFormed(e) && (e.Literal? || e.Variable? || e.Grouping?)
    requires Placed(t, p, e) && q == p + Size(e) && q < |t|
    ensures ParsePrimary(t, p) == Parsed(e, q, [])
    decreases Size(e), 1
  {
    match e
    case Literal(v) => LiteralStep(t, p, v);
    case Variable(name) =>
    case Grouping(_) => GroupingRoundTrip(t, p, e, q);
  }

  lemma {:induction false} UnaryRoundTrip(t: seq<Token>, p: nat, e: Expr, q: nat)
    requires Valid(t) && WellFormed(e) && Prec(e) == 0
    requires Placed(t, p, e) && q == p + Size(e) && q < |t|
    ensures ParseUnary(t, p) == Parsed(e, q, [])
    decreases Size(e), 2
  {
    if e.Unary? {
      UnaryRoundTrip(t, p + 1, e.right, q);
      UnaryStep(t, p, e.right, q);
    } else {
      UnaryIsPrimary(t, p);
      PrimaryRoundTrip(t, p, e, q);
    }
  }

  lemma {:induction false} OperandRoundTrip(t: seq<Token>, p: nat, e: Expr, k: nat, q: nat)
    requires Valid(t) && 1 <= k <= 4 && WellFormed(e) && Prec(e) < k
    requires Placed(t, p, e) && q == p + Size(e) && q < |t| && Ends(t[q].kind, k - 1)
    ensures ParseOperand(t, p, k) == Parsed(e, q, [])
    decreases Size(e), 3 * k
  {
    if k == 1 {
      UnaryRoundTrip(t, p, e, q);
      OperandIsUnary(t, p);
    } else {
      TierRoundTrip(t, p, e, k - 1, q);
      OperandIsTier(t, p, k);
    }
  }

  lemma {:induction false} TierRoundTrip(t: seq<Token>, p: nat, e: Expr, k: nat, q: nat)
    requires Valid(t) && 1 <= k <= 4 && WellFormed(e) && Prec(e) <= k
    requires Placed(t, p, e) && q == p + Size(e) && q < |t| && Ends(t[q].kind, k)
    ensures ParseTier(t, p, k) == Parsed(e, q, [])
    decreases Size(e), 3 * k + 2
  {
    var s := Spine(e, k);
    var m := p + Size(s);
    SpineRoundTrip(t, p, e, k, q, s, m);
    OperandRoundTrip(t, p, s, k, m);
    TierStep(t, p, k, s, m);
    TierRestStop(t, e, q, k);
  }

  /**
    The spine of a tree of tier at most `k` is an operand of the next tighter
    tier placed where the tree starts and ended by what follows it, and the
    loop of the tier entered after it reads the rest of the chain, arriving
    where it would after all of `e`.
  */
  lemma {:induction false} SpineRoundTrip(t: seq<Token>, p: nat, e: Expr, k: nat, q: nat, s: Expr, m: nat)
    requires Valid(t) && 1 <= k <= 4 && WellFormed(e) && Prec(e) <= k
    requires Placed(t, p, e) && q == p + Size(e) && q < |t| && Ends(t[q].kind, k - 1)
    requires s == Spine(e, k) && m == p + Size(s)
    ensures WellFormed(s) && Prec(s) < k && Size(s) <= Size(e)
    ensures Placed(t, p, s) && m < |t| && Ends(t[m].kind, k - 1)
    ensures ParseTierRest(t, s, m, [], k) == ParseTierRest(t, e, q, [], k)
    decreases Size(e), 3 * k + 1
  {
    if e.Binary? && TierOf(e.operator.kind) == k {
      var l, r := e.left, e.right;
      var n := p + Size(l);
      BinaryParts(t, p, e, k, n, q);
      SpineRoundTrip(t, p, l, k, n, s, m);
      OperandRoundTrip(t, n + 1, r, k, q);
      TierRestStep(t, l, n, k, r, q);
    } else {
      assert s == e && m == q;
    }
  }

  lemma {:induction false} TernaryRoundTrip(t: seq<Token>, p: nat, e: Expr, q: nat)
    requires Valid(t) && WellFormed(e) && Prec(e) <= 5
    requires Placed(t, p, e) && q == p + Size(e) && q < |t| && Ends(t[q].kind, 5)
    ensures ParseTernary(t, p) == Parsed(e, q, [])
    decreases Size(e), 15
  {
    if e.Ternary? {
      ConditionalRoundTrip(t, p, e, q);
    } else {
      TierRoundTrip(t, p, e, 4, q);
      TernaryPlain(t, p, e, q);
    }
  }

  /** The `?:` case of the ternary level: condition, then both branches as ternaries. */
  lemma {:induction false} ConditionalRoundTrip(t: seq<Token>, p: nat, e: Expr, q: nat)
    requires Valid(t) && WellFormed(e) && e.Ternary?
    requires Placed(t, p, e) && q == p + Size(e) && q < |t| && Ends(t[q].kind, 5)
    ensures ParseTernary(t, p) == Parsed(e, q, [])
    decreases Size(e), 14
  {
    var c, a, b := e.first, e.second, e.last;
    var p1 := p + Size(c);
    var p2 := p1 + 1 + Size(a);
    TernaryParts(t, p, e, p1, p2, q);
    TierRoundTrip(t, p, c, 4, p1);
    TernaryRoundTrip(t, p1 + 1, a, p2);
    TernaryRoundTrip(t, p2 + 1, b, q);
    TernaryAssembled(t, p, c, p1, a, p2, b, q);
  }

  lemma {:induction false} AssignmentRoundTrip(t: seq<Token>, p: nat, e: Expr, q: nat)
    requires Valid(t) && WellFormed(e)
    requires Placed(t, p, e) && q == p + Size(e) && q < |t| && Ends(t[q].kind, 6)
    ensures ParseAssignment(t, p) == Parsed(e, q, [])
    decreases Size(e), 16
  {
    if e.Assign? {
      AssignParts(t, p, e, q);
      TernaryRoundTrip(t, p, Variable(e.name), p + 1);
      AssignmentRoundTrip(t, p + 2, e.value, q);
      AssignmentStep(t, p, Variable(e.name), p + 1);
      AssignValueStep(t, e.name, p + 1, e.value, q);
    } else {
      TernaryRoundTrip(t, p, e, q);
      AssignmentStep(t, p, e, q);
      AssignValueStop(t, e, q);
    }
  }

  lemma {:induction false} ExpressionRoundTrip(t: seq<Token>, p: nat, e: Expr, q: nat)
    requires Valid(t) && WellFormed(e)
    requires Placed(t, p, e) && q == p + Size(e) && q < |t| && Ends(t[q].kind, 7)
    ensures ParseExpression(t, p) == Parsed(e, q, [])
    decreases Size(e), 18
  {
    AssignmentRoundTrip(t, p, e, q);
    ExpressionPlain(t, p, e, q);
  }

  /** A token list that starts with the printed form of `e` and has EOF right after it parses back to `e`. */
  lemma PrintedRoundTrip(t: seq<Token>, e: Expr, n: nat)
    requires Valid(t) && WellFormed(e) && n == Size(e) && n < |t| && t[n].kind == EOF
    requires At(t, 0, Unparse(e))
    ensures ParseExpression(t, 0) == Parsed(e, n, [])
  {
    UnparsePlaced(t, 0, e);
    ExpressionRoundTrip(t, 0, e, n);
  }

  /** Every well-formed expression, printed and followed by EOF, parses back to itself with nothing reported. */
  lemma ParseUnparse(e: Expr)
    requires WellFormed(e)
    ensures ParseExpression(Unparse(e) + [Scanner.EofToken], 0) == Parsed(e, |Unparse(e)|, [])
  {
    var t := Unparse(e) + [Scanner.EofToken];
    assert t[0..Size(e)] == Unparse(e);
    SliceAt(t, 0, Unparse(e));
    PrintedRoundTrip(t, e, Size(e));
  }
}
