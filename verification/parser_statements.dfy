/**
  The statement half of the parser against a printer for statements:
  printing a list of well-formed declarations (`UnparseDecls`) and parsing
  the tokens gives back exactly those declarations, one entry per
  declaration and in order, with nothing reported. `var`, `print`,
  expression statements and nested blocks are all covered.
*/
module ParserStatements {
  import opened Results
  import opened Values
  import opened Tokens
  import opened Errors
  import opened Ast
  import opened Parser
  import opened ParserRoundTrip
  import ParserProperties
  import Scanner

  const PrintKeyword := Token(PRINT, "print", Nil, 1)
  const VarKeyword := Token(VAR, "var", Nil, 1)
  const Semicolon := Token(SEMICOLON, ";", Nil, 1)
  const LeftBrace := Token(LEFT_BRACE, "{", Nil, 1)
  const RightBrace := Token(RIGHT_BRACE, "}", Nil, 1)

  /** A declaration the printer can print: well formed, with no failed declaration inside. */
  predicate Printable(s: Stmt)
  {
    StmtWellFormed(s) && NullFree(s)
  }

  /** Every entry of a declaration list is present and printable. */
  predicate AllPrintable(ss: seq<Option<Stmt>>)
  {
    forall i :: 0 <= i < |ss| ==> ss[i].Some? && Printable(ss[i].value)
  }

  /** How many tokens print `s`. */
  function StmtSize(s: Stmt): nat
    decreases s, 1
  {
    match s
    case Expression(e) => Size(e) + 1
    case Print(e) => Size(e) + 2
    case Var(_, init) => if init.Some? then Size(init.value) + 4 else 3
    case Block(ss) => DeclsSize(ss) + 2
  }

  /** How many tokens print a list of declarations; a failed one prints nothing. */
  function DeclsSize(ss: seq<Option<Stmt>>): nat
    decreases ss, 0
  {
    if |ss| == 0 then 0
    else
      assert ss[0] in ss;
      (if ss[0].Some? then (assert ss[0].value < ss[0]; StmtSize(ss[0].value)) else 0) + DeclsSize(ss[1..])
  }

  /** The tokens of a statement, with the keywords and punctuation the tree does not keep. */
  function UnparseStmt(s: Stmt): (r: seq<Token>)
    ensures |r| == StmtSize(s)
    decreases s, 1
  {
    match s
    case Expression(e) => Unparse(e) + [Semicolon]
    case Print(e) => [PrintKeyword] + Unparse(e) + [Semicolon]
    case Var(name, init) =>
      if init.Some? then [VarKeyword, name, Equals] + Unparse(init.value) + [Semicolon]
      else [VarKeyword, name, Semicolon]
    case Block(ss) => [LeftBrace] + UnparseDecls(ss) + [RightBrace]
  }

  /** The tokens of a list of declarations, one after the other. */
  function UnparseDecls(ss: seq<Option<Stmt>>): (r: seq<Token>)
    ensures |r| == DeclsSize(ss)
    decreases ss, 0
  {
    if |ss| == 0 then []
    else
      assert ss[0] in ss;
      (if ss[0].Some? then (assert ss[0].value < ss[0]; UnparseStmt(ss[0].value)) else []) + UnparseDecls(ss[1..])
  }

  /** The tokens that print `s` lie in `t` from position `p` on, stated token by token. */
  predicate StmtPlaced(t: seq<Token>, p: nat, s: Stmt)
    decreases s, 1
  {
    match s
    case Expression(e) =>
      Placed(t, p, e) && p + Size(e) < |t| && t[p + Size(e)] == Semicolon
    case Print(e) =>
      && p < |t| && t[p] == PrintKeyword && Placed(t, p + 1, e)
      && p + 1 + Size(e) < |t| && t[p + 1 + Size(e)] == Semicolon
    case Var(name, init) =>
      && p + 2 < |t| && t[p] == VarKeyword && t[p + 1] == name
      && if init.Some? then
           && t[p + 2] == Equals && Placed(t, p + 3, init.value)
           && p + 3 + Size(init.value) < |t| && t[p + 3 + Size(init.value)] == Semicolon
         else t[p + 2] == Semicolon
    case Block(ss) =>
      && p < |t| && t[p] == LeftBrace && DeclsPlaced(t, p + 1, ss)
      && p + 1 + DeclsSize(ss) < |t| && t[p + 1 + DeclsSize(ss)] == RightBrace
  }

  /** The declarations `ss`, all present, lie in `t` one after the other from position `p` on. */
  predicate DeclsPlaced(t: seq<Token>, p: nat, ss: seq<Option<Stmt>>)
    decreases ss, 0
  {
    if |ss| == 0 then p <= |t|
    else
      assert ss[0] in ss;
      ss[0].Some? && (assert ss[0].value < ss[0]; StmtPlaced(t, p, ss[0].value)) && DeclsPlaced(t, p + StmtSize(ss[0].value), ss[1..])
  }

  // ------------------------------------------------ where the printed tokens are

  /** Wherever the printed tokens of `s` occur, `s` is placed there. */
  lemma {:induction false} UnparseStmtPlaced(t: seq<Token>, p: nat, s: Stmt)
    requires NullFree(s) && At(t, p, UnparseStmt(s))
    ensures StmtPlaced(t, p, s)
    decreases s, 1
  {
    match s
    case Expression(e) =>
      AtSplit(t, p, Unparse(e), [Semicolon]);
      UnparsePlaced(t, p, e);
    case Print(e) =>
      AtSplit(t, p, [PrintKeyword] + Unparse(e), [Semicolon]);
      AtSplit(t, p, [PrintKeyword], Unparse(e));
      UnparsePlaced(t, p + 1, e);
    case Var(name, init) =>
      var head := [VarKeyword, name];
      if init.Some? {
        assert [VarKeyword, name, Equals] == head + [Equals];
        AtSplit(t, p, head + [Equals] + Unparse(init.value), [Semicolon]);
        AtSplit(t, p, head + [Equals], Unparse(init.value));
        AtSplit(t, p, head, [Equals]);
        UnparsePlaced(t, p + 3, init.value);
      } else {
        assert [VarKeyword, name, Semicolon] == head + [Semicolon];
        AtSplit(t, p, head, [Semicolon]);
      }
      assert head[1..] == [name];
    case Block(ss) =>
      AtSplit(t, p, [LeftBrace] + UnparseDecls(ss), [RightBrace]);
      AtSplit(t, p, [LeftBrace], UnparseDecls(ss));
      UnparseDeclsPlaced(t, p + 1, ss);
  }

  /** Wherever the printed tokens of a null-free declaration list occur, the list is placed there. */
  lemma {:induction false} UnparseDeclsPlaced(t: seq<Token>, p: nat, ss: seq<Option<Stmt>>)
    requires (forall i :: 0 <= i < |ss| ==> ss[i].Some? && NullFree(ss[i].value)) && At(t, p, UnparseDecls(ss))
    ensures DeclsPlaced(t, p, ss)
    decreases ss, 0
  {
    if |ss| > 0 {
      var s := ss[0].value;
      assert ss[0] in ss && s < ss[0];
      AtSplit(t, p, UnparseStmt(s), UnparseDecls(ss[1..]));
      UnparseStmtPlaced(t, p, s);
      UnparseDeclsPlaced(t, p + StmtSize(s), ss[1..]);
    }
  }

  /** A placed expression begins with a token that can start one, so never with a statement keyword, `{`, `}` or EOF. */
  lemma {:induction false} LeadingToken(t: seq<Token>, p: nat, e: Expr)
    requires WellFormed(e) && Placed(t, p, e)
    ensures p < |t| && t[p].kind in {IDENTIFIER, NIL, TRUE, FALSE, NUMBER, STRING, LEFT_PAREN, BANG, MINUS}
    decreases e
  {
    match e
    case Binary(l, _, _) => LeadingToken(t, p, l);
    case Ternary(c, _, _, _, _) => LeadingToken(t, p, c);
    case _ =>
  }

  /** `s` is placed at `p`, printable, and its tokens end at `q`. */
  predicate StmtAt(t: seq<Token>, p: nat, s: Stmt, q: nat)
  {
    Valid(t) && Printable(s) && StmtPlaced(t, p, s) && q == p + StmtSize(s) && q <= |t|
  }

  /** The declarations `ss` are placed from `p` on, all printable, and their tokens end at `n`. */
  predicate DeclsAt(t: seq<Token>, p: nat, ss: seq<Option<Stmt>>, n: nat)
  {
    Valid(t) && AllPrintable(ss) && DeclsPlaced(t, p, ss) && n == p + DeclsSize(ss) && n < |t|
  }

  /**
    Parsing a declaration at `p`, which holds neither `}` nor EOF, gives `s`,
    stops at `q` and reports nothing.
  */
  predicate Declares(t: seq<Token>, p: nat, s: Stmt, q: nat)
  {
    && Valid(t) && p < |t| && t[p].kind !in {RIGHT_BRACE, EOF}
    && ParseDeclaration(t, p) == Parsed(Some(s), q, [])
  }

  // ------------------------------------------------ one step of each statement function

  lemma ExpressionStmtStep(t: seq<Token>, p: nat, e: Expr, q: nat)
    requires Valid(t) && p < |t| && t[p].kind !in {PRINT, LEFT_BRACE}
    requires ParseExpression(t, p) == Parsed(e, q, []) && t[q].kind == SEMICOLON
    ensures ParseStatement(t, p) == Parsed(Expression(e), q + 1, [])
  {
    assert !Check(t, p, PRINT) && !Check(t, p, LEFT_BRACE) && Check(t, q, SEMICOLON);
  }

  lemma PrintStmtStep(t: seq<Token>, p: nat, e: Expr, q: nat)
    requires Valid(t) && p + 1 < |t| && t[p].kind == PRINT
    requires ParseExpression(t, p + 1) == Parsed(e, q, []) && t[q].kind == SEMICOLON
    ensures ParseStatement(t, p) == Parsed(Print(e), q + 1, [])
  {
    assert Check(t, p, PRINT) && Check(t, q, SEMICOLON);
  }

  lemma BlockStmtStep(t: seq<Token>, p: nat, ss: seq<Option<Stmt>>, q: nat)
    requires Valid(t) && p + 1 < |t| && t[p].kind == LEFT_BRACE
    requires ParseBlock(t, p + 1) == Parsed(ss, q, [])
    ensures ParseStatement(t, p) == Parsed(Block(ss), q, [])
  {
    assert !Check(t, p, PRINT) && Check(t, p, LEFT_BRACE);
  }

  lemma VarInitStep(t: seq<Token>, p: nat, e: Expr, q: nat)
    requires Valid(t) && p + 2 < |t| && t[p].kind == IDENTIFIER && t[p + 1].kind == EQUAL
    requires ParseExpression(t, p + 2) == Parsed(e, q, []) && t[q].kind == SEMICOLON
    ensures ParseVarDeclaration(t, p) == Parsed(Var(t[p], Some(e)), q + 1, [])
  {
    assert Check(t, p, IDENTIFIER) && Check(t, p + 1, EQUAL) && Check(t, q, SEMICOLON);
  }

  lemma VarBareStep(t: seq<Token>, p: nat)
    requires Valid(t) && p + 1 < |t| && t[p].kind == IDENTIFIER && t[p + 1].kind == SEMICOLON
    ensures ParseVarDeclaration(t, p) == Parsed(Var(t[p], None), p + 2, [])
  {
    assert Check(t, p, IDENTIFIER) && !Check(t, p + 1, EQUAL) && Check(t, p + 1, SEMICOLON);
  }

  lemma VarDeclarationStep(t: seq<Token>, p: nat, s: Stmt, q: nat)
    requires Valid(t) && p + 1 < |t| && t[p].kind == VAR && ParseVarDeclaration(t, p + 1) == Parsed(s, q, [])
    ensures Declares(t, p, s, q)
  {
    assert Check(t, p, VAR);
  }

  lemma StatementStep(t: seq<Token>, p: nat, s: Stmt, q: nat)
    requires Valid(t) && p < |t| && t[p].kind !in {VAR, EOF, RIGHT_BRACE} && ParseStatement(t, p) == Parsed(s, q, [])
    ensures Declares(t, p, s, q)
  {
    assert !Check(t, p, VAR);
  }

  lemma BlockEntryStep(t: seq<Token>, p: nat, s: Stmt, q: nat, rest: seq<Option<Stmt>>, m: nat)
    requires Declares(t, p, s, q) && q < |t| && ParseBlock(t, q) == Parsed(rest, m, [])
    ensures ParseBlock(t, p) == Parsed([Some(s)] + rest, m, [])
  {
    var none: seq<Diagnostic> := [];
    assert !Check(t, p, RIGHT_BRACE) && !AtEnd(t, p) && none + none == none;
  }

  lemma BlockEndStep(t: seq<Token>, p: nat)
    requires Valid(t) && p < |t| && t[p].kind == RIGHT_BRACE
    ensures ParseBlock(t, p) == Parsed([], p + 1, [])
  {
    assert Check(t, p, RIGHT_BRACE);
  }

  lemma ProgramEntryStep(t: seq<Token>, p: nat, s: Stmt, q: nat, rest: seq<Option<Stmt>>)
    requires Declares(t, p, s, q) && q < |t| && ParseFrom(t, q) == Program(rest, [])
    ensures ParseFrom(t, p) == Program([Some(s)] + rest, [])
  {
    var none: seq<Diagnostic> := [];
    assert none + none == none;
  }

  lemma ProgramEndStep(t: seq<Token>, p: nat)
    requires Valid(t) && p < |t| && t[p].kind == EOF
    ensures ParseFrom(t, p) == Program([], [])
  {
  }

  // ------------------------------------------------ each kind of declaration

  /** `e ;` is the expression statement of `e`. */
  lemma ExpressionStmtRoundTrip(t: seq<Token>, p: nat, e: Expr, q: nat)
    requires StmtAt(t, p, Expression(e), q)
    ensures Declares(t, p, Expression(e), q)
  {
    var n := p + Size(e);
    assert WellFormed(e) && Placed(t, p, e) && t[n] == Semicolon;
    LeadingToken(t, p, e);
    ParserProperties.Closers();
    ExpressionRoundTrip(t, p, e, n);
    ExpressionStmtStep(t, p, e, n);
    StatementStep(t, p, Expression(e), n + 1);
  }

  /** `print e ;` is the print statement of `e`. */
  lemma PrintStmtRoundTrip(t: seq<Token>, p: nat, e: Expr, q: nat)
    requires StmtAt(t, p, Print(e), q)
    ensures Declares(t, p, Print(e), q)
  {
    var n := p + 1 + Size(e);
    assert WellFormed(e) && Placed(t, p + 1, e) && t[p] == PrintKeyword && t[n] == Semicolon;
    ParserProperties.Closers();
    ExpressionRoundTrip(t, p + 1, e, n);
    PrintStmtStep(t, p, e, n);
    StatementStep(t, p, Print(e), n + 1);
  }

  /** `var x = e ;` declares `x` initialised by `e`. */
  lemma VarInitRoundTrip(t: seq<Token>, p: nat, name: Token, e: Expr, q: nat)
    requires StmtAt(t, p, Var(name, Some(e)), q)
    ensures Declares(t, p, Var(name, Some(e)), q)
  {
    var n := p + 3 + Size(e);
    assert t[p] == VarKeyword && t[p + 1] == name && name.kind == IDENTIFIER && t[p + 2] == Equals;
    assert WellFormed(e) && Placed(t, p + 3, e) && t[n] == Semicolon;
    ParserProperties.Closers();
    ExpressionRoundTrip(t, p + 3, e, n);
    VarInitStep(t, p + 1, e, n);
    VarDeclarationStep(t, p, Var(name, Some(e)), n + 1);
  }

  /** `var x ;` declares `x` with no initialiser. */
  lemma VarBareRoundTrip(t: seq<Token>, p: nat, name: Token, q: nat)
    requires StmtAt(t, p, Var(name, None), q)
    ensures Declares(t, p, Var(name, None), q)
  {
    assert t[p] == VarKeyword && t[p + 1] == name && name.kind == IDENTIFIER && t[p + 2] == Semicolon;
    VarBareStep(t, p + 1);
    VarDeclarationStep(t, p, Var(name, None), p + 3);
  }

  /** Any printed declaration parses back to itself, ending right after its tokens. */
  lemma {:induction false} StmtRoundTrip(t: seq<Token>, p: nat, s: Stmt, q: nat)
    requires StmtAt(t, p, s, q)
    ensures Declares(t, p, s, q)
    decreases s, 2
  {
    match s
    case Expression(e) => ExpressionStmtRoundTrip(t, p, e, q);
    case Print(e) => PrintStmtRoundTrip(t, p, e, q);
    case Var(name, init) =>
      if init.Some? {
        VarInitRoundTrip(t, p, name, init.value, q);
      } else {
        VarBareRoundTrip(t, p, name, q);
      }
    case Block(ss) => BlockRoundTrip(t, p, ss, q);
  }

  /** `{ ss }` is the block of exactly the declarations `ss`. */
  lemma {:induction false} BlockRoundTrip(t: seq<Token>, p: nat, ss: seq<Option<Stmt>>, q: nat)
    requires StmtAt(t, p, Block(ss), q)
    ensures Declares(t, p, Block(ss), q)
    decreases Block(ss), 1
  {
    var n := p + 1 + DeclsSize(ss);
    assert t[p] == LeftBrace && t[n] == RightBrace && q == n + 1;
    assert DeclsAt(t, p + 1, ss, n);
    BlockBodyRoundTrip(t, p + 1, ss, n);
    BlockStmtStep(t, p, ss, q);
    StatementStep(t, p, Block(ss), q);
  }

  /** A non-empty placed list splits into its placed first declaration and the placed rest. */
  lemma DeclsHead(t: seq<Token>, p: nat, ss: seq<Option<Stmt>>, n: nat) returns (s: Stmt, q: nat)
    requires DeclsAt(t, p, ss, n) && |ss| > 0
    ensures ss == [Some(s)] + ss[1..] && ss[0] in ss && s < ss[0]
    ensures StmtAt(t, p, s, q) && DeclsAt(t, q, ss[1..], n)
  {
    s := ss[0].value;
    q := p + StmtSize(s);
    assert ss[0] in ss;
    assert AllPrintable(ss[1..]) by {
      forall i | 0 <= i < |ss[1..]| ensures ss[1..][i].Some? && Printable(ss[1..][i].value) {
        assert ss[1..][i] == ss[i + 1];
      }
    }
    assert [Some(s)] + ss[1..] == ss;
  }

  /** The declarations of a block, followed by `}`, parse to the block's entries and consume the `}`. */
  lemma {:induction false} BlockBodyRoundTrip(t: seq<Token>, p: nat, ss: seq<Option<Stmt>>, n: nat)
    requires DeclsAt(t, p, ss, n) && t[n].kind == RIGHT_BRACE
    ensures ParseBlock(t, p) == Parsed(ss, n + 1, [])
    decreases ss, 0
  {
    if |ss| == 0 {
      BlockEndStep(t, p);
    } else {
      var s, q := DeclsHead(t, p, ss, n);
      StmtRoundTrip(t, p, s, q);
      BlockBodyRoundTrip(t, q, ss[1..], n);
      BlockEntryStep(t, p, s, q, ss[1..], n + 1);
    }
  }

  /** Printed declarations followed by EOF parse to one entry per declaration, in order. */
  lemma {:induction false} ProgramRoundTrip(t: seq<Token>, p: nat, ss: seq<Option<Stmt>>, n: nat)
    requires DeclsAt(t, p, ss, n) && t[n].kind == EOF
    ensures ParseFrom(t, p) == Program(ss, [])
    decreases ss
  {
    if |ss| == 0 {
      ProgramEndStep(t, p);
    } else {
      var s, q := DeclsHead(t, p, ss, n);
      StmtRoundTrip(t, p, s, q);
      ProgramRoundTrip(t, q, ss[1..], n);
      ProgramEntryStep(t, p, s, q, ss[1..]);
    }
  }

  /**
    Every list of printable declarations, printed and followed by EOF,
    parses back to exactly that list: one entry per declaration, in order,
    with nothing reported.
  */
  lemma ParseUnparseProgram(ss: seq<Option<Stmt>>)
    requires AllPrintable(ss)
    ensures Parse(UnparseDecls(ss) + [Scanner.EofToken]) == Program(ss, [])
    ensures |Parse(UnparseDecls(ss) + [Scanner.EofToken]).statements| == |ss|
  {
    var t := UnparseDecls(ss) + [Scanner.EofToken];
    var n := DeclsSize(ss);
    assert t[0..n] == UnparseDecls(ss);
    SliceAt(t, 0, UnparseDecls(ss));
    UnparseDeclsPlaced(t, 0, ss);
    ProgramRoundTrip(t, 0, ss, n);
    assert Parse(t) == ParseFrom(t, 0);
  }
}
