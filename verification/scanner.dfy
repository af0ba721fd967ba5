/**
  The scanner (Scanner.java) as written, over Unicode code points: one forward pass over the
  source that recognises punctuation, one- and two-character operators and
  `//` comments. Identifiers, numbers, strings and keywords are never
  produced, whitespace is reported as an unexpected character, and the line
  counter is never advanced.
*/
module Scanner {
  import opened Results
  import opened Values
  import opened Tokens
  import opened Errors

  /** The `line` field starts at 1 and no branch of the scanner increments it. */
  const Line: int := 1

  const UnexpectedCharacter: string := "Unexpected character."

  /** Characters with a case in `scanToken`'s switch. */
  predicate Recognised(c: char)
  {
    c in {'!', '(', ')', '*', '+', ',', '-', '.', '/', ';', '<', '=', '>', '{', '}'}
  }

  /** Characters whose case calls `match('=')`. */
  predicate LooksAhead(c: char)
  {
    c in {'!', '<', '=', '>'}
  }

  /** The outcome of one `scanToken` call: the new cursor and what was emitted. */
  datatype Step = Step(next: nat, token: Option<Token>, diagnostic: Option<Diagnostic>)

  datatype Scanned = Scanned(tokens: seq<Token>, diagnostics: seq<Diagnostic>)

  /** `addToken(kind)`: the lexeme is the source text from `start` to the cursor. */
  function Emit(source: string, start: nat, next: nat, kind: TokenType): Step
    requires start <= next <= |source|
  {
    Step(next, Some(Token(kind, source[start..next], Nil, Line)), None)
  }

  /** `match(expected)` at the cursor: does the next character exist and equal `expected`? */
  predicate NextIs(source: string, current: nat, expected: char)
  {
    current < |source| && source[current] == expected
  }

  /** The loop of the `//` case: the cursor stops at the next newline or at the end. */
  function SkipComment(source: string, current: nat): (end: nat)
    requires current <= |source|
    ensures current <= end <= |source|
    ensures end == |source| || source[end] == '\n'
    ensures forall k :: current <= k < end ==> source[k] != '\n'
    decreases |source| - current
  {
    if current < |source| && source[current] != '\n' then SkipComment(source, current + 1)
    else current
  }

  /** A `//` comment starts at `start`. */
  predicate CommentAt(source: string, start: nat)
  {
    start < |source| && source[start] == '/' && NextIs(source, start + 1, '/')
  }

  /** The one-character cases of `scanToken`'s switch that never look ahead. */
  function SingleKind(c: char): (r: Option<TokenType>)
    ensures r.Some? <==> Recognised(c) && !LooksAhead(c)
    ensures r.Some? ==> OperatorLexeme(r.value) == Some([c])
  {
    match c
    case '(' => Some(LEFT_PAREN)
    case ')' => Some(RIGHT_PAREN)
    case '*' => Some(STAR)
    case '+' => Some(PLUS)
    case ',' => Some(COMMA)
    case '-' => Some(MINUS)
    case '.' => Some(DOT)
    case '/' => Some(SLASH)
    case ';' => Some(SEMICOLON)
    case '{' => Some(LEFT_BRACE)
    case '}' => Some(RIGHT_BRACE)
    case _ => None
  }

  /** The cases of `scanToken` that call `match('=')`: the kinds with and without the `=`. */
  function EqualKinds(c: char): (r: Option<(TokenType, TokenType)>)
    ensures r.Some? <==> LooksAhead(c)
    ensures r.Some? ==> OperatorLexeme(r.value.0) == Some([c, '=']) && OperatorLexeme(r.value.1) == Some([c])
  {
    match c
    case '!' => Some((BANG_EQUAL, BANG))
    case '<' => Some((LESS_EQUAL, LESS))
    case '=' => Some((EQUAL_EQUAL, EQUAL))
    case '>' => Some((GREATER_EQUAL, GREATER))
    case _ => None
  }

  /** `scanToken`: consume one lexeme (or one comment, or one bad character) at `start`. */
  function ScanToken(source: string, start: nat): (r: Step)
    requires start < |source|
    ensures start < r.next <= |source|
    ensures r.token.Some? ==>
              && r.diagnostic.None?
              && r.token.value == Token(r.token.value.kind, source[start..r.next], Nil, Line)
              && OperatorLexeme(r.token.value.kind) == Some(source[start..r.next])
    ensures r.diagnostic.Some? <==> !Recognised(source[start])
    ensures r.diagnostic.Some? ==> r == Step(start + 1, None, Some(AtLine(Line, UnexpectedCharacter)))
    ensures LooksAhead(source[start]) ==>
              && r.token.Some?
              && (r.next == start + 2 <==> NextIs(source, start + 1, '='))
              && (r.next == start + 1 <==> !NextIs(source, start + 1, '='))
    ensures CommentAt(source, start) ==>
              && r.token.None? && r.diagnostic.None?
              && (r.next == |source| || source[r.next] == '\n')
              && (forall k :: start <= k < r.next ==> source[k] != '\n')
    ensures Recognised(source[start]) && !LooksAhead(source[start]) && !CommentAt(source, start) ==>
              r.token.Some? && r.next == start + 1
  {
    var c := source[start];
    if CommentAt(source, start) then
      Step(SkipComment(source, start + 2), None, None)
    else if EqualKinds(c).Some? then
      var (withEqual, alone) := EqualKinds(c).value;
      if NextIs(source, start + 1, '=') then
        assert source[start..start + 2] == [c, '='];
        Emit(source, start, start + 2, withEqual)
      else
        assert source[start..start + 1] == [c];
        Emit(source, start, start + 1, alone)
    else if SingleKind(c).Some? then
      assert source[start..start + 1] == [c];
      Emit(source, start, start + 1, SingleKind(c).value)
    else
      Step(start + 1, None, Some(AtLine(Line, UnexpectedCharacter)))
  }

  /** A token the loop of `scanTokens` may emit: an operator spelled by its lexeme, on line 1, with no literal. */
  predicate ScannedToken(t: Token)
  {
    && t.kind != EOF
    && OperatorLexeme(t.kind) == Some(t.lexeme)
    && t.literal == Nil
    && t.line == Line
  }

  /** The loop of `scanTokens` from cursor `current` to the end of the source. */
  function ScanFrom(source: string, current: nat): (r: Scanned)
    requires current <= |source|
    ensures forall i :: 0 <= i < |r.tokens| ==> ScannedToken(r.tokens[i])
    ensures forall i :: 0 <= i < |r.diagnostics| ==> r.diagnostics[i] == AtLine(Line, UnexpectedCharacter)
    ensures |r.tokens| + |r.diagnostics| <= |source| - current
    decreases |source| - current
  {
    if current >= |source| then Scanned([], [])
    else
      var step := ScanToken(source, current);
      var rest := ScanFrom(source, step.next);
      Scanned(
        (if step.token.Some? then [step.token.value] else []) + rest.tokens,
        (if step.diagnostic.Some? then [step.diagnostic.value] else []) + rest.diagnostics)
  }

  /** The end-of-input marker appended after the loop. */
  const EofToken: Token := Token(EOF, "", Nil, Line)

  /** `scanTokens`: the whole source, followed by exactly one EOF token. */
  function ScanTokens(source: string): (r: Scanned)
    ensures |r.tokens| >= 1 && r.tokens[|r.tokens| - 1] == EofToken
    ensures forall i :: 0 <= i < |r.tokens| - 1 ==> ScannedToken(r.tokens[i])
    ensures forall i :: 0 <= i < |r.tokens| ==> r.tokens[i].line == 1
    ensures |r.tokens| - 1 <= |source|
  {
    var body := ScanFrom(source, 0);
    Scanned(body.tokens + [EofToken], body.diagnostics)
  }

  /** The lexemes of a token list, concatenated. */
  function Lexemes(tokens: seq<Token>): string
  {
    if |tokens| == 0 then [] else tokens[0].lexeme + Lexemes(tokens[1..])
  }

  /** Source text made only of characters the scanner recognises, with no comment in it. */
  predicate OperatorsOnly(source: string)
  {
    forall i :: 0 <= i < |source| ==> Recognised(source[i]) && !CommentAt(source, i)
  }

  /**
    On such text the scanner loses nothing: the lexemes of the emitted tokens
    spell the scanned source exactly, and no diagnostic is reported.
  */
  lemma {:induction false} ScanRoundTrip(source: string, current: nat)
    requires current <= |source| && OperatorsOnly(source)
    ensures Lexemes(ScanFrom(source, current).tokens) == source[current..]
    ensures ScanFrom(source, current).diagnostics == []
    decreases |source| - current
  {
    if current < |source| {
      var step := ScanToken(source, current);
      assert Recognised(source[current]) && !CommentAt(source, current);
      ScanRoundTrip(source, step.next);
      var rest := ScanFrom(source, step.next);
      assert ScanFrom(source, current).tokens == [step.token.value] + rest.tokens;
      LexemesCons(step.token.value, rest.tokens);
      SliceSplit(source, current, step.next);
    }
  }

  lemma LexemesCons(t: Token, rest: seq<Token>)
    ensures Lexemes([t] + rest) == t.lexeme + Lexemes(rest)
  {
    assert ([t] + rest)[1..] == rest;
  }

  lemma SliceSplit(source: string, i: nat, j: nat)
    requires i <= j <= |source|
    ensures source[i..] == source[i..j] + source[j..]
  {
  }
}
