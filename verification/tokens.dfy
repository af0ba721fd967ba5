/**
  The token vocabulary (Token.java). The kind names are kept exactly as the
  language spells them, since that is also how a token prints itself.
  QUESTION and COLON are used by the parser's ternary rule but are missing
  from the enumeration in Token.java; they are added here.
*/
module Tokens {
  import opened Doubles
  import opened Values
  import opened Results

  datatype TokenType =
    | LEFT_PAREN | RIGHT_PAREN | LEFT_BRACE | RIGHT_BRACE
    | COMMA | DOT | MINUS | PLUS | SEMICOLON | SLASH | STAR
    | QUESTION | COLON
    | BANG | BANG_EQUAL | EQUAL | EQUAL_EQUAL
    | GREATER | GREATER_EQUAL | LESS | LESS_EQUAL
    | IDENTIFIER | STRING | NUMBER
    | AND | CLASS | ELSE | FALSE | FUN | FOR | IF | NIL | OR
    | PRINT | RETURN | SUPER | THIS | TRUE | VAR | WHILE
    | EOF

  /** One lexical unit. `literal` is Nil where the Java field holds null. */
  datatype Token = Token(kind: TokenType, lexeme: string, literal: Value, line: int)

  /** The position of the kind in this model's declaration of `TokenType` above. */
  function Ordinal(tt: TokenType): nat
  {
    match tt
    case LEFT_PAREN => 0
    case RIGHT_PAREN => 1
    case LEFT_BRACE => 2
    case RIGHT_BRACE => 3
    case COMMA => 4
    case DOT => 5
    case MINUS => 6
    case PLUS => 7
    case SEMICOLON => 8
    case SLASH => 9
    case STAR => 10
    case QUESTION => 11
    case COLON => 12
    case BANG => 13
    case BANG_EQUAL => 14
    case EQUAL => 15
    case EQUAL_EQUAL => 16
    case GREATER => 17
    case GREATER_EQUAL => 18
    case LESS => 19
    case LESS_EQUAL => 20
    case IDENTIFIER => 21
    case STRING => 22
    case NUMBER => 23
    case AND => 24
    case CLASS => 25
    case ELSE => 26
    case FALSE => 27
    case FUN => 28
    case FOR => 29
    case IF => 30
    case NIL => 31
    case OR => 32
    case PRINT => 33
    case RETURN => 34
    case SUPER => 35
    case THIS => 36
    case TRUE => 37
    case VAR => 38
    case WHILE => 39
    case EOF => 40
  }

  /** `TokenType.values()[n]`: the kind declared at position n, if any. */
  function FromOrdinal(n: nat): Option<TokenType>
  {
    match n
    case 0 => Some(LEFT_PAREN)
    case 1 => Some(RIGHT_PAREN)
    case 2 => Some(LEFT_BRACE)
    case 3 => Some(RIGHT_BRACE)
    case 4 => Some(COMMA)
    case 5 => Some(DOT)
    case 6 => Some(MINUS)
    case 7 => Some(PLUS)
    case 8 => Some(SEMICOLON)
    case 9 => Some(SLASH)
    case 10 => Some(STAR)
    case 11 => Some(QUESTION)
    case 12 => Some(COLON)
    case 13 => Some(BANG)
    case 14 => Some(BANG_EQUAL)
    case 15 => Some(EQUAL)
    case 16 => Some(EQUAL_EQUAL)
    case 17 => Some(GREATER)
    case 18 => Some(GREATER_EQUAL)
    case 19 => Some(LESS)
    case 20 => Some(LESS_EQUAL)
    case 21 => Some(IDENTIFIER)
    case 22 => Some(STRING)
    case 23 => Some(NUMBER)
    case 24 => Some(AND)
    case 25 => Some(CLASS)
    case 26 => Some(ELSE)
    case 27 => Some(FALSE)
    case 28 => Some(FUN)
    case 29 => Some(FOR)
    case 30 => Some(IF)
    case 31 => Some(NIL)
    case 32 => Some(OR)
    case 33 => Some(PRINT)
    case 34 => Some(RETURN)
    case 35 => Some(SUPER)
    case 36 => Some(THIS)
    case 37 => Some(TRUE)
    case 38 => Some(VAR)
    case 39 => Some(WHILE)
    case 40 => Some(EOF)
    case _ => None
  }

  /** The enumeration is closed: every kind has an ordinal that names it, and EOF's is the largest. */
  lemma OrdinalRoundTrip(tt: TokenType)
    ensures FromOrdinal(Ordinal(tt)) == Some(tt)
    ensures Ordinal(tt) <= Ordinal(EOF)
  {
    match tt
    case _ =>
  }

  /** The ordinals in use are exactly 0 .. Ordinal(EOF), each naming one kind. */
  lemma FromOrdinalRoundTrip(n: nat)
    ensures FromOrdinal(n).Some? <==> n <= Ordinal(EOF)
    ensures FromOrdinal(n).Some? ==> Ordinal(FromOrdinal(n).value) == n
  {
    match n
    case _ =>
  }

  /** The enumeration constant's name, as `String.valueOf(type)` renders it. */
  function TypeName(tt: TokenType): string
  {
    match tt
    case LEFT_PAREN => "LEFT_PAREN"
    case RIGHT_PAREN => "RIGHT_PAREN"
    case LEFT_BRACE => "LEFT_BRACE"
    case RIGHT_BRACE => "RIGHT_BRACE"
    case COMMA => "COMMA"
    case DOT => "DOT"
    case MINUS => "MINUS"
    case PLUS => "PLUS"
    case SEMICOLON => "SEMICOLON"
    case SLASH => "SLASH"
    case STAR => "STAR"
    case QUESTION => "QUESTION"
    case COLON => "COLON"
    case BANG => "BANG"
    case BANG_EQUAL => "BANG_EQUAL"
    case EQUAL => "EQUAL"
    case EQUAL_EQUAL => "EQUAL_EQUAL"
    case GREATER => "GREATER"
    case GREATER_EQUAL => "GREATER_EQUAL"
    case LESS => "LESS"
    case LESS_EQUAL => "LESS_EQUAL"
    case IDENTIFIER => "IDENTIFIER"
    case STRING => "STRING"
    case NUMBER => "NUMBER"
    case AND => "AND"
    case CLASS => "CLASS"
    case ELSE => "ELSE"
    case FALSE => "FALSE"
    case FUN => "FUN"
    case FOR => "FOR"
    case IF => "IF"
    case NIL => "NIL"
    case OR => "OR"
    case PRINT => "PRINT"
    case RETURN => "RETURN"
    case SUPER => "SUPER"
    case THIS => "THIS"
    case TRUE => "TRUE"
    case VAR => "VAR"
    case WHILE => "WHILE"
    case EOF => "EOF"
  }

  /**
    `String.valueOf(literal)`: "null" for a missing literal. How Java prints a
    double is not modelled, so the caller supplies that rendering.
  */
  function LiteralText(v: Value, numberText: Double -> string): string
  {
    match v
    case Nil => "null"
    case Bool(b) => if b then "true" else "false"
    case Num(d) => numberText(d)
    case Str(s) => s
  }

  /** `Token.toString`: kind, lexeme and literal separated by single spaces. */
  function ToString(t: Token, numberText: Double -> string): (r: string)
    ensures var name, literal := TypeName(t.kind), LiteralText(t.literal, numberText);
      && |r| == |name| + 1 + |t.lexeme| + 1 + |literal|
      && r[..|name|] == name && r[|name|] == ' '
      && r[|name| + 1..|name| + 1 + |t.lexeme|] == t.lexeme && r[|name| + 1 + |t.lexeme|] == ' '
      && r[|r| - |literal|..] == literal
  {
    TypeName(t.kind) + " " + t.lexeme + " " + LiteralText(t.literal, numberText)
  }

  /** The fixed spelling of each punctuation and operator kind. */
  function OperatorLexeme(tt: TokenType): Option<string>
  {
    match tt
    case LEFT_PAREN => Some("(")
    case RIGHT_PAREN => Some(")")
    case LEFT_BRACE => Some("{")
    case RIGHT_BRACE => Some("}")
    case COMMA => Some(",")
    case DOT => Some(".")
    case MINUS => Some("-")
    case PLUS => Some("+")
    case SEMICOLON => Some(";")
    case SLASH => Some("/")
    case STAR => Some("*")
    case QUESTION => Some("?")
    case COLON => Some(":")
    case BANG => Some("!")
    case BANG_EQUAL => Some("!=")
    case EQUAL => Some("=")
    case EQUAL_EQUAL => Some("==")
    case GREATER => Some(">")
    case GREATER_EQUAL => Some(">=")
    case LESS => Some("<")
    case LESS_EQUAL => Some("<=")
    case _ => None
  }
}
