# jlox core in Dafny

A model of the core of a jlox tree-walking interpreter (Java package `org.lox`).
The pipeline is: source text → tokens (`Scanner`) → statements (`Parser`) →
execution (`Interpreter`, with the scope chain of `Environment`).

| module | models | file |
|---|---|---|
| `Tokens` | the token kinds and the `Token` record, `toString` and the fixed operator spellings | tokens.dfy |
| `Values`, `Doubles` | runtime values (nil, booleans, doubles, strings) and the double operations the interpreter uses | values.dfy, doubles.dfy |
| `Ast` | the expression and statement trees, precedence levels, and what "well formed" and "executable" mean | ast.dfy |
| `Scanner` | `scanTokens` as written: operators, punctuation and `//` comments only | scanner.dfy |
| `Parser` | the recursive-descent parser with `ParseError` as a `Failed` result, `synchronize`, and null statements for failed declarations | parser.dfy |
| `ParserRoundTrip` | printing a well-formed tree to tokens and parsing them back gives the same tree | parser_roundtrip.dfy |
| `ParserStatements` | printing statements to tokens and parsing them back gives the same declarations, nested blocks included | parser_statements.dfy |
| `ParserProperties` | grouping, the comma operator, invalid assignment targets, missing `:`, and error recovery, stated as properties of the parser | parser_properties.dfy |
| `Environment` | the scope chain as a sequence of maps, innermost first | environment.dfy |
| `Interpreter` | expression evaluation, statement execution, `interpret` in file and repl mode, `stringify` | interpreter.dfy |
| `InterpreterProperties`, `InterpreterExamples` | properties that relate several runs, and small programs | interpreter_props.dfy, interpreter_examples.dfy |

Modelling choices:

- **State.** Mutable state becomes values that are passed along.
  - The parser is a function of a token list and a position. It returns the end position and the diagnostics it reported.
  - A thrown `ParseError` becomes `Failed(pos, diagnostics)`.
  - The interpreter threads its environment through every result. This includes errors, since assignments made before a runtime error stay done.
- **Printing.** `Lox.error`, `Lox.runtimeError` and `System.out.println` are modelled as returned sequences:
  - diagnostics;
  - the runtime error that stopped the run;
  - the printed values, which `Stringify` turns into lines.
- **Environment.** It is a non-empty `seq<map<string, Value>>`, innermost scope first.
  - A slot holding `Nil` is the Java `null` slot, which means "declared but not initialised".
  - This follows the code: `var x = nil; print x;` fails as an access before initialisation (`InterpreterExamples.NilInitialiserIsUninitialised`).
  - Nil as a value and "not yet initialised" cannot be told apart. That may not be intended, but the model keeps the code's behaviour.
- **Comma operator.** `expression` keeps only the last operand of a comma list. The earlier operands are parsed, then dropped, and never evaluated (`ParserProperties.CommaKeepsLast`). There is no sequencing node, which may not be intended; the model follows the code.
- **Token kinds.** `Parser.java` uses the token kinds `QUESTION` and `COLON`, but the `TokenType` enum in `Token.java` does not declare them. The model adds both to `TokenType`, after `STAR`. The scanner never produces them, so they occur only in token lists given to the parser directly.
- **Scanner limits.** The scanner produces only operator and punctuation tokens, all on line 1.
  - Whitespace, letters, digits and quotes are each an "Unexpected character." diagnostic.
  - There are no identifiers, literals or keywords.
  - The parser is therefore modelled over any token list that ends in EOF, not only over scanner output.
- **Characters.** Source text is a sequence of Dafny `char`s, which are Unicode code points. Java's `String.charAt` walks UTF-16 code units instead; the two agree on every character of the Basic Multilingual Plane.

## Model

| member | source | states |
|---|---|---|
| Tokens.OrdinalRoundTrip | src/main/java/org/lox/Token.java:21-60 | every token kind has a position in this model's declaration of `TokenType` that names it back, and EOF is declared last; QUESTION and COLON are inserted after STAR, so the kinds declared after them sit two places later than Java's `ordinal()` |
| Tokens.FromOrdinalRoundTrip | src/main/java/org/lox/Token.java:21-60 | the positions in this model's declaration are exactly 0 up to EOF's, each naming one kind |
| Doubles.Negate | src/main/java/org/lox/Interpreter.java:103-105 | unary minus keeps NaN as NaN and nothing else becomes NaN |
| Doubles.Add | src/main/java/org/lox/Interpreter.java:46-47 | double addition propagates NaN and is exact on finite operands (rounding left out) |
| Doubles.Subtract | src/main/java/org/lox/Interpreter.java:42-44 | double subtraction propagates NaN, is exact on finite operands, and an infinity minus itself is NaN |
| Doubles.Multiply | src/main/java/org/lox/Interpreter.java:54-56 | double multiplication propagates NaN, zero times an infinity is NaN, a negative factor flips the sign of an infinity, and finite products are exact |
| Doubles.Divide | src/main/java/org/lox/Interpreter.java:51-53 | division never raises: a zero divisor gives an infinity or NaN, and finite nonzero division is the quotient |
| Doubles.Less | src/main/java/org/lox/Interpreter.java:57-65 | Java's `<` (and `>` with the operands swapped) is false whenever NaN is involved, irreflexive, the real order on finite values, with negative infinity below every other non-NaN value |
| Doubles.LessOrEqual | src/main/java/org/lox/Interpreter.java:60-68 | Java's `<=` (and `>=` swapped) is false whenever NaN is involved and the real order on finite values |
| Doubles.OrderedApartFromNaN | src/main/java/org/lox/Interpreter.java:57-68 | apart from NaN, `<` is asymmetric and total, and `<=` holds exactly when the swapped `<` does not |
| Tokens.ToString | src/main/java/org/lox/Token.java:16-19 | `toString` is the kind's name, a space, the lexeme, a space and the literal's text, each at its own place in the result |
| Scanner.Emit | src/main/java/org/lox/Scanner.java:111-118 | `addToken(kind)` emits one token of that kind whose lexeme is the source from `start` to the cursor, with a null literal on line 1 (the scanner never advances the line), and no diagnostic |
| Scanner.NextIs | src/main/java/org/lox/Scanner.java:92-101 | `match(expected)` is true exactly when a character remains and it is `expected`; the advance past it is the two-character step of `ScanToken` |
| Scanner.SkipComment | src/main/java/org/lox/Scanner.java:59-63 | a `//` comment runs up to the next newline or the end of input, and contains no newline |
| Scanner.SingleKind | src/main/java/org/lox/Scanner.java:38-70 | the one-character cases are exactly the recognised characters that do not look ahead, and each kind's lexeme is that character |
| Scanner.EqualKinds | src/main/java/org/lox/Scanner.java:35-78 | `!`, `<`, `=` and `>` are exactly the characters that call `match('=')`, giving the two-character kind and the one-character kind |
| Scanner.ScanToken | src/main/java/org/lox/Scanner.java:32-90 | one step always advances; an unrecognised character yields exactly one "Unexpected character." on line 1 and no token; `X=` is one token when the `=` follows; a comment yields nothing and stops at the newline; other characters yield their one-character token |
| Scanner.ScanFrom | src/main/java/org/lox/Scanner.java:18-23 | the scanning loop emits only operator tokens spelled by their lexemes, and only "Unexpected character." diagnostics, at most one item per character |
| Scanner.ScanTokens | src/main/java/org/lox/Scanner.java:18-26 | the token list ends with exactly one EOF, every token is on line 1, and all tokens before EOF are operator tokens |
| Scanner.ScanRoundTrip | src/main/java/org/lox/Scanner.java:32-90 | on text of recognised characters without comments, the lexemes of the tokens concatenate back to the source and nothing is reported |
| Ast.WellFormedHasValidOps | src/main/java/org/lox/Interpreter.java:37-113 | every tree the parser can build uses only operators the visitors handle, so "Unreachable code reached!" cannot be thrown on parser output |
| Ast.ParsedStatementIsExecutable | src/main/java/org/lox/Parser.java:50-58 | a parsed statement with no failed declaration inside is one the interpreter can execute |
| Parser.AtEnd | src/main/java/org/lox/Parser.java:288-290 | `isAtEnd` holds exactly at an EOF token |
| Parser.Check | src/main/java/org/lox/Parser.java:276-280 | `check(kind)` holds exactly when the current token has that kind and the kind is not EOF, so `check(EOF)` is always false |
| Parser.Finish | src/main/java/org/lox/Parser.java:230-235 | `consume` succeeds exactly when the expected kind is next (never at EOF) and then advances by one; otherwise it throws with a diagnostic |
| Parser.ParseExpression | src/main/java/org/lox/Parser.java:103-109 | an expression parse consumes input or reports, and builds a tree at assignment level or tighter |
| Parser.ParseCommaRest | src/main/java/org/lox/Parser.java:105-108 | the comma loop never moves backwards, and a failure carries a diagnostic |
| Parser.ParseAssignment | src/main/java/org/lox/Parser.java:111-126 | an assignment parse consumes input or reports, and builds a well-formed tree |
| Parser.ParseAssignValue | src/main/java/org/lox/Parser.java:113-125 | the optional `= value` part keeps the tree well formed at assignment level |
| Parser.ParseTernary | src/main/java/org/lox/Parser.java:129-140 | a ternary parse builds a tree at ternary level or tighter |
| Parser.ParseBranches | src/main/java/org/lox/Parser.java:131-138 | the optional `? a : b` part keeps the tree at ternary level |
| Parser.ParseElse | src/main/java/org/lox/Parser.java:134-137 | the `: b` part keeps the tree at ternary level, and a missing `:` is reported |
| Parser.ParseTier | src/main/java/org/lox/Parser.java:142-191 | each binary level builds a tree whose operators are at that level or tighter |
| Parser.ParseTierRest | src/main/java/org/lox/Parser.java:145-149 | the loop of a binary level folds operands to the left and stays at that level |
| Parser.ParseOperand | src/main/java/org/lox/Parser.java:143-182 | an operand of a binary level is a tree of the next tighter level |
| Parser.ParseUnary | src/main/java/org/lox/Parser.java:194-202 | a unary parse builds a unary or primary tree |
| Parser.ParsePrimary | src/main/java/org/lox/Parser.java:205-228 | a primary parse builds a literal, variable or grouping, or throws "Expected expression." |
| Parser.ParseGrouping | src/main/java/org/lox/Parser.java:221-225 | a parenthesised expression is closed by `)` or reported |
| Parser.Synchronize | src/main/java/org/lox/Parser.java:242-264 | `synchronize` stops at the first boundary after the throwing token: EOF, just after a `;`, or before a statement keyword; it always advances unless at EOF |
| Parser.SynchronizeLoop | src/main/java/org/lox/Parser.java:245-263 | the loop of `synchronize` stops at the first boundary from its start |
| Parser.ParseDeclaration | src/main/java/org/lox/Parser.java:50-58 | a declaration never fails: it always advances, and a null statement always comes with a diagnostic |
| Parser.ParseVarDeclaration | src/main/java/org/lox/Parser.java:73-83 | a `var` declaration parse consumes input or reports, and builds a well-formed statement |
| Parser.ParseStatement | src/main/java/org/lox/Parser.java:60-89 | a statement parse consumes input or reports, and builds a well-formed statement |
| Parser.ParseBlock | src/main/java/org/lox/Parser.java:91-100 | a block's statements are well formed, and null-free when nothing was reported |
| Parser.ParseFrom | src/main/java/org/lox/Parser.java:44-46 | the parse loop yields at most one statement per token, and a null entry only with a diagnostic |
| Parser.Parse | src/main/java/org/lox/Parser.java:42-48 | `parse` never throws, a null entry implies a diagnostic, and a program with no diagnostics can be executed |
| ParserRoundTrip.Unparse | src/main/java/org/lox/Parser.java:102-228 | printing a tree gives exactly as many tokens as its size |
| ParserRoundTrip.TierRoundTrip | src/main/java/org/lox/Parser.java:142-191 | the printed tokens of a well-formed binary-level tree parse back to that tree at that level, whatever follows that cannot continue it |
| ParserRoundTrip.TernaryRoundTrip | src/main/java/org/lox/Parser.java:129-140 | the printed tokens of a well-formed ternary-level tree parse back to it |
| ParserRoundTrip.AssignmentRoundTrip | src/main/java/org/lox/Parser.java:111-126 | the printed tokens of a well-formed tree parse back to it as an assignment |
| ParserRoundTrip.ExpressionRoundTrip | src/main/java/org/lox/Parser.java:103-109 | the printed tokens of a well-formed tree parse back to it as an expression, with nothing reported |
| ParserRoundTrip.PrintedRoundTrip | src/main/java/org/lox/Parser.java:103-109 | a token list holding a printed tree at its start followed by EOF parses to that tree, ending at the EOF (any other terminator is covered by `ExpressionRoundTrip`) |
| ParserRoundTrip.ParseUnparse | src/main/java/org/lox/Parser.java:103-109 | for every well-formed tree, parsing its printed tokens followed by EOF gives the tree back with no diagnostics |
| ParserProperties.LeftAssociative | src/main/java/org/lox/Parser.java:142-191 | `x op y op z` with two operators of one level groups as `(x op y) op z` |
| ParserProperties.TighterBindsFirst | src/main/java/org/lox/Parser.java:142-191 | `x op1 y op2 z` with `op2` tighter than `op1` groups as `x op1 (y op2 z)` |
| ParserProperties.TernaryRightAssociative | src/main/java/org/lox/Parser.java:129-140 | the tokens of `x ? y : z ? u : w` parse as `x ? y : (z ? u : w)` and never as the left grouping |
| ParserProperties.CommaKeepsLast | src/main/java/org/lox/Parser.java:103-109 | `x1 , ... , xn` for any n >= 1, followed by any token that ends an expression, parses to `xn` alone, ending at that token with nothing reported: the earlier operands are dropped |
| ParserProperties.CommaRestKeepsLast | src/main/java/org/lox/Parser.java:105-108 | the comma loop, at `, x1 ... , xk`, returns the last operand it read (its starting operand when there is no comma) |
| ParserProperties.InvalidTargetReported | src/main/java/org/lox/Parser.java:111-126 | `x = v` with `x` not a variable, followed by any token that ends an expression (`;` in `1 = 2;`, or EOF), reports "Invalid assignment target." at the `=` without throwing, and yields `x`, consuming `v` and stopping at that token |
| ParserProperties.MissingColon | src/main/java/org/lox/Parser.java:129-140 | `c ? a` followed by EOF throws "Expected ':'." at the EOF with nothing else reported |
| ParserProperties.NoExpression | src/main/java/org/lox/Parser.java:205-228 | a token that cannot start an expression makes an expression parse throw "Expected expression." at that token |
| ParserProperties.ResumesAfterSemicolon | src/main/java/org/lox/Parser.java:50-58 | a statement that throws at a `;` becomes a null declaration with its diagnostics, and parsing resumes right after that `;` |
| ParserProperties.EmptyPrintRecovers | src/main/java/org/lox/Parser.java:67-71 | `print ;` yields a null declaration with "Expected expression." at the `;`, resuming after it |
| ParserProperties.PrintDeclaration | src/main/java/org/lox/Parser.java:60-71 | `print e ;` is a print statement of `e`, with nothing reported |
| ParserProperties.RecoversAfterSemicolon | src/main/java/org/lox/Parser.java:42-58 | `print ; print e ;` parses to a null entry followed by `print e`, with one diagnostic at the first `;` |
| ParserStatements.ParseUnparseProgram | src/main/java/org/lox/Parser.java:42-100 | every list of well-formed declarations without null entries, printed and followed by EOF, parses back to exactly that list with nothing reported: one entry per top-level declaration, in order, nested blocks included |
| ParserStatements.ProgramRoundTrip | src/main/java/org/lox/Parser.java:42-48 | the loop of `parse` turns the printed declarations before EOF into one entry each, in order |
| ParserStatements.StmtRoundTrip | src/main/java/org/lox/Parser.java:50-65 | `declaration` parses the printed tokens of any declaration back to it and stops right after them; the first token is never `}` or EOF |
| ParserStatements.ExpressionStmtRoundTrip | src/main/java/org/lox/Parser.java:85-89 | `e ;` is the expression statement of `e` |
| ParserStatements.PrintStmtRoundTrip | src/main/java/org/lox/Parser.java:67-71 | `print e ;` is the print statement of `e` |
| ParserStatements.VarInitRoundTrip | src/main/java/org/lox/Parser.java:73-83 | `var x = e ;` declares `x` with initialiser `e` |
| ParserStatements.VarBareRoundTrip | src/main/java/org/lox/Parser.java:73-83 | `var x ;` declares `x` with no initialiser |
| ParserStatements.BlockRoundTrip | src/main/java/org/lox/Parser.java:60-65 | `{ ss }` is the block of exactly the declarations `ss` |
| ParserStatements.BlockBodyRoundTrip | src/main/java/org/lox/Parser.java:91-100 | the loop of `block` collects the printed declarations up to `}`, one entry each, and consumes the `}` |
| Environment.Define | src/main/java/org/lox/Environment.java:35-37 | `define` binds or rebinds the name in the innermost scope only, leaving every other binding as it was |
| Environment.Get | src/main/java/org/lox/Environment.java:18-33 | `get` returns the value from the innermost scope binding the name; a null slot is an access-before-initialisation error; a name no scope binds is "Undefined variable" |
| Environment.Assign | src/main/java/org/lox/Environment.java:39-51 | `assign` overwrites the slot in the innermost scope binding the name, creates no binding, and fails exactly when no scope binds it |
| Environment.DefineThenGet | src/main/java/org/lox/Environment.java:18-37 | after `define`, the name reads back as its value (or as uninitialised when nil), and other names read as before |
| Environment.AssignThenGet | src/main/java/org/lox/Environment.java:18-51 | after a successful `assign` of a non-nil value, the name reads back as that value |
| Interpreter.IsTruthy | src/main/java/org/lox/Interpreter.java:137-143 | `isTruthy` is false exactly for null and `false`; every other value, 0 and the empty string included, is truthy |
| Interpreter.IsEqual | src/main/java/org/lox/Interpreter.java:145-154 | `isEqual` is equality of values: null equals only null, and values of different types are never equal |
| Interpreter.ApplyUnary | src/main/java/org/lox/Interpreter.java:99-113 | `!` is the negated truthiness of any value; `-` succeeds exactly on numbers, and fails with "Operand must be a number." |
| Interpreter.ApplyBinary | src/main/java/org/lox/Interpreter.java:38-78 | `==` and `!=` never fail and never convert types; `+` succeeds exactly on two numbers or two strings, concatenating strings; the other arithmetic and comparison operators succeed exactly on two numbers; comparisons give booleans |
| Interpreter.Evaluate | src/main/java/org/lox/Interpreter.java:37-113 | evaluating an expression never adds or removes a binding in any scope |
| Interpreter.Execute | src/main/java/org/lox/Interpreter.java:124-220 | a statement keeps the number of scopes, may only add names to the innermost one, and a block, expression or print statement adds none |
| Interpreter.ExecuteAll | src/main/java/org/lox/Interpreter.java:210-220 | running a statement list keeps the scope count and only adds names to the innermost scope |
| Interpreter.RunTopLevel | src/main/java/org/lox/Interpreter.java:21-26 | one top-level statement leaves the scope count unchanged |
| Interpreter.Interpret | src/main/java/org/lox/Interpreter.java:19-31 | `interpret` leaves the scope count unchanged |
| Interpreter.Stringify | src/main/java/org/lox/Interpreter.java:168-180 | null prints as `nil`, strings as themselves, booleans as `true`/`false`, and a number's text loses a trailing `.0` and nothing else |
| InterpreterProperties.TernaryShortCircuit | src/main/java/org/lox/Interpreter.java:81-86 | the conditional evaluates its condition and then exactly one branch; the other branch can be anything |
| InterpreterProperties.LeftOperandErrorAborts | src/main/java/org/lox/Interpreter.java:38-40 | once the left operand fails, the right operand is never evaluated |
| InterpreterProperties.AssignThenRead | src/main/java/org/lox/Interpreter.java:198-202 | an assignment evaluates to the assigned value, which the variable then reads back unless it is nil; an unbound name is "Undefined variable" |
| InterpreterProperties.UninitialisedVariable | src/main/java/org/lox/Interpreter.java:183-190 | `var x;` binds `x` to null, and reading it is an access before initialisation |
| InterpreterProperties.BlockLocalsVanish | src/main/java/org/lox/Interpreter.java:205-220 | a name declared only inside a block is undefined again after the block |
| InterpreterProperties.ExecuteAllIsInterpret | src/main/java/org/lox/Interpreter.java:210-220 | a block's loop over its statements is `interpret` in file mode over the same statements |
| InterpreterProperties.BlockIsScopedProgram | src/main/java/org/lox/Interpreter.java:205-220 | a block runs its statements like a program in a fresh innermost scope, which is then dropped |
| InterpreterProperties.InterpretAppend | src/main/java/org/lox/Interpreter.java:19-31 | running `ss + rest` is running `ss`, then `rest` from where `ss` left off, unless `ss` failed |
| InterpreterProperties.InterpretConcatenation | src/main/java/org/lox/Interpreter.java:19-31 | the same for a program given as the concatenation of two parts |
| InterpreterProperties.ErrorStopsProgram | src/main/java/org/lox/Interpreter.java:19-31 | after a runtime error, no later statement runs: appending statements changes nothing |
| InterpreterProperties.ReplForm | src/main/java/org/lox/Interpreter.java:22-24 | in repl mode an expression statement is treated as a print of its expression, and every other statement is unchanged |
| InterpreterProperties.ReplProgram | src/main/java/org/lox/Interpreter.java:21-26 | the repl form of a program changes each statement independently |
| InterpreterProperties.ReplPrintsTopLevelExpressions | src/main/java/org/lox/Interpreter.java:19-31 | `interpret` in repl mode is `interpret` in file mode over the program with top-level expression statements turned into prints |
| InterpreterProperties.ReplWithoutExpressionsIsBatch | src/main/java/org/lox/Interpreter.java:19-31 | a program with no top-level expression statement runs the same in both modes |
| InterpreterProperties.ExpressionStatementOutput | src/main/java/org/lox/Interpreter.java:124-135 | an expression statement prints nothing in a file and prints its value in the repl |
| InterpreterExamples.Shadowing | src/main/java/org/lox/Environment.java:18-33 | `var a = 1; { var a = 2; print a; } print a;` prints 2 and then 1 |
| InterpreterExamples.InnerBlockPrintsTwo | src/main/java/org/lox/Interpreter.java:205-220 | the block `{ var a = 2; print a; }` prints 2 and leaves the enclosing scopes exactly as they were, whatever they held |
| InterpreterExamples.AssignUndeclared | src/main/java/org/lox/Environment.java:39-51 | assigning an undeclared name stops the program with "Undefined variable 'x'." |
| InterpreterExamples.NilInitialiserIsUninitialised | src/main/java/org/lox/Environment.java:18-33 | `var x = nil; print x;` fails as an access before initialisation |
| InterpreterExamples.MixedPlus | src/main/java/org/lox/Interpreter.java:45-50 | `"a" + 1` is the error "Operands can be either numbers or strings." |
| InterpreterExamples.EqualityAcrossTypes | src/main/java/org/lox/Interpreter.java:145-154 | `0 == false` is false and `nil == nil` is true |
| InterpreterExamples.EmptyStringIsTruthy | src/main/java/org/lox/Interpreter.java:137-143 | the empty string is truthy |

## Left out

- Console I/O, `Lox.error`, `Lox.runtimeError` and the repl/file driver: outside the core. Reports and printed lines are returned as sequences instead.
- Double arithmetic is exact on reals. The model has no rounding, overflow to infinity from finite operands, or signed zero. `Double.toString` is a function parameter of `Stringify` and `ToString`.
- Scanning identifiers, numbers, strings and keywords: the scanner as written has no cases for them.
- Executing a null statement: Java's `NullPointerException` is a precondition (`Executable`). `Parser.Parse` proves that a program parsed with no diagnostics meets it.
- `UnsupportedOperationException` for an operator the visitors do not handle: a precondition (`ValidOps`). `Ast.WellFormedHasValidOps` proves that parser output meets it.
- The class hierarchy of `Expr.java` and `Stmt` and the visitor dispatch: they are modelled as datatypes and `match`. `Stmt.java` is not part of this model; its shape is taken from the parser and interpreter.
- Scanner.Emit and Scanner.NextIs are helpers with no contract of their own: what `addToken` and `match` do is stated through the ensures of `Scanner.ScanToken`.
- The parser's helper functions: `ParseBranches`, `ParseElse`, `ParseAssignValue`, `ParseGrouping`, `ParseCommaRest`, `ParseTierRest` and `SynchronizeLoop` split the Java methods at their loops and optional parts. The four binary levels share one function, `ParseTier`.
- The round-trip properties hold for parser input built from printed trees. Token lists the scanner produces never contain identifiers or literals, so they are not tied to scanner output.
- Interpreter.Interpret: the contract states only that the scope count is unchanged. What the run prints and where it stops is stated by the lemmas of `InterpreterProperties`.
- Interpreter.Evaluate: the contract states only that bindings keep their names. The values are stated by `ApplyUnary`, `ApplyBinary` and the lemmas of `InterpreterProperties`.
- Parser.ParseVarDeclaration: the contract states progress and well-formedness only. Which statement comes from which tokens is stated, for printed input, by `ParserStatements.VarInitRoundTrip` and `ParserStatements.VarBareRoundTrip`.
- Parser.ParseStatement: the contract states progress and well-formedness only. Which statement comes from which tokens is stated, for printed input, by `ParserStatements.StmtRoundTrip` and its lemmas for each kind.
- Parser.ParseBlock: the contract states progress and well-formedness only. The entries are stated, for printed input, by `ParserStatements.BlockBodyRoundTrip`.
- Parser.ParseFrom: the contract bounds the entry count and states well-formedness only. One entry per declaration, in order, is stated for printed input by `ParserStatements.ProgramRoundTrip`.
- Parser.Parse: the contract states that parsing never throws and that its output can be executed. The statements themselves are stated for printed input by `ParserStatements.ParseUnparseProgram`.
- Scanner.ScanTokens: characters are Unicode code points, not UTF-16 code units. A character outside the Basic Multilingual Plane is one "Unexpected character." here and two in Java, one per surrogate.
- Scanner.ScanFrom: the same as for `ScanTokens`; its "at most one item per character" counts code points.
