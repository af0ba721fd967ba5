/** Small programs and what the interpreter does with them. */
module InterpreterExamples {
  import opened Results
  import opened Doubles
  import opened Values
  import opened Tokens
  import opened Errors
  import opened Ast
  import opened Environment
  import opened Interpreter

  function Name(lexeme: string): Token
  {
    Token(IDENTIFIER, lexeme, Nil, 1)
  }

  function Number(r: real): Expr
  {
    Literal(Num(Finite(r)))
  }

  /** `var a = 1; { var a = 2; print a; } print a;` prints 2, then 1. */
  lemma Shadowing()
    ensures Interpret(
      [ Some(Var(Name("a"), Some(Number(1.0)))),
        Some(Block([Some(Var(Name("a"), Some(Number(2.0)))), Some(Print(Variable(Name("a"))))])),
        Some(Print(Variable(Name("a")))) ],
      false, Globals).output == [Num(Finite(2.0)), Num(Finite(1.0))]
  {
    var a := Name("a");
    var one := Num(Finite(1.0));
    var inner := [Some(Var(a, Some(Number(2.0)))), Some(Print(Variable(a)))];
    var program := [Some(Var(a, Some(Number(1.0)))), Some(Block(inner)), Some(Print(Variable(a)))];
    var afterVar := Define(Globals, "a", one);
    assert Execute(Var(a, Some(Number(1.0))), Globals) == Executed(afterVar, [], None);
    DefineThenGet(Globals, a, one, a);
    InnerBlockPrintsTwo(afterVar);
    assert Execute(Print(Variable(a)), afterVar) == Executed(afterVar, [one], None);
    assert Interpret(program[2..], false, afterVar) == Executed(afterVar, [one], None);
    assert program[1..][1..] == program[2..];
  }

  /** The block `{ var a = 2; print a; }` prints 2 and leaves the scopes around it as they were. */
  lemma InnerBlockPrintsTwo(env: Env)
    ensures var a := Name("a");
      Execute(Block([Some(Var(a, Some(Number(2.0)))), Some(Print(Variable(a)))]), env) ==
      Executed(env, [Num(Finite(2.0))], None)
  {
    var a := Name("a");
    var two := Num(Finite(2.0));
    var inner := [Some(Var(a, Some(Number(2.0)))), Some(Print(Variable(a)))];
    var blockEnv := Define([map[]] + env, "a", two);
    assert Execute(Var(a, Some(Number(2.0))), [map[]] + env) == Executed(blockEnv, [], None);
    DefineThenGet([map[]] + env, a, two, a);
    assert Execute(Print(Variable(a)), blockEnv) == Executed(blockEnv, [two], None);
    assert ExecuteAll(inner, 2, blockEnv) == Executed(blockEnv, [], None);
    assert ExecuteAll(inner, 1, blockEnv) == Executed(blockEnv, [two], None);
    assert ExecuteAll(inner, 0, [map[]] + env) == Executed(blockEnv, [two], None);
    assert blockEnv[1..] == env;
  }

  /** Assigning a name no scope declares is a runtime error, and the rest of the program does not run. */
  lemma AssignUndeclared()
    ensures Interpret(
      [ Some(Expression(Assign(Name("x"), Number(1.0)))),
        Some(Print(Literal(Str("after")))) ],
      false, Globals) ==
      Executed(Globals, [], Some(RuntimeError(Name("x"), "Undefined variable 'x'.")))
  {
    var x := Name("x");
    var error := RuntimeError(x, "Undefined variable 'x'.");
    assert Unbound(Globals, "x");
    assert UndefinedMessage("x") == "Undefined variable 'x'.";
    assert Environment.Assign(Globals, x, Num(Finite(1.0))) == Err(error);
    assert Evaluate(Assign(x, Number(1.0)), Globals) == Evaluated(Globals, Err(error));
  }

  /**
    `var x = nil; print x;` fails as if `x` had no initialiser: a slot holding
    nil reads as "declared but not initialised".
  */
  lemma NilInitialiserIsUninitialised()
    ensures Interpret(
      [ Some(Var(Name("x"), Some(Literal(Nil)))),
        Some(Print(Variable(Name("x")))) ],
      false, Globals) ==
      Executed(Define(Globals, "x", Nil), [], Some(RuntimeError(Name("x"), UninitialisedMessage("x"))))
  {
    var x := Name("x");
    var env := Define(Globals, "x", Nil);
    assert Execute(Var(x, Some(Literal(Nil))), Globals) == Executed(env, [], None);
    DefineThenGet(Globals, x, Nil, x);
    assert Execute(Print(Variable(x)), env).error == Some(RuntimeError(x, UninitialisedMessage("x")));
  }

  /** `"a" + 1` mixes a string with a number. */
  lemma MixedPlus()
    ensures var plus := Token(PLUS, "+", Nil, 1);
      Evaluate(Binary(Literal(Str("a")), plus, Number(1.0)), Globals).result ==
      Err(RuntimeError(plus, "Operands can be either numbers or strings."))
  {
  }

  /** `0 == false` is false and `nil == nil` is true: equality never converts between types. */
  lemma EqualityAcrossTypes()
    ensures var eq := Token(EQUAL_EQUAL, "==", Nil, 1);
      Evaluate(Binary(Number(0.0), eq, Literal(Bool(false))), Globals).result == Ok(Bool(false)) &&
      Evaluate(Binary(Literal(Nil), eq, Literal(Nil)), Globals).result == Ok(Bool(true))
  {
  }

  /** `"" ? 1 : 2` is 1: the empty string is truthy. */
  lemma EmptyStringIsTruthy()
    ensures Evaluate(Ternary(Literal(Str("")), Token(QUESTION, "?", Nil, 1), Number(1.0),
                             Token(COLON, ":", Nil, 1), Number(2.0)), Globals).result == Ok(Num(Finite(1.0)))
  {
  }
}
