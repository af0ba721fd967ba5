/**
  Properties of the interpreter that relate several evaluations or
  executions: short-circuiting, scoping, abort-on-error, and what the repl
  flag changes.
*/
module InterpreterProperties {
  import opened Results
  import opened Doubles
  import opened Values
  import opened Tokens
  import opened Errors
  import opened Ast
  import opened Environment
  import opened Interpreter

  /**
    The conditional operator evaluates its condition and then exactly one
    branch: the branch not taken can be replaced by anything.
  */
  lemma TernaryShortCircuit(first: Expr, q: Token, second: Expr, c: Token, last: Expr, other: Expr, env: Env)
    requires ValidOps(Ternary(first, q, second, c, last)) && ValidOps(other)
    ensures var cond := Evaluate(first, env);
      cond.result.Ok? && IsTruthy(cond.result.value) ==>
        Evaluate(Ternary(first, q, second, c, last), env) == Evaluate(second, cond.env) ==
        Evaluate(Ternary(first, q, second, c, other), env)
    ensures var cond := Evaluate(first, env);
      cond.result.Ok? && !IsTruthy(cond.result.value) ==>
        Evaluate(Ternary(first, q, second, c, last), env) == Evaluate(last, cond.env) ==
        Evaluate(Ternary(first, q, other, c, last), env)
    ensures var cond := Evaluate(first, env);
      cond.result.Err? ==> Evaluate(Ternary(first, q, second, c, last), env) == cond
  {
  }

  /**
    Operands are evaluated left to right and the first error aborts the
    expression: once the left operand fails, the right one is never looked at.
  */
  lemma LeftOperandErrorAborts(left: Expr, op: Token, right: Expr, other: Expr, env: Env)
    requires ValidOps(Binary(left, op, right)) && ValidOps(other)
    requires Evaluate(left, env).result.Err?
    ensures Evaluate(Binary(left, op, right), env) == Evaluate(left, env) == Evaluate(Binary(left, op, other), env)
  {
  }

  /**
    Assignment evaluates to the assigned value, which reading the variable
    back then yields (unless it is nil, which reads as uninitialised); a name
    no scope binds is an "Undefined variable" error.
  */
  lemma AssignThenRead(name: Token, value: Expr, env: Env)
    requires ValidOps(value)
    ensures var a := Evaluate(value, env);
      a.result.Ok? && !Unbound(a.env, name.lexeme) ==>
        Evaluate(Assign(name, value), env).result == a.result &&
        (a.result.value != Nil ==> Get(Evaluate(Assign(name, value), env).env, name) == a.result)
    ensures var a := Evaluate(value, env);
      a.result.Ok? && Unbound(a.env, name.lexeme) ==>
        Evaluate(Assign(name, value), env).result == Err(RuntimeError(name, UndefinedMessage(name.lexeme)))
  {
    var a := Evaluate(value, env);
    if a.result.Ok? && !Unbound(a.env, name.lexeme) {
      assert Environment.Assign(a.env, name, a.result.value).Ok?;
      if a.result.value != Nil {
        AssignThenGet(a.env, name, a.result.value);
      }
    }
  }

  /**
    `var` without an initializer declares the name with the nil slot, so
    reading it before an assignment is the "cannot be accessed before
    initialization" error.
  */
  lemma UninitialisedVariable(name: Token, env: Env)
    ensures Execute(Var(name, None), env) == Executed(Define(env, name.lexeme, Nil), [], None)
    ensures Get(Execute(Var(name, None), env).env, name) ==
            Err(RuntimeError(name, UninitialisedMessage(name.lexeme)))
  {
    DefineThenGet(env, name, Nil, name);
  }

  /**
    Names declared inside a block are gone when it ends: a name bound in no
    scope before the block is still undefined after it, however the block
    ended.
  */
  lemma BlockLocalsVanish(ss: seq<Option<Stmt>>, env: Env, name: Token)
    requires Executable(Block(ss))
    requires Unbound(env, name.lexeme)
    ensures Get(Execute(Block(ss), env).env, name) == Err(RuntimeError(name, UndefinedMessage(name.lexeme)))
  {
    var r := Execute(Block(ss), env);
    assert SameBindings(r.env, env);
    assert Unbound(r.env, name.lexeme);
  }

  /**
    The loop of `executeBlock` is the non-repl `interpret` loop run in the
    block's own scope.
  */
  lemma {:induction false} ExecuteAllIsInterpret(ss: seq<Option<Stmt>>, i: nat, env: Env)
    requires i <= |ss| && AllExecutable(ss)
    ensures AllExecutable(ss[i..])
    ensures ExecuteAll(ss, i, env) == Interpret(ss[i..], false, env)
    decreases |ss| - i
  {
    assert forall j :: 0 <= j < |ss[i..]| ==> ss[i..][j] == ss[i + j];
    if i < |ss| {
      var first := Execute(ss[i].value, env);
      assert ss[i..][0] == ss[i];
      assert ss[i..][1..] == ss[i + 1..];
      if first.error.None? {
        ExecuteAllIsInterpret(ss, i + 1, first.env);
      }
    }
  }

  /** A block runs its statements like a program, in a fresh innermost scope that is then dropped. */
  lemma BlockIsScopedProgram(ss: seq<Option<Stmt>>, env: Env)
    requires AllExecutable(ss)
    ensures Executable(Block(ss))
    ensures var inner := Interpret(ss, false, [map[]] + env);
      Execute(Block(ss), env) == Executed(inner.env[1..], inner.output, inner.error)
  {
    ExecuteAllIsInterpret(ss, 0, [map[]] + env);
    assert ss[0..] == ss;
  }

  /** The first element and the tail of a concatenation whose first part is not empty. */
  lemma AppendParts(ss: seq<Option<Stmt>>, rest: seq<Option<Stmt>>, all: seq<Option<Stmt>>)
    requires all == ss + rest
    ensures AllExecutable(ss) && AllExecutable(rest) ==> AllExecutable(all)
    ensures |ss| == 0 ==> all == rest
    ensures |ss| > 0 ==> all[0] == ss[0] && all[1..] == ss[1..] + rest
  {
    assert forall i :: 0 <= i < |all| ==> all[i] == if i < |ss| then ss[i] else rest[i - |ss|];
    if |ss| > 0 {
      assert all[1..] == ss[1..] + rest;
    }
  }

  /** `a` followed by `b`, which ran from the environment `a` left: after an error in `a`, `b` never ran. */
  function Then(a: Executed, b: Executed): Executed
  {
    if a.error.Some? then a else Executed(b.env, a.output + b.output, b.error)
  }

  lemma ThenAssociates(a: Executed, b: Executed, c: Executed)
    requires a.error.None?
    ensures Then(a, Then(b, c)) == Then(Then(a, b), c)
  {
    assert a.output + (b.output + c.output) == (a.output + b.output) + c.output;
  }

  /**
    Running one program after another is running their concatenation, and a
    runtime error in the first program means nothing of the second runs.
  */
  lemma InterpretAppend(ss: seq<Option<Stmt>>, rest: seq<Option<Stmt>>, repl: bool, env: Env)
    requires AllExecutable(ss) && AllExecutable(rest)
    ensures AllExecutable(ss + rest)
    ensures var a := Interpret(ss, repl, env);
      a.error.Some? ==> Interpret(ss + rest, repl, env) == a
    ensures var a := Interpret(ss, repl, env);
      var b := Interpret(rest, repl, a.env);
      a.error.None? ==> Interpret(ss + rest, repl, env) == Executed(b.env, a.output + b.output, b.error)
  {
    InterpretConcatenation(ss, rest, ss + rest, repl, env);
  }

  lemma {:induction false} InterpretConcatenation(ss: seq<Option<Stmt>>, rest: seq<Option<Stmt>>, all: seq<Option<Stmt>>, repl: bool, env: Env)
    requires AllExecutable(ss) && AllExecutable(rest) && all == ss + rest
    ensures AllExecutable(all)
    ensures var a := Interpret(ss, repl, env);
      Interpret(all, repl, env) == Then(a, Interpret(rest, repl, a.env))
    decreases |ss|
  {
    AppendParts(ss, rest, all);
    if |ss| > 0 {
      var first := RunTopLevel(ss[0].value, repl, env);
      if first.error.None? {
        InterpretConcatenation(ss[1..], rest, all[1..], repl, first.env);
        var a := Interpret(ss[1..], repl, first.env);
        ThenAssociates(first, a, Interpret(rest, repl, a.env));
      }
    }
  }

  /** A runtime error aborts the program: statements after the failing one never run. */
  lemma ErrorStopsProgram(ss: seq<Option<Stmt>>, rest: seq<Option<Stmt>>, repl: bool, env: Env)
    requires AllExecutable(ss) && AllExecutable(rest)
    requires Interpret(ss, repl, env).error.Some?
    ensures AllExecutable(ss + rest)
    ensures Interpret(ss + rest, repl, env) == Interpret(ss, repl, env)
  {
    InterpretAppend(ss, rest, repl, env);
  }

  /** What the repl flag does to one statement: an expression statement becomes a print. */
  function ReplForm(s: Stmt): (r: Stmt)
    ensures Executable(s) ==> Executable(r)
    ensures !s.Expression? ==> r == s
    ensures s.Expression? ==> r.Print? && r.expression == s.expression
  {
    if s.Expression? then Print(s.expression) else s
  }

  function ReplProgram(ss: seq<Option<Stmt>>): (r: seq<Option<Stmt>>)
    requires AllExecutable(ss)
    ensures |r| == |ss| && AllExecutable(r)
    ensures forall i :: 0 <= i < |ss| ==> r[i] == Some(ReplForm(ss[i].value))
  {
    seq(|ss|, i requires 0 <= i < |ss| => Some(ReplForm(ss[i].value)))
  }

  /**
    Repl mode differs from running a file only at the top level: it runs the
    program with every top-level expression statement turned into a print
    statement, and expression statements nested in blocks still print
    nothing.
  */
  lemma {:induction false} ReplPrintsTopLevelExpressions(ss: seq<Option<Stmt>>, env: Env)
    requires AllExecutable(ss)
    ensures Interpret(ss, true, env) == Interpret(ReplProgram(ss), false, env)
    decreases |ss|
  {
    if |ss| > 0 {
      var first := RunTopLevel(ss[0].value, true, env);
      assert first == RunTopLevel(ReplForm(ss[0].value), false, env);
      assert ReplProgram(ss)[1..] == ReplProgram(ss[1..]);
      if first.error.None? {
        ReplPrintsTopLevelExpressions(ss[1..], first.env);
      }
    }
  }

  /** A program with no top-level expression statement behaves the same in both modes. */
  lemma ReplWithoutExpressionsIsBatch(ss: seq<Option<Stmt>>, env: Env)
    requires AllExecutable(ss)
    requires forall i :: 0 <= i < |ss| ==> !ss[i].value.Expression?
    ensures Interpret(ss, true, env) == Interpret(ss, false, env)
  {
    ReplPrintsTopLevelExpressions(ss, env);
    assert ReplProgram(ss) == ss;
  }

  /** In a file, an expression statement prints nothing; in the repl it prints its value. */
  lemma ExpressionStatementOutput(e: Expr, env: Env)
    requires ValidOps(e)
    ensures var a := Evaluate(e, env);
      Interpret([Some(Expression(e))], false, env) == Executed(a.env, [], Error(a.result))
    ensures var a := Evaluate(e, env);
      Interpret([Some(Expression(e))], true, env) ==
      Executed(a.env, if a.result.Ok? then [a.result.value] else [], Error(a.result))
  {
    var ss := [Some(Expression(e))];
    assert ss[1..] == [];
  }
}
