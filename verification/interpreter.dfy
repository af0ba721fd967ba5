/**
  The tree-walking evaluator (Interpreter.java). The mutable `environment`
  field becomes an environment threaded through evaluation and returned
  with every result — also with an error, since assignments made before a
  runtime error stay done. Printed lines are recorded as the printed values;
  `Stringify` gives their text.
*/
module Interpreter {
  import opened Results
  import opened Doubles
  import opened Values
  import opened Tokens
  import opened Errors
  import opened Ast
  import opened Environment

  /** An expression's value (or runtime error) and the environment after evaluating it. */
  datatype Evaluated = Evaluated(env: Env, result: Result<Value, RuntimeError>)

  /** The environment after running statements, what they printed, and the error that stopped them. */
  datatype Executed = Executed(env: Env, output: seq<Value>, error: Option<RuntimeError>)

  const NumberOperand := "Operand must be a number."
  const NumberOperands := "Operands must be numbers."
  const PlusOperands := "Operands can be either numbers or strings."

  /** `isTruthy`: nil and false are falsy; everything else, 0 and "" included, is truthy. */
  function IsTruthy(v: Value): (r: bool)
    ensures r <==> !(v.Nil? || v == Bool(false))
  {
    match v
    case Nil => false
    case Bool(b) => b
    case _ => true
  }

  /** `isEqual`: null equals only null, otherwise Java `equals`, which never equates different types. */
  function IsEqual(a: Value, b: Value): (r: bool)
    ensures r <==> a == b
  {
    if a.Nil? && b.Nil? then true
    else if a.Nil? || b.Nil? then false
    else match (a, b)
      case (Bool(x), Bool(y)) => x == y
      case (Num(x), Num(y)) => x == y
      case (Str(x), Str(y)) => x == y
      case _ => false
  }

  /** `visitUnaryExpr` once the operand is evaluated. */
  function ApplyUnary(op: Token, v: Value): (r: Result<Value, RuntimeError>)
    requires op.kind in {BANG, MINUS}
    ensures op.kind == BANG ==> r == Ok(Bool(!IsTruthy(v)))
    ensures op.kind == MINUS ==> (r.Ok? <==> v.Num?)
    ensures op.kind == MINUS && r.Ok? ==> r.value.Num?
    ensures r.Err? ==> r.error == RuntimeError(op, NumberOperand)
  {
    match op.kind
    case MINUS => if v.Num? then Ok(Num(Negate(v.d))) else Err(RuntimeError(op, NumberOperand))
    case BANG => Ok(Bool(!IsTruthy(v)))
  }

  /** Operators whose operands `checkNumberOperand` requires to be numbers. */
  predicate NumericOperator(kind: TokenType)
  {
    kind in {MINUS, SLASH, STAR, GREATER, GREATER_EQUAL, LESS, LESS_EQUAL}
  }

  /** `visitBinaryExpr` once both operands are evaluated. */
  function ApplyBinary(op: Token, l: Value, r: Value): (res: Result<Value, RuntimeError>)
    requires TierOf(op.kind) > 0
    ensures op.kind == EQUAL_EQUAL ==> res == Ok(Bool(l == r))
    ensures op.kind == BANG_EQUAL ==> res == Ok(Bool(l != r))
    ensures op.kind == PLUS ==> (res.Ok? <==> (l.Num? && r.Num?) || (l.Str? && r.Str?))
    ensures op.kind == PLUS && l.Str? && r.Str? ==> res == Ok(Str(l.s + r.s))
    ensures op.kind == PLUS && res.Err? ==> res.error == RuntimeError(op, PlusOperands)
    ensures NumericOperator(op.kind) ==> (res.Ok? <==> l.Num? && r.Num?)
    ensures NumericOperator(op.kind) && res.Err? ==> res.error == RuntimeError(op, NumberOperands)
    ensures TierOf(op.kind) >= 3 && res.Ok? ==> res.value.Bool?
    ensures TierOf(op.kind) <= 2 && res.Ok? ==> res.value.Num? || res.value.Str?
  {
    var numbers := l.Num? && r.Num?;
    var wrongTypes := Err(RuntimeError(op, NumberOperands));
    match op.kind
    case MINUS => if numbers then Ok(Num(Subtract(l.d, r.d))) else wrongTypes
    case PLUS =>
      if numbers then Ok(Num(Add(l.d, r.d)))
      else if l.Str? && r.Str? then Ok(Str(l.s + r.s))
      else Err(RuntimeError(op, PlusOperands))
    case SLASH => if numbers then Ok(Num(Divide(l.d, r.d))) else wrongTypes
    case STAR => if numbers then Ok(Num(Multiply(l.d, r.d))) else wrongTypes
    case GREATER => if numbers then Ok(Bool(Less(r.d, l.d))) else wrongTypes
    case GREATER_EQUAL => if numbers then Ok(Bool(LessOrEqual(r.d, l.d))) else wrongTypes
    case LESS => if numbers then Ok(Bool(Less(l.d, r.d))) else wrongTypes
    case LESS_EQUAL => if numbers then Ok(Bool(LessOrEqual(l.d, r.d))) else wrongTypes
    case EQUAL_EQUAL => Ok(Bool(IsEqual(l, r)))
    case BANG_EQUAL => Ok(Bool(!IsEqual(l, r)))
  }

  /**
    `evaluate`. Evaluation never adds or removes a scope or a binding: it can
    only change the values of names already bound.
  */
  function Evaluate(e: Expr, env: Env): (r: Evaluated)
    requires ValidOps(e)
    ensures SameBindings(r.env, env)
    decreases e
  {
    match e
    case Literal(v) => Evaluated(env, Ok(v))
    case Grouping(inner) => Evaluate(inner, env)
    case Variable(name) => Evaluated(env, Get(env, name))
    case Assign(name, value) =>
      var a := Evaluate(value, env);
      if a.result.Err? then a
      else
        (match Environment.Assign(a.env, name, a.result.value)
         case Err(err) => Evaluated(a.env, Err(err))
         case Ok(updated) => Evaluated(updated, a.result))
    case Unary(op, right) =>
      var a := Evaluate(right, env);
      if a.result.Err? then a
      else Evaluated(a.env, ApplyUnary(op, a.result.value))
    case Binary(left, op, right) =>
      var a := Evaluate(left, env);
      if a.result.Err? then a
      else
        var b := Evaluate(right, a.env);
        if b.result.Err? then b
        else Evaluated(b.env, ApplyBinary(op, a.result.value, b.result.value))
    case Ternary(first, _, second, _, last) =>
      var c := Evaluate(first, env);
      if c.result.Err? then c
      else if IsTruthy(c.result.value) then Evaluate(second, c.env)
      else Evaluate(last, c.env)
  }

  /**
    `execute`. A statement keeps the chain's shape: the outer scopes keep
    their names, the innermost scope can only gain names (by `var`), and a
    block leaves every scope with exactly the names it had, whether it
    finishes or stops on an error.
  */
  function Execute(s: Stmt, env: Env): (r: Executed)
    requires Executable(s)
    ensures |r.env| == |env|
    ensures env[0].Keys <= r.env[0].Keys
    ensures forall i :: 1 <= i < |env| ==> r.env[i].Keys == env[i].Keys
    ensures s.Block? || s.Expression? || s.Print? ==> SameBindings(r.env, env)
    decreases s, 1
  {
    match s
    case Expression(e) =>
      var a := Evaluate(e, env);
      Executed(a.env, [], Error(a.result))
    case Print(e) =>
      var a := Evaluate(e, env);
      Executed(a.env, if a.result.Ok? then [a.result.value] else [], Error(a.result))
    case Var(name, init) =>
      var a := if init.Some? then Evaluate(init.value, env) else Evaluated(env, Ok(Nil));
      if a.result.Err? then Executed(a.env, [], Error(a.result))
      else Executed(Define(a.env, name.lexeme, a.result.value), [], None)
    case Block(ss) =>
      var inner := ExecuteAll(ss, 0, [map[]] + env);
      Executed(inner.env[1..], inner.output, inner.error)
  }

  /** The error of a result, if it has one. */
  function Error(r: Result<Value, RuntimeError>): (e: Option<RuntimeError>)
    ensures e.Some? <==> r.Err?
  {
    if r.Err? then Some(r.error) else None
  }

  /**
    The loop of `executeBlock` from the `i`-th statement: statements in
    order, stopping at the first runtime error.
  */
  function ExecuteAll(ss: seq<Option<Stmt>>, i: nat, env: Env): (r: Executed)
    requires i <= |ss|
    requires forall j :: i <= j < |ss| ==> ss[j].Some? && Executable(ss[j].value)
    ensures |r.env| == |env|
    ensures env[0].Keys <= r.env[0].Keys
    ensures forall k :: 1 <= k < |env| ==> r.env[k].Keys == env[k].Keys
    decreases Block(ss), 0, |ss| - i
  {
    if i == |ss| then Executed(env, [], None)
    else
      var first := Execute(ss[i].value, env);
      if first.error.Some? then first
      else
        var rest := ExecuteAll(ss, i + 1, first.env);
        Executed(rest.env, first.output + rest.output, rest.error)
  }

  /** The global scope a new interpreter starts with. */
  const Globals: Env := [map[]]

  /** One top-level statement of `interpret`: in repl mode an expression statement prints its value. */
  function RunTopLevel(s: Stmt, repl: bool, env: Env): (r: Executed)
    requires Executable(s)
    ensures |r.env| == |env|
  {
    if repl && s.Expression? then
      var a := Evaluate(s.expression, env);
      Executed(a.env, if a.result.Ok? then [a.result.value] else [], Error(a.result))
    else Execute(s, env)
  }

  /**
    `interpret`: run the statements in order. The first runtime error is
    reported and stops the whole remaining list; nothing after it runs.
  */
  function Interpret(ss: seq<Option<Stmt>>, repl: bool, env: Env): (r: Executed)
    requires AllExecutable(ss)
    ensures |r.env| == |env|
    decreases |ss|
  {
    if |ss| == 0 then Executed(env, [], None)
    else
      var first := RunTopLevel(ss[0].value, repl, env);
      if first.error.Some? then first
      else
        var rest := Interpret(ss[1..], repl, first.env);
        Executed(rest.env, first.output + rest.output, rest.error)
  }

  predicate EndsWithPointZero(text: string)
  {
    |text| >= 2 && text[|text| - 2..] == ".0"
  }

  /**
    `stringify`: nil prints as "nil"; a number prints as Java renders the
    double (`numberText`) with a trailing ".0" removed; booleans and strings
    print as themselves.
  */
  function Stringify(v: Value, numberText: Double -> string): (r: string)
    ensures v == Nil ==> r == "nil"
    ensures v.Str? ==> r == v.s
    ensures v.Bool? ==> r == (if v.b then "true" else "false")
    ensures v.Num? && EndsWithPointZero(numberText(v.d)) ==> r + ".0" == numberText(v.d)
    ensures v.Num? && !EndsWithPointZero(numberText(v.d)) ==> r == numberText(v.d)
  {
    match v
    case Nil => "nil"
    case Num(d) =>
      var text := numberText(d);
      if EndsWithPointZero(text) then
        assert text == text[..|text| - 2] + text[|text| - 2..];
        text[..|text| - 2]
      else text
    case Bool(b) => if b then "true" else "false"
    case Str(s) => s
  }
}
