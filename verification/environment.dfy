/**
  The scope chain (Environment.java) as a sequence of maps, innermost scope
  first; the last map is the global scope. A binding to Nil stands for the
  Java null slot, which means "declared but not initialised".
*/
module Environment {
  import opened Results
  import opened Values
  import opened Tokens
  import opened Errors

  type Scope = map<string, Value>

  /** A chain as the interpreter holds it: there is always a global scope. */
  type Env = e: seq<Scope> | |e| > 0 witness [map[]]

  function UndefinedMessage(name: string): string
  {
    "Undefined variable '" + name + "'."
  }

  function UninitialisedMessage(name: string): string
  {
    "Variable '" + name + "' cannot be accessed before initialization."
  }

  /** Scope `i` is the innermost one that binds `name`. */
  ghost predicate Innermost(env: seq<Scope>, name: string, i: int)
  {
    0 <= i < |env| && name in env[i] && forall j :: 0 <= j < i ==> name !in env[j]
  }

  /** No scope of the chain binds `name`. */
  ghost predicate Unbound(env: seq<Scope>, name: string)
  {
    forall i :: 0 <= i < |env| ==> name !in env[i]
  }

  /** The two chains have the same scopes with the same names bound in each. */
  ghost predicate SameBindings(a: seq<Scope>, b: seq<Scope>)
  {
    |a| == |b| && forall i :: 0 <= i < |a| ==> a[i].Keys == b[i].Keys
  }

  /** `define`: bind or rebind `name` in the innermost scope; the other scopes are untouched. */
  function Define(env: Env, name: string, v: Value): (r: Env)
    ensures |r| == |env| && r[1..] == env[1..]
    ensures r[0].Keys == env[0].Keys + {name} && r[0][name] == v
    ensures forall n :: n in env[0] && n != name ==> r[0][n] == env[0][n]
  {
    env[0 := env[0][name := v]]
  }

  /**
    `get`: the value in the innermost scope binding the name. Outer bindings
    are shadowed; a Nil slot is an access before initialisation; a name no
    scope binds is undefined.
  */
  function Get(env: seq<Scope>, name: Token): (r: Result<Value, RuntimeError>)
    ensures Unbound(env, name.lexeme) <==> r == Err(RuntimeError(name, UndefinedMessage(name.lexeme)))
    ensures forall i :: Innermost(env, name.lexeme, i) ==>
              if env[i][name.lexeme] == Nil
              then r == Err(RuntimeError(name, UninitialisedMessage(name.lexeme)))
              else r == Ok(env[i][name.lexeme])
    decreases |env|
  {
    if |env| == 0 then Err(RuntimeError(name, UndefinedMessage(name.lexeme)))
    else if name.lexeme in env[0] then
      if env[0][name.lexeme] == Nil then
        assert UninitialisedMessage(name.lexeme)[0] != UndefinedMessage(name.lexeme)[0];
        Err(RuntimeError(name, UninitialisedMessage(name.lexeme)))
      else Ok(env[0][name.lexeme])
    else
      var r := Get(env[1..], name);
      assert forall i :: Innermost(env, name.lexeme, i) ==> i > 0 && Innermost(env[1..], name.lexeme, i - 1);
      r
  }

  /**
    `assign`: overwrite the slot of the innermost scope binding the name,
    leaving every other scope as it was; it never creates a binding and
    fails on a name no scope binds.
  */
  function Assign(env: seq<Scope>, name: Token, v: Value): (r: Result<seq<Scope>, RuntimeError>)
    ensures Unbound(env, name.lexeme) <==> r.Err?
    ensures r.Err? ==> r.error == RuntimeError(name, UndefinedMessage(name.lexeme))
    ensures forall i :: Innermost(env, name.lexeme, i) ==> r == Ok(env[i := env[i][name.lexeme := v]])
    ensures r.Ok? ==> SameBindings(r.value, env)
    decreases |env|
  {
    if |env| == 0 then Err(RuntimeError(name, UndefinedMessage(name.lexeme)))
    else if name.lexeme in env[0] then Ok(env[0 := env[0][name.lexeme := v]])
    else
      match Assign(env[1..], name, v)
      case Err(e) => Err(e)
      case Ok(outer) =>
        forall i | Innermost(env, name.lexeme, i)
          ensures [env[0]] + outer == env[i := env[i][name.lexeme := v]]
        {
          assert Innermost(env[1..], name.lexeme, i - 1);
          assert outer == env[1..][i - 1 := env[i][name.lexeme := v]];
          UpdateBelowHead(env, i, env[i][name.lexeme := v]);
        }
        Ok([env[0]] + outer)
  }

  /** Updating scope `i - 1` of the tail and putting the head back is updating scope `i`. */
  lemma UpdateBelowHead(env: seq<Scope>, i: nat, s: Scope)
    requires 0 < i < |env|
    ensures [env[0]] + env[1..][i - 1 := s] == env[i := s]
  {
    var a := [env[0]] + env[1..][i - 1 := s];
    assert forall j :: 0 <= j < |env| ==> a[j] == env[i := s][j];
  }

  /**
    After `define(n, v)` the name reads back as `v` when `v` is not Nil, and
    as an access before initialisation when it is; other names read as before.
  */
  lemma DefineThenGet(env: Env, name: Token, v: Value, other: Token)
    ensures v != Nil ==> Get(Define(env, name.lexeme, v), name) == Ok(v)
    ensures v == Nil ==> Get(Define(env, name.lexeme, v), name) == Err(RuntimeError(name, UninitialisedMessage(name.lexeme)))
    ensures other.lexeme != name.lexeme ==> Get(Define(env, name.lexeme, v), other) == Get(env, other)
  {
    var r := Define(env, name.lexeme, v);
    assert Innermost(r, name.lexeme, 0);
    if other.lexeme == name.lexeme {
    } else if Unbound(env, other.lexeme) {
      assert Unbound(r, other.lexeme);
    } else {
      var i :| 0 <= i < |env| && other.lexeme in env[i];
      var k := FirstBinding(env, other.lexeme, i);
      assert Innermost(r, other.lexeme, k);
    }
  }

  /** The innermost scope binding `name`, given that scope `i` binds it. */
  lemma FirstBinding(env: seq<Scope>, name: string, i: nat) returns (k: nat)
    requires i < |env| && name in env[i]
    ensures k <= i && Innermost(env, name, k)
    decreases i
  {
    if j :| 0 <= j < i && name in env[j] {
      k := FirstBinding(env, name, j);
    } else {
      k := i;
    }
  }

  /** After a successful `assign(n, v)` with `v` not Nil, the name reads back as `v`. */
  lemma AssignThenGet(env: seq<Scope>, name: Token, v: Value)
    requires Assign(env, name, v).Ok? && v != Nil
    ensures Get(Assign(env, name, v).value, name) == Ok(v)
  {
    var i :| 0 <= i < |env| && name.lexeme in env[i];
    var k := FirstBinding(env, name.lexeme, i);
    var r := Assign(env, name, v).value;
    assert Innermost(r, name.lexeme, k);
  }
}
