/**
 Where the builder's translation is wrong: each pattern it gets wrong, with exactly the inputs on
 which the mistake does not show.
*/
module RustMistakes {
  import opened Sequences
  import opened PythonSubset
  import opened RustEmission
  import opened RustTypes
  import opened RustSimulation

  function PythonRunFor(fuel: nat, body: Block, params: Env): Control {
    ExecBlock(fuel, body, params).control
  }

  function RustRunFor(fuel: nat, body: Block, params: Env): Control {
    RunBlock(fuel, EmitBlock(body), ParamScopes(params)).control
  }

  /** Without loops no fuel is needed. */
  function PythonRun(body: Block, params: Env): Control {
    PythonRunFor(0, body, params)
  }

  function RustRun(body: Block, params: Env): Control {
    RustRunFor(0, body, params)
  }

  /* ----- Assigning in a block to a name from outside ----- */

  /** x = value; if test: x = inner; return x */
  function Shadowing(x: string, value: Expr, test: Expr, inner: Expr): Block {
    Then(Assign([x], value), Then(If(test, Then(Assign([x], inner), End), End), Then(Return(Name(x)), End)))
  }

  /** All three expressions are safe where they stand, and the run's arithmetic is exact. */
  ghost predicate ShadowingRuns(sig: Signature, params: Env, x: string, value: Expr, test: Expr, inner: Expr) {
    && Arguments(sig, params) && ExecBlock(0, Shadowing(x, value, test, inner), params).exact
    && TypeOf(value, ParamNames(sig)).Some?
    && var names := DeclareOne(ParamNames(sig), x, TypeOf(value, ParamNames(sig)).value);
      TypeOf(test, names) == Some(BoolType) && TypeOf(inner, [map[]] + names).Some?
  }

  /** The block is entered and assigns another value. */
  predicate Changes(params: Env, x: string, value: Expr, test: Expr, inner: Expr) {
    var a := EvalExpr(value, params).r;
    a.Ok? && var env := params[x := a.v];
      var (c, b) := (EvalExpr(test, env).r, EvalExpr(inner, env).r);
      c.Ok? && Truthy(c.v) && b.Ok? && b.v != a.v
  }

  /** What Python makes of it. */
  lemma ShadowingPython(params: Env, x: string, value: Expr, test: Expr, inner: Expr)
    ensures var a := EvalExpr(value, params).r;
      PythonRun(Shadowing(x, value, test, inner), params) ==
        if a.Err? then Failed
        else
          var env := params[x := a.v];
          var (c, b) := (EvalExpr(test, env).r, EvalExpr(inner, env).r);
          if c.Err? then Failed else if !Truthy(c.v) then Returned(a.v) else if b.Err? then Failed else Returned(b.v)
  {
    AssignOne(0, x, value, params);
    var a := EvalExpr(value, params).r;
    if a.Ok? { BlockPython(params[x := a.v], x, a.v, test, inner); }
  }

  lemma BlockPython(env: Env, x: string, a: Val, test: Expr, inner: Expr)
    requires x in env && env[x] == a
    ensures var (c, b) := (EvalExpr(test, env).r, EvalExpr(inner, env).r);
      ExecBlock(0, Then(If(test, Then(Assign([x], inner), End), End), Then(Return(Name(x)), End)), env).control ==
        if c.Err? then Failed else if !Truthy(c.v) then Returned(a) else if b.Err? then Failed else Returned(b.v)
  {
    var (c, b) := (EvalExpr(test, env).r, EvalExpr(inner, env).r);
    var (body, last) := (Then(Assign([x], inner), End), Then(Return(Name(x)), End));
    OnlyAssign(x, inner, env);
    ReturnName(x, env);
    if c.Ok? && Truthy(c.v) && b.Ok? { ReturnName(x, env[x := b.v]); }
    var o := ExecStmt(0, If(test, body, End), env);
    assert ExecBlock(0, End, env) == Outcome(Normal, env, true);
    assert o.control == if c.Err? || (Truthy(c.v) && b.Err?) then Failed else Normal;
    assert c.Ok? && !Truthy(c.v) ==> o.env == env;
    assert c.Ok? && Truthy(c.v) && b.Ok? ==> o.env == env[x := b.v];
    assert ExecBlock(0, Then(If(test, body, End), last), env).control ==
      if o.control.Normal? then ExecBlock(0, last, o.env).control else o.control;
  }

  lemma OnlyAssign(x: string, value: Expr, env: Env)
    ensures var (a, o) := (EvalExpr(value, env), ExecBlock(0, Then(Assign([x], value), End), env));
      if a.r.Err? then o.control == Failed else o.control == Normal && o.env == env[x := a.r.v]
  {
    AssignOne(0, x, value, env);
  }

  lemma ReturnName(x: string, env: Env)
    ensures ExecBlock(0, Then(Return(Name(x)), End), env).control == if x in env then Returned(env[x]) else Failed
  {
  }

  lemma AssignOne(fuel: nat, x: string, value: Expr, env: Env)
    ensures var (a, o) := (EvalExpr(value, env), ExecStmt(fuel, Assign([x], value), env));
      if a.r.Err? then o == Outcome(Failed, env, a.exact) else o == Outcome(Normal, env[x := a.r.v], a.exact)
  {
    assert [x][1..] == [];
    var a := EvalExpr(value, env);
    if a.r.Ok? { assert SetAll(env, [x], a.r.v) == SetAll(env[x := a.r.v], [], a.r.v); }
  }

  lemma OneLet(x: string, value: Rust, tail: RustBlock)
    ensures EmitLets([x], value, tail) == RThen(Let(x, value), tail)
  {
    assert [x][1..] == [];
  }

  lemma ShadowingText(x: string, value: Expr, test: Expr, inner: Expr)
    ensures EmitBlock(Shadowing(x, value, test, inner)) ==
      RThen(Let(x, Whole(Emit(value))), RThen(RIf(Whole(Emit(test)), RThen(Let(x, Whole(Emit(inner))), REnd), REnd),
        RThen(RReturn(RVar(x)), REnd)))
  {
    OneLet(x, Whole(Emit(inner)), REnd);
    var rest := Then(If(test, Then(Assign([x], inner), End), End), Then(Return(Name(x)), End));
    OneLet(x, Whole(Emit(value)), EmitBlock(rest));
    assert EmitBlock(Then(Assign([x], inner), End)) == RThen(Let(x, Whole(Emit(inner))), REnd);
    var last := RThen(RReturn(RVar(x)), REnd);
    assert EmitBlock(Then(Return(Name(x)), End)) == last;
    assert EmitBlock(End) == REnd;
    assert EmitBlock(rest) == RThen(RIf(Whole(Emit(test)), RThen(Let(x, Whole(Emit(inner))), REnd), REnd), last);
  }

  /** A block that only declares a variable leaves nothing behind. */
  lemma ScopeDropsLet(fuel: nat, x: string, value: Rust, scopes: Scopes)
    ensures var a := EvalRust(value, [map[]] + scopes);
      RunScope(fuel, RThen(Let(x, value), REnd), scopes) == RustOutcome(if a.Err? then Failed else Normal, scopes)
  {
    var inner := [map[]] + scopes;
    assert inner[1..] == scopes;
    var a := EvalRust(value, inner);
    if a.Ok? {
      var inner2 := inner[0 := inner[0][x := Binding(a.v, true)]];
      assert RunStmt(fuel, Let(x, value), inner) == RustOutcome(Normal, inner2);
      assert RunBlock(fuel, RThen(Let(x, value), REnd), inner) == RunBlock(fuel, REnd, inner2);
      assert inner2[1..] == scopes;
    }
  }

  function LetFirst(scopes: Scopes, x: string, a: Val): Scopes
    requires scopes != []
  {
    scopes[0 := scopes[0][x := Binding(a, true)]]
  }

  /** What Rust makes of the text, given what its three expressions evaluate to. */
  lemma ShadowingRust(x: string, value: Rust, test: Rust, inner: Rust, scopes: Scopes, a: Res, c: Res, b: Res)
    requires scopes != [] && EvalRust(value, scopes) == a && Typed(c, BoolType)
    requires a.Ok? ==> EvalRust(test, LetFirst(scopes, x, a.v)) == c
    requires a.Ok? && c.Ok? && Truthy(c.v) ==> EvalRust(inner, [map[]] + LetFirst(scopes, x, a.v)) == b
    ensures RunBlock(0, RThen(Let(x, value), RThen(RIf(test, RThen(Let(x, inner), REnd), REnd), RThen(RReturn(RVar(x)), REnd))), scopes).control
         == if a.Err? || c.Err? || (Truthy(c.v) && b.Err?) then Failed else Returned(a.v)
  {
    if a.Err? {
      assert RunStmt(0, Let(x, value), scopes).control == Failed;
    } else {
      assert RunStmt(0, Let(x, value), scopes) == RustOutcome(Normal, LetFirst(scopes, x, a.v));
      AfterLet(x, test, inner, LetFirst(scopes, x, a.v), a.v, c, b);
    }
  }

  lemma AfterLet(x: string, test: Rust, inner: Rust, scopes: Scopes, a: Val, c: Res, b: Res)
    requires scopes != [] && x in scopes[0] && scopes[0][x].v == a && EvalRust(test, scopes) == c && Typed(c, BoolType)
    requires c.Ok? && Truthy(c.v) ==> EvalRust(inner, [map[]] + scopes) == b
    ensures RunBlock(0, RThen(RIf(test, RThen(Let(x, inner), REnd), REnd), RThen(RReturn(RVar(x)), REnd)), scopes).control
         == if c.Err? || (Truthy(c.v) && b.Err?) then Failed else Returned(a)
  {
    assert RunBlock(0, RThen(RReturn(RVar(x)), REnd), scopes).control == Returned(a);
    assert ([map[]] + scopes)[1..] == scopes;
    ScopeDropsLet(0, x, inner, scopes);
    assert RunScope(0, REnd, scopes) == RustOutcome(Normal, scopes);
    assert RunStmt(0, RIf(test, RThen(Let(x, inner), REnd), REnd), scopes)
      == RustOutcome(if c.Err? || (Truthy(c.v) && b.Err?) then Failed else Normal, scopes);
  }

  lemma ShadowingRustRun(sig: Signature, params: Env, x: string, value: Expr, test: Expr, inner: Expr)
    requires ShadowingRuns(sig, params, x, value, test, inner)
    ensures var a := EvalExpr(value, params).r;
      RustRun(Shadowing(x, value, test, inner), params) ==
        if a.Err? then Failed
        else
          var env := params[x := a.v];
          var (c, b) := (EvalExpr(test, env).r, EvalExpr(inner, env).r);
          if c.Err? || (Truthy(c.v) && b.Err?) then Failed else Returned(a.v)
  {
    var (names, scopes) := (ParamNames(sig), ParamScopes(params));
    ParamsTogether(sig, params);
    ShadowingText(x, value, test, inner);
    ShadowingExact(params, x, value, test, inner);
    ExprAgrees(value, names, scopes, params);
    var a := EvalExpr(value, params).r;
    var env := if a.Ok? then params[x := a.v] else params;
    var (c, b) := if a.Ok? then (EvalExpr(test, env).r, EvalExpr(inner, env).r) else (Err, Err);
    if a.Ok? {
      assert names[1..] == [];
      LetAgrees(names, scopes, params, x, a.v);
      InsideAgrees(DeclareOne(names, x, TypeOfVal(a.v)), LetFirst(scopes, x, a.v), env, test, inner);
    }
    ShadowingRust(x, Whole(Emit(value)), Whole(Emit(test)), Whole(Emit(inner)), scopes, a, c, b);
  }

  /** The block's assignment is lost in Rust: the two agree exactly when it would not have changed the value. */
  lemma ShadowingAgreesIff(sig: Signature, params: Env, x: string, value: Expr, test: Expr, inner: Expr)
    requires ShadowingRuns(sig, params, x, value, test, inner)
    ensures var body := Shadowing(x, value, test, inner);
      PythonRun(body, params) == RustRun(body, params) <==> !Changes(params, x, value, test, inner)
  {
    ShadowingPython(params, x, value, test, inner);
    ShadowingRustRun(sig, params, x, value, test, inner);
  }

  /** The test and, if it holds, the block's value evaluate alike. */
  lemma InsideAgrees(names: Names, scopes: Scopes, env: Env, test: Expr, inner: Expr)
    requires Together(names, scopes, env) && TypeOf(test, names) == Some(BoolType) && TypeOf(inner, [map[]] + names).Some?
    requires var c := EvalExpr(test, env); c.exact && (c.r.Ok? && Truthy(c.r.v) ==> EvalExpr(inner, env).exact)
    ensures var c := EvalExpr(test, env).r;
      && EvalRust(Whole(Emit(test)), scopes) == c && Typed(c, BoolType)
      && (c.Ok? && Truthy(c.v) ==> EvalRust(Whole(Emit(inner)), [map[]] + scopes) == EvalExpr(inner, env).r)
  {
    ExprAgrees(test, names, scopes, env);
    var c := EvalExpr(test, env).r;
    if c.Ok? && Truthy(c.v) {
      EnterScope(names, scopes, env);
      ExprAgrees(inner, [map[]] + names, [map[]] + scopes, env);
    }
  }

  /** An exact run evaluated its expressions exactly. */
  lemma ShadowingExact(params: Env, x: string, value: Expr, test: Expr, inner: Expr)
    requires ExecBlock(0, Shadowing(x, value, test, inner), params).exact
    ensures EvalExpr(value, params).exact
    ensures var a := EvalExpr(value, params).r;
      a.Ok? ==> var env := params[x := a.v];
        var c := EvalExpr(test, env);
        c.exact && (c.r.Ok? && Truthy(c.r.v) ==> EvalExpr(inner, env).exact)
  {
    var a := EvalExpr(value, params).r;
    AssignOne(0, x, value, params);
    if a.Ok? {
      var env := params[x := a.v];
      var body := Then(Assign([x], inner), End);
      assert ExecBlock(0, Then(If(test, body, End), Then(Return(Name(x)), End)), env).exact;
      ExactIf(env, x, test, inner);
    }
  }

  lemma ExactIf(env: Env, x: string, test: Expr, inner: Expr)
    requires ExecStmt(0, If(test, Then(Assign([x], inner), End), End), env).exact
    ensures var c := EvalExpr(test, env);
      c.exact && (c.r.Ok? && Truthy(c.r.v) ==> EvalExpr(inner, env).exact)
  {
    AssignOne(0, x, inner, env);
    var c := EvalExpr(test, env);
    if c.r.Ok? && Truthy(c.r.v) {
      assert ExecBlock(0, Then(Assign([x], inner), End), env).exact;
    }
  }

  /* ----- The same in a loop ----- */

  /** x = value; while test: x = inner; return x */
  function LoopShadowing(x: string, value: Expr, test: Expr, inner: Expr): Block {
    Then(Assign([x], value), Then(While(test, Then(Assign([x], inner), End), End), Then(Return(Name(x)), End)))
  }

  ghost predicate LoopRuns(sig: Signature, params: Env, fuel: nat, x: string, value: Expr, test: Expr, inner: Expr) {
    && Arguments(sig, params) && ExecBlock(fuel, LoopShadowing(x, value, test, inner), params).exact
    && TypeOf(value, ParamNames(sig)).Some?
    && var names := DeclareOne(ParamNames(sig), x, TypeOf(value, ParamNames(sig)).value);
      TypeOf(test, names) == Some(BoolType) && TypeOf(inner, [map[]] + names).Some?
  }

  /** The loop's body runs once, without failing. */
  predicate Enters(params: Env, x: string, value: Expr, test: Expr, inner: Expr) {
    var a := EvalExpr(value, params).r;
    a.Ok? && var env := params[x := a.v];
      var (c, b) := (EvalExpr(test, env).r, EvalExpr(inner, env).r);
      c.Ok? && Truthy(c.v) && b.Ok?
  }

  /** How the loop goes while its variable has the value it starts with. */
  function FirstRound(fuel: nat, a: Val, c: Res, b: Res): Control {
    if c.Err? then Failed
    else if !Truthy(c.v) then Returned(a)
    else if fuel == 0 then OutOfFuel
    else if b.Err? then Failed
    else OutOfFuel
  }

  /** Python's loop: as the first round says, unless the body runs. */
  lemma PythonLoop(fuel: nat, env: Env, x: string, a: Val, test: Expr, inner: Expr)
    requires x in env && env[x] == a
    requires var body := Then(Assign([x], inner), End);
      ExecBlock(fuel, Then(While(test, body, End), Then(Return(Name(x)), End)), env).exact
    ensures var (c, b) := (EvalExpr(test, env), EvalExpr(inner, env));
      && c.exact && (c.r.Ok? && Truthy(c.r.v) && fuel > 0 ==> b.exact)
      && (!(c.r.Ok? && Truthy(c.r.v) && b.r.Ok?) ==>
           ExecBlock(fuel, Then(While(test, Then(Assign([x], inner), End), End), Then(Return(Name(x)), End)), env).control == FirstRound(fuel, a, c.r, b.r))
  {
    var (c, b) := (EvalExpr(test, env), EvalExpr(inner, env));
    var (body, last) := (Then(Assign([x], inner), End), Then(Return(Name(x)), End));
    var o := ExecStmt(fuel, While(test, body, End), env);
    assert ExecBlock(fuel, End, env) == Outcome(Normal, env, true);
    assert o.exact;
    if c.r.Ok? && Truthy(c.r.v) && fuel > 0 {
      AssignOne(fuel - 1, x, inner, env);
      assert ExecBlock(fuel - 1, body, env).exact;
      if b.r.Err? { assert ExecBlock(fuel - 1, body, env).control == Failed; }
    } else if c.r.Ok? && !Truthy(c.r.v) {
      assert o.control == Normal && o.env == env;
      assert ExecBlock(fuel, last, env).control == Returned(a);
    }
  }

  /** Rust's loop: every round is the first one. */
  lemma {:induction false} RustLoop(fuel: nat, x: string, test: Rust, inner: Rust, scopes: Scopes, b: Val)
    requires scopes != [] && EvalRust(test, scopes) == Ok(VBool(true)) && EvalRust(inner, [map[]] + scopes) == Ok(b)
    ensures RunStmt(fuel, RWhile(test, RThen(Let(x, inner), REnd)), scopes) == RustOutcome(OutOfFuel, scopes)
    decreases fuel
  {
    if fuel > 0 {
      ScopeDropsLet(fuel - 1, x, inner, scopes);
      RustLoop(fuel - 1, x, test, inner, scopes, b);
    }
  }

  lemma RustLoopRun(fuel: nat, x: string, test: Rust, inner: Rust, scopes: Scopes, a: Val, c: Res, b: Res)
    requires scopes != [] && x in scopes[0] && scopes[0][x].v == a && EvalRust(test, scopes) == c && Typed(c, BoolType)
    requires c.Ok? && Truthy(c.v) && fuel > 0 ==> EvalRust(inner, [map[]] + scopes) == b
    ensures RunBlock(fuel, RThen(RWhile(test, RThen(Let(x, inner), REnd)), RThen(RReturn(RVar(x)), REnd)), scopes).control
         == FirstRound(fuel, a, c, b)
  {
    var body := RThen(Let(x, inner), REnd);
    var o := RunStmt(fuel, RWhile(test, body), scopes);
    if c.Ok? && Truthy(c.v) && fuel > 0 {
      if b.Ok? { RustLoop(fuel, x, test, inner, scopes, b.v); } else { ScopeDropsLet(fuel - 1, x, inner, scopes); }
    } else if c.Ok? && !Truthy(c.v) {
      assert o == RustOutcome(Normal, scopes);
      assert RunBlock(fuel, RThen(RReturn(RVar(x)), REnd), scopes).control == Returned(a);
    }
  }

  lemma LoopText(x: string, value: Expr, test: Expr, inner: Expr)
    ensures EmitBlock(LoopShadowing(x, value, test, inner)) ==
      RThen(Let(x, Whole(Emit(value))), RThen(RWhile(Whole(Emit(test)), RThen(Let(x, Whole(Emit(inner))), REnd)),
        RThen(RReturn(RVar(x)), REnd)))
  {
    OneLet(x, Whole(Emit(inner)), REnd);
    var rest := Then(While(test, Then(Assign([x], inner), End), End), Then(Return(Name(x)), End));
    OneLet(x, Whole(Emit(value)), EmitBlock(rest));
    assert EmitBlock(Then(Assign([x], inner), End)) == RThen(Let(x, Whole(Emit(inner))), REnd);
    var last := RThen(RReturn(RVar(x)), REnd);
    assert EmitBlock(Then(Return(Name(x)), End)) == last;
    assert EmitBlock(rest) == RThen(RWhile(Whole(Emit(test)), RThen(Let(x, Whole(Emit(inner))), REnd)), last);
  }

  lemma LoopPythonRun(params: Env, fuel: nat, x: string, value: Expr, test: Expr, inner: Expr)
    requires ExecBlock(fuel, LoopShadowing(x, value, test, inner), params).exact && EvalExpr(value, params).r.Ok?
    ensures var a := EvalExpr(value, params).r.v;
      var env := params[x := a];
      var (c, b) := (EvalExpr(test, env), EvalExpr(inner, env));
      && EvalExpr(value, params).exact && c.exact && (c.r.Ok? && Truthy(c.r.v) && fuel > 0 ==> b.exact)
      && (!Enters(params, x, value, test, inner) ==> PythonRunFor(fuel, LoopShadowing(x, value, test, inner), params) == FirstRound(fuel, a, c.r, b.r))
  {
    var a := EvalExpr(value, params).r.v;
    AssignOne(fuel, x, value, params);
    var rest := Then(While(test, Then(Assign([x], inner), End), End), Then(Return(Name(x)), End));
    assert ExecBlock(fuel, rest, params[x := a]).exact;
    PythonLoop(fuel, params[x := a], x, a, test, inner);
  }

  /** The test and the body's value, in the scopes after the first assignment. */
  lemma LoopParts(sig: Signature, params: Env, fuel: nat, x: string, value: Expr, test: Expr, inner: Expr)
    requires LoopRuns(sig, params, fuel, x, value, test, inner) && EvalExpr(value, params).r.Ok?
    ensures var a := EvalExpr(value, params).r.v;
      var (env, scopes1) := (params[x := a], LetFirst(ParamScopes(params), x, a));
      var (c, b) := (EvalExpr(test, env).r, EvalExpr(inner, env).r);
      && EvalRust(Whole(Emit(value)), ParamScopes(params)) == Ok(a)
      && EvalRust(Whole(Emit(test)), scopes1) == c && Typed(c, BoolType)
      && (c.Ok? && Truthy(c.v) && fuel > 0 ==> EvalRust(Whole(Emit(inner)), [map[]] + scopes1) == b)
  {
    var (names, scopes, a) := (ParamNames(sig), ParamScopes(params), EvalExpr(value, params).r.v);
    var env := params[x := a];
    LoopPythonRun(params, fuel, x, value, test, inner);
    ParamsTogether(sig, params);
    ExprAgrees(value, names, scopes, params);
    assert names[1..] == [];
    LetAgrees(names, scopes, params, x, a);
    var (names1, scopes1) := (DeclareOne(names, x, TypeOfVal(a)), LetFirst(scopes, x, a));
    ExprAgrees(test, names1, scopes1, env);
    var c := EvalExpr(test, env).r;
    if c.Ok? && Truthy(c.v) && fuel > 0 {
      EnterScope(names1, scopes1, env);
      ExprAgrees(inner, [map[]] + names1, [map[]] + scopes1, env);
    }
  }

  lemma LoopRustRun(sig: Signature, params: Env, fuel: nat, x: string, value: Expr, test: Expr, inner: Expr)
    requires LoopRuns(sig, params, fuel, x, value, test, inner) && EvalExpr(value, params).r.Ok?
    ensures var a := EvalExpr(value, params).r.v;
      var env := params[x := a];
      RustRunFor(fuel, LoopShadowing(x, value, test, inner), params) == FirstRound(fuel, a, EvalExpr(test, env).r, EvalExpr(inner, env).r)
  {
    var (scopes, a) := (ParamScopes(params), EvalExpr(value, params).r.v);
    var env := params[x := a];
    LoopParts(sig, params, fuel, x, value, test, inner);
    LoopText(x, value, test, inner);
    assert RunStmt(fuel, Let(x, Whole(Emit(value))), scopes) == RustOutcome(Normal, LetFirst(scopes, x, a));
    RustLoopRun(fuel, x, Whole(Emit(test)), Whole(Emit(inner)), LetFirst(scopes, x, a), a, EvalExpr(test, env).r, EvalExpr(inner, env).r);
  }

  lemma LoopNoValue(sig: Signature, params: Env, fuel: nat, x: string, value: Expr, test: Expr, inner: Expr)
    requires LoopRuns(sig, params, fuel, x, value, test, inner) && EvalExpr(value, params).r.Err?
    ensures var body := LoopShadowing(x, value, test, inner); PythonRunFor(fuel, body, params) == RustRunFor(fuel, body, params) == Failed
  {
    AssignOne(fuel, x, value, params);
    ParamsTogether(sig, params);
    assert EvalExpr(value, params).exact;
    ExprAgrees(value, ParamNames(sig), ParamScopes(params), params);
    LoopText(x, value, test, inner);
    assert RunStmt(fuel, Let(x, Whole(Emit(value))), ParamScopes(params)).control == Failed;
  }

  /**
   The loop body's assignment is lost in Rust, so its test never changes: once entered, the loop never ends.
   The two agree exactly when the loop is not entered, or fails in its first round, or Python's does not end.
  */
  lemma LoopShadowingAgreesIff(sig: Signature, params: Env, fuel: nat, x: string, value: Expr, test: Expr, inner: Expr)
    requires LoopRuns(sig, params, fuel, x, value, test, inner)
    ensures var (body, enters) := (LoopShadowing(x, value, test, inner), Enters(params, x, value, test, inner));
      var (python, rust) := (PythonRunFor(fuel, body, params), RustRunFor(fuel, body, params));
      (enters ==> rust == OutOfFuel) && (python == rust <==> !enters || python == OutOfFuel)
  {
    if EvalExpr(value, params).r.Ok? {
      LoopPythonRun(params, fuel, x, value, test, inner);
      LoopRustRun(sig, params, fuel, x, value, test, inner);
    } else {
      LoopNoValue(sig, params, fuel, x, value, test, inner);
    }
  }

  /** x = 0; while x < 3: x = x + 1; return x */
  function Counting(x: string): Block {
    LoopShadowing(x, Int(0), Compare(Name(x), One(Lt, Int(3))), Bin(Add, Name(x), Int(1)))
  }

  lemma CountingPython(fuel: nat, x: string)
    requires fuel >= 3
    ensures ExecBlock(fuel, Counting(x), map[]).exact && PythonRunFor(fuel, Counting(x), map[]) == Returned(VInt(3))
  {
    var (test, inner) := (Compare(Name(x), One(Lt, Int(3))), Bin(Add, Name(x), Int(1)));
    var env: Env := map[x := VInt(0)];
    var after: Env := env[x := VInt(3)];
    AssignOne(fuel, x, Int(0), map[]);
    CountingRounds(fuel, x, 0, env);
    ReturnOnly(fuel, Name(x), after);
    var rest := Then(While(test, Then(Assign([x], inner), End), End), Then(Return(Name(x)), End));
    assert ExecBlock(fuel, rest, env) == Outcome(Returned(VInt(3)), after, true);
  }

  lemma CountingTyped(x: string, names: Names)
    requires names != [] && Find(names, x) == Some(Decl(IntType, true))
    ensures TypeOf(Compare(Name(x), One(Lt, Int(3))), names) == Some(BoolType)
    ensures Find([map[]] + names, x) == Find(names, x) && TypeOf(Bin(Add, Name(x), Int(1)), [map[]] + names) == Some(IntType)
  {
    assert ([map[]] + names)[1..] == names;
  }

  lemma CountingStarts(x: string, env: Env)
    requires x in env && env[x] == VInt(0)
    ensures EvalExpr(Compare(Name(x), One(Lt, Int(3))), env).r == Ok(VBool(true))
    ensures EvalExpr(Bin(Add, Name(x), Int(1)), env).r == Ok(VInt(1))
  {
  }

  /** In Python it gives 3; in Rust it never ends. */
  lemma CountingNeverEnds(fuel: nat, x: string)
    requires fuel >= 3
    ensures PythonRunFor(fuel, Counting(x), map[]) == Returned(VInt(3)) && RustRunFor(fuel, Counting(x), map[]) == OutOfFuel
  {
    var (test, inner) := (Compare(Name(x), One(Lt, Int(3))), Bin(Add, Name(x), Int(1)));
    var (sig, params) := (Signature(map[], IntType), map[]);
    CountingPython(fuel, x);
    CountingTyped(x, DeclareOne(ParamNames(sig), x, IntType));
    CountingStarts(x, params[x := VInt(0)]);
    LoopShadowingAgreesIff(sig, params, fuel, x, Int(0), test, inner);
  }

  lemma {:induction false} CountingRounds(fuel: nat, x: string, i: nat, env: Env)
    requires i <= 3 && fuel >= 3 - i && x in env && env[x] == VInt(i)
    ensures var (test, inner) := (Compare(Name(x), One(Lt, Int(3))), Bin(Add, Name(x), Int(1)));
      ExecStmt(fuel, While(test, Then(Assign([x], inner), End), End), env) == Outcome(Normal, env[x := VInt(3)], true)
    decreases fuel
  {
    var (test, inner) := (Compare(Name(x), One(Lt, Int(3))), Bin(Add, Name(x), Int(1)));
    var body := Then(Assign([x], inner), End);
    assert EvalExpr(test, env) == Eval(Ok(VBool(i < 3)), true);
    if i < 3 {
      var env1: Env := env[x := VInt(i + 1)];
      assert EvalExpr(inner, env) == Eval(Ok(VInt(i + 1)), true);
      AssignOne(fuel - 1, x, inner, env);
      assert ExecBlock(fuel - 1, End, env1) == Outcome(Normal, env1, true);
      assert ExecBlock(fuel - 1, body, env) == Outcome(Normal, env1, true);
      CountingRounds(fuel - 1, x, i + 1, env1);
      assert env1[x := VInt(3)] == env[x := VInt(3)];
    } else {
      assert ExecBlock(fuel, End, env) == Outcome(Normal, env, true);
      assert env[x := VInt(3)] == env;
    }
  }

  /* ----- `else` after a loop ----- */

  /** while test: body / else: return e / then return e2 */
  function LoopElse(test: Expr, body: Block, e: Expr, e2: Expr): Block {
    Then(While(test, body, Then(Return(e), End)), Then(Return(e2), End))
  }

  function PlainLoop(test: Expr, body: Block, e2: Expr): Block {
    Then(While(test, body, End), Then(Return(e2), End))
  }

  /** Does the loop end at its test, and not at a break or a return? */
  predicate EndsAtTest(fuel: nat, test: Expr, body: Block, env: Env)
    decreases fuel
  {
    var a := EvalExpr(test, env).r;
    a.Ok? && if !Truthy(a.v) then true
      else fuel > 0 && var o := ExecBlock(fuel - 1, body, env);
        (o.control.Normal? || o.control.Continued?) && EndsAtTest(fuel - 1, test, body, o.env)
  }

  /** What the `else` adds: it runs where the loop ends at its test. */
  lemma {:induction false} ElseAdds(fuel: nat, test: Expr, body: Block, e: Expr, env: Env)
    ensures var (plain, full) := (ExecStmt(fuel, While(test, body, End), env), ExecStmt(fuel, While(test, body, Then(Return(e), End)), env));
      if EndsAtTest(fuel, test, body, env) then
        var a := EvalExpr(e, plain.env).r;
        plain.control.Normal? && full.control == (if a.Err? then Failed else Returned(a.v))
      else full.control == plain.control && full.env == plain.env
    decreases fuel
  {
    var a := EvalExpr(test, env);
    if a.r.Ok? && Truthy(a.r.v) {
      if fuel > 0 {
        var o := ExecBlock(fuel - 1, body, env);
        if o.control.Normal? || o.control.Continued? { ElseAdds(fuel - 1, test, body, e, o.env); }
      }
    } else if a.r.Ok? {
      assert ExecBlock(fuel, End, env) == Outcome(Normal, env, true);
      ReturnOnly(fuel, e, env);
    }
  }

  lemma ReturnOnly(fuel: nat, e: Expr, env: Env)
    ensures var a := EvalExpr(e, env);
      ExecBlock(fuel, Then(Return(e), End), env) == Outcome(if a.r.Err? then Failed else Returned(a.r.v), env, a.exact)
  {
  }

  /**
   The `else` of a loop is dropped: where everything else is safe, the two agree exactly when the loop does
   not end at its test, or both returns give the same there.
  */
  lemma LoopElseAgreesIff(sig: Signature, params: Env, fuel: nat, test: Expr, body: Block, e: Expr, e2: Expr)
    requires Translatable(sig, PlainLoop(test, body, e2)) && Arguments(sig, params)
    requires ExecBlock(fuel, PlainLoop(test, body, e2), params).exact
    ensures var (full, env) := (LoopElse(test, body, e, e2), ExecStmt(fuel, While(test, body, End), params).env);
      PythonRunFor(fuel, full, params) == RustRunFor(fuel, full, params) <==> (EndsAtTest(fuel, test, body, params) ==> EvalExpr(e, env).r == EvalExpr(e2, env).r)
  {
    var (full, plain) := (LoopElse(test, body, e, e2), PlainLoop(test, body, e2));
    assert EmitBlock(full) == EmitBlock(plain);
    TranslationFaithful(sig, plain, params, fuel);
    ElseAdds(fuel, test, body, e, params);
    ReturnOnly(fuel, e2, ExecStmt(fuel, While(test, body, End), params).env);
  }

  /* ----- `not` over a chained comparison ----- */

  /** What a chain says after its first link: `e op z ...` */
  function Later(links: Links): Expr
    requires links.More?
  {
    Compare(links.e, links.rest)
  }

  function FirstLink(first: Expr, links: Links): Expr {
    Compare(first, One(links.op, links.e))
  }

  /** The chain, from its first link and the rest of it. */
  lemma PythonChain(first: Expr, links: Links, env: Env)
    requires links.More?
    ensures var (a, c, rest) := (EvalExpr(Compare(first, links), env).r, EvalExpr(FirstLink(first, links), env).r, EvalExpr(Later(links), env).r);
      a == if c.Err? || !Truthy(c.v) then c else rest
  {
    var a := EvalExpr(first, env);
    var b := EvalExpr(links.e, env);
    if a.r.Ok? && b.r.Ok? {
      ExactDoesNotMatter(b.r.v, a.exact && b.exact, b.exact, links.rest, env);
    }
  }

  lemma {:induction false} ExactDoesNotMatter(left: Val, x: bool, y: bool, links: Links, env: Env)
    ensures EvalLinks(left, x, links, env).r == EvalLinks(left, y, links, env).r
    decreases links
  {
    var b := EvalExpr(links.e, env);
    if b.r.Ok? && links.More? { ExactDoesNotMatter(b.r.v, x && b.exact, y && b.exact, links.rest, env); }
  }

  /** The text of a negated chain: the first link negated, and the others as they are. */
  lemma NotChainText(first: Expr, links: Links)
    requires links.More? && |Emit(first)| == 1 && |Emit(links.e)| == 1
    ensures |Emit(FirstLink(first, links))| == 1
    ensures Whole(Emit(Not(Compare(first, links)))) == RAnd(RNot(Emit(FirstLink(first, links))[0]), Whole(Emit(Later(links))))
  {
    var (left, right) := (Emit(first), Emit(links.e));
    var link := Whole(Infix(Comparison(links.op), left, right));
    var rest := EmitLinks(right, links.rest);
    assert Emit(FirstLink(first, links)) == [link];
    assert Emit(Later(links)) == rest;
    assert Emit(Compare(first, links)) == [link] + rest;
    assert ([link] + rest)[0] == link && ([link] + rest)[1..] == rest;
    var text := [RNot(link)] + rest;
    assert text[1..] == rest;
    assert Emit(Not(Compare(first, links))) == [Whole(text)];
    assert Whole(text) == RAnd(RNot(link), Whole(rest));
  }

  /** Each of the two parts of the chain is safe where it stands, and exact. */
  ghost predicate ChainRuns(sig: Signature, params: Env, first: Expr, links: Links) {
    && Arguments(sig, params) && links.More? && TypeOf(Compare(first, links), ParamNames(sig)).Some?
    && EvalExpr(FirstLink(first, links), params).exact && EvalExpr(Later(links), params).exact
  }

  /**
   not (x op y op z ...), for any operands: Rust negates the first link only, so the two agree exactly when
   an operand of the first link fails or the rest of the chain holds.
  */
  lemma NotChainAgreesIff(sig: Signature, params: Env, first: Expr, links: Links)
    requires ChainRuns(sig, params, first, links)
    ensures var (e, c, rest) := (Not(Compare(first, links)), EvalExpr(FirstLink(first, links), params).r, EvalExpr(Later(links), params).r);
      EvalExpr(e, params).r == EvalRust(Whole(Emit(e)), ParamScopes(params)) <==> c.Err? || rest == Ok(VBool(true))
  {
    var (names, scopes) := (ParamNames(sig), ParamScopes(params));
    ParamsTogether(sig, params);
    ChainTyped(first, links, names);
    PythonChain(first, links, params);
    NoChainOnePart(first);
    NoChainOnePart(links.e);
    NotChainText(first, links);
    ExprAgrees(FirstLink(first, links), names, scopes, params);
    ExprAgrees(Later(links), names, scopes, params);
    var link := Emit(FirstLink(first, links))[0];
    assert Whole(Emit(FirstLink(first, links))) == link;
    NegatedFirst(link, Whole(Emit(Later(links))), scopes, EvalExpr(FirstLink(first, links), params).r, EvalExpr(Later(links), params).r);
  }

  lemma ChainTyped(first: Expr, links: Links, names: Names)
    requires links.More? && TypeOf(Compare(first, links), names).Some?
    ensures !IsChain(first) && !IsChain(links.e)
    ensures TypeOf(FirstLink(first, links), names) == Some(BoolType) && TypeOf(Later(links), names) == Some(BoolType)
  {
  }

  lemma NegatedFirst(link: Rust, rest: Rust, scopes: Scopes, c: Res, d: Res)
    requires EvalRust(link, scopes) == c && EvalRust(rest, scopes) == d && Typed(c, BoolType) && Typed(d, BoolType)
    ensures EvalRust(RAnd(RNot(link), rest), scopes) == if c.Err? || (!Truthy(c.v) && d.Err?) then Err else Ok(VBool(!Truthy(c.v) && Truthy(d.v)))
  {
    assert EvalRust(RNot(link), scopes) == if c.Err? then Err else Ok(VBool(!c.v.b));
  }

  /* ----- Several targets ----- */

  /** x = y = e; return y */
  function TwoTargets(x: string, y: string, e: Expr): Block {
    Then(Assign([x, y], e), Then(Return(Name(y)), End))
  }

  lemma TwoTargetsPython(x: string, y: string, e: Expr, env: Env)
    requires EvalExpr(e, env).r.Ok?
    ensures PythonRun(TwoTargets(x, y, e), env) == Returned(EvalExpr(e, env).r.v)
  {
    var v := EvalExpr(e, env).r.v;
    var after := env[x := v][y := v];
    assert [x, y][1..] == [y] && [y][1..] == [];
    assert SetAll(env[x := v], [y], v) == after;
    assert SetAll(env, [x, y], v) == after;
    assert ExecStmt(0, Assign([x, y], e), env).env == after;
    assert ExecBlock(0, Then(Return(Name(y)), End), after).control == Returned(v);
  }

  lemma TwoTargetsText(x: string, y: string, e: Expr)
    ensures var value := Whole(Emit(e));
      EmitBlock(TwoTargets(x, y, e)) == RThen(Let(x, value), RThen(Let(y, value), RThen(RReturn(RVar(y)), REnd)))
  {
    var value := Whole(Emit(e));
    var tail := RThen(RReturn(RVar(y)), REnd);
    assert EmitBlock(Then(Return(Name(y)), End)) == tail;
    assert [x, y][1..] == [y] && [y][1..] == [];
    assert EmitLets([y], value, tail) == RThen(Let(y, value), tail);
  }

  /** The two lets, given what the value's text evaluates to each time. */
  lemma TwoTargetsRust(x: string, y: string, value: Rust, scopes: Scopes, v: Val, second: Res)
    requires scopes != [] && EvalRust(value, scopes) == Ok(v)
    requires EvalRust(value, scopes[0 := scopes[0][x := Binding(v, true)]]) == second
    ensures RunBlock(0, RThen(Let(x, value), RThen(Let(y, value), RThen(RReturn(RVar(y)), REnd))), scopes).control
         == if second.Err? then Failed else Returned(second.v)
  {
    var scopes1 := scopes[0 := scopes[0][x := Binding(v, true)]];
    var tail := RThen(RReturn(RVar(y)), REnd);
    assert RunStmt(0, Let(x, value), scopes) == RustOutcome(Normal, scopes1);
    if second.Ok? {
      var scopes2 := scopes1[0 := scopes1[0][y := Binding(second.v, true)]];
      assert RunStmt(0, Let(y, value), scopes1) == RustOutcome(Normal, scopes2);
      assert RunBlock(0, tail, scopes2).control == Returned(second.v);
    }
    assert RunBlock(0, RThen(Let(y, value), tail), scopes1).control == if second.Err? then Failed else Returned(second.v);
  }

  /**
   The value's text is repeated for each target, so the second sees the first one's change: the two agree
   exactly when evaluating it again, with x assigned, gives the same value.
  */
  lemma TwoTargetsAgreeIff(sig: Signature, params: Env, x: string, y: string, e: Expr)
    requires Arguments(sig, params) && EvalExpr(e, params).r.Ok? && EvalExpr(e, params).exact
    requires var (t, v) := (TypeOf(e, ParamNames(sig)), EvalExpr(e, params).r.v);
      t.Some? && TypeOf(e, DeclareOne(ParamNames(sig), x, t.value)).Some? && EvalExpr(e, params[x := v]).exact
    ensures var body := TwoTargets(x, y, e);
      PythonRun(body, params) == RustRun(body, params) <==> EvalExpr(e, params[x := EvalExpr(e, params).r.v]).r == EvalExpr(e, params).r
  {
    var names, scopes, v := ParamNames(sig), ParamScopes(params), EvalExpr(e, params).r.v;
    ParamsTogether(sig, params);
    TwoTargetsPython(x, y, e, params);
    TwoTargetsText(x, y, e);
    ExprAgrees(e, names, scopes, params);
    assert names[1..] == [];
    LetAgrees(names, scopes, params, x, v);
    ExprAgrees(e, DeclareOne(names, x, TypeOfVal(v)), scopes[0 := scopes[0][x := Binding(v, true)]], params[x := v]);
    TwoTargetsRust(x, y, Whole(Emit(e)), scopes, v, EvalExpr(e, params[x := v]).r);
  }

  /* ----- Division ----- */

  /** return a // b   and   return a % b */
  function Division(op: BinOp): Block {
    Then(Return(Bin(op, Name("a"), Name("b"))), End)
  }

  /**
   Over all of i64, floor division and remainder agree exactly when both fail on a zero divisor, or the
   division is exact or the signs are the same, and it is not the one division that overflows.
  */
  lemma DivisionRunsAgreeIff(op: BinOp, a: int, b: int)
    requires op.FloorDiv? || op.Mod?
    requires InI64(a) && InI64(b)
    ensures var env: Env := map["a" := VInt(a), "b" := VInt(b)];
      PythonRun(Division(op), env) == RustRun(Division(op), env) <==>
      (b == 0 || (!(a == -MAX_I64 - 1 && b == -1) && (FloorRemainder(a, b) == 0 || (a < 0 <==> b < 0))))
  {
    var env: Env := map["a" := VInt(a), "b" := VInt(b)];
    var value := RBin(Arith(op), RVar("a"), RVar("b"));
    assert Infix(Arith(op), [RVar("a")], [RVar("b")]) == [value];
    assert EmitBlock(Division(op)) == RThen(RReturn(value), REnd);
    DivisionRust(op, a, b, ParamScopes(env));
    var expr := Bin(op, Name("a"), Name("b"));
    assert EvalExpr(expr, env).r == Apply(op, a, b);
    assert PythonRun(Division(op), env) == if b == 0 then Failed else Returned(Apply(op, a, b).v);
    if b != 0 { DivisionAgreesIff(a, b); }
  }

  lemma DivisionRust(op: BinOp, a: int, b: int, scopes: Scopes)
    requires op.FloorDiv? || op.Mod?
    requires InI64(a) && InI64(b)
    requires Lookup(scopes, "a") == Some(Binding(VInt(a), false)) && Lookup(scopes, "b") == Some(Binding(VInt(b), false))
    ensures EvalRust(RBin(Arith(op), RVar("a"), RVar("b")), scopes) ==
      if b == 0 || (a == -MAX_I64 - 1 && b == -1) then Err
      else Ok(VInt(if op.FloorDiv? then TruncQuotient(a, b) else TruncRemainder(a, b)))
  {
    if b != 0 && !(a == -MAX_I64 - 1 && b == -1) { QuotientInRange(a, b); }
  }

  lemma QuotientInRange(a: int, b: int)
    requires InI64(a) && InI64(b) && b != 0 && !(a == -MAX_I64 - 1 && b == -1)
    ensures InI64(TruncQuotient(a, b))
  {
    var m, d := if a >= 0 then a else -a, if b > 0 then b else -b;
    QuotientBound(m, d);
  }

  lemma QuotientBound(m: nat, d: nat)
    requires d >= 1
    ensures 0 <= m / d <= m && (d >= 2 ==> 2 * (m / d) <= m) && (d == 1 ==> m / d == m)
  {
    var k: int := m / d;
    assert k * d <= m;
    if d >= 2 {
      TimesAtLeast(k, d);
    }
  }

  lemma {:induction false} TimesAtLeast(k: int, d: nat)
    requires k >= 0 && d >= 2
    ensures k * d >= 2 * k
    decreases d
  {
    if d > 2 {
      TimesAtLeast(k, d - 1);
      assert k * d == k * (d - 1) + k;
    }
  }
}
