/**
 The emitted Rust means what the Python means: a translatable function compiles, and on every run whose
 arithmetic is exact it takes the same course and returns the same value.
*/
module RustSimulation {
  import opened Sequences
  import opened PythonSubset
  import opened RustEmission
  import opened RustTypes

  /* ----- Scopes and the flat environment ----- */

  /** What a declaration says of its variable. */
  predicate Fits(b: Binding, d: Decl) {
    d == Decl(TypeOfVal(b.v), b.mutable)
  }

  /** The scopes hold exactly these names, each with its type and mutability. */
  ghost predicate Match(names: Names, scopes: Scopes) {
    && |names| == |scopes|
    && (forall i :: 0 <= i < |names| ==> scopes[i].Keys == names[i].Keys)
    && forall i, x :: 0 <= i < |names| && x in names[i] ==> Fits(scopes[i][x], names[i][x])
  }

  ghost predicate NoShadow(names: Names) {
    forall i, j, x :: 0 <= i < j < |names| && x in names[i] ==> x !in names[j]
  }

  /** Every variable in scope has the value Python's environment gives it. */
  ghost predicate Agree(scopes: Scopes, env: Env) {
    forall i, x :: 0 <= i < |scopes| && x in scopes[i] ==> x in env && env[x] == scopes[i][x].v
  }

  lemma {:induction false} LookupAgrees(names: Names, scopes: Scopes, env: Env, x: string)
    requires Match(names, scopes) && Agree(scopes, env) && Visible(names, x)
    ensures Lookup(scopes, x).Some? && x in env && Lookup(scopes, x).value.v == env[x]
    ensures Find(names, x).Some? && Fits(Lookup(scopes, x).value, Find(names, x).value)
    decreases |names|
  {
    var i :| 0 <= i < |names| && x in names[i];
    if x !in names[0] {
      assert names[1..][i - 1] == names[i];
      MatchTail(names, scopes, env);
      LookupAgrees(names[1..], scopes[1..], env, x);
    }
  }

  lemma MatchTail(names: Names, scopes: Scopes, env: Env)
    requires Match(names, scopes) && Agree(scopes, env) && names != []
    ensures Match(names[1..], scopes[1..]) && Agree(scopes[1..], env)
  {
  }

  lemma {:induction false} FindVisible(names: Names, x: string)
    ensures Find(names, x).Some? <==> Visible(names, x)
  {
    if names != [] {
      FindVisible(names[1..], x);
      if Visible(names[1..], x) {
        var i :| 0 <= i < |names| - 1 && x in names[1..][i];
        assert x in names[i + 1];
      }
      if Visible(names, x) && x !in names[0] {
        var i :| 0 <= i < |names| && x in names[i];
        assert x in names[1..][i - 1];
      }
    }
  }

  lemma {:induction false} UpdateAt(scopes: Scopes, x: string, v: Val, i: nat)
    requires i < |scopes| && x in scopes[i] && forall j :: 0 <= j < i ==> x !in scopes[j]
    ensures Update(scopes, x, v) == scopes[i := scopes[i][x := scopes[i][x].(v := v)]]
    decreases i
  {
    if i > 0 {
      assert x !in scopes[0];
      UpdateAt(scopes[1..], x, v, i - 1);
    }
  }

  lemma WriteMatches(names: Names, scopes: Scopes, i: nat, x: string, v: Val)
    requires Match(names, scopes) && i < |names| && x in names[i] && TypeOfVal(v) == names[i][x].ty
    ensures Match(names, scopes[i := scopes[i][x := scopes[i][x].(v := v)]])
  {
    var scopes' := scopes[i := scopes[i][x := scopes[i][x].(v := v)]];
    assert scopes'[i].Keys == scopes[i].Keys;
  }

  lemma WriteAgrees(scopes: Scopes, env: Env, i: nat, x: string, v: Val)
    requires Agree(scopes, env) && i < |scopes| && x in scopes[i]
    requires forall j :: 0 <= j < |scopes| && j != i ==> x !in scopes[j]
    ensures Agree(scopes[i := scopes[i][x := scopes[i][x].(v := v)]], env[x := v])
  {
  }

  /** Updating a visible name in its scope keeps shapes and follows Python's assignment. */
  lemma UpdateAgrees(names: Names, scopes: Scopes, env: Env, x: string, v: Val)
    requires Match(names, scopes) && NoShadow(names) && Agree(scopes, env)
    requires Find(names, x).Some? && Find(names, x).value.ty == TypeOfVal(v)
    ensures Match(names, Update(scopes, x, v)) && Agree(Update(scopes, x, v), env[x := v])
  {
    FindVisible(names, x);
    var i :| 0 <= i < |names| && x in names[i];
    FindAt(names, i, x);
    forall j | 0 <= j < |names| && j != i ensures x !in scopes[j] {
      if j < i { assert x !in names[j]; } else { assert x !in names[j]; }
    }
    UpdateAt(scopes, x, v, i);
    WriteMatches(names, scopes, i, x, v);
    WriteAgrees(scopes, env, i, x, v);
  }

  /** A visible name is found in the one scope that has it. */
  lemma {:induction false} FindAt(names: Names, i: nat, x: string)
    requires i < |names| && x in names[i] && NoShadow(names)
    ensures Find(names, x) == Some(names[i][x])
    decreases i
  {
    if i > 0 {
      assert x !in names[0];
      assert forall j, k, y :: 0 <= j < k < |names[1..]| && y in names[1..][j] ==> y in names[j + 1] && names[1..][k] == names[k + 1];
      FindAt(names[1..], i - 1, x);
    }
  }

  /* ----- Expressions ----- */

  lemma WholeSplit(a: seq<Rust>, b: seq<Rust>, scopes: Scopes)
    requires |a| == 1 && b != []
    ensures EvalRust(Whole(a + b), scopes) == ShortCircuit(true, EvalRust(a[0], scopes), EvalRust(Whole(b), scopes))
  {
    assert (a + b)[1..] == b;
  }

  /** One binary operation on agreeing integers. */
  lemma BinAgrees(op: BinOp, a: Eval, b: Eval)
    requires EvalBin(op, a, b).exact && (a.r.Ok? ==> a.r.v.VInt?) && (b.r.Ok? ==> b.r.v.VInt?)
    ensures (if a.r.Err? || b.r.Err? then Err else RustBin(Arith(op), a.r.v, b.r.v)) == EvalBin(op, a, b).r
    ensures EvalBin(op, a, b).r.Ok? ==> EvalBin(op, a, b).r.v.VInt?
  {
    if a.r.Ok? && b.r.Ok? && op.Mod? && b.r.v.n != 0 {
      DivisionAgreesIff(a.r.v.n, b.r.v.n);
    }
  }

  predicate Typed(r: Res, t: Type) {
    r.Ok? ==> TypeOfVal(r.v) == t
  }

  /** Both languages give a well-typed expression the same value, of its type. */
  lemma {:induction false} ExprAgrees(e: Expr, names: Names, scopes: Scopes, env: Env)
    requires TypeOf(e, names).Some? && Match(names, scopes) && Agree(scopes, env)
    requires EvalExpr(e, env).exact
    ensures EvalRust(Whole(Emit(e)), scopes) == EvalExpr(e, env).r
    ensures Typed(EvalExpr(e, env).r, TypeOf(e, names).value)
    decreases e
  {
    match e
    case Int(_) =>
    case Bool(_) =>
    case Name(x) =>
      FindVisible(names, x);
      LookupAgrees(names, scopes, env, x);
    case Bin(op, left, right) =>
      IntOnePart(left, names);
      IntOnePart(right, names);
      NoChainOnePart(left);
      NoChainOnePart(right);
      ExprAgrees(left, names, scopes, env);
      if EvalExpr(left, env).r.Ok? {
        ExprAgrees(right, names, scopes, env);
        BinAgrees(op, EvalExpr(left, env), EvalExpr(right, env));
      }
      assert Emit(e) == [RBin(Arith(op), Emit(left)[0], Emit(right)[0])];
    case Neg(e1) =>
      IntOnePart(e1, names);
      NoChainOnePart(e1);
      ExprAgrees(e1, names, scopes, env);
    case Pos(e1) => ExprAgrees(e1, names, scopes, env);
    case Not(e1) =>
      NoChainOnePart(e1);
      ExprAgrees(e1, names, scopes, env);
    case Compare(first, links) =>
      NoChainOnePart(first);
      var a := EvalExpr(first, env);
      if a.r.Ok? { ExactBefore(a.r.v, a.exact, links, env); }
      ExprAgrees(first, names, scopes, env);
      LinksAgree(Emit(first), a, TypeOf(first, names).value, links, names, scopes, env);
      if a.r.Ok? { LinksBool(a.r.v, a.exact, links, env); }
    case BoolOp(isAnd, head, tail) =>
      BoolExactBefore(isAnd, EvalExpr(head, env), tail, env);
      ExprAgrees(head, names, scopes, env);
      BoolAgrees(isAnd, Emit(head), EvalExpr(head, env), tail, names, scopes, env);
  }

  /** An exact chain had an exact start. */
  lemma {:induction false} ExactBefore(left: Val, exact: bool, links: Links, env: Env)
    requires PythonSubset.EvalLinks(left, exact, links, env).exact
    ensures exact && EvalExpr(links.e, env).exact
    decreases links
  {
    var b := EvalExpr(links.e, env);
    if b.r.Ok? && links.More? && CompareInts(links.op, AsInt(left), AsInt(b.r.v)) {
      ExactBefore(b.r.v, exact && b.exact, links.rest, env);
    }
  }

  lemma {:induction false} BoolExactBefore(isAnd: bool, a: Eval, tail: Operands, env: Env)
    requires PythonSubset.EvalBool(isAnd, a, tail, env).exact
    ensures a.exact && (a.r.Ok? && Truthy(a.r.v) == isAnd ==> EvalExpr(tail.e, env).exact)
    decreases tail
  {
    if a.r.Ok? && Truthy(a.r.v) == isAnd && tail.Also? {
      var b := EvalExpr(tail.e, env);
      BoolExactBefore(isAnd, Eval(b.r, a.exact && b.exact), tail.rest, env);
    }
  }

  /** One comparison of values of one type. */
  lemma LinkAgrees(op: CmpOp, left: Rust, right: Rust, scopes: Scopes, a: Res, b: Res, t: Type)
    requires EvalRust(left, scopes) == a && EvalRust(right, scopes) == b && Typed(a, t) && Typed(b, t)
    ensures EvalRust(RBin(Comparison(op), left, right), scopes) ==
      if a.Err? || b.Err? then Err else Ok(VBool(CompareInts(op, AsInt(a.v), AsInt(b.v))))
  {
  }

  lemma {:induction false} LinksAgree(text: Text, left: Eval, t: Type, links: Links, names: Names, scopes: Scopes, env: Env)
    requires |text| == 1 && LinksTyped(t, links, names) && Match(names, scopes) && Agree(scopes, env)
    requires EvalRust(text[0], scopes) == left.r && Typed(left.r, t)
    requires left.r.Ok? ==> PythonSubset.EvalLinks(left.r.v, left.exact, links, env).exact
    ensures EvalRust(Whole(RustEmission.EmitLinks(text, links)), scopes) ==
      if left.r.Err? then Err else PythonSubset.EvalLinks(left.r.v, left.exact, links, env).r
    decreases links
  {
    NoChainOnePart(links.e);
    var right := Emit(links.e);
    var link := [Whole(Infix(Comparison(links.op), text, right))];
    assert Infix(Comparison(links.op), text, right) == [RBin(Comparison(links.op), text[0], right[0])];
    if left.r.Ok? {
      ExactBefore(left.r.v, left.exact, links, env);
      ExprAgrees(links.e, names, scopes, env);
      LinkAgrees(links.op, text[0], right[0], scopes, left.r, EvalExpr(links.e, env).r, t);
    }
    if links.More? {
      WholeSplit(link, RustEmission.EmitLinks(right, links.rest), scopes);
      var b := EvalExpr(links.e, env);
      if left.r.Ok? && b.r.Ok? && CompareInts(links.op, AsInt(left.r.v), AsInt(b.r.v)) {
        LinksAgree(right, Eval(b.r, left.exact && b.exact), t, links.rest, names, scopes, env);
        LinksBool(b.r.v, left.exact && b.exact, links.rest, env);
      }
    }
  }

  lemma {:induction false} LinksBool(left: Val, exact: bool, links: Links, env: Env)
    ensures Typed(PythonSubset.EvalLinks(left, exact, links, env).r, BoolType)
    decreases links
  {
    var b := EvalExpr(links.e, env);
    if links.More? && b.r.Ok? { LinksBool(b.r.v, exact && b.exact, links.rest, env); }
  }

  lemma {:induction false} BoolAgrees(isAnd: bool, text: Text, a: Eval, tail: Operands, names: Names, scopes: Scopes, env: Env)
    requires OperandsTyped(tail, names) && Match(names, scopes) && Agree(scopes, env)
    requires EvalRust(Whole(text), scopes) == a.r && Typed(a.r, BoolType)
    requires PythonSubset.EvalBool(isAnd, a, tail, env).exact
    ensures EvalRust(RustEmission.EmitBool(isAnd, text, tail), scopes) == PythonSubset.EvalBool(isAnd, a, tail, env).r
    ensures Typed(PythonSubset.EvalBool(isAnd, a, tail, env).r, BoolType)
    decreases tail
  {
    BoolExactBefore(isAnd, a, tail, env);
    if a.r.Ok? && Truthy(a.r.v) == isAnd {
      var b := EvalExpr(tail.e, env);
      ExprAgrees(tail.e, names, scopes, env);
      if tail.Also? {
        BoolAgrees(isAnd, Emit(tail.e), Eval(b.r, a.exact && b.exact), tail.rest, names, scopes, env);
      }
    }
  }

  /* ----- Statements ----- */

  /** Assigning to a name the expression does not mention leaves its value alone. */
  lemma {:induction false} Unmentioned(e: Expr, env: Env, x: string, v: Val)
    requires !Mentions(e, x)
    ensures EvalExpr(e, env[x := v]) == EvalExpr(e, env)
    decreases e
  {
    match e
    case Bin(_, left, right) =>
      Unmentioned(left, env, x, v);
      Unmentioned(right, env, x, v);
    case Neg(e1) => Unmentioned(e1, env, x, v);
    case Pos(e1) => Unmentioned(e1, env, x, v);
    case Not(e1) => Unmentioned(e1, env, x, v);
    case Compare(first, links) =>
      Unmentioned(first, env, x, v);
      var a := EvalExpr(first, env);
      if a.r.Ok? { UnmentionedLinks(a.r.v, a.exact, links, env, x, v); }
    case BoolOp(isAnd, head, tail) =>
      Unmentioned(head, env, x, v);
      UnmentionedBool(isAnd, EvalExpr(head, env), tail, env, x, v);
    case _ =>
  }

  lemma {:induction false} UnmentionedLinks(left: Val, exact: bool, links: Links, env: Env, x: string, v: Val)
    requires !LinksMention(links, x)
    ensures PythonSubset.EvalLinks(left, exact, links, env[x := v]) == PythonSubset.EvalLinks(left, exact, links, env)
    decreases links
  {
    Unmentioned(links.e, env, x, v);
    var b := EvalExpr(links.e, env);
    if links.More? && b.r.Ok? { UnmentionedLinks(b.r.v, exact && b.exact, links.rest, env, x, v); }
  }

  lemma {:induction false} UnmentionedBool(isAnd: bool, a: Eval, tail: Operands, env: Env, x: string, v: Val)
    requires !OperandsMention(tail, x)
    ensures PythonSubset.EvalBool(isAnd, a, tail, env[x := v]) == PythonSubset.EvalBool(isAnd, a, tail, env)
    decreases tail
  {
    Unmentioned(tail.e, env, x, v);
    var b := EvalExpr(tail.e, env);
    if a.r.Ok? && tail.Also? { UnmentionedBool(isAnd, Eval(b.r, a.exact && b.exact), tail.rest, env, x, v); }
  }

  /** The two runs are at the same point: same shape, no shadowing, same values. */
  ghost predicate Together(names: Names, scopes: Scopes, env: Env) {
    names != [] && Match(names, scopes) && NoShadow(names) && Agree(scopes, env)
  }

  lemma LetAgrees(names: Names, scopes: Scopes, env: Env, x: string, v: Val)
    requires Together(names, scopes, env) && !Visible(names[1..], x)
    ensures Together(DeclareOne(names, x, TypeOfVal(v)), scopes[0 := scopes[0][x := Binding(v, true)]], env[x := v])
  {
    var names' := DeclareOne(names, x, TypeOfVal(v));
    var scopes' := scopes[0 := scopes[0][x := Binding(v, true)]];
    forall i | 0 < i < |names| ensures x !in names[i] {
      assert names[1..][i - 1] == names[i];
    }
    assert forall i :: 0 < i < |names| ==> scopes'[i] == scopes[i] && names'[i] == names[i] && x !in scopes[i];
    assert names'[0].Keys == scopes'[0].Keys;
  }

  /** Emitting one `let` per target, each with the same value text, assigns what Python assigns. */
  lemma {:induction false} LetsAgree(fuel: nat, targets: seq<string>, e: Expr, tail: RustBlock, names: Names, scopes: Scopes, env: Env)
    returns (scopes': Scopes)
    requires Together(names, scopes, env) && TypeOf(e, names).Some? && EvalExpr(e, env).exact && EvalExpr(e, env).r.Ok?
    requires forall x :: x in targets ==> !Visible(names[1..], x)
    requires forall i :: 0 <= i < |targets| - 1 ==> !Mentions(e, targets[i])
    ensures Together(Declare(names, targets, TypeOf(e, names).value), scopes', SetAll(env, targets, EvalExpr(e, env).r.v))
    ensures RunBlock(fuel, EmitLets(targets, Whole(Emit(e)), tail), scopes) == RunBlock(fuel, tail, scopes')
    decreases |targets|
  {
    scopes' := scopes;
    if targets != [] {
      var x, v := targets[0], EvalExpr(e, env).r.v;
      ExprAgrees(e, names, scopes, env);
      LetAgrees(names, scopes, env, x, v);
      var names1, scopes1 := DeclareOne(names, x, TypeOfVal(v)), scopes[0 := scopes[0][x := Binding(v, true)]];
      assert names1[1..] == names[1..];
      if |targets| > 1 {
        Unmentioned(e, env, x, v);
        TypeUnmentioned(e, names, x, TypeOfVal(v));
        assert forall i :: 0 <= i < |targets[1..]| - 1 ==> targets[1..][i] == targets[i + 1];
        scopes' := LetsAgree(fuel, targets[1..], e, tail, names1, scopes1, env[x := v]);
      } else {
        scopes' := scopes1;
      }
    }
  }

  /** Neither a failure nor out of fuel. */
  predicate Ends(c: Control) {
    c.Normal? || c.Returned? || c.Broke? || c.Continued?
  }

  /** After a run: the same control, and outside the innermost scope the same shape, with agreeing values. */
  ghost predicate Same(names: Names, r: RustOutcome, p: Outcome)
    requires names != []
  {
    && r.control == p.control
    && (Ends(p.control) ==>
         && |r.scopes| == |names| && Match(names[1..], r.scopes[1..]) && Agree(r.scopes, p.env))
  }

  lemma EnterScope(names: Names, scopes: Scopes, env: Env)
    requires Together(names, scopes, env)
    ensures Together([map[]] + names, [map[]] + scopes, env)
  {
    var names', scopes' := [map[]] + names, [map[]] + scopes;
    assert forall i :: 0 < i < |names'| ==> names'[i] == names[i - 1] && scopes'[i] == scopes[i - 1];
  }

  lemma LeaveScope(names: Names, r: RustOutcome, p: Outcome)
    requires names != [] && NoShadow(names) && Same([map[]] + names, r, p)
    requires Ends(p.control)
    ensures Together(names, r.scopes[1..], p.env)
  {
    assert ([map[]] + names)[1..] == names;
    assert forall i :: 0 <= i < |r.scopes| - 1 ==> r.scopes[1..][i] == r.scopes[i + 1];
  }

  /** A run leaves a statement only as its place allows: a return has the result type, a break is in a loop. */
  predicate Allowed(c: Control, at: Place) {
    (c.Returned? ==> TypeOfVal(c.v) == at.ret) && (c.Broke? || c.Continued? ==> at.inLoop)
  }

  /** The two runs take the same course, and their variables agree wherever something still runs or a value is returned. */
  ghost predicate Alike(names: Names, at: Place, r: RustOutcome, p: Outcome) {
    r.control == p.control && Allowed(p.control, at) && (Ends(p.control) ==> Together(names, r.scopes, p.env))
  }

  /** A braced block: what the body did, without its own scope. */
  lemma {:induction false} ScopeAgrees(fuel: nat, b: Block, names: Names, at: Place, scopes: Scopes, env: Env)
    requires Together(names, scopes, env) && SafeBlock(b, [map[]] + names, at).Some? && ExecBlock(fuel, b, env).exact
    ensures var (r, p) := (RunScope(fuel, EmitBlock(b), scopes), ExecBlock(fuel, b, env));
      Alike(names, at, r, p)
    decreases fuel, b, 1
  {
    EnterScope(names, scopes, env);
    BlockAgrees(fuel, b, [map[]] + names, at, [map[]] + scopes, env);
    var p := ExecBlock(fuel, b, env);
    if Ends(p.control) {
      LeaveScope(names, RunBlock(fuel, EmitBlock(b), [map[]] + scopes), p);
    }
  }

  /** A loop that stops at its test, or for lack of fuel. */
  lemma WhileStops(fuel: nat, s: Stmt, names: Names, at: Place, scopes: Scopes, env: Env)
    requires s.While? && Together(names, scopes, env) && SafeStmt(s, names, at).Some? && ExecStmt(fuel, s, env).exact
    requires EvalExpr(s.test, env).r != Ok(VBool(true)) || fuel == 0
    ensures Alike(names, at, RunStmt(fuel, RWhile(Whole(Emit(s.test)), EmitBlock(s.body)), scopes), ExecStmt(fuel, s, env))
  {
    ExprAgrees(s.test, names, scopes, env);
  }

  lemma SafeWhile(s: Stmt, names: Names, at: Place)
    requires s.While? && names != [] && SafeStmt(s, names, at).Some?
    ensures TypeOf(s.test, names) == Some(BoolType) && SafeBlock(s.body, [map[]] + names, at.(inLoop := true)).Some? && s.orelse.End?
  {
  }

  /** An exact run of a loop has an exact first round and goes on exactly. */
  lemma WhileExact(fuel: nat, s: Stmt, env: Env)
    requires s.While? && fuel > 0 && EvalExpr(s.test, env).r == Ok(VBool(true)) && ExecStmt(fuel, s, env).exact
    ensures var p := ExecBlock(fuel - 1, s.body, env);
      p.exact && (p.control.Normal? || p.control.Continued? ==> ExecStmt(fuel - 1, s, p.env).exact)
  {
  }

  /** One round: if the bodies and what follows them run alike, so do the loops. */
  lemma WhileRound(fuel: nat, s: Stmt, names: Names, at: Place, scopes: Scopes, env: Env)
    requires s.While? && fuel > 0 && scopes != [] && EvalExpr(s.test, env).r == Ok(VBool(true))
    requires EvalRust(Whole(Emit(s.test)), scopes) == Ok(VBool(true))
    requires var (r, p) := (RunScope(fuel - 1, EmitBlock(s.body), scopes), ExecBlock(fuel - 1, s.body, env));
      var again := RunStmt(fuel - 1, RWhile(Whole(Emit(s.test)), EmitBlock(s.body)), r.scopes);
      Alike(names, at.(inLoop := true), r, p) && (p.control.Normal? || p.control.Continued? ==> Alike(names, at, again, ExecStmt(fuel - 1, s, p.env)))
    ensures Alike(names, at, RunStmt(fuel, RWhile(Whole(Emit(s.test)), EmitBlock(s.body)), scopes), ExecStmt(fuel, s, env))
  {
  }

  lemma {:induction false} WhileAgrees(fuel: nat, s: Stmt, names: Names, at: Place, scopes: Scopes, env: Env)
    requires s.While? && Together(names, scopes, env) && SafeStmt(s, names, at).Some? && ExecStmt(fuel, s, env).exact
    ensures Alike(names, at, RunStmt(fuel, RWhile(Whole(Emit(s.test)), EmitBlock(s.body)), scopes), ExecStmt(fuel, s, env))
    decreases fuel, s, 0
  {
    if EvalExpr(s.test, env).r != Ok(VBool(true)) || fuel == 0 {
      WhileStops(fuel, s, names, at, scopes, env);
    } else {
      SafeWhile(s, names, at);
      WhileExact(fuel, s, env);
      ExprAgrees(s.test, names, scopes, env);
      ScopeAgrees(fuel - 1, s.body, names, at.(inLoop := true), scopes, env);
      var (r, p) := (RunScope(fuel - 1, EmitBlock(s.body), scopes), ExecBlock(fuel - 1, s.body, env));
      if p.control.Normal? || p.control.Continued? {
        WhileAgrees(fuel - 1, s, names, at, r.scopes, p.env);
      }
      WhileRound(fuel, s, names, at, scopes, env);
    }
  }

  lemma TogetherSame(names: Names, r: RustOutcome, p: Outcome)
    requires names != [] && r.control == p.control
    requires Ends(p.control) ==> Together(names, r.scopes, p.env)
    ensures Same(names, r, p)
  {
  }

  /** One statement, with the statements that follow it left to the caller. */
  lemma {:induction false} StmtAgrees(fuel: nat, s: Stmt, tail: RustBlock, names: Names, at: Place, scopes: Scopes, env: Env)
    returns (scopes': Scopes)
    requires Together(names, scopes, env) && SafeStmt(s, names, at).Some? && ExecStmt(fuel, s, env).exact
    ensures scopes' != [] && Allowed(ExecStmt(fuel, s, env).control, at)
    ensures var (r, p) := (RunBlock(fuel, EmitStmt(s, tail), scopes), ExecStmt(fuel, s, env));
      if p.control.Normal? then r == RunBlock(fuel, tail, scopes') && Together(SafeStmt(s, names, at).value, scopes', p.env)
      else Same(names, r, p)
    decreases fuel, s, 1
  {
    scopes' := scopes;
    match s
    case Assign(targets, value) =>
      ExprAgrees(value, names, scopes, env);
      if EvalExpr(value, env).r.Ok? {
        scopes' := LetsAgree(fuel, targets, value, tail, names, scopes, env);
      }
    case AugAssign(x, op, value) =>
      scopes' := AugAgrees(fuel, x, op, value, tail, names, scopes, env);
    case If(test, body, orelse) =>
      scopes' := IfAgrees(fuel, s, names, at, scopes, env);
    case While(test, body, _) =>
      WhileAgrees(fuel, s, names, at, scopes, env);
      var r := RunStmt(fuel, RWhile(Whole(Emit(test)), EmitBlock(body)), scopes);
      TogetherSame(names, r, ExecStmt(fuel, s, env));
      scopes' := r.scopes;
    case Return(value) => ExprAgrees(value, names, scopes, env);
    case _ =>
  }

  lemma {:induction false} IfAgrees(fuel: nat, s: Stmt, names: Names, at: Place, scopes: Scopes, env: Env) returns (scopes': Scopes)
    requires s.If? && Together(names, scopes, env) && SafeStmt(s, names, at).Some? && ExecStmt(fuel, s, env).exact
    ensures scopes' != [] && Allowed(ExecStmt(fuel, s, env).control, at)
    ensures var (r, p) := (RunStmt(fuel, RIf(Whole(Emit(s.test)), EmitBlock(s.body), EmitBlock(s.orelse)), scopes), ExecStmt(fuel, s, env));
      && r.control == p.control && Same(names, r, p)
      && (p.control.Normal? ==> r.scopes == scopes' && Together(names, scopes', p.env))
    decreases fuel, s, 0
  {
    scopes' := scopes;
    ExprAgrees(s.test, names, scopes, env);
    var a := EvalExpr(s.test, env);
    if a.r.Ok? {
      var taken := if Truthy(a.r.v) then s.body else s.orelse;
      ScopeAgrees(fuel, taken, names, at, scopes, env);
      var r := RunScope(fuel, EmitBlock(taken), scopes);
      TogetherSame(names, r, ExecStmt(fuel, s, env));
      scopes' := r.scopes;
    }
  }

  lemma AugAgrees(fuel: nat, x: string, op: BinOp, value: Expr, tail: RustBlock, names: Names, scopes: Scopes, env: Env)
    returns (scopes': Scopes)
    requires Together(names, scopes, env) && Find(names, x) == Some(Decl(IntType, true)) && TypeOf(value, names) == Some(IntType)
    requires ExecStmt(fuel, AugAssign(x, op, value), env).exact
    ensures scopes' != []
    ensures var (r, p) := (RunBlock(fuel, RThen(OpAssign(x, op, Whole(Emit(value))), tail), scopes), ExecStmt(fuel, AugAssign(x, op, value), env));
      if p.control.Normal? then r == RunBlock(fuel, tail, scopes') && Together(names, scopes', p.env)
      else r.control == p.control == Failed
  {
    FindVisible(names, x);
    LookupAgrees(names, scopes, env, x);
    scopes' := scopes;
    var (a, b) := (EvalExpr(Name(x), env), EvalExpr(value, env));
    ExprAgrees(value, names, scopes, env);
    BinAgrees(op, a, b);
    var c := EvalBin(op, a, b);
    if c.r.Ok? {
      UpdateAgrees(names, scopes, env, x, c.r.v);
      scopes' := Update(scopes, x, c.r.v);
    }
  }

  /** A block: both runs take the same course, statement by statement. */
  lemma {:induction false} BlockAgrees(fuel: nat, b: Block, names: Names, at: Place, scopes: Scopes, env: Env)
    requires Together(names, scopes, env) && SafeBlock(b, names, at).Some? && ExecBlock(fuel, b, env).exact
    ensures Same(names, RunBlock(fuel, EmitBlock(b), scopes), ExecBlock(fuel, b, env))
    ensures Allowed(ExecBlock(fuel, b, env).control, at)
    decreases fuel, b, 0
  {
    if b.Then? {
      var tail := EmitBlock(b.rest);
      var scopes' := StmtAgrees(fuel, b.stmt, tail, names, at, scopes, env);
      var o := ExecStmt(fuel, b.stmt, env);
      if o.control.Normal? {
        BlockAgrees(fuel, b.rest, SafeStmt(b.stmt, names, at).value, at, scopes', o.env);
      }
    }
  }

  /* ----- The translated function ----- */

  function ParamScopes(params: Env): Scopes {
    [map x | x in params :: Binding(params[x], false)]
  }

  /** Arguments of the declared types; integers arrive as 64-bit numbers. */
  predicate Arguments(sig: Signature, params: Env) {
    && params.Keys == sig.params.Keys
    && forall x :: x in params ==> TypeOfVal(params[x]) == sig.params[x] && (params[x].VInt? ==> InI64(params[x].n))
  }

  lemma ParamsTogether(sig: Signature, params: Env)
    requires Arguments(sig, params)
    ensures Together(ParamNames(sig), ParamScopes(params), params)
  {
  }

  /** A body all of whose paths return never runs off its end. */
  lemma {:induction false} ReturnsNeverNormal(fuel: nat, b: Block, env: Env)
    requires Returns(b)
    ensures !ExecBlock(fuel, b, env).control.Normal?
    decreases b
  {
    var o := ExecStmt(fuel, b.stmt, env);
    if Nothing(b.stmt) || !AllNothing(b.rest) {
      if o.control.Normal? { ReturnsNeverNormal(fuel, b.rest, o.env); }
    } else if b.stmt.If? {
      var a := EvalExpr(b.stmt.test, env);
      if a.r.Ok? { ReturnsNeverNormal(fuel, if Truthy(a.r.v) then b.stmt.body else b.stmt.orelse, env); }
    }
  }

  /**
   For every function that passes the static check, every arguments and every length of run: the emitted
   Rust compiles, and if the Python run's arithmetic is exact it takes the same course. It returns the same
   value, of the declared type, or both fail: no type can go wrong on the way.
  */
  lemma TranslationFaithful(sig: Signature, body: Block, params: Env, fuel: nat)
    requires Translatable(sig, body) && Arguments(sig, params) && ExecBlock(fuel, body, params).exact
    ensures Accepts(sig, EmitBlock(body))
    ensures var control := ExecBlock(fuel, body, params).control;
      && RunBlock(fuel, EmitBlock(body), ParamScopes(params)).control == control
      && (control.Failed? || control.OutOfFuel? || (control.Returned? && TypeOfVal(control.v) == sig.ret))
  {
    TranslatableAccepted(sig, body);
    ParamsTogether(sig, params);
    BlockAgrees(fuel, body, ParamNames(sig), Place(sig.ret, false), ParamScopes(params), params);
    ReturnsNeverNormal(fuel, body, params);
  }
}
