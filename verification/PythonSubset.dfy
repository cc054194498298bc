/**
 The Python the builder translates: integer and boolean expressions, assignments, conditionals,
 while loops and return, with Python's own meaning: one flat environment per function, unbounded
 integers, flooring division, booleans that count as integers, chained comparisons.
*/
module PythonSubset {

  datatype BinOp = Add | Sub | Mult | FloorDiv | Mod
  datatype CmpOp = Eq | NotEq | Lt | LtE | Gt | GtE

  datatype Expr =
    | Int(n: nat)
    | Bool(b: bool)
    | Name(x: string)
    | Bin(op: BinOp, left: Expr, right: Expr)
    | Neg(e: Expr)
    | Pos(e: Expr)
    | Not(e: Expr)
    | Compare(first: Expr, links: Links)
    | BoolOp(isAnd: bool, head: Expr, tail: Operands)

  /** `op e`, or `op e op e ...`: the rest of a comparison. */
  datatype Links = One(op: CmpOp, e: Expr) | More(op: CmpOp, e: Expr, rest: Links)
  datatype Operands = Last(e: Expr) | Also(e: Expr, rest: Operands)

  datatype Stmt =
    | Assign(targets: seq<string>, value: Expr)
    | AugAssign(x: string, op: BinOp, value: Expr)
    | If(test: Expr, body: Block, orelse: Block)
    | While(test: Expr, body: Block, orelse: Block)
    | Return(value: Expr)
    | Break
    | Continue
    | Pass

  datatype Block = End | Then(stmt: Stmt, rest: Block)

  datatype Val = VInt(n: int) | VBool(b: bool)

  /** A value, or a raised exception. */
  datatype Res = Ok(v: Val) | Err

  /**
   A result, and whether the arithmetic on the way is exact in both languages: every result within
   64 bits, and every division one where truncating and flooring agree.
  */
  datatype Eval = Eval(r: Res, exact: bool)

  const MAX_I64 := 0x7FFF_FFFF_FFFF_FFFF

  predicate InI64(n: int) {
    -MAX_I64 - 1 <= n <= MAX_I64
  }

  function AsInt(v: Val): int {
    match v
    case VInt(n) => n
    case VBool(b) => if b then 1 else 0
  }

  predicate Truthy(v: Val) {
    AsInt(v) != 0
  }

  datatype Type = IntType | BoolType

  function TypeOfVal(v: Val): Type {
    if v.VInt? then IntType else BoolType
  }

  /** Python rounds quotients down; the remainder has the divisor's sign. */
  function FloorQuotient(a: int, b: int): int
    requires b != 0
  {
    if b > 0 then a / b else (-a) / (-b)
  }

  function FloorRemainder(a: int, b: int): int
    requires b != 0
  {
    a - FloorQuotient(a, b) * b
  }

  /** Rust rounds quotients toward zero; the remainder has the dividend's sign. */
  function TruncQuotient(a: int, b: int): int
    requires b != 0
  {
    if a >= 0 then (if b > 0 then a / b else -(a / -b))
    else (if b > 0 then -((-a) / b) else (-a) / (-b))
  }

  function TruncRemainder(a: int, b: int): int
    requires b != 0
  {
    a - TruncQuotient(a, b) * b
  }

  function Apply(op: BinOp, a: int, b: int): Res {
    match op
    case Add => Ok(VInt(a + b))
    case Sub => Ok(VInt(a - b))
    case Mult => Ok(VInt(a * b))
    case FloorDiv => if b == 0 then Err else Ok(VInt(FloorQuotient(a, b)))
    case Mod => if b == 0 then Err else Ok(VInt(FloorRemainder(a, b)))
  }

  predicate CompareInts(op: CmpOp, a: int, b: int) {
    match op
    case Eq => a == b
    case NotEq => a != b
    case Lt => a < b
    case LtE => a <= b
    case Gt => a > b
    case GtE => a >= b
  }

  /** Does the division come out the same whichever way it rounds, and within 64 bits? */
  predicate Shared(op: BinOp, a: int, b: int) {
    if op.FloorDiv? || op.Mod? then
      b != 0 ==> TruncQuotient(a, b) == FloorQuotient(a, b) && InI64(FloorQuotient(a, b))
    else InI64(Apply(op, a, b).v.n)
  }

  type Env = map<string, Val>

  function EvalExpr(e: Expr, env: Env): Eval
    decreases e
  {
    match e
    case Int(n) => Eval(Ok(VInt(n)), true)
    case Bool(b) => Eval(Ok(VBool(b)), true)
    case Name(x) => Eval(if x in env then Ok(env[x]) else Err, true)
    case Bin(op, left, right) => EvalBin(op, EvalExpr(left, env), EvalExpr(right, env))
    case Neg(e1) =>
      var a := EvalExpr(e1, env);
      if a.r.Err? then a else Eval(Ok(VInt(-AsInt(a.r.v))), a.exact && InI64(-AsInt(a.r.v)))
    case Pos(e1) =>
      var a := EvalExpr(e1, env);
      if a.r.Err? then a else Eval(Ok(VInt(AsInt(a.r.v))), a.exact)
    case Not(e1) =>
      var a := EvalExpr(e1, env);
      if a.r.Err? then a else Eval(Ok(VBool(!Truthy(a.r.v))), a.exact)
    case Compare(first, links) =>
      var a := EvalExpr(first, env);
      if a.r.Err? then a else EvalLinks(a.r.v, a.exact, links, env)
    case BoolOp(isAnd, head, tail) => EvalBool(isAnd, EvalExpr(head, env), tail, env)
  }

  /** The right operand is evaluated only if the left one did not raise. */
  function EvalBin(op: BinOp, a: Eval, b: Eval): Eval {
    if a.r.Err? then a
    else if b.r.Err? then Eval(Err, a.exact && b.exact)
    else
      var (x, y) := (AsInt(a.r.v), AsInt(b.r.v));
      Eval(Apply(op, x, y), a.exact && b.exact && Shared(op, x, y))
  }

  /** A chained comparison evaluates each operand once and stops at the first that fails. */
  function EvalLinks(left: Val, exact: bool, links: Links, env: Env): Eval
    decreases links
  {
    var b := EvalExpr(links.e, env);
    if b.r.Err? then Eval(Err, exact && b.exact)
    else
      var holds := CompareInts(links.op, AsInt(left), AsInt(b.r.v));
      if links.One? || !holds then Eval(Ok(VBool(holds)), exact && b.exact)
      else EvalLinks(b.r.v, exact && b.exact, links.rest, env)
  }

  /** `and` and `or` give the operand that decides. */
  function EvalBool(isAnd: bool, a: Eval, tail: Operands, env: Env): Eval
    decreases tail
  {
    if a.r.Err? || Truthy(a.r.v) != isAnd then a
    else
      var b := EvalExpr(tail.e, env);
      var b' := Eval(b.r, a.exact && b.exact);
      if tail.Last? then b' else EvalBool(isAnd, b', tail.rest, env)
  }

  datatype Control = Normal | Returned(v: Val) | Broke | Continued | Failed | OutOfFuel

  datatype Outcome = Outcome(control: Control, env: Env, exact: bool)

  function SetAll(env: Env, targets: seq<string>, v: Val): Env
    decreases |targets|
  {
    if targets == [] then env else SetAll(env[targets[0] := v], targets[1..], v)
  }

  function ExecStmt(fuel: nat, s: Stmt, env: Env): Outcome
    decreases fuel, s
  {
    match s
    case Assign(targets, value) =>
      var a := EvalExpr(value, env);
      if a.r.Err? then Outcome(Failed, env, a.exact) else Outcome(Normal, SetAll(env, targets, a.r.v), a.exact)
    case AugAssign(x, op, value) =>
      var a := EvalBin(op, EvalExpr(Name(x), env), EvalExpr(value, env));
      if a.r.Err? then Outcome(Failed, env, a.exact) else Outcome(Normal, env[x := a.r.v], a.exact)
    case If(test, body, orelse) =>
      var a := EvalExpr(test, env);
      if a.r.Err? then Outcome(Failed, env, a.exact)
      else
        var o := ExecBlock(fuel, if Truthy(a.r.v) then body else orelse, env);
        o.(exact := a.exact && o.exact)
    case While(test, body, orelse) =>
      var a := EvalExpr(test, env);
      if a.r.Err? then Outcome(Failed, env, a.exact)
      else if !Truthy(a.r.v) then
        var o := ExecBlock(fuel, orelse, env);
        o.(exact := a.exact && o.exact)
      else if fuel == 0 then Outcome(OutOfFuel, env, a.exact)
      else
        var o := ExecBlock(fuel - 1, body, env);
        var exact := a.exact && o.exact;
        if o.control.Normal? || o.control.Continued? then
          var again := ExecStmt(fuel - 1, s, o.env);
          again.(exact := exact && again.exact)
        else if o.control.Broke? then Outcome(Normal, o.env, exact)
        else Outcome(o.control, o.env, exact)
    case Return(value) =>
      var a := EvalExpr(value, env);
      Outcome(if a.r.Err? then Failed else Returned(a.r.v), env, a.exact)
    case Break => Outcome(Broke, env, true)
    case Continue => Outcome(Continued, env, true)
    case Pass => Outcome(Normal, env, true)
  }

  function ExecBlock(fuel: nat, b: Block, env: Env): Outcome
    decreases fuel, b
  {
    if b.End? then Outcome(Normal, env, true)
    else
      var o := ExecStmt(fuel, b.stmt, env);
      if !o.control.Normal? then o
      else
        var rest := ExecBlock(fuel, b.rest, o.env);
        rest.(exact := o.exact && rest.exact)
  }

  /* ----- What the two roundings are ----- */

  /** Python's quotient leaves a remainder between zero and the divisor. */
  lemma FloorIs(a: int, b: int)
    requires b != 0
    ensures a == FloorQuotient(a, b) * b + FloorRemainder(a, b)
    ensures if b > 0 then 0 <= FloorRemainder(a, b) < b else b < FloorRemainder(a, b) <= 0
  {
    if b > 0 { Rest(a, b); } else { NegatedQuotient(a, b); }
  }

  lemma Rest(m: int, d: int)
    requires d > 0
    ensures m - (m / d) * d == m % d && 0 <= m % d < d
  {
  }

  lemma NegatedQuotient(a: int, b: int)
    requires b < 0
    ensures a - ((-a) / (-b)) * b == -((-a) % (-b))
  {
    Rest(-a, -b);
    NegateBoth((-a) / (-b), b);
  }

  lemma NegateBoth(x: int, y: int)
    ensures x * (-y) == -(x * y) && (-x) * y == -(x * y)
  {
  }

  lemma TruncPositive(a: int, b: int)
    requires b > 0
    ensures TruncRemainder(a, b) == if a >= 0 then a % b else -((-a) % b)
  {
    if a >= 0 {
      Rest(a, b);
    } else {
      Rest(-a, b);
      NegateBoth((-a) / b, b);
    }
  }

  lemma TruncNegative(a: int, b: int)
    requires b < 0
    ensures TruncRemainder(a, b) == if a >= 0 then a % -b else -((-a) % -b)
  {
    if a >= 0 {
      Rest(a, -b);
      NegateBoth(a / -b, b);
    } else {
      NegatedQuotient(a, b);
    }
  }

  /** Rust's quotient leaves a remainder smaller than the divisor, on the dividend's side of zero. */
  lemma TruncIs(a: int, b: int)
    requires b != 0
    ensures a == TruncQuotient(a, b) * b + TruncRemainder(a, b)
    ensures if a >= 0 then 0 <= TruncRemainder(a, b) else TruncRemainder(a, b) <= 0
    ensures (if b > 0 then -b else b) < TruncRemainder(a, b) < (if b > 0 then b else -b)
  {
    if b > 0 { TruncPositive(a, b); } else { TruncNegative(a, b); }
  }

  /* ----- Where the two roundings part ----- */

  lemma QuotientUnique(a: int, b: int, q: int, r: int)
    requires b > 0 && a == q * b + r && 0 <= r < b
    ensures a / b == q && a % b == r
  {
    var q1, r1 := a / b, a % b;
    assert a == q1 * b + r1;
    assert (q - q1) * b == r1 - r;
    ZeroMultiple(q - q1, b);
  }

  lemma ZeroMultiple(k: int, b: int)
    requires -b < k * b < b
    ensures k == 0
  {
    assert (-k) * b == -(k * b);
    if k >= 1 {
      MulAtLeast(k, b);
    } else if k <= -1 {
      MulAtLeast(-k, b);
    }
  }

  lemma MulAtLeast(k: int, b: int)
    requires k >= 1 && b > 0
    ensures k * b >= b
  {
    assert k * b == b + (k - 1) * b;
  }

  lemma OppositeSigns(a: int, b: int, d: int, m: int)
    requires b != 0 && a != 0 && (a < 0) != (b < 0)
    requires d == (if b > 0 then b else -b) && m == if a >= 0 then a else -a
    ensures TruncQuotient(a, b) == -(m / d) && FloorQuotient(a, b) == if m % d == 0 then -(m / d) else -(m / d) - 1
  {
    var q, r := m / d, m % d;
    assert m == q * d + r;
    if r == 0 {
      assert -m == (-q) * d + 0;
      QuotientUnique(-m, d, -q, 0);
    } else {
      assert (-q - 1) * d == -(q * d) - d;
      QuotientUnique(-m, d, -q - 1, d - r);
    }
  }

  /** Quotients agree exactly when the division is exact or both signs are the same; so do remainders. */
  lemma DivisionAgreesIff(a: int, b: int)
    requires b != 0
    ensures TruncQuotient(a, b) == FloorQuotient(a, b) <==> FloorRemainder(a, b) == 0 || (a < 0 <==> b < 0)
    ensures TruncRemainder(a, b) == FloorRemainder(a, b) <==> FloorRemainder(a, b) == 0 || (a < 0 <==> b < 0)
  {
    var d := if b > 0 then b else -b;
    var m := if a >= 0 then a else -a;
    if (a < 0) != (b < 0) && a != 0 {
      OppositeSigns(a, b, d, m);
      assert m == (m / d) * d + m % d;
      RemainderOf(a, b, -(m / d), m % d);
    } else {
      assert TruncQuotient(a, b) == FloorQuotient(a, b);
      if a == 0 { assert FloorRemainder(a, b) == 0; }
    }
  }

  lemma RemainderOf(a: int, b: int, q: int, r: int)
    requires b != 0 && (a < 0) != (b < 0) && a != 0
    requires var (m, d) := (if a >= 0 then a else -a, if b > 0 then b else -b); m == (-q) * d + r && 0 <= r < d
    requires TruncQuotient(a, b) == q && FloorQuotient(a, b) == if r == 0 then q else q - 1
    ensures FloorRemainder(a, b) == 0 <==> r == 0
    ensures TruncRemainder(a, b) == FloorRemainder(a, b) <==> r == 0
  {
    assert (q - 1) * b == q * b - b;
    if b > 0 {
      assert (-q) * b == -(q * b);
    } else {
      assert (-q) * (-b) == q * b;
    }
  }
}
