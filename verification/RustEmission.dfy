/**
 The Rust the builder emits for the Python subset, and when it means the same. The emitted text is
 modelled as rustc parses it, grouping included; it runs with block scopes, 64-bit integers and no
 implicit conversions.
*/
module RustEmission {
  import opened Sequences
  import opened PythonSubset

  datatype RustOp = Arith(op: BinOp) | Comparison(cmp: CmpOp)

  datatype Rust =
    | RInt(n: nat)
    | RBool(b: bool)
    | RVar(x: string)
    | RBin(op: RustOp, left: Rust, right: Rust)
    | RNeg(e: Rust)
    | RNot(e: Rust)
    | RAnd(left: Rust, right: Rust)
    | ROr(left: Rust, right: Rust)

  datatype RustStmt =
    | Let(x: string, value: Rust)
    | OpAssign(x: string, op: BinOp, value: Rust)
    | RIf(test: Rust, body: RustBlock, orelse: RustBlock)
    | RWhile(test: Rust, body: RustBlock)
    | RReturn(value: Rust)
    | RBreak
    | RContinue

  datatype RustBlock = REnd | RThen(stmt: RustStmt, rest: RustBlock)

  /* ----- What rustc makes of it ----- */

  datatype Binding = Binding(v: Val, mutable: bool)

  /** Nested scopes, innermost first. */
  type Scopes = seq<map<string, Binding>>

  function Lookup(scopes: Scopes, x: string): Option<Binding> {
    if scopes == [] then None
    else if x in scopes[0] then Some(scopes[0][x])
    else Lookup(scopes[1..], x)
  }

  function Update(scopes: Scopes, x: string, v: Val): (r: Scopes)
    ensures |r| == |scopes|
  {
    if scopes == [] then []
    else if x in scopes[0] then [scopes[0][x := scopes[0][x].(v := v)]] + scopes[1..]
    else [scopes[0]] + Update(scopes[1..], x, v)
  }

  function Checked(n: int): Res {
    if InI64(n) then Ok(VInt(n)) else Err
  }

  /** The order of i64 and that of bool, where false comes first. */
  predicate Precedes(a: Val, b: Val)
    requires TypeOfVal(a) == TypeOfVal(b)
  {
    if a.VInt? then a.n < b.n else !a.b && b.b
  }

  predicate RustCompare(op: CmpOp, a: Val, b: Val)
    requires TypeOfVal(a) == TypeOfVal(b)
  {
    match op
    case Eq => a == b
    case NotEq => a != b
    case Lt => Precedes(a, b)
    case LtE => !Precedes(b, a)
    case Gt => Precedes(b, a)
    case GtE => !Precedes(a, b)
  }

  /** An overflow or a division by zero panics. */
  function RustArith(op: BinOp, a: int, b: int): Res {
    match op
    case Add => Checked(a + b)
    case Sub => Checked(a - b)
    case Mult => Checked(a * b)
    case FloorDiv => if b == 0 then Err else Checked(TruncQuotient(a, b))
    case Mod => if b == 0 || !InI64(TruncQuotient(a, b)) then Err else Ok(VInt(TruncRemainder(a, b)))
  }

  /** Operands of one type only, and arithmetic on integers only. */
  function RustBin(op: RustOp, a: Val, b: Val): Res {
    match op
    case Comparison(cmp) => if TypeOfVal(a) == TypeOfVal(b) then Ok(VBool(RustCompare(cmp, a, b))) else Err
    case Arith(arith) => if a.VBool? || b.VBool? then Err else RustArith(arith, a.n, b.n)
  }

  function EvalRust(e: Rust, scopes: Scopes): Res {
    match e
    case RInt(n) => Checked(n)
    case RBool(b) => Ok(VBool(b))
    case RVar(x) => var b := Lookup(scopes, x); if b.Some? then Ok(b.value.v) else Err
    case RBin(op, left, right) =>
      var (a, b) := (EvalRust(left, scopes), EvalRust(right, scopes));
      if a.Err? || b.Err? then Err else RustBin(op, a.v, b.v)
    case RNeg(e1) =>
      var a := EvalRust(e1, scopes);
      if a.Ok? && a.v.VInt? then Checked(-a.v.n) else Err
    case RNot(e1) =>
      var a := EvalRust(e1, scopes);
      if a.Err? then Err else if a.v.VBool? then Ok(VBool(!a.v.b)) else Ok(VInt(-a.v.n - 1))
    case RAnd(left, right) => ShortCircuit(true, EvalRust(left, scopes), EvalRust(right, scopes))
    case ROr(left, right) => ShortCircuit(false, EvalRust(left, scopes), EvalRust(right, scopes))
  }

  function ShortCircuit(isAnd: bool, a: Res, b: Res): Res {
    if a.Err? || a.v.VInt? then Err
    else if a.v.b != isAnd then a
    else if b.Ok? && b.v.VBool? then b else Err
  }

  datatype RustOutcome = RustOutcome(control: Control, scopes: Scopes)

  function RunStmt(fuel: nat, s: RustStmt, scopes: Scopes): (o: RustOutcome)
    requires scopes != []
    ensures |o.scopes| == |scopes|
    decreases fuel, s
  {
    match s
    case Let(x, value) =>
      var a := EvalRust(value, scopes);
      if a.Err? then RustOutcome(Failed, scopes)
      else RustOutcome(Normal, scopes[0 := scopes[0][x := Binding(a.v, true)]])
    case OpAssign(x, op, value) =>
      var (old_, b) := (Lookup(scopes, x), EvalRust(value, scopes));
      if old_.None? || !old_.value.mutable || b.Err? then RustOutcome(Failed, scopes)
      else
        var r := RustBin(Arith(op), old_.value.v, b.v);
        if r.Err? then RustOutcome(Failed, scopes) else RustOutcome(Normal, Update(scopes, x, r.v))
    case RIf(test, body, orelse) =>
      var a := EvalRust(test, scopes);
      if a.Err? || a.v.VInt? then RustOutcome(Failed, scopes)
      else RunScope(fuel, if a.v.b then body else orelse, scopes)
    case RWhile(test, body) =>
      var a := EvalRust(test, scopes);
      if a.Err? || a.v.VInt? then RustOutcome(Failed, scopes)
      else if !a.v.b then RustOutcome(Normal, scopes)
      else if fuel == 0 then RustOutcome(OutOfFuel, scopes)
      else
        var o := RunScope(fuel - 1, body, scopes);
        if o.control.Normal? || o.control.Continued? then RunStmt(fuel - 1, s, o.scopes)
        else if o.control.Broke? then RustOutcome(Normal, o.scopes)
        else o
    case RReturn(value) =>
      var a := EvalRust(value, scopes);
      RustOutcome(if a.Err? then Failed else Returned(a.v), scopes)
    case RBreak => RustOutcome(Broke, scopes)
    case RContinue => RustOutcome(Continued, scopes)
  }

  /** A braced block: its own scope, gone at the end. */
  function RunScope(fuel: nat, b: RustBlock, scopes: Scopes): (o: RustOutcome)
    ensures |o.scopes| == |scopes|
    decreases fuel, b, 1
  {
    var o := RunBlock(fuel, b, [map[]] + scopes);
    RustOutcome(o.control, o.scopes[1..])
  }

  function RunBlock(fuel: nat, b: RustBlock, scopes: Scopes): (o: RustOutcome)
    requires scopes != []
    ensures |o.scopes| == |scopes|
    decreases fuel, b, 0
  {
    if b.REnd? then RustOutcome(Normal, scopes)
    else
      var o := RunStmt(fuel, b.stmt, scopes);
      if o.control.Normal? then RunBlock(fuel, b.rest, o.scopes) else o
  }

  /* ----- What the builder emits ----- */

  /**
   The text of an expression, cut at the `&&` signs that no parentheses enclose: only a chained
   comparison has any.
  */
  type Text = t: seq<Rust> | |t| >= 1 witness [RBool(true)]

  /** The text on its own, or in parentheses. */
  function Whole(t: seq<Rust>): Rust
    requires t != []
    decreases |t|
  {
    if |t| == 1 then t[0] else RAnd(t[0], Whole(t[1..]))
  }

  /** `left op right` without parentheses around the operands: op binds tighter than `&&`. */
  function Infix(op: RustOp, left: Text, right: Text): Text {
    left[..|left| - 1] + [RBin(op, left[|left| - 1], right[0])] + right[1..]
  }

  function Emit(e: Expr): Text
    decreases e
  {
    match e
    case Int(n) => [RInt(n)]
    case Bool(b) => [RBool(b)]
    case Name(x) => [RVar(x)]
    case Bin(op, left, right) => [Whole(Infix(Arith(op), Emit(left), Emit(right)))]
    case Neg(e1) => var t := Emit(e1); [Whole([RNeg(t[0])] + t[1..])]
    case Pos(e1) => Emit(e1)
    case Not(e1) => var t := Emit(e1); [Whole([RNot(t[0])] + t[1..])]
    case Compare(first, links) => EmitLinks(Emit(first), links)
    case BoolOp(isAnd, head, tail) => [EmitBool(isAnd, Emit(head), tail)]
  }

  /** _compare: each link in its own parentheses, joined by `&&`. */
  function EmitLinks(left: Text, links: Links): Text
    decreases links
  {
    var right := Emit(links.e);
    var link := [Whole(Infix(Comparison(links.op), left, right))];
    if links.One? then link else link + EmitLinks(right, links.rest)
  }

  function EmitBool(isAnd: bool, left: Text, tail: Operands): Rust
    decreases tail
  {
    var right := if tail.Last? then Whole(Emit(tail.e)) else EmitBool(isAnd, Emit(tail.e), tail.rest);
    if isAnd then RAnd(Whole(left), right) else ROr(Whole(left), right)
  }

  function EmitLets(targets: seq<string>, value: Rust, tail: RustBlock): RustBlock
    decreases |targets|
  {
    if targets == [] then tail else RThen(Let(targets[0], value), EmitLets(targets[1..], value, tail))
  }

  /** visit_*: the statements for `s`, before those for the rest. */
  function EmitStmt(s: Stmt, tail: RustBlock): RustBlock
    decreases s
  {
    match s
    case Assign(targets, value) => EmitLets(targets, Whole(Emit(value)), tail)
    case AugAssign(x, op, value) => RThen(OpAssign(x, op, Whole(Emit(value))), tail)
    case If(test, body, orelse) => RThen(RIf(Whole(Emit(test)), EmitBlock(body), EmitBlock(orelse)), tail)
    case While(test, body, _) => RThen(RWhile(Whole(Emit(test)), EmitBlock(body)), tail)
    case Return(value) => RThen(RReturn(Whole(Emit(value))), tail)
    case Break => RThen(RBreak, tail)
    case Continue => RThen(RContinue, tail)
    case Pass => tail
  }

  function EmitBlock(b: Block): RustBlock
    decreases b
  {
    if b.End? then REnd else EmitStmt(b.stmt, EmitBlock(b.rest))
  }

  /* ----- Which programs are safe to translate ----- */

  datatype Decl = Decl(ty: Type, mutable: bool)

  /** Declared names per scope, innermost first. */
  type Names = seq<map<string, Decl>>

  function Find(names: Names, x: string): Option<Decl> {
    if names == [] then None else if x in names[0] then Some(names[0][x]) else Find(names[1..], x)
  }

  predicate Visible(names: Names, x: string) {
    exists i :: 0 <= i < |names| && x in names[i]
  }

  /** Python names that no Rust variable can have: keywords, reserved words and constructors of the prelude. */
  const RESERVED: set<string> := {
    "_", "abstract", "as", "async", "await", "become", "box", "break", "const", "continue", "crate", "do", "dyn", "else",
    "enum", "extern", "false", "final", "fn", "for", "gen", "if", "impl", "in", "let", "loop", "macro", "match", "mod", "move",
    "mut", "override", "priv", "pub", "ref", "return", "self", "Self", "static", "struct", "super", "trait", "true", "try",
    "type", "typeof", "unsafe", "unsized", "use", "virtual", "where", "while", "yield", "Some", "None", "Ok", "Err" }

  predicate Usable(x: string) {
    x !in RESERVED
  }

  predicate IsChain(e: Expr) {
    match e
    case Compare(_, links) => links.More?
    case Pos(e1) => IsChain(e1)
    case _ => false
  }

  /**
   The type of an expression that is safe to translate: names are visible, literals fit, operands have
   the types both languages agree on, and a chained comparison stands only where its text keeps its
   grouping. None if it is not safe.
  */
  function TypeOf(e: Expr, names: Names): Option<Type>
    decreases e
  {
    match e
    case Int(n) => if n <= MAX_I64 then Some(IntType) else None
    case Bool(_) => Some(BoolType)
    case Name(x) => var d := Find(names, x); if d.Some? then Some(d.value.ty) else None
    case Bin(_, left, right) =>
      if TypeOf(left, names) == Some(IntType) && TypeOf(right, names) == Some(IntType) then Some(IntType) else None
    case Neg(e1) => if TypeOf(e1, names) == Some(IntType) then Some(IntType) else None
    case Pos(e1) => if TypeOf(e1, names) == Some(IntType) then Some(IntType) else None
    case Not(e1) => if TypeOf(e1, names) == Some(BoolType) && !IsChain(e1) then Some(BoolType) else None
    case Compare(first, links) =>
      var t := TypeOf(first, names);
      if t.Some? && !IsChain(first) && LinksTyped(t.value, links, names) then Some(BoolType) else None
    case BoolOp(_, head, tail) =>
      if TypeOf(head, names) == Some(BoolType) && OperandsTyped(tail, names) then Some(BoolType) else None
  }

  predicate LinksTyped(t: Type, links: Links, names: Names)
    decreases links
  {
    TypeOf(links.e, names) == Some(t) && !IsChain(links.e) && (links.More? ==> LinksTyped(t, links.rest, names))
  }

  predicate OperandsTyped(tail: Operands, names: Names)
    decreases tail
  {
    TypeOf(tail.e, names) == Some(BoolType) && (tail.Also? ==> OperandsTyped(tail.rest, names))
  }

  predicate Mentions(e: Expr, x: string)
    decreases e
  {
    match e
    case Name(y) => x == y
    case Bin(_, left, right) => Mentions(left, x) || Mentions(right, x)
    case Neg(e1) => Mentions(e1, x)
    case Pos(e1) => Mentions(e1, x)
    case Not(e1) => Mentions(e1, x)
    case Compare(first, links) => Mentions(first, x) || LinksMention(links, x)
    case BoolOp(_, head, tail) => Mentions(head, x) || OperandsMention(tail, x)
    case _ => false
  }

  predicate LinksMention(links: Links, x: string)
    decreases links
  {
    Mentions(links.e, x) || (links.More? && LinksMention(links.rest, x))
  }

  predicate OperandsMention(tail: Operands, x: string)
    decreases tail
  {
    Mentions(tail.e, x) || (tail.Also? && OperandsMention(tail.rest, x))
  }

  function DeclareOne(names: Names, x: string, t: Type): Names
    requires names != []
  {
    names[0 := names[0][x := Decl(t, true)]]
  }

  function Declare(names: Names, targets: seq<string>, t: Type): Names
    requires names != []
    decreases |targets|
  {
    if targets == [] then names else Declare(DeclareOne(names, targets[0], t), targets[1..], t)
  }

  /** What a function returns, and whether a statement stands in a loop. */
  datatype Place = Place(ret: Type, inLoop: bool)

  /**
   The names after a statement, or None if translating it is not safe: no assignment inside a block
   may reuse a name of an outer block, only integers declared by an assignment may be augmented, all
   targets but the last of one assignment must be absent from its value, conditions are booleans, no loop
   has an `else` and every return has the function's type.
  */
  function SafeStmt(s: Stmt, names: Names, p: Place): (r: Option<Names>)
    requires names != []
    ensures r.Some? ==> r.value != [] && r.value[1..] == names[1..]
    decreases s
  {
    match s
    case Assign(targets, value) =>
      var t := TypeOf(value, names);
      if t.Some? && targets != []
        && (forall x :: x in targets ==> Usable(x) && !Visible(names[1..], x))
        && (forall i :: 0 <= i < |targets| - 1 ==> !Mentions(value, targets[i]))
      then
        DeclareShape(names, targets, t.value);
        Some(Declare(names, targets, t.value))
      else None
    case AugAssign(x, _, value) =>
      if Find(names, x) == Some(Decl(IntType, true)) && TypeOf(value, names) == Some(IntType) then Some(names) else None
    case If(test, body, orelse) =>
      if TypeOf(test, names) == Some(BoolType) && SafeBlock(body, [map[]] + names, p).Some? && SafeBlock(orelse, [map[]] + names, p).Some?
      then Some(names) else None
    case While(test, body, orelse) =>
      if orelse.End? && TypeOf(test, names) == Some(BoolType) && SafeBlock(body, [map[]] + names, p.(inLoop := true)).Some?
      then Some(names) else None
    case Return(value) => if TypeOf(value, names) == Some(p.ret) then Some(names) else None
    case Break => if p.inLoop then Some(names) else None
    case Continue => if p.inLoop then Some(names) else None
    case Pass => Some(names)
  }

  function SafeBlock(b: Block, names: Names, p: Place): (r: Option<Names>)
    requires names != []
    ensures r.Some? ==> r.value != [] && r.value[1..] == names[1..]
    decreases b
  {
    if b.End? then Some(names)
    else
      var after := SafeStmt(b.stmt, names, p);
      if after.None? then None else SafeBlock(b.rest, after.value, p)
  }

  lemma {:induction false} DeclareShape(names: Names, targets: seq<string>, t: Type)
    requires names != []
    ensures Declare(names, targets, t) != [] && Declare(names, targets, t)[1..] == names[1..]
    decreases |targets|
  {
    if targets != [] {
      DeclareShape(DeclareOne(names, targets[0], t), targets[1..], t);
    }
  }

  /** A statement that leaves nothing in the text. */
  predicate Nothing(s: Stmt) {
    s.Pass? || (s.Assign? && s.targets == [])
  }

  predicate AllNothing(b: Block) {
    b.End? || (Nothing(b.stmt) && AllNothing(b.rest))
  }

  /** Its last statement that is not `pass` is a return, or an `if` whose two branches end in one. */
  predicate Returns(b: Block) {
    b.Then? && if !Nothing(b.stmt) && AllNothing(b.rest) then b.stmt.Return? || (b.stmt.If? && Returns(b.stmt.body) && Returns(b.stmt.orelse))
      else Returns(b.rest)
  }

  /** A function's parameters and result. */
  datatype Signature = Signature(params: map<string, Type>, ret: Type)

  /** Parameters are declared immutable. */
  function ParamNames(sig: Signature): Names {
    [map x | x in sig.params :: Decl(sig.params[x], false)]
  }

  /** A caller can check this before building: the body is safe, and every path through it returns. */
  predicate Translatable(sig: Signature, body: Block) {
    && (forall x :: x in sig.params ==> Usable(x))
    && SafeBlock(body, ParamNames(sig), Place(sig.ret, false)).Some?
    && Returns(body)
  }
}
