/**
 What rustc asks of the emitted function before anything runs: every variable declared and writable where
 it is assigned, operands of matching types without conversions, literals in range, boolean conditions,
 returns of the declared type on every path, `break` and `continue` in loops only. What the builder emits
 for a translatable function passes. Lints are not part of it.
*/
module RustTypes {
  import opened Sequences
  import opened PythonSubset
  import opened RustEmission

  function RustType(e: Rust, names: Names): Option<Type> {
    match e
    case RInt(n) => if n <= MAX_I64 then Some(IntType) else None
    case RBool(_) => Some(BoolType)
    case RVar(x) => var d := Find(names, x); if d.Some? then Some(d.value.ty) else None
    case RBin(op, left, right) =>
      var (t, u) := (RustType(left, names), RustType(right, names));
      if t.None? || t != u then None
      else if op.Comparison? then Some(BoolType)
      else if t.value.IntType? then Some(IntType) else None
    case RNeg(e1) => if RustType(e1, names) == Some(IntType) then Some(IntType) else None
    case RNot(e1) => RustType(e1, names)
    case RAnd(left, right) => BothBool(RustType(left, names), RustType(right, names))
    case ROr(left, right) => BothBool(RustType(left, names), RustType(right, names))
  }

  function BothBool(t: Option<Type>, u: Option<Type>): Option<Type> {
    if t == Some(BoolType) && u == Some(BoolType) then Some(BoolType) else None
  }

  /** The declarations after a statement; None is a compile error. */
  function CheckStmt(s: RustStmt, names: Names, p: Place): Option<Names>
    requires names != []
    decreases s
  {
    match s
    case Let(x, value) =>
      var t := RustType(value, names);
      if t.Some? && Usable(x) then Some(DeclareOne(names, x, t.value)) else None
    case OpAssign(x, _, value) =>
      if Find(names, x) == Some(Decl(IntType, true)) && RustType(value, names) == Some(IntType) then Some(names) else None
    case RIf(test, body, orelse) =>
      if RustType(test, names) == Some(BoolType) && CheckBlock(body, [map[]] + names, p) && CheckBlock(orelse, [map[]] + names, p)
      then Some(names) else None
    case RWhile(test, body) =>
      if RustType(test, names) == Some(BoolType) && CheckBlock(body, [map[]] + names, p.(inLoop := true)) then Some(names) else None
    case RReturn(value) => if RustType(value, names) == Some(p.ret) then Some(names) else None
    case RBreak => if p.inLoop then Some(names) else None
    case RContinue => if p.inLoop then Some(names) else None
  }

  predicate CheckBlock(b: RustBlock, names: Names, p: Place)
    requires names != []
    decreases b
  {
    b.REnd? || var after := CheckStmt(b.stmt, names, p); after.Some? && after.value != [] && CheckBlock(b.rest, after.value, p)
  }

  /** The body of a function that does not return `()`: its end is never reached. */
  predicate NeverFallsOff(b: RustBlock) {
    b.RThen? && if b.rest.REnd? then b.stmt.RReturn? || (b.stmt.RIf? && NeverFallsOff(b.stmt.body) && NeverFallsOff(b.stmt.orelse))
      else NeverFallsOff(b.rest)
  }

  predicate Accepts(sig: Signature, body: RustBlock) {
    && (forall x :: x in sig.params ==> Usable(x))
    && CheckBlock(body, ParamNames(sig), Place(sig.ret, false))
    && NeverFallsOff(body)
  }

  /* ----- Expressions ----- */

  /** A text cut at `&&`: one part of the given type, or several comparisons. */
  predicate TextTyped(t: Text, ty: Type, names: Names) {
    if |t| == 1 then RustType(t[0], names) == Some(ty)
    else ty.BoolType? && forall i :: 0 <= i < |t| ==> RustType(t[i], names) == Some(BoolType)
  }

  lemma {:induction false} WholeTyped(t: seq<Rust>, names: Names)
    requires t != [] && forall i :: 0 <= i < |t| ==> RustType(t[i], names) == Some(BoolType)
    ensures RustType(Whole(t), names) == Some(BoolType)
    decreases |t|
  {
    if |t| > 1 { WholeTyped(t[1..], names); }
  }

  lemma TextWhole(t: Text, ty: Type, names: Names)
    requires TextTyped(t, ty, names)
    ensures RustType(Whole(t), names) == Some(ty)
  {
    if |t| > 1 { WholeTyped(t, names); }
  }

  lemma {:induction false} NoChainOnePart(e: Expr)
    requires !IsChain(e)
    ensures |Emit(e)| == 1
  {
    if e.Pos? { NoChainOnePart(e.e); }
  }

  /** Integers are never chains. */
  lemma {:induction false} IntOnePart(e: Expr, names: Names)
    requires TypeOf(e, names) == Some(IntType)
    ensures !IsChain(e)
  {
    if e.Pos? { IntOnePart(e.e, names); }
  }

  lemma {:induction false} EmitTyped(e: Expr, names: Names)
    requires TypeOf(e, names).Some?
    ensures TextTyped(Emit(e), TypeOf(e, names).value, names)
    decreases e
  {
    match e
    case Bin(op, left, right) =>
      IntOnePart(left, names);
      IntOnePart(right, names);
      NoChainOnePart(left);
      NoChainOnePart(right);
      EmitTyped(left, names);
      EmitTyped(right, names);
      assert Emit(e) == [RBin(Arith(op), Emit(left)[0], Emit(right)[0])];
    case Neg(e1) =>
      IntOnePart(e1, names);
      NoChainOnePart(e1);
      EmitTyped(e1, names);
    case Pos(e1) => EmitTyped(e1, names);
    case Not(e1) =>
      NoChainOnePart(e1);
      EmitTyped(e1, names);
    case Compare(first, links) =>
      NoChainOnePart(first);
      EmitTyped(first, names);
      LinksTextTyped(Emit(first), TypeOf(first, names).value, links, names);
    case BoolOp(isAnd, head, tail) =>
      EmitTyped(head, names);
      BoolTextTyped(isAnd, Emit(head), tail, names);
    case _ =>
  }

  lemma {:induction false} LinksTextTyped(left: Text, t: Type, links: Links, names: Names)
    requires |left| == 1 && RustType(left[0], names) == Some(t) && LinksTyped(t, links, names)
    ensures forall r :: r in EmitLinks(left, links) ==> RustType(r, names) == Some(BoolType)
    decreases links
  {
    NoChainOnePart(links.e);
    EmitTyped(links.e, names);
    var right := Emit(links.e);
    assert Infix(Comparison(links.op), left, right) == [RBin(Comparison(links.op), left[0], right[0])];
    if links.More? { LinksTextTyped(right, t, links.rest, names); }
  }

  lemma {:induction false} BoolTextTyped(isAnd: bool, left: Text, tail: Operands, names: Names)
    requires TextTyped(left, BoolType, names) && OperandsTyped(tail, names)
    ensures RustType(EmitBool(isAnd, left, tail), names) == Some(BoolType)
    decreases tail
  {
    TextWhole(left, BoolType, names);
    EmitTyped(tail.e, names);
    if tail.Last? { TextWhole(Emit(tail.e), BoolType, names); } else { BoolTextTyped(isAnd, Emit(tail.e), tail.rest, names); }
  }

  lemma ValueTyped(e: Expr, names: Names)
    requires TypeOf(e, names).Some?
    ensures RustType(Whole(Emit(e)), names) == TypeOf(e, names)
  {
    EmitTyped(e, names);
    TextWhole(Emit(e), TypeOf(e, names).value, names);
  }

  /** Declaring a name an expression does not mention does not change its type. */
  lemma {:induction false} TypeUnmentioned(e: Expr, names: Names, x: string, t: Type)
    requires names != [] && !Mentions(e, x)
    ensures TypeOf(e, DeclareOne(names, x, t)) == TypeOf(e, names)
    decreases e
  {
    match e
    case Name(y) => assert DeclareOne(names, x, t)[1..] == names[1..];
    case Bin(_, left, right) =>
      TypeUnmentioned(left, names, x, t);
      TypeUnmentioned(right, names, x, t);
    case Neg(e1) => TypeUnmentioned(e1, names, x, t);
    case Pos(e1) => TypeUnmentioned(e1, names, x, t);
    case Not(e1) => TypeUnmentioned(e1, names, x, t);
    case Compare(first, links) =>
      TypeUnmentioned(first, names, x, t);
      forall u { LinksUnmentioned(u, links, names, x, t); }
    case BoolOp(_, head, tail) =>
      TypeUnmentioned(head, names, x, t);
      OperandsUnmentioned(tail, names, x, t);
    case _ =>
  }

  lemma {:induction false} LinksUnmentioned(u: Type, links: Links, names: Names, x: string, t: Type)
    requires names != [] && !LinksMention(links, x)
    ensures LinksTyped(u, links, DeclareOne(names, x, t)) == LinksTyped(u, links, names)
    decreases links
  {
    TypeUnmentioned(links.e, names, x, t);
    if links.More? { LinksUnmentioned(u, links.rest, names, x, t); }
  }

  lemma {:induction false} OperandsUnmentioned(tail: Operands, names: Names, x: string, t: Type)
    requires names != [] && !OperandsMention(tail, x)
    ensures OperandsTyped(tail, DeclareOne(names, x, t)) == OperandsTyped(tail, names)
    decreases tail
  {
    TypeUnmentioned(tail.e, names, x, t);
    if tail.Also? { OperandsUnmentioned(tail.rest, names, x, t); }
  }

  /* ----- Statements ----- */

  /** One `let` per target: each of them has the value's type. */
  lemma {:induction false} LetsAccepted(targets: seq<string>, e: Expr, t: Type, tail: RustBlock, names: Names, p: Place)
    requires names != [] && TypeOf(e, names) == Some(t) && forall x :: x in targets ==> Usable(x)
    requires forall i :: 0 <= i < |targets| - 1 ==> !Mentions(e, targets[i])
    ensures Declare(names, targets, t) != []
    ensures CheckBlock(EmitLets(targets, Whole(Emit(e)), tail), names, p) <==> CheckBlock(tail, Declare(names, targets, t), p)
    decreases |targets|
  {
    DeclareShape(names, targets, t);
    if targets != [] {
      ValueTyped(e, names);
      var names1 := DeclareOne(names, targets[0], t);
      if |targets| > 1 {
        TypeUnmentioned(e, names, targets[0], t);
        assert forall i :: 0 <= i < |targets[1..]| - 1 ==> targets[1..][i] == targets[i + 1];
        LetsAccepted(targets[1..], e, t, tail, names1, p);
      } else {
        assert targets[1..] == [];
      }
    }
  }

  lemma {:induction false} StmtAccepted(s: Stmt, tail: RustBlock, names: Names, p: Place)
    requires names != [] && SafeStmt(s, names, p).Some?
    ensures CheckBlock(EmitStmt(s, tail), names, p) <==> CheckBlock(tail, SafeStmt(s, names, p).value, p)
    decreases s, 1
  {
    match s
    case Assign(targets, value) => LetsAccepted(targets, value, TypeOf(value, names).value, tail, names, p);
    case AugAssign(x, op, value) => ValueTyped(value, names);
    case If(test, body, orelse) =>
      ValueTyped(test, names);
      BlockAccepted(body, [map[]] + names, p);
      BlockAccepted(orelse, [map[]] + names, p);
    case While(test, body, _) =>
      ValueTyped(test, names);
      BlockAccepted(body, [map[]] + names, p.(inLoop := true));
    case Return(value) => ValueTyped(value, names);
    case _ =>
  }

  lemma {:induction false} BlockAccepted(b: Block, names: Names, p: Place)
    requires names != [] && SafeBlock(b, names, p).Some?
    ensures CheckBlock(EmitBlock(b), names, p)
    decreases b, 0
  {
    if b.Then? {
      BlockAccepted(b.rest, SafeStmt(b.stmt, names, p).value, p);
      StmtAccepted(b.stmt, EmitBlock(b.rest), names, p);
    }
  }

  lemma {:induction false} LetsBefore(targets: seq<string>, value: Rust, tail: RustBlock)
    ensures NeverFallsOff(EmitLets(targets, value, tail)) <==> NeverFallsOff(tail)
    decreases |targets|
  {
    if targets != [] { LetsBefore(targets[1..], value, tail); }
  }

  lemma {:induction false} NothingEmitted(b: Block)
    ensures EmitBlock(b).REnd? <==> AllNothing(b)
    decreases b
  {
    if b.Then? { NothingEmitted(b.rest); }
  }

  /** A body that returns on every path is emitted as one that never falls off its end, and only such a body is. */
  lemma {:induction false} ReturnsNeverFallOff(b: Block)
    ensures Returns(b) <==> NeverFallsOff(EmitBlock(b))
    decreases b
  {
    if b.Then? {
      NothingEmitted(b.rest);
      ReturnsNeverFallOff(b.rest);
      if b.stmt.If? {
        ReturnsNeverFallOff(b.stmt.body);
        ReturnsNeverFallOff(b.stmt.orelse);
      }
      if b.stmt.Assign? { LetsBefore(b.stmt.targets, Whole(Emit(b.stmt.value)), EmitBlock(b.rest)); }
    }
  }

  /** The emitted text of a translatable function compiles. */
  lemma TranslatableAccepted(sig: Signature, body: Block)
    requires Translatable(sig, body)
    ensures Accepts(sig, EmitBlock(body))
  {
    BlockAccepted(body, ParamNames(sig), Place(sig.ret, false));
    ReturnsNeverFallOff(body);
  }
}
