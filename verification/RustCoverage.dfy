/**
 What the static check refuses, and nothing else: what rustc itself refuses, and the patterns the builder
 translates wrongly. A function outside these passes.
*/
module RustCoverage {
  import opened Sequences
  import opened PythonSubset
  import opened RustEmission
  import opened RustTypes

  /* ----- The patterns ----- */

  function TextType(e: Expr, names: Names): Option<Type> {
    RustType(Whole(Emit(e)), names)
  }

  /**
   No chained comparison under `not` or inside another comparison, where its text falls apart; and no `not` of an
   integer or `+` of a boolean, which Rust reads as something else.
  */
  predicate Plain(e: Expr, names: Names)
    decreases e
  {
    match e
    case Bin(_, left, right) => Plain(left, names) && Plain(right, names)
    case Neg(e1) => Plain(e1, names)
    case Pos(e1) => Plain(e1, names) && TextType(e1, names) == Some(IntType)
    case Not(e1) => Plain(e1, names) && !IsChain(e1) && TextType(e1, names) == Some(BoolType)
    case Compare(first, links) => Plain(first, names) && !IsChain(first) && PlainLinks(links, names)
    case BoolOp(_, head, tail) => Plain(head, names) && PlainOperands(tail, names)
    case _ => true
  }

  predicate PlainLinks(links: Links, names: Names)
    decreases links
  {
    Plain(links.e, names) && !IsChain(links.e) && (links.More? ==> PlainLinks(links.rest, names))
  }

  predicate PlainOperands(tail: Operands, names: Names)
    decreases tail
  {
    Plain(tail.e, names) && (tail.Also? ==> PlainOperands(tail.rest, names))
  }

  /** The names rustc knows after a statement. */
  function NamesAfter(s: Stmt, names: Names): (r: Names)
    requires names != []
    ensures r != []
  {
    if s.Assign? && TextType(s.value, names).Some? then
      DeclareShape(names, s.targets, TextType(s.value, names).value);
      Declare(names, s.targets, TextType(s.value, names).value)
    else names
  }

  /** No assignment in a block to an outer name, none to several targets whose value mentions one that is not last, no `else` of a loop. */
  predicate PlainStmt(s: Stmt, names: Names)
    requires names != []
    decreases s
  {
    match s
    case Assign(targets, value) =>
      && Plain(value, names) && targets != []
      && (forall x :: x in targets ==> !Visible(names[1..], x))
      && forall i :: 0 <= i < |targets| - 1 ==> !Mentions(value, targets[i])
    case AugAssign(_, _, value) => Plain(value, names)
    case If(test, body, orelse) => Plain(test, names) && PlainBlock(body, [map[]] + names) && PlainBlock(orelse, [map[]] + names)
    case While(test, body, orelse) => Plain(test, names) && PlainBlock(body, [map[]] + names) && orelse.End?
    case Return(value) => Plain(value, names)
    case _ => true
  }

  predicate PlainBlock(b: Block, names: Names)
    requires names != []
    decreases b
  {
    b.End? || (PlainStmt(b.stmt, names) && PlainBlock(b.rest, NamesAfter(b.stmt, names)))
  }

  /* ----- Expressions ----- */

  /** The parts of a text that rustc accepts, joined by `&&`, are all booleans. */
  lemma {:induction false} PartsBool(t: seq<Rust>, names: Names)
    requires |t| > 1 && RustType(Whole(t), names).Some?
    ensures RustType(Whole(t), names) == Some(BoolType) && forall i :: 0 <= i < |t| ==> RustType(t[i], names) == Some(BoolType)
    decreases |t|
  {
    if |t| > 2 {
      PartsBool(t[1..], names);
      assert forall i :: 0 < i < |t| ==> t[i] == t[1..][i - 1];
    }
  }

  /** An arithmetic operator never stands between the parts of a chain: one of them would not be a boolean. */
  lemma ArithWhole(op: BinOp, left: Text, right: Text, names: Names)
    requires RustType(Whole(Infix(Arith(op), left, right)), names).Some?
    ensures |left| == 1 && |right| == 1 && RustType(left[0], names) == Some(IntType) && RustType(right[0], names) == Some(IntType)
    ensures RustType(Whole(Infix(Arith(op), left, right)), names) == Some(IntType)
  {
    var t := Infix(Arith(op), left, right);
    assert t[|left| - 1] == RBin(Arith(op), left[|left| - 1], right[0]);
    if |t| > 1 { PartsBool(t, names); }
  }

  lemma NegWhole(t: Text, names: Names)
    requires RustType(Whole([RNeg(t[0])] + t[1..]), names).Some?
    ensures |t| == 1 && RustType(t[0], names) == Some(IntType) && RustType(Whole([RNeg(t[0])] + t[1..]), names) == Some(IntType)
  {
    var u := [RNeg(t[0])] + t[1..];
    if |u| > 1 { PartsBool(u, names); }
  }

  lemma {:induction false} PlainTyped(e: Expr, names: Names)
    requires Plain(e, names) && TextType(e, names).Some?
    ensures TypeOf(e, names) == TextType(e, names)
    decreases e
  {
    match e
    case Bin(op, left, right) =>
      ArithWhole(op, Emit(left), Emit(right), names);
      PlainTyped(left, names);
      PlainTyped(right, names);
    case Neg(e1) =>
      NegWhole(Emit(e1), names);
      PlainTyped(e1, names);
    case Pos(e1) => PlainTyped(e1, names);
    case Not(e1) =>
      NoChainOnePart(e1);
      PlainTyped(e1, names);
    case Compare(first, links) =>
      NoChainOnePart(first);
      ComparisonTyped(Emit(first), links, names);
      PlainTyped(first, names);
    case BoolOp(isAnd, head, tail) =>
      OperandTypes(isAnd, Emit(head), tail, names);
      PlainTyped(head, names);
    case _ =>
  }

  lemma {:induction false} ComparisonTyped(left: Text, links: Links, names: Names)
    requires |left| == 1 && PlainLinks(links, names) && RustType(Whole(EmitLinks(left, links)), names).Some?
    ensures RustType(Whole(EmitLinks(left, links)), names) == Some(BoolType)
    ensures RustType(left[0], names).Some? && LinksTyped(RustType(left[0], names).value, links, names)
    decreases links
  {
    NoChainOnePart(links.e);
    var right := Emit(links.e);
    assert Infix(Comparison(links.op), left, right) == [RBin(Comparison(links.op), left[0], right[0])];
    var (text, link) := (EmitLinks(left, links), RBin(Comparison(links.op), left[0], right[0]));
    if links.More? {
      assert text == [link] + EmitLinks(right, links.rest) && text[1..] == EmitLinks(right, links.rest);
      PartsBool(text, names);
      assert RustType(text[0], names) == Some(BoolType);
      ComparisonTyped(right, links.rest, names);
    }
    PlainTyped(links.e, names);
  }

  lemma {:induction false} OperandTypes(isAnd: bool, left: Text, tail: Operands, names: Names)
    requires PlainOperands(tail, names) && RustType(EmitBool(isAnd, left, tail), names).Some?
    ensures RustType(EmitBool(isAnd, left, tail), names) == Some(BoolType)
    ensures RustType(Whole(left), names) == Some(BoolType) && OperandsTyped(tail, names)
    decreases tail
  {
    if tail.Also? { OperandTypes(isAnd, Emit(tail.e), tail.rest, names); }
    PlainTyped(tail.e, names);
  }

  lemma {:induction false} TypedPlain(e: Expr, names: Names)
    requires TypeOf(e, names).Some?
    ensures Plain(e, names)
    decreases e
  {
    match e
    case Bin(_, left, right) =>
      TypedPlain(left, names);
      TypedPlain(right, names);
    case Neg(e1) => TypedPlain(e1, names);
    case Pos(e1) =>
      TypedPlain(e1, names);
      ValueTyped(e1, names);
    case Not(e1) =>
      TypedPlain(e1, names);
      ValueTyped(e1, names);
    case Compare(first, links) =>
      TypedPlain(first, names);
      TypedPlainLinks(TypeOf(first, names).value, links, names);
    case BoolOp(_, head, tail) =>
      TypedPlain(head, names);
      TypedPlainOperands(tail, names);
    case _ =>
  }

  lemma {:induction false} TypedPlainLinks(t: Type, links: Links, names: Names)
    requires LinksTyped(t, links, names)
    ensures PlainLinks(links, names)
    decreases links
  {
    TypedPlain(links.e, names);
    if links.More? { TypedPlainLinks(t, links.rest, names); }
  }

  lemma {:induction false} TypedPlainOperands(tail: Operands, names: Names)
    requires OperandsTyped(tail, names)
    ensures PlainOperands(tail, names)
    decreases tail
  {
    TypedPlain(tail.e, names);
    if tail.Also? { TypedPlainOperands(tail.rest, names); }
  }

  /** The check types an expression exactly if it is plain and rustc types its text, and then alike. */
  lemma TypeOfIff(e: Expr, names: Names, t: Type)
    ensures TypeOf(e, names) == Some(t) <==> Plain(e, names) && TextType(e, names) == Some(t)
  {
    if TypeOf(e, names).Some? {
      TypedPlain(e, names);
      ValueTyped(e, names);
    }
    if Plain(e, names) && TextType(e, names).Some? { PlainTyped(e, names); }
  }

  lemma TypesAlike(e: Expr, names: Names)
    requires Plain(e, names)
    ensures TypeOf(e, names) == TextType(e, names)
  {
    if TypeOf(e, names).Some? { ValueTyped(e, names); }
    if TextType(e, names).Some? { PlainTyped(e, names); }
  }

  /* ----- Statements ----- */

  lemma {:induction false} LetsUsable(targets: seq<string>, value: Rust, tail: RustBlock, names: Names, p: Place)
    requires names != [] && CheckBlock(EmitLets(targets, value, tail), names, p)
    ensures targets != [] ==> RustType(value, names).Some?
    ensures forall x :: x in targets ==> Usable(x)
    decreases |targets|
  {
    if targets != [] {
      var after := CheckStmt(Let(targets[0], value), names, p);
      LetsUsable(targets[1..], value, tail, after.value, p);
      assert targets == [targets[0]] + targets[1..];
    }
  }

  /** A plain statement whose text rustc accepts passes the check, and both go on with the same names. */
  lemma {:induction false} StmtCovered(s: Stmt, tail: RustBlock, names: Names, p: Place)
    requires names != [] && PlainStmt(s, names) && CheckBlock(EmitStmt(s, tail), names, p)
    ensures SafeStmt(s, names, p) == Some(NamesAfter(s, names))
    decreases s, 1
  {
    match s
    case Assign(targets, value) =>
      LetsUsable(targets, Whole(Emit(value)), tail, names, p);
      TypesAlike(value, names);
    case AugAssign(x, op, value) => TypesAlike(value, names);
    case If(test, body, orelse) =>
      TypesAlike(test, names);
      BlockCovered(body, [map[]] + names, p);
      BlockCovered(orelse, [map[]] + names, p);
    case While(test, body, _) =>
      TypesAlike(test, names);
      BlockCovered(body, [map[]] + names, p.(inLoop := true));
    case Return(value) => TypesAlike(value, names);
    case _ =>
  }

  lemma {:induction false} BlockCovered(b: Block, names: Names, p: Place)
    requires names != [] && PlainBlock(b, names) && CheckBlock(EmitBlock(b), names, p)
    ensures SafeBlock(b, names, p).Some?
    decreases b, 0
  {
    if b.Then? {
      StmtCovered(b.stmt, EmitBlock(b.rest), names, p);
      StmtAccepted(b.stmt, EmitBlock(b.rest), names, p);
      BlockCovered(b.rest, NamesAfter(b.stmt, names), p);
    }
  }

  lemma {:induction false} SafeStmtPlain(s: Stmt, names: Names, p: Place)
    requires names != [] && SafeStmt(s, names, p).Some?
    ensures PlainStmt(s, names) && SafeStmt(s, names, p) == Some(NamesAfter(s, names))
    decreases s, 1
  {
    match s
    case Assign(targets, value) =>
      TypedPlain(value, names);
      ValueTyped(value, names);
    case AugAssign(x, op, value) => TypedPlain(value, names);
    case If(test, body, orelse) =>
      TypedPlain(test, names);
      SafeBlockPlain(body, [map[]] + names, p);
      SafeBlockPlain(orelse, [map[]] + names, p);
    case While(test, body, _) =>
      TypedPlain(test, names);
      SafeBlockPlain(body, [map[]] + names, p.(inLoop := true));
    case Return(value) => TypedPlain(value, names);
    case _ =>
  }

  lemma {:induction false} SafeBlockPlain(b: Block, names: Names, p: Place)
    requires names != [] && SafeBlock(b, names, p).Some?
    ensures PlainBlock(b, names)
    decreases b, 0
  {
    if b.Then? {
      SafeStmtPlain(b.stmt, names, p);
      SafeBlockPlain(b.rest, SafeStmt(b.stmt, names, p).value, p);
    }
  }

  /** The static check passes exactly the functions whose text rustc accepts and that have none of the patterns. */
  lemma TranslatableIff(sig: Signature, body: Block)
    ensures Translatable(sig, body) <==> Accepts(sig, EmitBlock(body)) && PlainBlock(body, ParamNames(sig))
  {
    ReturnsNeverFallOff(body);
    if Translatable(sig, body) {
      TranslatableAccepted(sig, body);
      SafeBlockPlain(body, ParamNames(sig), Place(sig.ret, false));
    }
    if Accepts(sig, EmitBlock(body)) && PlainBlock(body, ParamNames(sig)) {
      BlockCovered(body, ParamNames(sig), Place(sig.ret, false));
    }
  }
}
