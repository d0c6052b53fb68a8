/**
  * Exactly when one operation of the optimizer pass is right: for moves, folds, labels,
  * helper calls and branches, with a state that shows it wherever the premise fails.
  */
module OptimizerExact {
  import opened IrBits
  import opened IrEval
  import opened IrModel
  import opened IrFold
  import opened Optimizer
  import opened OptimizerProof
  import opened OptimizerRun
  import opened OptimizerLimits

  /** What is recorded stays true over the operation, from every state and whatever helpers do. */
  ghost predicate Keeps(temps: seq<Temp>, o: Opt, op: Op)
    requires Filled(op) && |o.info| == |o.temps| && |Visit(o, op).o.info| == |Visit(o, op).o.temps|
  {
    forall m: Machine<bool>, s: State | Canonical(temps, s) && Holds(o, s) :: KeptBy(m, temps, o, op, s)
  }

  ghost predicate KeptBy(m: Machine<bool>, temps: seq<Temp>, o: Opt, op: Op, s: State)
    requires Filled(op) && |Visit(o, op).o.info| == |Visit(o, op).o.temps|
  {
    var e := Execute(m, temps, op, s, true);
    e.flow == Next ==> Holds(Visit(o, op).o, e.state)
  }

  const IDLE: Machine<bool> := (c, ty, ks, xs, s, w) => Outcome([], [], w, Next)

  // ---- Records that a witness state makes true ----

  /** Copies point at temporaries that are neither known nor copies of another. */
  ghost predicate Flat(o: Opt)
    requires |o.info| == |o.temps|
  {
    forall t | 0 <= t < |o.info| && o.info[t].copy.CopyOf? :: FlatAt(o, t, o.info[t].copy.src)
  }

  ghost predicate FlatAt(o: Opt, t: nat, c: nat)
    requires |o.info| == |o.temps| && t < |o.info|
  {
    !o.info[t].isConst && c < |o.info| && !o.info[c].isConst && o.temps[c].kind != Const && (o.info[c].copy == NoSource || o.info[c].copy == CopyOf(c))
  }

  lemma MovFlat(temps: seq<Temp>, o: Opt, op: Op)
    requires Ok(temps, o) && Typed(temps, op) && op.opc == Mov && Flat(o) && Safe(o, op) && Ok(temps, Visit(o, op).o)
    ensures Flat(Visit(o, op).o)
  {
    hide Trunc, Visit;
    VisitFolds(o, op);
    var p, d := Propagate(o.info, op), op.args[0];
    var src, q := p.args[1], Visit(o, op).o;
    PropagatedType(temps, o, op, 1);
    assert Fits(o, src);
    if o.info[op.args[1]].copy.CopyOf? { assert FlatAt(o, op.args[1], src); }
    forall t | 0 <= t < |q.info| && q.info[t].copy.CopyOf? ensures FlatAt(q, t, q.info[t].copy.src) {
      if t != d { assert FlatAt(o, t, o.info[t].copy.src); }
    }
  }

  lemma FlatKept(temps: seq<Temp>, o: Opt, op: Op)
    requires Ok(temps, o) && Typed(temps, op) && Flat(o) && Safe(o, op)
    ensures Ok(temps, Visit(o, op).o) && Flat(Visit(o, op).o)
  {
    hide Trunc, Visit, Propagate;
    VisitSane(temps, o, op);
    VisitCopies(temps, o, op);
    var q := Visit(o, op).o;
    if op.opc == Mov {
      MovFlat(temps, o, op);
    } else {
      forall t | 0 <= t < |q.info| && q.info[t].copy.CopyOf? ensures FlatAt(q, t, q.info[t].copy.src) {
        assert FlatAt(o, t, o.info[t].copy.src) && Fits(q, t);
      }
    }
  }

  function Root(o: Opt, t: nat): nat
    requires t < |o.info|
  {
    if o.info[t].copy.CopyOf? then o.info[t].copy.src else t
  }

  /** A state that gives the copies of d the value a, the other unknowns b. */
  function Witness(o: Opt, n: nat, d: nat, a: bv64, b: bv64): (s: State)
    requires n <= |o.info| == |o.temps|
    ensures |s| == n
  {
    seq(n, t requires 0 <= t < n =>
      if o.info[t].isConst then Trunc(o.temps[t].ty, o.info[t].val) else if Root(o, t) == d then a else b)
  }

  predicate Bit(a: bv64) { a == 0 || a == 1 }

  lemma BitFits(ty: Type, a: bv64)
    requires Bit(a)
    ensures Trunc(ty, a) == a
  {
  }

  lemma WitnessHolds(temps: seq<Temp>, o: Opt, d: nat, a: bv64, b: bv64)
    requires Ok(temps, o) && Flat(o) && Bit(a) && Bit(b)
    ensures var s := Witness(o, |temps|, d, a, b); Canonical(temps, s) && Holds(o, s)
  {
    hide Trunc, Bit;
    var s := Witness(o, |temps|, d, a, b);
    forall t | 0 <= t < |temps| && temps[t].kind != Const ensures Trunc(temps[t].ty, s[t]) == s[t] {
      TruncTwice(temps[t].ty, o.info[t].val);
      BitFits(temps[t].ty, a);
      BitFits(temps[t].ty, b);
    }
    forall t | 0 <= t < |o.temps| ensures Claim(o, s, t) {
      assert Fits(o, t);
      if o.info[t].copy.CopyOf? { assert FlatAt(o, t, o.info[t].copy.src); }
    }
  }

  // ---- Moves ----

  /** The value the move writes differs from what the stale copy of its target holds. */
  lemma WitnessDiffers(temps: seq<Temp>, o: Opt, op: Op, t: nat) returns (s: State)
    requires Ok(temps, o) && Typed(temps, op) && op.opc == Mov && Flat(o)
    requires t < |o.info| && t != op.args[0] && o.info[t].copy == CopyOf(op.args[0]) && Propagate(o.info, op).args[1] != op.args[0]
    ensures Canonical(temps, s) && Holds(o, s)
    ensures Read(o.temps, s, t) != Trunc(temps[op.args[0]].ty, Read(temps, s, op.args[1]))
  {
    hide Trunc, Canonical, Holds, Ok, Witness, Read;
    Bounds(temps, o);
    var d, src := op.args[0], Propagate(o.info, op).args[1];
    PropagatedType(temps, o, op, 1);
    var known := o.info[src].isConst;
    var k := Trunc(temps[d].ty, o.info[src].val);
    var a: bv64 := if known && k == 0 then 1 else 0;
    s := Witness(o, |temps|, d, a, 1);
    WitnessHolds(temps, o, d, a, 1);
    PropagatedArg(temps, o, op, s, 1);
    WitnessReads(temps, o, s, d, a, t, src);
    if known { KnownRead(temps, o, s, src); TruncTwice(temps[d].ty, o.info[src].val); }
    else { SourceRoot(temps, o, op); BitFits(temps[d].ty, 1); }
  }

  lemma MovBroken(temps: seq<Temp>, o: Opt, op: Op, t: nat)
    requires Ok(temps, o) && Typed(temps, op) && op.opc == Mov && Flat(o) && Ok(temps, Visit(o, op).o)
    requires t < |o.info| && t != op.args[0] && o.info[t].copy == CopyOf(op.args[0]) && Propagate(o.info, op).args[1] != op.args[0]
    ensures !Keeps(temps, o, op)
  {
    hide Trunc, Visit, Canonical, Holds, Ok, Write, Read, Flat, Execute;
    Bounds(temps, o);
    VisitFolds(o, op);
    var d, q := op.args[0], Visit(o, op).o;
    var s := WitnessDiffers(temps, o, op, t);
    var v := Read(temps, s, op.args[1]);
    Sizes(temps, o, s);
    Wrote(temps, o, s, d, v);
    Computes(IDLE, temps, op, s, true);
    assert !Claim(q, Write(temps, s, d, v), t);
    NotHolding(q, Write(temps, s, d, v), t);
    assert !KeptBy(IDLE, temps, o, op, s);
  }

  lemma NotHolding(q: Opt, s: State, t: nat)
    requires t < |q.temps| == |q.info| && !Claim(q, s, t)
    ensures !Holds(q, s)
  {
  }

  lemma SourceRoot(temps: seq<Temp>, o: Opt, op: Op)
    requires Ok(temps, o) && Typed(temps, op) && op.opc == Mov && Flat(o)
    ensures var src := Propagate(o.info, op).args[1]; src < |o.info| && Root(o, src) == src
  {
    var a := op.args[1];
    if o.info[a].copy.CopyOf? { assert FlatAt(o, a, o.info[a].copy.src); }
  }

  lemma WitnessReads(temps: seq<Temp>, o: Opt, s: State, d: nat, a: bv64, t: nat, src: nat)
    requires Ok(temps, o) && Flat(o) && s == Witness(o, |temps|, d, a, 1) && t < |o.info| && src < |o.info| && d < |temps|
    requires o.info[t].copy == CopyOf(d)
    ensures Read(o.temps, s, t) == a
    ensures !o.info[src].isConst && Root(o, src) != d ==> Read(o.temps, s, src) == 1
  {
    hide Trunc;
    assert Fits(o, t) && FlatAt(o, t, d) && Fits(o, src);
  }

  /** A move keeps the record true exactly when no other temporary is recorded as a copy of the one it overwrites, or it writes the value already there. */
  lemma MovExact(temps: seq<Temp>, o: Opt, op: Op)
    requires Ok(temps, o) && Typed(temps, op) && op.opc == Mov && Flat(o)
    ensures Ok(temps, Visit(o, op).o)
    ensures Keeps(temps, o, op) <==> NoCopies(o.info, op.args[0]) || Propagate(o.info, op).args[1] == op.args[0]
  {
    hide Visit, Execute, Ok, Holds, Canonical, Propagate;
    VisitSane(temps, o, op);
    Bounds(temps, o);
    Bounds(temps, Visit(o, op).o);
    if NoCopies(o.info, op.args[0]) || Propagate(o.info, op).args[1] == op.args[0] {
      forall m: Machine<bool>, s: State | Canonical(temps, s) && Holds(o, s) ensures KeptBy(m, temps, o, op, s) {
        MovSound(m, temps, o, op, s, true);
      }
    } else {
      var t :| 0 <= t < |o.info| && t != op.args[0] && o.info[t].copy == CopyOf(op.args[0]);
      MovBroken(temps, o, op, t);
    }
  }

  // ---- Folds ----

  predicate Folds(c: Opcode) { c.Unary? || c.Convert? || c.Binary? }

  lemma BinaryReplaces(o: Opt, p: Op) returns (v: bv64)
    requires Filled(p) && p.opc.Binary? && p.args[0] < |o.info| && Info(FoldBinary(o, p).o.info, p.args[0]).isConst
    ensures FoldBinary(o, p) == ReplaceWithConst(o, p, p.args[0], v, p.ty)
  {
    hide ReplaceWithConst, Simplify, EvalBinary, Trunc;
    var b, ty, x, y := p.opc.b, p.ty, p.args[1], p.args[2];
    var left, right := OperandOf(o.info, x), OperandOf(o.info, y);
    if left.Known? && right.Known? {
      v := EvalBinary(b, Trunc(ty, left.val), Trunc(ty, right.val), ty);
    } else if Simplify(b, ty, left, right).Constant? {
      v := Simplify(b, ty, left, right).val;
    } else {
      v := 0;
    }
  }

  /** A fold that records a constant replaced the operation by a move of it. */
  lemma FoldReplaces(temps: seq<Temp>, o: Opt, op: Op) returns (v: bv64)
    requires Ok(temps, o) && Typed(temps, op) && Folds(op.opc) && Info(Visit(o, op).o.info, op.args[0]).isConst
    ensures Visit(o, op) == ReplaceWithConst(o, Propagate(o.info, op), op.args[0], v, op.ty)
  {
    hide Ok, Visit, ReplaceWithConst, FoldBinary, EvalUnary, EvalExt;
    Bounds(temps, o);
    VisitFolds(o, op);
    var p := Propagate(o.info, op);
    var si := Info(o.info, p.args[1]);
    match op.opc
    case Unary(u) => v := EvalUnary(u, op.ty, si.val);
    case Convert(x) => v := EvalExt(x, si.val);
    case Binary(_) => v := BinaryReplaces(o, p);
  }

  /** It leaves the copies of its target as they were. */
  lemma FoldLeavesCopies(temps: seq<Temp>, o: Opt, op: Op, t: nat)
    requires Ok(temps, o) && Typed(temps, op) && Folds(op.opc) && Info(Visit(o, op).o.info, op.args[0]).isConst
    requires t < |o.info| && t != op.args[0] && o.info[t].copy == CopyOf(op.args[0])
    ensures var q := Visit(o, op).o; |q.info| == |q.temps| && t < |q.info| && q.info[t].copy == CopyOf(op.args[0])
  {
    hide Visit, ReplaceWithConst, WithConst, Trunc;
    var v := FoldReplaces(temps, o, op);
    ReplaceShape(o, Propagate(o.info, op), op.args[0], v, op.ty);
    WithConstOk(temps, o, op.ty, Trunc(op.ty, v));
    assert Fits(o, t);
  }

  lemma FoldBroken(temps: seq<Temp>, o: Opt, op: Op, t: nat)
    requires Ok(temps, o) && Typed(temps, op) && Folds(op.opc) && Flat(o) && Ok(temps, Visit(o, op).o)
    requires Info(Visit(o, op).o.info, op.args[0]).isConst
    requires t < |o.info| && t != op.args[0] && o.info[t].copy == CopyOf(op.args[0])
    ensures !Keeps(temps, o, op)
  {
    hide Trunc, Visit, Canonical, Holds, Ok, Write, Read, Flat, Execute, Witness;
    Bounds(temps, o);
    var d, q := op.args[0], Visit(o, op).o;
    Bounds(temps, q);
    FoldLeavesCopies(temps, o, op, t);
    var k := Trunc(q.temps[d].ty, q.info[d].val);
    var a: bv64 := if k == 0 then 1 else 0;
    var s := Witness(o, |temps|, d, a, 1);
    WitnessHolds(temps, o, d, a, 1);
    WitnessReads(temps, o, s, d, a, t, d);
    Sizes(temps, o, s);
    var v := FoldWrites(temps, op, s);
    var r := Write(temps, s, d, v);
    Wrote(temps, q, s, d, v);
    VisitSane(temps, o, op);
    ReadGrown(o.temps, q.temps, s, t);
    if Holds(q, r) {
      HoldsAt(q, r, t);
      HoldsAt(q, r, d);
      assert false;
    }
    assert !KeptBy(IDLE, temps, o, op, s);
  }

  lemma HoldsAt(q: Opt, s: State, t: nat)
    requires t < |q.temps| == |q.info| && Holds(q, s)
    ensures Claim(q, s, t)
  {
  }

  lemma FoldWrites(temps: seq<Temp>, op: Op, s: State) returns (v: bv64)
    requires Filled(op) && Folds(op.opc)
    ensures Execute(IDLE, temps, op, s, true) == Effect(Write(temps, s, op.args[0], v), true, Next)
  {
    hide Execute, Read, Write, NativeUnary, NativeExt, NativeBinary;
    Computes(IDLE, temps, op, s, true);
    match op.opc
    case Unary(u) => v := NativeUnary(u, op.ty, Read(temps, s, op.args[1]));
    case Convert(x) => v := NativeExt(x, Read(temps, s, op.args[1]));
    case Binary(b) => v := NativeBinary(b, op.ty, Read(temps, s, op.args[1]), Read(temps, s, op.args[2]));
  }

  /** A fold keeps the record true exactly when it records no constant or no other temporary is recorded as a copy of its target. */
  lemma FoldExact(temps: seq<Temp>, o: Opt, op: Op)
    requires Ok(temps, o) && Typed(temps, op) && Folds(op.opc) && Flat(o)
    ensures Ok(temps, Visit(o, op).o)
    ensures Keeps(temps, o, op) <==> (Info(Visit(o, op).o.info, op.args[0]).isConst ==> NoCopies(o.info, op.args[0]))
  {
    hide Visit, Execute, Ok, Holds, Canonical;
    VisitSane(temps, o, op);
    Bounds(temps, o);
    Bounds(temps, Visit(o, op).o);
    if Info(Visit(o, op).o.info, op.args[0]).isConst && !NoCopies(o.info, op.args[0]) {
      var t :| 0 <= t < |o.info| && t != op.args[0] && o.info[t].copy == CopyOf(op.args[0]);
      FoldBroken(temps, o, op, t);
    } else {
      forall m: Machine<bool>, s: State | Canonical(temps, s) && Holds(o, s) ensures KeptBy(m, temps, o, op, s) {
        VisitSound(m, temps, o, op, s, true);
      }
    }
  }

  // ---- Labels and calls ----

  /** After a label the record is true of every state that can jump to it exactly when it holds constants of constants only. */
  lemma LabelExact(temps: seq<Temp>, o: Opt, op: Op)
    requires Ok(temps, o) && Typed(temps, op) && op.opc == SetLabel
    ensures |Visit(o, op).o.info| == |Visit(o, op).o.temps|
    ensures (forall s: State | Canonical(temps, s) :: Holds(Visit(o, op).o, s)) <==> Safe(o, op)
  {
    hide Trunc, Fold, Read;
    ForgetNothing(o, op);
    var q := Visit(o, op).o;
    assert q.info == ResetCopies(o.info);
    if Safe(o, op) {
      forall s: State | Canonical(temps, s) ensures Holds(q, s) {
        forall t | 0 <= t < |q.temps| ensures Claim(q, s, t) {
          assert Fits(o, t);
          if q.temps[t].kind == Const { ReadConst(q.temps, s, t); }
        }
      }
    } else {
      var t :| 0 <= t < |o.temps| && o.temps[t].kind != Const && o.info[t].isConst;
      var a: bv64 := if Trunc(o.temps[t].ty, o.info[t].val) == 0 then 1 else 0;
      var s := seq(|temps|, _ => a);
      forall u | 0 <= u < |temps| ensures Trunc(temps[u].ty, s[u]) == s[u] { BitFits(temps[u].ty, a); }
      ReadPlain(q.temps, s, t);
      NotHolding(q, s, t);
      assert Canonical(temps, s);
    }
  }

  lemma ReadPlain(temps: seq<Temp>, s: State, t: nat)
    requires t < |temps| && temps[t].kind != Const && t < |s|
    ensures Read(temps, s, t) == s[t]
  {
  }

  /** After a helper call the record is true whatever the helper did exactly when no constant is recorded of a global. */
  lemma CallExact(temps: seq<Temp>, o: Opt, op: Op)
    requires Ok(temps, o) && Typed(temps, op) && op.opc == Call && Flat(o)
    ensures Ok(temps, Visit(o, op).o)
    ensures Keeps(temps, o, op) <==> Safe(o, op)
  {
    hide Visit, Ok, Holds, Canonical, Execute, Safe;
    VisitSane(temps, o, op);
    Bounds(temps, o);
    Bounds(temps, Visit(o, op).o);
    if Safe(o, op) {
      forall m: Machine<bool>, s: State | Canonical(temps, s) && Holds(o, s) ensures KeptBy(m, temps, o, op, s) {
        CallSound(m, temps, o, op, s, true);
      }
    } else {
      CallBroken(temps, o, op);
    }
  }

  lemma CallRecord(temps: seq<Temp>, o: Opt, op: Op, t: nat)
    requires Ok(temps, o) && Typed(temps, op) && op.opc == Call && t < |o.info| && t != op.args[0]
    ensures var q := Visit(o, op).o; q.temps == o.temps && |q.info| == |o.info| && q.info[t].isConst == o.info[t].isConst && q.info[t].val == o.info[t].val
  {
    hide Visit, Trunc;
    VisitOthers(o, op);
    WrittenIs(temps, o.temps, op, op);
  }

  lemma CallBroken(temps: seq<Temp>, o: Opt, op: Op)
    requires Ok(temps, o) && Typed(temps, op) && op.opc == Call && Flat(o) && !Safe(o, op) && Ok(temps, Visit(o, op).o)
    ensures !Keeps(temps, o, op)
  {
    hide Trunc, Visit, Canonical, Holds, Witness, Ok, Execute;
    Bounds(temps, o);
    KindsGrown(temps, o);
    var t :| 0 <= t < |o.temps| && o.temps[t].kind == Global && o.info[t].isConst && t != op.args[0];
    var a: bv64 := if Trunc(o.temps[t].ty, o.info[t].val) == 0 then 1 else 0;
    var s := Witness(o, |temps|, |temps|, 0, 0);
    WitnessHolds(temps, o, |temps|, 0, 0);
    var globals := seq(|temps|, _ => a);
    var m: Machine<bool> := (c, ty, ks, xs, st, w) => Outcome([], globals, w, Next);
    Sizes(temps, o, s);
    CallRecord(temps, o, op, t);
    CallWrites(m, temps, op, s, globals, a, t);
    BitFits(temps[t].ty, a);
    var r, q := Execute(m, temps, op, s, true).state, Visit(o, op).o;
    ReadPlain(q.temps, r, t);
    NotHolding(q, r, t);
    assert !KeptBy(m, temps, o, op, s);
  }

  lemma CallWrites(m: Machine<bool>, temps: seq<Temp>, op: Op, s: State, globals: seq<bv64>, a: bv64, t: nat)
    requires Typed(temps, op) && op.opc == Call && |s| == |temps| == |globals| && t < |temps| && temps[t].kind == Global && t != op.args[0]
    requires m == ((c, ty, ks, xs, st, w) => Outcome([], globals, w, Next)) && globals[t] == a
    ensures var e := Execute(m, temps, op, s, true); e.flow == Next && |e.state| == |s| && e.state[t] == Trunc(temps[t].ty, a)
  {
    hide Trunc;
    var out := op.args[..1];
    assert out[..0] == [];
    assert WriteOuts(temps, Clobber(temps, s, globals), out[..0], []) == Clobber(temps, s, globals);
  }

  // ---- Branches ----

  /** The rewritten operation does what the original does. */
  ghost predicate SameStep(m: Machine<bool>, temps: seq<Temp>, o: Opt, op: Op, s: State)
    requires Filled(op)
  {
    Execute(m, Visit(o, op).o.temps, Visit(o, op).op, s, true) == Execute(m, temps, op, s, true)
  }

  lemma BranchBroken(temps: seq<Temp>, o: Opt, op: Op)
    requires Ok(temps, o) && Typed(temps, op) && op.opc == BrCond && Flat(o) && !Safe(o, op)
    ensures exists s: State :: Canonical(temps, s) && Holds(o, s) && !SameStep(IDLE, temps, o, op, s)
  {
    hide Trunc, Visit, Canonical, Holds, Witness, Ok, Execute, Compare, EvalCond, CondOf, Negative32, Read;
    Bounds(temps, o);
    VisitFolds(o, op);
    var p, c := Propagate(o.info, op), CondOf(op.args[2]);
    var x, y := p.args[0], p.args[1];
    var s := Witness(o, |temps|, |temps|, 0, 0);
    WitnessHolds(temps, o, |temps|, 0, 0);
    PropagatedArg(temps, o, op, s, 0);
    PropagatedArg(temps, o, op, s, 1);
    KnownRead(temps, o, s, x);
    KnownRead(temps, o, s, y);
    CompareOfTrunc(c, op.ty, o.info[x].val, o.info[y].val);
    CondExact(c, op.ty, o.info[x].val, o.info[y].val);
    BranchExecutes(IDLE, temps, op, s, true);
    BranchExecutes(IDLE, o.temps, Visit(o, op).op, s, true);
    assert !SameStep(IDLE, temps, o, op, s);
  }

  /** A folded branch goes where the original goes, from every state, exactly when it does not compare constants of different sign as signed thirty-two bit words. */
  lemma BranchExact(temps: seq<Temp>, o: Opt, op: Op)
    requires Ok(temps, o) && Typed(temps, op) && op.opc == BrCond && Flat(o)
    ensures (forall m: Machine<bool>, s: State | Canonical(temps, s) && Holds(o, s) :: SameStep(m, temps, o, op, s)) <==> Safe(o, op)
  {
    hide Visit, Execute, Ok, Holds, Canonical, Safe;
    Bounds(temps, o);
    if Safe(o, op) {
      forall m: Machine<bool>, s: State | Canonical(temps, s) && Holds(o, s) ensures SameStep(m, temps, o, op, s) {
        BrCondSound(m, temps, o, op, s, true);
      }
    } else {
      BranchBroken(temps, o, op);
    }
  }

  // ---- Every operation ----

  /** From every state the record is true of, or any at a label, the step is kept and leaves a true record. */
  ghost predicate AlwaysSound(temps: seq<Temp>, o: Opt, op: Op)
    requires Filled(op) && |o.info| == |o.temps|
  {
    forall m: Machine<bool>, s: State | Canonical(temps, s) && (op.opc == SetLabel || Holds(o, s)) :: Sound(m, temps, o, op, s, true)
  }

  lemma SoundKeeps(temps: seq<Temp>, o: Opt, op: Op)
    requires Ok(temps, o) && Typed(temps, op) && op.opc != SetLabel && AlwaysSound(temps, o, op)
    ensures |Visit(o, op).o.info| == |Visit(o, op).o.temps| && Keeps(temps, o, op)
  {
    hide Visit, Execute, Ok, Holds, Canonical;
    VisitSane(temps, o, op);
    Bounds(temps, o);
    Bounds(temps, Visit(o, op).o);
    forall m: Machine<bool>, s: State | Canonical(temps, s) && Holds(o, s) ensures KeptBy(m, temps, o, op, s) {
      assert Sound(m, temps, o, op, s, true);
    }
  }

  lemma SoundAtLabel(temps: seq<Temp>, o: Opt, op: Op)
    requires Ok(temps, o) && Typed(temps, op) && op.opc == SetLabel && AlwaysSound(temps, o, op)
    ensures Safe(o, op)
  {
    hide Visit, Ok, Holds, Canonical, Safe, Execute;
    Bounds(temps, o);
    LabelExact(temps, o, op);
    forall s: State | Canonical(temps, s) ensures Holds(Visit(o, op).o, s) {
      assert Sound(IDLE, temps, o, op, s, true);
      LabelExecutes(IDLE, temps, op, s, true);
    }
  }

  lemma LabelExecutes<W>(m: Machine<W>, temps: seq<Temp>, op: Op, s: State, w: W)
    requires Filled(op) && op.opc == SetLabel
    ensures Execute(m, temps, op, s, w) == Effect(s, w, Next)
  {
  }

  /** One operation of the pass is right in every state exactly when what the pass relies on there is met. */
  lemma StepExact(temps: seq<Temp>, o: Opt, op: Op)
    requires Ok(temps, o) && Typed(temps, op) && Flat(o)
    ensures AlwaysSound(temps, o, op) <==> Safe(o, op)
  {
    hide Visit, Execute, Ok, Holds, Canonical, Sound, NoCopies, Propagate;
    Bounds(temps, o);
    if Safe(o, op) {
      forall m: Machine<bool>, s: State | Canonical(temps, s) && (op.opc == SetLabel || Holds(o, s)) ensures Sound(m, temps, o, op, s, true) {
        VisitSound(m, temps, o, op, s, true);
      }
    } else if AlwaysSound(temps, o, op) {
      if op.opc == SetLabel { SoundAtLabel(temps, o, op); }
      else if op.opc == BrCond { BranchSame(temps, o, op); BranchExact(temps, o, op); }
      else {
        SoundKeeps(temps, o, op);
        match op.opc {
          case Mov => MovExact(temps, o, op);
          case Call => CallExact(temps, o, op);
          case _ => FoldExact(temps, o, op);
        }
      }
      assert false;
    }
  }

  lemma BranchSame(temps: seq<Temp>, o: Opt, op: Op)
    requires Ok(temps, o) && Typed(temps, op) && op.opc == BrCond && AlwaysSound(temps, o, op)
    ensures forall m: Machine<bool>, s: State | Canonical(temps, s) && Holds(o, s) :: SameStep(m, temps, o, op, s)
  {
    hide Visit, Execute, Ok, Holds, Canonical;
    Bounds(temps, o);
    forall m: Machine<bool>, s: State | Canonical(temps, s) && Holds(o, s) ensures SameStep(m, temps, o, op, s) {
      assert Sound(m, temps, o, op, s, true);
    }
  }

  // ---- Whole blocks ----

  lemma {:induction false} FlatAfter(temps: seq<Temp>, table: ConstTable, ops: seq<Op>, n: nat)
    requires AllFilled(ops) && WellFormed(temps, table, ops) && n <= |ops| && forall i | 0 <= i < n :: SafeAt(temps, table, ops, i)
    ensures Ok(temps, After(temps, table, ops, n)) && Flat(After(temps, table, ops, n))
  {
    hide Visit, Ok, Safe;
    AfterOk(temps, table, ops, n);
    Bounds(temps, After(temps, table, ops, n));
    if n > 0 {
      FlatAfter(temps, table, ops, n - 1);
      assert SafeAt(temps, table, ops, n - 1) && Typed(temps, ops[n - 1]);
      FlatKept(temps, After(temps, table, ops, n - 1), ops[n - 1]);
    }
  }

  ghost predicate SoundAt(temps: seq<Temp>, table: ConstTable, ops: seq<Op>, i: nat)
    requires AllFilled(ops) && WellFormed(temps, table, ops) && i < |ops|
  {
    AfterOk(temps, table, ops, i);
    AlwaysSound(temps, After(temps, table, ops, i), ops[i])
  }

  lemma SoundThenSafe(temps: seq<Temp>, table: ConstTable, ops: seq<Op>, i: nat)
    requires AllFilled(ops) && WellFormed(temps, table, ops) && i < |ops| && SoundAt(temps, table, ops, i)
    requires forall j | 0 <= j < i :: SafeAt(temps, table, ops, j)
    ensures SafeAt(temps, table, ops, i)
  {
    hide Ok, Safe, AlwaysSound, Flat;
    FlatAfter(temps, table, ops, i);
    assert Typed(temps, ops[i]);
    StepExact(temps, After(temps, table, ops, i), ops[i]);
  }

  lemma {:induction false} SoundIsSafe(temps: seq<Temp>, table: ConstTable, ops: seq<Op>, n: nat)
    requires AllFilled(ops) && WellFormed(temps, table, ops) && n <= |ops| && forall i | 0 <= i < n :: SoundAt(temps, table, ops, i)
    ensures forall i | 0 <= i < n :: SafeAt(temps, table, ops, i)
  {
    hide SafeAt, SoundAt, WellFormed, AllFilled;
    if n > 0 {
      SoundIsSafe(temps, table, ops, n - 1);
      SoundThenSafe(temps, table, ops, n - 1);
    }
  }

  /** Every operation of the pass is right in every state its record is true of exactly when the block meets all premises. */
  lemma BlockExact(temps: seq<Temp>, table: ConstTable, ops: seq<Op>)
    requires AllFilled(ops) && WellFormed(temps, table, ops)
    ensures SafeBlock(temps, table, ops) <==> forall i | 0 <= i < |ops| :: SoundAt(temps, table, ops, i)
  {
    hide Ok, Safe, AlwaysSound, Flat, SoundAt, SafeAt;
    if SafeBlock(temps, table, ops) {
      forall i | 0 <= i < |ops| ensures SoundAt(temps, table, ops, i) { SafeIsSound(temps, table, ops, i); }
    }
    if forall i | 0 <= i < |ops| :: SoundAt(temps, table, ops, i) {
      SoundIsSafe(temps, table, ops, |ops|);
    }
  }

  lemma SafeIsSound(temps: seq<Temp>, table: ConstTable, ops: seq<Op>, i: nat)
    requires AllFilled(ops) && WellFormed(temps, table, ops) && i < |ops| && forall j | 0 <= j <= i :: SafeAt(temps, table, ops, j)
    ensures SoundAt(temps, table, ops, i)
  {
    hide Ok, Safe, AlwaysSound, Flat;
    FlatAfter(temps, table, ops, i);
    assert SafeAt(temps, table, ops, i) && Typed(temps, ops[i]);
    StepExact(temps, After(temps, table, ops, i), ops[i]);
  }
}
