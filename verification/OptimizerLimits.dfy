/**
  * When the optimizer may be used: blocks a caller can recognise before the pass runs.
  */
module OptimizerLimits {
  import opened IrBits
  import opened IrEval
  import opened IrModel
  import opened Optimizer
  import opened OptimizerProof
  import opened OptimizerRun

  // ---- Blocks a caller can recognise ----

  ghost predicate Reads(op: Op, t: nat)
    requires Filled(op)
  {
    exists i :: Oargs(op.opc) <= i < Oargs(op.opc) + Iargs(op.opc) && op.args[i] == t
  }

  /** The operations whose result the pass may record. */
  predicate Recorded(c: Opcode) { c.Mov? || c.Unary? || c.Convert? || c.Binary? }

  ghost predicate MovedBefore(ops: seq<Op>, n: nat, t: nat)
    requires AllFilled(ops) && n <= |ops|
  {
    exists j :: 0 <= j < n && ops[j].opc == Mov && Reads(ops[j], t)
  }

  ghost predicate RecordedBefore(ops: seq<Op>, n: nat, t: nat)
    requires AllFilled(ops) && n <= |ops|
  {
    exists j :: 0 <= j < n && Recorded(ops[j].opc) && ops[j].args[0] == t
  }

  /**
    * What a caller can check of operation i: a label comes before anything is recorded, a
    * helper call before a global is, a temporary that an earlier move reads is not written by
    * a recorded operation, and no thirty-two bit words are compared as signed ones.
    */
  ghost predicate Straight(temps: seq<Temp>, ops: seq<Op>, i: nat)
    requires AllFilled(ops) && i < |ops|
  {
    var op := ops[i];
    match op.opc
    case SetLabel => forall t: nat :: !RecordedBefore(ops, i, t)
    case Call => forall t: nat | t < |temps| && temps[t].kind == Global && t != op.args[0] :: !RecordedBefore(ops, i, t)
    case BrCond => !(op.ty == I32 && IsSigned(CondOf(op.args[2])))
    case _ => Recorded(op.opc) ==> !MovedBefore(ops, i, op.args[0])
  }

  /** Every copy recorded in q was recorded in o, and every constant but d's. */
  ghost predicate NoNewCopy(o: Opt, q: Opt, d: nat) {
    && |q.info| == |q.temps|
    && (forall t | 0 <= t < |q.info| && q.info[t].copy.CopyOf? :: t < |o.info| && o.info[t].copy == q.info[t].copy)
    && (forall t | 0 <= t < |q.info| && q.info[t].isConst ::
          (t < |o.info| && o.info[t].isConst) || q.temps[t].kind == Const || (t == d && q.info[d].copy == NoSource))
  }

  lemma ForgetNoNewCopy(o: Opt, written: set<nat>, d: nat)
    requires |o.info| == |o.temps|
    ensures NoNewCopy(o, o.(info := Forget(o.info, written)), d) && NoNewCopy(o, o.(info := ResetCopies(Forget(o.info, written))), d)
  {
  }

  lemma ReplaceNoNewCopy(temps: seq<Temp>, o: Opt, p: Op, d: nat, v: bv64, ty: Type)
    requires Ok(temps, o) && Filled(p) && d < |o.temps|
    ensures NoNewCopy(o, ReplaceWithConst(o, p, d, v, ty).o, d)
  {
    hide Trunc, ReplaceWithConst, WithConst;
    ReplaceShape(o, p, d, v, ty);
    WithConstOk(temps, o, ty, Trunc(ty, v));
  }

  lemma BinaryNoNewCopy(temps: seq<Temp>, o: Opt, p: Op)
    requires Ok(temps, o) && Filled(p) && p.opc.Binary? && p.args[0] < |o.temps|
    ensures NoNewCopy(o, FoldBinary(o, p).o, p.args[0])
  {
    hide Ok, ReplaceWithConst, Simplify, EvalBinary, Trunc, NoNewCopy, Forget;
    Bounds(temps, o);
    var b, ty, d, x, y := p.opc.b, p.ty, p.args[0], p.args[1], p.args[2];
    var left, right := OperandOf(o.info, x), OperandOf(o.info, y);
    ForgetNoNewCopy(o, {d}, d);
    ReplaceNoNewCopy(temps, o, p, d, 0, ty);
    if left.Known? && right.Known? {
      ReplaceNoNewCopy(temps, o, p, d, EvalBinary(b, Trunc(ty, left.val), Trunc(ty, right.val), ty), ty);
    } else if Simplify(b, ty, left, right).Constant? {
      ReplaceNoNewCopy(temps, o, p, d, Simplify(b, ty, left, right).val, ty);
    }
  }

  lemma UnaryNoNewCopy(temps: seq<Temp>, o: Opt, p: Op)
    requires Ok(temps, o) && Filled(p) && (p.opc.Unary? || p.opc.Convert?) && p.args[0] < |o.temps|
    ensures NoNewCopy(o, (if p.opc.Unary? then FoldUnary(o, p) else FoldExt(o, p)).o, p.args[0])
  {
    hide Ok, ReplaceWithConst, EvalUnary, EvalExt, NoNewCopy, Forget;
    Bounds(temps, o);
    var d, si := p.args[0], Info(o.info, p.args[1]);
    ForgetNoNewCopy(o, {d}, d);
    if p.opc.Unary? {
      ReplaceNoNewCopy(temps, o, p, d, EvalUnary(p.opc.u, p.ty, si.val), p.ty);
    } else {
      ReplaceNoNewCopy(temps, o, p, d, EvalExt(p.opc.x, si.val), ExtTo(p.opc.x));
    }
  }

  /** A visit records no copy but the one of a move it sees. */
  lemma VisitCopies(temps: seq<Temp>, o: Opt, op: Op)
    requires Ok(temps, o) && Typed(temps, op)
    ensures op.opc != Mov ==> NoNewCopy(o, Visit(o, op).o, if Recorded(op.opc) then op.args[0] else |o.info|)
    ensures op.opc == Mov ==> forall t | 0 <= t < |Visit(o, op).o.info| && t != op.args[0] ::
      var e := Visit(o, op).o.info[t];
      (e.copy.CopyOf? ==> t < |o.info| && o.info[t].copy == e.copy) && (e.isConst ==> t < |o.info| && o.info[t].isConst)
    ensures op.opc == Mov ==>
      var c := Info(Visit(o, op).o.info, op.args[0]).copy; c.CopyOf? ==> c.src == Propagate(o.info, op).args[1]
  {
    hide Trunc, EvalCond, CondOf, Visit, FoldUnary, FoldExt, FoldBinary, Forget, ResetCopies, Written;
    VisitFolds(o, op);
    var p := Propagate(o.info, op);
    match op.opc
    case Mov =>
    case Unary(_) => UnaryNoNewCopy(temps, o, p);
    case Convert(_) => UnaryNoNewCopy(temps, o, p);
    case Binary(_) => BinaryNoNewCopy(temps, o, p);
    case BrCond =>
    case _ =>
      VisitOthers(o, op);
      ForgetNoNewCopy(o, Written(o.temps, if Boundary(op.opc) || Skipped(op.opc) then op else p), |o.info|);
  }

  lemma KindsGrown(temps: seq<Temp>, o: Opt)
    requires Ok(temps, o)
    ensures forall t | 0 <= t < |o.temps| && o.temps[t].kind != Const :: t < |temps| && temps[t] == o.temps[t]
  {
  }

  lemma {:induction false} CopiesWereMoved(temps: seq<Temp>, table: ConstTable, ops: seq<Op>, n: nat, t: nat)
    requires AllFilled(ops) && WellFormed(temps, table, ops) && n <= |ops|
    requires var o := After(temps, table, ops, n); t < |o.info| && o.info[t].copy.CopyOf?
    ensures MovedBefore(ops, n, After(temps, table, ops, n).info[t].copy.src)
  {
    hide Visit, Ok;
    if n > 0 {
      var o, op := After(temps, table, ops, n - 1), ops[n - 1];
      assert Typed(temps, op);
      AfterOk(temps, table, ops, n - 1);
      VisitCopies(temps, o, op);
      var c := Visit(o, op).o.info[t].copy;
      if t < |o.info| && o.info[t].copy == c {
        CopiesWereMoved(temps, table, ops, n - 1, t);
      } else {
        var a := op.args[1];
        if a < |o.info| && o.info[a].copy.CopyOf? {
          CopiesWereMoved(temps, table, ops, n - 1, a);
        } else {
          assert Reads(op, c.src);
        }
      }
    }
  }

  lemma {:induction false} ConstantsWereRecorded(temps: seq<Temp>, table: ConstTable, ops: seq<Op>, n: nat, t: nat)
    requires AllFilled(ops) && WellFormed(temps, table, ops) && n <= |ops|
    requires var o := After(temps, table, ops, n); t < |o.info| == |o.temps| && o.info[t].isConst && o.temps[t].kind != Const
    ensures RecordedBefore(ops, n, t)
  {
    hide Visit, Ok;
    if n > 0 {
      var o, op := After(temps, table, ops, n - 1), ops[n - 1];
      assert Typed(temps, op);
      AfterOk(temps, table, ops, n - 1);
      Bounds(temps, o);
      VisitCopies(temps, o, op);
      VisitSane(temps, o, op);
      KindsGrown(temps, Visit(o, op).o);
      if Recorded(op.opc) && op.args[0] == t {
        assert RecordedBefore(ops, n, t);
      } else {
        assert t < |o.info| && o.info[t].isConst;
        ConstantsWereRecorded(temps, table, ops, n - 1, t);
      }
    }
  }

  lemma StraightAt(temps: seq<Temp>, table: ConstTable, ops: seq<Op>, i: nat)
    requires AllFilled(ops) && WellFormed(temps, table, ops) && i < |ops| && Straight(temps, ops, i)
    ensures SafeAt(temps, table, ops, i)
  {
    hide Visit, Ok, RecordedBefore, MovedBefore;
    var o, op := After(temps, table, ops, i), ops[i];
    AfterOk(temps, table, ops, i);
    Bounds(temps, o);
    KindsGrown(temps, o);
    forall t | 0 <= t < |o.temps| && o.info[t].isConst && o.temps[t].kind != Const ensures RecordedBefore(ops, i, t) {
      ConstantsWereRecorded(temps, table, ops, i, t);
    }
    forall t | 0 <= t < |o.info| && o.info[t].copy.CopyOf? ensures MovedBefore(ops, i, o.info[t].copy.src) {
      CopiesWereMoved(temps, table, ops, i, t);
    }
  }

  /** Blocks a caller has checked are safe. */
  lemma StraightSafe(temps: seq<Temp>, table: ConstTable, ops: seq<Op>)
    requires AllFilled(ops) && WellFormed(temps, table, ops)
    requires forall i | 0 <= i < |ops| :: Straight(temps, ops, i)
    ensures SafeBlock(temps, table, ops)
  {
    hide Straight, SafeAt;
    forall i | 0 <= i < |ops| ensures SafeAt(temps, table, ops, i) {
      StraightAt(temps, table, ops, i);
    }
  }
}
