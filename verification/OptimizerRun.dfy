/**
  * Whole runs of an optimized block: lockstep with the original from every state, for blocks
  * that meet the premises of each step.
  */
module OptimizerRun {
  import opened IrBits
  import opened IrEval
  import opened IrModel
  import opened IrFold
  import opened Optimizer
  import opened OptimizerProof

  lemma ForgetNothing(o: Opt, op: Op)
    requires Filled(op) && Oargs(op.opc) == 0
    ensures Forget(o.info, Written(o.temps, op)) == o.info
  {
    assert Written(o.temps, op) == {};
  }

  predicate Plain(c: Opcode) { c == Br || c == ExitTb || c == GotoPtr || c == Nop || c == InsnStart }

  lemma PlainSound<W>(m: Machine<W>, temps: seq<Temp>, o: Opt, op: Op, s: State, w: W)
    requires Ready(temps, o, op, s) && Plain(op.opc)
    ensures Sound(m, temps, o, op, s, w)
  {
    hide Trunc, Read, Write, Holds, Ok, Canonical, Written, Forget, ResetCopies, Fold;
    Bounds(temps, o);
    ForgetNothing(o, op);
    ResetHolds(temps, o, s);
    if op.opc == GotoPtr { ReadGrown(temps, o.temps, s, op.args[0]); }
  }

  /** Where paths join nothing needs to hold before: nothing but constants is recorded after. */
  lemma LabelSound<W>(m: Machine<W>, temps: seq<Temp>, o: Opt, op: Op, s: State, w: W)
    requires Ok(temps, o) && Typed(temps, op) && Safe(o, op) && op.opc == SetLabel
    ensures Sound(m, temps, o, op, s, w)
  {
    hide Trunc, Read, Fold;
    ForgetNothing(o, op);
    var q := o.(info := ResetCopies(o.info));
    forall t | 0 <= t < |q.temps| ensures Fits(q, t) && Claim(q, s, t) {
      assert Fits(o, t);
      if q.temps[t].kind == Const { ReadConst(q.temps, s, t); }
    }
  }

  lemma CallExecutes<W>(m: Machine<W>, temps: seq<Temp>, more: seq<Temp>, op: Op, s: State, w: W)
    requires temps <= more && Typed(temps, op) && |s| <= |temps| && op.opc == Call
    ensures var e := Execute(m, temps, op, s, w);
      && Execute(m, more, op, s, w) == e
      && forall t | 0 <= t < |more| && t != op.args[0] && more[t].kind != Global :: Read(more, e.state, t) == Read(more, s, t)
  {
    hide Trunc, WriteOuts, Inputs, Constants, Clobber;
    AlikeSelf(temps, more, op, s);
    SameInputs(temps, more, op, op, s);
    var r := m(op.opc, op.ty, Constants(op), Inputs(temps, s, op), s, w);
    var mid := Clobber(temps, s, r.globals);
    ClobberSame(temps, more, s, r.globals);
    WriteOutsElsewhere(temps, more, mid, op.args[..1], r.outs);
  }

  lemma ClobberSame(temps: seq<Temp>, more: seq<Temp>, s: State, globals: seq<bv64>)
    requires temps <= more && |s| <= |temps|
    ensures Clobber(more, s, globals) == Clobber(temps, s, globals)
    ensures forall t | 0 <= t < |more| && more[t].kind != Global :: Read(more, Clobber(temps, s, globals), t) == Read(more, s, t)
  {
    hide Trunc;
  }

  lemma CallSound<W>(m: Machine<W>, temps: seq<Temp>, o: Opt, op: Op, s: State, w: W)
    requires Ready(temps, o, op, s) && op.opc == Call
    ensures Sound(m, temps, o, op, s, w)
  {
    hide Trunc, Read, Fold, Execute, Written, Canonical;
    Sizes(temps, o, s);
    CallExecutes(m, temps, o.temps, op, s, w);
    WrittenIs(temps, o.temps, op, op);
    var e := Execute(m, temps, op, s, w);
    var written := Written(o.temps, op);
    assert written == {op.args[0]} by { assert (set i | 0 <= i < Oargs(op.opc) :: op.args[i]) == {op.args[0]}; }
    var q := o.(info := ResetCopies(Forget(o.info, written)));
    forall t | 0 <= t < |q.temps| ensures Fits(q, t) && Claim(q, e.state, t) {
      assert Fits(o, t) && Claim(o, s, t);
    }
  }

  lemma ClobberCanonical(temps: seq<Temp>, s: State, globals: seq<bv64>)
    requires Canonical(temps, s)
    ensures Canonical(temps, Clobber(temps, s, globals))
  {
    hide Trunc;
    forall t | 0 <= t < |s| && temps[t].kind != Const ensures var c := Clobber(temps, s, globals); Trunc(temps[t].ty, c[t]) == c[t] {
      if t < |globals| { TruncTwice(temps[t].ty, globals[t]); }
    }
  }

  lemma ExecuteCanonical<W>(m: Machine<W>, temps: seq<Temp>, op: Op, s: State, w: W)
    requires Filled(op) && Canonical(temps, s)
    ensures Canonical(temps, Execute(m, temps, op, s, w).state)
  {
    hide Trunc, Read, Write, WriteOuts, Inputs, Constants, Clobber, Canonical, Compare, NativeBinary, NativeUnary, NativeExt;
    match op.opc
    case Mov => WriteCanonical(temps, s, op.args[0], Read(temps, s, op.args[1]));
    case Unary(u) => WriteCanonical(temps, s, op.args[0], NativeUnary(u, op.ty, Read(temps, s, op.args[1])));
    case Convert(x) => WriteCanonical(temps, s, op.args[0], NativeExt(x, Read(temps, s, op.args[1])));
    case Binary(b) => WriteCanonical(temps, s, op.args[0], NativeBinary(b, op.ty, Read(temps, s, op.args[1]), Read(temps, s, op.args[2])));
    case Call =>
      var r := m(op.opc, op.ty, Constants(op), Inputs(temps, s, op), s, w);
      ClobberCanonical(temps, s, r.globals);
      WriteOutsCanonical(temps, Clobber(temps, s, r.globals), op.args[..1], r.outs);
    case GotoTb | Discard | Other(_, _, _, _, _) =>
      var r := m(op.opc, op.ty, Constants(op), Inputs(temps, s, op), s, w);
      WriteOutsCanonical(temps, s, op.args[..Oargs(op.opc)], r.outs);
    case _ =>
  }

  lemma VisitSound<W>(m: Machine<W>, temps: seq<Temp>, o: Opt, op: Op, s: State, w: W)
    requires Ok(temps, o) && Typed(temps, op) && Canonical(temps, s) && Safe(o, op) && (op.opc == SetLabel || Holds(o, s))
    ensures Sound(m, temps, o, op, s, w)
  {
    hide Sound, Ok, Holds, Typed, Canonical, Safe;
    match op.opc
    case SetLabel => LabelSound(m, temps, o, op, s, w);
    case Mov => MovSound(m, temps, o, op, s, w);
    case Unary(_) => UnarySound(m, temps, o, op, s, w);
    case Convert(_) => ConvertSound(m, temps, o, op, s, w);
    case Binary(_) => BinarySound(m, temps, o, op, s, w);
    case BrCond => BrCondSound(m, temps, o, op, s, w);
    case Call => CallSound(m, temps, o, op, s, w);
    case GotoTb | Discard | Other(_, _, _, _, _) => OutsideSound(m, temps, o, op, s, w);
    case _ => PlainSound(m, temps, o, op, s, w);
  }

  // ---- The pass keeps its own state in order ----

  lemma ForgetOk(temps: seq<Temp>, o: Opt, written: set<nat>)
    requires Ok(temps, o) && forall t | t in written && t < |o.temps| :: o.temps[t].kind != Const
    ensures Ok(temps, o.(info := Forget(o.info, written))) && Ok(temps, o.(info := ResetCopies(Forget(o.info, written))))
  {
    hide Trunc;
    var q, z := o.(info := Forget(o.info, written)), o.(info := ResetCopies(Forget(o.info, written)));
    forall t | 0 <= t < |o.temps| ensures Fits(q, t) && Fits(z, t) {
      assert Fits(o, t);
    }
  }

  lemma RecordOk(temps: seq<Temp>, o: Opt, d: nat, e: TempInfo)
    requires Ok(temps, o) && d < |o.temps| && Fits(o.(info := o.info[d := e]), d)
    ensures Ok(temps, o.(info := o.info[d := e]))
  {
    hide Trunc;
    var q := o.(info := o.info[d := e]);
    forall t | 0 <= t < |o.temps| ensures Fits(q, t) {
      assert Fits(o, t);
    }
  }

  /** A rewrite that keeps the pass in order and leaves a well-typed operation. */
  ghost predicate Sane(temps: seq<Temp>, o: Opt, r: Rewrite) {
    Ok(temps, r.o) && o.temps <= r.o.temps && Typed(r.o.temps, r.op)
  }

  lemma DropSane(temps: seq<Temp>, o: Opt, p: Op, d: nat)
    requires Ok(temps, o) && Typed(o.temps, p) && d < |temps| && temps[d].kind != Const
    ensures Sane(temps, o, Drop(o, p, d))
  {
    hide Forget, Typed;
    Bounds(temps, o);
    ForgetOk(temps, o, {d});
  }

  lemma ReplaceSane(temps: seq<Temp>, o: Opt, p: Op, d: nat, v: bv64, ty: Type)
    requires Ok(temps, o) && Filled(p) && p.ty == ty && HasType(temps, d, ty) && temps[d].kind != Const
    ensures Sane(temps, o, ReplaceWithConst(o, p, d, v, ty))
  {
    hide Trunc, ReplaceWithConst, WithConst;
    ReplaceShape(o, p, d, v, ty);
    WithConstOk(temps, o, ty, Trunc(ty, v));
    var (q, c) := WithConst(o, ty, Trunc(ty, v));
    RecordOk(temps, q, d, TempInfo(true, Trunc(ty, v), NoSource));
  }

  lemma MovSane(temps: seq<Temp>, o: Opt, p: Op, d: nat, src: nat)
    requires Ok(temps, o) && Filled(p) && HasType(temps, d, p.ty) && temps[d].kind != Const && HasType(o.temps, src, p.ty)
    ensures Sane(temps, o, ReplaceWithMov(o, p, d, src))
  {
    hide Forget;
    ForgetOk(temps, o, {d});
  }

  lemma PropagatedTyped(temps: seq<Temp>, o: Opt, op: Op)
    requires Ok(temps, o) && Typed(temps, op)
    ensures Typed(o.temps, Propagate(o.info, op))
  {
    hide Ok;
    Bounds(temps, o);
    var p := Propagate(o.info, op);
    forall i | Oargs(op.opc) <= i < Oargs(op.opc) + Iargs(op.opc) ensures HasType(o.temps, p.args[i], temps[op.args[i]].ty) {
      PropagatedType(temps, o, op, i);
    }
  }

  lemma BinarySane(temps: seq<Temp>, o: Opt, p: Op)
    requires Ok(temps, o) && Typed(o.temps, p) && p.opc.Binary? && p.args[0] < |temps|
    ensures Sane(temps, o, FoldBinary(o, p))
  {
    hide Ok, ReplaceWithConst, ReplaceWithMov, Drop, Simplify, EvalBinary, Trunc, Sane;
    Bounds(temps, o);
    var b, ty, d, x, y := p.opc.b, p.ty, p.args[0], p.args[1], p.args[2];
    var left, right := OperandOf(o.info, x), OperandOf(o.info, y);
    if left.Known? && right.Known? {
      ReplaceSane(temps, o, p, d, EvalBinary(b, Trunc(ty, left.val), Trunc(ty, right.val), ty), ty);
    } else {
      match Simplify(b, ty, left, right)
      case CopyLeft => MovSane(temps, o, p, d, x);
      case CopyRight => MovSane(temps, o, p, d, y);
      case Constant(k) => ReplaceSane(temps, o, p, d, k, ty);
      case NegateRight => DropSane(temps, o, p.(opc := Opcode.Unary(Neg), args := p.args[0 := d][1 := y], nargs := 2), d);
      case Keep =>
        if x == y && (b.And? || b.Or?) {
          MovSane(temps, o, p, d, x);
        } else if x == y && (b.Xor? || b.Sub?) {
          ReplaceSane(temps, o, p, d, 0, ty);
        } else {
          DropSane(temps, o, p, d);
        }
    }
  }

  lemma UnarySane(temps: seq<Temp>, o: Opt, p: Op)
    requires Ok(temps, o) && Typed(o.temps, p) && (p.opc.Unary? || p.opc.Convert?) && p.args[0] < |temps|
    ensures Sane(temps, o, if p.opc.Unary? then FoldUnary(o, p) else FoldExt(o, p))
  {
    hide Ok, ReplaceWithConst, Drop, EvalUnary, EvalExt, Sane;
    Bounds(temps, o);
    var d, si := p.args[0], Info(o.info, p.args[1]);
    if !si.isConst {
      DropSane(temps, o, p, d);
    } else {
      ReplaceSane(temps, o, p, d, if p.opc.Unary? then EvalUnary(p.opc.u, p.ty, si.val) else EvalExt(p.opc.x, si.val), p.ty);
    }
  }

  lemma FoldMovSane(temps: seq<Temp>, o: Opt, p: Op)
    requires Ok(temps, o) && Typed(o.temps, p) && p.opc == Mov && p.args[0] < |temps|
    ensures Sane(temps, o, FoldMov(o, p))
  {
    hide Trunc;
    var d, src := p.args[0], p.args[1];
    var si := o.info[src];
    var e := if si.isConst then TempInfo(true, Trunc(p.ty, si.val), NoSource) else o.info[d].(isConst := false, copy := CopyOf(src));
    RecordOk(temps, o, d, e);
  }

  lemma VisitOthers(o: Opt, op: Op)
    requires Filled(op) && !(op.opc.Mov? || op.opc.Unary? || op.opc.Convert? || op.opc.Binary? || op.opc.BrCond?)
    ensures var r := Visit(o, op); var p := if Boundary(op.opc) || Skipped(op.opc) then op else Propagate(o.info, op);
      r.op == p && (r.o == o.(info := Forget(o.info, Written(o.temps, p))) || r.o == o.(info := ResetCopies(Forget(o.info, Written(o.temps, p)))))
  {
    hide Forget, ResetCopies, Written, Propagate;
  }

  lemma TypedGrown(temps: seq<Temp>, more: seq<Temp>, op: Op)
    requires temps <= more && Typed(temps, op)
    ensures Typed(more, op)
  {
  }

  lemma VisitSane(temps: seq<Temp>, o: Opt, op: Op)
    requires Ok(temps, o) && Typed(temps, op)
    ensures Sane(temps, o, Visit(o, op))
  {
    hide Ok, Forget, ResetCopies, Written, Visit, FoldMov, FoldUnary, FoldExt, FoldBinary, EvalCond, CondOf;
    Bounds(temps, o);
    var p := Propagate(o.info, op);
    PropagatedTyped(temps, o, op);
    VisitFolds(o, op);
    match op.opc
    case Mov => FoldMovSane(temps, o, p);
    case Unary(_) => UnarySane(temps, o, p);
    case Convert(_) => UnarySane(temps, o, p);
    case Binary(_) => BinarySane(temps, o, p);
    case BrCond =>
    case _ =>
      VisitOthers(o, op);
      TypedGrown(temps, o.temps, op);
      var q := if Boundary(op.opc) || Skipped(op.opc) then op else p;
      NotConst(o.temps, q);
      ForgetOk(temps, o, Written(o.temps, q));
  }

  /** Constants added to the temporaries change nothing an operation does. */
  lemma ExecuteGrown<W>(m: Machine<W>, temps: seq<Temp>, more: seq<Temp>, op: Op, s: State, w: W)
    requires temps <= more && Typed(temps, op) && |s| <= |temps|
    ensures Execute(m, more, op, s, w) == Execute(m, temps, op, s, w)
  {
    hide Trunc, Read, Write, Compare, NativeBinary, NativeUnary, NativeExt, WriteOuts, Clobber, Inputs, Constants, Alike;
    if Outside(op.opc) {
      AlikeSelf(temps, more, op, s);
      OutsideExecutes(m, temps, more, op, op, s, w);
    } else if op.opc == Call {
      CallExecutes(m, temps, more, op, s, w);
    } else {
      forall i | Oargs(op.opc) <= i < Oargs(op.opc) + Iargs(op.opc) ensures Read(more, s, op.args[i]) == Read(temps, s, op.args[i]) {
        ReadGrown(temps, more, s, op.args[i]);
      }
      forall v ensures Oargs(op.opc) == 1 ==> Write(more, s, op.args[0], v) == Write(temps, s, op.args[0], v) {
        WriteGrown(temps, more, s, op.args[0], v);
      }
    }
  }

  // ---- Whole blocks ----

  ghost predicate WellFormed(temps: seq<Temp>, table: ConstTable, ops: seq<Op>) {
    TableOk(temps, table) && forall i | 0 <= i < |ops| :: Typed(temps, ops[i])
  }

  lemma AfterOk(temps: seq<Temp>, table: ConstTable, ops: seq<Op>, n: nat)
    requires AllFilled(ops) && WellFormed(temps, table, ops) && n <= |ops|
    ensures Ok(temps, After(temps, table, ops, n))
  {
    hide Visit, Trunc;
    if n > 0 {
      AfterOk(temps, table, ops, n - 1);
      assert Typed(temps, ops[n - 1]);
      VisitSane(temps, After(temps, table, ops, n - 1), ops[n - 1]);
    } else {
      var o := Opt(temps, table, Seed(temps));
      assert forall t | 0 <= t < |temps| :: Fits(o, t);
    }
  }

  lemma AfterGrows(temps: seq<Temp>, table: ConstTable, ops: seq<Op>, i: nat, n: nat)
    requires AllFilled(ops) && WellFormed(temps, table, ops) && i <= n <= |ops|
    ensures After(temps, table, ops, i).temps <= After(temps, table, ops, n).temps
    decreases n - i
  {
    hide Visit, Ok;
    if i < n {
      AfterOk(temps, table, ops, i);
      assert Typed(temps, ops[i]);
      VisitSane(temps, After(temps, table, ops, i), ops[i]);
      AfterGrows(temps, table, ops, i + 1, n);
    }
  }

  /** The pass meets what it relies on at every operation of the block. */
  ghost predicate SafeBlock(temps: seq<Temp>, table: ConstTable, ops: seq<Op>)
    requires AllFilled(ops) && WellFormed(temps, table, ops)
  {
    forall i | 0 <= i < |ops| :: SafeAt(temps, table, ops, i)
  }

  ghost predicate SafeAt(temps: seq<Temp>, table: ConstTable, ops: seq<Op>, i: nat)
    requires AllFilled(ops) && WellFormed(temps, table, ops) && i < |ops|
  {
    AfterOk(temps, table, ops, i);
    Safe(After(temps, table, ops, i), ops[i])
  }

  lemma LabelsStay(o: Opt, op: Op)
    requires Filled(op)
    ensures var r := Visit(o, op); (r.op.opc == SetLabel <==> op.opc == SetLabel) && (op.opc == SetLabel ==> r.op.args[0] == op.args[0])
  {
    hide EvalBinary, EvalUnary, EvalExt, EvalCond, Simplify, Trunc, Forget, ResetCopies, NewConst;
  }

  lemma TargetSame(ops: seq<Op>, more: seq<Op>, l: nat)
    requires AllFilled(ops) && AllFilled(more) && |ops| == |more|
    requires forall i | 0 <= i < |ops| ::
      (more[i].opc == SetLabel <==> ops[i].opc == SetLabel) && (ops[i].opc == SetLabel ==> more[i].args[0] == ops[i].args[0])
    ensures Target(more, l) == Target(ops, l)
  {
    if ops != [] { TargetSame(ops[1..], more[1..], l); }
  }

  lemma JumpsSame(temps: seq<Temp>, table: ConstTable, ops: seq<Op>, l: nat)
    requires AllFilled(ops)
    ensures Target(Optimized(temps, table, ops), l) == Target(ops, l)
  {
    hide Visit;
    forall i | 0 <= i < |ops| ensures var r := Optimized(temps, table, ops)[i];
      (r.opc == SetLabel <==> ops[i].opc == SetLabel) && (ops[i].opc == SetLabel ==> r.args[0] == ops[i].args[0])
    {
      LabelsStay(After(temps, table, ops, i), ops[i]);
    }
    TargetSame(ops, Optimized(temps, table, ops), l);
  }

  /** A configuration the pass's knowledge applies to. */
  ghost predicate Covered<W>(temps: seq<Temp>, table: ConstTable, ops: seq<Op>, c: Config<W>)
    requires AllFilled(ops)
  {
    c.Running? ==>
      && Canonical(temps, c.state)
      && (c.pc < |ops| ==>
            var o := After(temps, table, ops, c.pc);
            ops[c.pc].opc == SetLabel || (|o.info| == |o.temps| && Holds(o, c.state)))
  }

  /** The rewritten operation, in the finished block, does what the original does there and leaves a true record. */
  lemma OpSame<W>(m: Machine<W>, temps: seq<Temp>, table: ConstTable, ops: seq<Op>, i: nat, s: State, w: W)
    requires AllFilled(ops) && WellFormed(temps, table, ops) && i < |ops| && SafeAt(temps, table, ops, i) && Canonical(temps, s)
    requires var o := After(temps, table, ops, i); ops[i].opc == SetLabel || (|o.info| == |o.temps| && Holds(o, s))
    ensures var last, e := After(temps, table, ops, |ops|).temps, Execute(m, temps, ops[i], s, w);
      && Execute(m, last, Rewritten(temps, table, ops, i), s, w) == e && Canonical(temps, e.state)
      && (e.flow == Next ==> var q := After(temps, table, ops, i + 1); |q.info| == |q.temps| && Holds(q, e.state))
  {
    hide Visit, Execute, Holds, Canonical, Ok, Safe, WellFormed, Typed, Sound;
    var o, op := After(temps, table, ops, i), ops[i];
    OpTyped(temps, table, ops, i);
    AfterOk(temps, table, ops, i);
    VisitSound(m, temps, o, op, s, w);
    VisitSane(temps, o, op);
    ExecuteCanonical(m, temps, op, s, w);
    var r := Visit(o, op);
    SoundSays(m, temps, o, op, s, w);
    AfterGrows(temps, table, ops, i + 1, |ops|);
    StateFits(temps, o, r.o, s);
    ExecuteGrown(m, r.o.temps, After(temps, table, ops, |ops|).temps, r.op, s, w);
    Bounds(temps, r.o);
  }

  lemma OpTyped(temps: seq<Temp>, table: ConstTable, ops: seq<Op>, i: nat)
    requires WellFormed(temps, table, ops) && i < |ops|
    ensures Typed(temps, ops[i])
  {
  }

  lemma SoundSays<W>(m: Machine<W>, temps: seq<Temp>, o: Opt, op: Op, s: State, w: W)
    requires Filled(op) && Sound(m, temps, o, op, s, w)
    ensures var r, e := Visit(o, op), Execute(m, temps, op, s, w);
      Ok(temps, r.o) && Execute(m, r.o.temps, r.op, s, w) == e && (e.flow == Next ==> |r.o.info| == |r.o.temps| && Holds(r.o, e.state))
  {
    hide Visit, Execute, Holds;
  }

  /** One step of the optimized block is one step of the original. */
  lemma StepSame<W>(m: Machine<W>, temps: seq<Temp>, table: ConstTable, ops: seq<Op>, c: Config<W>)
    requires AllFilled(ops) && WellFormed(temps, table, ops) && SafeBlock(temps, table, ops) && Covered(temps, table, ops, c)
    ensures var last := After(temps, table, ops, |ops|).temps; var d := Step(m, temps, ops, c);
      Step(m, last, Optimized(temps, table, ops), c) == d && Covered(temps, table, ops, d)
  {
    hide After, Rewritten, Execute, Holds, Canonical, SafeAt, WellFormed, Target;
    if c.Running? && c.pc < |ops| {
      var i, s, w := c.pc, c.state, c.world;
      assert SafeAt(temps, table, ops, i);
      OpSame(m, temps, table, ops, i, s, w);
      var e := Execute(m, temps, ops[i], s, w);
      if e.flow.Goto? { JumpsSame(temps, table, ops, e.flow.to); }
    }
  }

  lemma StateFits(temps: seq<Temp>, o: Opt, q: Opt, s: State)
    requires Ok(temps, q) && Canonical(temps, s)
    ensures |s| <= |q.temps|
  {
  }

  lemma StartCovered<W>(temps: seq<Temp>, table: ConstTable, ops: seq<Op>, s: State, w: W)
    requires AllFilled(ops) && Canonical(temps, s)
    ensures Covered(temps, table, ops, Running(0, s, w))
  {
    hide Trunc;
    var o := Opt(temps, table, Seed(temps));
    assert Holds(o, s);
  }

  /** The optimized block runs in lockstep with the original, from every state and in every world. */
  lemma {:induction false} Lockstep<W>(m: Machine<W>, temps: seq<Temp>, table: ConstTable, ops: seq<Op>, s: State, w: W, n: nat)
    requires AllFilled(ops) && WellFormed(temps, table, ops) && SafeBlock(temps, table, ops) && Canonical(temps, s)
    ensures var last := After(temps, table, ops, |ops|).temps; var c := Run(m, temps, ops, Running(0, s, w), n);
      Run(m, last, Optimized(temps, table, ops), Running(0, s, w), n) == c && Covered(temps, table, ops, c)
  {
    hide Visit, Step, Optimized, After, SafeBlock, Canonical, WellFormed, Covered, AllFilled;
    if n == 0 {
      StartCovered(temps, table, ops, s, w);
    } else {
      Lockstep(m, temps, table, ops, s, w, n - 1);
      StepSame(m, temps, table, ops, Run(m, temps, ops, Running(0, s, w), n - 1));
    }
  }
}
