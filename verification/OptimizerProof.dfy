/**
  * The optimizer keeps the meaning of a block: every run of the rewritten operations goes
  * step for step with the run of the original ones, from every state and in every world.
  */
module OptimizerProof {
  import opened IrBits
  import opened IrEval
  import opened IrModel
  import opened IrFold
  import opened Optimizer

  // ---- Well-formed blocks ----

  predicate HasType(temps: seq<Temp>, t: nat, ty: Type) { t < |temps| && temps[t].ty == ty }

  predicate Typed(temps: seq<Temp>, op: Op) {
    && Filled(op)
    && (forall i | 0 <= i < Oargs(op.opc) :: op.args[i] < |temps| && temps[op.args[i]].kind != Const)
    && (forall i | Oargs(op.opc) <= i < Oargs(op.opc) + Iargs(op.opc) :: op.args[i] < |temps|)
    && match op.opc
       case Mov => HasType(temps, op.args[0], op.ty) && HasType(temps, op.args[1], op.ty)
       case Unary(_) => HasType(temps, op.args[0], op.ty) && HasType(temps, op.args[1], op.ty)
       case Convert(x) => op.ty == ExtTo(x) && HasType(temps, op.args[0], op.ty) && HasType(temps, op.args[1], ExtFrom(x))
       case Binary(_) =>
         HasType(temps, op.args[0], op.ty) && HasType(temps, op.args[1], op.ty) && HasType(temps, op.args[2], op.ty)
       case BrCond => HasType(temps, op.args[0], op.ty) && HasType(temps, op.args[1], op.ty)
       case _ => true
  }

  ghost predicate Canonical(temps: seq<Temp>, s: State) {
    |s| == |temps| && forall t | 0 <= t < |s| && temps[t].kind != Const :: Trunc(temps[t].ty, s[t]) == s[t]
  }

  // ---- The state of the pass ----

  ghost predicate TableOk(temps: seq<Temp>, table: ConstTable) {
    forall k | k in table :: table[k] < |temps| && temps[table[k]] == Temp(k.0, Const, k.1)
  }

  /** What is recorded of t fits its kind and type. */
  ghost predicate Fits(o: Opt, t: nat)
    requires t < |o.temps| == |o.info|
  {
    && (o.temps[t].kind == Const ==>
          o.info[t].isConst && o.info[t].copy == NoSource && Trunc(o.temps[t].ty, o.info[t].val) == Trunc(o.temps[t].ty, o.temps[t].val))
    && (o.info[t].copy.CopyOf? ==> HasType(o.temps, o.info[t].copy.src, o.temps[t].ty))
  }

  /** The pass state grew from the temporaries temps by constants only. */
  ghost predicate Ok(temps: seq<Temp>, o: Opt) {
    && temps <= o.temps && |o.info| == |o.temps| && TableOk(o.temps, o.table)
    && (forall t | |temps| <= t < |o.temps| :: o.temps[t].kind == Const)
    && (forall t | 0 <= t < |o.temps| :: Fits(o, t))
  }

  /** What is recorded of t is true in the state s. */
  ghost predicate Claim(o: Opt, s: State, t: nat)
    requires t < |o.temps| == |o.info|
  {
    && (o.info[t].isConst ==> Read(o.temps, s, t) == Trunc(o.temps[t].ty, o.info[t].val))
    && (o.info[t].copy.CopyOf? ==> Read(o.temps, s, t) == Read(o.temps, s, o.info[t].copy.src))
  }

  ghost predicate Holds(o: Opt, s: State)
    requires |o.temps| == |o.info|
  {
    forall t | 0 <= t < |o.temps| :: Claim(o, s, t)
  }

  predicate NoCopies(info: seq<TempInfo>, d: nat) {
    forall t | 0 <= t < |info| && t != d :: info[t].copy != CopyOf(d)
  }

  /**
    * What the pass relies on at an operation: no constant is recorded where paths join nor
    * for a global a helper may change, no temporary is overwritten by a recorded move or
    * constant while another is recorded as its copy, and no signed comparison of thirty-two
    * bit constants of different sign is folded.
    */
  ghost predicate Safe(o: Opt, op: Op)
    requires Filled(op) && |o.info| == |o.temps|
  {
    match op.opc
    case SetLabel => forall t | 0 <= t < |o.temps| && o.temps[t].kind != Const :: !o.info[t].isConst
    case Call => forall t | 0 <= t < |o.temps| && o.temps[t].kind == Global :: o.info[t].isConst ==> t == op.args[0]
    case BrCond =>
      var p := Propagate(o.info, op);
      var ai, bi := Info(o.info, p.args[0]), Info(o.info, p.args[1]);
      ai.isConst && bi.isConst && op.ty == I32 && IsSigned(CondOf(op.args[2])) ==> Negative32(ai.val) == Negative32(bi.val)
    case Mov => NoCopies(o.info, op.args[0]) || Propagate(o.info, op).args[1] == op.args[0]
    case Unary(_) => Info(Visit(o, op).o.info, op.args[0]).isConst ==> NoCopies(o.info, op.args[0])
    case Convert(_) => Info(Visit(o, op).o.info, op.args[0]).isConst ==> NoCopies(o.info, op.args[0])
    case Binary(_) => Info(Visit(o, op).o.info, op.args[0]).isConst ==> NoCopies(o.info, op.args[0])
    case _ => true
  }

  // ---- Reading and writing ----

  lemma ReadWritten(temps: seq<Temp>, s: State, d: nat, v: bv64, t: nat)
    requires d < |s| && d < |temps| && temps[d].kind != Const
    ensures Read(temps, Write(temps, s, d, v), t) == if t == d then Trunc(temps[d].ty, v) else Read(temps, s, t)
  {
  }

  lemma WriteCanonical(temps: seq<Temp>, s: State, d: nat, v: bv64)
    requires Canonical(temps, s)
    ensures Canonical(temps, Write(temps, s, d, v))
  {
    hide Trunc;
    if d < |s| { TruncTwice(temps[d].ty, v); }
  }

  /** Growing by constants changes no read. */
  lemma ReadGrown(temps: seq<Temp>, more: seq<Temp>, s: State, t: nat)
    requires temps <= more && t < |temps|
    ensures Read(more, s, t) == Read(temps, s, t)
  {
  }

  lemma WriteGrown(temps: seq<Temp>, more: seq<Temp>, s: State, t: nat, v: bv64)
    requires temps <= more && |s| <= |temps|
    ensures Write(more, s, t, v) == Write(temps, s, t, v)
  {
  }

  lemma ReadCanonical(temps: seq<Temp>, s: State, o: Opt, t: nat)
    requires Canonical(temps, s) && Ok(temps, o) && t < |o.temps|
    ensures Trunc(o.temps[t].ty, Read(o.temps, s, t)) == Read(o.temps, s, t)
  {
    hide Trunc;
    TruncTwice(o.temps[t].ty, o.temps[t].val);
  }

  // ---- Forgetting, recording ----

  ghost predicate SameElsewhere(temps: seq<Temp>, s: State, r: State, written: set<nat>) {
    forall t | 0 <= t < |temps| && t !in written :: Read(temps, r, t) == Read(temps, s, t)
  }

  lemma ForgetHolds(temps: seq<Temp>, o: Opt, s: State, r: State, written: set<nat>)
    requires Ok(temps, o) && Holds(o, s) && SameElsewhere(o.temps, s, r, written)
    requires forall t | t in written && t < |o.temps| :: o.temps[t].kind != Const
    ensures Ok(temps, o.(info := Forget(o.info, written))) && Holds(o.(info := Forget(o.info, written)), r)
  {
    hide Trunc, Read;
    var q := o.(info := Forget(o.info, written));
    forall t | 0 <= t < |q.temps| ensures Fits(q, t) && Claim(q, r, t) {
      assert Fits(o, t) && Claim(o, s, t);
    }
  }

  lemma RecordHolds(temps: seq<Temp>, o: Opt, s: State, r: State, d: nat, e: TempInfo)
    requires Ok(temps, o) && Holds(o, s) && d < |o.temps| && o.temps[d].kind != Const
    requires SameElsewhere(o.temps, s, r, {d}) && (NoCopies(o.info, d) || Read(o.temps, r, d) == Read(o.temps, s, d))
    requires var q := o.(info := o.info[d := e]); Fits(q, d) && Claim(q, r, d)
    ensures var q := o.(info := o.info[d := e]); Ok(temps, q) && Holds(q, r)
  {
    hide Trunc, Read;
    var q := o.(info := o.info[d := e]);
    forall t | 0 <= t < |q.temps| ensures Fits(q, t) && Claim(q, r, t) {
      assert Fits(o, t) && Claim(o, s, t);
    }
  }

  /** The pass state once the constant k is available. */
  function WithConst(o: Opt, ty: Type, k: bv64): (Opt, nat) {
    var (o1, c) := NewConst(o, ty, k);
    var info := Ensure(o1.info, c);
    (o1.(info := info[c := info[c].(isConst := true, val := k)]), c)
  }

  lemma WithConstOk(temps: seq<Temp>, o: Opt, ty: Type, k: bv64)
    requires Ok(temps, o)
    ensures var (q, c) := WithConst(o, ty, k);
      && Ok(temps, q) && o.temps <= q.temps && c < |q.temps| && q.temps[c] == Temp(ty, Const, k)
      && (forall t | 0 <= t < |o.info| && t != c :: q.info[t] == o.info[t]) && (forall t | |o.info| <= t < |q.info| :: q.info[t].copy == NoSource)
      && q.info[c] == TempInfo(true, k, NoSource)
  {
    hide Trunc;
    if (ty, k) in o.table { OldConst(temps, o, ty, k); } else { AddedConst(temps, o, ty, k); }
  }

  lemma OldConst(temps: seq<Temp>, o: Opt, ty: Type, k: bv64)
    requires Ok(temps, o) && (ty, k) in o.table
    ensures var c := o.table[(ty, k)]; c < |o.temps| && o.temps[c] == Temp(ty, Const, k) && o.info[c].copy == NoSource
    ensures var c := o.table[(ty, k)]; var q := o.(info := o.info[c := TempInfo(true, k, NoSource)]); WithConst(o, ty, k) == (q, c) && Ok(temps, q)
  {
    hide Trunc;
    var c := o.table[(ty, k)];
    assert Fits(o, c);
    var q := o.(info := o.info[c := TempInfo(true, k, NoSource)]);
    forall t | 0 <= t < |q.temps| ensures Fits(q, t) { assert Fits(o, t); }
  }

  lemma AddedConst(temps: seq<Temp>, o: Opt, ty: Type, k: bv64)
    requires Ok(temps, o) && (ty, k) !in o.table
    ensures var q := Opt(o.temps + [Temp(ty, Const, k)], o.table[(ty, k) := |o.temps|], o.info + [TempInfo(true, k, NoSource)]);
      WithConst(o, ty, k) == (q, |o.temps|) && Ok(temps, q)
  {
    hide Trunc;
    var q := Opt(o.temps + [Temp(ty, Const, k)], o.table[(ty, k) := |o.temps|], o.info + [TempInfo(true, k, NoSource)]);
    assert WithConst(o, ty, k).0.info == q.info;
    forall t | 0 <= t < |q.temps| ensures Fits(q, t) {
      if t < |o.temps| { assert Fits(o, t); }
    }
  }

  lemma WithConstHolds(temps: seq<Temp>, o: Opt, s: State, ty: Type, k: bv64)
    requires Ok(temps, o) && Holds(o, s)
    ensures var (q, c) := WithConst(o, ty, k); |q.info| == |q.temps| && Holds(q, s)
  {
    hide Trunc, Read, NewConst, WithConst;
    WithConstOk(temps, o, ty, k);
    var (q, c) := WithConst(o, ty, k);
    ReadConst(q.temps, s, c);
    forall t | 0 <= t < |q.temps| ensures Claim(q, s, t) {
      if t < |o.temps| && t != c {
        assert Claim(o, s, t) && Fits(o, t);
        ReadGrown(o.temps, q.temps, s, t);
        if o.info[t].copy.CopyOf? { ReadGrown(o.temps, q.temps, s, o.info[t].copy.src); }
      } else if t != c {
        assert Fits(q, t);
        ReadConst(q.temps, s, t);
      }
    }
  }

  lemma ReadConst(temps: seq<Temp>, s: State, t: nat)
    requires t < |temps| && temps[t].kind == Const
    ensures Read(temps, s, t) == Trunc(temps[t].ty, temps[t].val)
  {
  }

  lemma ReplaceShape(o: Opt, op: Op, dst: nat, v: bv64, ty: Type)
    requires Filled(op) && |o.info| == |o.temps| && dst < |o.temps| && TableOk(o.temps, o.table)
    ensures var (q, c) := WithConst(o, ty, Trunc(ty, v)); var r := ReplaceWithConst(o, op, dst, v, ty);
      && dst < |q.info| && r.o == q.(info := q.info[dst := TempInfo(true, Trunc(ty, v), NoSource)])
      && r.op == op.(opc := Mov, args := op.args[0 := dst][1 := c], nargs := 2)
  {
    hide Trunc;
  }

  /** Replacing an operation by a move of the constant it computes. */
  lemma ReplaceSound(temps: seq<Temp>, o: Opt, op: Op, dst: nat, v: bv64, ty: Type, s: State)
    requires Filled(op) && Ok(temps, o) && Holds(o, s) && |s| == |temps|
    requires HasType(temps, dst, ty) && temps[dst].kind != Const && NoCopies(o.info, dst)
    ensures var r := ReplaceWithConst(o, op, dst, v, ty);
      && Ok(temps, r.o) && r.op.opc == Mov && r.op.args[0] == dst
      && Write(r.o.temps, s, dst, Read(r.o.temps, s, r.op.args[1])) == Write(temps, s, dst, v)
      && Holds(r.o, Write(temps, s, dst, v))
  {
    hide Trunc, Read, NewConst, WithConst, ReplaceWithConst;
    var k := Trunc(ty, v);
    ReplaceShape(o, op, dst, v, ty);
    WithConstOk(temps, o, ty, k);
    WithConstHolds(temps, o, s, ty, k);
    var (q, c) := WithConst(o, ty, k);
    var r := Write(temps, s, dst, v);
    WriteGrown(temps, q.temps, s, dst, v);
    WriteGrown(temps, q.temps, s, dst, Read(q.temps, s, c));
    ReadConst(q.temps, s, c);
    TruncTwice(ty, v);
    TruncTwice(ty, k);
    forall t | 0 <= t < |q.temps| ensures Read(q.temps, r, t) == if t == dst then k else Read(q.temps, s, t) {
      ReadWritten(q.temps, s, dst, v, t);
    }
    RecordHolds(temps, q, s, r, dst, TempInfo(true, k, NoSource));
  }

  // ---- One operation ----

  /** The rewritten operation does what the original did, and what is recorded holds afterwards. */
  ghost predicate Sound<W>(m: Machine<W>, temps: seq<Temp>, o: Opt, op: Op, s: State, w: W)
    requires Filled(op)
  {
    var r, e := Visit(o, op), Execute(m, temps, op, s, w);
    && Ok(temps, r.o) && Execute(m, r.o.temps, r.op, s, w) == e
    && (e.flow == Next ==> Holds(r.o, e.state))
  }

  ghost predicate Ready(temps: seq<Temp>, o: Opt, op: Op, s: State) {
    Ok(temps, o) && Typed(temps, op) && Canonical(temps, s) && Holds(o, s) && Safe(o, op)
  }

  lemma PropagatedArg(temps: seq<Temp>, o: Opt, op: Op, s: State, i: nat)
    requires Ok(temps, o) && Typed(temps, op) && Holds(o, s)
    requires Oargs(op.opc) <= i < Oargs(op.opc) + Iargs(op.opc)
    ensures var t := Propagate(o.info, op).args[i];
      HasType(o.temps, t, temps[op.args[i]].ty) && Read(o.temps, s, t) == Read(temps, s, op.args[i])
  {
    hide Trunc, Read;
    var t := op.args[i];
    assert Fits(o, t) && Claim(o, s, t);
    ReadGrown(temps, o.temps, s, t);
  }

  lemma PropagatedType(temps: seq<Temp>, o: Opt, op: Op, i: nat)
    requires Ok(temps, o) && Typed(temps, op) && Oargs(op.opc) <= i < Oargs(op.opc) + Iargs(op.opc)
    ensures HasType(o.temps, Propagate(o.info, op).args[i], temps[op.args[i]].ty)
  {
    assert Fits(o, op.args[i]);
  }

  /** What a write of d to s leaves, seen through the grown temporaries. */
  lemma Wrote(temps: seq<Temp>, o: Opt, s: State, d: nat, v: bv64)
    requires Ok(temps, o) && |s| == |temps| && d < |temps| && temps[d].kind != Const
    ensures var r := Write(temps, s, d, v);
      && Write(o.temps, s, d, v) == r && Read(o.temps, r, d) == Trunc(temps[d].ty, v)
      && SameElsewhere(o.temps, s, r, {d})
  {
    hide Trunc, Read;
    WriteGrown(temps, o.temps, s, d, v);
    forall t | 0 <= t < |o.temps| ensures Read(o.temps, Write(temps, s, d, v), t) == if t == d then Trunc(temps[d].ty, v) else Read(o.temps, s, t) {
      ReadWritten(o.temps, s, d, v, t);
    }
  }

  lemma Sizes(temps: seq<Temp>, o: Opt, s: State)
    requires Ok(temps, o) && Canonical(temps, s)
    ensures |s| == |temps| <= |o.temps| == |o.info|
  {
  }

  lemma VisitFolds(o: Opt, op: Op)
    requires Filled(op)
    ensures var p := Propagate(o.info, op);
      match op.opc
      case Mov => Visit(o, op) == FoldMov(o, p)
      case Unary(_) => Visit(o, op) == FoldUnary(o, p)
      case Convert(_) => Visit(o, op) == FoldExt(o, p)
      case Binary(_) => Visit(o, op) == FoldBinary(o, p)
      case BrCond => Visit(o, op) == FoldBrCond(o, p)
      case _ => true
  {
    hide FoldMov, FoldUnary, FoldExt, FoldBinary, FoldBrCond, Propagate;
  }

  /** The effect of an operation that computes one value. */
  lemma Computes<W>(m: Machine<W>, temps: seq<Temp>, op: Op, s: State, w: W)
    requires Filled(op)
    ensures op.opc == Mov ==> Execute(m, temps, op, s, w) == Effect(Write(temps, s, op.args[0], Read(temps, s, op.args[1])), w, Next)
    ensures op.opc.Unary? ==>
      Execute(m, temps, op, s, w) == Effect(Write(temps, s, op.args[0], NativeUnary(op.opc.u, op.ty, Read(temps, s, op.args[1]))), w, Next)
    ensures op.opc.Convert? ==>
      Execute(m, temps, op, s, w) == Effect(Write(temps, s, op.args[0], NativeExt(op.opc.x, Read(temps, s, op.args[1]))), w, Next)
    ensures op.opc.Binary? ==>
      Execute(m, temps, op, s, w) ==
      Effect(Write(temps, s, op.args[0], NativeBinary(op.opc.b, op.ty, Read(temps, s, op.args[1]), Read(temps, s, op.args[2]))), w, Next)
  {
    hide Read, Write, NativeUnary, NativeExt, NativeBinary, Compare;
  }

  lemma MovSound<W>(m: Machine<W>, temps: seq<Temp>, o: Opt, op: Op, s: State, w: W)
    requires Ready(temps, o, op, s) && op.opc == Mov
    ensures Sound(m, temps, o, op, s, w)
  {
    hide Trunc, Read, Write, Holds, Ok, Canonical, NoCopies, Visit, Execute;
    Sizes(temps, o, s);
    var p, d := Propagate(o.info, op), op.args[0];
    var src, v := p.args[1], Read(temps, s, op.args[1]);
    PropagatedArg(temps, o, op, s, 1);
    Wrote(temps, o, s, d, v);
    MovRecorded(temps, o, s, d, src);
    VisitFolds(o, op);
    Computes(m, temps, op, s, w);
    Computes(m, o.temps, p, s, w);
  }

  lemma MovRecorded(temps: seq<Temp>, o: Opt, s: State, d: nat, src: nat)
    requires Ok(temps, o) && Canonical(temps, s) && Holds(o, s) && d < |temps| && temps[d].kind != Const
    requires HasType(o.temps, src, temps[d].ty) && (NoCopies(o.info, d) || src == d)
    ensures var r := Write(temps, s, d, Read(o.temps, s, src));
      var si := o.info[src];
      var q := o.(info := if si.isConst then SetConst(o.info, d, Trunc(temps[d].ty, si.val)) else SetCopy(o.info, d, src));
      Ok(temps, q) && Holds(q, r)
  {
    hide Trunc, Read, Write;
    var v, si, ty := Read(o.temps, s, src), o.info[src], temps[d].ty;
    var r := Write(temps, s, d, v);
    Wrote(temps, o, s, d, v);
    ReadCanonical(temps, s, o, src);
    assert Claim(o, s, src);
    TruncTwice(ty, si.val);
    var e := if si.isConst then TempInfo(true, Trunc(ty, si.val), NoSource) else o.info[d].(isConst := false, copy := CopyOf(src));
    RecordHolds(temps, o, s, r, d, e);
  }

  lemma DropHolds(temps: seq<Temp>, o: Opt, s: State, d: nat, v: bv64)
    requires Ok(temps, o) && Holds(o, s) && |s| == |temps| && d < |temps| && temps[d].kind != Const
    ensures var q := o.(info := Forget(Ensure(o.info, d), {d})); Ok(temps, q) && Holds(q, Write(temps, s, d, v))
  {
    hide Trunc, Read, Write;
    Wrote(temps, o, s, d, v);
    ForgetHolds(temps, o, s, Write(temps, s, d, v), {d});
  }

  lemma UnarySound<W>(m: Machine<W>, temps: seq<Temp>, o: Opt, op: Op, s: State, w: W)
    requires Ready(temps, o, op, s) && op.opc.Unary?
    ensures Sound(m, temps, o, op, s, w)
  {
    hide Trunc, Read, Write, Holds, Ok, Canonical, NoCopies, Visit, Execute, EvalUnary, NativeUnary, ReplaceWithConst, Forget;
    Sizes(temps, o, s);
    var p, d := Propagate(o.info, op), op.args[0];
    var src, si := p.args[1], Info(o.info, p.args[1]);
    var v := NativeUnary(op.opc.u, op.ty, Read(temps, s, op.args[1]));
    PropagatedArg(temps, o, op, s, 1);
    VisitFolds(o, op);
    Computes(m, temps, op, s, w);
    if si.isConst {
      KnownRead(temps, o, s, src);
      UnaryNative(op.opc.u, op.ty, si.val);
      Folded(m, temps, o, p, d, v, op.ty, s, w);
    } else {
      DropHolds(temps, o, s, d, v);
      Wrote(temps, o, s, d, v);
      Computes(m, o.temps, p, s, w);
    }
  }

  lemma KnownRead(temps: seq<Temp>, o: Opt, s: State, t: nat)
    requires Ok(temps, o) && Holds(o, s) && t < |o.temps| && o.info[t].isConst
    ensures Read(o.temps, s, t) == Trunc(o.temps[t].ty, o.info[t].val)
  {
    assert Claim(o, s, t);
  }

  /** A fold that records the constant it computes. */
  lemma Folded<W>(m: Machine<W>, temps: seq<Temp>, o: Opt, p: Op, d: nat, v: bv64, ty: Type, s: State, w: W)
    requires Filled(p) && Ok(temps, o) && Holds(o, s) && |s| == |temps| && HasType(temps, d, ty) && temps[d].kind != Const
    requires Info(ReplaceWithConst(o, p, d, v, ty).o.info, d).isConst ==> NoCopies(o.info, d)
    ensures var r := ReplaceWithConst(o, p, d, v, ty);
      && Ok(temps, r.o) && Execute(m, r.o.temps, r.op, s, w) == Effect(Write(temps, s, d, v), w, Next)
      && Holds(r.o, Write(temps, s, d, v))
  {
    hide Trunc, Read, Write, Holds, NoCopies, Execute, ReplaceWithConst, WithConst;
    ReplaceShape(o, p, d, v, ty);
    WithConstOk(temps, o, ty, Trunc(ty, v));
    ReplaceSound(temps, o, p, d, v, ty, s);
    var r := ReplaceWithConst(o, p, d, v, ty);
    Computes(m, r.o.temps, r.op, s, w);
  }

  lemma ConvertSound<W>(m: Machine<W>, temps: seq<Temp>, o: Opt, op: Op, s: State, w: W)
    requires Ready(temps, o, op, s) && op.opc.Convert?
    ensures Sound(m, temps, o, op, s, w)
  {
    hide Trunc, Read, Write, Holds, Ok, Canonical, NoCopies, Visit, Execute, EvalExt, NativeExt, ReplaceWithConst, Forget;
    Sizes(temps, o, s);
    var p, d := Propagate(o.info, op), op.args[0];
    var src, si := p.args[1], Info(o.info, p.args[1]);
    var v := NativeExt(op.opc.x, Read(temps, s, op.args[1]));
    PropagatedArg(temps, o, op, s, 1);
    VisitFolds(o, op);
    Computes(m, temps, op, s, w);
    if si.isConst {
      KnownRead(temps, o, s, src);
      ExtNative(op.opc.x, si.val);
      Folded(m, temps, o, p, d, v, op.ty, s, w);
    } else {
      DropHolds(temps, o, s, d, v);
      Wrote(temps, o, s, d, v);
      Computes(m, o.temps, p, s, w);
    }
  }

  lemma WriteAlike(temps: seq<Temp>, s: State, d: nat, v: bv64, u: bv64)
    requires d < |temps| ==> Trunc(temps[d].ty, v) == Trunc(temps[d].ty, u)
    ensures Write(temps, s, d, v) == Write(temps, s, d, u)
  {
  }

  /** A simplification to a move of one operand. */
  lemma Moved<W>(m: Machine<W>, temps: seq<Temp>, o: Opt, p: Op, d: nat, src: nat, v: bv64, s: State, w: W)
    requires Filled(p) && Ok(temps, o) && Holds(o, s) && |s| == |temps| && d < |temps| && temps[d].kind != Const
    requires v == Trunc(temps[d].ty, Read(o.temps, s, src))
    ensures var r := ReplaceWithMov(o, p, d, src);
      && Ok(temps, r.o) && Execute(m, r.o.temps, r.op, s, w) == Effect(Write(temps, s, d, v), w, Next)
      && Holds(r.o, Write(temps, s, d, v))
  {
    hide Trunc, Read, Write, Holds, Ok, Execute, Forget;
    var r := ReplaceWithMov(o, p, d, src);
    Computes(m, r.o.temps, r.op, s, w);
    DropHolds(temps, o, s, d, v);
    Wrote(temps, o, s, d, Read(o.temps, s, src));
    TruncTwice(temps[d].ty, Read(o.temps, s, src));
    WriteAlike(temps, s, d, v, Read(o.temps, s, src));
  }

  lemma Dropped<W>(m: Machine<W>, temps: seq<Temp>, o: Opt, p: Op, d: nat, v: bv64, s: State, w: W)
    requires Filled(p) && Ok(temps, o) && Holds(o, s) && |s| == |temps| && d < |temps| && temps[d].kind != Const
    requires Execute(m, o.temps, p, s, w) == Effect(Write(o.temps, s, d, v), w, Next)
    ensures var r := Drop(o, p, d);
      && Ok(temps, r.o) && Execute(m, r.o.temps, r.op, s, w) == Effect(Write(temps, s, d, v), w, Next)
      && Holds(r.o, Write(temps, s, d, v))
  {
    hide Trunc, Read, Write, Holds, Ok, Execute, Forget;
    DropHolds(temps, o, s, d, v);
    Wrote(temps, o, s, d, v);
  }

  lemma Negated<W>(m: Machine<W>, temps: seq<Temp>, p: Op, d: nat, y: nat, s: State, w: W)
    requires Filled(p)
    ensures var q := p.(opc := Opcode.Unary(Neg), args := p.args[0 := d][1 := y], nargs := 2);
      Execute(m, temps, q, s, w) == Effect(Write(temps, s, d, NativeUnary(Neg, p.ty, Read(temps, s, y))), w, Next)
  {
    hide Execute, Read, Write, NativeUnary;
    Computes(m, temps, p.(opc := Opcode.Unary(Neg), args := p.args[0 := d][1 := y], nargs := 2), s, w);
  }

  /** The rewrite r computes v into d and leaves a true record. */
  ghost predicate Replaced<W>(m: Machine<W>, temps: seq<Temp>, r: Rewrite, d: nat, v: bv64, s: State, w: W)
    requires Filled(r.op)
  {
    && Ok(temps, r.o) && Execute(m, r.o.temps, r.op, s, w) == Effect(Write(temps, s, d, v), w, Next)
    && Holds(r.o, Write(temps, s, d, v))
  }

  /** A binary operation between temporaries of its type, ready to be folded. */
  ghost predicate BinaryReady(temps: seq<Temp>, o: Opt, p: Op, s: State) {
    && Filled(p) && p.opc.Binary? && Ok(temps, o) && Holds(o, s) && |s| == |temps|
    && HasType(temps, p.args[0], p.ty) && temps[p.args[0]].kind != Const && HasType(o.temps, p.args[1], p.ty) && HasType(o.temps, p.args[2], p.ty)
  }

  ghost function BinaryValue(o: Opt, p: Op, s: State): bv64
    requires Filled(p) && p.opc.Binary?
  {
    NativeBinary(p.opc.b, p.ty, Read(o.temps, s, p.args[1]), Read(o.temps, s, p.args[2]))
  }

  /** No simplification applies: the operation stays, or meets equal operands. */
  lemma BinaryKept<W>(m: Machine<W>, temps: seq<Temp>, o: Opt, p: Op, s: State, w: W)
    requires BinaryReady(temps, o, p, s)
    requires !(OperandOf(o.info, p.args[1]).Known? && OperandOf(o.info, p.args[2]).Known?)
    requires Simplify(p.opc.b, p.ty, OperandOf(o.info, p.args[1]), OperandOf(o.info, p.args[2])) == Keep
    requires Info(FoldBinary(o, p).o.info, p.args[0]).isConst ==> NoCopies(o.info, p.args[0])
    ensures Replaced(m, temps, FoldBinary(o, p), p.args[0], BinaryValue(o, p, s), s, w)
  {
    hide Trunc, Read, Write, Holds, Ok, NoCopies, Execute, EvalBinary, NativeBinary, ReplaceWithConst, ReplaceWithMov, Drop, Simplify, OperandOf;
    var b, ty, d, x, y, v := p.opc.b, p.ty, p.args[0], p.args[1], p.args[2], BinaryValue(o, p, s);
    Bounds(temps, o);
    if x == y && (b.And? || b.Or?) {
      SameCorrect(b, ty, Read(o.temps, s, x));
      Moved(m, temps, o, p, d, x, v, s, w);
    } else if x == y && (b.Xor? || b.Sub?) {
      SameCorrect(b, ty, Read(o.temps, s, x));
      Folded(m, temps, o, p, d, 0, ty, s, w);
    } else {
      Computes(m, o.temps, p, s, w);
      Dropped(m, temps, o, p, d, v, s, w);
    }
  }

  lemma BinarySimplified<W>(m: Machine<W>, temps: seq<Temp>, o: Opt, p: Op, s: State, w: W)
    requires BinaryReady(temps, o, p, s)
    requires !(OperandOf(o.info, p.args[1]).Known? && OperandOf(o.info, p.args[2]).Known?)
    requires Simplify(p.opc.b, p.ty, OperandOf(o.info, p.args[1]), OperandOf(o.info, p.args[2])) != Keep
    requires Info(FoldBinary(o, p).o.info, p.args[0]).isConst ==> NoCopies(o.info, p.args[0])
    ensures Replaced(m, temps, FoldBinary(o, p), p.args[0], BinaryValue(o, p, s), s, w)
  {
    hide Trunc, Read, Write, Holds, Ok, NoCopies, Execute, EvalBinary, NativeBinary, NativeUnary, ReplaceWithConst, ReplaceWithMov, Drop, Simplify;
    var b, ty, d, x, y, v := p.opc.b, p.ty, p.args[0], p.args[1], p.args[2], BinaryValue(o, p, s);
    var left, right := OperandOf(o.info, x), OperandOf(o.info, y);
    Bounds(temps, o);
    if left.Known? { KnownRead(temps, o, s, x); }
    if right.Known? { KnownRead(temps, o, s, y); }
    SimplifyCorrect(b, ty, Read(o.temps, s, x), Read(o.temps, s, y), left, right);
    match Simplify(b, ty, left, right)
    case CopyLeft => Moved(m, temps, o, p, d, x, v, s, w);
    case CopyRight => Moved(m, temps, o, p, d, y, v, s, w);
    case Constant(k) => Folded(m, temps, o, p, d, k, ty, s, w);
    case NegateRight =>
      Negated(m, o.temps, p, d, y, s, w);
      Dropped(m, temps, o, p.(opc := Opcode.Unary(Neg), args := p.args[0 := d][1 := y], nargs := 2), d, v, s, w);
  }

  lemma BinaryFolded<W>(m: Machine<W>, temps: seq<Temp>, o: Opt, p: Op, s: State, w: W)
    requires BinaryReady(temps, o, p, s)
    requires Info(FoldBinary(o, p).o.info, p.args[0]).isConst ==> NoCopies(o.info, p.args[0])
    ensures Replaced(m, temps, FoldBinary(o, p), p.args[0], BinaryValue(o, p, s), s, w)
  {
    hide Trunc, Read, Write, Holds, Ok, NoCopies, Execute, EvalBinary, NativeBinary, ReplaceWithConst, ReplaceWithMov, Drop, Simplify;
    var b, ty, d, x, y := p.opc.b, p.ty, p.args[0], p.args[1], p.args[2];
    var left, right := OperandOf(o.info, x), OperandOf(o.info, y);
    Bounds(temps, o);
    if left.Known? && right.Known? {
      KnownRead(temps, o, s, x);
      KnownRead(temps, o, s, y);
      BinaryNative(b, ty, Read(o.temps, s, x), Read(o.temps, s, y));
      Folded(m, temps, o, p, d, BinaryValue(o, p, s), ty, s, w);
    } else if Simplify(b, ty, left, right) == Keep {
      BinaryKept(m, temps, o, p, s, w);
    } else {
      BinarySimplified(m, temps, o, p, s, w);
    }
  }

  lemma Bounds(temps: seq<Temp>, o: Opt)
    requires Ok(temps, o)
    ensures temps <= o.temps && |o.info| == |o.temps|
  {
  }

  lemma BinarySound<W>(m: Machine<W>, temps: seq<Temp>, o: Opt, op: Op, s: State, w: W)
    requires Ready(temps, o, op, s) && op.opc.Binary?
    ensures Sound(m, temps, o, op, s, w)
  {
    hide Trunc, Read, Write, Holds, Ok, Canonical, NoCopies, Visit, Execute, NativeBinary, FoldBinary;
    Sizes(temps, o, s);
    var p, d := Propagate(o.info, op), op.args[0];
    var v := NativeBinary(op.opc.b, op.ty, Read(temps, s, op.args[1]), Read(temps, s, op.args[2]));
    PropagatedArg(temps, o, op, s, 1);
    PropagatedArg(temps, o, op, s, 2);
    VisitFolds(o, op);
    Computes(m, temps, op, s, w);
    BinaryFolded(m, temps, o, p, s, w);
  }

  lemma BranchExecutes<W>(m: Machine<W>, temps: seq<Temp>, op: Op, s: State, w: W)
    requires Filled(op)
    ensures op.opc == BrCond ==>
      var taken := Compare(CondOf(op.args[2]), op.ty, Read(temps, s, op.args[0]), Read(temps, s, op.args[1]));
      Execute(m, temps, op, s, w) == Effect(s, w, if taken then Goto(op.args[3]) else Next)
    ensures op.opc == Br ==> Execute(m, temps, op, s, w) == Effect(s, w, Goto(op.args[0]))
    ensures op.opc == Nop ==> Execute(m, temps, op, s, w) == Effect(s, w, Next)
  {
    hide Read, Write, NativeUnary, NativeExt, NativeBinary, Compare, CondOf;
  }

  lemma BrCondSound<W>(m: Machine<W>, temps: seq<Temp>, o: Opt, op: Op, s: State, w: W)
    requires Ready(temps, o, op, s) && op.opc == BrCond
    ensures Sound(m, temps, o, op, s, w)
  {
    hide Trunc, Read, Write, Holds, Ok, Canonical, NoCopies, Visit, Execute, Compare, EvalCond, CondOf, Negative32;
    Sizes(temps, o, s);
    var p, c := Propagate(o.info, op), CondOf(op.args[2]);
    var x, y := p.args[0], p.args[1];
    PropagatedArg(temps, o, op, s, 0);
    PropagatedArg(temps, o, op, s, 1);
    VisitFolds(o, op);
    if Info(o.info, x).isConst && Info(o.info, y).isConst {
      KnownRead(temps, o, s, x);
      KnownRead(temps, o, s, y);
      CompareOfTrunc(c, op.ty, o.info[x].val, o.info[y].val);
      CondExact(c, op.ty, o.info[x].val, o.info[y].val);
    }
    BranchExecutes(m, temps, op, s, w);
    BranchExecutes(m, o.temps, Visit(o, op).op, s, w);
  }

  // ---- Operations outside the pass ----

  lemma WriteOutsElsewhere(temps: seq<Temp>, more: seq<Temp>, s: State, args: seq<nat>, outs: seq<bv64>)
    requires temps <= more && |s| <= |temps|
    requires forall i | 0 <= i < |args| :: args[i] < |temps| && temps[args[i]].kind != Const
    ensures WriteOuts(more, s, args, outs) == WriteOuts(temps, s, args, outs)
    ensures SameElsewhere(more, s, WriteOuts(temps, s, args, outs), set i | 0 <= i < |args| :: args[i])
  {
    hide Trunc;
    if args != [] {
      var last := |args| - 1;
      WriteOutsElsewhere(temps, more, s, args[..last], outs);
    }
  }

  lemma WriteOutsCanonical(temps: seq<Temp>, s: State, args: seq<nat>, outs: seq<bv64>)
    requires Canonical(temps, s)
    ensures Canonical(temps, WriteOuts(temps, s, args, outs))
  {
    hide Trunc, Canonical, Write;
    if args != [] {
      var last := |args| - 1;
      WriteOutsCanonical(temps, s, args[..last], outs);
      WriteCanonical(temps, WriteOuts(temps, s, args[..last], outs), args[last], if last < |outs| then outs[last] else 0);
    }
  }

  predicate Outside(c: Opcode) { c == GotoTb || c == Discard || c.Other? }

  /** p differs from op in its inputs only, and they read the same. */
  ghost predicate Alike(temps: seq<Temp>, more: seq<Temp>, op: Op, p: Op, s: State)
    requires Filled(op)
  {
    && Filled(p) && p.opc == op.opc && p.ty == op.ty && |p.args| == |op.args|
    && (forall i | 0 <= i < |op.args| && !(Oargs(op.opc) <= i < Oargs(op.opc) + Iargs(op.opc)) :: p.args[i] == op.args[i])
    && (forall i | Oargs(op.opc) <= i < Oargs(op.opc) + Iargs(op.opc) :: Read(more, s, p.args[i]) == Read(temps, s, op.args[i]))
  }

  lemma SameInputs(temps: seq<Temp>, more: seq<Temp>, op: Op, p: Op, s: State)
    requires Filled(op) && Alike(temps, more, op, p, s)
    ensures Inputs(more, s, p) == Inputs(temps, s, op) && Constants(p) == Constants(op)
    ensures forall k | 0 <= k <= Oargs(op.opc) :: p.args[..k] == op.args[..k]
  {
    hide Read;
    var k := Oargs(op.opc) + Iargs(op.opc);
    forall i | 0 <= i < Iargs(op.opc) ensures Inputs(more, s, p)[i] == Inputs(temps, s, op)[i] {
      assert Read(more, s, p.args[Oargs(op.opc) + i]) == Read(temps, s, op.args[Oargs(op.opc) + i]);
    }
    forall i | 0 <= i < Cargs(op.opc) ensures Constants(p)[i] == Constants(op)[i] {
      assert p.args[k + i] == op.args[k + i];
    }
  }

  lemma WrittenIs(temps: seq<Temp>, more: seq<Temp>, op: Op, p: Op)
    requires temps <= more && Typed(temps, op) && Filled(p) && p.opc == op.opc
    requires forall i | 0 <= i < Oargs(op.opc) :: p.args[i] == op.args[i]
    ensures Written(more, p) == set i | 0 <= i < Oargs(op.opc) :: op.args[i]
  {
  }

  lemma OutsideExecutes<W>(m: Machine<W>, temps: seq<Temp>, more: seq<Temp>, op: Op, p: Op, s: State, w: W)
    requires temps <= more && Typed(temps, op) && |s| <= |temps| && Outside(op.opc) && Alike(temps, more, op, p, s)
    ensures var e := Execute(m, temps, op, s, w);
      Execute(m, more, p, s, w) == e && SameElsewhere(more, s, e.state, Written(more, p))
  {
    hide Trunc, Read, Write, WriteOuts, SameElsewhere, Inputs, Constants;
    SameInputs(temps, more, op, p, s);
    var r := m(op.opc, op.ty, Constants(op), Inputs(temps, s, op), s, w);
    var outs := op.args[..Oargs(op.opc)];
    WriteOutsElsewhere(temps, more, s, outs, r.outs);
    WrittenIs(temps, more, op, p);
    assert (set i | 0 <= i < |outs| :: outs[i]) == set i | 0 <= i < Oargs(op.opc) :: op.args[i];
  }

  lemma AlikeSelf(temps: seq<Temp>, more: seq<Temp>, op: Op, s: State)
    requires temps <= more && Typed(temps, op)
    ensures Alike(temps, more, op, op, s)
  {
    hide Read;
    forall i | Oargs(op.opc) <= i < Oargs(op.opc) + Iargs(op.opc) ensures Read(more, s, op.args[i]) == Read(temps, s, op.args[i]) {
      ReadGrown(temps, more, s, op.args[i]);
    }
  }

  lemma AlikePropagated(temps: seq<Temp>, o: Opt, op: Op, s: State)
    requires Ok(temps, o) && Typed(temps, op) && Holds(o, s)
    ensures Alike(temps, o.temps, op, Propagate(o.info, op), s)
  {
    hide Read, Ok, Holds;
    var p := Propagate(o.info, op);
    forall i | Oargs(op.opc) <= i < Oargs(op.opc) + Iargs(op.opc) ensures Read(o.temps, s, p.args[i]) == Read(temps, s, op.args[i]) {
      PropagatedArg(temps, o, op, s, i);
    }
  }

  lemma NotConst(temps: seq<Temp>, p: Op)
    requires Filled(p)
    ensures forall t | t in Written(temps, p) && t < |temps| :: temps[t].kind != Const
  {
  }

  lemma ResetHolds(temps: seq<Temp>, o: Opt, s: State)
    requires Ok(temps, o) && Holds(o, s)
    ensures var q := o.(info := ResetCopies(o.info)); Ok(temps, q) && Holds(q, s)
  {
    hide Trunc, Read;
    var q := o.(info := ResetCopies(o.info));
    forall t | 0 <= t < |q.temps| ensures Fits(q, t) && Claim(q, s, t) {
      assert Fits(o, t) && Claim(o, s, t);
    }
  }

  lemma VisitOutside(o: Opt, op: Op)
    requires Filled(op)
    ensures op.opc == GotoTb ==> Visit(o, op) == Rewrite(o.(info := ResetCopies(Forget(o.info, Written(o.temps, op)))), op)
    ensures Skipped(op.opc) ==> Visit(o, op) == Rewrite(o.(info := Forget(o.info, Written(o.temps, op))), op)
    ensures op.opc.Other? && !op.opc.skipped ==>
      var p := Propagate(o.info, op); Visit(o, op) == Rewrite(o.(info := Forget(o.info, Written(o.temps, p))), p)
  {
    hide Forget, ResetCopies, Written, Propagate;
  }

  lemma OutsideSound<W>(m: Machine<W>, temps: seq<Temp>, o: Opt, op: Op, s: State, w: W)
    requires Ready(temps, o, op, s) && Outside(op.opc)
    ensures Sound(m, temps, o, op, s, w)
  {
    hide Trunc, Read, Write, Holds, Ok, Canonical, NoCopies, Visit, Execute, Forget, ResetCopies, Written, Propagate, Alike, SameElsewhere;
    Sizes(temps, o, s);
    VisitOutside(o, op);
    var p := if op.opc.Other? && !op.opc.skipped then Propagate(o.info, op) else op;
    if op.opc.Other? && !op.opc.skipped { AlikePropagated(temps, o, op, s); } else { Bounds(temps, o); AlikeSelf(temps, o.temps, op, s); }
    Bounds(temps, o);
    OutsideExecutes(m, temps, o.temps, op, p, s, w);
    NotConst(o.temps, p);
    var e := Execute(m, temps, op, s, w);
    ForgetHolds(temps, o, s, e.state, Written(o.temps, p));
    ResetHolds(temps, o.(info := Forget(o.info, Written(o.temps, p))), e.state);
  }
}
