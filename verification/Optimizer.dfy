/**
  * The optimizer pass: one walk over the operations that tracks which temporaries hold a
  * known constant or a copy of another, and rewrites each operation in place.
  */
module Optimizer {
  import opened IrBits
  import opened IrEval
  import opened IrModel

  datatype Source = NoSource | CopyOf(src: nat)

  datatype TempInfo = TempInfo(isConst: bool, val: bv64, copy: Source)

  const NO_INFO := TempInfo(false, 0, NoSource)

  type ConstTable = map<(Type, bv64), nat>

  /** The pass between two operations: the temporaries, the constant table and what is known. */
  datatype Opt = Opt(temps: seq<Temp>, table: ConstTable, info: seq<TempInfo>)

  datatype Rewrite = Rewrite(o: Opt, op: Op)

  function Info(info: seq<TempInfo>, t: nat): TempInfo { if t < |info| then info[t] else NO_INFO }

  function OperandOf(info: seq<TempInfo>, t: nat): Operand {
    if Info(info, t).isConst then Known(Info(info, t).val) else Unknown
  }

  function Ensure(info: seq<TempInfo>, t: nat): (r: seq<TempInfo>)
    ensures t < |r| && info <= r
  {
    if t < |info| then info else info + seq(t + 1 - |info|, _ => NO_INFO)
  }

  function Seed(temps: seq<Temp>): (r: seq<TempInfo>)
    ensures |r| == |temps|
  {
    seq(|temps|, t requires 0 <= t < |temps| => if temps[t].kind == Const then TempInfo(true, temps[t].val, NoSource) else NO_INFO)
  }

  /** Drop what is known of the temporaries written, and of every copy of one. */
  function Forget(info: seq<TempInfo>, written: set<nat>): (r: seq<TempInfo>)
    ensures |r| == |info|
  {
    seq(|info|, t requires 0 <= t < |info| =>
      if t in written then info[t].(isConst := false, copy := NoSource)
      else if info[t].copy.CopyOf? && info[t].copy.src in written then info[t].(copy := NoSource)
      else info[t])
  }

  function ResetCopies(info: seq<TempInfo>): (r: seq<TempInfo>)
    ensures |r| == |info|
  {
    seq(|info|, t requires 0 <= t < |info| => info[t].(copy := NoSource))
  }

  function SetConst(info: seq<TempInfo>, t: nat, v: bv64): seq<TempInfo> {
    Ensure(info, t)[t := TempInfo(true, v, NoSource)]
  }

  function SetCopy(info: seq<TempInfo>, t: nat, src: nat): seq<TempInfo> {
    var i := Ensure(info, t);
    if Info(i, src).isConst then i[t := TempInfo(true, Info(i, src).val, NoSource)]
    else i[t := i[t].(isConst := false, copy := CopyOf(src))]
  }

  function NewConst(o: Opt, ty: Type, v: bv64): (Opt, nat) {
    if (ty, v) in o.table then (o, o.table[(ty, v)])
    else (o.(temps := o.temps + [Temp(ty, Const, v)], table := o.table[(ty, v) := |o.temps|]), |o.temps|)
  }

  /** The outputs whose information is dropped: a constant temporary keeps its own. */
  function Written(temps: seq<Temp>, op: Op): set<nat>
    requires Filled(op)
  {
    set i | 0 <= i < Oargs(op.opc) && !(op.args[i] < |temps| && temps[op.args[i]].kind == Const) :: op.args[i]
  }

  function Propagate(info: seq<TempInfo>, op: Op): (r: Op)
    requires Filled(op)
    ensures Filled(r) && r.opc == op.opc && r.ty == op.ty && |r.args| == |op.args|
  {
    var first, past := Oargs(op.opc), Oargs(op.opc) + Iargs(op.opc);
    op.(args := seq(|op.args|, i requires 0 <= i < |op.args| =>
      if first <= i < past && Info(info, op.args[i]).copy.CopyOf? then Info(info, op.args[i]).copy.src else op.args[i]))
  }

  function ReplaceWithConst(o: Opt, op: Op, dst: nat, v: bv64, ty: Type): (r: Rewrite)
    requires Filled(op)
    ensures Filled(r.op)
  {
    var k := Trunc(ty, v);
    var (o1, c) := NewConst(o, ty, k);
    var info := Ensure(o1.info, c);
    var marked := info[c := info[c].(isConst := true, val := k)];
    Rewrite(o1.(info := SetConst(marked, dst, k)), op.(opc := Mov, args := op.args[0 := dst][1 := c], nargs := 2))
  }

  function ReplaceWithMov(o: Opt, op: Op, dst: nat, src: nat): (r: Rewrite)
    requires Filled(op)
    ensures Filled(r.op)
  {
    Rewrite(o.(info := Forget(Ensure(o.info, dst), {dst})), op.(opc := Mov, args := op.args[0 := dst][1 := src], nargs := 2))
  }

  function Drop(o: Opt, op: Op, dst: nat): Rewrite { Rewrite(o.(info := Forget(Ensure(o.info, dst), {dst})), op) }

  function FoldMov(o: Opt, op: Op): (r: Rewrite)
    requires Filled(op) && op.opc == Mov
    ensures r.op == op
  {
    var dst, src := op.args[0], op.args[1];
    var si := Info(o.info, src);
    Rewrite(o.(info := if si.isConst then SetConst(o.info, dst, Trunc(op.ty, si.val)) else SetCopy(o.info, dst, src)), op)
  }

  function FoldUnary(o: Opt, op: Op): (r: Rewrite)
    requires Filled(op) && op.opc.Unary?
    ensures Filled(r.op)
  {
    var dst, si := op.args[0], Info(o.info, op.args[1]);
    if !si.isConst then Drop(o, op, dst)
    else ReplaceWithConst(o, op, dst, EvalUnary(op.opc.u, op.ty, si.val), op.ty)
  }

  function FoldExt(o: Opt, op: Op): (r: Rewrite)
    requires Filled(op) && op.opc.Convert?
    ensures Filled(r.op)
  {
    var dst, si := op.args[0], Info(o.info, op.args[1]);
    if !si.isConst then Drop(o, op, dst)
    else ReplaceWithConst(o, op, dst, EvalExt(op.opc.x, si.val), ExtTo(op.opc.x))
  }

  function FoldBinary(o: Opt, op: Op): (r: Rewrite)
    requires Filled(op) && op.opc.Binary?
    ensures Filled(r.op)
  {
    var b, ty, dst, x, y := op.opc.b, op.ty, op.args[0], op.args[1], op.args[2];
    var left, right := OperandOf(o.info, x), OperandOf(o.info, y);
    if left.Known? && right.Known? then
      ReplaceWithConst(o, op, dst, EvalBinary(b, Trunc(ty, left.val), Trunc(ty, right.val), ty), ty)
    else
      match Simplify(b, ty, left, right)
      case CopyLeft => ReplaceWithMov(o, op, dst, x)
      case CopyRight => ReplaceWithMov(o, op, dst, y)
      case Constant(v) => ReplaceWithConst(o, op, dst, v, ty)
      case NegateRight => Drop(o, op.(opc := Opcode.Unary(Neg), args := op.args[0 := dst][1 := y], nargs := 2), dst)
      case Keep =>
        if x == y && (b.And? || b.Or?) then ReplaceWithMov(o, op, dst, x)
        else if x == y && (b.Xor? || b.Sub?) then ReplaceWithConst(o, op, dst, 0, ty)
        else Drop(o, op, dst)
  }

  function FoldBrCond(o: Opt, op: Op): (r: Rewrite)
    requires Filled(op) && op.opc == BrCond
    ensures Filled(r.op)
  {
    var ai, bi := Info(o.info, op.args[0]), Info(o.info, op.args[1]);
    if !ai.isConst || !bi.isConst then Rewrite(o, op)
    else if EvalCond(ai.val, bi.val, CondOf(op.args[2]), op.ty) then
      Rewrite(o, op.(opc := Br, args := op.args[0 := op.args[3]], nargs := 1))
    else Rewrite(o, op.(opc := Nop, nargs := 0))
  }

  predicate Boundary(c: Opcode) {
    c == SetLabel || c == Br || c == ExitTb || c == GotoTb || c == GotoPtr || c == Call
  }

  predicate Skipped(c: Opcode) { c == Nop || c == InsnStart || c == Discard || (c.Other? && c.skipped) }

  function Fold(o: Opt, p: Op): (r: Rewrite)
    requires Filled(p)
    ensures Filled(r.op)
  {
    match p.opc
    case Mov => FoldMov(o, p)
    case Unary(_) => FoldUnary(o, p)
    case Convert(_) => FoldExt(o, p)
    case Binary(_) => FoldBinary(o, p)
    case BrCond => FoldBrCond(o, p)
    case _ => Rewrite(o.(info := Forget(o.info, Written(o.temps, p))), p)
  }

  /** One operation of the pass. */
  function Visit(o: Opt, op: Op): (r: Rewrite)
    requires Filled(op)
    ensures Filled(r.op)
  {
    if Boundary(op.opc) then Rewrite(o.(info := ResetCopies(Forget(o.info, Written(o.temps, op)))), op)
    else if Skipped(op.opc) then Rewrite(o.(info := Forget(o.info, Written(o.temps, op))), op)
    else Fold(o, Propagate(o.info, op))
  }

  /** The pass after n operations. */
  function After(temps: seq<Temp>, table: ConstTable, ops: seq<Op>, n: nat): Opt
    requires AllFilled(ops) && n <= |ops|
  {
    if n == 0 then Opt(temps, table, Seed(temps)) else Visit(After(temps, table, ops, n - 1), ops[n - 1]).o
  }

  function Rewritten(temps: seq<Temp>, table: ConstTable, ops: seq<Op>, i: nat): (r: Op)
    requires AllFilled(ops) && i < |ops|
    ensures Filled(r)
  {
    Visit(After(temps, table, ops, i), ops[i]).op
  }

  /** The block the pass leaves. */
  function Optimized(temps: seq<Temp>, table: ConstTable, ops: seq<Op>): (r: seq<Op>)
    requires AllFilled(ops)
    ensures |r| == |ops| && AllFilled(r)
  {
    seq(|ops|, i requires 0 <= i < |ops| => Rewritten(temps, table, ops, i))
  }
}
