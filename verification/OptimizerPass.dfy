/**
  * The optimizer as it runs: loops over the information vector and over the operations of a
  * context, rewriting them in place. Each is proved against the pass's definition.
  */
module OptimizerPass {
  import opened IrBits
  import opened IrEval
  import opened IrModel
  import opened Optimizer
  import opened OptimizerProof
  import opened OptimizerRun

  class Context {
    var temps: seq<Temp>
    var ops: seq<Op>
    var table: ConstTable

    constructor (temps: seq<Temp>, ops: seq<Op>, table: ConstTable)
      ensures this.temps == temps && this.ops == ops && this.table == table
    {
      this.temps, this.ops, this.table := temps, ops, table;
    }
  }

  /** The information known before the first operation. */
  method SeedInfo(temps: seq<Temp>) returns (info: seq<TempInfo>)
    ensures info == Seed(temps)
  {
    info := seq(|temps|, _ => NO_INFO);
    for i := 0 to |temps|
      invariant |info| == |temps|
      invariant forall t | 0 <= t < |temps| :: info[t] == if t < i then Seed(temps)[t] else NO_INFO
    {
      if temps[i].kind == Const {
        info := info[i := info[i].(isConst := true, val := temps[i].val)];
      }
    }
  }

  method ClearCopies(info0: seq<TempInfo>) returns (info: seq<TempInfo>)
    ensures info == ResetCopies(info0)
  {
    info := info0;
    for i := 0 to |info0|
      invariant |info| == |info0|
      invariant forall t | 0 <= t < |info| :: info[t] == if t < i then info0[t].(copy := NoSource) else info0[t]
    {
      info := info[i := info[i].(copy := NoSource)];
    }
  }

  /** What is known once d is redefined. */
  method InvalidateOne(info0: seq<TempInfo>, d: nat) returns (info: seq<TempInfo>)
    ensures info == Forget(Ensure(info0, d), {d})
  {
    var first := Ensure(info0, d);
    first := first[d := first[d].(isConst := false, copy := NoSource)];
    info := first;
    for i := 0 to |first|
      invariant |info| == |first|
      invariant forall t | 0 <= t < |info| ::
        info[t] == if t < i && first[t].copy == CopyOf(d) then first[t].(copy := NoSource) else first[t]
    {
      if info[i].copy == CopyOf(d) {
        info := info[i := info[i].(copy := NoSource)];
      }
    }
  }

  lemma ForgetTwice(info: seq<TempInfo>, a: set<nat>, b: set<nat>)
    ensures Forget(Forget(info, a), b) == Forget(info, a + b)
  {
  }

  function WrittenUpTo(temps: seq<Temp>, op: Op, n: nat): set<nat>
    requires Filled(op) && n <= Oargs(op.opc)
  {
    set i | 0 <= i < n && !(op.args[i] < |temps| && temps[op.args[i]].kind == Const) :: op.args[i]
  }

  /** What is known once the outputs of an operation are redefined. */
  method InvalidateOutputs(info0: seq<TempInfo>, temps: seq<Temp>, op: Op) returns (info: seq<TempInfo>)
    requires Typed(temps, op) && |info0| == |temps|
    ensures info == Forget(info0, Written(temps, op))
  {
    info := info0;
    assert Forget(info0, {}) == info0;
    assert WrittenUpTo(temps, op, 0) == {};
    for i := 0 to Oargs(op.opc)
      invariant |info| == |info0| && info == Forget(info0, WrittenUpTo(temps, op, i))
    {
      var d := op.args[i];
      ForgetTwice(info0, WrittenUpTo(temps, op, i), {d});
      assert WrittenUpTo(temps, op, i + 1) == WrittenUpTo(temps, op, i) + {d};
      if d < |info| && temps[d].kind != Const {
        info := InvalidateOne(info, d);
      }
    }
    assert WrittenUpTo(temps, op, Oargs(op.opc)) == Written(temps, op);
  }

  /** An operation with its inputs replaced by what they are copies of. */
  method PropagateCopies(info: seq<TempInfo>, op: Op) returns (p: Op)
    requires Filled(op)
    ensures p == Propagate(info, op)
  {
    var first, past := Oargs(op.opc), Oargs(op.opc) + Iargs(op.opc);
    p := op;
    for slot := first to past
      invariant |p.args| == |op.args| && p == op.(args := p.args)
      invariant forall i | 0 <= i < |op.args| :: p.args[i] == if i < slot then Propagate(info, op).args[i] else op.args[i]
    {
      var t := op.args[slot];
      if t < |info| && info[t].copy.CopyOf? {
        p := p.(args := p.args[slot := info[t].copy.src]);
      }
    }
    assert p.args == Propagate(info, op).args;
  }

  /** One operation: information and temporaries updated, the operation rewritten in the context. */
  method VisitOp(ctx: Context, info0: seq<TempInfo>, i: nat) returns (info: seq<TempInfo>)
    requires i < |ctx.ops| && Typed(ctx.temps, ctx.ops[i]) && |info0| == |ctx.temps|
    modifies ctx
    ensures var r := Visit(Opt(old(ctx.temps), old(ctx.table), info0), old(ctx.ops[i]));
      && Opt(ctx.temps, ctx.table, info) == r.o
      && ctx.ops == old(ctx.ops)[i := r.op]
  {
    hide Trunc, EvalBinary, EvalUnary, EvalExt, EvalCond, Simplify, Forget, ResetCopies, Written, Propagate;
    var op := ctx.ops[i];
    info := info0;
    if Boundary(op.opc) || Skipped(op.opc) {
      info := InvalidateOutputs(info, ctx.temps, op);
      if Boundary(op.opc) { info := ClearCopies(info); }
    } else {
      op := PropagateCopies(info, op);
      var r := Fold(Opt(ctx.temps, ctx.table, info), op);
      ctx.temps, ctx.table, info := r.o.temps, r.o.table, r.o.info;
      op := r.op;
    }
    ctx.ops := ctx.ops[i := op];
  }

  /** The whole pass. */
  method Optimize(ctx: Context)
    requires AllFilled(ctx.ops) && WellFormed(ctx.temps, ctx.table, ctx.ops)
    modifies ctx
    ensures ctx.ops == Optimized(old(ctx.temps), old(ctx.table), old(ctx.ops))
    ensures ctx.temps == After(old(ctx.temps), old(ctx.table), old(ctx.ops), |old(ctx.ops)|).temps
  {
    hide Visit, Ok;
    ghost var temps, table, ops := ctx.temps, ctx.table, ctx.ops;
    var info := SeedInfo(ctx.temps);
    for i := 0 to |ctx.ops|
      invariant |ctx.ops| == |ops| && Opt(ctx.temps, ctx.table, info) == After(temps, table, ops, i)
      invariant forall k | 0 <= k < |ops| :: ctx.ops[k] == if k < i then Rewritten(temps, table, ops, k) else ops[k]
    {
      AfterOk(temps, table, ops, i);
      Bounds(temps, After(temps, table, ops, i));
      assert Typed(temps, ops[i]);
      TypedGrown(temps, ctx.temps, ops[i]);
      info := VisitOp(ctx, info, i);
    }
  }
}
