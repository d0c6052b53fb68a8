/**
  * Blocks the optimizer gets wrong, one for each premise: what the block does, and what it
  * does once optimized.
  */
module OptimizerBroken {
  import opened IrBits
  import opened IrEval
  import opened IrModel
  import opened Optimizer
  import opened OptimizerProof
  import opened OptimizerRun

  // ---- Runs step by step ----

  lemma ThreeSteps<W>(m: Machine<W>, temps: seq<Temp>, ops: seq<Op>, c: Config<W>, c1: Config<W>, c2: Config<W>, c3: Config<W>)
    requires AllFilled(ops) && Step(m, temps, ops, c) == c1 && Step(m, temps, ops, c1) == c2 && Step(m, temps, ops, c2) == c3
    ensures Run(m, temps, ops, c, 3) == c3
  {
    hide Step;
    assert Run(m, temps, ops, c, 0) == c;
    assert Run(m, temps, ops, c, 1) == c1;
    assert Run(m, temps, ops, c, 2) == c2;
  }

  lemma Stepped<W>(m: Machine<W>, temps: seq<Temp>, ops: seq<Op>, pc: nat, s: State, w: W)
    requires AllFilled(ops) && pc < |ops|
    ensures var e := Execute(m, temps, ops[pc], s, w); var c := Step(m, temps, ops, Running(pc, s, w));
      && (e.flow == Next ==> c == Running(pc + 1, e.state, e.world))
      && (e.flow.Goto? ==> c == Running(Target(ops, e.flow.to), e.state, e.world))
      && (e.flow.Leave? ==> c == Done(e.flow.exit, e.state, e.world))
  {
    hide Execute, Target;
  }

  lemma Written64(temps: seq<Temp>, s: State, d: nat, v: bv64)
    requires d < |s| && d < |temps| && temps[d].ty == I64
    ensures Write(temps, s, d, v) == s[d := v]
  {
  }

  lemma Read64(temps: seq<Temp>, s: State, t: nat)
    requires t < |temps| && t < |s| && temps[t].ty == I64
    ensures Read(temps, s, t) == if temps[t].kind == Const then temps[t].val else s[t]
  {
  }

  function Move(d: nat, src: nat): Op { Op(Mov, I64, [d, src, 0], 2) }

  function Plus(d: nat, x: nat, y: nat): Op { Op(Binary(Add), I64, [d, x, y], 3) }

  /** What a move of sixty-four bit temporaries does, by its first two arguments. */
  lemma Moves<W>(m: Machine<W>, temps: seq<Temp>, ops: seq<Op>, pc: nat, s: State, w: W)
    requires AllFilled(ops) && pc < |ops| && ops[pc].opc == Mov
    requires var a := ops[pc].args; a[0] < |s| <= |temps| && a[1] < |temps| && temps[a[0]].ty == I64 && temps[a[1]].ty == I64
    requires ops[pc].args[1] < |s| || temps[ops[pc].args[1]].kind == Const
    ensures var a := ops[pc].args; var v := if temps[a[1]].kind == Const then temps[a[1]].val else s[a[1]];
      Step(m, temps, ops, Running(pc, s, w)) == Running(pc + 1, s[a[0] := v], w)
  {
    hide Execute, Write;
    var a := ops[pc].args;
    Stepped(m, temps, ops, pc, s, w);
    Computes(m, temps, ops[pc], s, w);
    Written64(temps, s, a[0], Read(temps, s, a[1]));
  }

  lemma Adds<W>(m: Machine<W>, temps: seq<Temp>, ops: seq<Op>, pc: nat, s: State, w: W)
    requires AllFilled(ops) && pc < |ops| && ops[pc].opc == Binary(Add) && ops[pc].ty == I64
    requires var a := ops[pc].args; a[0] < |s| <= |temps| && a[1] < |s| && a[2] < |s|
    requires var a := ops[pc].args; temps[a[0]].ty == I64 && temps[a[1]].ty == I64 && temps[a[2]].ty == I64
    ensures var a := ops[pc].args;
      var x, y := if temps[a[1]].kind == Const then temps[a[1]].val else s[a[1]], if temps[a[2]].kind == Const then temps[a[2]].val else s[a[2]];
      Step(m, temps, ops, Running(pc, s, w)) == Running(pc + 1, s[a[0] := Add64(x, y)], w)
  {
    hide Execute, Write, Read, Add64;
    var a := ops[pc].args;
    Stepped(m, temps, ops, pc, s, w);
    Computes(m, temps, ops[pc], s, w);
    Read64(temps, s, a[1]);
    Read64(temps, s, a[2]);
    Written64(temps, s, a[0], Add64(Read(temps, s, a[1]), Read(temps, s, a[2])));
  }

  // ---- What the pass does to an operation ----

  const KNOWN_5 := TempInfo(true, 5, NoSource)
  const KNOWN_1 := TempInfo(true, 1, NoSource)
  const KNOWN_6 := TempInfo(true, 6, NoSource)

  function Copies(t: nat): TempInfo { TempInfo(false, 0, CopyOf(t)) }

  lemma VisitMove(o: Opt, d: nat, src: nat)
    requires d < |o.info| && src < |o.info|
    ensures var from := if o.info[src].copy.CopyOf? then o.info[src].copy.src else src;
      Visit(o, Move(d, src)) == FoldMov(o, Move(d, from))
  {
    hide FoldMov;
    var from := if o.info[src].copy.CopyOf? then o.info[src].copy.src else src;
    assert Propagate(o.info, Move(d, src)).args == Move(d, from).args;
    VisitFolds(o, Move(d, src));
  }

  lemma Sum()
    ensures Add64(5, 1) == 6
    ensures EvalBinary(Add, 5, 1, I64) == 6
  {
    hide Add64;
    SumIs();
  }

  lemma SumIs()
    ensures Add64(5, 1) == 6
  {
  }

  /** Five and one added: the operation becomes a move of the constant six, added at the end. */
  lemma VisitSum(o: Opt, d: nat, x: nat, y: nat)
    requires d < |o.info| == |o.temps| && x < |o.info| && y < |o.info| && o.info[x] == KNOWN_5 && o.info[y] == KNOWN_1 && o.table == map[]
    ensures var r := Visit(o, Plus(d, x, y));
      && r.op == Op(Mov, I64, [d, |o.temps|, y], 2)
      && r.o == Opt(o.temps + [Temp(I64, Const, 6)], map[(I64, 6) := |o.temps|], o.info[d := KNOWN_6] + [KNOWN_6])
  {
    hide EvalBinary;
    Sum();
    var op := Plus(d, x, y);
    assert Propagate(o.info, op).args == op.args;
    VisitFolds(o, op);
  }

  // ---- A swap through a temporary ----

  const REGS := [Temp(I64, Global, 0), Temp(I64, Global, 0), Temp(I64, Ebb, 0)]
  const SWAP := [Move(2, 0), Move(0, 1), Move(1, 2)]
  const SWAPPED := [Move(2, 0), Move(0, 1), Move(1, 0)]

  lemma SwapRewritten()
    ensures AllFilled(SWAP) && AllFilled(SWAPPED) && Optimized(REGS, map[], SWAP) == SWAPPED
  {
    hide Visit;
    var o0, o1, o2 := After(REGS, map[], SWAP, 0), After(REGS, map[], SWAP, 1), After(REGS, map[], SWAP, 2);
    assert o0.info == [NO_INFO, NO_INFO, NO_INFO];
    VisitMove(o0, 2, 0);
    assert o1.info == [NO_INFO, NO_INFO, Copies(0)];
    VisitMove(o1, 0, 1);
    assert o2.info == [Copies(1), NO_INFO, Copies(0)];
    VisitMove(o2, 1, 2);
  }

  /** Optimized, the swap leaves both registers with the second one's value. */
  lemma SwapBroken<W>(m: Machine<W>, a: bv64, b: bv64, c: bv64, w: W)
    ensures AllFilled(SWAP) && Run(m, REGS, SWAP, Running(0, [a, b, c], w), 3) == Running(3, [b, a, a], w)
    ensures Run(m, REGS, Optimized(REGS, map[], SWAP), Running(0, [a, b, c], w), 3) == Running(3, [b, b, a], w)
  {
    hide Step, Optimized, Run;
    SwapRewritten();
    var start, one, two := Running(0, [a, b, c], w), Running(1, [a, b, a], w), Running(2, [b, b, a], w);
    SwapSteps(m, SWAP, a, b, c, w);
    SwapSteps(m, SWAPPED, a, b, c, w);
    Moves(m, REGS, SWAP, 2, [b, b, a], w);
    Moves(m, REGS, SWAPPED, 2, [b, b, a], w);
    assert [b, b, a][1 := a] == [b, a, a] && [b, b, a][1 := b] == [b, b, a];
    ThreeSteps(m, REGS, SWAP, start, one, two, Running(3, [b, a, a], w));
    ThreeSteps(m, REGS, SWAPPED, start, one, two, Running(3, [b, b, a], w));
  }

  lemma SwapSteps<W>(m: Machine<W>, ops: seq<Op>, a: bv64, b: bv64, c: bv64, w: W)
    requires AllFilled(ops) && |ops| == 3 && ops[0] == Move(2, 0) && ops[1] == Move(0, 1)
    ensures Step(m, REGS, ops, Running(0, [a, b, c], w)) == Running(1, [a, b, a], w)
    ensures Step(m, REGS, ops, Running(1, [a, b, a], w)) == Running(2, [b, b, a], w)
  {
    hide Step;
    Moves(m, REGS, ops, 0, [a, b, c], w);
    Moves(m, REGS, ops, 1, [a, b, a], w);
    assert [a, b, c][2 := a] == [a, b, a] && [a, b, a][0 := b] == [b, b, a];
  }

  // ---- A constant fold over a copied temporary ----

  const SAVED := [Temp(I64, Global, 0), Temp(I64, Global, 0), Temp(I64, Ebb, 0), Temp(I64, Const, 5), Temp(I64, Const, 1)]

  /** Save the first register, set it to five plus one, restore into the second. */
  const SAVE := [Move(2, 0), Plus(0, 3, 4), Move(1, 2)]
  const SAVE_OPT := [Move(2, 0), Op(Mov, I64, [0, 5, 4], 2), Move(1, 0)]

  lemma SaveRewritten()
    ensures AllFilled(SAVE) && AllFilled(SAVE_OPT) && Optimized(SAVED, map[], SAVE) == SAVE_OPT
    ensures After(SAVED, map[], SAVE, 3).temps == SAVED + [Temp(I64, Const, 6)]
  {
    hide Visit;
    var o0, o1, o2 := After(SAVED, map[], SAVE, 0), After(SAVED, map[], SAVE, 1), After(SAVED, map[], SAVE, 2);
    assert o0.info == [NO_INFO, NO_INFO, NO_INFO, KNOWN_5, KNOWN_1];
    VisitMove(o0, 2, 0);
    assert o1.info == [NO_INFO, NO_INFO, Copies(0), KNOWN_5, KNOWN_1];
    VisitSum(o1, 0, 3, 4);
    assert o2.info == [KNOWN_6, NO_INFO, Copies(0), KNOWN_5, KNOWN_1, KNOWN_6];
    VisitMove(o2, 1, 2);
  }

  lemma SaveSums<W>(m: Machine<W>, a: bv64, b: bv64, w: W)
    ensures AllFilled(SAVE) && Step(m, SAVED, SAVE, Running(1, [a, b, a, 0, 0], w)) == Running(2, [6, b, a, 0, 0], w)
  {
    hide Step, Add64;
    SumIs();
    Adds(m, SAVED, SAVE, 1, [a, b, a, 0, 0], w);
    assert [a, b, a, 0, 0][0 := 6] == [6, b, a, 0, 0];
  }

  lemma SaveMoves<W>(m: Machine<W>, a: bv64, b: bv64, c: bv64, w: W)
    ensures AllFilled(SAVE) && Step(m, SAVED, SAVE, Running(0, [a, b, c, 0, 0], w)) == Running(1, [a, b, a, 0, 0], w)
    ensures Step(m, SAVED, SAVE, Running(2, [6, b, a, 0, 0], w)) == Running(3, [6, a, a, 0, 0], w)
  {
    hide Step;
    Moves(m, SAVED, SAVE, 0, [a, b, c, 0, 0], w);
    assert [a, b, c, 0, 0][2 := a] == [a, b, a, 0, 0];
    Moves(m, SAVED, SAVE, 2, [6, b, a, 0, 0], w);
    assert [6, b, a, 0, 0][1 := a] == [6, a, a, 0, 0];
  }

  lemma SaveRuns<W>(m: Machine<W>, a: bv64, b: bv64, c: bv64, w: W)
    ensures AllFilled(SAVE) && Run(m, SAVED, SAVE, Running(0, [a, b, c, 0, 0], w), 3) == Running(3, [6, a, a, 0, 0], w)
  {
    hide Step, Run;
    SaveMoves(m, a, b, c, w);
    SaveSums(m, a, b, w);
    ThreeSteps(m, SAVED, SAVE, Running(0, [a, b, c, 0, 0], w), Running(1, [a, b, a, 0, 0], w), Running(2, [6, b, a, 0, 0], w), Running(3, [6, a, a, 0, 0], w));
  }

  lemma SaveOptRuns<W>(m: Machine<W>, last: seq<Temp>, a: bv64, b: bv64, c: bv64, w: W)
    requires last == SAVED + [Temp(I64, Const, 6)]
    ensures AllFilled(SAVE_OPT) && Run(m, last, SAVE_OPT, Running(0, [a, b, c, 0, 0], w), 3) == Running(3, [6, 6, a, 0, 0], w)
  {
    hide Step, Run;
    var start, one, two := Running(0, [a, b, c, 0, 0], w), Running(1, [a, b, a, 0, 0], w), Running(2, [6, b, a, 0, 0], w);
    Moves(m, last, SAVE_OPT, 0, start.state, w);
    assert [a, b, c, 0, 0][2 := a] == one.state;
    Moves(m, last, SAVE_OPT, 1, one.state, w);
    assert one.state[0 := 6] == two.state;
    Moves(m, last, SAVE_OPT, 2, two.state, w);
    assert two.state[1 := 6] == [6, 6, a, 0, 0];
    ThreeSteps(m, last, SAVE_OPT, start, one, two, Running(3, [6, 6, a, 0, 0], w));
  }

  /** Optimized, the second register gets the constant in place of the saved value. */
  lemma SaveBroken<W>(m: Machine<W>, a: bv64, b: bv64, c: bv64, w: W)
    ensures AllFilled(SAVE) && Run(m, SAVED, SAVE, Running(0, [a, b, c, 0, 0], w), 3) == Running(3, [6, a, a, 0, 0], w)
    ensures var last := After(SAVED, map[], SAVE, 3).temps;
      Run(m, last, Optimized(SAVED, map[], SAVE), Running(0, [a, b, c, 0, 0], w), 3) == Running(3, [6, 6, a, 0, 0], w)
  {
    hide Step, Optimized, Run, After;
    SaveRewritten();
    SaveRuns(m, a, b, c, w);
    SaveOptRuns(m, After(SAVED, map[], SAVE, 3).temps, a, b, c, w);
  }

  // ---- A helper that changes a register holding a recorded constant ----

  const HELP := Op(Call, I64, [2, 0, 0, 0, 0, 0, 0, 0, 0], 9)

  /** Set the first register to five, call a helper, add one into the second. */
  const ASK := [Move(0, 3), HELP, Plus(1, 0, 4)]
  const ASK_OPT := [Move(0, 3), HELP, Op(Mov, I64, [1, 5, 4], 2)]

  /** A helper that leaves g in the first register. */
  function Helper<W>(g: bv64): Machine<W> { (c, ty, ks, xs, s, w) => Outcome([], [g], w, Next) }

  lemma VisitHelp(o: Opt)
    requires |o.info| == |o.temps| >= 3 && o.info[2] == NO_INFO && o.temps[2].kind != Const
    requires forall t | 0 <= t < |o.info| :: o.info[t].copy == NoSource
    ensures Visit(o, HELP) == Rewrite(o, HELP)
  {
    VisitOthers(o, HELP);
    assert Oargs(HELP.opc) == 1 && HELP.args[0] == 2;
    assert Written(o.temps, HELP) == {HELP.args[0]};
    assert Forget(o.info, {2}) == o.info && ResetCopies(o.info) == o.info;
  }

  lemma AskRewritten()
    ensures AllFilled(ASK) && AllFilled(ASK_OPT) && Optimized(SAVED, map[], ASK) == ASK_OPT
    ensures After(SAVED, map[], ASK, 3).temps == SAVED + [Temp(I64, Const, 6)]
  {
    hide Visit;
    var o0, o1 := After(SAVED, map[], ASK, 0), After(SAVED, map[], ASK, 1);
    assert o0.info == [NO_INFO, NO_INFO, NO_INFO, KNOWN_5, KNOWN_1];
    VisitMove(o0, 0, 3);
    assert o1.info == [KNOWN_5, NO_INFO, NO_INFO, KNOWN_5, KNOWN_1];
    VisitHelp(o1);
    assert After(SAVED, map[], ASK, 2) == o1;
    VisitSum(o1, 1, 0, 4);
  }

  lemma Helps<W>(temps: seq<Temp>, ops: seq<Op>, g: bv64, s: State, w: W)
    requires AllFilled(ops) && 1 < |ops| && ops[1] == HELP && SAVED <= temps && |s| == 5
    ensures Step(Helper(g), temps, ops, Running(1, s, w)) == Running(2, [g, s[1], 0, s[3], s[4]], w)
  {
    hide Execute, Helper;
    HelperEffect(temps, g, s, w);
    Stepped(Helper(g), temps, ops, 1, s, w);
  }

  lemma HelperEffect<W>(temps: seq<Temp>, g: bv64, s: State, w: W)
    requires SAVED <= temps && |s| == 5
    ensures Filled(HELP) && Execute(Helper(g), temps, HELP, s, w) == Effect([g, s[1], 0, s[3], s[4]], w, Next)
  {
    hide Write, Inputs, Constants;
    assert temps[0] == SAVED[0] && temps[1] == SAVED[1] && temps[2] == SAVED[2];
    var after := Clobber(temps, s, [g]);
    assert after == [g, s[1], s[2], s[3], s[4]];
    var out: seq<nat> := HELP.args[..1];
    assert out == [2] && out[..0] == [];
    assert WriteOuts(temps, after, out[..0], []) == after;
    Written64(temps, after, 2, 0);
  }

  lemma AskSums<W>(m: Machine<W>, g: bv64, b: bv64, w: W)
    ensures AllFilled(ASK) && Step(m, SAVED, ASK, Running(2, [g, b, 0, 0, 0], w)) == Running(3, [g, Add64(g, 1), 0, 0, 0], w)
  {
    hide Step, Add64;
    Adds(m, SAVED, ASK, 2, [g, b, 0, 0, 0], w);
    assert [g, b, 0, 0, 0][1 := Add64(g, 1)] == [g, Add64(g, 1), 0, 0, 0];
  }

  lemma AskMoves<W>(m: Machine<W>, a: bv64, b: bv64, c: bv64, w: W)
    ensures AllFilled(ASK) && Step(m, SAVED, ASK, Running(0, [a, b, c, 0, 0], w)) == Running(1, [5, b, c, 0, 0], w)
  {
    hide Step;
    Moves(m, SAVED, ASK, 0, [a, b, c, 0, 0], w);
    assert [a, b, c, 0, 0][0 := 5] == [5, b, c, 0, 0];
  }

  lemma AskRuns<W>(g: bv64, a: bv64, b: bv64, c: bv64, w: W)
    ensures AllFilled(ASK) && Run(Helper(g), SAVED, ASK, Running(0, [a, b, c, 0, 0], w), 3) == Running(3, [g, Add64(g, 1), 0, 0, 0], w)
  {
    hide Step, Run, Add64, Helper;
    AskMoves(Helper(g), a, b, c, w);
    Helps(SAVED, ASK, g, [5, b, c, 0, 0], w);
    AskSums(Helper(g), g, b, w);
    ThreeSteps(Helper(g), SAVED, ASK, Running(0, [a, b, c, 0, 0], w), Running(1, [5, b, c, 0, 0], w), Running(2, [g, b, 0, 0, 0], w),
               Running(3, [g, Add64(g, 1), 0, 0, 0], w));
  }

  lemma AskOptMoves<W>(m: Machine<W>, last: seq<Temp>, g: bv64, a: bv64, b: bv64, c: bv64, w: W)
    requires last == SAVED + [Temp(I64, Const, 6)]
    ensures AllFilled(ASK_OPT) && Step(m, last, ASK_OPT, Running(0, [a, b, c, 0, 0], w)) == Running(1, [5, b, c, 0, 0], w)
    ensures Step(m, last, ASK_OPT, Running(2, [g, b, 0, 0, 0], w)) == Running(3, [g, 6, 0, 0, 0], w)
  {
    hide Step;
    Moves(m, last, ASK_OPT, 0, [a, b, c, 0, 0], w);
    assert [a, b, c, 0, 0][0 := 5] == [5, b, c, 0, 0];
    Moves(m, last, ASK_OPT, 2, [g, b, 0, 0, 0], w);
    assert [g, b, 0, 0, 0][1 := 6] == [g, 6, 0, 0, 0];
  }

  lemma AskOptRuns<W>(last: seq<Temp>, g: bv64, a: bv64, b: bv64, c: bv64, w: W)
    requires last == SAVED + [Temp(I64, Const, 6)]
    ensures AllFilled(ASK_OPT) && Run(Helper(g), last, ASK_OPT, Running(0, [a, b, c, 0, 0], w), 3) == Running(3, [g, 6, 0, 0, 0], w)
  {
    hide Step, Run, Helper;
    AskOptMoves(Helper(g), last, g, a, b, c, w);
    Helps(last, ASK_OPT, g, [5, b, c, 0, 0], w);
    ThreeSteps(Helper(g), last, ASK_OPT, Running(0, [a, b, c, 0, 0], w), Running(1, [5, b, c, 0, 0], w), Running(2, [g, b, 0, 0, 0], w),
               Running(3, [g, 6, 0, 0, 0], w));
  }

  /** Optimized, the sum ignores what the helper left. */
  lemma AskBroken<W>(g: bv64, a: bv64, b: bv64, c: bv64, w: W)
    ensures AllFilled(ASK) && Run(Helper(g), SAVED, ASK, Running(0, [a, b, c, 0, 0], w), 3) == Running(3, [g, Add64(g, 1), 0, 0, 0], w)
    ensures var last := After(SAVED, map[], ASK, 3).temps;
      Run(Helper(g), last, Optimized(SAVED, map[], ASK), Running(0, [a, b, c, 0, 0], w), 3) == Running(3, [g, 6, 0, 0, 0], w)
  {
    hide Step, Optimized, Run, After, Helper, Add64;
    AskRewritten();
    AskRuns(g, a, b, c, w);
    AskOptRuns(After(SAVED, map[], ASK, 3).temps, g, a, b, c, w);
  }

  // ---- A signed comparison of minus one with one ----

  const SIGNS := [Temp(I32, Const, 0xFFFF_FFFF), Temp(I32, Const, 1)]
  const LESS := [Op(BrCond, I32, [0, 1, 10, 0], 4), Op(ExitTb, I64, [0, 0], 1), Op(SetLabel, I64, [0, 0], 1), Op(ExitTb, I64, [1, 0], 1)]
  const LESS_OPT := [Op(Nop, I32, [0, 1, 10, 0], 0), Op(ExitTb, I64, [0, 0], 1), Op(SetLabel, I64, [0, 0], 1), Op(ExitTb, I64, [1, 0], 1)]

  lemma MinusOneMasked()
    ensures !MaskedLess(0xFFFF_FFFF, 1)
  {
  }

  lemma MinusOneLess()
    ensures Less32(0xFFFF_FFFF, 1)
  {
  }

  lemma MinusOneKept()
    ensures Trunc(I32, 0xFFFF_FFFF) == 0xFFFF_FFFF
    ensures Trunc(I32, 1) == 1
  {
  }

  lemma LessFolded(o: Opt)
    requires |o.info| == 2 && o.info[0] == TempInfo(true, 0xFFFF_FFFF, NoSource) && o.info[1] == KNOWN_1
    ensures AllFilled(LESS) && Visit(o, LESS[0]).op == LESS_OPT[0]
  {
    hide Visit, MaskedLess;
    MinusOneMasked();
    assert Propagate(o.info, LESS[0]).args == LESS[0].args;
    VisitFolds(o, LESS[0]);
  }

  lemma LessRewritten()
    ensures AllFilled(LESS) && AllFilled(LESS_OPT) && Optimized(SIGNS, map[], LESS) == LESS_OPT
  {
    hide Visit;
    assert After(SIGNS, map[], LESS, 0).info == [TempInfo(true, 0xFFFF_FFFF, NoSource), KNOWN_1];
    LessFolded(After(SIGNS, map[], LESS, 0));
    forall i | 1 <= i < 4 ensures Rewritten(SIGNS, map[], LESS, i) == LESS_OPT[i] {
      VisitOthers(After(SIGNS, map[], LESS, i), LESS[i]);
    }
  }

  lemma Exits<W>(m: Machine<W>, temps: seq<Temp>, ops: seq<Op>, pc: nat, s: State, w: W)
    requires AllFilled(ops) && pc < |ops|
    ensures ops[pc].opc == ExitTb ==> Step(m, temps, ops, Running(pc, s, w)) == Done(Code(ops[pc].args[0]), s, w)
    ensures ops[pc].opc == Nop || ops[pc].opc == SetLabel ==> Step(m, temps, ops, Running(pc, s, w)) == Running(pc + 1, s, w)
  {
    hide Read, Write, NativeUnary, NativeExt, NativeBinary, Compare, Target;
  }

  lemma LessTaken<W>(m: Machine<W>, w: W)
    ensures AllFilled(LESS) && Step(m, SIGNS, LESS, Running(0, [0, 0], w)) == Running(2, [0, 0], w)
  {
    hide Execute, Less32, Trunc, Step;
    MinusOneLess();
    MinusOneKept();
    BranchExecutes(m, SIGNS, LESS[0], [0, 0], w);
    assert Compare(Lt, I32, Read(SIGNS, [0, 0], 0), Read(SIGNS, [0, 0], 1));
    Stepped(m, SIGNS, LESS, 0, [0, 0], w);
    assert LESS[1..][1..][0] == LESS[2];
    assert Target(LESS[2..], 0) == 0 && Target(LESS[1..], 0) == 1 by { assert LESS[1..][1..] == LESS[2..]; }
  }

  /** Minus one is below one, and the block leaves through the label; optimized, it does not. */
  lemma LessBroken<W>(m: Machine<W>, w: W)
    ensures AllFilled(LESS) && Run(m, SIGNS, LESS, Running(0, [0, 0], w), 3) == Done(Code(1), [0, 0], w)
    ensures Run(m, SIGNS, Optimized(SIGNS, map[], LESS), Running(0, [0, 0], w), 3) == Done(Code(0), [0, 0], w)
  {
    hide Step, Optimized, Run;
    LessRewritten();
    var s: State := [0, 0];
    LessTaken(m, w);
    Exits(m, SIGNS, LESS, 2, s, w);
    Exits(m, SIGNS, LESS, 3, s, w);
    Exits(m, SIGNS, LESS_OPT, 0, s, w);
    Exits(m, SIGNS, LESS_OPT, 1, s, w);
    Ended(m, SIGNS, LESS_OPT, Done(Code(0), s, w));
    ThreeSteps(m, SIGNS, LESS, Running(0, s, w), Running(2, s, w), Running(3, s, w), Done(Code(1), s, w));
    ThreeSteps(m, SIGNS, LESS_OPT, Running(0, s, w), Running(1, s, w), Done(Code(0), s, w), Done(Code(0), s, w));
  }

  lemma Ended<W>(m: Machine<W>, temps: seq<Temp>, ops: seq<Op>, c: Config<W>)
    requires AllFilled(ops) && c.Done?
    ensures Step(m, temps, ops, c) == c
  {
    hide Execute, Target;
  }

  // ---- A counting loop ----

  /** The counter starts at five, each round adds one. */
  const COUNTER := [Temp(I64, Ebb, 0), Temp(I64, Const, 5), Temp(I64, Const, 1)]
  const LOOP := [Move(0, 1), Op(SetLabel, I64, [0, 0], 1), Plus(0, 0, 2), Op(Br, I64, [0, 0], 1)]
  const LOOP_OPT := [Move(0, 1), Op(SetLabel, I64, [0, 0], 1), Op(Mov, I64, [0, 3, 2], 2), Op(Br, I64, [0, 0], 1)]

  lemma LoopRewritten()
    ensures AllFilled(LOOP) && AllFilled(LOOP_OPT) && Optimized(COUNTER, map[], LOOP) == LOOP_OPT
    ensures After(COUNTER, map[], LOOP, 4).temps == COUNTER + [Temp(I64, Const, 6)]
  {
    hide Visit;
    var o0, o1, o3 := After(COUNTER, map[], LOOP, 0), After(COUNTER, map[], LOOP, 1), After(COUNTER, map[], LOOP, 3);
    assert o0.info == [NO_INFO, KNOWN_5, KNOWN_1];
    VisitMove(o0, 0, 1);
    assert o1.info == [KNOWN_5, KNOWN_5, KNOWN_1];
    VisitOthers(o1, LOOP[1]);
    ForgetNothing(o1, LOOP[1]);
    assert ResetCopies(o1.info) == o1.info;
    assert After(COUNTER, map[], LOOP, 2) == o1;
    VisitSum(o1, 0, 0, 2);
    VisitOthers(o3, LOOP[3]);
  }

  function Counted(n: nat): bv64 { if n == 0 then 5 else Add64(Counted(n - 1), 1) }

  lemma LoopTarget(ops: seq<Op>)
    requires AllFilled(ops) && |ops| == 4 && ops[0].opc == Mov && ops[1] == LOOP[1]
    ensures Target(ops, 0) == 1
  {
    assert ops[1..][0] == ops[1];
  }

  /** One round from the label, its third operation leaving v. */
  lemma Round<W>(m: Machine<W>, temps: seq<Temp>, ops: seq<Op>, x: bv64, v: bv64, w: W)
    requires AllFilled(ops) && |ops| == 4 && ops[0].opc == Mov && ops[1] == LOOP[1] && ops[3] == LOOP[3]
    requires Step(m, temps, ops, Running(2, [x, 0, 0], w)) == Running(3, [v, 0, 0], w)
    ensures Step(m, temps, ops, Step(m, temps, ops, Step(m, temps, ops, Running(1, [x, 0, 0], w)))) == Running(1, [v, 0, 0], w)
  {
    hide Step, Execute, Target;
    Exits(m, temps, ops, 1, [x, 0, 0], w);
    BranchExecutes(m, temps, ops[3], [v, 0, 0], w);
    Stepped(m, temps, ops, 3, [v, 0, 0], w);
    LoopTarget(ops);
  }

  lemma LoopSums<W>(m: Machine<W>, x: bv64, w: W)
    ensures AllFilled(LOOP) && Step(m, COUNTER, LOOP, Running(2, [x, 0, 0], w)) == Running(3, [Add64(x, 1), 0, 0], w)
  {
    hide Step, Add64;
    Adds(m, COUNTER, LOOP, 2, [x, 0, 0], w);
    assert [x, 0, 0][0 := Add64(x, 1)] == [Add64(x, 1), 0, 0];
  }

  lemma LoopStarts<W>(m: Machine<W>, temps: seq<Temp>, ops: seq<Op>, t: bv64, w: W)
    requires AllFilled(ops) && |ops| == 4 && ops[0] == Move(0, 1) && COUNTER <= temps
    ensures Run(m, temps, ops, Running(0, [t, 0, 0], w), 1) == Running(1, [5, 0, 0], w)
  {
    hide Step;
    assert temps[0] == COUNTER[0] && temps[1] == COUNTER[1];
    Moves(m, temps, ops, 0, [t, 0, 0], w);
    assert [t, 0, 0][0 := 5] == [5, 0, 0];
    assert Run(m, temps, ops, Running(0, [t, 0, 0], w), 0) == Running(0, [t, 0, 0], w);
  }

  lemma {:induction false} LoopRuns<W>(m: Machine<W>, t: bv64, w: W, n: nat)
    ensures AllFilled(LOOP) && Run(m, COUNTER, LOOP, Running(0, [t, 0, 0], w), 1 + 3 * n) == Running(1, [Counted(n), 0, 0], w)
  {
    hide Step, Add64, Run;
    if n == 0 {
      LoopStarts(m, COUNTER, LOOP, t, w);
    } else {
      LoopRuns(m, t, w, n - 1);
      LoopSums(m, Counted(n - 1), w);
      Round(m, COUNTER, LOOP, Counted(n - 1), Counted(n), w);
      ThreeMore(m, COUNTER, LOOP, Running(0, [t, 0, 0], w), 1 + 3 * (n - 1));
    }
  }

  lemma ThreeMore<W>(m: Machine<W>, temps: seq<Temp>, ops: seq<Op>, c: Config<W>, n: nat)
    requires AllFilled(ops)
    ensures Run(m, temps, ops, c, n + 3) == Step(m, temps, ops, Step(m, temps, ops, Step(m, temps, ops, Run(m, temps, ops, c, n))))
  {
    hide Step;
    assert Run(m, temps, ops, c, n + 1) == Step(m, temps, ops, Run(m, temps, ops, c, n));
    assert Run(m, temps, ops, c, n + 2) == Step(m, temps, ops, Run(m, temps, ops, c, n + 1));
  }

  lemma LoopOptMoves<W>(m: Machine<W>, last: seq<Temp>, x: bv64, w: W)
    requires last == COUNTER + [Temp(I64, Const, 6)]
    ensures AllFilled(LOOP_OPT) && Step(m, last, LOOP_OPT, Running(2, [x, 0, 0], w)) == Running(3, [6, 0, 0], w)
  {
    hide Step;
    Moves(m, last, LOOP_OPT, 2, [x, 0, 0], w);
    assert [x, 0, 0][0 := 6] == [6, 0, 0];
  }

  lemma {:induction false} LoopOptRuns<W>(m: Machine<W>, last: seq<Temp>, t: bv64, w: W, n: nat)
    requires last == COUNTER + [Temp(I64, Const, 6)]
    ensures AllFilled(LOOP_OPT)
    ensures Run(m, last, LOOP_OPT, Running(0, [t, 0, 0], w), 1 + 3 * n) == Running(1, [if n == 0 then 5 else 6, 0, 0], w)
  {
    hide Step, Run;
    if n == 0 {
      LoopStarts(m, last, LOOP_OPT, t, w);
    } else {
      LoopOptRuns(m, last, t, w, n - 1);
      var x: bv64 := if n == 1 then 5 else 6;
      LoopOptMoves(m, last, x, w);
      Round(m, last, LOOP_OPT, x, 6, w);
      ThreeMore(m, last, LOOP_OPT, Running(0, [t, 0, 0], w), 1 + 3 * (n - 1));
    }
  }

  lemma TwoRounds()
    ensures Add64(Add64(5, 1), 1) == 7
  {
  }

  /** After n rounds the counter holds five plus n; optimized, it never gets past six. */
  lemma LoopBroken<W>(m: Machine<W>, t: bv64, w: W, n: nat)
    ensures AllFilled(LOOP) && Run(m, COUNTER, LOOP, Running(0, [t, 0, 0], w), 1 + 3 * n) == Running(1, [Counted(n), 0, 0], w)
    ensures var last := After(COUNTER, map[], LOOP, 4).temps;
      Run(m, last, Optimized(COUNTER, map[], LOOP), Running(0, [t, 0, 0], w), 1 + 3 * n) == Running(1, [if n == 0 then 5 else 6, 0, 0], w)
    ensures Counted(2) == 7
  {
    hide Step, Optimized, Run, After, Add64;
    LoopRewritten();
    LoopRuns(m, t, w, n);
    LoopOptRuns(m, After(COUNTER, map[], LOOP, 4).temps, t, w, n);
    TwoRounds();
    assert Counted(1) == Add64(Counted(0), 1) && Counted(2) == Add64(Counted(1), 1);
  }
}
