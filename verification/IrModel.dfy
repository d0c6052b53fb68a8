/**
  * The intermediate representation of a translation block and what it does: temporaries,
  * operations, and runs of an operation list, step by step, from any state.
  */
module IrModel {
  import opened IrBits

  datatype Kind = Ebb | Tb | Global | Fixed | Const

  datatype Temp = Temp(ty: Type, kind: Kind, val: bv64)

  /** The operations the optimizer looks into, and Other for the rest with their argument counts. */
  datatype Opcode =
    | Mov | Unary(u: UnOp) | Convert(x: ExtOp) | Binary(b: BinOp) | BrCond
    | SetLabel | Br | ExitTb | GotoTb | GotoPtr | Call
    | Nop | InsnStart | Discard
    | Other(id: nat, oargs: nat, iargs: nat, cargs: nat, skipped: bool)

  datatype Op = Op(opc: Opcode, ty: Type, args: seq<nat>, nargs: nat)

  function Oargs(c: Opcode): nat {
    match c
    case Mov => 1
    case Unary(_) => 1
    case Convert(_) => 1
    case Binary(_) => 1
    case Call => 1
    case Discard => 1
    case Other(_, o, _, _, _) => o
    case _ => 0
  }

  function Iargs(c: Opcode): nat {
    match c
    case Mov => 1
    case Unary(_) => 1
    case Convert(_) => 1
    case Binary(_) => 2
    case BrCond => 2
    case GotoPtr => 1
    case Call => 6
    case Other(_, _, i, _, _) => i
    case _ => 0
  }

  function Cargs(c: Opcode): nat {
    match c
    case BrCond => 2
    case SetLabel => 1
    case Br => 1
    case ExitTb => 1
    case GotoTb => 1
    case Call => 2
    case InsnStart => 2
    case Other(_, _, _, n, _) => n
    case _ => 0
  }

  /** Every operation holds enough argument slots for its opcode, and for a rewritten one. */
  predicate Filled(op: Op) {
    |op.args| >= Oargs(op.opc) + Iargs(op.opc) + Cargs(op.opc) && |op.args| >= 2
  }

  predicate AllFilled(ops: seq<Op>) {
    forall i | 0 <= i < |ops| :: Filled(ops[i])
  }

  function CondOf(carg: nat): Cond {
    match carg
    case 1 => Always
    case 8 => Eq
    case 9 => Ne
    case 10 => Lt
    case 11 => Ge
    case 12 => Le
    case 13 => Gt
    case 14 => Ltu
    case 15 => Geu
    case 16 => Leu
    case 17 => Gtu
    case 18 => TstEq
    case 19 => TstNe
    case _ => Never
  }

  // ---- What a run does ----

  /** The values of the temporaries that are not constants. */
  type State = seq<bv64>

  function Read(temps: seq<Temp>, s: State, t: nat): bv64 {
    if t < |temps| && temps[t].kind == Const then Trunc(temps[t].ty, temps[t].val)
    else if t < |s| then s[t]
    else 0
  }

  function Write(temps: seq<Temp>, s: State, t: nat, v: bv64): (r: State)
    ensures |r| == |s|
  {
    if t < |s| && t < |temps| then s[t := Trunc(temps[t].ty, v)] else s
  }

  datatype Exit = Code(val: nat) | Pointer(addr: bv64) | Fault(id: nat) | FellOff

  datatype Flow = Next | Goto(to: nat) | Leave(exit: Exit)

  datatype Outcome<W> = Outcome(outs: seq<bv64>, globals: seq<bv64>, world: W, flow: Flow)

  /**
    * What the operations outside the optimizer's reach do: any function of the operation,
    * its constant arguments, its input values, the whole state and the world (memory, devices).
    */
  type Machine<!W> = (Opcode, Type, seq<nat>, seq<bv64>, State, W) -> Outcome<W>

  datatype Effect<W> = Effect(state: State, world: W, flow: Flow)

  function Inputs(temps: seq<Temp>, s: State, op: Op): (r: seq<bv64>)
    requires Filled(op)
    ensures |r| == Iargs(op.opc)
  {
    seq(Iargs(op.opc), i requires 0 <= i < Iargs(op.opc) => Read(temps, s, op.args[Oargs(op.opc) + i]))
  }

  function Constants(op: Op): seq<nat>
    requires Filled(op)
  {
    var k := Oargs(op.opc) + Iargs(op.opc);
    op.args[k..k + Cargs(op.opc)]
  }

  function WriteOuts(temps: seq<Temp>, s: State, args: seq<nat>, outs: seq<bv64>): (r: State)
    ensures |r| == |s|
  {
    if args == [] then s
    else
      var last := |args| - 1;
      Write(temps, WriteOuts(temps, s, args[..last], outs), args[last], if last < |outs| then outs[last] else 0)
  }

  /** A helper call may change any global. */
  function Clobber(temps: seq<Temp>, s: State, globals: seq<bv64>): (r: State)
    ensures |r| == |s|
  {
    seq(|s|, t requires 0 <= t < |s| =>
      if t < |temps| && temps[t].kind == Global && t < |globals| then Trunc(temps[t].ty, globals[t]) else s[t])
  }

  function Execute<W>(m: Machine<W>, temps: seq<Temp>, op: Op, s: State, w: W): (e: Effect<W>)
    requires Filled(op)
    ensures |e.state| == |s|
  {
    var a := op.args;
    match op.opc
    case Mov => Effect(Write(temps, s, a[0], Read(temps, s, a[1])), w, Next)
    case Unary(u) => Effect(Write(temps, s, a[0], NativeUnary(u, op.ty, Read(temps, s, a[1]))), w, Next)
    case Convert(x) => Effect(Write(temps, s, a[0], NativeExt(x, Read(temps, s, a[1]))), w, Next)
    case Binary(b) => Effect(Write(temps, s, a[0], NativeBinary(b, op.ty, Read(temps, s, a[1]), Read(temps, s, a[2]))), w, Next)
    case BrCond =>
      Effect(s, w, if Compare(CondOf(a[2]), op.ty, Read(temps, s, a[0]), Read(temps, s, a[1])) then Goto(a[3]) else Next)
    case Br => Effect(s, w, Goto(a[0]))
    case ExitTb => Effect(s, w, Leave(Code(a[0])))
    case GotoPtr => Effect(s, w, Leave(Pointer(Read(temps, s, a[0]))))
    case SetLabel => Effect(s, w, Next)
    case Nop => Effect(s, w, Next)
    case InsnStart => Effect(s, w, Next)
    case Call =>
      var r := m(op.opc, op.ty, Constants(op), Inputs(temps, s, op), s, w);
      Effect(WriteOuts(temps, Clobber(temps, s, r.globals), a[..1], r.outs), r.world, r.flow)
    case _ =>
      var r := m(op.opc, op.ty, Constants(op), Inputs(temps, s, op), s, w);
      Effect(WriteOuts(temps, s, a[..Oargs(op.opc)], r.outs), r.world, r.flow)
  }

  /** Where a label is set, or past the end. */
  function Target(ops: seq<Op>, l: nat): (k: nat)
    requires AllFilled(ops)
    ensures k <= |ops|
    ensures k < |ops| ==> ops[k].opc == SetLabel
  {
    if ops == [] then 0
    else if ops[0].opc == SetLabel && ops[0].args[0] == l then 0
    else 1 + Target(ops[1..], l)
  }

  datatype Config<W> = Running(pc: nat, state: State, world: W) | Done(exit: Exit, state: State, world: W)

  function Step<W>(m: Machine<W>, temps: seq<Temp>, ops: seq<Op>, c: Config<W>): Config<W>
    requires AllFilled(ops)
  {
    match c
    case Done(_, _, _) => c
    case Running(pc, s, w) =>
      if pc >= |ops| then Done(FellOff, s, w)
      else
        var e := Execute(m, temps, ops[pc], s, w);
        match e.flow
        case Next => Running(pc + 1, e.state, e.world)
        case Goto(l) => Running(Target(ops, l), e.state, e.world)
        case Leave(x) => Done(x, e.state, e.world)
  }

  function Run<W>(m: Machine<W>, temps: seq<Temp>, ops: seq<Op>, c: Config<W>, n: nat): Config<W>
    requires AllFilled(ops)
  {
    if n == 0 then c else Step(m, temps, ops, Run(m, temps, ops, c, n - 1))
  }
}
