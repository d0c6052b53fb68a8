/**
  * The .tcgir binary format: what a serialized context is, what a reader makes of any
  * bytes, and that reading any concatenation of serialized contexts gives them back.
  */
module TcgirFormat {
  import opened Options
  import opened LittleEndian


  /** A name as its bytes; which bytes are UTF-8 is a parameter. */
  type Name = seq<Octet>

  datatype Temp = Temp(kind: nat, ty: nat, baseType: nat, reg: Option<nat>, val: nat, memBase: Option<nat>, memOffset: int, name: Option<Name>)

  datatype Op = Op(opc: nat, ty: nat, param1: nat, param2: nat, nargs: nat, args: seq<nat>)

  datatype Ctx = Ctx(globals: nat, labels: nat, temps: seq<Temp>, ops: seq<Op>)

  const KINDS := 5
  const TYPES := 6
  const OPCODES := 128
  const BR := 71
  const BR_COND := 72
  const SET_LABEL := 73
  const MAX_OP_ARGS := 10

  const U8 := 0x100
  const U16 := 0x1_0000
  const U32 := 0x1_0000_0000
  const U64 := 0x1_0000_0000_0000_0000
  const NO_REG := 0xFF
  const NO_INDEX := 0xFFFF_FFFF

  const MAGIC: seq<Octet> := [84, 67, 73, 82]
  const VERSION := 1

  // ---- Writing ----

  /** The string table after the names of the first n temporaries are interned. */
  function Table(temps: seq<Temp>, n: nat): seq<Name>
    requires n <= |temps|
  {
    if n == 0 then [] else Interned(Table(temps, n - 1), temps[n - 1].name)
  }

  function Interned(strings: seq<Name>, name: Option<Name>): seq<Name> {
    if name.None? || name.value in strings then strings else strings + [name.value]
  }

  /** The index of a name, once it is in the table. */
  function IndexOf(strings: seq<Name>, name: Name): (i: nat)
    requires name in strings
    ensures i < |strings| && strings[i] == name
  {
    if strings[0] == name then 0 else 1 + IndexOf(strings[1..], name)
  }

  function NameIndex(strings: seq<Name>, name: Option<Name>): nat {
    if name.Some? && name.value in strings then IndexOf(strings, name.value) else NO_INDEX
  }

  /** Two's complement in sixty-four bits. */
  function Wrap(v: int): nat { v % U64 }

  function Unwrap(v: nat): int { if v < U64 / 2 then v else v - U64 }

  function EncodeTemp(t: Temp, index: nat): seq<Octet> {
    Bytes(t.kind, 1) + Bytes(t.ty, 1) + Bytes(t.baseType, 1) + Bytes(if t.reg.Some? then t.reg.value else NO_REG, 1)
    + Bytes(t.val, 8) + Bytes(if t.memBase.Some? then t.memBase.value else NO_INDEX, 4)
    + Bytes(Wrap(t.memOffset), 8) + Bytes(index, 4)
  }

  function EncodeName(s: Name): seq<Octet> { Bytes(|s|, 2) + s }

  function EncodeArgs(args: seq<nat>, n: nat): seq<Octet>
    requires n <= |args|
  {
    if n == 0 then [] else EncodeArgs(args, n - 1) + Bytes(args[n - 1], 4)
  }

  function EncodeOp(op: Op): seq<Octet>
    requires op.nargs <= |op.args|
  {
    Bytes(op.opc, 1) + Bytes(op.ty, 1) + Bytes(op.param1, 1) + Bytes(op.param2, 1) + Bytes(op.nargs, 1) + [0, 0, 0] + EncodeArgs(op.args, op.nargs)
  }

  function Concat(parts: seq<seq<Octet>>): seq<Octet> {
    if parts == [] then [] else Concat(parts[..|parts| - 1]) + parts[|parts| - 1]
  }

  function NameParts(names: seq<Name>): (r: seq<seq<Octet>>)
    ensures |r| == |names|
  {
    seq(|names|, i requires 0 <= i < |names| => EncodeName(names[i]))
  }

  function TempParts(temps: seq<Temp>, strings: seq<Name>): (r: seq<seq<Octet>>)
    ensures |r| == |temps|
  {
    seq(|temps|, i requires 0 <= i < |temps| => EncodeTemp(temps[i], NameIndex(strings, temps[i].name)))
  }

  /** The used arguments have slots. */
  predicate Slots(ops: seq<Op>) { forall i | 0 <= i < |ops| :: ops[i].nargs <= |ops[i].args| }

  function OpParts(ops: seq<Op>): (r: seq<seq<Octet>>)
    requires Slots(ops)
    ensures |r| == |ops|
  {
    seq(|ops|, i requires 0 <= i < |ops| => EncodeOp(ops[i]))
  }

  /** A count and its records. */
  function EncodeList(parts: seq<seq<Octet>>): seq<Octet> { Bytes(|parts|, 4) + Concat(parts) }

  function EncodeHeader(c: Ctx): seq<Octet> {
    MAGIC + Bytes(VERSION, 2) + Bytes(0, 2) + Bytes(c.globals, 4) + Bytes(c.labels, 4) + Bytes(1, 4)
  }

  function EncodeBody(c: Ctx): seq<Octet>
    requires Slots(c.ops)
  {
    var strings := Table(c.temps, |c.temps|);
    EncodeList(NameParts(strings)) + (EncodeList(TempParts(c.temps, strings)) + EncodeList(OpParts(c.ops)))
  }

  /** One context, as serialized. */
  function Encode(c: Ctx): seq<Octet>
    requires Slots(c.ops)
  {
    EncodeHeader(c) + EncodeBody(c)
  }

  // ---- Reading ----

  datatype Parsed<T> = Ok(value: T, rest: seq<Octet>) | Bad

  function ReadBytes(s: seq<Octet>, n: nat): (r: Parsed<seq<Octet>>)
    ensures r.Ok? ==> |r.rest| + n == |s|
  {
    if |s| < n then Bad else Ok(s[..n], s[n..])
  }

  function ReadNumber(s: seq<Octet>, n: nat): (r: Parsed<nat>)
    ensures r.Ok? ==> |r.rest| + n == |s|
  {
    if |s| < n then Bad else Ok(Number(s[..n]), s[n..])
  }

  function ReadName(utf8: Name -> bool, s: seq<Octet>): (r: Parsed<Name>)
    ensures r.Ok? ==> |r.rest| < |s|
  {
    match ReadNumber(s, 2)
    case Bad => Bad
    case Ok(n, s1) =>
      match ReadBytes(s1, n)
      case Bad => Bad
      case Ok(name, s2) => if utf8(name) then Ok(name, s2) else Bad
  }

  /** A temporary's fields; a name index outside the table is fatal. */
  function ReadTemp(strings: seq<Name>, s: seq<Octet>): (r: Parsed<Temp>)
    ensures r.Ok? ==> |r.rest| < |s|
  {
    if |s| < 28 then Bad
    else
      var kind, ty, base, reg := Number(s[0..1]), Number(s[1..2]), Number(s[2..3]), Number(s[3..4]);
      var val, memBase, memOffset, name := Number(s[4..12]), Number(s[12..16]), Number(s[16..24]), Number(s[24..28]);
      if kind >= KINDS || ty >= TYPES || base >= TYPES || (name != NO_INDEX && name >= |strings|) then Bad
      else
        Ok(Temp(kind, ty, base, if reg == NO_REG then None else Some(reg), val, if memBase == NO_INDEX then None else Some(memBase),
                Unwrap(memOffset), if name == NO_INDEX then None else Some(strings[name])), s[28..])
  }

  /** The first n argument words, the other slots zero. */
  function ReadArgs(s: seq<Octet>, n: nat): (r: seq<nat>)
    requires |s| >= 4 * n
    ensures |r| == n
  {
    if n == 0 then [] else ReadArgs(s, n - 1) + [Number(s[4 * (n - 1)..4 * n])]
  }

  function Padded(args: seq<nat>): seq<nat> { if |args| < MAX_OP_ARGS then args + seq(MAX_OP_ARGS - |args|, _ => 0) else args }

  /** At most ten argument words are read, whatever the count says. */
  function ReadOp(s: seq<Octet>): (r: Parsed<Op>)
    ensures r.Ok? ==> |r.rest| < |s|
  {
    if |s| < 8 then Bad
    else
      var opc, ty, p1, p2, nargs := Number(s[0..1]), Number(s[1..2]), Number(s[2..3]), Number(s[3..4]), Number(s[4..5]);
      var n := if nargs < MAX_OP_ARGS then nargs else MAX_OP_ARGS;
      if opc >= OPCODES || ty >= TYPES || |s| < 8 + 4 * n then Bad
      else Ok(Op(opc, ty, p1, p2, nargs, Padded(ReadArgs(s[8..], n))), s[8 + 4 * n..])
  }

  ghost predicate Shrinks<T>(read: seq<Octet> -> Parsed<T>) {
    forall s: seq<Octet> :: read(s).Ok? ==> |read(s).rest| <= |s|
  }

  /** n records, one after another. */
  function ReadMany<T>(read: seq<Octet> -> Parsed<T>, s: seq<Octet>, n: nat): (r: Parsed<seq<T>>)
    requires Shrinks(read)
    ensures r.Ok? ==> |r.rest| <= |s| && |r.value| == n
    decreases n
  {
    if n == 0 then Ok([], s)
    else
      match read(s)
      case Bad => Bad
      case Ok(x, s1) =>
        match ReadMany(read, s1, n - 1)
        case Bad => Bad
        case Ok(xs, s2) => Ok([x] + xs, s2)
  }

  /** A count and that many records. */
  function ReadList<T>(read: seq<Octet> -> Parsed<T>, s: seq<Octet>): (r: Parsed<seq<T>>)
    requires Shrinks(read)
    ensures r.Ok? ==> |r.rest| < |s|
  {
    match ReadNumber(s, 4)
    case Bad => Bad
    case Ok(n, s1) => ReadMany(read, s1, n)
  }

  function NameReader(utf8: Name -> bool): seq<Octet> -> Parsed<Name> { (s: seq<Octet>) => ReadName(utf8, s) }

  function TempReader(strings: seq<Name>): seq<Octet> -> Parsed<Temp> { (s: seq<Octet>) => ReadTemp(strings, s) }

  /** The label an operation names, one more than its index. */
  function LabelBound(op: Op): nat {
    if op.opc == SET_LABEL || op.opc == BR then (if |op.args| > 0 then op.args[0] + 1 else 0)
    else if op.opc == BR_COND then (if |op.args| > 3 then op.args[3] + 1 else 0)
    else 0
  }

  /** As many labels as the operations name. */
  function Labels(ops: seq<Op>): nat {
    if ops == [] then 0
    else
      var l, m := Labels(ops[..|ops| - 1]), LabelBound(ops[|ops| - 1]);
      if m < l then l else m
  }

  function ReadTb(utf8: Name -> bool, globals: nat, s: seq<Octet>): (r: Parsed<Ctx>)
    ensures r.Ok? ==> |r.rest| < |s|
  {
    match ReadList(NameReader(utf8), s)
    case Bad => Bad
    case Ok(strings, s1) =>
      match ReadList(TempReader(strings), s1)
      case Bad => Bad
      case Ok(temps, s2) =>
        match ReadList(ReadOp, s2)
        case Bad => Bad
        case Ok(ops, s3) => Ok(Ctx(globals, Labels(ops), temps, ops), s3)
  }

  function TbReader(utf8: Name -> bool, globals: nat): seq<Octet> -> Parsed<Ctx> { (s: seq<Octet>) => ReadTb(utf8, globals, s) }

  /** Any number of serialized contexts; fewer than four bytes at the end are taken as the end. */
  function Decode(utf8: Name -> bool, s: seq<Octet>): (r: Option<seq<Ctx>>)
    decreases |s|
  {
    if |s| < 4 then Some([])
    else if s[..4] != MAGIC || |s| < 20 || Number(s[4..6]) != VERSION then None
    else
      match ReadMany(TbReader(utf8, Number(s[8..12])), s[20..], Number(s[16..20]))
      case Bad => None
      case Ok(cs, s1) =>
        match Decode(utf8, s1)
        case None => None
        case Some(more) => Some(cs + more)
  }

  // ---- What survives ----

  predicate TempFits(utf8: Name -> bool, t: Temp) {
    && t.kind < KINDS && t.ty < TYPES && t.baseType < TYPES && (t.reg.Some? ==> t.reg.value < U8) && t.val < U64
    && (t.memBase.Some? ==> t.memBase.value < U32) && -U64 / 2 <= t.memOffset < U64 / 2
    && (t.name.Some? ==> |t.name.value| < U16 && utf8(t.name.value))
  }

  predicate OpFits(op: Op) {
    && op.opc < OPCODES && op.ty < TYPES && op.param1 < U8 && op.param2 < U8 && op.nargs <= MAX_OP_ARGS == |op.args|
    && forall i | 0 <= i < |op.args| :: op.args[i] < U32
  }

  /** The contexts the format can hold. */
  predicate Fits(utf8: Name -> bool, c: Ctx) {
    && Slots(c.ops) && c.globals < U32 && c.labels < U32 && |c.temps| < NO_INDEX && |c.ops| < U32
    && (forall i | 0 <= i < |c.temps| :: TempFits(utf8, c.temps[i]))
    && (forall i | 0 <= i < |c.ops| :: OpFits(c.ops[i]))
  }

  /** What reading makes of a temporary: the sentinels of the format mean nothing is there. */
  function KeptTemp(t: Temp): Temp {
    t.(reg := if t.reg == Some(NO_REG) then None else t.reg, memBase := if t.memBase == Some(NO_INDEX) then None else t.memBase)
  }

  /** Only the used argument slots are kept. */
  function KeptOp(op: Op): Op
    requires op.nargs <= |op.args|
  {
    op.(args := Padded(op.args[..op.nargs]))
  }

  function Kept(c: Ctx): Ctx
    requires Slots(c.ops)
  {
    var ops := seq(|c.ops|, i requires 0 <= i < |c.ops| => KeptOp(c.ops[i]));
    Ctx(c.globals, Labels(ops), seq(|c.temps|, i requires 0 <= i < |c.temps| => KeptTemp(c.temps[i])), ops)
  }
}
