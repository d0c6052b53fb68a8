/**
  * The integer operations of the intermediate representation and what they mean: the native
  * arithmetic of the machine. A thirty-two bit operation works on the low halves of its
  * operands and leaves zeros above its result.
  */
module IrBits {
  datatype Type = I32 | I64

  datatype UnOp = Neg | Not

  datatype ExtOp = ExtI32I64 | ExtUI32I64 | ExtrlI64I32 | ExtrhI64I32

  datatype BinOp = Add | Sub | Mul | And | Or | Xor | AndC | Shl | Shr | Sar | RotL | RotR

  datatype Cond = Never | Always | Eq | Ne | Lt | Ge | Le | Gt | Ltu | Geu | Leu | Gtu | TstEq | TstNe

  /** The types a conversion reads and writes. */
  function ExtFrom(x: ExtOp): Type { if x == ExtI32I64 || x == ExtUI32I64 then I32 else I64 }

  function ExtTo(x: ExtOp): Type { if x == ExtI32I64 || x == ExtUI32I64 then I64 else I32 }

  predicate IsSigned(c: Cond) { c == Lt || c == Ge || c == Le || c == Gt }

  /** What a temporary keeps of a word: the low half if it is a thirty-two bit one. */
  function Trunc(ty: Type, a: bv64): bv64 {
    match ty
    case I32 => a & 0xFFFF_FFFF
    case I64 => a
  }

  // ---- Signed shifts and rotations of a word ----

  function ShiftSigned32(v: bv32, n: bv64): bv32
    requires n < 32
  {
    if v < 0x8000_0000 then v >> n else !(!v >> n)
  }

  function RotateLeft32(v: bv32, n: bv64): bv32
    requires n < 32
  {
    (v << n) | (v >> (32 - n))
  }

  function RotateRight32(v: bv32, n: bv64): bv32
    requires n < 32
  {
    (v >> n) | (v << (32 - n))
  }

  function ShiftSigned64(v: bv64, n: bv64): bv64
    requires n < 64
  {
    if v < 0x8000_0000_0000_0000 then v >> n else !(!v >> n)
  }

  function RotateLeft64(v: bv64, n: bv64): bv64
    requires n < 64
  {
    (v << n) | (v >> (64 - n))
  }

  function RotateRight64(v: bv64, n: bv64): bv64
    requires n < 64
  {
    (v >> n) | (v << (64 - n))
  }

  // ---- Thirty-two bit arithmetic on the low halves ----

  function Neg32(x: bv64): bv64 { (0 - (x & 0xFFFF_FFFF) as bv32) as bv64 }
  function Not32(x: bv64): bv64 { !((x & 0xFFFF_FFFF) as bv32) as bv64 }
  function Add32(x: bv64, y: bv64): bv64 { ((x & 0xFFFF_FFFF) as bv32 + (y & 0xFFFF_FFFF) as bv32) as bv64 }
  function Sub32(x: bv64, y: bv64): bv64 { ((x & 0xFFFF_FFFF) as bv32 - (y & 0xFFFF_FFFF) as bv32) as bv64 }
  function Mul32(x: bv64, y: bv64): bv64 { ((x & 0xFFFF_FFFF) as bv32 * (y & 0xFFFF_FFFF) as bv32) as bv64 }
  function And32(x: bv64, y: bv64): bv64 { ((x & 0xFFFF_FFFF) as bv32 & (y & 0xFFFF_FFFF) as bv32) as bv64 }
  function Or32(x: bv64, y: bv64): bv64 { ((x & 0xFFFF_FFFF) as bv32 | (y & 0xFFFF_FFFF) as bv32) as bv64 }
  function Xor32(x: bv64, y: bv64): bv64 { ((x & 0xFFFF_FFFF) as bv32 ^ (y & 0xFFFF_FFFF) as bv32) as bv64 }
  function AndC32(x: bv64, y: bv64): bv64 { ((x & 0xFFFF_FFFF) as bv32 & !((y & 0xFFFF_FFFF) as bv32)) as bv64 }

  /** Shift and rotation counts are taken modulo the width. */
  function Count32(y: bv64): (n: bv64)
    ensures n < 32
  {
    y & 31
  }

  function Shl32(x: bv64, n: bv64): bv64
    requires n < 32
  {
    ((x & 0xFFFF_FFFF) as bv32 << n) as bv64
  }

  function Shr32(x: bv64, n: bv64): bv64
    requires n < 32
  {
    ((x & 0xFFFF_FFFF) as bv32 >> n) as bv64
  }

  function Sar32(x: bv64, n: bv64): bv64
    requires n < 32
  {
    ShiftSigned32((x & 0xFFFF_FFFF) as bv32, n) as bv64
  }

  function RotL32(x: bv64, n: bv64): bv64
    requires n < 32
  {
    RotateLeft32((x & 0xFFFF_FFFF) as bv32, n) as bv64
  }

  function RotR32(x: bv64, n: bv64): bv64
    requires n < 32
  {
    RotateRight32((x & 0xFFFF_FFFF) as bv32, n) as bv64
  }

  function Binary32(b: BinOp, x: bv64, y: bv64): bv64 {
    match b
    case Add => Add32(x, y)
    case Sub => Sub32(x, y)
    case Mul => Mul32(x, y)
    case And => And32(x, y)
    case Or => Or32(x, y)
    case Xor => Xor32(x, y)
    case AndC => AndC32(x, y)
    case Shl => Shl32(x, Count32(y))
    case Shr => Shr32(x, Count32(y))
    case Sar => Sar32(x, Count32(y))
    case RotL => RotL32(x, Count32(y))
    case RotR => RotR32(x, Count32(y))
  }

  // ---- Sixty-four bit arithmetic ----

  function Neg64(x: bv64): bv64 { 0 - x }
  function Not64(x: bv64): bv64 { !x }
  function Add64(x: bv64, y: bv64): bv64 { x + y }
  function Sub64(x: bv64, y: bv64): bv64 { x - y }
  function Mul64(x: bv64, y: bv64): bv64 { x * y }
  function And64(x: bv64, y: bv64): bv64 { x & y }
  function Or64(x: bv64, y: bv64): bv64 { x | y }
  function Xor64(x: bv64, y: bv64): bv64 { x ^ y }
  function AndC64(x: bv64, y: bv64): bv64 { x & !y }

  function Count64(y: bv64): (n: bv64)
    ensures n < 64
  {
    y & 63
  }

  function Shl64(x: bv64, n: bv64): bv64
    requires n < 64
  {
    x << n
  }

  function Shr64(x: bv64, n: bv64): bv64
    requires n < 64
  {
    x >> n
  }

  function Binary64(b: BinOp, x: bv64, y: bv64): bv64 {
    match b
    case Add => Add64(x, y)
    case Sub => Sub64(x, y)
    case Mul => Mul64(x, y)
    case And => And64(x, y)
    case Or => Or64(x, y)
    case Xor => Xor64(x, y)
    case AndC => AndC64(x, y)
    case Shl => Shl64(x, Count64(y))
    case Shr => Shr64(x, Count64(y))
    case Sar => ShiftSigned64(x, Count64(y))
    case RotL => RotateLeft64(x, Count64(y))
    case RotR => RotateRight64(x, Count64(y))
  }

  // ---- The operations on temporaries ----

  function NativeUnary(u: UnOp, ty: Type, a: bv64): bv64 {
    match ty
    case I32 => if u == Neg then Neg32(a) else Not32(a)
    case I64 => if u == Neg then Neg64(a) else Not64(a)
  }

  function WideSigned(v: bv32): bv64 { if v < 0x8000_0000 then v as bv64 else 0xFFFF_FFFF_0000_0000 | v as bv64 }

  function LowSigned(a: bv64): bv64 { WideSigned((a & 0xFFFF_FFFF) as bv32) }
  function LowHalf(a: bv64): bv64 { (a & 0xFFFF_FFFF) as bv32 as bv64 }
  function HighHalf(a: bv64): bv64 { (a >> 32) as bv32 as bv64 }

  function NativeExt(x: ExtOp, a: bv64): bv64 {
    match x
    case ExtI32I64 => LowSigned(a)
    case ExtUI32I64 => LowHalf(a)
    case ExtrlI64I32 => LowHalf(a)
    case ExtrhI64I32 => HighHalf(a)
  }

  function NativeBinary(b: BinOp, ty: Type, x: bv64, y: bv64): bv64 {
    match ty
    case I32 => Binary32(b, x, y)
    case I64 => Binary64(b, x, y)
  }

  // ---- Comparisons ----

  predicate Same32(x: bv64, y: bv64) { (x & 0xFFFF_FFFF) as bv32 == (y & 0xFFFF_FFFF) as bv32 }
  predicate Below32(x: bv64, y: bv64) { ((x & 0xFFFF_FFFF) as bv32) < ((y & 0xFFFF_FFFF) as bv32) }
  predicate Less32(x: bv64, y: bv64) { ((x & 0xFFFF_FFFF) as bv32) ^ 0x8000_0000 < ((y & 0xFFFF_FFFF) as bv32) ^ 0x8000_0000 }
  predicate Apart32(x: bv64, y: bv64) { ((x & 0xFFFF_FFFF) as bv32) & ((y & 0xFFFF_FFFF) as bv32) == 0 }
  predicate Below64(x: bv64, y: bv64) { x < y }
  predicate Less64(x: bv64, y: bv64) { x ^ 0x8000_0000_0000_0000 < y ^ 0x8000_0000_0000_0000 }
  predicate Apart64(x: bv64, y: bv64) { x & y == 0 }

  predicate Compare32(c: Cond, x: bv64, y: bv64) {
    match c
    case Always => true
    case Never => false
    case Eq => Same32(x, y)
    case Ne => !Same32(x, y)
    case Lt => Less32(x, y)
    case Ge => !Less32(x, y)
    case Le => !Less32(y, x)
    case Gt => Less32(y, x)
    case Ltu => Below32(x, y)
    case Geu => !Below32(x, y)
    case Leu => !Below32(y, x)
    case Gtu => Below32(y, x)
    case TstEq => Apart32(x, y)
    case TstNe => !Apart32(x, y)
  }

  predicate Compare64(c: Cond, x: bv64, y: bv64) {
    match c
    case Always => true
    case Never => false
    case Eq => x == y
    case Ne => x != y
    case Lt => Less64(x, y)
    case Ge => !Less64(x, y)
    case Le => !Less64(y, x)
    case Gt => Less64(y, x)
    case Ltu => Below64(x, y)
    case Geu => !Below64(x, y)
    case Leu => !Below64(y, x)
    case Gtu => Below64(y, x)
    case TstEq => Apart64(x, y)
    case TstNe => !Apart64(x, y)
  }

  predicate Compare(c: Cond, ty: Type, x: bv64, y: bv64) {
    match ty
    case I32 => Compare32(c, x, y)
    case I64 => Compare64(c, x, y)
  }
}
