/**
  * How the optimizer evaluates operations on constants: on sixty-four bit words, cut to the
  * operand type with its mask, and with algebraic identities where one operand is unknown.
  */
module IrEval {
  import opened IrBits

  function Mask(ty: Type): bv64 {
    match ty
    case I32 => 0xFFFF_FFFF
    case I64 => 0xFFFF_FFFF_FFFF_FFFF
  }

  // ---- Sixty-four bit results under the thirty-two bit mask ----

  function MaskedNeg(x: bv64): bv64 { (0 - x) & 0xFFFF_FFFF }
  function MaskedNot(x: bv64): bv64 { !x & 0xFFFF_FFFF }
  function MaskedAdd(x: bv64, y: bv64): bv64 { (x + y) & 0xFFFF_FFFF }
  function MaskedSub(x: bv64, y: bv64): bv64 { (x - y) & 0xFFFF_FFFF }
  function MaskedMul(x: bv64, y: bv64): bv64 { (x * y) & 0xFFFF_FFFF }
  function MaskedAnd(x: bv64, y: bv64): bv64 { (x & y) & 0xFFFF_FFFF }
  function MaskedOr(x: bv64, y: bv64): bv64 { (x | y) & 0xFFFF_FFFF }
  function MaskedXor(x: bv64, y: bv64): bv64 { (x ^ y) & 0xFFFF_FFFF }
  function MaskedAndC(x: bv64, y: bv64): bv64 { (x & !y) & 0xFFFF_FFFF }

  function MaskedShl(x: bv64, n: bv64): bv64
    requires n < 32
  {
    (x << n) & 0xFFFF_FFFF
  }

  function MaskedShr(x: bv64, n: bv64): bv64
    requires n < 32
  {
    ((x & 0xFFFF_FFFF) >> n) & 0xFFFF_FFFF
  }

  function MaskedSigned(v: bv32): bv64 { WideSigned(v) & 0xFFFF_FFFF }

  function MaskedUnsigned(v: bv32): bv64 { v as bv64 & 0xFFFF_FFFF }

  // ---- Evaluation ----

  function EvalUnary(u: UnOp, ty: Type, a: bv64): bv64 {
    match ty
    case I32 => if u == Neg then MaskedNeg(a) else MaskedNot(a)
    case I64 => if u == Neg then Neg64(a) else Not64(a)
  }

  function SignExtend(a: bv64): bv64 {
    if a & 0xFFFF_FFFF < 0x8000_0000 then a & 0xFFFF_FFFF else 0xFFFF_FFFF_0000_0000 | (a & 0xFFFF_FFFF)
  }

  function MaskedLow(a: bv64): bv64 { a & 0xFFFF_FFFF }
  function MaskedHigh(a: bv64): bv64 { (a >> 32) & 0xFFFF_FFFF }

  function EvalExt(x: ExtOp, a: bv64): bv64 {
    match x
    case ExtI32I64 => SignExtend(a)
    case ExtUI32I64 => MaskedLow(a)
    case ExtrlI64I32 => MaskedLow(a)
    case ExtrhI64I32 => MaskedHigh(a)
  }

  /** The count as the code takes it: the low half of the operand modulo the width. */
  function EvalCount32(y: bv64): (n: bv64)
    ensures n < 32
  {
    (y & 0xFFFF_FFFF) % 32
  }

  function EvalCount64(y: bv64): (n: bv64)
    ensures n < 64
  {
    (y & 0xFFFF_FFFF) % 64
  }

  function EvalBinary32(b: BinOp, x: bv64, y: bv64): bv64 {
    match b
    case Add => MaskedAdd(x, y)
    case Sub => MaskedSub(x, y)
    case Mul => MaskedMul(x, y)
    case And => MaskedAnd(x, y)
    case Or => MaskedOr(x, y)
    case Xor => MaskedXor(x, y)
    case AndC => MaskedAndC(x, y)
    case Shl => MaskedShl(x, EvalCount32(y))
    case Shr => MaskedShr(x, EvalCount32(y))
    case Sar => MaskedSigned(ShiftSigned32((x & 0xFFFF_FFFF) as bv32, EvalCount32(y)))
    case RotL => MaskedUnsigned(RotateLeft32((x & 0xFFFF_FFFF) as bv32, EvalCount32(y)))
    case RotR => MaskedUnsigned(RotateRight32((x & 0xFFFF_FFFF) as bv32, EvalCount32(y)))
  }

  function EvalBinary64(b: BinOp, x: bv64, y: bv64): bv64 {
    match b
    case Add => Add64(x, y)
    case Sub => Sub64(x, y)
    case Mul => Mul64(x, y)
    case And => And64(x, y)
    case Or => Or64(x, y)
    case Xor => Xor64(x, y)
    case AndC => AndC64(x, y)
    case Shl => Shl64(x, EvalCount64(y))
    case Shr => Shr64(x, EvalCount64(y))
    case Sar => ShiftSigned64(x, EvalCount64(y))
    case RotL => RotateLeft64(x, EvalCount64(y))
    case RotR => RotateRight64(x, EvalCount64(y))
  }

  function EvalBinary(b: BinOp, x: bv64, y: bv64, ty: Type): bv64 {
    match ty
    case I32 => EvalBinary32(b, x, y)
    case I64 => EvalBinary64(b, x, y)
  }

  // ---- Comparisons of constants: masked, then compared as sixty-four bit words ----

  predicate MaskedSame(x: bv64, y: bv64) { x & 0xFFFF_FFFF == y & 0xFFFF_FFFF }
  predicate MaskedBelow(x: bv64, y: bv64) { x & 0xFFFF_FFFF < y & 0xFFFF_FFFF }
  predicate MaskedApart(x: bv64, y: bv64) { (x & 0xFFFF_FFFF) & (y & 0xFFFF_FFFF) == 0 }
  predicate MaskedLess(x: bv64, y: bv64) {
    (x & 0xFFFF_FFFF) ^ 0x8000_0000_0000_0000 < (y & 0xFFFF_FFFF) ^ 0x8000_0000_0000_0000
  }

  predicate EvalCond32(c: Cond, x: bv64, y: bv64) {
    match c
    case Always => true
    case Never => false
    case Eq => MaskedSame(x, y)
    case Ne => !MaskedSame(x, y)
    case Lt => MaskedLess(x, y)
    case Ge => !MaskedLess(x, y)
    case Le => !MaskedLess(y, x)
    case Gt => MaskedLess(y, x)
    case Ltu => MaskedBelow(x, y)
    case Geu => !MaskedBelow(x, y)
    case Leu => !MaskedBelow(y, x)
    case Gtu => MaskedBelow(y, x)
    case TstEq => MaskedApart(x, y)
    case TstNe => !MaskedApart(x, y)
  }

  predicate EvalCond(x: bv64, y: bv64, c: Cond, ty: Type) {
    match ty
    case I32 => EvalCond32(c, x, y)
    case I64 => Compare64(c, x, y)
  }

  predicate Negative32(a: bv64) { a & 0x8000_0000 != 0 }

  // ---- Algebraic simplification with one constant operand ----

  datatype Operand = Known(val: bv64) | Unknown

  datatype Simpler = CopyLeft | CopyRight | Constant(val: bv64) | NegateRight | Keep

  function SimplifyRight(b: BinOp, ty: Type, k: bv64): Simpler {
    if !(b.Mul? || b.And? || b.AndC?) && k == 0 then CopyLeft
    else if (b.Mul? || b.And?) && k == 0 then Constant(0)
    else if b.Mul? && k == 1 then CopyLeft
    else if b.And? && k == Mask(ty) then CopyLeft
    else if b.Or? && k == Mask(ty) then Constant(Mask(ty))
    else if b.AndC? && k == Mask(ty) then Constant(0)
    else Keep
  }

  function SimplifyLeft(b: BinOp, ty: Type, k: bv64): Simpler {
    if b.Add? && k == 0 then CopyRight
    else if b.Sub? && k == 0 then NegateRight
    else if (b.Mul? || b.And?) && k == 0 then Constant(0)
    else if b.Or? && k == Mask(ty) then Constant(Mask(ty))
    else Keep
  }

  function Simplify(b: BinOp, ty: Type, x: Operand, y: Operand): Simpler {
    var right := if y.Known? then SimplifyRight(b, ty, Trunc(ty, y.val)) else Keep;
    if right != Keep then right
    else if x.Known? then SimplifyLeft(b, ty, Trunc(ty, x.val))
    else Keep
  }
}
