/**
  * The foldings against the meaning of the operations: evaluating on masked sixty-four bit
  * words is native arithmetic, and the algebraic simplifications keep the value whatever the
  * unknown operand is.
  */
module IrFold {
  import opened IrBits
  import opened IrEval

  // ---- Evaluation is native arithmetic ----

  lemma NegMasked(x: bv64)
    ensures MaskedNeg(x) == Neg32(x)
  {
  }

  lemma NotMasked(x: bv64)
    ensures MaskedNot(x) == Not32(x)
  {
  }

  lemma AddMasked(x: bv64, y: bv64)
    ensures MaskedAdd(x, y) == Add32(x, y)
  {
  }

  lemma SubMasked(x: bv64, y: bv64)
    ensures MaskedSub(x, y) == Sub32(x, y)
  {
  }

  lemma MulMasked(x: bv64, y: bv64)
    ensures MaskedMul(x, y) == Mul32(x, y)
  {
  }

  lemma AndMasked(x: bv64, y: bv64)
    ensures MaskedAnd(x, y) == And32(x, y)
  {
  }

  lemma OrMasked(x: bv64, y: bv64)
    ensures MaskedOr(x, y) == Or32(x, y)
  {
  }

  lemma XorMasked(x: bv64, y: bv64)
    ensures MaskedXor(x, y) == Xor32(x, y)
  {
  }

  lemma AndCMasked(x: bv64, y: bv64)
    ensures MaskedAndC(x, y) == AndC32(x, y)
  {
  }

  lemma ShlMasked(x: bv64, n: bv64)
    requires n < 32
    ensures MaskedShl(x, n) == Shl32(x, n)
  {
  }

  lemma ShrMasked(x: bv64, n: bv64)
    requires n < 32
    ensures MaskedShr(x, n) == Shr32(x, n)
  {
    hide MaskedShr, Shr32;
    ShrMask(x, n);
    ShrLow(x, n);
  }

  lemma ShrMask(x: bv64, n: bv64)
    requires n < 32
    ensures MaskedShr(x, n) == (x & 0xFFFF_FFFF) >> n
  {
  }

  lemma ShrLow(x: bv64, n: bv64)
    requires n < 32
    ensures Shr32(x, n) == (x & 0xFFFF_FFFF) >> n
  {
  }

  lemma UnsignedMasked(v: bv32)
    ensures MaskedUnsigned(v) == v as bv64
  {
  }

  lemma SignedMaskedPlus(v: bv32)
    requires v < 0x8000_0000
    ensures MaskedSigned(v) == v as bv64
  {
  }

  lemma SignedMaskedMinus(v: bv32)
    requires v >= 0x8000_0000
    ensures MaskedSigned(v) == v as bv64
  {
  }

  lemma SignedMasked(v: bv32)
    ensures MaskedSigned(v) == v as bv64
  {
    hide MaskedSigned;
    if v < 0x8000_0000 { SignedMaskedPlus(v); } else { SignedMaskedMinus(v); }
  }

  lemma CountsAgree32(y: bv64)
    ensures EvalCount32(y) == Count32(y)
  {
  }

  lemma CountsAgree64(y: bv64)
    ensures EvalCount64(y) == Count64(y)
  {
  }

  lemma SarMasked(x: bv64, n: bv64)
    requires n < 32
    ensures MaskedSigned(ShiftSigned32((x & 0xFFFF_FFFF) as bv32, n)) == Sar32(x, n)
  {
    hide MaskedSigned, ShiftSigned32;
    SignedMasked(ShiftSigned32((x & 0xFFFF_FFFF) as bv32, n));
  }

  lemma RotLMasked(x: bv64, n: bv64)
    requires n < 32
    ensures MaskedUnsigned(RotateLeft32((x & 0xFFFF_FFFF) as bv32, n)) == RotL32(x, n)
  {
    hide MaskedUnsigned, RotateLeft32;
    UnsignedMasked(RotateLeft32((x & 0xFFFF_FFFF) as bv32, n));
  }

  lemma RotRMasked(x: bv64, n: bv64)
    requires n < 32
    ensures MaskedUnsigned(RotateRight32((x & 0xFFFF_FFFF) as bv32, n)) == RotR32(x, n)
  {
    hide MaskedUnsigned, RotateRight32;
    UnsignedMasked(RotateRight32((x & 0xFFFF_FFFF) as bv32, n));
  }

  lemma MaskedNative(b: BinOp, x: bv64, y: bv64)
    ensures EvalBinary32(b, x, y) == Binary32(b, x, y)
  {
    hide MaskedAdd, MaskedSub, MaskedMul, MaskedAnd, MaskedOr, MaskedXor, MaskedAndC, MaskedShl, MaskedShr, MaskedSigned, MaskedUnsigned,
         Add32, Sub32, Mul32, And32, Or32, Xor32, AndC32, Shl32, Shr32, Sar32, RotL32, RotR32, Count32, EvalCount32,
         ShiftSigned32, RotateLeft32, RotateRight32;
    CountsAgree32(y);
    var n := Count32(y);
    match b
    case Add => AddMasked(x, y);
    case Sub => SubMasked(x, y);
    case Mul => MulMasked(x, y);
    case And => AndMasked(x, y);
    case Or => OrMasked(x, y);
    case Xor => XorMasked(x, y);
    case AndC => AndCMasked(x, y);
    case Shl => ShlMasked(x, n);
    case Shr => ShrMasked(x, n);
    case Sar => SarMasked(x, n);
    case RotL => RotLMasked(x, n);
    case RotR => RotRMasked(x, n);
  }

  /** Evaluating a binary operation on constants is the operation. */
  lemma BinaryNative(b: BinOp, ty: Type, x: bv64, y: bv64)
    ensures EvalBinary(b, x, y, ty) == NativeBinary(b, ty, x, y)
  {
    hide EvalBinary32, Binary32, Add64, Sub64, Mul64, And64, Or64, Xor64, AndC64, Shl64, Shr64, ShiftSigned64, RotateLeft64, RotateRight64,
         Count64, EvalCount64;
    match ty
    case I32 => MaskedNative(b, x, y);
    case I64 => CountsAgree64(y);
  }

  lemma NegOfLow(x: bv64)
    ensures Neg32(x & 0xFFFF_FFFF) == Neg32(x)
  {
  }

  lemma NotOfLow(x: bv64)
    ensures Not32(x & 0xFFFF_FFFF) == Not32(x)
  {
  }

  /** Evaluating a unary operation is the operation, also where bits above the operand's type are set. */
  lemma UnaryNative(u: UnOp, ty: Type, a: bv64)
    ensures EvalUnary(u, ty, a) == NativeUnary(u, ty, Trunc(ty, a))
  {
    hide MaskedNeg, MaskedNot, Neg32, Not32, Neg64, Not64;
    NegMasked(a);
    NotMasked(a);
    NegOfLow(a);
    NotOfLow(a);
  }

  lemma SignPlus(a: bv64)
    requires a & 0xFFFF_FFFF < 0x8000_0000
    ensures SignExtend(a) == WideSigned((a & 0xFFFF_FFFF) as bv32)
  {
  }

  lemma SignMinus(a: bv64)
    requires a & 0xFFFF_FFFF >= 0x8000_0000
    ensures SignExtend(a) == WideSigned((a & 0xFFFF_FFFF) as bv32)
  {
  }

  lemma SignSame(a: bv64)
    ensures SignExtend(a) == LowSigned(a)
  {
    hide SignExtend, WideSigned;
    if a & 0xFFFF_FFFF < 0x8000_0000 { SignPlus(a); } else { SignMinus(a); }
  }

  lemma LowSame(a: bv64)
    ensures MaskedLow(a) == LowHalf(a)
  {
  }

  lemma HighSame(a: bv64)
    ensures MaskedHigh(a) == HighHalf(a)
  {
  }

  lemma SignedOfLow(a: bv64)
    ensures LowSigned(a & 0xFFFF_FFFF) == LowSigned(a)
  {
    hide WideSigned;
  }

  lemma HalfOfLow(a: bv64)
    ensures LowHalf(a & 0xFFFF_FFFF) == LowHalf(a)
  {
  }

  /** The same for the width conversions. */
  lemma ExtNative(x: ExtOp, a: bv64)
    ensures EvalExt(x, a) == NativeExt(x, Trunc(ExtFrom(x), a))
  {
    hide SignExtend, MaskedLow, MaskedHigh, LowSigned, LowHalf, HighHalf;
    SignSame(a);
    LowSame(a);
    HighSame(a);
    SignedOfLow(a);
    HalfOfLow(a);
  }

  // ---- Comparisons ----

  lemma SameMasked(x: bv64, y: bv64)
    ensures MaskedSame(x, y) == Same32(x, y)
  {
  }

  lemma BelowMasked(x: bv64, y: bv64)
    ensures MaskedBelow(x, y) == Below32(x, y)
  {
  }

  lemma ApartMasked(x: bv64, y: bv64)
    ensures MaskedApart(x, y) == Apart32(x, y)
  {
  }

  lemma LessPlus(x: bv64, y: bv64)
    requires !Negative32(x) && !Negative32(y)
    ensures MaskedLess(x, y) == Less32(x, y)
  {
  }

  lemma LessMinus(x: bv64, y: bv64)
    requires Negative32(x) && Negative32(y)
    ensures MaskedLess(x, y) == Less32(x, y)
  {
  }

  lemma SignsDecide(x: bv64, y: bv64)
    requires !Negative32(x) && Negative32(y)
    ensures MaskedLess(x, y) && !Less32(x, y)
    ensures Less32(y, x) && !MaskedLess(y, x)
  {
  }

  lemma LessExact(x: bv64, y: bv64)
    ensures MaskedLess(x, y) == Less32(x, y) <==> Negative32(x) == Negative32(y)
  {
    hide MaskedLess, Less32, Negative32;
    if Negative32(x) == Negative32(y) {
      if Negative32(x) { LessMinus(x, y); } else { LessPlus(x, y); }
    } else if Negative32(x) {
      SignsDecide(y, x);
    } else {
      SignsDecide(x, y);
    }
  }

  /** Folding a comparison keeps its meaning exactly when it is not a signed comparison of thirty-two bit words of different sign. */
  lemma CondExact(c: Cond, ty: Type, x: bv64, y: bv64)
    ensures EvalCond(x, y, c, ty) == Compare(c, ty, x, y) <==> !(ty == I32 && IsSigned(c) && Negative32(x) != Negative32(y))
  {
    hide Same32, Below32, Apart32, Less32, MaskedSame, MaskedBelow, MaskedApart, MaskedLess, Compare64, Negative32;
    SameMasked(x, y);
    BelowMasked(x, y);
    BelowMasked(y, x);
    ApartMasked(x, y);
    LessExact(x, y);
    LessExact(y, x);
  }

  lemma SameOfLow(x: bv64, y: bv64)
    ensures Same32(x & 0xFFFF_FFFF, y & 0xFFFF_FFFF) == Same32(x, y)
  {
  }

  lemma BelowOfLow(x: bv64, y: bv64)
    ensures Below32(x & 0xFFFF_FFFF, y & 0xFFFF_FFFF) == Below32(x, y)
  {
  }

  lemma LessOfLow(x: bv64, y: bv64)
    ensures Less32(x & 0xFFFF_FFFF, y & 0xFFFF_FFFF) == Less32(x, y)
  {
  }

  lemma ApartOfLow(x: bv64, y: bv64)
    ensures Apart32(x & 0xFFFF_FFFF, y & 0xFFFF_FFFF) == Apart32(x, y)
  {
  }

  lemma CompareOfTrunc(c: Cond, ty: Type, x: bv64, y: bv64)
    ensures Compare(c, ty, Trunc(ty, x), Trunc(ty, y)) == Compare(c, ty, x, y)
  {
    hide Same32, Below32, Apart32, Less32, Compare64;
    SameOfLow(x, y);
    BelowOfLow(x, y);
    BelowOfLow(y, x);
    ApartOfLow(x, y);
    LessOfLow(x, y);
    LessOfLow(y, x);
  }

  // ---- Simplification ----

  /** What it takes for a simplification of b on the operands x and y to keep its value. */
  predicate Means(r: Simpler, b: BinOp, ty: Type, x: bv64, y: bv64) {
    match r
    case CopyLeft => NativeBinary(b, ty, x, y) == Trunc(ty, x)
    case CopyRight => NativeBinary(b, ty, x, y) == Trunc(ty, y)
    case Constant(v) => NativeBinary(b, ty, x, y) == v
    case NegateRight => NativeBinary(b, ty, x, y) == NativeUnary(Neg, ty, y)
    case Keep => true
  }

  // ---- Operands that decide ----

  lemma ZeroRight32(x: bv64)
    ensures Add32(x, 0) == x & 0xFFFF_FFFF
    ensures Sub32(x, 0) == x & 0xFFFF_FFFF
    ensures Or32(x, 0) == x & 0xFFFF_FFFF
    ensures Xor32(x, 0) == x & 0xFFFF_FFFF
  {
  }

  lemma ZeroRight64(x: bv64)
    ensures Add64(x, 0) == x
    ensures Sub64(x, 0) == x
    ensures Or64(x, 0) == x
    ensures Xor64(x, 0) == x
  {
  }

  lemma Products32(x: bv64)
    ensures Mul32(x, 0) == 0
    ensures And32(x, 0) == 0
    ensures Mul32(0, x) == 0
    ensures And32(0, x) == 0
  {
  }

  lemma Products64(x: bv64)
    ensures Mul64(x, 0) == 0
    ensures And64(x, 0) == 0
    ensures Mul64(0, x) == 0
    ensures And64(0, x) == 0
  {
  }

  lemma OneRight32(x: bv64)
    ensures Mul32(x, 1) == x & 0xFFFF_FFFF
  {
  }

  lemma OneRight64(x: bv64)
    ensures Mul64(x, 1) == x
  {
  }

  lemma OnesRight32(x: bv64)
    ensures And32(x, 0xFFFF_FFFF) == x & 0xFFFF_FFFF
    ensures Or32(x, 0xFFFF_FFFF) == 0xFFFF_FFFF
    ensures AndC32(x, 0xFFFF_FFFF) == 0
  {
  }

  lemma OnesRight64(x: bv64)
    ensures And64(x, 0xFFFF_FFFF_FFFF_FFFF) == x
    ensures Or64(x, 0xFFFF_FFFF_FFFF_FFFF) == 0xFFFF_FFFF_FFFF_FFFF
    ensures AndC64(x, 0xFFFF_FFFF_FFFF_FFFF) == 0
  {
  }

  lemma Left32(x: bv64)
    ensures Add32(0, x) == x & 0xFFFF_FFFF
    ensures Sub32(0, x) == Neg32(x)
    ensures Or32(0xFFFF_FFFF, x) == 0xFFFF_FFFF
  {
  }

  lemma Left64(x: bv64)
    ensures Add64(0, x) == x
    ensures Sub64(0, x) == Neg64(x)
    ensures Or64(0xFFFF_FFFF_FFFF_FFFF, x) == 0xFFFF_FFFF_FFFF_FFFF
  {
  }

  lemma NoCount()
    ensures Count32(0) == 0
    ensures Count64(0) == 0
  {
  }

  lemma Shift32(x: bv64)
    ensures Shl32(x, 0) == x & 0xFFFF_FFFF
    ensures Shr32(x, 0) == x & 0xFFFF_FFFF
  {
  }

  lemma Shift64(x: bv64)
    ensures Shl64(x, 0) == x
    ensures Shr64(x, 0) == x
  {
  }

  lemma Rotate32(v: bv32)
    ensures RotateLeft32(v, 0) == v
    ensures RotateRight32(v, 0) == v
  {
  }

  lemma Rotate64(v: bv64)
    ensures RotateLeft64(v, 0) == v
    ensures RotateRight64(v, 0) == v
  {
  }

  lemma ShiftPlus32(v: bv32)
    requires v < 0x8000_0000
    ensures ShiftSigned32(v, 0) == v
  {
  }

  lemma ShiftMinus32(v: bv32)
    requires v >= 0x8000_0000
    ensures ShiftSigned32(v, 0) == v
  {
  }

  lemma ShiftPlus64(v: bv64)
    requires v < 0x8000_0000_0000_0000
    ensures ShiftSigned64(v, 0) == v
  {
  }

  lemma ShiftMinus64(v: bv64)
    requires v >= 0x8000_0000_0000_0000
    ensures ShiftSigned64(v, 0) == v
  {
  }

  lemma NoShift32(v: bv32)
    ensures ShiftSigned32(v, 0) == v
  {
    hide ShiftSigned32;
    if v < 0x8000_0000 { ShiftPlus32(v); } else { ShiftMinus32(v); }
  }

  lemma NoShift64(v: bv64)
    ensures ShiftSigned64(v, 0) == v
  {
    hide ShiftSigned64;
    if v < 0x8000_0000_0000_0000 { ShiftPlus64(v); } else { ShiftMinus64(v); }
  }

  lemma SarZero(x: bv64)
    ensures Sar32(x, 0) == LowHalf(x)
  {
    hide ShiftSigned32;
    NoShift32((x & 0xFFFF_FFFF) as bv32);
  }

  lemma RotLZero(x: bv64)
    ensures RotL32(x, 0) == LowHalf(x)
  {
    hide RotateLeft32;
    Rotate32((x & 0xFFFF_FFFF) as bv32);
  }

  lemma RotRZero(x: bv64)
    ensures RotR32(x, 0) == LowHalf(x)
  {
    hide RotateRight32;
    Rotate32((x & 0xFFFF_FFFF) as bv32);
  }

  lemma HalfIs(x: bv64)
    ensures LowHalf(x) == Trunc(I32, x)
  {
  }

  lemma Right32(b: BinOp, x: bv64, y: bv64)
    ensures Means(SimplifyRight(b, I32, y), b, I32, x, y)
  {
    hide Add32, Sub32, Mul32, And32, Or32, Xor32, AndC32, Shl32, Shr32, Sar32, RotL32, RotR32, Count32, LowHalf;
    ZeroRight32(x);
    Products32(x);
    OneRight32(x);
    OnesRight32(x);
    NoCount();
    Shift32(x);
    SarZero(x);
    RotLZero(x);
    RotRZero(x);
    HalfIs(x);
  }

  lemma Right64(b: BinOp, x: bv64, y: bv64)
    ensures Means(SimplifyRight(b, I64, y), b, I64, x, y)
  {
    hide Add64, Sub64, Mul64, And64, Or64, Xor64, AndC64, Shl64, Shr64, ShiftSigned64, RotateLeft64, RotateRight64, Count64;
    ZeroRight64(x);
    Products64(x);
    OneRight64(x);
    OnesRight64(x);
    NoCount();
    Shift64(x);
    NoShift64(x);
    Rotate64(x);
  }

  lemma LeftMeans(b: BinOp, ty: Type, x: bv64, y: bv64)
    ensures Means(SimplifyLeft(b, ty, x), b, ty, x, y)
  {
    hide Add32, Sub32, Mul32, And32, Or32, Xor32, AndC32, Shl32, Shr32, Sar32, RotL32, RotR32, Count32, Neg32,
         Add64, Sub64, Mul64, And64, Or64, Xor64, AndC64, Shl64, Shr64, ShiftSigned64, RotateLeft64, RotateRight64, Count64, Neg64;
    Products32(y);
    Products64(y);
    Left32(y);
    Left64(y);
  }

  /** Every simplification keeps the value, whatever the unknown operand is. */
  lemma SimplifyCorrect(b: BinOp, ty: Type, x: bv64, y: bv64, left: Operand, right: Operand)
    requires left.Known? ==> Trunc(ty, left.val) == x
    requires right.Known? ==> Trunc(ty, right.val) == y
    ensures Means(Simplify(b, ty, left, right), b, ty, x, y)
  {
    hide Means, SimplifyLeft, SimplifyRight, Trunc;
    match ty {
      case I32 => Right32(b, x, y);
      case I64 => Right64(b, x, y);
    }
    LeftMeans(b, ty, x, y);
    KeepMeans(b, ty, x, y);
  }

  lemma KeepMeans(b: BinOp, ty: Type, x: bv64, y: bv64)
    ensures Means(Keep, b, ty, x, y)
  {
  }

  lemma Itself32(x: bv64)
    ensures And32(x, x) == x & 0xFFFF_FFFF
    ensures Or32(x, x) == x & 0xFFFF_FFFF
    ensures Xor32(x, x) == 0
    ensures Sub32(x, x) == 0
  {
  }

  lemma Itself64(x: bv64)
    ensures And64(x, x) == x
    ensures Or64(x, x) == x
    ensures Xor64(x, x) == 0
    ensures Sub64(x, x) == 0
  {
  }

  /** A word meets itself: and, or give it back; xor, sub give zero. */
  lemma SameCorrect(b: BinOp, ty: Type, x: bv64)
    ensures b.And? || b.Or? ==> NativeBinary(b, ty, x, x) == Trunc(ty, x)
    ensures b.Xor? || b.Sub? ==> NativeBinary(b, ty, x, x) == 0
  {
    hide And32, Or32, Xor32, Sub32, And64, Or64, Xor64, Sub64;
    Itself32(x);
    Itself64(x);
  }

  lemma TruncTwice(ty: Type, x: bv64)
    ensures Trunc(ty, Trunc(ty, x)) == Trunc(ty, x)
  {
  }
}
