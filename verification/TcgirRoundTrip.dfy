/** Reading back what was written, in any concatenation. */
module TcgirRoundTrip {
  import opened Options
  import opened PowersOfTwo
  import opened LittleEndian
  import opened TcgirFormat

  lemma Widths()
    ensures Power(1) == U8 && Power(2) == U16 && Power(4) == U32 && Power(8) == U64
  {
    assert Power(4) == 256 * Power(3) && Power(3) == 256 * Power(2);
    assert Power(8) == 256 * Power(7) && Power(7) == 256 * Power(6) && Power(6) == 256 * Power(5) && Power(5) == 256 * Power(4);
  }

  /** A number that fits its bytes comes back. */
  lemma BytesBack(v: nat, n: nat)
    requires v < Power(n)
    ensures Number(Bytes(v, n)) == v
  {
    BytesRoundTrip(v, n);
    SmallMod(v, Power(n));
  }

  ghost predicate ReadsBack<T>(read: seq<Octet> -> Parsed<T>, part: seq<Octet>, value: T) {
    forall rest: seq<Octet> :: read(part + rest) == Ok(value, rest)
  }

  lemma ConcatHead(parts: seq<seq<Octet>>)
    requires parts != []
    ensures Concat(parts) == parts[0] + Concat(parts[1..])
  {
    if |parts| > 1 {
      var last := |parts| - 1;
      ConcatHead(parts[..last]);
      assert parts[..last][1..] == parts[1..][..last - 1];
      assert parts[..last][0] == parts[0] && parts[1..][last - 1] == parts[last];
      assert Concat(parts[1..]) == Concat(parts[1..][..last - 1]) + parts[last];
    }
  }

  /** Records that read back one by one read back as a run. */
  lemma {:induction false} ManyBack<T(!new)>(read: seq<Octet> -> Parsed<T>, parts: seq<seq<Octet>>, values: seq<T>, tail: seq<Octet>)
    requires Shrinks(read) && |parts| == |values|
    requires forall i | 0 <= i < |parts| :: ReadsBack(read, parts[i], values[i])
    ensures ReadMany(read, Concat(parts) + tail, |parts|) == Ok(values, tail)
    decreases |parts|
  {
    hide Concat, Shrinks;
    if parts == [] {
      assert Concat(parts) + tail == tail by { EmptyConcat(); }
    } else {
      ConcatHead(parts);
      var rest := Concat(parts[1..]) + tail;
      assert Concat(parts) + tail == parts[0] + rest;
      assert ReadsBack(read, parts[0], values[0]);
      ManyBack(read, parts[1..], values[1..], tail);
      assert values == [values[0]] + values[1..];
    }
  }

  lemma EmptyConcat()
    ensures Concat([]) == []
  {
  }

  lemma ListBack<T(!new)>(read: seq<Octet> -> Parsed<T>, parts: seq<seq<Octet>>, values: seq<T>, tail: seq<Octet>)
    requires Shrinks(read) && |parts| == |values| < U32
    requires forall i | 0 <= i < |parts| :: ReadsBack(read, parts[i], values[i])
    ensures ReadList(read, EncodeList(parts) + tail) == Ok(values, tail)
  {
    hide Shrinks, ReadMany, Number, Bytes;
    Widths();
    var s, n := EncodeList(parts) + tail, Bytes(|parts|, 4);
    BytesBack(|parts|, 4);
    assert s == n + (Concat(parts) + tail);
    assert s[..4] == n && s[4..] == Concat(parts) + tail;
    ManyBack(read, parts, values, tail);
  }

  // ---- One record ----

  lemma NameBack(utf8: Name -> bool, name: Name)
    requires |name| < U16 && utf8(name)
    ensures ReadsBack(NameReader(utf8), EncodeName(name), name)
  {
    hide Number, Bytes;
    Widths();
    BytesBack(|name|, 2);
    forall rest: seq<Octet> ensures ReadName(utf8, EncodeName(name) + rest) == Ok(name, rest) {
      var s := EncodeName(name) + rest;
      assert s[..2] == Bytes(|name|, 2) && s[2..] == name + rest;
      assert (name + rest)[..|name|] == name && (name + rest)[|name|..] == rest;
    }
  }

  lemma WrapBack(v: int)
    requires -U64 / 2 <= v < U64 / 2
    ensures Wrap(v) < U64 && Unwrap(Wrap(v)) == v
  {
  }

  lemma Mid(pre: seq<Octet>, x: seq<Octet>, s: seq<Octet>)
    requires pre + x <= s
    ensures s[|pre|..|pre| + |x|] == x && pre <= s
  {
    assert s[..|pre| + |x|] == pre + x;
    assert s[|pre|..|pre| + |x|] == s[..|pre| + |x|][|pre|..];
  }

  /** The fields of an encoded temporary, where the reader looks for them. */
  lemma TempSlices(t: Temp, index: nat, rest: seq<Octet>)
    ensures var s := EncodeTemp(t, index) + rest;
      && |s| >= 28 && s[28..] == rest
      && s[0..1] == Bytes(t.kind, 1) && s[1..2] == Bytes(t.ty, 1) && s[2..3] == Bytes(t.baseType, 1)
      && s[3..4] == Bytes(if t.reg.Some? then t.reg.value else NO_REG, 1)
      && s[4..12] == Bytes(t.val, 8) && s[12..16] == Bytes(if t.memBase.Some? then t.memBase.value else NO_INDEX, 4)
      && s[16..24] == Bytes(Wrap(t.memOffset), 8) && s[24..28] == Bytes(index, 4)
  {
    hide Bytes, Wrap;
    var a, b, c, d := Bytes(t.kind, 1), Bytes(t.ty, 1), Bytes(t.baseType, 1), Bytes(if t.reg.Some? then t.reg.value else NO_REG, 1);
    var e, f := Bytes(t.val, 8), Bytes(if t.memBase.Some? then t.memBase.value else NO_INDEX, 4);
    var g, h := Bytes(Wrap(t.memOffset), 8), Bytes(index, 4);
    var s := EncodeTemp(t, index) + rest;
    Mid(a + b + c + d + e + f + g, h, s);
    Mid(a + b + c + d + e + f, g, s);
    Mid(a + b + c + d + e, f, s);
    Mid(a + b + c + d, e, s);
    Mid(a + b + c, d, s);
    Mid(a + b, c, s);
    Mid(a, b, s);
  }

  lemma TempBack(utf8: Name -> bool, strings: seq<Name>, t: Temp, index: nat)
    requires TempFits(utf8, t) && index < U32
    requires if t.name.Some? then index != NO_INDEX && index < |strings| && strings[index] == t.name.value else index == NO_INDEX
    ensures ReadsBack(TempReader(strings), EncodeTemp(t, index), KeptTemp(t))
  {
    hide Number, Bytes, EncodeTemp, Wrap, Unwrap;
    Widths();
    WrapBack(t.memOffset);
    BytesBack(t.kind, 1);
    BytesBack(t.ty, 1);
    BytesBack(t.baseType, 1);
    BytesBack(if t.reg.Some? then t.reg.value else NO_REG, 1);
    BytesBack(t.val, 8);
    BytesBack(if t.memBase.Some? then t.memBase.value else NO_INDEX, 4);
    BytesBack(Wrap(t.memOffset), 8);
    BytesBack(index, 4);
    forall rest: seq<Octet> ensures ReadTemp(strings, EncodeTemp(t, index) + rest) == Ok(KeptTemp(t), rest) {
      TempSlices(t, index, rest);
    }
  }

  lemma ArgsLength(args: seq<nat>, n: nat)
    requires n <= |args|
    ensures |EncodeArgs(args, n)| == 4 * n
  {
  }

  lemma {:induction false} ArgsBack(args: seq<nat>, n: nat, rest: seq<Octet>)
    requires n <= |args| && forall i | 0 <= i < n :: args[i] < U32
    ensures |EncodeArgs(args, n)| == 4 * n && ReadArgs(EncodeArgs(args, n) + rest, n) == args[..n]
  {
    hide Number, Bytes;
    ArgsLength(args, n);
    if n > 0 {
      ArgsLength(args, n - 1);
      Widths();
      var first, last := EncodeArgs(args, n - 1), Bytes(args[n - 1], 4);
      BytesBack(args[n - 1], 4);
      var s := EncodeArgs(args, n) + rest;
      assert s == first + (last + rest);
      ArgsBack(args, n - 1, last + rest);
      assert s[4 * (n - 1)..4 * n] == last;
      assert args[..n] == args[..n - 1] + [args[n - 1]];
    }
  }

  lemma OpSlices(op: Op, rest: seq<Octet>)
    requires op.nargs <= |op.args|
    ensures var s := EncodeOp(op) + rest;
      && |s| >= 8 && s[8..] == EncodeArgs(op.args, op.nargs) + rest
      && s[0..1] == Bytes(op.opc, 1) && s[1..2] == Bytes(op.ty, 1) && s[2..3] == Bytes(op.param1, 1)
      && s[3..4] == Bytes(op.param2, 1) && s[4..5] == Bytes(op.nargs, 1)
  {
    hide Bytes, EncodeArgs;
  }

  lemma OpBack(op: Op)
    requires OpFits(op)
    ensures ReadsBack(ReadOp, EncodeOp(op), KeptOp(op))
  {
    hide Number, Bytes, EncodeOp, EncodeArgs, ReadArgs;
    Widths();
    BytesBack(op.opc, 1);
    BytesBack(op.ty, 1);
    BytesBack(op.param1, 1);
    BytesBack(op.param2, 1);
    BytesBack(op.nargs, 1);
    forall rest: seq<Octet> ensures ReadOp(EncodeOp(op) + rest) == Ok(KeptOp(op), rest) {
      OpSlices(op, rest);
      ArgsBack(op.args, op.nargs, rest);
      var s := EncodeOp(op) + rest;
      assert s[8 + 4 * op.nargs..] == s[8..][4 * op.nargs..] == rest;
    }
  }

  // ---- The string table ----

  lemma {:induction false} TableHas(temps: seq<Temp>, n: nat, i: nat)
    requires i < n <= |temps|
    ensures temps[i].name.Some? ==> temps[i].name.value in Table(temps, n)
  {
    if i < n - 1 { TableHas(temps, n - 1, i); }
  }

  lemma {:induction false} TableFrom(temps: seq<Temp>, n: nat, k: nat)
    requires n <= |temps| && k < |Table(temps, n)|
    ensures |Table(temps, n)| <= n && exists i :: 0 <= i < n && temps[i].name == Some(Table(temps, n)[k])
  {
    TableSmall(temps, n);
    if n > 0 && k < |Table(temps, n - 1)| { TableFrom(temps, n - 1, k); }
  }

  lemma TableSmall(temps: seq<Temp>, n: nat)
    requires n <= |temps|
    ensures |Table(temps, n)| <= n
  {
  }

  // ---- One context ----

  lemma BodyBack(utf8: Name -> bool, c: Ctx, tail: seq<Octet>)
    requires Fits(utf8, c)
    ensures ReadTb(utf8, c.globals, EncodeBody(c) + tail) == Ok(Kept(c), tail)
  {
    hide ReadList, EncodeList, EncodeName, EncodeTemp, EncodeOp, ReadName, ReadTemp, ReadOp, Labels, KeptTemp, KeptOp, IndexOf;
    var n := |c.temps|;
    var strings := Table(c.temps, n);
    TableSmall(c.temps, n);
    var names, temps, ops := NameParts(strings), TempParts(c.temps, strings), OpParts(c.ops);
    NamesRead(utf8, c, strings);
    TempsRead(utf8, c, strings);
    OpsRead(utf8, c);
    var t2 := EncodeList(ops) + tail;
    var t1 := EncodeList(temps) + t2;
    assert EncodeBody(c) + tail == EncodeList(names) + t1;
    ListBack(NameReader(utf8), names, strings, t1);
    ListBack(TempReader(strings), temps, Kept(c).temps, t2);
    ListBack(ReadOp, ops, Kept(c).ops, tail);
  }

  lemma NamesRead(utf8: Name -> bool, c: Ctx, strings: seq<Name>)
    requires Fits(utf8, c) && strings == Table(c.temps, |c.temps|)
    ensures forall i | 0 <= i < |strings| :: ReadsBack(NameReader(utf8), NameParts(strings)[i], strings[i])
  {
    hide EncodeName, Table;
    forall i | 0 <= i < |strings| ensures ReadsBack(NameReader(utf8), NameParts(strings)[i], strings[i]) {
      TableFrom(c.temps, |c.temps|, i);
      var k :| 0 <= k < |c.temps| && c.temps[k].name == Some(strings[i]);
      assert TempFits(utf8, c.temps[k]);
      NameBack(utf8, strings[i]);
    }
  }

  lemma TempsRead(utf8: Name -> bool, c: Ctx, strings: seq<Name>)
    requires Fits(utf8, c) && strings == Table(c.temps, |c.temps|)
    ensures forall i | 0 <= i < |c.temps| :: ReadsBack(TempReader(strings), TempParts(c.temps, strings)[i], Kept(c).temps[i])
  {
    hide EncodeTemp, Table, ReadTemp;
    TableSmall(c.temps, |c.temps|);
    forall i | 0 <= i < |c.temps| ensures ReadsBack(TempReader(strings), TempParts(c.temps, strings)[i], Kept(c).temps[i]) {
      var t := c.temps[i];
      TableHas(c.temps, |c.temps|, i);
      TempBack(utf8, strings, t, NameIndex(strings, t.name));
    }
  }

  lemma OpsRead(utf8: Name -> bool, c: Ctx)
    requires Fits(utf8, c)
    ensures forall i | 0 <= i < |c.ops| :: ReadsBack(ReadOp, OpParts(c.ops)[i], Kept(c).ops[i])
  {
    hide EncodeOp, ReadOp;
    forall i | 0 <= i < |c.ops| ensures ReadsBack(ReadOp, OpParts(c.ops)[i], Kept(c).ops[i]) {
      assert OpFits(c.ops[i]);
      OpBack(c.ops[i]);
    }
  }

  // ---- Files ----

  lemma HeaderSlices(c: Ctx, rest: seq<Octet>)
    ensures var s := EncodeHeader(c) + rest;
      && |s| >= 20 && s[..4] == MAGIC && s[20..] == rest
      && s[4..6] == Bytes(VERSION, 2) && s[8..12] == Bytes(c.globals, 4) && s[16..20] == Bytes(1, 4)
  {
    hide Bytes;
    var s := EncodeHeader(c) + rest;
    var v, f, g, l, n := Bytes(VERSION, 2), Bytes(0, 2), Bytes(c.globals, 4), Bytes(c.labels, 4), Bytes(1, 4);
    Mid(MAGIC + v + f + g + l, n, s);
    Mid(MAGIC + v + f + g, l, s);
    Mid(MAGIC + v + f, g, s);
    Mid(MAGIC + v, f, s);
    Mid(MAGIC, v, s);
  }

  lemma ReadSingle<T(!new)>(read: seq<Octet> -> Parsed<T>, s: seq<Octet>, x: T, tail: seq<Octet>)
    requires Shrinks(read) && read(s) == Ok(x, tail)
    ensures ReadMany(read, s, 1) == Ok([x], tail)
  {
    hide Shrinks;
    var more := ReadMany(read, tail, 0);
    assert ReadMany(read, s, 1) == Ok([x] + more.value, more.rest);
    assert [x] + more.value == [x];
  }

  /** One serialized context in front of anything. */
  lemma DecodeOne(utf8: Name -> bool, c: Ctx, tail: seq<Octet>)
    requires Fits(utf8, c)
    ensures Decode(utf8, Encode(c) + tail) == match Decode(utf8, tail) case None => None case Some(more) => Some([Kept(c)] + more)
  {
    hide Bytes, Number, ReadTb, EncodeHeader, EncodeBody, Kept, Labels;
    Widths();
    BytesBack(VERSION, 2);
    BytesBack(c.globals, 4);
    BytesBack(1, 4);
    var s := Encode(c) + tail;
    assert s == EncodeHeader(c) + (EncodeBody(c) + tail);
    HeaderSlices(c, EncodeBody(c) + tail);
    BodyBack(utf8, c, tail);
    var read := TbReader(utf8, c.globals);
    ReadSingle(read, EncodeBody(c) + tail, Kept(c), tail);
  }

  ghost predicate AllFit(utf8: Name -> bool, cs: seq<Ctx>) { forall k | 0 <= k < |cs| :: Fits(utf8, cs[k]) }

  function EncodeFile(cs: seq<Ctx>): seq<Octet>
    requires forall k | 0 <= k < |cs| :: Slots(cs[k].ops)
  {
    if cs == [] then [] else Encode(cs[0]) + EncodeFile(cs[1..])
  }

  function KeptAll(cs: seq<Ctx>): seq<Ctx>
    requires forall k | 0 <= k < |cs| :: Slots(cs[k].ops)
  {
    seq(|cs|, k requires 0 <= k < |cs| => Kept(cs[k]))
  }

  lemma ShortTail(utf8: Name -> bool, junk: seq<Octet>)
    requires |junk| < 4
    ensures Decode(utf8, junk) == Some([])
  {
  }

  /** Reading any concatenation of serialized contexts, and up to three bytes more, gives exactly the contexts, in order. */
  lemma {:induction false} FileBack(utf8: Name -> bool, cs: seq<Ctx>, junk: seq<Octet>)
    requires AllFit(utf8, cs) && |junk| < 4
    ensures Decode(utf8, EncodeFile(cs) + junk) == Some(KeptAll(cs))
    decreases |cs|
  {
    hide Encode, Kept, Decode;
    if cs == [] {
      assert EncodeFile(cs) + junk == junk;
      ShortTail(utf8, junk);
    } else {
      assert AllFit(utf8, cs[1..]);
      FileBack(utf8, cs[1..], junk);
      DecodeOne(utf8, cs[0], EncodeFile(cs[1..]) + junk);
      assert EncodeFile(cs) + junk == Encode(cs[0]) + (EncodeFile(cs[1..]) + junk);
      assert KeptAll(cs) == [Kept(cs[0])] + KeptAll(cs[1..]);
    }
  }

  /** A context survives as it is exactly when no field equals its sentinel, unused argument slots are zero and the labels are those the operations name. */
  lemma KeptExact(utf8: Name -> bool, c: Ctx)
    requires Fits(utf8, c)
    ensures Kept(c) == c <==>
      && (forall i | 0 <= i < |c.temps| :: c.temps[i].reg != Some(NO_REG) && c.temps[i].memBase != Some(NO_INDEX))
      && (forall i | 0 <= i < |c.ops| :: SlotsZero(c.ops[i]))
      && c.labels == Labels(c.ops)
  {
    hide Labels, KeptOp;
    var d := Kept(c);
    forall i | 0 <= i < |c.ops| ensures d.ops[i] == c.ops[i] <==> SlotsZero(c.ops[i]) {
      OpExact(c.ops[i]);
    }
    forall i | 0 <= i < |c.temps| ensures d.temps[i] == c.temps[i] <==> c.temps[i].reg != Some(NO_REG) && c.temps[i].memBase != Some(NO_INDEX) {
    }
    if Kept(c) != c && c.labels == Labels(c.ops) && (forall i | 0 <= i < |c.ops| :: SlotsZero(c.ops[i])) {
      assert d.ops == c.ops;
    }
  }

  /** The argument slots an operation does not use are zero. */
  predicate SlotsZero(op: Op)
    requires |op.args| == MAX_OP_ARGS
  {
    forall k | op.nargs <= k < MAX_OP_ARGS :: op.args[k] == 0
  }

  lemma OpExact(op: Op)
    requires OpFits(op)
    ensures KeptOp(op) == op <==> SlotsZero(op)
  {
    var d := KeptOp(op);
    assert |d.args| == |op.args|;
    if SlotsZero(op) {
      assert d.args == op.args;
    } else {
      var k :| op.nargs <= k < MAX_OP_ARGS && op.args[k] != 0;
      assert d.args[k] == 0;
    }
  }
}
