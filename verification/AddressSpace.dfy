/**
  * Sized reads and writes of guest memory through a flat view, on RAM and ROM blocks of
  * bytes in little-endian order. Device accesses are handed over with their region offset.
  */
module AddressSpace {
  import opened LittleEndian
  import opened Options
  import opened StableSort
  import opened FlatView
  import opened FlatResolve

  /** The contents of the blocks. */
  type Memory = map<nat, seq<Octet>>

  predicate InBlock(mem: Memory, block: nat, off: nat, n: nat) { block in mem && off + n <= |mem[block]| }

  function Peek(mem: Memory, block: nat, off: nat, n: nat): seq<Octet>
    requires InBlock(mem, block, off, n)
  {
    mem[block][off..off + n]
  }

  function Poke(mem: Memory, block: nat, off: nat, s: seq<Octet>): (r: Memory)
    requires InBlock(mem, block, off, |s|)
    ensures r.Keys == mem.Keys && forall b | b in mem :: |r[b]| == |mem[b]|
  {
    var was := mem[block];
    mem[block := was[..off] + s + was[off + |s|..]]
  }

  /** A block of memory changes where it is written and nowhere else. */
  lemma PokeIs(mem: Memory, block: nat, off: nat, s: seq<Octet>)
    requires InBlock(mem, block, off, |s|)
    ensures var r := Poke(mem, block, off, s);
      && Peek(r, block, off, |s|) == s
      && (forall b | b in mem && b != block :: r[b] == mem[b])
      && (forall i | 0 <= i < |mem[block]| && !(off <= i < off + |s|) :: r[block][i] == mem[block][i])
  {
  }

  // ---- Where an access lands ----

  /** The block a leaf is backed by. */
  function BlockOf(l: Leaf): nat
    requires !l.Io?
  {
    match l
    case Ram(b) => b
    case Rom(b) => b
  }

  /** The bytes an access touches lie in its block, as the raw copies demand. */
  ghost predicate Safe(view: seq<FlatRange>, mem: Memory, a: nat, n: nat) {
    At(view, a).Some? && !At(view, a).value.leaf.Io? ==> InBlock(mem, BlockOf(At(view, a).value.leaf), At(view, a).value.offset, n)
  }

  /** The whole access lies in one range of the view. */
  ghost predicate Mapped(view: seq<FlatRange>, a: nat, n: nat) {
    exists r :: r in view && Holds(r, a) && a + n <= r.addr + r.size
  }

  /** What an access has to do with a device. */
  datatype Access = Plain | Device(device: nat, offset: nat)

  function AccessAt(view: seq<FlatRange>, a: nat): Access {
    match At(view, a)
    case Some(Hit(Io(d), off)) => Device(d, off)
    case _ => Plain
  }

  /** The value in memory at a: zero where nothing is mapped. */
  ghost function Loaded(view: seq<FlatRange>, mem: Memory, a: nat, n: nat): nat
    requires Safe(view, mem, a, n)
  {
    match At(view, a)
    case None => 0
    case Some(Hit(l, off)) => if l.Io? then 0 else Number(Peek(mem, BlockOf(l), off, n))
  }

  /** The memory after a write: only RAM takes it. */
  ghost function Stored(view: seq<FlatRange>, mem: Memory, a: nat, n: nat, val: nat): (r: Memory)
    requires Safe(view, mem, a, n)
    ensures r.Keys == mem.Keys && forall b | b in mem :: |r[b]| == |mem[b]|
  {
    match At(view, a)
    case Some(Hit(Ram(b), off)) => Poke(mem, b, off, Bytes(val, n))
    case _ => mem
  }

  /** Reading back a RAM write gives the value cut to the access size, at any address mapped to the same bytes; all other bytes stay. */
  lemma ReadAfterWrite(view: seq<FlatRange>, mem: Memory, a: nat, b: nat, n: nat, val: nat)
    requires Safe(view, mem, a, n) && Safe(view, mem, b, n)
    requires At(view, a).Some? && At(view, a).value.leaf.Ram? && At(view, b).Some? && !At(view, b).value.leaf.Io?
    requires BlockOf(At(view, b).value.leaf) == At(view, a).value.leaf.block && At(view, b).value.offset == At(view, a).value.offset
    ensures Power(n) > 0 && Loaded(view, Stored(view, mem, a, n, val), b, n) == val % Power(n)
    ensures var block, off, r := At(view, a).value.leaf.block, At(view, a).value.offset, Stored(view, mem, a, n, val);
      && (forall k | k in mem && k != block :: r[k] == mem[k])
      && (forall i | 0 <= i < |mem[block]| && !(off <= i < off + n) :: r[block][i] == mem[block][i])
  {
    PokeIs(mem, At(view, a).value.leaf.block, At(view, a).value.offset, Bytes(val, n));
    BytesRoundTrip(val, n);
  }

  /** A load whose bytes no write touches keeps its value. */
  lemma ReadElsewhere(view: seq<FlatRange>, mem: Memory, a: nat, n: nat, val: nat, b: nat, k: nat)
    requires Safe(view, mem, a, n) && Safe(view, mem, b, k)
    requires At(view, a).Some? && At(view, a).value.leaf.Ram? && At(view, b).Some? && !At(view, b).value.leaf.Io? ==>
      var x, y := At(view, a).value, At(view, b).value;
      BlockOf(y.leaf) != x.leaf.block || y.offset + k <= x.offset || x.offset + n <= y.offset
    ensures Safe(view, Stored(view, mem, a, n, val), b, k) && Loaded(view, Stored(view, mem, a, n, val), b, k) == Loaded(view, mem, b, k)
  {
    if At(view, a).Some? && At(view, a).value.leaf.Ram? && At(view, b).Some? && !At(view, b).value.leaf.Io? {
      var x, y, r := At(view, a).value, At(view, b).value, Stored(view, mem, a, n, val);
      PokeIs(mem, x.leaf.block, x.offset, Bytes(val, n));
      assert Peek(r, BlockOf(y.leaf), y.offset, k) == Peek(mem, BlockOf(y.leaf), y.offset, k);
    }
  }

  class Space {
    var root: Region
    var view: seq<FlatRange>
    var mem: Memory

    ghost predicate Valid()
      reads this
    {
      Ordered(view) && Disjoint(view) && BestWins(view, Collect(root, 0, 0))
    }

    constructor (root: Region, mem: Memory)
      ensures Valid() && this.root == root && this.mem == mem
    {
      var v := FromRegion(root);
      this.root, this.view, this.mem := root, v, mem;
    }

    /** After the tree changed. */
    method UpdateFlatView(root: Region)
      modifies this`root, this`view
      ensures Valid() && this.root == root
    {
      this.root := root;
      view := FromRegion(root);
    }

    method Read(a: nat, n: nat) returns (v: nat, access: Access)
      requires Valid() && Safe(view, mem, a, n)
      ensures v == Loaded(view, mem, a, n) && access == AccessAt(view, a)
    {
      var r := Lookup(view, a);
      v, access := 0, Plain;
      if r.Some? {
        var off := r.value.offset + (a - r.value.addr);
        match r.value.leaf
        case Io(d) => access := Device(d, off);
        case Ram(b) => v := Number(Peek(mem, b, off, n));
        case Rom(b) => v := Number(Peek(mem, b, off, n));
      }
    }

    method Write(a: nat, n: nat, val: nat) returns (access: Access)
      requires Valid() && Safe(view, mem, a, n)
      modifies this`mem
      ensures mem == Stored(view, old(mem), a, n, val) && access == AccessAt(view, a)
    {
      var r := Lookup(view, a);
      access := Plain;
      if r.Some? {
        var off := r.value.offset + (a - r.value.addr);
        match r.value.leaf
        case Ram(b) => mem := Poke(mem, b, off, Bytes(val, n));
        case Rom(_) =>
        case Io(d) => access := Device(d, off);
      }
    }

    /** Whether the whole access lies in one range. */
    method IsMapped(a: nat, n: nat) returns (ok: bool)
      requires Valid() && n > 0
      ensures ok <==> Mapped(view, a, n)
    {
      var r := Lookup(view, a);
      ok := r.Some? && a + n <= r.value.addr + r.value.size;
      if ok {
        assert r.value in view && Holds(r.value, a);
      } else if Mapped(view, a, n) {
        OnlyOne(view, a, n, r);
      }
    }
  }

  lemma OnlyOne(view: seq<FlatRange>, a: nat, n: nat, r: Option<FlatRange>)
    requires Ordered(view) && n > 0 && Mapped(view, a, n)
    requires r.Some? ==> r.value in view && Holds(r.value, a)
    requires r.None? <==> At(view, a).None?
    ensures r.Some? && a + n <= r.value.addr + r.value.size
  {
    var x :| x in view && Holds(x, a) && a + n <= x.addr + x.size;
    var i :| 0 <= i < |view| && view[i] == x;
    AtNone(view, a);
    var j :| 0 <= j < |view| && view[j] == r.value;
  }

  // ---- Accesses that fit ----

  /** Every leaf fits its block and every alias window its target. */
  ghost predicate Fits(r: Region, mem: Memory)
    decreases r
  {
    && (match r.kind
        case Backed(l) => !l.Io? ==> InBlock(mem, BlockOf(l), 0, r.size)
        case Alias(target, off) => off + r.size <= target.size && Fits(target, mem)
        case Container => true)
    && forall i | 0 <= i < |r.subs| :: Fits(r.subs[i].region, mem)
  }

  ghost predicate RawFits(x: RawRange, mem: Memory) {
    !x.leaf.Io? ==> InBlock(mem, BlockOf(x.leaf), x.offset, x.size)
  }

  ghost predicate AllFit(raws: seq<RawRange>, mem: Memory) {
    forall i | 0 <= i < |raws| :: RawFits(raws[i], mem)
  }

  lemma {:induction false} AliasFits(target: Region, base: nat, off: nat, size: nat, prio: int, mem: Memory)
    requires Fits(target, mem) && off + size <= target.size
    ensures AllFit(CollectAlias(target, base, off, size, prio), mem)
    decreases target, 1, 0
  {
    if target.enabled {
      match target.kind
      case Backed(leaf) =>
      case Alias(inner, more) => AliasFits(inner, base, off + more, size, prio, mem);
      case Container => WindowFits(target, |target.subs|, base, off, size, prio, mem);
    }
  }

  lemma {:induction false} WindowFits(target: Region, n: nat, base: nat, off: nat, size: nat, prio: int, mem: Memory)
    requires Fits(target, mem) && n <= |target.subs|
    ensures AllFit(CollectWindow(target, n, base, off, size, prio), mem)
    decreases target, 0, n
  {
    if n > 0 {
      WindowFits(target, n - 1, base, off, size, prio, mem);
      var sub := target.subs[n - 1];
      var first, past := sub.offset, sub.offset + sub.region.size;
      if past <= off || first >= off + size {
      } else {
        var from, to := Max(first, off), if past < off + size then past else off + size;
        AliasFits(sub.region, base + (from - off), from - first, to - from, prio, mem);
      }
    }
  }

  lemma {:induction false} CollectFits(r: Region, base: nat, inherited: int, mem: Memory)
    requires Fits(r, mem)
    ensures AllFit(Collect(r, base, inherited), mem)
    decreases r, 1, 0
  {
    if r.enabled {
      var prio := Max(r.priority, inherited);
      SubsFit(r, |r.subs|, base, prio, mem);
      if r.kind.Alias? { AliasFits(r.kind.target, base, r.kind.offset, r.size, prio, mem); }
    }
  }

  lemma {:induction false} SubsFit(r: Region, n: nat, base: nat, prio: int, mem: Memory)
    requires Fits(r, mem) && n <= |r.subs|
    ensures AllFit(CollectSubs(r, n, base, prio), mem)
    decreases r, 0, n
  {
    if n > 0 {
      SubsFit(r, n - 1, base, prio, mem);
      CollectFits(r.subs[n - 1].region, base + r.subs[n - 1].offset, prio, mem);
    }
  }

  ghost predicate RangeFits(r: FlatRange, mem: Memory) {
    !r.leaf.Io? ==> InBlock(mem, BlockOf(r.leaf), r.offset, r.size)
  }

  /** Every access the view accepts stays in its block exactly when every range but a device's fits its block. */
  lemma MappedIsSafe(view: seq<FlatRange>, mem: Memory)
    requires Disjoint(view)
    ensures (forall a: nat, n: nat | n > 0 && Mapped(view, a, n) :: Safe(view, mem, a, n)) <==> forall r | r in view :: RangeFits(r, mem)
  {
    if forall r | r in view :: RangeFits(r, mem) {
      forall a: nat, n: nat | n > 0 && Mapped(view, a, n) ensures Safe(view, mem, a, n) {
        var r :| r in view && Holds(r, a) && a + n <= r.addr + r.size;
        var i :| 0 <= i < |view| && view[i] == r;
        AtAny(view, i, a);
        assert RangeFits(r, mem);
      }
    }
    if forall a: nat, n: nat | n > 0 && Mapped(view, a, n) :: Safe(view, mem, a, n) {
      forall r | r in view ensures RangeFits(r, mem) {
        var i :| 0 <= i < |view| && view[i] == r;
        var last := r.addr + r.size - 1;
        AtAny(view, i, last);
        assert Holds(r, last) && last + 1 <= r.addr + r.size;
        assert Mapped(view, last, 1);
      }
    }
  }

  /** The byte that raw has at a lies in its block. */
  ghost predicate ByteFits(raw: RawRange, a: nat, mem: Memory)
    requires Covers(raw, a)
  {
    !raw.leaf.Io? ==> InBlock(mem, BlockOf(raw.leaf), raw.offset + (a - raw.addr), 1)
  }

  /** At every address the range of the tree that wins there has its byte in its block. */
  ghost predicate WinnersFit(root: Region, mem: Memory) {
    forall a: nat, k: nat | Winner(Collect(root, 0, 0), RawLess, CoversAt(a), k) :: ByteFits(Collect(root, 0, 0)[k], a, mem)
  }

  /** The last byte of an access is the winner's at its address. */
  lemma AccessFits(root: Region, view: seq<FlatRange>, mem: Memory, a: nat, n: nat)
    requires Disjoint(view) && BestWins(view, Collect(root, 0, 0)) && WinnersFit(root, mem) && Mapped(view, a, n) && n > 0
    ensures Safe(view, mem, a, n)
  {
    hide Collect;
    var raws := Collect(root, 0, 0);
    var x :| x in view && Holds(x, a) && a + n <= x.addr + x.size;
    var i :| 0 <= i < |view| && view[i] == x;
    var last := a + n - 1;
    AtAny(view, i, a);
    AtAny(view, i, last);
    assert BestAt(view, raws, last);
    var k: nat :| Winner(raws, RawLess, CoversAt(last), k) && At(view, last).value == Hit(raws[k].leaf, raws[k].offset + (last - raws[k].addr));
    assert ByteFits(raws[k], last, mem);
  }

  lemma WinnerFits(root: Region, view: seq<FlatRange>, mem: Memory, a: nat, k: nat)
    requires Disjoint(view) && BestWins(view, Collect(root, 0, 0)) && Winner(Collect(root, 0, 0), RawLess, CoversAt(a), k)
    requires Mapped(view, a, 1) ==> Safe(view, mem, a, 1)
    ensures ByteFits(Collect(root, 0, 0)[k], a, mem)
  {
    hide Collect;
    var raws := Collect(root, 0, 0);
    assert BestAt(view, raws, a);
    assert raws[k] in raws && Covers(raws[k], a);
    var i: nat :| Winner(raws, RawLess, CoversAt(a), i) && At(view, a).value == Hit(raws[i].leaf, raws[i].offset + (a - raws[i].addr));
    assert i == k;
    AtNone(view, a);
    var j :| 0 <= j < |view| && Holds(view[j], a);
    AtAny(view, j, a);
    assert Mapped(view, a, 1);
  }

  /**
    * Every access the view of a tree accepts stays in its block exactly when the winner at
    * every address does, and so if all leaves fit their blocks and all alias windows their targets.
    */
  lemma FittingTree(root: Region, view: seq<FlatRange>, mem: Memory)
    requires Disjoint(view) && BestWins(view, Collect(root, 0, 0))
    ensures (forall a: nat, n: nat | n > 0 && Mapped(view, a, n) :: Safe(view, mem, a, n)) <==> WinnersFit(root, mem)
    ensures Fits(root, mem) ==> WinnersFit(root, mem)
  {
    hide Collect, Fits, Safe, Mapped, BestWins, Disjoint, ByteFits;
    if WinnersFit(root, mem) {
      forall a: nat, n: nat | n > 0 && Mapped(view, a, n) ensures Safe(view, mem, a, n) { AccessFits(root, view, mem, a, n); }
    }
    if forall a: nat, n: nat | n > 0 && Mapped(view, a, n) :: Safe(view, mem, a, n) {
      forall a: nat, k: nat | Winner(Collect(root, 0, 0), RawLess, CoversAt(a), k) ensures ByteFits(Collect(root, 0, 0)[k], a, mem) {
        WinnerFits(root, view, mem, a, k);
      }
    }
    if Fits(root, mem) { FitsWins(root, mem); }
  }

  lemma FitsWins(root: Region, mem: Memory)
    requires Fits(root, mem)
    ensures WinnersFit(root, mem)
  {
    hide Collect, Fits;
    CollectFits(root, 0, 0, mem);
    forall a: nat, k: nat | Winner(Collect(root, 0, 0), RawLess, CoversAt(a), k) ensures ByteFits(Collect(root, 0, 0)[k], a, mem) {
      assert RawFits(Collect(root, 0, 0)[k], mem);
    }
  }
}
