/**
  * Flattening a tree of memory regions, aliases and priorities into a sorted list of
  * disjoint ranges with binary-search lookup. Addresses are unbounded: overflow of the
  * sixty-four bit address sums is outside this model.
  */
module FlatView {
  datatype Leaf = Ram(block: nat) | Rom(block: nat) | Io(device: nat)

  datatype RegionType = Backed(leaf: Leaf) | Alias(target: Region, offset: nat) | Container

  datatype Region = Region(size: nat, kind: RegionType, priority: int, subs: seq<Sub>, enabled: bool)

  datatype Sub = Sub(region: Region, offset: nat)

  datatype RawRange = RawRange(addr: nat, size: nat, priority: int, leaf: Leaf, offset: nat)

  datatype FlatRange = FlatRange(addr: nat, size: nat, leaf: Leaf, offset: nat)

  /** One byte of a leaf, and its priority where it is seen. */
  datatype Layer = Layer(priority: int, leaf: Leaf, offset: nat)

  // ---- Collecting the leaves ----

  function Max(a: int, b: int): int { if a < b then b else a }

  function Collect(r: Region, base: nat, inherited: int): seq<RawRange>
    decreases r, 1, 0
  {
    if !r.enabled then []
    else
      var prio := Max(r.priority, inherited);
      (match r.kind
       case Backed(leaf) => [RawRange(base, r.size, prio, leaf, 0)]
       case Alias(target, off) => CollectAlias(target, base, off, r.size, prio)
       case Container => [])
      + CollectSubs(r, |r.subs|, base, prio)
  }

  /** The first n subregions. */
  function CollectSubs(r: Region, n: nat, base: nat, prio: int): seq<RawRange>
    requires n <= |r.subs|
    decreases r, 0, n
  {
    if n == 0 then []
    else
      var sub := r.subs[n - 1];
      CollectSubs(r, n - 1, base, prio) + Collect(sub.region, base + sub.offset, prio)
  }

  /** What an alias window of the given size at offset off of the target shows. */
  function CollectAlias(target: Region, base: nat, off: nat, size: nat, prio: int): seq<RawRange>
    decreases target, 1, 0
  {
    if !target.enabled then []
    else
      match target.kind
      case Backed(leaf) => [RawRange(base, size, prio, leaf, off)]
      case Alias(inner, more) => CollectAlias(inner, base, off + more, size, prio)
      case Container => CollectWindow(target, |target.subs|, base, off, size, prio)
  }

  function CollectWindow(target: Region, n: nat, base: nat, off: nat, size: nat, prio: int): seq<RawRange>
    requires n <= |target.subs|
    decreases target, 0, n
  {
    if n == 0 then []
    else CollectWindow(target, n - 1, base, off, size, prio) + CollectClipped(target.subs[n - 1], base, off, size, prio)
  }

  /** One subregion of a container, clipped to the window. */
  function CollectClipped(sub: Sub, base: nat, off: nat, size: nat, prio: int): seq<RawRange>
    decreases sub, 0, 0
  {
    var first, past := sub.offset, sub.offset + sub.region.size;
    if past <= off || first >= off + size then []
    else
      var from, to := Max(first, off), if past < off + size then past else off + size;
      CollectAlias(sub.region, base + (from - off), from - first, to - from, prio)
  }

  // ---- What they denote ----

  predicate Covers(r: RawRange, a: nat) { r.addr <= a < r.addr + r.size }

  function LayerOf(r: RawRange, a: nat): Layer
    requires Covers(r, a)
  {
    Layer(r.priority, r.leaf, r.offset + (a - r.addr))
  }

  /** The layers a list of ranges has at address a, in order. */
  function Layers(raws: seq<RawRange>, a: nat): seq<Layer> {
    if raws == [] then []
    else (if Covers(raws[0], a) then [LayerOf(raws[0], a)] else []) + Layers(raws[1..], a)
  }

  /** The layers seen at offset o of a region looked at through an alias. */
  function Seen(r: Region, o: nat, prio: int): seq<Layer>
    decreases r, 1, 0
  {
    if !r.enabled then []
    else
      match r.kind
      case Backed(leaf) => [Layer(prio, leaf, o)]
      case Alias(inner, more) => Seen(inner, o + more, prio)
      case Container => SeenInside(r, |r.subs|, o, prio)
  }

  function SeenInside(r: Region, n: nat, o: nat, prio: int): seq<Layer>
    requires n <= |r.subs|
    decreases r, 0, n
  {
    if n == 0 then []
    else
      var sub := r.subs[n - 1];
      SeenInside(r, n - 1, o, prio) + SeenSub(sub, o, prio)
  }

  function SeenSub(sub: Sub, o: nat, prio: int): seq<Layer>
    decreases sub, 0, 0
  {
    if sub.offset <= o < sub.offset + sub.region.size then Seen(sub.region, o - sub.offset, prio) else []
  }

  /** The layers a region placed at base shows at address a. */
  function Shown(r: Region, base: nat, inherited: int, a: nat): seq<Layer>
    decreases r, 1, 0
  {
    if !r.enabled then []
    else
      var prio := Max(r.priority, inherited);
      (match r.kind
       case Backed(leaf) => if base <= a < base + r.size then [Layer(prio, leaf, a - base)] else []
       case Alias(target, off) => if base <= a < base + r.size then Seen(target, off + (a - base), prio) else []
       case Container => [])
      + ShownSubs(r, |r.subs|, base, prio, a)
  }

  function ShownSubs(r: Region, n: nat, base: nat, prio: int, a: nat): seq<Layer>
    requires n <= |r.subs|
    decreases r, 0, n
  {
    if n == 0 then []
    else
      var sub := r.subs[n - 1];
      ShownSubs(r, n - 1, base, prio, a) + Shown(sub.region, base + sub.offset, prio, a)
  }

  lemma EmptyLayers(a: nat)
    ensures Layers([], a) == []
  {
  }

  lemma {:induction false} LayersConcat(x: seq<RawRange>, y: seq<RawRange>, a: nat)
    ensures Layers(x + y, a) == Layers(x, a) + Layers(y, a)
  {
    hide LayerOf, Covers;
    if x == [] {
      assert x + y == y;
    } else {
      assert (x + y)[1..] == x[1..] + y && (x + y)[0] == x[0];
      LayersConcat(x[1..], y, a);
      var head := if Covers(x[0], a) then [LayerOf(x[0], a)] else [];
      assert head + (Layers(x[1..], a) + Layers(y, a)) == (head + Layers(x[1..], a)) + Layers(y, a);
    }
  }

  /** An alias shows at base + d what its target has at off + d, every offset on the way added up and windows clipped. */
  lemma {:induction false} AliasDenotes(target: Region, base: nat, off: nat, size: nat, prio: int, a: nat)
    ensures Layers(CollectAlias(target, base, off, size, prio), a) == if base <= a < base + size then Seen(target, off + (a - base), prio) else []
    decreases target, 1, 0
  {
    if target.enabled {
      match target.kind
      case Backed(leaf) =>
      case Alias(inner, more) => AliasDenotes(inner, base, off + more, size, prio, a);
      case Container => WindowDenotes(target, |target.subs|, base, off, size, prio, a);
    }
  }

  lemma {:induction false} WindowDenotes(target: Region, n: nat, base: nat, off: nat, size: nat, prio: int, a: nat)
    requires n <= |target.subs|
    ensures Layers(CollectWindow(target, n, base, off, size, prio), a) ==
      if base <= a < base + size then SeenInside(target, n, off + (a - base), prio) else []
    decreases target, 0, n
  {
    hide CollectClipped, SeenSub;
    if n > 0 {
      WindowDenotes(target, n - 1, base, off, size, prio, a);
      ClippedDenotes(target.subs[n - 1], base, off, size, prio, a);
      LayersConcat(CollectWindow(target, n - 1, base, off, size, prio), CollectClipped(target.subs[n - 1], base, off, size, prio), a);
    }
  }

  /** Clipping keeps exactly the bytes inside both the window and the subregion. */
  lemma {:induction false} ClippedDenotes(sub: Sub, base: nat, off: nat, size: nat, prio: int, a: nat)
    ensures Layers(CollectClipped(sub, base, off, size, prio), a) == if base <= a < base + size then SeenSub(sub, off + (a - base), prio) else []
    decreases sub, 0, 0
  {
    hide CollectAlias, Seen, Layers;
    EmptyLayers(a);
    var first, past := sub.offset, sub.offset + sub.region.size;
    if past <= off || first >= off + size {
    } else {
      var from, to := Max(first, off), if past < off + size then past else off + size;
      AliasDenotes(sub.region, base + (from - off), from - first, to - from, prio, a);
    }
  }

  /** The collected ranges have at every address exactly the layers the tree shows there, in the order of the walk. */
  lemma {:induction false} CollectDenotes(r: Region, base: nat, inherited: int, a: nat)
    ensures Layers(Collect(r, base, inherited), a) == Shown(r, base, inherited, a)
    decreases r, 1, 0
  {
    hide CollectSubs, ShownSubs, CollectAlias, Seen;
    if r.enabled {
      var prio := Max(r.priority, inherited);
      SubsDenote(r, |r.subs|, base, prio, a);
      var subs := CollectSubs(r, |r.subs|, base, prio);
      match r.kind
      case Backed(leaf) => LayersConcat([RawRange(base, r.size, prio, leaf, 0)], subs, a);
      case Alias(target, off) =>
        AliasDenotes(target, base, off, r.size, prio, a);
        LayersConcat(CollectAlias(target, base, off, r.size, prio), subs, a);
      case Container => LayersConcat([], subs, a);
    }
  }

  lemma {:induction false} SubsDenote(r: Region, n: nat, base: nat, prio: int, a: nat)
    requires n <= |r.subs|
    ensures Layers(CollectSubs(r, n, base, prio), a) == ShownSubs(r, n, base, prio, a)
    decreases r, 0, n
  {
    if n > 0 {
      var sub := r.subs[n - 1];
      SubsDenote(r, n - 1, base, prio, a);
      CollectDenotes(sub.region, base + sub.offset, prio, a);
      LayersConcat(CollectSubs(r, n - 1, base, prio), Collect(sub.region, base + sub.offset, prio), a);
    }
  }
}
