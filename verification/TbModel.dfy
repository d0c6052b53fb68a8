/** Translation blocks, what it means for one to be live, and the consistency of the block
    store: hash chains, page lists, chained jumps and the code that carries them. */
module TbModel {
  import opened Options
  import opened Chains

  const MAX_TBS: nat := 65536
  const TB_HASH_SIZE: nat := 32768
  const CODE_REFCOUNT_PAGES: nat := 1048576
  const PAGE_SIZE: nat := 4096

  /** A (source block, exit slot) pair. */
  type Edge = (nat, nat)

  /** The part of a block that is fixed once it is translated. */
  datatype TbCode = TbCode(pc: nat, flags: nat, cflags: nat, size: nat, physPc: nat,
                           hostOffset: nat, hostSize: nat, jmpInsn: seq<Link>, jmpReset: seq<Link>)

  /** Outgoing edge per slot, and incoming edges. */
  datatype TbJmpState = TbJmpState(dest: seq<Link>, list: seq<Edge>)

  datatype Tb = Tb(code: TbCode, hashNext: Link, pageNext: Link, jmp: TbJmpState,
                   invalid: bool, gen: nat, exitTarget: Link)

  function NewTb(pc: nat, flags: nat, cflags: nat): Tb {
    Tb(TbCode(pc, flags, cflags, 0, 0, 0, 0, [None, None], [None, None]),
       None, None, TbJmpState([None, None], []), false, 0, None)
  }

  function PageOf(tb: Tb): nat { tb.code.physPc / PAGE_SIZE }

  predicate LiveTb(tb: Tb, gen: nat) { !tb.invalid && tb.gen == gen }

  predicate Live(tbs: seq<Tb>, gen: nat, i: nat) { i < |tbs| && LiveTb(tbs[i], gen) }

  /** The block named, if any, has host code. */
  predicate Finished(tbs: seq<Tb>, l: Link) { l.Some? ==> l.value < |tbs| && tbs[l.value].code.hostSize > 0 }

  predicate HasKey(tb: Tb, pc: nat, flags: nat) { tb.code.pc == pc && tb.code.flags == flags }

  // ----- lists -----

  ghost function HashNext(tbs: seq<Tb>): seq<Link> { seq(|tbs|, i requires 0 <= i < |tbs| => tbs[i].hashNext) }
  ghost function PageNext(tbs: seq<Tb>): seq<Link> { seq(|tbs|, i requires 0 <= i < |tbs| => tbs[i].pageNext) }

  type Hasher = (nat, nat) -> nat

  ghost predicate HasherOk(h: Hasher) { forall pc: nat, flags: nat :: h(pc, flags) < TB_HASH_SIZE }

  /** Every chain is well formed and holds only finished blocks of its own bucket. */
  ghost predicate HashOk(h: Hasher, tbs: seq<Tb>, hash: seq<Link>) {
    && |hash| == TB_HASH_SIZE && Descending(HashNext(tbs))
    && (forall b | 0 <= b < |hash| :: InRange(|tbs|, hash[b]))
    && (forall b, i | 0 <= b < |hash| && i in Members(HashNext(tbs), hash[b]) ::
          h(tbs[i].code.pc, tbs[i].code.flags) == b && tbs[i].code.hostSize > 0)
  }

  /** Every page list is well formed and holds only blocks of its own page. */
  ghost predicate PagesOk(tbs: seq<Tb>, heads: seq<Link>) {
    && |heads| == CODE_REFCOUNT_PAGES && Descending(PageNext(tbs))
    && (forall p | 0 <= p < |heads| :: InRange(|tbs|, heads[p]))
    && (forall p, i | 0 <= p < |heads| && i in Members(PageNext(tbs), heads[p]) :: PageOf(tbs[i]) == p)
  }

  /** Every live block of a tracked page is on that page's list. */
  ghost predicate PagesComplete(tbs: seq<Tb>, heads: seq<Link>, gen: nat)
    requires PagesOk(tbs, heads)
  {
    forall i | 0 <= i < |tbs| && LiveTb(tbs[i], gen) && PageOf(tbs[i]) < |heads| ::
      i in Members(PageNext(tbs), heads[PageOf(tbs[i])])
  }

  /** The blocks a lookup can find. */
  ghost predicate Inserted(h: Hasher, tbs: seq<Tb>, hash: seq<Link>, i: nat)
    requires HasherOk(h) && HashOk(h, tbs, hash)
  {
    i < |tbs| && i in Members(HashNext(tbs), hash[h(tbs[i].code.pc, tbs[i].code.flags)])
  }

  /** i is the most recently inserted live block for (pc, flags). */
  ghost predicate Newest(h: Hasher, tbs: seq<Tb>, hash: seq<Link>, gen: nat, pc: nat, flags: nat, i: nat)
    requires HasherOk(h) && HashOk(h, tbs, hash)
  {
    && Inserted(h, tbs, hash, i) && LiveTb(tbs[i], gen) && HasKey(tbs[i], pc, flags)
    && forall j: nat | Inserted(h, tbs, hash, j) && LiveTb(tbs[j], gen) && HasKey(tbs[j], pc, flags) :: j <= i
  }

  // ----- chained jumps -----

  ghost predicate ShapeOk(tb: Tb) { |tb.code.jmpInsn| == |tb.code.jmpReset| == |tb.jmp.dest| == 2 }

  ghost predicate GensOk(tbs: seq<Tb>, gen: nat) {
    gen >= 1 && forall i | 0 <= i < |tbs| :: tbs[i].gen <= gen
  }

  /** An incoming edge names a patchable slot of an existing block. */
  ghost predicate ListedOk(tbs: seq<Tb>, e: Edge) {
    && e.0 < |tbs| && e.1 < 2 && ShapeOk(tbs[e.0]) && tbs[e.0].code.jmpInsn[e.1].Some?
  }

  /** Slot k of block x: if chained, to a finished block not yet invalidated, no older in
      generation, that knows about it. Edges into skip are excused as long as they are pending. */
  ghost predicate SlotOk(tbs: seq<Tb>, x: nat, k: nat, skip: Link, pending: seq<Edge>)
    requires x < |tbs| && k < 2 && ShapeOk(tbs[x])
  {
    tbs[x].jmp.dest[k].Some? ==>
      var d := tbs[x].jmp.dest[k].value;
      && d < |tbs| && tbs[x].gen <= tbs[d].gen && tbs[d].code.hostSize > 0 && tbs[x].code.jmpInsn[k].Some?
      && if Some(d) == skip then (x, k) in pending
         else !tbs[d].invalid && (x, k) in tbs[d].jmp.list
  }

  ghost predicate EdgesExcept(tbs: seq<Tb>, skip: Link, pending: seq<Edge>) {
    && (forall x | 0 <= x < |tbs| :: ShapeOk(tbs[x]) && Finished(tbs, tbs[x].exitTarget))
    && (forall x, k | 0 <= x < |tbs| && 0 <= k < 2 :: SlotOk(tbs, x, k, skip, pending))
    && (forall d, e | 0 <= d < |tbs| && e in tbs[d].jmp.list :: ListedOk(tbs, e))
    && (forall e | e in pending :: ListedOk(tbs, e))
  }

  ghost predicate EdgesOk(tbs: seq<Tb>) { EdgesExcept(tbs, None, []) }

  /** Patchable jumps come with a reset target, and no two slots share an instruction. */
  ghost predicate JumpsDistinct(tbs: seq<Tb>) {
    && (forall x | 0 <= x < |tbs| :: ShapeOk(tbs[x]))
    && (forall x, k | 0 <= x < |tbs| && 0 <= k < 2 :: tbs[x].code.jmpInsn[k].Some? <==> tbs[x].code.jmpReset[k].Some?)
    && (forall x, k, x', k' | 0 <= x < |tbs| && 0 <= k < 2 && 0 <= x' < |tbs| && 0 <= k' < 2 && (x, k) != (x', k')
          && tbs[x].code.jmpInsn[k].Some? :: tbs[x].code.jmpInsn[k] != tbs[x'].code.jmpInsn[k'])
  }

  /** Where the emitted jump of slot k of x lands: at the block it is chained to, or, while x is
      valid and unchained, at its reset target. */
  ghost predicate SlotLands(tbs: seq<Tb>, jumps: map<nat, nat>, x: nat, k: nat)
    requires x < |tbs| && k < 2 && ShapeOk(tbs[x])
  {
    tbs[x].code.jmpInsn[k].Some? && tbs[x].code.jmpReset[k].Some? ==>
      var o := tbs[x].code.jmpInsn[k].value;
      && o in jumps
      && (tbs[x].jmp.dest[k].Some? ==>
            && tbs[x].jmp.dest[k].value < |tbs|
            && jumps[o] == tbs[tbs[x].jmp.dest[k].value].code.hostOffset)
      && (tbs[x].jmp.dest[k].None? && !tbs[x].invalid ==> jumps[o] == tbs[x].code.jmpReset[k].value)
  }

  ghost predicate JumpsLand(tbs: seq<Tb>, jumps: map<nat, nat>) {
    && JumpsDistinct(tbs)
    && forall x, k | 0 <= x < |tbs| && 0 <= k < 2 :: SlotLands(tbs, jumps, x, k)
  }

  // ----- code pages -----

  ghost function LiveOn(tbs: seq<Tb>, gen: nat, page: nat): set<nat> {
    set i | 0 <= i < |tbs| && LiveTb(tbs[i], gen) && PageOf(tbs[i]) == page
  }

  function Saturated(n: nat): nat { if n < 255 then n else 255 }

  /** Each counter holds the number of live blocks on its page, up to saturation. */
  ghost predicate CountsExact(tbs: seq<Tb>, codePages: seq<nat>, gen: nat) {
    forall p | 0 <= p < |codePages| :: codePages[p] == Saturated(|LiveOn(tbs, gen, p)|)
  }

  // ----- consequences -----

  /** A direct jump out of a live block lands on the host code of a live block that lists it, or
      at its own reset target. */
  lemma LiveJumpLandsLive(tbs: seq<Tb>, gen: nat, jumps: map<nat, nat>, x: nat, k: nat)
    requires GensOk(tbs, gen) && EdgesOk(tbs) && JumpsLand(tbs, jumps)
    requires Live(tbs, gen, x) && k < 2 && ShapeOk(tbs[x]) && tbs[x].code.jmpInsn[k].Some?
    ensures var o := tbs[x].code.jmpInsn[k].value;
      o in jumps &&
      match tbs[x].jmp.dest[k]
      case None => Some(jumps[o]) == tbs[x].code.jmpReset[k]
      case Some(d) => Live(tbs, gen, d) && tbs[d].code.hostSize > 0 && (x, k) in tbs[d].jmp.list && jumps[o] == tbs[d].code.hostOffset
  {
    assert SlotOk(tbs, x, k, None, []);
    assert SlotLands(tbs, jumps, x, k);
  }

  /** A run through patched jumps: consecutive blocks are chained through some slot. */
  ghost predicate JumpPath(tbs: seq<Tb>, path: seq<nat>) {
    && (forall n | 0 <= n < |path| :: path[n] < |tbs| && ShapeOk(tbs[path[n]]))
    && forall n | 0 <= n < |path| - 1 :: ChainedTo(tbs, path[n], path[n + 1])
  }

  ghost predicate ChainedTo(tbs: seq<Tb>, x: nat, d: nat)
    requires x < |tbs| && ShapeOk(tbs[x])
  {
    exists k :: 0 <= k < 2 && tbs[x].jmp.dest[k] == Some(d)
  }

  /** However many patched jumps are followed from a live block, no stale block is reached. */
  lemma {:induction false} PathStaysLive(tbs: seq<Tb>, gen: nat, path: seq<nat>)
    requires GensOk(tbs, gen) && EdgesOk(tbs) && JumpPath(tbs, path)
    requires path != [] && Live(tbs, gen, path[0])
    ensures forall n | 0 <= n < |path| :: Live(tbs, gen, path[n]) && (n > 0 ==> tbs[path[n]].code.hostSize > 0)
    decreases |path|
  {
    if |path| > 1 {
      var last := |path| - 2;
      PathStaysLive(tbs, gen, path[..|path| - 1]);
      assert path[..|path| - 1][last] == path[last];
      assert ChainedTo(tbs, path[last], path[last + 1]);
      var k :| 0 <= k < 2 && tbs[path[last]].jmp.dest[k] == Some(path[last + 1]);
      assert SlotOk(tbs, path[last], k, None, []);
    }
  }
}
