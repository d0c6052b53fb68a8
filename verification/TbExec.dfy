/** The execution loop's use of the block store: finding, translating, chaining and recovering
    (accel/src/exec/exec_loop.rs, accel/src/ir/tb.rs, system/src/lib.rs). */
module TbExec {
  import opened Options
  import opened Chains
  import opened TbModel
  import opened TbLemmas
  import opened TbCache
  import opened PowersOfTwo

  const TB_JMP_CACHE_SIZE: nat := 4096
  const MIN_CODE_BUF_REMAINING: nat := 4096
  const CF_COUNT_MASK: nat := 65536

  // ----- exit values -----

  const TB_EXIT_MAX: nat := 3
  const MARKER: nat := 0x1_0000_0000

  function EncodeTbExit(tbIdx: nat, val: nat): nat {
    if val < TB_EXIT_MAX then (tbIdx + 1) * MARKER + val else val
  }

  function DecodeTbExit(raw: nat): (Link, nat) {
    var marker := raw / MARKER;
    if marker != 0 then (Some(marker - 1), raw % 4) else (None, raw)
  }

  /** A chainable exit names its block, and a real exit comes back unchanged, exactly when the
      value stays below the marker. */
  lemma ExitRoundTrip(tbIdx: nat, val: nat)
    ensures DecodeTbExit(EncodeTbExit(tbIdx, val)) == (if val < TB_EXIT_MAX then (Some(tbIdx), val) else (None, val))
            <==> val < MARKER
  {
    if val < TB_EXIT_MAX {
      DivModOf(tbIdx + 1, MARKER, val);
      DivModOf((tbIdx + 1) * 0x4000_0000, 4, val);
    }
  }

  // ----- per-CPU jump cache -----

  datatype JumpCacheEntry = JumpCacheEntry(tbIdx: Link, gen: nat)

  function CacheIndex(pc: nat): (i: nat)
    ensures i < TB_JMP_CACHE_SIZE
  {
    pc / 4 % TB_JMP_CACHE_SIZE
  }

  class JumpCache {
    const entries: array<JumpCacheEntry>
    var generation: nat

    ghost predicate Valid()
      reads this, entries
    {
      entries.Length == TB_JMP_CACHE_SIZE && generation >= 1
      && forall i | 0 <= i < entries.Length :: entries[i].gen <= generation
    }

    /** What a lookup of pc gives. */
    function Current(pc: nat): Link
      requires entries.Length == TB_JMP_CACHE_SIZE
      reads this, entries
    {
      var e := entries[CacheIndex(pc)];
      if e.gen == generation then e.tbIdx else None
    }

    /** Every block a lookup can give is a finished one of tbs. */
    ghost predicate Within(tbs: seq<Tb>)
      requires entries.Length == TB_JMP_CACHE_SIZE
      reads this, entries
    {
      forall i | 0 <= i < entries.Length :: entries[i].gen == generation ==> Finished(tbs, entries[i].tbIdx)
    }

    constructor ()
      ensures Valid() && Within([]) && fresh(entries) && forall pc :: Current(pc) == None
    {
      entries := new JumpCacheEntry[TB_JMP_CACHE_SIZE](_ => JumpCacheEntry(None, 0));
      generation := 1;
    }

    method Insert(pc: nat, idx: nat)
      requires Valid()
      modifies entries
      ensures Valid() && Current(pc) == Some(idx)
      ensures forall q :: CacheIndex(q) != CacheIndex(pc) ==> Current(q) == old(Current(q))
      ensures forall tbs | old(Within(tbs)) && Finished(tbs, Some(idx)) :: Within(tbs)
    {
      entries[CacheIndex(pc)] := JumpCacheEntry(Some(idx), generation);
    }

    /** Forgets everything by moving to the next generation. */
    method Invalidate()
      requires Valid()
      modifies this
      ensures Valid() && (forall tbs :: Within(tbs)) && forall pc :: Current(pc) == None
    {
      generation := generation + 1;
    }
  }

  // ----- host code -----

  /** Translated blocks occupy disjoint parts of the buffer between start and end, and their
      patchable jumps and their reset targets lie inside their own part. */
  ghost predicate RangesOk(tbs: seq<Tb>, start: nat, end: nat) {
    && (forall x | 0 <= x < |tbs| :: ShapeOk(tbs[x]) && RangeOk(tbs[x].code, start, end))
    && (forall x, y | 0 <= x < y < |tbs| :: DisjointCode(tbs[x].code, tbs[y].code))
  }

  ghost predicate RangeOk(c: TbCode, start: nat, end: nat)
    requires |c.jmpInsn| == |c.jmpReset| == 2
  {
    && (c.hostSize > 0 ==> start <= c.hostOffset && c.hostOffset + c.hostSize <= end)
    && (forall k | 0 <= k < 2 :: (c.jmpInsn[k].Some? <==> c.jmpReset[k].Some?)
          && (c.jmpInsn[k].Some? ==> c.hostOffset <= c.jmpInsn[k].value < c.jmpReset[k].value <= c.hostOffset + c.hostSize))
    && (c.jmpInsn[0].Some? ==> c.jmpInsn[0] != c.jmpInsn[1])
  }

  ghost predicate DisjointCode(a: TbCode, b: TbCode) {
    a.hostSize == 0 || b.hostSize == 0 || a.hostOffset + a.hostSize <= b.hostOffset || b.hostOffset + b.hostSize <= a.hostOffset
  }

  /** Disjoint code means that no two slots share a jump instruction. */
  lemma RangesGiveDistinctJumps(tbs: seq<Tb>, start: nat, end: nat)
    requires RangesOk(tbs, start, end)
    ensures JumpsDistinct(tbs)
  {
    forall x, k, y, l | 0 <= x < |tbs| && 0 <= k < 2 && 0 <= y < |tbs| && 0 <= l < 2 && (x, k) != (y, l) && tbs[x].code.jmpInsn[k].Some?
      ensures tbs[x].code.jmpInsn[k] != tbs[y].code.jmpInsn[l]
    {
      assert RangeOk(tbs[x].code, start, end) && RangeOk(tbs[y].code, start, end);
      if x < y { assert DisjointCode(tbs[x].code, tbs[y].code); }
      if y < x { assert DisjointCode(tbs[y].code, tbs[x].code); }
    }
  }

  lemma ShapesOk(tbs: seq<Tb>, start: nat, end: nat)
    requires RangesOk(tbs, start, end)
    ensures forall x | 0 <= x < |tbs| :: ShapeOk(tbs[x])
  {
  }

  /** Ranges only depend on where the code is. */
  lemma RangesSame(tbs: seq<Tb>, tbs': seq<Tb>, start: nat, end: nat)
    requires RangesOk(tbs, start, end) && |tbs'| == |tbs|
    requires forall x | 0 <= x < |tbs| ::
      && tbs'[x].code.(size := tbs[x].code.size, physPc := tbs[x].code.physPc) == tbs[x].code
      && |tbs'[x].jmp.dest| == 2
    ensures RangesOk(tbs', start, end) && JumpsDistinct(tbs')
  {
    forall x, y | 0 <= x < y < |tbs'| ensures DisjointCode(tbs'[x].code, tbs'[y].code) {
      assert DisjointCode(tbs[x].code, tbs[y].code);
    }
    forall x | 0 <= x < |tbs'| ensures ShapeOk(tbs'[x]) && RangeOk(tbs'[x].code, start, end) {
      assert RangeOk(tbs[x].code, start, end);
    }
    RangesGiveDistinctJumps(tbs', start, end);
  }

  /** A host address inside a translated block belongs to that block only. */
  lemma OwnerUnique(tbs: seq<Tb>, start: nat, end: nat, x: nat, y: nat, o: nat)
    requires RangesOk(tbs, start, end) && x < |tbs| && y < |tbs|
    requires tbs[x].code.hostOffset <= o < tbs[x].code.hostOffset + tbs[x].code.hostSize
    requires tbs[y].code.hostOffset <= o < tbs[y].code.hostOffset + tbs[y].code.hostSize
    ensures x == y
  {
    assert x < y ==> DisjointCode(tbs[x].code, tbs[y].code);
    assert y < x ==> DisjointCode(tbs[y].code, tbs[x].code);
  }

  // ----- the whole cache -----

  ghost predicate Consistent(store: TbStore, buf: CodeBuffer, cache: JumpCache, start: nat)
    reads store, store.hash, store.pageHeads, store.codePages, buf, cache, cache.entries
  {
    && store.Valid() && JumpsLand(store.tbs, buf.jumps)
    && RangesOk(store.tbs, start, buf.offset) && start <= buf.offset <= buf.size
    && cache.Valid() && cache.Within(store.tbs)
  }

  /** Where the jump of slot k of x goes: past itself in its own code, or to the start of the code
      of a live block that lists it. */
  ghost predicate LandsInCode(tbs: seq<Tb>, gen: nat, jumps: map<nat, nat>, start: nat, end: nat, x: nat, k: nat)
    requires x < |tbs| && k < 2 && ShapeOk(tbs[x]) && tbs[x].code.jmpInsn[k].Some?
  {
    var at := tbs[x].code.jmpInsn[k].value;
    && at in jumps
    && match tbs[x].jmp.dest[k]
       case None => at < jumps[at] <= tbs[x].code.hostOffset + tbs[x].code.hostSize <= end
       case Some(d) =>
         && Live(tbs, gen, d) && (x, k) in tbs[d].jmp.list && tbs[d].code.hostSize > 0
         && start <= jumps[at] == tbs[d].code.hostOffset && jumps[at] + tbs[d].code.hostSize <= end
  }

  /** A patched jump of a live block lands inside the emitted code. */
  lemma JumpLandsInCode(store: TbStore, buf: CodeBuffer, cache: JumpCache, start: nat, x: nat, k: nat)
    requires Consistent(store, buf, cache, start) && Live(store.tbs, store.gen, x) && k < 2
    ensures ShapeOk(store.tbs[x])
    ensures store.tbs[x].code.jmpInsn[k].Some? ==> LandsInCode(store.tbs, store.gen, buf.jumps, start, buf.offset, x, k)
  {
    hide HashOk, PagesOk, PagesComplete, DisjointCode, ListedOk;
    var tbs := store.tbs;
    assert ShapeOk(tbs[x]) && RangeOk(tbs[x].code, start, buf.offset);
    if tbs[x].code.jmpInsn[k].Some? {
      LiveJumpLandsLive(tbs, store.gen, buf.jumps, x, k);
      if tbs[x].jmp.dest[k].Some? { assert RangeOk(tbs[tbs[x].jmp.dest[k].value].code, start, buf.offset); }
    }
  }

  /** tb_add_jump: patch slot k of src to jump straight to dst. */
  method TbAddJump(store: TbStore, buf: CodeBuffer, cache: JumpCache, ghost start: nat, src: nat, k: nat, dst: nat)
    requires Consistent(store, buf, cache, start) && src < |store.tbs| && Finished(store.tbs, Some(dst)) && k < 2
    modifies store`tbs, buf`jumps
    ensures old(store.Counted()) ==> store.Counted()
    ensures Consistent(store, buf, cache, start) && JumpsOnly(old(store.tbs), store.tbs)
    ensures var o := store.tbs[src].code.jmpInsn[k];
      o.Some? && Live(store.tbs, store.gen, dst) ==>
        && o.value in buf.jumps && buf.jumps[o.value] == store.tbs[dst].code.hostOffset
        && store.tbs[src].jmp.dest[k] == Some(dst) && (src, k) in store.tbs[dst].jmp.list
    ensures old(store.tbs)[src].code.jmpInsn[k].None? || !old(Live(store.tbs, store.gen, dst)) ==>
      store.tbs == old(store.tbs) && buf.jumps == old(buf.jumps)
  {
    hide Inserted, CountsExact, JumpsLand, SlotOk, ListedOk, RangeOk, DisjointCode;
    var insn := store.tbs[src].code.jmpInsn[k];
    if insn.None? { return; }
    if store.tbs[dst].invalid || store.tbs[dst].gen != store.gen { return; }
    if store.tbs[src].jmp.dest[k] == Some(dst) {
      ChainedLands(store.tbs, buf.jumps, src, k, dst);
      return;
    }
    AddEdgeKeeps(store.tbs, buf.jumps, store.gen, src, k, dst);
    ghost var t0 := store.tbs;
    buf.PatchJump(insn.value, store.tbs[dst].code.hostOffset);
    store.tbs := AddEdge(store.tbs, src, k, dst);
    ChainingKeepsRest(store.bucketOf, t0, store.tbs, store.hash[..], store.pageHeads[..], store.codePages[..], store.gen, start, buf.offset);
  }

  /** Chaining state is invisible to lists, generations, counters and code ranges. */
  lemma ChainingKeepsRest(h: Hasher, tbs: seq<Tb>, tbs': seq<Tb>, hash: seq<Link>, heads: seq<Link>, counts: seq<nat>, gen: nat, start: nat, end: nat)
    requires JumpsOnly(tbs, tbs') && (forall x | 0 <= x < |tbs'| :: ShapeOk(tbs'[x]))
    requires HashOk(h, tbs, hash) && PagesOk(tbs, heads) && PagesComplete(tbs, heads, gen)
    requires GensOk(tbs, gen) && RangesOk(tbs, start, end)
    ensures HashOk(h, tbs', hash) && PagesOk(tbs', heads) && PagesComplete(tbs', heads, gen)
    ensures GensOk(tbs', gen) && RangesOk(tbs', start, end)
    ensures CountsExact(tbs, counts, gen) ==> CountsExact(tbs', counts, gen)
  {
    ListsKept(h, tbs, tbs', hash, heads);
    forall p ensures LiveOn(tbs', gen, p) == LiveOn(tbs, gen, p) { }
  }

  // ----- translation -----

  /** What one attempt to translate does: the guest fetch faults, the emitted code runs past the
      high-water mark, or the code fits, with the (jump, reset) offsets of its goto_tb slots
      counted from the start of the block's code. */
  datatype Attempt =
    | Fault
    | TooLong(size: nat, physPc: nat)
    | Done(size: nat, physPc: nat, hostSize: nat, gotos: seq<Option<(nat, nat)>>)

  /** What the backend promises: code is not empty, fits, and holds its own jumps, each ahead of
      its reset target. */
  ghost predicate AttemptOk(a: Attempt, room: nat) {
    a.Done? ==>
      && 0 < a.hostSize <= room && |a.gotos| == 2
      && (forall k | 0 <= k < 2 :: a.gotos[k].Some? ==> a.gotos[k].value.0 < a.gotos[k].value.1 <= a.hostSize)
      && (a.gotos[0].Some? && a.gotos[1].Some? ==> a.gotos[0].value.0 != a.gotos[1].value.0)
  }

  /** The outcome of attempt n under an instruction limit, with the given room in the buffer. */
  type Translator = (nat, nat, nat) -> Attempt

  ghost predicate TranslatorOk(t: Translator) { forall n, limit, room :: AttemptOk(t(n, limit, room), room) }

  function MaxInsns(cflags: nat): nat {
    var count := cflags % CF_COUNT_MASK;
    if count == 0 then 512 else count
  }

  function Halve(n: nat): nat { if n / 2 >= 1 then n / 2 else 1 }

  /** The block at the end of the vector, just allocated: in no list, not live. */
  ghost predicate Fresh(store: TbStore, i: nat)
    reads store, store.hash, store.pageHeads
  {
    && i + 1 == |store.tbs| && store.hash.Length == TB_HASH_SIZE && store.pageHeads.Length == CODE_REFCOUNT_PAGES
    && store.tbs[i].gen == 0 && !store.tbs[i].invalid && store.tbs[i].hashNext == store.tbs[i].pageNext == None
    && store.tbs[i].jmp == TbJmpState([None, None], [])
    && store.tbs[i].code.hostSize == 0 && store.tbs[i].code.jmpInsn == [None, None] == store.tbs[i].code.jmpReset
    && store.tbs[i].exitTarget == None
    && (forall b | 0 <= b < store.hash.Length :: InRange(i, store.hash[b]))
    && (forall p | 0 <= p < store.pageHeads.Length :: InRange(i, store.pageHeads[p]))
  }

  /** A change of the last block, which is in no list and has no edge, keeps the rest. */
  lemma LastBlockFree(h: Hasher, tbs: seq<Tb>, hash: seq<Link>, heads: seq<Link>, tb: Tb)
    requires tbs != [] && HashOk(h, tbs, hash) && PagesOk(tbs, heads)
    requires forall b | 0 <= b < |hash| :: InRange(|tbs| - 1, hash[b])
    requires forall p | 0 <= p < |heads| :: InRange(|tbs| - 1, heads[p])
    requires tb.hashNext == tbs[|tbs| - 1].hashNext && tb.pageNext == tbs[|tbs| - 1].pageNext
    ensures var tbs' := tbs[|tbs| - 1 := tb];
      HashNext(tbs') == HashNext(tbs) && PageNext(tbs') == PageNext(tbs) && HashOk(h, tbs', hash) && PagesOk(tbs', heads)
  {
    var tbs' := tbs[|tbs| - 1 := tb];
    assert HashNext(tbs') == HashNext(tbs) && PageNext(tbs') == PageNext(tbs);
  }

  /** An unchained block may change its code and its generation. */
  lemma UnchainedFree(tbs: seq<Tb>, jumps: map<nat, nat>, jumps': map<nat, nat>, i: nat, tb: Tb)
    requires EdgesOk(tbs) && JumpsLand(tbs, jumps) && i < |tbs|
    requires tbs[i].jmp == tb.jmp == TbJmpState([None, None], []) && ShapeOk(tb) && tb.exitTarget == tbs[i].exitTarget
    requires tbs[i].code.jmpInsn == [None, None] && (tbs[i].code.hostSize > 0 ==> tb.code.hostSize > 0)
    requires JumpsDistinct(tbs[i := tb])
    requires forall o | o in jumps && (forall k | 0 <= k < 2 :: tb.code.jmpInsn[k] != Some(o)) :: o in jumps' && jumps'[o] == jumps[o]
    requires forall k | 0 <= k < 2 :: tb.code.jmpInsn[k].Some? ==> tb.code.jmpInsn[k].value in jumps' && Some(jumps'[tb.code.jmpInsn[k].value]) == tb.code.jmpReset[k]
    ensures EdgesOk(tbs[i := tb]) && JumpsLand(tbs[i := tb], jumps')
  {
    var tbs' := tbs[i := tb];
    forall x, k | 0 <= x < |tbs'| && 0 <= k < 2
      ensures SlotOk(tbs', x, k, None, []) && SlotLands(tbs', jumps', x, k)
    {
      assert SlotOk(tbs, x, k, None, []);
      assert SlotLands(tbs, jumps, x, k);
      assert forall l | 0 <= l < 2 && x != i && tbs'[x].code.jmpInsn[k].Some? :: tbs'[x].code.jmpInsn[k] != tbs'[i].code.jmpInsn[l];
    }
    forall c, e | 0 <= c < |tbs'| && e in tbs'[c].jmp.list ensures ListedOk(tbs', e) { assert ListedOk(tbs, e); }
  }

  /** Stamps a fresh block with its size, page and the current generation, and lists it. */
  method Publish(store: TbStore, ghost buf: CodeBuffer, i: nat, size: nat, physPc: nat, ghost start: nat, ghost end: nat)
    requires store.Valid() && JumpsLand(store.tbs, buf.jumps) && RangesOk(store.tbs, start, end) && Fresh(store, i)
    modifies store`tbs, store.pageHeads, store.codePages
    ensures old(store.Counted()) ==> store.Counted()
    ensures store.Valid() && JumpsLand(store.tbs, buf.jumps) && RangesOk(store.tbs, start, end)
    ensures |store.tbs| == |old(store.tbs)| && (forall x | 0 <= x < i :: store.tbs[x] == old(store.tbs)[x])
    ensures HashNext(store.tbs) == old(HashNext(store.tbs))
    ensures store.tbs[i] == old(store.tbs)[i].(code := old(store.tbs)[i].code.(size := size, physPc := physPc), gen := store.gen,
                                               pageNext := store.tbs[i].pageNext)
  {
    hide EdgesExcept, RangesOk, JumpsLand, CountsExact, JumpsDistinct;
    ghost var t0 := store.tbs;
    var tb := store.tbs[i].(code := store.tbs[i].code.(size := size, physPc := physPc), gen := store.gen);
    LastBlockFree(store.bucketOf, t0, store.hash[..], store.pageHeads[..], tb);
    ShapesOk(t0, start, end);
    RangesSame(t0, t0[i := tb], start, end);
    UnchainedFree(t0, buf.jumps, buf.jumps, i, tb);
    store.tbs := store.tbs[i := tb];
    store.MarkCodePage(physPc / PAGE_SIZE, i, buf);
    RangesSame(t0, store.tbs, start, end);
    OneMoreLive(t0, store.tbs, old(store.codePages[..]), store.codePages[..], store.gen, i, physPc / PAGE_SIZE);
  }

  /** A block that becomes live adds one to the counter of its page. */
  lemma OneMoreLive(tbs: seq<Tb>, tbs': seq<Tb>, counts: seq<nat>, counts': seq<nat>, gen: nat, i: nat, p: nat)
    requires |tbs'| == |tbs| && i < |tbs|
    requires forall x | 0 <= x < |tbs| && x != i :: tbs'[x] == tbs[x].(pageNext := tbs'[x].pageNext)
    requires !LiveTb(tbs[i], gen) && LiveTb(tbs'[i], gen) && PageOf(tbs'[i]) == p
    requires counts' == if p < |counts| then counts[p := Saturated(counts[p] + 1)] else counts
    ensures CountsExact(tbs, counts, gen) ==> CountsExact(tbs', counts', gen)
  {
    assert LiveOn(tbs', gen, p) == LiveOn(tbs, gen, p) + {i};
    forall q | q != p ensures LiveOn(tbs', gen, q) == LiveOn(tbs, gen, q) { }
  }

  function SlotOffset(a: Attempt, host: nat, k: nat, reset: bool): Link
    requires a.Done? && k < |a.gotos|
  {
    match a.gotos[k] case None => None case Some((jmp, target)) => Some(host + if reset then target else jmp)
  }

  function FinishedCode(c: TbCode, a: Attempt, host: nat): TbCode
    requires a.Done? && |a.gotos| == 2
  {
    c.(hostOffset := host, hostSize := a.hostSize,
       jmpInsn := [SlotOffset(a, host, 0, false), SlotOffset(a, host, 1, false)],
       jmpReset := [SlotOffset(a, host, 0, true), SlotOffset(a, host, 1, true)])
  }

  /** Code emitted at the cursor is disjoint from everything before it. */
  lemma RangesExtend(tbs: seq<Tb>, start: nat, end: nat, i: nat, a: Attempt, tb: Tb)
    requires RangesOk(tbs, start, end) && start <= end && i < |tbs| && tbs[i].code.hostSize == 0
    requires a.Done? && AttemptOk(a, a.hostSize) && tb == tbs[i].(code := FinishedCode(tbs[i].code, a, end))
    ensures RangesOk(tbs[i := tb], start, end + a.hostSize) && JumpsDistinct(tbs[i := tb])
  {
    var tbs' := tbs[i := tb];
    forall x | 0 <= x < |tbs'| ensures ShapeOk(tbs'[x]) && RangeOk(tbs'[x].code, start, end + a.hostSize) {
      assert RangeOk(tbs[x].code, start, end);
      if x == i { FinishedRange(tbs[i].code, a, start, end); }
    }
    forall x, y | 0 <= x < y < |tbs'| ensures DisjointCode(tbs'[x].code, tbs'[y].code) {
      assert RangeOk(tbs[x].code, start, end) && RangeOk(tbs[y].code, start, end);
      assert DisjointCode(tbs[x].code, tbs[y].code);
    }
    RangesGiveDistinctJumps(tbs', start, end + a.hostSize);
  }

  lemma FinishedRange(c: TbCode, a: Attempt, start: nat, end: nat)
    requires start <= end && a.Done? && AttemptOk(a, a.hostSize)
    ensures RangeOk(FinishedCode(c, a, end), start, end + a.hostSize)
  {
    var d := FinishedCode(c, a, end);
    assert a.gotos[0].Some? ==> a.gotos[0].value.0 < a.gotos[0].value.1 <= a.hostSize;
    assert a.gotos[1].Some? ==> a.gotos[1].value.0 < a.gotos[1].value.1 <= a.hostSize;
  }

  /** The jump targets in the buffer once the goto_tb slots of a are emitted at host: each slot
      first jumps to its reset target. */
  function WithJumps(jumps: map<nat, nat>, a: Attempt, host: nat): map<nat, nat>
    requires a.Done? && |a.gotos| == 2
  {
    var j := if a.gotos[0].Some? then jumps[host + a.gotos[0].value.0 := host + a.gotos[0].value.1] else jumps;
    if a.gotos[1].Some? then j[host + a.gotos[1].value.0 := host + a.gotos[1].value.1] else j
  }

  lemma WithJumpsLand(jumps: map<nat, nat>, a: Attempt, host: nat, c: TbCode)
    requires a.Done? && AttemptOk(a, a.hostSize) && exists d :: c == FinishedCode(d, a, host)
    ensures var j := WithJumps(jumps, a, host);
      && (forall o | o in jumps && (forall k | 0 <= k < 2 :: c.jmpInsn[k] != Some(o)) :: o in j && j[o] == jumps[o])
      && (forall k | 0 <= k < 2 :: c.jmpInsn[k].Some? ==> c.jmpInsn[k].value in j && Some(j[c.jmpInsn[k].value]) == c.jmpReset[k])
  {
    assert c.jmpInsn[0] == SlotOffset(a, host, 0, false) && c.jmpInsn[1] == SlotOffset(a, host, 1, false);
  }

  /** Emits the code of a published block at the cursor and records where it is. */
  method Emit(store: TbStore, buf: CodeBuffer, i: nat, a: Attempt, ghost start: nat)
    requires store.Valid() && JumpsLand(store.tbs, buf.jumps) && RangesOk(store.tbs, start, buf.offset) && start <= buf.offset
    requires i + 1 == |store.tbs| && store.tbs[i].code.hostSize == 0 && store.tbs[i].code.jmpInsn == [None, None]
    requires store.tbs[i].jmp == TbJmpState([None, None], [])
    requires buf.offset <= buf.size && a.Done? && AttemptOk(a, buf.size - buf.offset)
    modifies store`tbs, buf`offset, buf`jumps
    ensures old(store.Counted()) ==> store.Counted()
    ensures store.Valid() && JumpsLand(store.tbs, buf.jumps) && RangesOk(store.tbs, start, buf.offset)
    ensures buf.offset == old(buf.offset) + a.hostSize
    ensures store.tbs == old(store.tbs)[i := old(store.tbs)[i].(code := FinishedCode(old(store.tbs)[i].code, a, old(buf.offset)))]
    ensures HashNext(store.tbs) == old(HashNext(store.tbs))
  {
    hide EdgesExcept, RangesOk, JumpsLand, JumpsDistinct;
    var host := buf.offset;
    var code := FinishedCode(store.tbs[i].code, a, host);
    ghost var t0, j0 := store.tbs, buf.jumps;
    var tb := store.tbs[i].(code := code);
    buf.offset := buf.offset + a.hostSize;
    buf.jumps := WithJumps(buf.jumps, a, host);
    WithJumpsLand(j0, a, host, code);
    RangesExtend(t0, start, host, i, a, tb);
    UnchainedFree(t0, j0, buf.jumps, i, tb);
    store.tbs := store.tbs[i := tb];
    ListsSame(store.bucketOf, t0, store.tbs, store.hash[..], store.pageHeads[..], store.codePages[..], store.gen);
  }

  /** Where the code is does not matter to lists, generations and counters. */
  lemma ListsSame(h: Hasher, tbs: seq<Tb>, tbs': seq<Tb>, hash: seq<Link>, heads: seq<Link>, counts: seq<nat>, gen: nat)
    requires HashOk(h, tbs, hash) && PagesOk(tbs, heads) && PagesComplete(tbs, heads, gen) && GensOk(tbs, gen)
    requires |tbs'| == |tbs| && forall x | 0 <= x < |tbs| ::
      && tbs'[x].hashNext == tbs[x].hashNext && tbs'[x].pageNext == tbs[x].pageNext
      && tbs'[x].gen == tbs[x].gen && tbs'[x].invalid == tbs[x].invalid
      && HasKey(tbs'[x], tbs[x].code.pc, tbs[x].code.flags) && tbs'[x].code.physPc == tbs[x].code.physPc
      && (tbs[x].code.hostSize > 0 ==> tbs'[x].code.hostSize > 0)
    ensures HashOk(h, tbs', hash) && PagesOk(tbs', heads) && PagesComplete(tbs', heads, gen) && GensOk(tbs', gen)
    ensures CountsExact(tbs, counts, gen) ==> CountsExact(tbs', counts, gen)
    ensures HashNext(tbs') == HashNext(tbs)
  {
    assert HashNext(tbs') == HashNext(tbs) && PageNext(tbs') == PageNext(tbs);
    forall p ensures LiveOn(tbs', gen, p) == LiveOn(tbs, gen, p) { }
  }

  /** A block whose guest fetch faulted is dropped without ever having been listed. */
  method Discard(store: TbStore, ghost buf: CodeBuffer, i: nat, ghost start: nat)
    requires store.Valid() && JumpsLand(store.tbs, buf.jumps) && RangesOk(store.tbs, start, buf.offset) && Fresh(store, i)
    modifies store`tbs
    ensures old(store.Counted()) ==> store.Counted()
    ensures store.Valid() && JumpsLand(store.tbs, buf.jumps) && RangesOk(store.tbs, start, buf.offset)
    ensures store.tbs == old(store.tbs)[i := old(store.tbs)[i].(invalid := true)]
  {
    hide EdgesExcept, RangesOk, JumpsLand, JumpsDistinct;
    ghost var t0 := store.tbs;
    ShapesOk(t0, start, buf.offset);
    RangesSame(t0, t0[i := t0[i].(invalid := true)], start, buf.offset);
    UnchainedFree(t0, buf.jumps, buf.jumps, i, t0[i].(invalid := true));
    store.tbs := store.tbs[i := store.tbs[i].(invalid := true)];
    LastBlockFree(store.bucketOf, t0, store.hash[..], store.pageHeads[..], store.tbs[i]);
    forall p ensures LiveOn(store.tbs, store.gen, p) == LiveOn(t0, store.gen, p) { }
  }

  /** Old blocks keep everything but their list links. */
  ghost predicate Extends(tbs: seq<Tb>, tbs': seq<Tb>) {
    |tbs| <= |tbs'| && forall x | 0 <= x < |tbs| :: tbs'[x] == tbs[x].(hashNext := tbs'[x].hashNext, pageNext := tbs'[x].pageNext)
  }

  /** Allocates a block that nothing refers to yet. */
  method AllocFresh(store: TbStore, ghost buf: CodeBuffer, ghost start: nat, pc: nat, flags: nat, cflags: nat) returns (r: Link)
    requires store.Valid() && JumpsLand(store.tbs, buf.jumps) && RangesOk(store.tbs, start, buf.offset)
    modifies store`tbs
    ensures old(store.Counted()) ==> store.Counted()
    ensures store.Valid() && JumpsLand(store.tbs, buf.jumps) && RangesOk(store.tbs, start, buf.offset)
    ensures store.tbs == if r.Some? then old(store.tbs) + [NewTb(pc, flags, cflags)] else old(store.tbs)
    ensures r.Some? ==> r.value == |old(store.tbs)| && Fresh(store, r.value)
  {
    hide JumpsLand, EdgesOk, CountsExact, RangesOk;
    ghost var t0 := store.tbs;
    r := store.Alloc(pc, flags, cflags);
    if r.None? { return; }
    FreshShape(t0, store.tbs, buf.jumps, start, buf.offset, r.value);
    JustAllocated(store, t0, pc, flags, cflags);
  }

  /** One attempt: allocate, translate, publish and emit. Gives the finished block, or None with
      retry set when the code did not fit. */
  method TryTranslate(store: TbStore, buf: CodeBuffer, cache: JumpCache, ghost start: nat, pc: nat, flags: nat, cflags: nat, a: Attempt)
      returns (r: Link, retry: bool)
    requires Consistent(store, buf, cache, start) && AttemptOk(a, buf.size - buf.offset)
    modifies store`tbs, store.pageHeads, store.codePages, buf`offset, buf`jumps
    ensures old(store.Counted()) ==> store.Counted()
    ensures Consistent(store, buf, cache, start) && Extends(old(store.tbs), store.tbs)
    ensures |store.tbs| <= |old(store.tbs)| + 1
    ensures r.None? ==> buf.offset == old(buf.offset)
    ensures retry ==> r.None? && |store.tbs| == |old(store.tbs)| + 1
    ensures r.Some? ==>
      && r.value == |old(store.tbs)| && |store.tbs| == |old(store.tbs)| + 1
      && Live(store.tbs, store.gen, r.value) && HasKey(store.tbs[r.value], pc, flags) && store.tbs[r.value].code.hostSize > 0
      && forall b | 0 <= b < store.hash.Length :: InRange(r.value, store.hash[b])
  {
    hide JumpsLand, TbStore.ValidCore, PagesComplete, CountsExact, RangesOk, HashNext;
    var idx := AllocFresh(store, buf, start, pc, flags, cflags);
    if idx.None? { return None, false; }
    var i := idx.value;
    match a {
      case Fault =>
        Discard(store, buf, i, start);
        return None, false;
      case TooLong(size, physPc) =>
        Publish(store, buf, i, size, physPc, start, buf.offset);
        return None, true;
      case Done(size, physPc, hostSize, gotos) =>
        Publish(store, buf, i, size, physPc, start, buf.offset);
        Emit(store, buf, i, a, start);
        return idx, false;
    }
  }

  lemma JustAllocated(store: TbStore, tbs: seq<Tb>, pc: nat, flags: nat, cflags: nat)
    requires HashOk(store.bucketOf, tbs, store.hash[..]) && PagesOk(tbs, store.pageHeads[..])
    requires store.hash.Length == TB_HASH_SIZE && store.pageHeads.Length == CODE_REFCOUNT_PAGES
    requires store.tbs == tbs + [NewTb(pc, flags, cflags)]
    ensures Fresh(store, |tbs|)
  {
    assert forall b | 0 <= b < store.hash.Length :: store.hash[b] == store.hash[..][b];
    assert forall p | 0 <= p < store.pageHeads.Length :: store.pageHeads[p] == store.pageHeads[..][p];
  }

  lemma FreshShape(tbs: seq<Tb>, tbs': seq<Tb>, jumps: map<nat, nat>, start: nat, end: nat, i: nat)
    requires RangesOk(tbs, start, end) && JumpsLand(tbs, jumps) && i == |tbs|
    requires exists pc, flags, cflags :: tbs' == tbs + [NewTb(pc, flags, cflags)]
    ensures RangesOk(tbs', start, end) && JumpsLand(tbs', jumps)
  {
    forall x | 0 <= x < |tbs'| ensures ShapeOk(tbs'[x]) && RangeOk(tbs'[x].code, start, end) {
      if x < |tbs| { assert RangeOk(tbs[x].code, start, end); }
    }
    forall x, y | 0 <= x < y < |tbs'| ensures DisjointCode(tbs'[x].code, tbs'[y].code) {
      if y < |tbs| { assert DisjointCode(tbs[x].code, tbs[y].code); }
    }
    RangesGiveDistinctJumps(tbs', start, end);
    forall x, k | 0 <= x < |tbs'| && 0 <= k < 2 ensures SlotLands(tbs', jumps, x, k) {
      if x < |tbs| { assert SlotLands(tbs, jumps, x, k); }
    }
  }

  /** Makes a finished block findable. */
  method Remember(store: TbStore, ghost buf: CodeBuffer, cache: JumpCache, ghost start: nat, pc: nat, i: nat)
    requires Consistent(store, buf, cache, start) && Finished(store.tbs, Some(i))
    requires forall b | 0 <= b < store.hash.Length :: InRange(i, store.hash[b])
    modifies store`tbs, store.hash, cache.entries
    ensures old(store.Counted()) ==> store.Counted()
    ensures Consistent(store, buf, cache, start) && HashLinksOnly(old(store.tbs), store.tbs)
    ensures Inserted(store.bucketOf, store.tbs, store.hash[..], i) && cache.Current(pc) == Some(i)
  {
    hide JumpsLand, EdgesOk, CountsExact, RangesOk, Inserted;
    ghost var t0 := store.tbs;
    store.Insert(i, buf);
    HashLinksInvisible(t0, store.tbs, store.codePages[..], store.gen, start, buf.offset);
    cache.Insert(pc, i);
  }

  lemma HashLinksInvisible(tbs: seq<Tb>, tbs': seq<Tb>, counts: seq<nat>, gen: nat, start: nat, end: nat)
    requires HashLinksOnly(tbs, tbs') && RangesOk(tbs, start, end)
    ensures RangesOk(tbs', start, end)
    ensures CountsExact(tbs, counts, gen) ==> CountsExact(tbs', counts, gen)
  {
    RangesSame(tbs, tbs', start, end);
    forall p ensures LiveOn(tbs', gen, p) == LiveOn(tbs, gen, p) { }
  }

  /** The instruction limit after n overflows of an unlimited translation. */
  function LimitAfter(n: nat): nat { if n == 0 then 512 else Halve(LimitAfter(n - 1)) }

  lemma LimitFalls(n: nat)
    ensures LimitAfter(0) == 512 && LimitAfter(n + 1) == Halve(LimitAfter(n)) && (n == 8 ==> LimitAfter(n + 1) == 1)
  {
    assert LimitAfter(3) == 64;
    assert LimitAfter(6) == 8;
    assert LimitAfter(9) == 1;
  }

  /** tb_gen_code. physNow is the current translation of pc, None when it is unknown. */
  method TbGenCode(store: TbStore, buf: CodeBuffer, cache: JumpCache, ghost start: nat,
                   pc: nat, flags: nat, cflags: nat, physNow: Link, translate: Translator) returns (r: Link)
    requires Consistent(store, buf, cache, start)
    requires TranslatorOk(translate)
    modifies store`tbs, store.hash, store.pageHeads, store.codePages, buf`offset, buf`jumps, cache.entries
    ensures old(store.Counted()) ==> store.Counted()
    ensures Consistent(store, buf, cache, start) && Extends(old(store.tbs), store.tbs)
    ensures r.Some? ==> Live(store.tbs, store.gen, r.value) && HasKey(store.tbs[r.value], pc, flags)
    ensures r.Some? && r.value < |old(store.tbs)| ==> Some(store.tbs[r.value].code.physPc) == physNow && cflags == 0
    ensures Finished(store.tbs, r)
    ensures r.Some? && cflags == 0 ==> Inserted(store.bucketOf, store.tbs, store.hash[..], r.value) && cache.Current(pc) == r
    ensures r.None? ==> buf.offset == old(buf.offset)
    ensures cflags == 0 ==> |store.tbs| <= |old(store.tbs)| + 9
    ensures MaxInsns(cflags) == 1 ==> |store.tbs| <= |old(store.tbs)| + 1
  {
    hide Inserted;
    if buf.size - buf.offset < MIN_CODE_BUF_REMAINING { return None; }
    if cflags == 0 {
      r := FindAgain(store, buf, cache, start, pc, flags, physNow);
      if r.Some? { return; }
    }
    r := TranslateLoop(store, buf, cache, start, pc, flags, cflags, translate);
  }

  /** Another thread may have translated pc while the lock was awaited. */
  method FindAgain(store: TbStore, ghost buf: CodeBuffer, cache: JumpCache, ghost start: nat, pc: nat, flags: nat, physNow: Link) returns (r: Link)
    requires Consistent(store, buf, cache, start)
    modifies cache.entries
    ensures old(store.Counted()) ==> store.Counted()
    ensures Consistent(store, buf, cache, start)
    ensures r.Some? ==>
      && Live(store.tbs, store.gen, r.value) && HasKey(store.tbs[r.value], pc, flags)
      && Some(store.tbs[r.value].code.physPc) == physNow && store.tbs[r.value].code.hostSize > 0
      && Inserted(store.bucketOf, store.tbs, store.hash[..], r.value) && cache.Current(pc) == r
    ensures r.None? ==> !Reusable(store, pc, flags, physNow)
  {
    hide JumpsLand, EdgesOk, CountsExact, RangesOk, Inserted, Newest;
    r := store.Lookup(pc, flags);
    NewestOnly(store, pc, flags, r);
    if r.None? { return; }
    FoundFacts(store, pc, flags, r.value);
    if physNow != Some(store.tbs[r.value].code.physPc) { return None; }
    cache.Insert(pc, r.value);
  }

  /** Translation with fewer and fewer instructions until the code fits. */
  method TranslateLoop(store: TbStore, buf: CodeBuffer, cache: JumpCache, ghost start: nat,
                       pc: nat, flags: nat, cflags: nat, translate: Translator) returns (r: Link)
    requires Consistent(store, buf, cache, start)
    requires TranslatorOk(translate)
    modifies store`tbs, store.hash, store.pageHeads, store.codePages, buf`offset, buf`jumps, cache.entries
    ensures old(store.Counted()) ==> store.Counted()
    ensures Consistent(store, buf, cache, start) && Extends(old(store.tbs), store.tbs)
    ensures r.Some? ==>
      && Live(store.tbs, store.gen, r.value) && HasKey(store.tbs[r.value], pc, flags)
      && r.value >= |old(store.tbs)| && store.tbs[r.value].code.hostSize > 0
      && (cflags == 0 ==> Inserted(store.bucketOf, store.tbs, store.hash[..], r.value) && cache.Current(pc) == r)
    ensures r.None? ==> buf.offset == old(buf.offset)
    ensures cflags == 0 ==> |store.tbs| <= |old(store.tbs)| + 9
    ensures MaxInsns(cflags) == 1 ==> |store.tbs| <= |old(store.tbs)| + 1
  {
    hide Inserted, Consistent, CountsExact, LimitAfter, TbStore.ValidCore, PagesComplete;
    var ephemeral := cflags != 0;
    var limit := MaxInsns(cflags);
    var saved := buf.offset;
    StoreBound(store, buf, cache, start);
    LimitFalls(0);
    var n := 0;
    while true
      invariant Consistent(store, buf, cache, start) && Extends(old(store.tbs), store.tbs) && |store.tbs| <= MAX_TBS
      invariant old(store.Counted()) ==> store.Counted()
      invariant buf.offset == saved == old(buf.offset)
      invariant |store.tbs| == |old(store.tbs)| + n
      invariant cflags == 0 ==> n <= 8 && limit == LimitAfter(n)
      invariant MaxInsns(cflags) == 1 ==> n == 0 && limit == 1
      decreases MAX_TBS - |store.tbs|
    {
      var idx, retry := TryTranslate(store, buf, cache, start, pc, flags, cflags, translate(n, limit, buf.size - buf.offset));
      StoreBound(store, buf, cache, start);
      if idx.Some? {
        if !ephemeral { Remember(store, buf, cache, start, pc, idx.value); }
        return idx;
      }
      if !retry { return None; }
      LimitFalls(n);
      n := n + 1;
      limit := Halve(limit);
      var giveUp := if ephemeral then limit == 1 && MaxInsns(cflags) == 1 else limit == 1;
      if giveUp { return None; }
    }
  }

  lemma StoreBound(store: TbStore, buf: CodeBuffer, cache: JumpCache, start: nat)
    requires Consistent(store, buf, cache, start)
    ensures |store.tbs| <= MAX_TBS && buf.offset <= buf.size
  {
  }

  /** The block a lookup finds is still the one at this physical address. */
  ghost predicate Reusable(store: TbStore, pc: nat, flags: nat, physNow: Link)
    requires store.ValidCore()
    reads store, store.hash, store.pageHeads, store.codePages
  {
    exists i: nat :: Newest(store.bucketOf, store.tbs, store.hash[..], store.gen, pc, flags, i) && Some(store.tbs[i].code.physPc) == physNow
  }

  lemma NewestOnly(store: TbStore, pc: nat, flags: nat, r: Link)
    requires store.ValidCore()
    requires r.Some? ==> Newest(store.bucketOf, store.tbs, store.hash[..], store.gen, pc, flags, r.value)
    requires r.None? ==> forall j: nat | Inserted(store.bucketOf, store.tbs, store.hash[..], j) && LiveTb(store.tbs[j], store.gen) ::
      !HasKey(store.tbs[j], pc, flags)
    ensures forall i: nat | Newest(store.bucketOf, store.tbs, store.hash[..], store.gen, pc, flags, i) :: r == Some(i)
  {
  }

  lemma FoundFacts(store: TbStore, pc: nat, flags: nat, i: nat)
    requires store.ValidCore() && Newest(store.bucketOf, store.tbs, store.hash[..], store.gen, pc, flags, i)
    ensures Live(store.tbs, store.gen, i) && HasKey(store.tbs[i], pc, flags) && store.tbs[i].code.hostSize > 0
    ensures Inserted(store.bucketOf, store.tbs, store.hash[..], i)
  {
  }

  /** tb_find: jump cache, then hash table, then translation. physNow is the translation of pc
      read first, physAgain the one read again under the translation lock. */
  method TbFind(store: TbStore, buf: CodeBuffer, cache: JumpCache, ghost start: nat,
                pc: nat, flags: nat, physNow: Link, physAgain: Link, translate: Translator) returns (r: Link)
    requires Consistent(store, buf, cache, start) && TranslatorOk(translate)
    modifies store`tbs, store.hash, store.pageHeads, store.codePages, buf`offset, buf`jumps, cache.entries
    ensures Consistent(store, buf, cache, start) && Extends(old(store.tbs), store.tbs)
    ensures old(store.Counted()) ==> store.Counted()
    ensures r.Some? ==> Live(store.tbs, store.gen, r.value) && HasKey(store.tbs[r.value], pc, flags) && store.tbs[r.value].code.hostSize > 0
    ensures r.Some? && r.value < |old(store.tbs)| ==>
      Some(store.tbs[r.value].code.physPc) == physNow || Some(store.tbs[r.value].code.physPc) == physAgain
    ensures physNow.Some? && r.Some? && |store.tbs| == |old(store.tbs)| && physNow == physAgain ==> store.tbs[r.value].code.physPc == physNow.value
    ensures physNow.Some? && old(Reusable(store, pc, flags, physNow)) ==> r.Some? && store.tbs == old(store.tbs) && buf.offset == old(buf.offset)
  {
    hide JumpsLand, EdgesOk, CountsExact, RangesOk, Inserted, Newest;
    if physNow.None? {
      r := TbGenCode(store, buf, cache, start, pc, flags, 0, physAgain, translate);
      return;
    }
    var c := cache.Current(pc);
    if c.Some? {
      assert cache.entries[CacheIndex(pc)].gen == cache.generation;
      var tb := store.tbs[c.value];
      if !tb.invalid && tb.gen == store.gen && tb.code.pc == pc && tb.code.flags == flags && Some(tb.code.physPc) == physNow {
        return c;
      }
    }
    var f := FindAgain(store, buf, cache, start, pc, flags, physNow);
    if f.Some? { return f; }
    r := TbGenCode(store, buf, cache, start, pc, flags, 0, physAgain, translate);
  }

  /** The single-entry target cache of an indirect exit: used only when it still fits. */
  method ExitTargetHit(store: TbStore, src: nat, pc: nat, flags: nat) returns (r: Link)
    requires store.Valid() && src < |store.tbs|
    ensures r.Some? ==> Live(store.tbs, store.gen, r.value) && HasKey(store.tbs[r.value], pc, flags) && store.tbs[r.value].code.hostSize > 0
    ensures r.Some? ==> r == store.tbs[src].exitTarget
    ensures r.None? ==> forall t | store.tbs[src].exitTarget == Some(t) && Live(store.tbs, store.gen, t) :: !HasKey(store.tbs[t], pc, flags)
  {
    r := store.tbs[src].exitTarget;
    if r.Some? {
      var tb := store.tbs[r.value];
      if tb.invalid || tb.gen != store.gen || tb.code.pc != pc || tb.code.flags != flags { r := None; }
    }
  }

  method SetExitTarget(store: TbStore, buf: CodeBuffer, cache: JumpCache, ghost start: nat, src: nat, dst: nat)
    requires Consistent(store, buf, cache, start) && src < |store.tbs| && Finished(store.tbs, Some(dst))
    modifies store`tbs
    ensures Consistent(store, buf, cache, start)
    ensures old(store.Counted()) ==> store.Counted()
    ensures store.tbs == old(store.tbs)[src := old(store.tbs)[src].(exitTarget := Some(dst))]
  {
    hide RangesOk, JumpsDistinct, CountsExact, Inserted;
    ghost var t0 := store.tbs;
    store.tbs := store.tbs[src := store.tbs[src].(exitTarget := Some(dst))];
    ExitTargetKeeps(t0, store.tbs, buf.jumps, start, buf.offset);
    ListsSame(store.bucketOf, t0, store.tbs, store.hash[..], store.pageHeads[..], store.codePages[..], store.gen);
  }

  lemma ExitTargetKeeps(tbs: seq<Tb>, tbs': seq<Tb>, jumps: map<nat, nat>, start: nat, end: nat)
    requires EdgesOk(tbs) && JumpsLand(tbs, jumps) && RangesOk(tbs, start, end) && |tbs'| == |tbs|
    requires forall x | 0 <= x < |tbs| :: tbs'[x] == tbs[x].(exitTarget := tbs'[x].exitTarget) && Finished(tbs, tbs'[x].exitTarget)
    ensures EdgesOk(tbs') && JumpsLand(tbs', jumps) && RangesOk(tbs', start, end)
  {
    RangesSame(tbs, tbs', start, end);
    forall x, k | 0 <= x < |tbs'| && 0 <= k < 2 ensures SlotOk(tbs', x, k, None, []) && SlotLands(tbs', jumps, x, k) {
      assert SlotOk(tbs, x, k, None, []);
      assert SlotLands(tbs, jumps, x, k);
    }
    forall c, e | 0 <= c < |tbs'| && e in tbs'[c].jmp.list ensures ListedOk(tbs', e) { assert ListedOk(tbs, e); }
  }

  /** Only blocks on the given pages changed, and if the page counters were exact, none of a
      tracked page among them is live. */
  ghost predicate OnlyPagesGone(tbs: seq<Tb>, tbs': seq<Tb>, gen: nat, pages: seq<nat>, exact: bool) {
    && |tbs'| == |tbs| && (forall x | 0 <= x < |tbs| :: SameBlock(tbs[x], tbs'[x]))
    && (forall x | 0 <= x < |tbs| && PageOf(tbs[x]) !in pages :: tbs'[x].invalid == tbs[x].invalid)
    && (exact ==> forall x | 0 <= x < |tbs| && PageOf(tbs[x]) in pages && PageOf(tbs[x]) < CODE_REFCOUNT_PAGES :: !LiveTb(tbs'[x], gen))
    && (forall x | 0 <= x < |tbs| && tbs[x].invalid :: tbs'[x].invalid)
  }

  /** The jump cache only looks at the host code of the blocks. */
  lemma CachedKept(tbs: seq<Tb>, tbs': seq<Tb>, cache: JumpCache)
    requires cache.Valid() && cache.Within(tbs) && |tbs'| == |tbs| && forall x | 0 <= x < |tbs| :: SameBlock(tbs[x], tbs'[x])
    ensures cache.Within(tbs')
  {
  }

  /** Invalidates a page whatever its counter says. */
  method DropPage(store: TbStore, buf: CodeBuffer, cache: JumpCache, ghost start: nat, p: nat)
    requires Consistent(store, buf, cache, start)
    modifies store`tbs, store.hash, store.pageHeads, store.codePages, buf`jumps
    ensures Consistent(store, buf, cache, start)
    ensures old(store.Counted()) ==> store.Counted()
    ensures OnlyPagesGone(old(store.tbs), store.tbs, store.gen, [p], true)
  {
    hide JumpsLand, EdgesOk, RangesOk, Inserted, HashOk, PagesOk, PagesComplete, GensOk, JumpCache.Within, Finished;
    ghost var t0 := store.tbs;
    store.InvalidatePhysPage(p, buf);
    SameBlockRanges(t0, store.tbs, start, buf.offset);
    assert forall x | 0 <= x < |store.tbs| && PageOf(store.tbs[x]) == p && LiveTb(store.tbs[x], store.gen) :: x in LiveOn(store.tbs, store.gen, p);
    CachedKept(t0, store.tbs, cache);
  }

  method HandleDirtyPage(store: TbStore, buf: CodeBuffer, cache: JumpCache, ghost start: nat, p: nat)
    requires Consistent(store, buf, cache, start)
    modifies store`tbs, store.hash, store.pageHeads, store.codePages, buf`jumps
    ensures Consistent(store, buf, cache, start)
    ensures old(store.Counted()) ==> store.Counted()
    ensures OnlyPagesGone(old(store.tbs), store.tbs, store.gen, [p], old(store.Counted()))
  {
    hide JumpsLand, EdgesOk, RangesOk, Inserted, HashOk, PagesOk, PagesComplete, GensOk, JumpCache.Within, Finished;
    var code := store.IsCodePage(p);
    if code {
      DropPage(store, buf, cache, start, p);
    } else if p < CODE_REFCOUNT_PAGES {
      assert store.codePages[..][p] == 0;
      assert store.Counted() ==> LiveOn(store.tbs, store.gen, p) == {};
      assert forall x | 0 <= x < |store.tbs| && PageOf(store.tbs[x]) == p && LiveTb(store.tbs[x], store.gen) :: x in LiveOn(store.tbs, store.gen, p);
    }
  }

  /** Self-modifying code: after stores to the dirty pages every block elsewhere is as before, and
      no block of a tracked dirty page is live, although only pages counted as code are visited. */
  method HandleDirtyPages(store: TbStore, buf: CodeBuffer, cache: JumpCache, ghost start: nat, dirty: seq<nat>)
    requires Consistent(store, buf, cache, start)
    modifies store`tbs, store.hash, store.pageHeads, store.codePages, buf`jumps, cache
    ensures Consistent(store, buf, cache, start)
    ensures old(store.Counted()) ==> store.Counted()
    ensures OnlyPagesGone(old(store.tbs), store.tbs, store.gen, dirty, old(store.Counted()))
    ensures dirty != [] ==> forall pc :: cache.Current(pc) == None
  {
    hide Consistent, Inserted, CountsExact;
    var n := 0;
    while n < |dirty|
      invariant n <= |dirty| && Consistent(store, buf, cache, start)
      invariant old(store.Counted()) ==> store.Counted()
      invariant OnlyPagesGone(old(store.tbs), store.tbs, store.gen, dirty[..n], old(store.Counted()))
    {
      HandleDirtyPage(store, buf, cache, start, dirty[n]);
      assert dirty[..n + 1] == dirty[..n] + [dirty[n]];
      n := n + 1;
    }
    assert dirty[..n] == dirty;
    if dirty != [] { ForgetCached(store, buf, cache, start); }
  }

  method ForgetCached(store: TbStore, ghost buf: CodeBuffer, cache: JumpCache, ghost start: nat)
    requires Consistent(store, buf, cache, start)
    modifies cache
    ensures Consistent(store, buf, cache, start) && forall pc :: cache.Current(pc) == None
  {
    hide JumpsLand, EdgesOk, RangesOk, Inserted;
    cache.Invalidate();
  }

  lemma SameBlockRanges(tbs: seq<Tb>, tbs': seq<Tb>, start: nat, end: nat)
    requires RangesOk(tbs, start, end) && |tbs'| == |tbs| && (forall x | 0 <= x < |tbs| :: SameBlock(tbs[x], tbs'[x]))
    requires EdgesOk(tbs')
    ensures RangesOk(tbs', start, end)
  {
    RangesSame(tbs, tbs', start, end);
  }

  lemma UntrackedDrop(tbs: seq<Tb>, tbs': seq<Tb>, counts: seq<nat>, gen: nat, i: nat)
    requires |tbs'| == |tbs| && i < |tbs| && PageOf(tbs[i]) >= |counts| && CountsExact(tbs, counts, gen)
    requires forall x | 0 <= x < |tbs| :: SameBlock(tbs[x], tbs'[x]) && (tbs'[x].invalid <==> tbs[x].invalid || x == i)
    ensures CountsExact(tbs', counts, gen)
  {
    forall p | 0 <= p < |counts| ensures LiveOn(tbs', gen, p) == LiveOn(tbs, gen, p) { }
  }

  /** Invalidates one block through the whole cache. */
  method InvalidateBlock(store: TbStore, buf: CodeBuffer, cache: JumpCache, ghost start: nat, i: nat)
    requires Consistent(store, buf, cache, start) && i < |store.tbs|
    modifies store`tbs, store.hash, store.pageHeads, store.codePages, buf`jumps
    ensures Consistent(store, buf, cache, start) && |store.tbs| == |old(store.tbs)| && !Live(store.tbs, store.gen, i)
    ensures forall x | 0 <= x < |store.tbs| :: SameBlock(old(store.tbs)[x], store.tbs[x])
    ensures forall x | 0 <= x < |store.tbs| && x != i :: Live(store.tbs, store.gen, x) <==> old(Live(store.tbs, store.gen, x))
    ensures old(store.Counted() && Live(store.tbs, store.gen, i) && PageOf(store.tbs[i]) < CODE_REFCOUNT_PAGES) ==>
      (store.Counted() <==> old(|LiveOn(store.tbs, store.gen, PageOf(store.tbs[i]))|) <= 255)
    ensures old(store.Counted() && !Live(store.tbs, store.gen, i) && PageOf(store.tbs[i]) < CODE_REFCOUNT_PAGES) ==>
      (store.Counted() <==> old(LiveOn(store.tbs, store.gen, PageOf(store.tbs[i]))) == {})
    ensures old(store.Counted() && PageOf(store.tbs[i]) >= CODE_REFCOUNT_PAGES) ==> store.Counted()
  {
    hide JumpsLand, EdgesOk, RangesOk, Inserted, CountsExact;
    ghost var t0, counts := store.tbs, store.codePages[..];
    store.Invalidate(i, buf);
    SameBlockRanges(t0, store.tbs, start, buf.offset);
    if CountsExact(t0, counts, store.gen) {
      if PageOf(t0[i]) < |counts| {
        SaturationLimit(t0, store.tbs, counts, store.gen, i);
      } else {
        UntrackedDrop(t0, store.tbs, counts, store.gen, i);
      }
    }
  }

  /** Bulk invalidation: one generation further, nothing is live. */
  method FlushAllTb(store: TbStore, buf: CodeBuffer, cache: JumpCache, ghost start: nat)
    requires Consistent(store, buf, cache, start)
    modifies store`gen, store.codePages, cache
    ensures Consistent(store, buf, cache, start) && store.Counted()
    ensures (forall i :: !Live(store.tbs, store.gen, i)) && forall pc :: cache.Current(pc) == None
  {
    hide JumpsLand, EdgesOk, RangesOk, Inserted;
    store.InvalidateAll(buf);
    cache.Invalidate();
  }

  /** Recovery from a full buffer: stale, flush, rewind the cursor, forget cached indices. */
  method RecoverBufferFull(store: TbStore, buf: CodeBuffer, cache: JumpCache, start: nat)
    requires Consistent(store, buf, cache, start)
    modifies store`gen, store`tbs, store.hash, store.pageHeads, store.codePages, buf`offset, cache
    ensures Consistent(store, buf, cache, start) && store.Counted()
    ensures store.tbs == [] && buf.offset == start && forall pc :: cache.Current(pc) == None
  {
    store.InvalidateAll(buf);
    store.Flush();
    buf.offset := start;
    cache.Invalidate();
  }

  /** An instruction fence: the dirty pages are invalidated whatever their counters say, and
      everything is when none is recorded. */
  method FlushDirtyTbPages(store: TbStore, buf: CodeBuffer, cache: JumpCache, ghost start: nat, dirty: seq<nat>)
    requires Consistent(store, buf, cache, start)
    modifies store`gen, store`tbs, store.hash, store.pageHeads, store.codePages, buf`jumps, cache
    ensures Consistent(store, buf, cache, start) && forall pc :: cache.Current(pc) == None
    ensures old(store.Counted()) ==> store.Counted()
    ensures dirty == [] ==> forall i :: !Live(store.tbs, store.gen, i)
    ensures dirty != [] ==> store.gen == old(store.gen) && OnlyPagesGone(old(store.tbs), store.tbs, store.gen, dirty, true)
  {
    hide Consistent, Inserted, CountsExact;
    if dirty == [] {
      FlushAllTb(store, buf, cache, start);
      return;
    }
    var n := 0;
    while n < |dirty|
      invariant n <= |dirty| && Consistent(store, buf, cache, start) && store.gen == old(store.gen)
      invariant old(store.Counted()) ==> store.Counted()
      invariant OnlyPagesGone(old(store.tbs), store.tbs, store.gen, dirty[..n], true)
    {
      DropPage(store, buf, cache, start, dirty[n]);
      assert dirty[..n + 1] == dirty[..n] + [dirty[n]];
      n := n + 1;
    }
    assert dirty[..n] == dirty;
    ForgetCached(store, buf, cache, start);
  }

  // ----- the next block -----

  /** The next block remembered from the last exit, if any, is live. */
  predicate HintLive(tbs: seq<Tb>, gen: nat, hint: Link) { hint.Some? ==> Live(tbs, gen, hint.value) }

  /** The block to execute: the one remembered from the last exit, taken unseen, else the one found. */
  method NextBlock(store: TbStore, buf: CodeBuffer, cache: JumpCache, ghost start: nat, hint: Link,
                   pc: nat, flags: nat, physNow: Link, physAgain: Link, translate: Translator) returns (r: Link)
    requires Consistent(store, buf, cache, start) && TranslatorOk(translate) && Finished(store.tbs, hint)
    modifies store`tbs, store.hash, store.pageHeads, store.codePages, buf`offset, buf`jumps, cache.entries
    ensures Consistent(store, buf, cache, start) && Extends(old(store.tbs), store.tbs)
    ensures old(store.Counted()) ==> store.Counted()
    ensures hint.Some? ==> r == hint && store.tbs == old(store.tbs) && buf.offset == old(buf.offset)
    ensures Finished(store.tbs, r) && (HintLive(old(store.tbs), store.gen, hint) ==> HintLive(store.tbs, store.gen, r))
    ensures hint.None? && r.Some? ==> HasKey(store.tbs[r.value], pc, flags)
  {
    hide Consistent, Inserted, CountsExact;
    if hint.Some? { return hint; }
    r := TbFind(store, buf, cache, start, pc, flags, physNow, physAgain, translate);
  }

  /** A direct exit: find the next block, chain the slot to it and remember it. */
  method DirectExit(store: TbStore, buf: CodeBuffer, cache: JumpCache, ghost start: nat, src: nat, slot: nat,
                    pc: nat, flags: nat, physNow: Link, physAgain: Link, translate: Translator) returns (next: Link)
    requires Consistent(store, buf, cache, start) && TranslatorOk(translate) && src < |store.tbs| && slot < 2
    modifies store`tbs, store.hash, store.pageHeads, store.codePages, buf`offset, buf`jumps, cache.entries
    ensures Consistent(store, buf, cache, start) && Keeps(old(store.tbs), store.tbs)
    ensures old(store.Counted()) ==> store.Counted()
    ensures Finished(store.tbs, next) && HintLive(store.tbs, store.gen, next)
    ensures next.Some? ==> HasKey(store.tbs[next.value], pc, flags)
    ensures next.Some? && store.tbs[src].code.jmpInsn[slot].Some? ==>
      store.tbs[src].jmp.dest[slot] == next && (src, slot) in store.tbs[next.value].jmp.list
  {
    hide Consistent, Inserted, CountsExact;
    next := TbFind(store, buf, cache, start, pc, flags, physNow, physAgain, translate);
    if next.Some? { TbAddJump(store, buf, cache, start, src, slot, next.value); }
  }

  /** An indirect exit: the cached target if it still fits, else the block found, which is cached. */
  method IndirectExit(store: TbStore, buf: CodeBuffer, cache: JumpCache, ghost start: nat, src: nat,
                      pc: nat, flags: nat, physNow: Link, physAgain: Link, translate: Translator) returns (next: Link)
    requires Consistent(store, buf, cache, start) && TranslatorOk(translate) && src < |store.tbs|
    modifies store`tbs, store.hash, store.pageHeads, store.codePages, buf`offset, buf`jumps, cache.entries
    ensures Consistent(store, buf, cache, start) && Keeps(old(store.tbs), store.tbs)
    ensures old(store.Counted()) ==> store.Counted()
    ensures Finished(store.tbs, next) && HintLive(store.tbs, store.gen, next)
    ensures next.Some? ==> HasKey(store.tbs[next.value], pc, flags) && store.tbs[src].exitTarget == next
  {
    hide Inserted, CountsExact, JumpsLand, EdgesOk, RangesOk, HashOk, PagesOk, PagesComplete, GensOk, JumpCache.Within;
    next := ExitTargetHit(store, src, pc, flags);
    if next.Some? { return; }
    next := TbFind(store, buf, cache, start, pc, flags, physNow, physAgain, translate);
    if next.Some? { SetExitTarget(store, buf, cache, start, src, next.value); }
  }

  /** Blocks stay where they are, with their code, generation and validity. */
  ghost predicate Keeps(tbs: seq<Tb>, tbs': seq<Tb>) {
    |tbs| <= |tbs'| && forall x | 0 <= x < |tbs| :: tbs'[x].code == tbs[x].code && tbs'[x].gen == tbs[x].gen && tbs'[x].invalid == tbs[x].invalid
  }

  // ----- whole runs -----

  datatype Command =
    | Find(pc: nat, flags: nat, physNow: Link, physAgain: Link, translate: Translator)
    | SingleStep(pc: nat, flags: nat, translate: Translator)
    | Chain(src: nat, slot: nat, pc: nat, flags: nat, physNow: Link, physAgain: Link, translate: Translator)
    | Indirect(src: nat, pc: nat, flags: nat, physNow: Link, physAgain: Link, translate: Translator)
    | Divert
    | Dirty(pages: seq<nat>)
    | Fence(pages: seq<nat>)
    | InvalidateOne(idx: nat)
    | FlushAll
    | BufferFull

  ghost predicate CommandOk(c: Command) { (c.Find? || c.SingleStep? || c.Chain? || c.Indirect?) ==> TranslatorOk(c.translate) }

  /** An empty store, an empty buffer whose blocks go above start, an empty jump cache. */
  method SetUp(bucketOf: Hasher, size: nat, start: nat) returns (store: TbStore, buf: CodeBuffer, cache: JumpCache)
    requires HasherOk(bucketOf) && start <= size
    ensures Consistent(store, buf, cache, start) && store.Counted()
    ensures fresh(store) && fresh(store.hash) && fresh(store.pageHeads) && fresh(store.codePages) && fresh(buf) && fresh(cache) && fresh(cache.entries)
  {
    store := new TbStore(bucketOf);
    buf := new CodeBuffer(size);
    cache := new JumpCache();
    buf.offset := start;
  }

  /** One command; the block remembered for the next round is the result. An interrupt, an
      exception or a new start of the loop diverts the guest and forgets it. */
  method Execute(store: TbStore, buf: CodeBuffer, cache: JumpCache, start: nat, c: Command, hint: Link) returns (next: Link)
    requires Consistent(store, buf, cache, start) && CommandOk(c) && Finished(store.tbs, hint)
    modifies store`gen, store`tbs, store.hash, store.pageHeads, store.codePages, buf`offset, buf`jumps, cache, cache.entries
    ensures Consistent(store, buf, cache, start) && Finished(store.tbs, next)
    ensures old(store.Counted()) && !c.InvalidateOne? ==> store.Counted()
    ensures old(HintLive(store.tbs, store.gen, hint)) && !c.InvalidateOne? ==> HintLive(store.tbs, store.gen, next)
  {
    hide Consistent, Inserted, CountsExact;
    next := hint;
    match c {
      case Find(pc, flags, physNow, physAgain, translate) =>
        var r := NextBlock(store, buf, cache, start, hint, pc, flags, physNow, physAgain, translate);
        next := None;
      case SingleStep(pc, flags, translate) =>
        var r := TbGenCode(store, buf, cache, start, pc, flags, 0x2_0001, None, translate);
      case Chain(src, slot, pc, flags, physNow, physAgain, translate) =>
        if src < |store.tbs| && slot < 2 {
          var r := DirectExit(store, buf, cache, start, src, slot, pc, flags, physNow, physAgain, translate);
          if r.Some? { next := r; }
        }
      case Indirect(src, pc, flags, physNow, physAgain, translate) =>
        if src < |store.tbs| {
          var r := IndirectExit(store, buf, cache, start, src, pc, flags, physNow, physAgain, translate);
          if r.Some? { next := r; }
        }
      case Divert => next := None;
      case Dirty(pages) =>
        HandleDirtyPages(store, buf, cache, start, pages);
        if pages != [] { next := None; }
      case Fence(pages) =>
        FlushDirtyTbPages(store, buf, cache, start, pages);
        next := None;
      case InvalidateOne(idx) =>
        if idx < |store.tbs| { InvalidateBlock(store, buf, cache, start, idx); }
      case FlushAll =>
        FlushAllTb(store, buf, cache, start);
        next := None;
      case BufferFull =>
        RecoverBufferFull(store, buf, cache, start);
        next := None;
    }
  }

  /** Any sequence of operations, from an empty store: the invariants hold after every one of
      them, and as long as blocks are only dropped by page or in bulk, as the execution loop does,
      the page counters are exact and the block remembered for the next round is live. */
  method Run(bucketOf: Hasher, size: nat, start: nat, commands: seq<Command>)
    returns (store: TbStore, buf: CodeBuffer, cache: JumpCache, hint: Link)
    requires HasherOk(bucketOf) && start <= size && forall c | c in commands :: CommandOk(c)
    ensures Consistent(store, buf, cache, start) && Finished(store.tbs, hint)
    ensures (forall c | c in commands :: !c.InvalidateOne?) ==> store.Counted() && HintLive(store.tbs, store.gen, hint)
  {
    hide Consistent, CommandOk;
    store, buf, cache := SetUp(bucketOf, size, start);
    hint := None;
    var n := 0;
    ghost var bulk := true;
    while n < |commands|
      invariant n <= |commands| && Consistent(store, buf, cache, start) && Finished(store.tbs, hint)
      invariant fresh(store) && fresh(store.hash) && fresh(store.pageHeads) && fresh(store.codePages) && fresh(buf) && fresh(cache) && fresh(cache.entries)
      invariant bulk <==> forall m | 0 <= m < n :: !commands[m].InvalidateOne?
      invariant bulk ==> store.Counted() && HintLive(store.tbs, store.gen, hint)
    {
      assert CommandOk(commands[n]);
      hint := Execute(store, buf, cache, start, commands[n], hint);
      bulk := bulk && !commands[n].InvalidateOne?;
      n := n + 1;
    }
  }
}
