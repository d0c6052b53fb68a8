/** The block store of accel/src/exec/tb_store.rs, updated in place. */
module TbCache {
  import opened Options
  import opened Chains
  import opened TbModel
  import opened TbLemmas

  /** The write cursor of the code buffer, and the target of every patchable jump in it. */
  class CodeBuffer {
    const size: nat
    var offset: nat
    var jumps: map<nat, nat>

    constructor (size: nat)
      ensures this.size == size && offset == 0 && jumps == map[]
    {
      this.size, offset, jumps := size, 0, map[];
    }

    method PatchJump(at: nat, target: nat)
      modifies this`jumps
      ensures jumps == old(jumps)[at := target]
    {
      jumps := jumps[at := target];
    }
  }

  class TbStore {
    /** Bucket of a (pc, flags) key. */
    const bucketOf: Hasher
    const hash: array<Link>
    const pageHeads: array<Link>
    const codePages: array<nat>
    var tbs: seq<Tb>
    var gen: nat

    ghost predicate ValidCore()
      reads this, hash, pageHeads, codePages
    {
      && hash != pageHeads && hash as object != codePages && pageHeads as object != codePages
      && |tbs| <= MAX_TBS && HasherOk(bucketOf)
      && HashOk(bucketOf, tbs, hash[..])
      && PagesOk(tbs, pageHeads[..])
      && codePages.Length == CODE_REFCOUNT_PAGES
      && GensOk(tbs, gen)
      && EdgesOk(tbs)
    }

    ghost predicate Valid()
      reads this, hash, pageHeads, codePages
    {
      ValidCore() && PagesComplete(tbs, pageHeads[..], gen)
    }

    ghost predicate Counted()
      reads this, hash, pageHeads, codePages
    {
      CountsExact(tbs, codePages[..], gen)
    }

    constructor (bucketOf: Hasher)
      requires HasherOk(bucketOf)
      ensures Valid() && Counted() && tbs == [] && gen == 1 && this.bucketOf == bucketOf
      ensures fresh(hash) && fresh(pageHeads) && fresh(codePages)
    {
      this.bucketOf := bucketOf;
      hash := new Link[TB_HASH_SIZE](_ => None);
      pageHeads := new Link[CODE_REFCOUNT_PAGES](_ => None);
      codePages := new nat[CODE_REFCOUNT_PAGES](_ => 0);
      tbs, gen := [], 1;
      new;
      assert forall p :: LiveOn([], 1, p) == {};
    }

    /** Appends a fresh, not yet live block; None when the store is full. */
    method Alloc(pc: nat, flags: nat, cflags: nat) returns (r: Link)
      requires Valid()
      modifies this`tbs
      ensures Valid()
      ensures r == if |old(tbs)| < MAX_TBS then Some(|old(tbs)|) else None
      ensures tbs == if r.Some? then old(tbs) + [NewTb(pc, flags, cflags)] else old(tbs)
      ensures old(Counted()) ==> Counted()
    {
      if |tbs| >= MAX_TBS { return None; }
      r := Some(|tbs|);
      tbs := tbs + [NewTb(pc, flags, cflags)];
      AllocKeeps(bucketOf, old(tbs), hash[..], pageHeads[..], gen, NewTb(pc, flags, cflags));
    }

    /** The most recently inserted live block for the key. */
    method Lookup(pc: nat, flags: nat) returns (r: Link)
      requires ValidCore()
      ensures r.Some? ==> Newest(bucketOf, tbs, hash[..], gen, pc, flags, r.value)
      ensures r.None? ==> forall j: nat | Inserted(bucketOf, tbs, hash[..], j) && LiveTb(tbs[j], gen) :: !HasKey(tbs[j], pc, flags)
    {
      var b := bucketOf(pc, flags);
      var cur: Link := hash[b];
      ghost var next := HashNext(tbs);
      assert hash[..][b] == cur;
      while cur.Some?
        invariant InRange(|tbs|, cur)
        invariant Members(next, cur) <= Members(next, hash[b])
        invariant forall j | j in Members(next, hash[b]) - Members(next, cur) && LiveTb(tbs[j], gen) :: !HasKey(tbs[j], pc, flags)
        decreases if cur.Some? then cur.value + 1 else 0
      {
        var tb := tbs[cur.value];
        if !tb.invalid && tb.gen == gen && tb.code.pc == pc && tb.code.flags == flags {
          return cur;
        }
        assert next[cur.value] == tb.hashNext;
        cur := tb.hashNext;
      }
      r := None;
    }

    /** Prepends the newest block, finished, to its bucket. */
    method Insert(i: nat, ghost buf: CodeBuffer)
      requires Valid() && JumpsLand(tbs, buf.jumps)
      requires i < |tbs| && tbs[i].code.hostSize > 0 && InRange(i, hash[bucketOf(tbs[i].code.pc, tbs[i].code.flags)])
      modifies this`tbs, hash
      ensures Valid() && JumpsLand(tbs, buf.jumps)
      ensures HashLinksOnly(old(tbs), tbs)
      ensures Inserted(bucketOf, tbs, hash[..], i)
      ensures forall j: nat | j != i :: Inserted(bucketOf, tbs, hash[..], j) <==> old(Inserted(bucketOf, tbs, hash[..], j))
    {
      var b := bucketOf(tbs[i].code.pc, tbs[i].code.flags);
      HashPrepend(bucketOf, tbs, hash[..], i, b);
      tbs := tbs[i := tbs[i].(hashNext := hash[b])];
      hash[b] := Some(i);
      assert hash[..] == old(hash[..])[b := Some(i)];
      HashLinksKeepPages(old(tbs), tbs, pageHeads[..]);
      LinksKeepEdges(old(tbs), tbs, buf.jumps, None, []);
    }

    /** Counts the block on its page and prepends it to the page's list. */
    method MarkCodePage(p: nat, i: nat, ghost buf: CodeBuffer)
      requires ValidCore() && JumpsLand(tbs, buf.jumps)
      requires i < |tbs| && p == PageOf(tbs[i])
      requires p < CODE_REFCOUNT_PAGES ==> InRange(i, pageHeads[p])
      modifies this`tbs, pageHeads, codePages
      ensures ValidCore() && JumpsLand(tbs, buf.jumps)
      ensures |tbs| == |old(tbs)| && tbs == old(tbs)[i := old(tbs)[i].(pageNext := tbs[i].pageNext)]
      ensures HashNext(tbs) == old(HashNext(tbs))
      ensures codePages[..] == if p < CODE_REFCOUNT_PAGES then old(codePages[..])[p := Saturated(old(codePages[p]) + 1)] else old(codePages[..])
      ensures forall q | 0 <= q < pageHeads.Length :: Members(PageNext(tbs), pageHeads[..][q])
                == old(Members(PageNext(tbs), pageHeads[..][q])) + if q == p then {i} else {}
    {
      if p >= CODE_REFCOUNT_PAGES { return; }
      codePages[p] := if codePages[p] < 255 then codePages[p] + 1 else 255;
      PagePrepend(tbs, pageHeads[..], i, p);
      tbs := tbs[i := tbs[i].(pageNext := pageHeads[p])];
      pageHeads[p] := Some(i);
      assert pageHeads[..] == old(pageHeads[..])[p := Some(i)];
      PageLinksKeepHash(bucketOf, old(tbs), tbs, hash[..]);
      LinksKeepEdges(old(tbs), tbs, buf.jumps, None, []);
    }

    method DecCodePage(p: nat)
      requires codePages.Length == CODE_REFCOUNT_PAGES
      modifies codePages
      ensures codePages[..] == if p < CODE_REFCOUNT_PAGES && old(codePages[p]) > 0
                               then old(codePages[..])[p := old(codePages[p]) - 1] else old(codePages[..])
    {
      if p < codePages.Length && codePages[p] > 0 { codePages[p] := codePages[p] - 1; }
    }

    method IsCodePage(p: nat) returns (r: bool)
      requires codePages.Length == CODE_REFCOUNT_PAGES
      ensures r <==> p < CODE_REFCOUNT_PAGES && codePages[p] > 0
    {
      r := p < codePages.Length && codePages[p] > 0;
    }

    /** Takes block i out of the list of page p, wherever it stands in it. */
    method UnlinkPage(p: nat, i: nat)
      requires PagesOk(tbs, pageHeads[..])
      modifies this`tbs, pageHeads
      ensures if p < CODE_REFCOUNT_PAGES then PageRemoved(old(tbs), old(pageHeads[..]), tbs, pageHeads[..], p, i)
              else tbs == old(tbs) && pageHeads[..] == old(pageHeads[..])
    {
      if p >= CODE_REFCOUNT_PAGES { return; }
      var len := |tbs|;
      var prev: Link, cur: Link := None, pageHeads[p];
      ghost var next, head := PageNext(tbs), pageHeads[p];
      assert pageHeads[..][p] == head;
      while cur.Some? && cur.value < len
        invariant tbs == old(tbs) && pageHeads[..] == old(pageHeads[..])
        invariant InRange(|tbs|, cur)
        invariant if prev.None? then cur == head else prev.value in Members(next, head) && next[prev.value] == cur
        invariant i in Members(next, head) ==> i in Members(next, cur)
        invariant cur.Some? ==> cur.value in Members(next, head)
        decreases if cur.Some? then cur.value + 1 else 0
      {
        if cur.value == i {
          var nxt := tbs[i].pageNext;
          if prev.Some? {
            PageUnlink(tbs, pageHeads[..], p, prev.value, i);
            tbs := tbs[prev.value := tbs[prev.value].(pageNext := nxt)];
          } else {
            PageUnlinkFirst(tbs, pageHeads[..], p, i);
            pageHeads[p] := nxt;
            assert pageHeads[..] == old(pageHeads[..])[p := nxt];
          }
          tbs := tbs[i := tbs[i].(pageNext := None)];
          return;
        }
        Reach(next, head, cur.value);
        prev := cur;
        var nxt := tbs[cur.value].pageNext;
        assert next[cur.value] == nxt;
        cur := if nxt.Some? && nxt.value < len then nxt else None;
      }
    }

    /** Takes block i out of its hash chain, if it is there. */
    method UnlinkHash(b: nat, i: nat)
      requires HashOk(bucketOf, tbs, hash[..]) && b < TB_HASH_SIZE
      modifies this`tbs, hash
      ensures HashRemoved(bucketOf, old(tbs), old(hash[..]), tbs, hash[..], b, i)
    {
      var prev: Link, cur: Link := None, hash[b];
      ghost var next, head := HashNext(tbs), hash[b];
      assert hash[..][b] == head;
      while cur.Some?
        invariant tbs == old(tbs) && hash[..] == old(hash[..])
        invariant InRange(|tbs|, cur)
        invariant if prev.None? then cur == head else prev.value in Members(next, head) && next[prev.value] == cur
        invariant i in Members(next, head) ==> i in Members(next, cur)
        invariant cur.Some? ==> cur.value in Members(next, head)
        decreases if cur.Some? then cur.value + 1 else 0
      {
        if cur.value == i {
          var nxt := tbs[i].hashNext;
          if prev.Some? {
            HashUnlink(bucketOf, tbs, hash[..], b, prev.value, i);
            tbs := tbs[prev.value := tbs[prev.value].(hashNext := nxt)];
          } else {
            HashUnlinkFirst(bucketOf, tbs, hash[..], b, i);
            hash[b] := nxt;
            assert hash[..] == old(hash[..])[b := nxt];
          }
          tbs := tbs[i := tbs[i].(hashNext := None)];
          return;
        }
        Reach(next, head, cur.value);
        prev := cur;
        assert next[cur.value] == tbs[cur.value].hashNext;
        cur := tbs[cur.value].hashNext;
      }
    }

    /** Sends a patched jump back to its reset target. */
    method ResetJump(x: nat, k: nat, buf: CodeBuffer)
      requires x < |tbs| && k < 2 && ShapeOk(tbs[x])
      modifies buf`jumps
      ensures buf.jumps == if tbs[x].code.jmpInsn[k].Some? && tbs[x].code.jmpReset[k].Some?
        then old(buf.jumps)[tbs[x].code.jmpInsn[k].value := tbs[x].code.jmpReset[k].value] else old(buf.jumps)
    {
      var insn, reset := tbs[x].code.jmpInsn[k], tbs[x].code.jmpReset[k];
      if insn.Some? && reset.Some? { buf.PatchJump(insn.value, reset.value); }
    }

    /** Resets every jump into the invalidated block i. */
    method UnlinkIncoming(i: nat, buf: CodeBuffer)
      requires i < |tbs| && tbs[i].invalid
      requires EdgesExcept(TakeList(tbs, i), Some(i), tbs[i].jmp.list) && JumpsLand(TakeList(tbs, i), buf.jumps)
      modifies this`tbs, buf`jumps
      ensures JumpsOnly(old(tbs), tbs) && EdgesExcept(tbs, Some(i), []) && JumpsLand(tbs, buf.jumps)
    {
      var list := tbs[i].jmp.list;
      assert TakeList(tbs, i) == tbs[i := tbs[i].(jmp := tbs[i].jmp.(list := []))];
      tbs := tbs[i := tbs[i].(jmp := tbs[i].jmp.(list := []))];
      var n := 0;
      assert list[0..] == list;
      while n < |list|
        invariant n <= |list| && JumpsOnly(old(tbs), tbs)
        invariant EdgesExcept(tbs, Some(i), list[n..]) && JumpsLand(tbs, buf.jumps)
      {
        IncomingStep(tbs, buf.jumps, i, list[n..]);
        assert list[n..][1..] == list[n + 1..];
        var (src, slot) := list[n];
        ResetJump(src, slot, buf);
        tbs := ClearSlot(tbs, src, slot);
        n := n + 1;
      }
      assert list[n..] == [];
    }

    /** Removes the invalidated block i from the lists of the blocks it is chained to. */
    method UnlinkOutgoing(i: nat, ghost buf: CodeBuffer)
      requires i < |tbs| && tbs[i].invalid
      requires EdgesExcept(tbs, Some(i), []) && JumpsLand(tbs, buf.jumps)
      modifies this`tbs
      ensures JumpsOnly(old(tbs), tbs) && EdgesOk(tbs) && JumpsLand(tbs, buf.jumps)
    {
      for k := 0 to 2
        invariant JumpsOnly(old(tbs), tbs) && EdgesExcept(tbs, Some(i), []) && JumpsLand(tbs, buf.jumps)
      {
        DropOutKeeps(tbs, buf.jumps, i, k);
        var dst := tbs[i].jmp.dest[k];
        if dst.Some? {
          tbs := ClearSlot(tbs, i, k);
          tbs := tbs[dst.value := tbs[dst.value].(jmp := tbs[dst.value].jmp.(list := Without(tbs[dst.value].jmp.list, (i, k))))];
        }
      }
      EdgesRestored(tbs, i);
    }

    /** The flag, the counter and the page list of an invalidated block. */
    method LeavePage(i: nat)
      requires Valid() && i < |tbs|
      modifies this`tbs, pageHeads, codePages
      ensures |tbs| == |old(tbs)| && tbs[i].invalid
      ensures PageLinksOnly(old(tbs)[i := old(tbs)[i].(invalid := true)], tbs)
      ensures HashNext(tbs) == old(HashNext(tbs)) && HashOk(bucketOf, tbs, hash[..])
      ensures PagesOk(tbs, pageHeads[..]) && PagesComplete(tbs, pageHeads[..], gen)
      ensures codePages[..] == Decremented(old(codePages[..]), PageOf(old(tbs)[i]))
    {
      hide EdgesOk;
      var p := PageOf(tbs[i]);
      ghost var t0 := tbs;
      tbs := tbs[i := tbs[i].(invalid := true)];
      ListsKept(bucketOf, t0, tbs, hash[..], pageHeads[..]);
      DecCodePage(p);
      ghost var t1 := tbs;
      UnlinkPage(p, i);
      PageLinksKeepHash(bucketOf, t1, tbs, hash[..]);
    }

    method LeaveHash(i: nat, ghost buf: CodeBuffer)
      requires Valid() && JumpsLand(tbs, buf.jumps) && i < |tbs|
      modifies this`tbs, hash
      ensures Valid() && JumpsLand(tbs, buf.jumps) && HashLinksOnly(old(tbs), tbs)
      ensures forall j: nat :: Inserted(bucketOf, tbs, hash[..], j) <==> j != i && old(Inserted(bucketOf, tbs, hash[..], j))
    {
      hide EdgesExcept, JumpsLand, ShapeOk;
      UnlinkHash(bucketOf(tbs[i].code.pc, tbs[i].code.flags), i);
      HashLinksKeepPages(old(tbs), tbs, pageHeads[..]);
      LinksKeepEdges(old(tbs), tbs, buf.jumps, None, []);
    }

    /** Invalidates one block: it leaves its lists, and no jump goes into it any more. */
    method Invalidate(i: nat, buf: CodeBuffer)
      requires Valid() && JumpsLand(tbs, buf.jumps) && i < |tbs|
      modifies this`tbs, hash, pageHeads, codePages, buf`jumps
      ensures Valid() && JumpsLand(tbs, buf.jumps)
      ensures |tbs| == |old(tbs)| && tbs[i].invalid
      ensures forall x | 0 <= x < |tbs| :: SameBlock(old(tbs)[x], tbs[x]) && (x != i ==> tbs[x].invalid == old(tbs)[x].invalid)
      ensures forall j: nat :: Inserted(bucketOf, tbs, hash[..], j) <==> j != i && old(Inserted(bucketOf, tbs, hash[..], j))
      ensures codePages[..] == Decremented(old(codePages[..]), PageOf(old(tbs)[i]))
    {
      hide EdgesExcept, JumpsLand, ShapeOk;
      TakeListKeeps(tbs, buf.jumps, i);
      ghost var t0 := tbs;
      LeavePage(i);
      ghost var t2 := tbs;
      LinksKeepEdges(TakeList(t0, i), TakeList(t2, i), buf.jumps, Some(i), t0[i].jmp.list);
      UnlinkIncoming(i, buf);
      UnlinkOutgoing(i, buf);
      ListsKept(bucketOf, t2, tbs, hash[..], pageHeads[..]);
      LeaveHash(i, buf);
    }

    /** Makes every block stale at once by moving to the next generation. */
    method InvalidateAll(ghost buf: CodeBuffer)
      requires Valid() && JumpsLand(tbs, buf.jumps)
      modifies this`gen, codePages
      ensures Valid() && Counted() && JumpsLand(tbs, buf.jumps) && gen == old(gen) + 1
      ensures forall i :: !Live(tbs, gen, i)
      ensures forall j: nat :: Inserted(bucketOf, tbs, hash[..], j) <==> old(Inserted(bucketOf, tbs, hash[..], j))
    {
      gen := gen + 1;
      forall p | 0 <= p < codePages.Length { codePages[p] := 0; }
      forall p | 0 <= p < codePages.Length ensures LiveOn(tbs, gen, p) == {} { }
    }

    /** Drops every block and every list. */
    method Flush()
      requires Valid()
      modifies this`tbs, hash, pageHeads, codePages
      ensures Valid() && Counted() && tbs == []
      ensures forall jumps :: JumpsLand(tbs, jumps)
      ensures forall j: nat :: !Inserted(bucketOf, tbs, hash[..], j)
    {
      tbs := [];
      forall b | 0 <= b < hash.Length { hash[b] := None; }
      forall p | 0 <= p < pageHeads.Length { pageHeads[p] := None; }
      forall p | 0 <= p < codePages.Length { codePages[p] := 0; }
      forall p | 0 <= p < codePages.Length ensures LiveOn(tbs, gen, p) == {} { }
    }

    /** The live blocks on the list of page p, newest first. */
    method LiveOnPage(p: nat) returns (list: seq<nat>)
      requires Valid() && p < CODE_REFCOUNT_PAGES
      ensures forall i :: i in list <==> i in LiveOn(tbs, gen, p)
      ensures forall a, b | 0 <= a < b < |list| :: list[a] != list[b]
    {
      var len := |tbs|;
      list := [];
      var cur: Link := pageHeads[p];
      ghost var next := PageNext(tbs);
      assert pageHeads[..][p] == cur;
      while cur.Some? && cur.value < len
        invariant InRange(|tbs|, cur)
        invariant Members(next, cur) <= Members(next, pageHeads[p])
        invariant forall i | i in list :: i in LiveOn(tbs, gen, p) && i !in Members(next, cur)
        invariant forall i | i in Members(next, pageHeads[p]) && LiveTb(tbs[i], gen) :: i in list || i in Members(next, cur)
        invariant forall a, b | 0 <= a < b < |list| :: list[a] != list[b]
        decreases if cur.Some? then cur.value + 1 else 0
      {
        var tb := tbs[cur.value];
        assert cur.value in Members(next, pageHeads[p]) && pageHeads[..][p] == pageHeads[p];
        if !tb.invalid && tb.gen == gen { list := list + [cur.value]; }
        assert next[cur.value] == tb.pageNext;
        cur := tb.pageNext;
      }
    }

    /** After a write to page p: none of its blocks stays live, the others stay as they are. */
    method InvalidatePhysPage(p: nat, buf: CodeBuffer)
      requires Valid() && JumpsLand(tbs, buf.jumps)
      modifies this`tbs, hash, pageHeads, codePages, buf`jumps
      ensures Valid() && JumpsLand(tbs, buf.jumps) && |tbs| == |old(tbs)|
      ensures forall x | 0 <= x < |tbs| :: SameBlock(old(tbs)[x], tbs[x])
      ensures forall x | 0 <= x < |tbs| :: PageOf(tbs[x]) != p ==> tbs[x].invalid == old(tbs)[x].invalid
      ensures forall x | 0 <= x < |tbs| :: old(tbs)[x].invalid ==> tbs[x].invalid
      ensures p < CODE_REFCOUNT_PAGES ==> LiveOn(tbs, gen, p) == {}
      ensures p >= CODE_REFCOUNT_PAGES ==> tbs == old(tbs)
      ensures old(Counted()) ==> Counted()
    {
      if p >= CODE_REFCOUNT_PAGES { return; }
      var list := LiveOnPage(p);
      if list != [] {
        InvalidateEach(list, p, buf);
        return;
      }
      ghost var counted := Counted();
      assert LiveOn(tbs, gen, p) == {} by {
        forall i ensures i !in LiveOn(tbs, gen, p) { assert i !in list; }
      }
      var code := IsCodePage(p);
      if code {
        assert !counted by { assert codePages[..][p] == codePages[p]; }
        ScanPage(p, buf);
      }
    }

    method InvalidateEach(list: seq<nat>, p: nat, buf: CodeBuffer)
      requires Valid() && JumpsLand(tbs, buf.jumps) && p < CODE_REFCOUNT_PAGES
      requires forall i :: i in list <==> i in LiveOn(tbs, gen, p)
      requires forall a, b | 0 <= a < b < |list| :: list[a] != list[b]
      modifies this`tbs, hash, pageHeads, codePages, buf`jumps
      ensures Valid() && JumpsLand(tbs, buf.jumps) && |tbs| == |old(tbs)|
      ensures forall x | 0 <= x < |tbs| :: SameBlock(old(tbs)[x], tbs[x])
      ensures forall x | 0 <= x < |tbs| :: PageOf(tbs[x]) != p ==> tbs[x].invalid == old(tbs)[x].invalid
      ensures forall x | 0 <= x < |tbs| :: old(tbs)[x].invalid ==> tbs[x].invalid
      ensures LiveOn(tbs, gen, p) == {}
      ensures old(Counted()) ==> Counted()
    {
      hide JumpsLand, HashOk, PagesOk, GensOk, EdgesOk, PagesComplete, Inserted, CountsExact;
      var n := 0;
      while n < |list|
        invariant n <= |list| && Valid() && JumpsLand(tbs, buf.jumps) && |tbs| == |old(tbs)|
        invariant forall x | 0 <= x < |tbs| :: SameBlock(old(tbs)[x], tbs[x])
        invariant forall x | 0 <= x < |tbs| :: tbs[x].invalid <==> old(tbs)[x].invalid || x in list[..n]
        invariant codePages[..] == old(codePages[..])[p := if old(codePages[p]) > n then old(codePages[p]) - n else 0]
      {
        assert list[n] in list;
        Invalidate(list[n], buf);
        assert list[..n + 1] == list[..n] + [list[n]];
        n := n + 1;
      }
      assert list[..n] == list;
      PageEmptied(old(tbs), tbs, old(codePages[..]), codePages[..], gen, p, list);
    }

    /** The full scan kept for lists that miss a block. */
    method ScanPage(p: nat, buf: CodeBuffer)
      requires Valid() && JumpsLand(tbs, buf.jumps)
      modifies this`tbs, hash, pageHeads, codePages, buf`jumps
      ensures Valid() && JumpsLand(tbs, buf.jumps) && |tbs| == |old(tbs)|
      ensures forall x | 0 <= x < |tbs| :: SameBlock(old(tbs)[x], tbs[x])
      ensures forall x | 0 <= x < |tbs| :: PageOf(tbs[x]) != p ==> tbs[x].invalid == old(tbs)[x].invalid
      ensures forall x | 0 <= x < |tbs| :: old(tbs)[x].invalid ==> tbs[x].invalid
      ensures LiveOn(tbs, gen, p) == {}
    {
      hide JumpsLand, ValidCore, PagesComplete, Inserted;
      var len := |tbs|;
      for i := 0 to len
        invariant Valid() && JumpsLand(tbs, buf.jumps) && |tbs| == |old(tbs)| == len
        invariant forall x | 0 <= x < |tbs| :: SameBlock(old(tbs)[x], tbs[x])
        invariant forall x | 0 <= x < |tbs| :: PageOf(tbs[x]) != p ==> tbs[x].invalid == old(tbs)[x].invalid
        invariant forall x | 0 <= x < |tbs| :: old(tbs)[x].invalid ==> tbs[x].invalid
        invariant forall x | 0 <= x < i :: PageOf(tbs[x]) == p ==> !LiveTb(tbs[x], gen)
      {
        if !tbs[i].invalid && tbs[i].gen == gen && PageOf(tbs[i]) == p {
          Invalidate(i, buf);
        }
      }
    }
  }
}
