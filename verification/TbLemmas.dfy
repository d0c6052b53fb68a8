/** How the invariants of the block store react to each elementary update. */
module TbLemmas {
  import opened Options
  import opened Chains
  import opened TbModel

  /** tbs' is tbs with other hash links. */
  ghost predicate HashLinksOnly(tbs: seq<Tb>, tbs': seq<Tb>) {
    |tbs'| == |tbs| && forall x | 0 <= x < |tbs| :: tbs'[x] == tbs[x].(hashNext := tbs'[x].hashNext)
  }

  /** tbs' is tbs with other page links. */
  ghost predicate PageLinksOnly(tbs: seq<Tb>, tbs': seq<Tb>) {
    |tbs'| == |tbs| && forall x | 0 <= x < |tbs| :: tbs'[x] == tbs[x].(pageNext := tbs'[x].pageNext)
  }

  /** tbs' is tbs with other chaining state. */
  ghost predicate JumpsOnly(tbs: seq<Tb>, tbs': seq<Tb>) {
    |tbs'| == |tbs| && forall x | 0 <= x < |tbs| :: tbs'[x] == tbs[x].(jmp := tbs'[x].jmp)
  }

  /** Same block, apart from links, edges and validity. */
  ghost predicate SameBlock(a: Tb, b: Tb) { a.code == b.code && a.gen == b.gen && a.exitTarget == b.exitTarget }

  function Decremented(codePages: seq<nat>, p: nat): seq<nat> {
    if p < |codePages| && codePages[p] > 0 then codePages[p := codePages[p] - 1] else codePages
  }

  /** A change confined to the list of page p keeps the other lists. */
  lemma OtherPagesKept(tbs: seq<Tb>, tbs': seq<Tb>, heads: seq<Link>, p: nat, q: nat)
    requires PagesOk(tbs, heads) && p < |heads| && q < |heads| && p != q
    requires PageLinksOnly(tbs, tbs') && Descending(PageNext(tbs'))
    requires forall x | 0 <= x < |tbs| && tbs'[x] != tbs[x] :: PageOf(tbs[x]) == p
    ensures Members(PageNext(tbs'), heads[q]) == Members(PageNext(tbs), heads[q])
  {
    MembersFrame(PageNext(tbs), PageNext(tbs'), heads[q]);
  }

  lemma OtherBucketsKept(h: Hasher, tbs: seq<Tb>, tbs': seq<Tb>, hash: seq<Link>, b: nat, c: nat)
    requires HashOk(h, tbs, hash) && b < |hash| && c < |hash| && b != c
    requires HashLinksOnly(tbs, tbs') && Descending(HashNext(tbs'))
    requires forall x | 0 <= x < |tbs| && tbs'[x] != tbs[x] :: h(tbs[x].code.pc, tbs[x].code.flags) == b
    ensures Members(HashNext(tbs'), hash[c]) == Members(HashNext(tbs), hash[c])
  {
    MembersFrame(HashNext(tbs), HashNext(tbs'), hash[c]);
  }

  /** Appending a block that is in no list and not live. */
  lemma AllocKeeps(h: Hasher, tbs: seq<Tb>, hash: seq<Link>, heads: seq<Link>, gen: nat, tb: Tb)
    requires HashOk(h, tbs, hash) && PagesOk(tbs, heads) && PagesComplete(tbs, heads, gen)
    requires GensOk(tbs, gen) && EdgesOk(tbs)
    requires tb.hashNext == tb.pageNext == tb.exitTarget == None && tb.gen == 0
    requires ShapeOk(tb) && tb.jmp == TbJmpState([None, None], [])
    ensures HashOk(h, tbs + [tb], hash) && PagesOk(tbs + [tb], heads) && PagesComplete(tbs + [tb], heads, gen)
    ensures GensOk(tbs + [tb], gen) && EdgesOk(tbs + [tb])
    ensures forall p :: LiveOn(tbs + [tb], gen, p) == LiveOn(tbs, gen, p)
    ensures forall b | 0 <= b < |hash| :: Members(HashNext(tbs + [tb]), hash[b]) == Members(HashNext(tbs), hash[b])
  {
    assert HashNext(tbs + [tb]) == HashNext(tbs) + [None];
    assert PageNext(tbs + [tb]) == PageNext(tbs) + [None];
    forall b | 0 <= b < |hash|
      ensures Members(HashNext(tbs + [tb]), hash[b]) == Members(HashNext(tbs), hash[b])
    { Grow(HashNext(tbs), hash[b]); }
    forall p | 0 <= p < |heads|
      ensures Members(PageNext(tbs + [tb]), heads[p]) == Members(PageNext(tbs), heads[p])
    { Grow(PageNext(tbs), heads[p]); }
    EdgesAppend(tbs, tb);
  }

  lemma EdgesAppend(tbs: seq<Tb>, tb: Tb)
    requires EdgesOk(tbs) && ShapeOk(tb) && tb.jmp == TbJmpState([None, None], []) && tb.exitTarget == None
    ensures EdgesOk(tbs + [tb])
  {
    var tbs' := tbs + [tb];
    forall x, k | 0 <= x < |tbs'| && 0 <= k < 2 ensures ShapeOk(tbs'[x]) && SlotOk(tbs', x, k, None, []) {
      if x < |tbs| { assert SlotOk(tbs, x, k, None, []); }
    }
    forall d, e | 0 <= d < |tbs'| && e in tbs'[d].jmp.list ensures ListedOk(tbs', e) {
      assert ListedOk(tbs, e);
    }
  }

  // ----- hash chains -----

  lemma HashPrepend(h: Hasher, tbs: seq<Tb>, hash: seq<Link>, i: nat, b: nat)
    requires HashOk(h, tbs, hash) && i < |tbs| && b < |hash| && b == h(tbs[i].code.pc, tbs[i].code.flags)
    requires InRange(i, hash[b]) && tbs[i].code.hostSize > 0
    ensures var tbs' := tbs[i := tbs[i].(hashNext := hash[b])];
      && HashLinksOnly(tbs, tbs')
      && HashOk(h, tbs', hash[b := Some(i)])
      && (forall c | 0 <= c < |hash| :: Members(HashNext(tbs'), hash[b := Some(i)][c])
            == Members(HashNext(tbs), hash[c]) + if c == b then {i} else {})
  {
    var tbs' := tbs[i := tbs[i].(hashNext := hash[b])];
    assert HashNext(tbs') == HashNext(tbs)[i := hash[b]];
    Prepend(HashNext(tbs), hash[b], i);
    forall c | 0 <= c < |hash| && c != b
      ensures Members(HashNext(tbs'), hash[c]) == Members(HashNext(tbs), hash[c])
    { OtherBucketsKept(h, tbs, tbs', hash, b, c); }
  }

  /** Taking block i out of bucket b: the list of b loses i and the other lists stay. */
  ghost predicate HashRemoved(h: Hasher, tbs: seq<Tb>, hash: seq<Link>, tbs': seq<Tb>, hash': seq<Link>, b: nat, i: nat)
    requires HashOk(h, tbs, hash) && b < |hash|
  {
    && HashLinksOnly(tbs, tbs') && HashOk(h, tbs', hash') && |hash'| == |hash|
    && Members(HashNext(tbs'), hash'[b]) == Members(HashNext(tbs), hash[b]) - {i}
    && (forall c | 0 <= c < |hash| && c != b :: hash'[c] == hash[c]
          && Members(HashNext(tbs'), hash[c]) == Members(HashNext(tbs), hash[c]))
  }

  lemma HashUnlinkFirst(h: Hasher, tbs: seq<Tb>, hash: seq<Link>, b: nat, i: nat)
    requires HashOk(h, tbs, hash) && b < |hash| && i < |tbs| && hash[b] == Some(i)
    ensures HashRemoved(h, tbs, hash, tbs[i := tbs[i].(hashNext := None)], hash[b := tbs[i].hashNext], b, i)
  {
    var tbs' := tbs[i := tbs[i].(hashNext := None)];
    assert HashNext(tbs') == HashNext(tbs)[i := None];
    UnlinkFirst(HashNext(tbs), i);
    assert i in Members(HashNext(tbs), hash[b]);
    forall c | 0 <= c < |hash| && c != b
      ensures Members(HashNext(tbs'), hash[c]) == Members(HashNext(tbs), hash[c])
    { OtherBucketsKept(h, tbs, tbs', hash, b, c); }
  }

  lemma HashUnlink(h: Hasher, tbs: seq<Tb>, hash: seq<Link>, b: nat, p: nat, i: nat)
    requires HashOk(h, tbs, hash) && b < |hash| && p < |tbs| && i < |tbs|
    requires p in Members(HashNext(tbs), hash[b]) && tbs[p].hashNext == Some(i)
    ensures var mid := tbs[p := tbs[p].(hashNext := tbs[i].hashNext)];
      HashRemoved(h, tbs, hash, mid[i := mid[i].(hashNext := None)], hash, b, i)
  {
    var mid := tbs[p := tbs[p].(hashNext := tbs[i].hashNext)];
    var tbs' := mid[i := mid[i].(hashNext := None)];
    assert HashNext(tbs)[p] == Some(i);
    Unlink(HashNext(tbs), hash[b], p, i);
    assert HashNext(tbs') == HashNext(tbs)[p := HashNext(tbs)[i]][i := None];
    forall c | 0 <= c < |hash| && c != b
      ensures Members(HashNext(tbs'), hash[c]) == Members(HashNext(tbs), hash[c])
    { OtherBucketsKept(h, tbs, tbs', hash, b, c); }
  }

  // ----- page lists -----

  lemma PagePrepend(tbs: seq<Tb>, heads: seq<Link>, i: nat, p: nat)
    requires PagesOk(tbs, heads) && i < |tbs| && p < |heads| && p == PageOf(tbs[i])
    requires InRange(i, heads[p])
    ensures var tbs' := tbs[i := tbs[i].(pageNext := heads[p])];
      && PageLinksOnly(tbs, tbs')
      && PagesOk(tbs', heads[p := Some(i)])
      && (forall q | 0 <= q < |heads| :: Members(PageNext(tbs'), heads[p := Some(i)][q])
            == Members(PageNext(tbs), heads[q]) + if q == p then {i} else {})
  {
    var tbs' := tbs[i := tbs[i].(pageNext := heads[p])];
    assert PageNext(tbs') == PageNext(tbs)[i := heads[p]];
    Prepend(PageNext(tbs), heads[p], i);
    forall q | 0 <= q < |heads| && q != p
      ensures Members(PageNext(tbs'), heads[q]) == Members(PageNext(tbs), heads[q])
    { OtherPagesKept(tbs, tbs', heads, p, q); }
  }

  ghost predicate PageRemoved(tbs: seq<Tb>, heads: seq<Link>, tbs': seq<Tb>, heads': seq<Link>, p: nat, i: nat)
    requires PagesOk(tbs, heads) && p < |heads|
  {
    && PageLinksOnly(tbs, tbs') && PagesOk(tbs', heads') && |heads'| == |heads|
    && Members(PageNext(tbs'), heads'[p]) == Members(PageNext(tbs), heads[p]) - {i}
    && (forall q | 0 <= q < |heads| && q != p :: heads'[q] == heads[q]
          && Members(PageNext(tbs'), heads[q]) == Members(PageNext(tbs), heads[q]))
  }

  lemma PageUnlinkFirst(tbs: seq<Tb>, heads: seq<Link>, p: nat, i: nat)
    requires PagesOk(tbs, heads) && p < |heads| && i < |tbs| && heads[p] == Some(i)
    ensures PageRemoved(tbs, heads, tbs[i := tbs[i].(pageNext := None)], heads[p := tbs[i].pageNext], p, i)
  {
    var tbs' := tbs[i := tbs[i].(pageNext := None)];
    assert PageNext(tbs') == PageNext(tbs)[i := None];
    UnlinkFirst(PageNext(tbs), i);
    assert i in Members(PageNext(tbs), heads[p]);
    forall q | 0 <= q < |heads| && q != p
      ensures Members(PageNext(tbs'), heads[q]) == Members(PageNext(tbs), heads[q])
    { OtherPagesKept(tbs, tbs', heads, p, q); }
  }

  lemma PageUnlink(tbs: seq<Tb>, heads: seq<Link>, p: nat, prev: nat, i: nat)
    requires PagesOk(tbs, heads) && p < |heads| && prev < |tbs| && i < |tbs|
    requires prev in Members(PageNext(tbs), heads[p]) && tbs[prev].pageNext == Some(i)
    ensures var mid := tbs[prev := tbs[prev].(pageNext := tbs[i].pageNext)];
      PageRemoved(tbs, heads, mid[i := mid[i].(pageNext := None)], heads, p, i)
  {
    var mid := tbs[prev := tbs[prev].(pageNext := tbs[i].pageNext)];
    var tbs' := mid[i := mid[i].(pageNext := None)];
    assert PageNext(tbs)[prev] == Some(i);
    Unlink(PageNext(tbs), heads[p], prev, i);
    assert PageNext(tbs') == PageNext(tbs)[prev := PageNext(tbs)[i]][i := None];
    forall q | 0 <= q < |heads| && q != p
      ensures Members(PageNext(tbs'), heads[q]) == Members(PageNext(tbs), heads[q])
    { OtherPagesKept(tbs, tbs', heads, p, q); }
  }

  // ----- chained jumps -----

  function ClearSlot(tbs: seq<Tb>, x: nat, k: nat): seq<Tb>
    requires x < |tbs| && k < |tbs[x].jmp.dest|
  {
    tbs[x := tbs[x].(jmp := tbs[x].jmp.(dest := tbs[x].jmp.dest[k := None]))]
  }

  /** Block i becomes invalid and hands out its incoming edges. */
  function TakeList(tbs: seq<Tb>, i: nat): seq<Tb>
    requires i < |tbs|
  {
    tbs[i := tbs[i].(invalid := true, jmp := tbs[i].jmp.(list := []))]
  }

  lemma TakeListKeeps(tbs: seq<Tb>, jumps: map<nat, nat>, i: nat)
    requires EdgesOk(tbs) && JumpsLand(tbs, jumps) && i < |tbs|
    ensures EdgesExcept(TakeList(tbs, i), Some(i), tbs[i].jmp.list) && JumpsLand(TakeList(tbs, i), jumps)
  {
    var tbs' := TakeList(tbs, i);
    forall x, k | 0 <= x < |tbs'| && 0 <= k < 2
      ensures SlotOk(tbs', x, k, Some(i), tbs[i].jmp.list) && SlotLands(tbs', jumps, x, k)
    {
      assert SlotOk(tbs, x, k, None, []);
      assert SlotLands(tbs, jumps, x, k);
    }
    forall d, e | 0 <= d < |tbs'| && e in tbs'[d].jmp.list ensures ListedOk(tbs', e) {
      assert ListedOk(tbs, e);
    }
    forall e | e in tbs[i].jmp.list ensures ListedOk(tbs', e) { assert ListedOk(tbs, e); }
  }

  /** Resetting the first pending edge. */
  lemma IncomingStep(tbs: seq<Tb>, jumps: map<nat, nat>, i: nat, pending: seq<Edge>)
    requires pending != [] && EdgesExcept(tbs, Some(i), pending) && JumpsLand(tbs, jumps)
    ensures ListedOk(tbs, pending[0])
    ensures var (x, k) := pending[0];
      && tbs[x].code.jmpReset[k].Some?
      && EdgesExcept(ClearSlot(tbs, x, k), Some(i), pending[1..])
      && JumpsLand(ClearSlot(tbs, x, k), jumps[tbs[x].code.jmpInsn[k].value := tbs[x].code.jmpReset[k].value])
  {
    assert pending[0] in pending;
    var (x, k) := pending[0];
    var tbs' := ClearSlot(tbs, x, k);
    var jumps' := jumps[tbs[x].code.jmpInsn[k].value := tbs[x].code.jmpReset[k].value];
    assert JumpsDistinct(tbs');
    forall y, l | 0 <= y < |tbs'| && 0 <= l < 2
      ensures SlotOk(tbs', y, l, Some(i), pending[1..]) && SlotLands(tbs', jumps', y, l)
    {
      assert SlotOk(tbs, y, l, Some(i), pending);
      assert SlotLands(tbs, jumps, y, l);
    }
    forall d, e | 0 <= d < |tbs'| && e in tbs'[d].jmp.list ensures ListedOk(tbs', e) {
      assert ListedOk(tbs, e);
    }
    forall e | e in pending[1..] ensures ListedOk(tbs', e) { assert e in pending; assert ListedOk(tbs, e); }
  }

  /** A jump list without the entries for edge e. */
  function Without(list: seq<Edge>, e: Edge): (r: seq<Edge>)
    ensures forall x | x in list :: x == e || x in r
    ensures forall x | x in r :: x in list && x != e
  {
    if list == [] then [] else
    (if list[0] == e then [] else [list[0]]) + Without(list[1..], e)
  }

  /** Dropping the outgoing edge of slot k of the invalidated block i. */
  function DropOut(tbs: seq<Tb>, i: nat, k: nat): seq<Tb>
    requires i < |tbs| && k < |tbs[i].jmp.dest|
    requires InRange(|tbs|, tbs[i].jmp.dest[k])
  {
    match tbs[i].jmp.dest[k]
    case None => tbs
    case Some(d) =>
      var t := ClearSlot(tbs, i, k);
      t[d := t[d].(jmp := t[d].jmp.(list := Without(t[d].jmp.list, (i, k))))]
  }

  lemma DropOutKeeps(tbs: seq<Tb>, jumps: map<nat, nat>, i: nat, k: nat)
    requires i < |tbs| && k < 2 && EdgesExcept(tbs, Some(i), []) && JumpsLand(tbs, jumps) && tbs[i].invalid
    ensures InRange(|tbs|, tbs[i].jmp.dest[k])
    ensures EdgesExcept(DropOut(tbs, i, k), Some(i), []) && JumpsLand(DropOut(tbs, i, k), jumps)
  {
    hide EdgesExcept, JumpsLand;
    DropOutInRange(tbs, i, k);
    DropOutEdges(tbs, i, k);
    DropOutLands(tbs, jumps, i, k);
  }

  lemma DropOutInRange(tbs: seq<Tb>, i: nat, k: nat)
    requires i < |tbs| && k < 2 && EdgesExcept(tbs, Some(i), [])
    ensures ShapeOk(tbs[i]) && InRange(|tbs|, tbs[i].jmp.dest[k])
  {
    assert SlotOk(tbs, i, k, Some(i), []);
  }

  lemma DropOutLands(tbs: seq<Tb>, jumps: map<nat, nat>, i: nat, k: nat)
    requires i < |tbs| && k < 2 && ShapeOk(tbs[i]) && InRange(|tbs|, tbs[i].jmp.dest[k]) && JumpsLand(tbs, jumps) && tbs[i].invalid
    ensures JumpsLand(DropOut(tbs, i, k), jumps)
  {
    var tbs' := DropOut(tbs, i, k);
    assert JumpsDistinct(tbs');
    forall y, l | 0 <= y < |tbs'| && 0 <= l < 2 ensures SlotLands(tbs', jumps, y, l) {
      assert SlotLands(tbs, jumps, y, l);
    }
  }

  lemma DropOutSlots(tbs: seq<Tb>, i: nat, k: nat, y: nat, l: nat)
    requires i < |tbs| && k < 2 && ShapeOk(tbs[i]) && InRange(|tbs|, tbs[i].jmp.dest[k])
    requires y < |tbs| && l < 2 && ShapeOk(tbs[y]) && SlotOk(tbs, y, l, Some(i), [])
    ensures var tbs' := DropOut(tbs, i, k); |tbs'| == |tbs| && ShapeOk(tbs'[y]) && SlotOk(tbs', y, l, Some(i), [])
  {
  }

  lemma DropOutEdges(tbs: seq<Tb>, i: nat, k: nat)
    requires i < |tbs| && k < 2 && ShapeOk(tbs[i]) && InRange(|tbs|, tbs[i].jmp.dest[k]) && EdgesExcept(tbs, Some(i), [])
    ensures EdgesExcept(DropOut(tbs, i, k), Some(i), [])
  {
    hide SlotOk;
    var tbs' := DropOut(tbs, i, k);
    forall y, l | 0 <= y < |tbs'| && 0 <= l < 2 ensures ShapeOk(tbs'[y]) && SlotOk(tbs', y, l, Some(i), []) {
      assert SlotOk(tbs, y, l, Some(i), []);
      DropOutSlots(tbs, i, k, y, l);
    }
    forall d, e | 0 <= d < |tbs'| && e in tbs'[d].jmp.list ensures ListedOk(tbs', e) {
      assert e in tbs[d].jmp.list;
      assert ListedOk(tbs, e);
    }
  }

  /** With both sides unlinked nothing is excused any more. */
  lemma EdgesRestored(tbs: seq<Tb>, i: nat)
    requires i < |tbs| && EdgesExcept(tbs, Some(i), [])
    ensures EdgesOk(tbs)
  {
    forall x, k | 0 <= x < |tbs| && 0 <= k < 2 ensures SlotOk(tbs, x, k, None, []) {
      assert SlotOk(tbs, x, k, Some(i), []);
    }
  }

  /** A new edge from (x, k) to the live, finished block d. */
  function AddEdge(tbs: seq<Tb>, x: nat, k: nat, d: nat): seq<Tb>
    requires x < |tbs| && k < |tbs[x].jmp.dest| && d < |tbs|
  {
    var t := tbs[x := tbs[x].(jmp := tbs[x].jmp.(dest := tbs[x].jmp.dest[k := Some(d)]))];
    t[d := t[d].(jmp := t[d].jmp.(list := t[d].jmp.list + [(x, k)]))]
  }

  lemma AddEdgeKeeps(tbs: seq<Tb>, jumps: map<nat, nat>, gen: nat, x: nat, k: nat, d: nat)
    requires EdgesOk(tbs) && JumpsLand(tbs, jumps) && GensOk(tbs, gen)
    requires x < |tbs| && k < 2 && tbs[x].code.jmpInsn[k].Some? && Live(tbs, gen, d) && tbs[d].code.hostSize > 0
    ensures EdgesOk(AddEdge(tbs, x, k, d))
    ensures JumpsLand(AddEdge(tbs, x, k, d), jumps[tbs[x].code.jmpInsn[k].value := tbs[d].code.hostOffset])
    ensures JumpsOnly(tbs, AddEdge(tbs, x, k, d))
  {
    hide JumpsDistinct, SlotOk, SlotLands;
    AddEdgeLands(tbs, jumps, x, k, d);
    AddEdgeEdges(tbs, gen, x, k, d);
  }

  lemma AddEdgeLands(tbs: seq<Tb>, jumps: map<nat, nat>, x: nat, k: nat, d: nat)
    requires JumpsLand(tbs, jumps) && x < |tbs| && k < 2 && ShapeOk(tbs[x]) && tbs[x].code.jmpInsn[k].Some? && d < |tbs|
    ensures JumpsLand(AddEdge(tbs, x, k, d), jumps[tbs[x].code.jmpInsn[k].value := tbs[d].code.hostOffset])
  {
    var tbs' := AddEdge(tbs, x, k, d);
    var jumps' := jumps[tbs[x].code.jmpInsn[k].value := tbs[d].code.hostOffset];
    assert JumpsDistinct(tbs');
    forall y, l | 0 <= y < |tbs'| && 0 <= l < 2 ensures SlotLands(tbs', jumps', y, l) {
      assert SlotLands(tbs, jumps, y, l);
    }
  }

  lemma AddEdgeEdges(tbs: seq<Tb>, gen: nat, x: nat, k: nat, d: nat)
    requires EdgesOk(tbs) && GensOk(tbs, gen)
    requires x < |tbs| && k < 2 && tbs[x].code.jmpInsn[k].Some? && Live(tbs, gen, d) && tbs[d].code.hostSize > 0
    ensures EdgesOk(AddEdge(tbs, x, k, d))
  {
    var tbs' := AddEdge(tbs, x, k, d);
    forall y, l | 0 <= y < |tbs'| && 0 <= l < 2 ensures SlotOk(tbs', y, l, None, []) {
      assert SlotOk(tbs, y, l, None, []);
    }
    forall c, e | 0 <= c < |tbs'| && e in tbs'[c].jmp.list ensures ListedOk(tbs', e) {
      assert e in tbs[c].jmp.list ==> ListedOk(tbs, e);
    }
  }

  /** A slot chained to d lands there, and d knows. */
  lemma ChainedLands(tbs: seq<Tb>, jumps: map<nat, nat>, x: nat, k: nat, d: nat)
    requires EdgesOk(tbs) && JumpsLand(tbs, jumps) && x < |tbs| && k < 2 && tbs[x].jmp.dest[k] == Some(d)
    ensures d < |tbs| && tbs[x].code.jmpInsn[k].Some? && (x, k) in tbs[d].jmp.list
    ensures tbs[x].code.jmpInsn[k].value in jumps && jumps[tbs[x].code.jmpInsn[k].value] == tbs[d].code.hostOffset
  {
    assert SlotOk(tbs, x, k, None, []);
    assert SlotLands(tbs, jumps, x, k);
  }

  /** Changing only list links keeps edges and jumps. */
  lemma LinksKeepEdges(tbs: seq<Tb>, tbs': seq<Tb>, jumps: map<nat, nat>, skip: Link, pending: seq<Edge>)
    requires EdgesExcept(tbs, skip, pending) && JumpsLand(tbs, jumps)
    requires HashLinksOnly(tbs, tbs') || PageLinksOnly(tbs, tbs')
    ensures EdgesExcept(tbs', skip, pending) && JumpsLand(tbs', jumps)
  {
    assert |tbs'| == |tbs| && forall x | 0 <= x < |tbs| ::
      tbs'[x].code == tbs[x].code && tbs'[x].jmp == tbs[x].jmp && tbs'[x].gen == tbs[x].gen
      && tbs'[x].invalid == tbs[x].invalid && tbs'[x].exitTarget == tbs[x].exitTarget;
    assert JumpsDistinct(tbs');
    forall y, l | 0 <= y < |tbs'| && 0 <= l < 2
      ensures SlotOk(tbs', y, l, skip, pending) && SlotLands(tbs', jumps, y, l)
    {
      assert SlotOk(tbs, y, l, skip, pending);
      assert SlotLands(tbs, jumps, y, l);
    }
    forall c, e | 0 <= c < |tbs'| && e in tbs'[c].jmp.list ensures ListedOk(tbs', e) {
      assert ListedOk(tbs, e);
    }
    forall e | e in pending ensures ListedOk(tbs', e) { assert ListedOk(tbs, e); }
  }

  /** Changing only chaining state or flags keeps the lists. */
  lemma ListsKept(h: Hasher, tbs: seq<Tb>, tbs': seq<Tb>, hash: seq<Link>, heads: seq<Link>)
    requires HashOk(h, tbs, hash) && PagesOk(tbs, heads) && |tbs'| == |tbs|
    requires forall x | 0 <= x < |tbs| ::
      && tbs'[x].code == tbs[x].code
      && tbs'[x].hashNext == tbs[x].hashNext && tbs'[x].pageNext == tbs[x].pageNext
    ensures HashNext(tbs') == HashNext(tbs) && PageNext(tbs') == PageNext(tbs)
    ensures HashOk(h, tbs', hash) && PagesOk(tbs', heads)
  {
  }

  /** Page links do not matter to the hash chains. */
  lemma PageLinksKeepHash(h: Hasher, tbs: seq<Tb>, tbs': seq<Tb>, hash: seq<Link>)
    requires HashOk(h, tbs, hash) && PageLinksOnly(tbs, tbs')
    ensures HashNext(tbs') == HashNext(tbs) && HashOk(h, tbs', hash)
  {
  }

  /** Hash links do not matter to the page lists. */
  lemma HashLinksKeepPages(tbs: seq<Tb>, tbs': seq<Tb>, heads: seq<Link>)
    requires PagesOk(tbs, heads) && HashLinksOnly(tbs, tbs')
    ensures PageNext(tbs') == PageNext(tbs) && PagesOk(tbs', heads)
  {
  }

  // ----- code pages -----

  lemma {:induction false} DistinctSize(list: seq<nat>, elems: set<nat>)
    requires forall i :: i in list <==> i in elems
    requires forall a, b | 0 <= a < b < |list| :: list[a] != list[b]
    ensures |elems| == |list|
  {
    if list == [] {
      assert elems == {};
    } else {
      var rest := list[1..];
      assert forall i :: i in list <==> i == list[0] || i in rest;
      DistinctSize(rest, elems - {list[0]});
    }
  }

  /** Invalidating exactly the live blocks of page p keeps every counter right. */
  lemma PageEmptied(tbs: seq<Tb>, tbs': seq<Tb>, counts: seq<nat>, counts': seq<nat>, gen: nat, p: nat, list: seq<nat>)
    requires |tbs'| == |tbs| && p < |counts|
    requires forall x | 0 <= x < |tbs| :: SameBlock(tbs[x], tbs'[x]) && (tbs'[x].invalid <==> tbs[x].invalid || x in list)
    requires forall i :: i in list <==> i in LiveOn(tbs, gen, p)
    requires forall a, b | 0 <= a < b < |list| :: list[a] != list[b]
    requires counts' == counts[p := if counts[p] > |list| then counts[p] - |list| else 0]
    ensures LiveOn(tbs', gen, p) == {}
    ensures CountsExact(tbs, counts, gen) ==> CountsExact(tbs', counts', gen)
  {
    DistinctSize(list, LiveOn(tbs, gen, p));
    forall q | q != p ensures LiveOn(tbs', gen, q) == LiveOn(tbs, gen, q) { }
  }

  /** Dropping a single live block keeps the counters right exactly while its page holds at most
      255 live blocks: beyond that the saturated counter loses one too many. Dropping a stale one
      keeps them right exactly when its page holds no live block. */
  lemma SaturationLimit(tbs: seq<Tb>, tbs': seq<Tb>, counts: seq<nat>, gen: nat, i: nat)
    requires |tbs'| == |tbs| && i < |tbs| && PageOf(tbs[i]) < |counts|
    requires forall x | 0 <= x < |tbs| :: SameBlock(tbs[x], tbs'[x]) && (tbs'[x].invalid <==> tbs[x].invalid || x == i)
    requires CountsExact(tbs, counts, gen)
    ensures CountsExact(tbs', Decremented(counts, PageOf(tbs[i])), gen) <==>
      if LiveTb(tbs[i], gen) then |LiveOn(tbs, gen, PageOf(tbs[i]))| <= 255 else LiveOn(tbs, gen, PageOf(tbs[i])) == {}
  {
    var p := PageOf(tbs[i]);
    assert i in LiveOn(tbs, gen, p) <==> LiveTb(tbs[i], gen);
    assert LiveOn(tbs', gen, p) == LiveOn(tbs, gen, p) - {i};
    forall q | q != p ensures LiveOn(tbs', gen, q) == LiveOn(tbs, gen, q) { }
  }
}
