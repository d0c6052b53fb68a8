/**
  * Overlap resolution and lookup: ranges of higher priority are inserted first and later
  * ones fill the gaps, so that a lookup finds the first covering range in the sort order.
  */
module FlatResolve {
  import opened Options
  import opened StableSort
  import opened FlatView

  datatype Hit = Hit(leaf: Leaf, offset: nat)

  predicate Holds(r: FlatRange, a: nat) { r.addr <= a < r.addr + r.size }

  function HitOf(r: FlatRange, a: nat): Hit
    requires Holds(r, a)
  {
    Hit(r.leaf, r.offset + (a - r.addr))
  }

  /** What the first range that holds a maps it to. */
  function At(s: seq<FlatRange>, a: nat): Option<Hit> {
    if s == [] then None else if Holds(s[0], a) then Some(HitOf(s[0], a)) else At(s[1..], a)
  }

  predicate Apart(x: FlatRange, y: FlatRange) { x.addr + x.size <= y.addr || y.addr + y.size <= x.addr }

  /** No two ranges overlap and none is empty. */
  ghost predicate Disjoint(s: seq<FlatRange>) {
    && (forall i | 0 <= i < |s| :: s[i].size > 0)
    && (forall i, j | 0 <= i < j < |s| :: Apart(s[i], s[j]))
  }

  lemma AtSnoc(s: seq<FlatRange>, x: FlatRange, a: nat)
    ensures At(s + [x], a) == if At(s, a).Some? then At(s, a) else if Holds(x, a) then Some(HitOf(x, a)) else None
  {
    if s == [] {
      assert s + [x] == [x];
    } else {
      assert (s + [x])[1..] == s[1..] + [x];
      AtSnoc(s[1..], x, a);
    }
  }

  lemma AtAny(s: seq<FlatRange>, i: nat, a: nat)
    requires Disjoint(s) && i < |s| && Holds(s[i], a)
    ensures At(s, a) == Some(HitOf(s[i], a))
  {
    if i > 0 {
      assert Apart(s[0], s[i]);
      AtAny(s[1..], i - 1, a);
    }
  }

  lemma AtNone(s: seq<FlatRange>, a: nat)
    ensures At(s, a).None? <==> forall i | 0 <= i < |s| :: !Holds(s[i], a)
  {
    if s != [] {
      AtNone(s[1..], a);
      if forall i | 0 <= i < |s| :: !Holds(s[i], a) {
        assert !Holds(s[0], a);
        assert forall i | 0 <= i < |s[1..]| :: s[1..][i] == s[i + 1];
      } else {
        var i :| 0 <= i < |s| && Holds(s[i], a);
        assert i > 0 ==> s[1..][i - 1] == s[i];
      }
    }
  }

  // ---- Inserting one range ----

  datatype Span = Span(first: nat, past: nat)

  predicate SpanLess(x: Span, y: Span) { x.first < y.first }

  function Overlapping(s: seq<FlatRange>, from: nat, to: nat): seq<Span> {
    if s == [] then []
    else (if s[0].addr < to && s[0].addr + s[0].size > from then [Span(s[0].addr, s[0].addr + s[0].size)] else []) + Overlapping(s[1..], from, to)
  }

  lemma OverlappingIs(s: seq<FlatRange>, from: nat, to: nat, x: Span)
    ensures x in Overlapping(s, from, to) <==>
      exists i :: 0 <= i < |s| && s[i].addr < to && s[i].addr + s[i].size > from && x == Span(s[i].addr, s[i].addr + s[i].size)
  {
    if s != [] {
      OverlappingIs(s[1..], from, to, x);
      assert forall i | 0 < i < |s| :: s[i] == s[1..][i - 1];
    }
  }

  ghost predicate Free(s: seq<FlatRange>, from: nat, to: nat) {
    forall i | 0 <= i < |s| :: s[i].addr + s[i].size <= from || to <= s[i].addr
  }

  /** The ranges once raw is resolved up to cur: what was there first, then raw. */
  ghost predicate Resolved(was: seq<FlatRange>, raw: RawRange, s: seq<FlatRange>, cur: nat) {
    Disjoint(s) && was <= s && forall a: nat ::
      At(s, a) == if At(was, a).Some? then At(was, a)
                  else if Covers(raw, a) && a < cur then Some(Hit(raw.leaf, raw.offset + (a - raw.addr))) else None
  }

  function Fragment(raw: RawRange, from: nat, to: nat): FlatRange
    requires raw.addr <= from <= to
  {
    FlatRange(from, to - from, raw.leaf, raw.offset + (from - raw.addr))
  }

  lemma PushFragment(was: seq<FlatRange>, raw: RawRange, s: seq<FlatRange>, cur: nat, to: nat)
    requires Resolved(was, raw, s, cur) && raw.addr <= cur < to <= raw.addr + raw.size && Free(was, cur, to)
    ensures Resolved(was, raw, s + [Fragment(raw, cur, to)], to)
  {
    var x := Fragment(raw, cur, to);
    forall i | 0 <= i < |s| ensures Apart(s[i], x) {
      StaysApart(was, raw, s, cur, to, i);
    }
    forall a: nat ensures At(s + [x], a) == if At(was, a).Some? then At(was, a)
                  else if Covers(raw, a) && a < to then Some(Hit(raw.leaf, raw.offset + (a - raw.addr))) else None {
      AtSnoc(s, x, a);
    }
  }

  /** The gap [cur, to) meets no range of s: not those before raw, nor raw's own fragments below cur. */
  lemma StaysApart(was: seq<FlatRange>, raw: RawRange, s: seq<FlatRange>, cur: nat, to: nat, i: nat)
    requires Resolved(was, raw, s, cur) && raw.addr <= cur < to && Free(was, cur, to) && i < |s|
    ensures Apart(s[i], Fragment(raw, cur, to))
  {
    if !Apart(s[i], Fragment(raw, cur, to)) {
      var a := if s[i].addr < cur then cur else s[i].addr;
      assert Holds(s[i], a) && cur <= a < to;
      AtAny(s, i, a);
      AtNone(was, a);
    }
  }

  /** Moving on over a range that was there. */
  lemma SkipTaken(was: seq<FlatRange>, raw: RawRange, s: seq<FlatRange>, cur: nat, to: nat, i: nat)
    requires Resolved(was, raw, s, cur) && cur <= to && Disjoint(was)
    requires i < |was| && was[i].addr <= cur && to <= was[i].addr + was[i].size
    ensures Resolved(was, raw, s, to)
  {
    forall a: nat | cur <= a < to ensures At(was, a).Some? {
      AtAny(was, i, a);
    }
  }

  ghost predicate SpanOf(was: seq<FlatRange>, x: Span) {
    exists i :: 0 <= i < |was| && x == Span(was[i].addr, was[i].addr + was[i].size)
  }

  /** The spans of the old ranges that meet raw, sorted; done of them handled, the next free address is cur. */
  ghost predicate Sweeping(was: seq<FlatRange>, raw: RawRange, spans: seq<Span>, done: nat, cur: nat) {
    && done <= |spans| && raw.addr <= cur
    && (forall k | 0 <= k < |spans| :: SpanOf(was, spans[k]))
    && (forall i | 0 <= i < |was| && was[i].addr < raw.addr + raw.size && was[i].addr + was[i].size > raw.addr ::
          Span(was[i].addr, was[i].addr + was[i].size) in spans)
    && (forall j, k | 0 <= j < k < |spans| :: spans[j].first <= spans[k].first)
    && (forall k | 0 <= k < done :: spans[k].past <= cur)
  }

  lemma SpansSorted(was: seq<FlatRange>, raw: RawRange) returns (spans: seq<Span>)
    ensures spans == Sort(Overlapping(was, raw.addr, raw.addr + raw.size), SpanLess)
    ensures Sweeping(was, raw, spans, 0, raw.addr)
  {
    hide Sort, Overlapping, SpanOf;
    var from, to := raw.addr, raw.addr + raw.size;
    var found := Overlapping(was, from, to);
    spans := Sort(found, SpanLess);
    SortSorted(found, SpanLess);
    forall k | 0 <= k < |spans| ensures SpanOf(was, spans[k]) {
      SortMember(found, SpanLess, spans[k]);
      SpanFound(was, from, to, spans[k]);
    }
    forall i | 0 <= i < |was| && was[i].addr < to && was[i].addr + was[i].size > from ensures Span(was[i].addr, was[i].addr + was[i].size) in spans {
      var x := Span(was[i].addr, was[i].addr + was[i].size);
      OverlappingIs(was, from, to, x);
      SortMember(found, SpanLess, x);
    }
    forall j, k | 0 <= j < k < |spans| ensures spans[j].first <= spans[k].first {
      assert !SpanLess(spans[k], spans[j]);
    }
  }

  lemma SpanFound(was: seq<FlatRange>, from: nat, to: nat, x: Span)
    requires x in Overlapping(was, from, to)
    ensures SpanOf(was, x)
  {
    OverlappingIs(was, from, to, x);
  }

  /** Up to the next span the gap is free. */
  lemma GapFree(was: seq<FlatRange>, raw: RawRange, spans: seq<Span>, done: nat, cur: nat, to: nat)
    requires Sweeping(was, raw, spans, done, cur) && cur <= to <= raw.addr + raw.size
    requires done < |spans| ==> to <= spans[done].first
    ensures Free(was, cur, to)
  {
    forall i | 0 <= i < |was| ensures was[i].addr + was[i].size <= cur || to <= was[i].addr {
      if was[i].addr < raw.addr + raw.size && was[i].addr + was[i].size > raw.addr {
        var x := Span(was[i].addr, was[i].addr + was[i].size);
        var k :| 0 <= k < |spans| && spans[k] == x;
        assert k > done ==> spans[done].first <= spans[k].first;
      }
    }
  }

  /** Inserts a range of lower priority: it fills what the ranges there leave free, and changes nothing else. */
  method InsertRange(was: seq<FlatRange>, raw: RawRange) returns (s: seq<FlatRange>)
    requires Disjoint(was)
    ensures Resolved(was, raw, s, raw.addr + raw.size)
  {
    hide Resolved, Sweeping, Free, Disjoint;
    var cur, end := raw.addr, raw.addr + raw.size;
    var spans := Sort(Overlapping(was, cur, end), SpanLess);
    ghost var same := SpansSorted(was, raw);
    s := was;
    StartResolved(was, raw);
    var k := 0;
    while k < |spans| && cur < end
      invariant k <= |spans| && raw.addr <= cur
      invariant Sweeping(was, raw, spans, k, cur)
      invariant Resolved(was, raw, s, cur)
    {
      var oa, ob := spans[k].first, spans[k].past;
      if cur < oa {
        var gapEnd := if oa < end then oa else end;
        GapFree(was, raw, spans, k, cur, gapEnd);
        PushFragment(was, raw, s, cur, gapEnd);
        s := s + [Fragment(raw, cur, gapEnd)];
      }
      Advance(was, raw, spans, k, s, cur);
      cur := if cur < ob then ob else cur;
      k := k + 1;
    }
    if cur < end {
      GapFree(was, raw, spans, k, cur, end);
      PushFragment(was, raw, s, cur, end);
      s := s + [Fragment(raw, cur, end)];
    } else {
      ResolvedPast(was, raw, s, cur);
    }
  }

  lemma StartResolved(was: seq<FlatRange>, raw: RawRange)
    requires Disjoint(was)
    ensures Resolved(was, raw, was, raw.addr)
  {
  }

  /** Past the end of raw nothing more is to be resolved. */
  lemma ResolvedPast(was: seq<FlatRange>, raw: RawRange, s: seq<FlatRange>, cur: nat)
    requires Resolved(was, raw, s, cur) && cur >= raw.addr + raw.size
    ensures Resolved(was, raw, s, raw.addr + raw.size)
  {
  }

  lemma Advance(was: seq<FlatRange>, raw: RawRange, spans: seq<Span>, k: nat, s: seq<FlatRange>, cur: nat)
    requires Disjoint(was) && k < |spans| && Sweeping(was, raw, spans, k, cur) && cur < raw.addr + raw.size
    requires var oa := spans[k].first; Resolved(was, raw, s, if cur < oa then (if oa < raw.addr + raw.size then oa else raw.addr + raw.size) else cur)
    ensures var next := if cur < spans[k].past then spans[k].past else cur;
      Sweeping(was, raw, spans, k + 1, next) && Resolved(was, raw, s, next)
  {
    var i :| 0 <= i < |was| && spans[k] == Span(was[i].addr, was[i].addr + was[i].size);
    var oa, end := spans[k].first, raw.addr + raw.size;
    var at := if cur < oa then (if oa < end then oa else end) else cur;
    var next := if cur < spans[k].past then spans[k].past else cur;
    if at >= end {
      assert Resolved(was, raw, s, next) by { assert forall a: nat | Covers(raw, a) :: a < at; }
    } else if at < next {
      SkipTaken(was, raw, s, at, next, i);
    }
  }

  // ---- The whole view ----

  /** Higher priority first, ties by address; the sort is stable, so then by collection order. */
  predicate RawLess(x: RawRange, y: RawRange) { x.priority > y.priority || (x.priority == y.priority && x.addr < y.addr) }

  predicate AddrLess(x: FlatRange, y: FlatRange) { x.addr < y.addr }

  function CoversAt(a: nat): RawRange -> bool { (r: RawRange) => Covers(r, a) }

  function HitOfRaw(r: Option<RawRange>, a: nat): Option<Hit>
    requires r.Some? ==> Covers(r.value, a)
  {
    if r.None? then None else Some(Hit(r.value.leaf, r.value.offset + (a - r.value.addr)))
  }

  lemma FindSnoc(s: seq<RawRange>, x: RawRange, p: RawRange -> bool)
    ensures Find(s + [x], p) == if Find(s, p).Some? then Find(s, p) else if p(x) then Some(x) else None
  {
    if s == [] {
      assert s + [x] == [x];
    } else {
      assert (s + [x])[1..] == s[1..] + [x];
      FindSnoc(s[1..], x, p);
    }
  }

  /** The ranges map every address as the first covering raw range does. */
  ghost predicate FirstWins(s: seq<FlatRange>, raws: seq<RawRange>) {
    Disjoint(s) && forall a: nat :: At(s, a) == HitOfRaw(Find(raws, CoversAt(a)), a)
  }

  lemma FirstWinsSnoc(was: seq<FlatRange>, s: seq<FlatRange>, raws: seq<RawRange>, x: RawRange)
    requires FirstWins(was, raws) && Resolved(was, x, s, x.addr + x.size)
    ensures FirstWins(s, raws + [x])
  {
    hide Disjoint;
    forall a: nat ensures At(s, a) == HitOfRaw(Find(raws + [x], CoversAt(a)), a) {
      FindSnoc(raws, x, CoversAt(a));
    }
  }

  method Resolve(raws: seq<RawRange>) returns (s: seq<FlatRange>)
    ensures FirstWins(s, raws)
  {
    hide FirstWins, Resolved;
    s := [];
    assert FirstWins([], []) by { NothingWins(); }
    for k := 0 to |raws|
      invariant FirstWins(s, raws[..k])
    {
      Unwrap(s, raws[..k]);
      var next := InsertRange(s, raws[k]);
      FirstWinsSnoc(s, next, raws[..k], raws[k]);
      assert raws[..k + 1] == raws[..k] + [raws[k]];
      s := next;
    }
    assert raws[..|raws|] == raws;
  }

  lemma NothingWins()
    ensures FirstWins([], [])
  {
  }

  lemma Unwrap(s: seq<FlatRange>, raws: seq<RawRange>)
    requires FirstWins(s, raws)
    ensures Disjoint(s)
  {
  }

  lemma ConsDisjoint(x: FlatRange, s: seq<FlatRange>)
    requires Disjoint(s) && x.size > 0 && forall i | 0 <= i < |s| :: Apart(x, s[i])
    ensures Disjoint([x] + s)
  {
    var r := [x] + s;
    forall i, j | 0 <= i < j < |r| ensures Apart(r[i], r[j]) {
      if i > 0 { assert Apart(s[i - 1], s[j - 1]); } else { assert Apart(x, s[j - 1]); }
    }
  }

  lemma TailDisjoint(s: seq<FlatRange>)
    requires Disjoint(s) && s != []
    ensures Disjoint(s[1..]) && forall y | y in s[1..] :: Apart(s[0], y)
  {
    forall y | y in s[1..] ensures Apart(s[0], y) {
      var i :| 0 <= i < |s[1..]| && s[1..][i] == y;
      assert Apart(s[0], s[i + 1]);
    }
  }

  lemma {:induction false} InsertMember(x: FlatRange, s: seq<FlatRange>, y: FlatRange)
    requires y in Insert(x, s, AddrLess)
    ensures y == x || y in s
  {
    if s != [] && AddrLess(s[0], x) && y != s[0] { InsertMember(x, s[1..], y); }
  }

  lemma {:induction false} InsertDisjoint(x: FlatRange, s: seq<FlatRange>)
    requires Disjoint(s) && x.size > 0 && forall y | y in s :: Apart(x, y)
    ensures Disjoint(Insert(x, s, AddrLess))
  {
    hide Disjoint, AddrLess;
    if s == [] || !AddrLess(s[0], x) {
      ConsDisjoint(x, s);
    } else {
      var t := Insert(x, s[1..], AddrLess);
      TailDisjoint(s);
      InsertDisjoint(x, s[1..]);
      forall i | 0 <= i < |t| ensures Apart(s[0], t[i]) {
        InsertMember(x, s[1..], t[i]);
        if t[i] == x { assert Apart(x, s[0]); }
      }
      assert s[0].size > 0 by { FirstHas(s); }
      ConsDisjoint(s[0], t);
    }
  }

  lemma FirstHas(s: seq<FlatRange>)
    requires Disjoint(s) && s != []
    ensures s[0].size > 0
  {
  }

  lemma {:induction false} SortDisjoint(s: seq<FlatRange>)
    requires Disjoint(s)
    ensures Disjoint(Sort(s, AddrLess))
  {
    hide Disjoint, Insert, Apart;
    if s != [] {
      TailDisjoint(s);
      SortDisjoint(s[1..]);
      var t := Sort(s[1..], AddrLess);
      forall y | y in t ensures Apart(s[0], y) { SortMember(s[1..], AddrLess, y); }
      FirstHas(s);
      InsertDisjoint(s[0], t);
    } else {
      assert Sort(s, AddrLess) == s;
    }
  }

  lemma AtSorted(s: seq<FlatRange>, a: nat)
    requires Disjoint(s)
    ensures Disjoint(Sort(s, AddrLess)) && At(Sort(s, AddrLess), a) == At(s, a)
  {
    hide Sort;
    SortDisjoint(s);
    var t := Sort(s, AddrLess);
    AtNone(s, a);
    AtNone(t, a);
    if At(s, a).Some? {
      var i :| 0 <= i < |s| && Holds(s[i], a);
      AtAny(s, i, a);
      SortMember(s, AddrLess, s[i]);
      var j :| 0 <= j < |t| && t[j] == s[i];
      AtAny(t, j, a);
    } else {
      forall j | 0 <= j < |t| ensures !Holds(t[j], a) {
        SortMember(s, AddrLess, t[j]);
      }
    }
  }

  /** Sorted by address, disjoint, no empty range. */
  ghost predicate Ordered(s: seq<FlatRange>) {
    && (forall i | 0 <= i < |s| :: s[i].size > 0)
    && (forall i, j | 0 <= i < j < |s| :: s[i].addr + s[i].size <= s[j].addr)
  }

  lemma SortOrdered(s: seq<FlatRange>)
    requires Disjoint(s)
    ensures Ordered(Sort(s, AddrLess)) && Disjoint(Sort(s, AddrLess))
  {
    hide Sort;
    SortDisjoint(s);
    SortSorted(s, AddrLess);
    var t := Sort(s, AddrLess);
    forall i, j | 0 <= i < j < |t| ensures t[i].addr + t[i].size <= t[j].addr {
      assert Apart(t[i], t[j]) && !AddrLess(t[j], t[i]);
    }
  }

  /** What a lookup is to find: the winner among the raw ranges that cover the address. */
  ghost predicate BestWins(view: seq<FlatRange>, raws: seq<RawRange>) {
    forall a: nat :: BestAt(view, raws, a)
  }

  ghost predicate BestAt(view: seq<FlatRange>, raws: seq<RawRange>, a: nat) {
    match At(view, a)
    case None => forall r | r in raws :: !Covers(r, a)
    case Some(hit) => exists i: nat :: Winner(raws, RawLess, CoversAt(a), i) && hit == Hit(raws[i].leaf, raws[i].offset + (a - raws[i].addr))
  }

  lemma BestIs(s: seq<FlatRange>, raws: seq<RawRange>, a: nat)
    requires FirstWins(s, Sort(raws, RawLess))
    ensures BestAt(Sort(s, AddrLess), raws, a)
  {
    hide Sort, Disjoint;
    AtSorted(s, a);
    var i := FindSorted(raws, RawLess, CoversAt(a));
    if At(s, a).None? {
      forall r | r in raws ensures !Covers(r, a) {
        assert !CoversAt(a)(r);
      }
    }
  }

  /** The flat view of a region tree. */
  method FromRegion(root: Region) returns (view: seq<FlatRange>)
    ensures Ordered(view) && Disjoint(view) && BestWins(view, Collect(root, 0, 0))
  {
    hide Sort, Disjoint, FirstWins, BestAt, Ordered;
    var raw := Collect(root, 0, 0);
    var sorted := Sort(raw, RawLess);
    var resolved := Resolve(sorted);
    Unwrap(resolved, sorted);
    view := Sort(resolved, AddrLess);
    SortOrdered(resolved);
    forall a: nat ensures BestAt(view, raw, a) { BestIs(resolved, raw, a); }
  }

  /** Binary search for the range that holds an address. */
  method Lookup(view: seq<FlatRange>, a: nat) returns (r: Option<FlatRange>)
    requires Ordered(view)
    ensures r.Some? ==> r.value in view && Holds(r.value, a) && At(view, a) == Some(HitOf(r.value, a))
    ensures r.None? <==> At(view, a).None?
  {
    var lo, hi := 0, |view|;
    while lo < hi
      invariant 0 <= lo <= hi <= |view|
      invariant forall i | 0 <= i < lo :: view[i].addr <= a
      invariant forall i | hi <= i < |view| :: view[i].addr > a
    {
      var mid := (lo + hi) / 2;
      if view[mid].addr <= a { lo := mid + 1; } else { hi := mid; }
    }
    AtNone(view, a);
    if lo == 0 { return None; }
    var x := view[lo - 1];
    if a < x.addr + x.size {
      OrderedDisjoint(view);
      AtAny(view, lo - 1, a);
      return Some(x);
    }
    return None;
  }

  lemma OrderedDisjoint(view: seq<FlatRange>)
    requires Ordered(view)
    ensures Disjoint(view)
  {
  }

  lemma LayersMember(raws: seq<RawRange>, a: nat, x: Layer)
    ensures x in Layers(raws, a) <==> exists i :: 0 <= i < |raws| && Covers(raws[i], a) && x == LayerOf(raws[i], a)
  {
    if raws != [] {
      LayersMember(raws[1..], a, x);
      assert forall i | 0 < i < |raws| :: raws[i] == raws[1..][i - 1];
    }
  }

  lemma NoLayers(raws: seq<RawRange>, a: nat)
    ensures Layers(raws, a) == [] <==> forall r | r in raws :: !Covers(r, a)
  {
    if raws != [] { NoLayers(raws[1..], a); }
  }

  /** The byte belongs to a layer no other layer there outranks. */
  ghost predicate OnTop(layers: seq<Layer>, hit: Hit) {
    exists x :: x in layers && hit == Hit(x.leaf, x.offset) && forall y | y in layers :: y.priority <= x.priority
  }

  /** A view maps an address exactly when the tree shows something there, and then to a layer of the highest priority. */
  lemma ViewShowsTree(root: Region, view: seq<FlatRange>, a: nat)
    requires BestWins(view, Collect(root, 0, 0))
    ensures At(view, a).None? <==> Shown(root, 0, 0, a) == []
    ensures At(view, a).Some? ==> OnTop(Shown(root, 0, 0, a), At(view, a).value)
  {
    hide Collect, Shown, Layers;
    var raws := Collect(root, 0, 0);
    CollectDenotes(root, 0, 0, a);
    NoLayers(raws, a);
    assert BestAt(view, raws, a);
    if At(view, a).Some? {
      var i: nat :| Winner(raws, RawLess, CoversAt(a), i) && At(view, a).value == Hit(raws[i].leaf, raws[i].offset + (a - raws[i].addr));
      var x := LayerOf(raws[i], a);
      LayersMember(raws, a, x);
      forall y | y in Layers(raws, a) ensures y.priority <= x.priority {
        LayersMember(raws, a, y);
        var j :| 0 <= j < |raws| && Covers(raws[j], a) && y == LayerOf(raws[j], a);
        assert CoversAt(a)(raws[j]) && !RawLess(raws[j], raws[i]);
      }
    }
  }
}
