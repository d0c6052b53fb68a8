/**
  * Backward liveness analysis: one reverse walk over the operations that flags, for each
  * argument, whether the temporary's value is dead after it and whether it must be synced.
  */
module Liveness {
  import IrModel

  /** What the analysis reads of an operation. Nop and InsnStart are silent: they carry no temporaries. */
  datatype LiveOp = LiveOp(outs: seq<nat>, ins: seq<nat>, bbEnd: bool, silent: bool)

  /** The flagged argument positions, outputs first. */
  datatype Life = Life(dead: set<nat>, sync: set<nat>)

  predicate WellFormed(op: LiveOp) { op.silent ==> op.outs == [] && op.ins == [] && !op.bbEnd }

  /** The globals are the temporaries below globals. */
  datatype Frame = Frame(temps: nat, globals: nat)

  // ---- What it means for a value to be needed ----

  /**
    * The value t has just before operation j is needed: some later operation reads it, or it
    * is a global that is still there when a basic block or the whole list ends.
    */
  ghost predicate NeededAt(ops: seq<LiveOp>, f: Frame, j: nat, t: nat, k: nat)
    requires j <= k <= |ops|
  {
    && (forall i | j <= i < k :: t !in ops[i].outs)
    && ((k < |ops| && t in ops[k].ins) || (t < f.globals && (k == |ops| || (j < k && ops[k - 1].bbEnd))))
  }

  ghost predicate Needed(ops: seq<LiveOp>, f: Frame, j: nat, t: nat)
    requires j <= |ops|
  {
    exists k :: j <= k <= |ops| && NeededAt(ops, f, j, t, k)
  }

  /** Needed just after operation j. */
  ghost predicate NeededAfter(ops: seq<LiveOp>, f: Frame, j: nat, t: nat)
    requires j < |ops|
  {
    (t < f.globals && ops[j].bbEnd) || Needed(ops, f, j + 1, t)
  }

  /** How need moves backward over one operation. */
  lemma NeededStep(ops: seq<LiveOp>, f: Frame, j: nat, t: nat)
    requires j < |ops|
    ensures Needed(ops, f, j, t) <==> t in ops[j].ins || (t !in ops[j].outs && NeededAfter(ops, f, j, t))
  {
    if t in ops[j].ins {
      assert NeededAt(ops, f, j, t, j);
    } else if t !in ops[j].outs && NeededAfter(ops, f, j, t) {
      if t < f.globals && ops[j].bbEnd {
        assert NeededAt(ops, f, j, t, j + 1);
      } else {
        var k :| j + 1 <= k <= |ops| && NeededAt(ops, f, j + 1, t, k);
        assert NeededAt(ops, f, j, t, k);
      }
    } else if Needed(ops, f, j, t) {
      var k :| j <= k <= |ops| && NeededAt(ops, f, j, t, k);
      if k == j + 1 && t < f.globals && ops[j].bbEnd {
      } else {
        assert k > j ==> NeededAt(ops, f, j + 1, t, k);
      }
    }
  }

  lemma NeededAtEnd(ops: seq<LiveOp>, f: Frame, t: nat)
    ensures Needed(ops, f, |ops|, t) <==> t < f.globals
  {
    if t < f.globals { assert NeededAt(ops, f, |ops|, t, |ops|); }
  }

  // ---- What the flags say ----

  ghost predicate DeadOutput(ops: seq<LiveOp>, f: Frame, j: nat, p: nat)
    requires j < |ops| && p < |ops[j].outs|
  {
    var t := ops[j].outs[p];
    t < f.temps && (t in ops[j].outs[..p] || !NeededAfter(ops, f, j, t))
  }

  /** Only the first of several equal inputs is flagged. */
  ghost predicate DeadInput(ops: seq<LiveOp>, f: Frame, j: nat, p: nat)
    requires j < |ops| && p < |ops[j].ins|
  {
    var t := ops[j].ins[p];
    t < f.temps && t !in ops[j].ins[..p] && (t in ops[j].outs || !NeededAfter(ops, f, j, t))
  }

  ghost predicate Correct(ops: seq<LiveOp>, f: Frame, kinds: seq<IrModel.Kind>, j: nat, life: Life)
    requires j < |ops| && |kinds| == f.temps
  {
    var op, n := ops[j], |ops[j].outs|;
    && (forall p | p in life.dead :: p < n + |op.ins|)
    && (forall p | 0 <= p < n :: p in life.dead <==> DeadOutput(ops, f, j, p))
    && (forall p | n <= p < n + |op.ins| :: p in life.dead <==> DeadInput(ops, f, j, p - n))
    && (forall p :: p in life.sync <==> n <= p < n + |op.ins| && p in life.dead && op.ins[p - n] < |kinds| && kinds[op.ins[p - n]] == IrModel.Global)
  }

  // ---- The pass ----

  ghost predicate Tracks(state: seq<bool>, ops: seq<LiveOp>, f: Frame, j: nat)
    requires j <= |ops|
  {
    |state| == f.temps && forall t | 0 <= t < f.temps :: state[t] <==> Needed(ops, f, j, t)
  }

  method MarkGlobals(state: array<bool>, globals: nat)
    requires globals <= state.Length
    modifies state
    ensures forall t | 0 <= t < state.Length :: state[t] == (t < globals || old(state[t]))
  {
    for i := 0 to globals
      invariant forall t | 0 <= t < state.Length :: state[t] == (t < i || old(state[t]))
    {
      state[i] := true;
    }
  }

  /** The outputs flagged and cleared, from the liveness before to the one after. */
  ghost predicate OutputsDone(outs: seq<nat>, before: seq<bool>, after: seq<bool>, dead: set<nat>) {
    && |after| == |before|
    && (forall p | p in dead :: p < |outs|)
    && (forall p | 0 <= p < |outs| :: p in dead <==> outs[p] < |before| && (outs[p] in outs[..p] || !before[outs[p]]))
    && (forall t | 0 <= t < |before| :: after[t] == (before[t] && t !in outs))
  }

  method VisitOutputs(state: array<bool>, outs: seq<nat>) returns (dead: set<nat>)
    modifies state
    ensures OutputsDone(outs, old(state[..]), state[..], dead)
  {
    dead := {};
    for i := 0 to |outs|
      invariant forall p | p in dead :: p < i
      invariant forall p | 0 <= p < i :: p in dead <==> outs[p] < state.Length && (outs[p] in outs[..p] || !old(state[outs[p]]))
      invariant forall t | 0 <= t < state.Length :: state[t] == (old(state[t]) && t !in outs[..i])
    {
      var t := outs[i];
      if t < state.Length && !state[t] { dead := dead + {i}; }
      if t < state.Length { state[t] := false; }
      assert outs[..i + 1] == outs[..i] + [t];
    }
    assert outs[..|outs|] == outs;
  }

  /** The input at i is the first of its temporary, which is not live after. */
  predicate LastUse(ins: seq<nat>, before: seq<bool>, i: nat)
    requires i < |ins|
  {
    ins[i] < |before| && ins[i] !in ins[..i] && !before[ins[i]]
  }

  /** The positions, counted from n, of the last uses, and of those of globals. */
  function LastUses(n: nat, ins: seq<nat>, before: seq<bool>): set<nat> {
    if ins == [] then {}
    else
      var i := |ins| - 1;
      LastUses(n, ins[..i], before) + if LastUse(ins, before, i) then {n + i} else {}
  }

  function GlobalUses(n: nat, ins: seq<nat>, kinds: seq<IrModel.Kind>, before: seq<bool>): set<nat>
    requires |kinds| == |before|
  {
    if ins == [] then {}
    else
      var i := |ins| - 1;
      GlobalUses(n, ins[..i], kinds, before) + if LastUse(ins, before, i) && kinds[ins[i]] == IrModel.Global then {n + i} else {}
  }

  lemma {:induction false} LastUsesAre(n: nat, ins: seq<nat>, kinds: seq<IrModel.Kind>, before: seq<bool>, p: nat)
    requires |kinds| == |before|
    ensures p in LastUses(n, ins, before) <==> n <= p < n + |ins| && LastUse(ins, before, p - n)
    ensures p in GlobalUses(n, ins, kinds, before) <==> n <= p < n + |ins| && LastUse(ins, before, p - n) && kinds[ins[p - n]] == IrModel.Global
  {
    if ins != [] {
      var i := |ins| - 1;
      LastUsesAre(n, ins[..i], kinds, before, p);
      if n <= p < n + i { assert ins[..i][..p - n] == ins[..p - n]; }
    }
  }

  lemma UsesAre(n: nat, ins: seq<nat>, kinds: seq<IrModel.Kind>, before: seq<bool>, p: nat)
    requires |kinds| == |before|
    ensures p in LastUses(n, ins, before) ==> n <= p < n + |ins| && ins[p - n] < |before|
    ensures p in GlobalUses(n, ins, kinds, before) <==> p in LastUses(n, ins, before) && kinds[ins[p - n]] == IrModel.Global
  {
    hide LastUses, GlobalUses;
    LastUsesAre(n, ins, kinds, before, p);
  }

  /** The last uses flagged, and every input live. */
  ghost predicate InputsDone(n: nat, ins: seq<nat>, kinds: seq<IrModel.Kind>, before: seq<bool>, after: seq<bool>, dead: set<nat>, sync: set<nat>)
    requires |kinds| == |before|
  {
    && |after| == |before| && dead == LastUses(n, ins, before) && sync == GlobalUses(n, ins, kinds, before)
    && (forall t | 0 <= t < |before| :: after[t] == (before[t] || t in ins))
  }

  method VisitInputs(state: array<bool>, n: nat, ins: seq<nat>, kinds: seq<IrModel.Kind>) returns (dead: set<nat>, sync: set<nat>)
    requires |kinds| == state.Length
    modifies state
    ensures InputsDone(n, ins, kinds, old(state[..]), state[..], dead, sync)
  {
    dead, sync := {}, {};
    ghost var before := state[..];
    for i := 0 to |ins|
      invariant dead == LastUses(n, ins[..i], before) && sync == GlobalUses(n, ins[..i], kinds, before)
      invariant forall t | 0 <= t < state.Length :: state[t] == (before[t] || t in ins[..i])
    {
      var t := ins[i];
      assert ins[..i + 1][..i] == ins[..i] && ins[..i + 1] == ins[..i] + [t];
      if t < state.Length {
        if !state[t] {
          dead := dead + {n + i};
          if kinds[t] == IrModel.Global { sync := sync + {n + i}; }
        }
        state[t] := true;
      }
    }
    assert ins[..|ins|] == ins;
  }

  ghost predicate TracksAfter(state: seq<bool>, ops: seq<LiveOp>, f: Frame, j: nat)
    requires j < |ops|
  {
    |state| == f.temps && forall t | 0 <= t < f.temps :: state[t] <==> NeededAfter(ops, f, j, t)
  }

  lemma BlockEndTracks(ops: seq<LiveOp>, f: Frame, j: nat, state: seq<bool>, after: seq<bool>)
    requires j < |ops| && Tracks(state, ops, f, j + 1) && |after| == |state|
    requires forall t | 0 <= t < f.temps :: after[t] == ((ops[j].bbEnd && t < f.globals) || state[t])
    ensures TracksAfter(after, ops, f, j)
  {
  }

  lemma InputsTrack(ops: seq<LiveOp>, f: Frame, kinds: seq<IrModel.Kind>, j: nat, after: seq<bool>, mid: seq<bool>, end: seq<bool>, dead: set<nat>, more: set<nat>, sync: set<nat>)
    requires j < |ops| && |kinds| == f.temps && TracksAfter(after, ops, f, j)
    requires OutputsDone(ops[j].outs, after, mid, dead) && InputsDone(|ops[j].outs|, ops[j].ins, kinds, mid, end, more, sync)
    ensures Tracks(end, ops, f, j)
  {
    hide Needed, NeededAfter;
    forall t | 0 <= t < f.temps ensures end[t] <==> Needed(ops, f, j, t) {
      NeededStep(ops, f, j, t);
    }
  }

  lemma OutputFlags(ops: seq<LiveOp>, f: Frame, j: nat, after: seq<bool>, mid: seq<bool>, dead: set<nat>, p: nat)
    requires j < |ops| && TracksAfter(after, ops, f, j) && OutputsDone(ops[j].outs, after, mid, dead) && p < |ops[j].outs|
    ensures p in dead <==> DeadOutput(ops, f, j, p)
  {
    hide NeededAfter;
  }

  lemma InputFlags(ops: seq<LiveOp>, f: Frame, kinds: seq<IrModel.Kind>, j: nat, after: seq<bool>, mid: seq<bool>, end: seq<bool>, dead: set<nat>, more: set<nat>, sync: set<nat>, p: nat)
    requires j < |ops| && |kinds| == f.temps && TracksAfter(after, ops, f, j)
    requires OutputsDone(ops[j].outs, after, mid, dead) && InputsDone(|ops[j].outs|, ops[j].ins, kinds, mid, end, more, sync) && |ops[j].outs| <= p < |ops[j].outs| + |ops[j].ins|
    ensures p in more <==> DeadInput(ops, f, j, p - |ops[j].outs|)
  {
    hide NeededAfter, LastUses, GlobalUses;
    LastUsesAre(|ops[j].outs|, ops[j].ins, kinds, mid, p);
  }

  lemma FlagsCorrect(ops: seq<LiveOp>, f: Frame, kinds: seq<IrModel.Kind>, j: nat, after: seq<bool>, mid: seq<bool>, end: seq<bool>, dead: set<nat>, more: set<nat>, sync: set<nat>)
    requires j < |ops| && |kinds| == f.temps && TracksAfter(after, ops, f, j)
    requires OutputsDone(ops[j].outs, after, mid, dead) && InputsDone(|ops[j].outs|, ops[j].ins, kinds, mid, end, more, sync)
    ensures Correct(ops, f, kinds, j, Life(dead + more, sync)) && Tracks(end, ops, f, j)
  {
    hide NeededAfter, Needed, DeadInput, DeadOutput, Tracks, LastUses, GlobalUses, LastUse;
    InputsTrack(ops, f, kinds, j, after, mid, end, dead, more, sync);
    var n, life := |ops[j].outs|, Life(dead + more, sync);
    forall p: nat
      ensures p in more ==> n <= p < n + |ops[j].ins| && ops[j].ins[p - n] < |kinds|
      ensures p in sync <==> p in more && kinds[ops[j].ins[p - n]] == IrModel.Global
    {
      UsesAre(n, ops[j].ins, kinds, mid, p);
    }
    forall p | 0 <= p < n ensures p in life.dead <==> DeadOutput(ops, f, j, p) {
      OutputFlags(ops, f, j, after, mid, dead, p);
    }
    forall p | n <= p < n + |ops[j].ins| ensures p in life.dead <==> DeadInput(ops, f, j, p - n) {
      InputFlags(ops, f, kinds, j, after, mid, end, dead, more, sync, p);
    }
  }

  /** One operation of the reverse walk. */
  method VisitOp(ops: seq<LiveOp>, f: Frame, kinds: seq<IrModel.Kind>, state: array<bool>, j: nat) returns (life: Life)
    requires j < |ops| && !ops[j].silent && |kinds| == f.temps == state.Length && f.globals <= f.temps
    requires Tracks(state[..], ops, f, j + 1)
    modifies state
    ensures Tracks(state[..], ops, f, j)
    ensures Correct(ops, f, kinds, j, life)
  {
    hide Needed, Correct, OutputsDone, InputsDone, TracksAfter;
    var op := ops[j];
    if op.bbEnd { MarkGlobals(state, f.globals); }
    ghost var after := state[..];
    BlockEndTracks(ops, f, j, old(state[..]), after);
    var dead := VisitOutputs(state, op.outs);
    ghost var mid := state[..];
    var more, sync := VisitInputs(state, |op.outs|, op.ins, kinds);
    life := Life(dead + more, sync);
    FlagsCorrect(ops, f, kinds, j, after, mid, state[..], dead, more, sync);
  }

  /** The analysis: every operation but the silent ones gets exactly the flags that need defines. */
  method Analyse(ops: seq<LiveOp>, f: Frame, kinds: seq<IrModel.Kind>, life: array<Life>)
    requires |kinds| == f.temps && f.globals <= f.temps && life.Length == |ops|
    requires forall j | 0 <= j < |ops| :: WellFormed(ops[j])
    modifies life
    ensures forall j | 0 <= j < |ops| :: if ops[j].silent then life[j] == old(life[j]) else Correct(ops, f, kinds, j, life[j])
  {
    hide Correct, Needed;
    var state := new bool[f.temps](_ => false);
    MarkGlobals(state, f.globals);
    forall t | 0 <= t < f.temps ensures state[t] <==> Needed(ops, f, |ops|, t) { NeededAtEnd(ops, f, t); }
    for j := |ops| downto 0
      modifies state, life
      invariant Tracks(state[..], ops, f, j)
      invariant forall i | 0 <= i < j :: life[i] == old(life[i])
      invariant forall i | j <= i < |ops| :: if ops[i].silent then life[i] == old(life[i]) else Correct(ops, f, kinds, i, life[i])
    {
      if ops[j].silent {
        assert WellFormed(ops[j]);
        forall t | 0 <= t < f.temps ensures Needed(ops, f, j, t) <==> Needed(ops, f, j + 1, t) { NeededStep(ops, f, j, t); }
      } else {
        life[j] := VisitOp(ops, f, kinds, state, j);
      }
    }
  }

  // ---- What the flags are good for ----

  /** What operations compute: their outputs and a new world, from their input values and the world. */
  type Semantics<!V, !W> = (nat, seq<V>, W) -> (seq<V>, W)

  datatype Seen<V> = Read(values: seq<V>) | BlockEnd(globals: seq<V>)

  function Value<V(0)>(s: seq<V>, t: nat, none: V): V { if t < |s| then s[t] else none }

  function Values<V(0)>(s: seq<V>, ts: seq<nat>, none: V): (r: seq<V>)
    ensures |r| == |ts|
  {
    seq(|ts|, i requires 0 <= i < |ts| => Value(s, ts[i], none))
  }

  /** The temporaries after their values are written in order. */
  function Store<V(0)>(s: seq<V>, ts: seq<nat>, vs: seq<V>, none: V): (r: seq<V>)
    ensures |r| == |s|
  {
    if ts == [] then s
    else
      var last := |ts| - 1;
      var r := Store(s, ts[..last], vs, none);
      if ts[last] < |s| then r[ts[last] := if last < |vs| then vs[last] else none] else r
  }

  /** What a linear run shows from operation j on: the values read and the globals wherever a block ends. */
  function Shows<V(0), W>(ops: seq<LiveOp>, f: Frame, sem: Semantics<V, W>, none: V, s: seq<V>, w: W, j: nat): seq<Seen<V>>
    requires j <= |ops| && f.globals <= |s|
    decreases |ops| - j, 0
  {
    if j == |ops| then [BlockEnd(s[..f.globals])]
    else
      var vs := Values(s, ops[j].ins, none);
      var (outs, next) := sem(j, vs, w);
      [Read(vs)] + ShowsAfter(ops, f, sem, none, Store(s, ops[j].outs, outs, none), next, j)
  }

  function ShowsAfter<V(0), W>(ops: seq<LiveOp>, f: Frame, sem: Semantics<V, W>, none: V, s: seq<V>, w: W, j: nat): seq<Seen<V>>
    requires j < |ops| && f.globals <= |s|
    decreases |ops| - j - 1, 1
  {
    (if ops[j].bbEnd then [BlockEnd(s[..f.globals])] else []) + Shows(ops, f, sem, none, s, w, j + 1)
  }

  ghost predicate Agree<V(!new)>(ops: seq<LiveOp>, f: Frame, s: seq<V>, r: seq<V>, j: nat)
    requires j <= |ops|
  {
    |s| == |r| == f.temps && forall t | 0 <= t < f.temps && Needed(ops, f, j, t) :: s[t] == r[t]
  }

  ghost predicate AgreeAfter<V(!new)>(ops: seq<LiveOp>, f: Frame, s: seq<V>, r: seq<V>, j: nat)
    requires j < |ops|
  {
    |s| == |r| == f.temps && forall t | 0 <= t < f.temps && NeededAfter(ops, f, j, t) :: s[t] == r[t]
  }

  lemma StoreAgrees<V(0, !new)>(s: seq<V>, r: seq<V>, ts: seq<nat>, vs: seq<V>, none: V, t: nat)
    requires |s| == |r| && t < |s|
    ensures t in ts ==> Store(s, ts, vs, none)[t] == Store(r, ts, vs, none)[t]
    ensures t !in ts ==> Store(s, ts, vs, none)[t] == s[t]
  {
    if ts != [] {
      var last := |ts| - 1;
      assert ts == ts[..last] + [ts[last]];
      StoreAgrees(s, r, ts[..last], vs, none, t);
    }
  }

  /** Only needed values show: runs from states that agree on them show the same. */
  lemma {:induction false} NeededDecides<V(0, !new), W>(ops: seq<LiveOp>, f: Frame, sem: Semantics<V, W>, none: V, s: seq<V>, r: seq<V>, w: W, j: nat)
    requires j <= |ops| && f.globals <= f.temps && Agree(ops, f, s, r, j)
    ensures Shows(ops, f, sem, none, s, w, j) == Shows(ops, f, sem, none, r, w, j)
    decreases |ops| - j, 0
  {
    hide Needed, NeededAfter, Store;
    if j == |ops| {
      forall t | 0 <= t < f.globals ensures s[t] == r[t] { NeededAtEnd(ops, f, t); }
      assert s[..f.globals] == r[..f.globals];
    } else {
      var op := ops[j];
      forall i | 0 <= i < |op.ins| ensures Value(s, op.ins[i], none) == Value(r, op.ins[i], none) {
        NeededStep(ops, f, j, op.ins[i]);
      }
      var vs := Values(s, op.ins, none);
      assert vs == Values(r, op.ins, none);
      var (outs, next) := sem(j, vs, w);
      var s1, r1 := Store(s, op.outs, outs, none), Store(r, op.outs, outs, none);
      forall t | 0 <= t < f.temps && NeededAfter(ops, f, j, t) ensures s1[t] == r1[t] {
        NeededStep(ops, f, j, t);
        StoreAgrees(s, r, op.outs, outs, none, t);
        StoreAgrees(r, s, op.outs, outs, none, t);
      }
      NeededDecidesAfter(ops, f, sem, none, s1, r1, next, j);
    }
  }

  lemma {:induction false} NeededDecidesAfter<V(0, !new), W>(ops: seq<LiveOp>, f: Frame, sem: Semantics<V, W>, none: V, s: seq<V>, r: seq<V>, w: W, j: nat)
    requires j < |ops| && f.globals <= f.temps && AgreeAfter(ops, f, s, r, j)
    ensures ShowsAfter(ops, f, sem, none, s, w, j) == ShowsAfter(ops, f, sem, none, r, w, j)
    decreases |ops| - j - 1, 1
  {
    hide Needed;
    if ops[j].bbEnd {
      assert forall t | 0 <= t < f.globals :: NeededAfter(ops, f, j, t);
      assert s[..f.globals] == r[..f.globals];
    }
    NeededDecides(ops, f, sem, none, s, r, w, j + 1);
  }

  lemma StoreElsewhere<V(0, !new)>(s: seq<V>, ts: seq<nat>, vs: seq<V>, none: V, p: nat, v: V, t: nat)
    requires p < |ts| && |vs| == |ts| && t < |s| && t != ts[p]
    ensures Store(s, ts, vs[p := v], none)[t] == Store(s, ts, vs, none)[t]
  {
    var last := |ts| - 1;
    if p < last {
      StorePrefix(s, ts[..last], vs[..last], vs, none);
      StorePrefix(s, ts[..last], vs[p := v][..last], vs[p := v], none);
      assert vs[p := v][..last] == vs[..last][p := v];
      StoreElsewhere(s, ts[..last], vs[..last], none, p, v, t);
    } else {
      StorePrefix(s, ts[..last], vs[..last], vs, none);
      StorePrefix(s, ts[..last], vs[p := v][..last], vs[p := v], none);
      assert vs[p := v][..last] == vs[..last];
    }
  }

  lemma StorePrefix<V(0, !new)>(s: seq<V>, ts: seq<nat>, vs: seq<V>, more: seq<V>, none: V)
    requires |vs| == |ts| && vs <= more
    ensures Store(s, ts, more, none) == Store(s, ts, vs, none)
  {
    if ts != [] {
      var last := |ts| - 1;
      StorePrefix(s, ts[..last], vs[..last], vs, none);
      StorePrefix(s, ts[..last], vs[..last], more, none);
    }
  }

  // ---- Needed values do show ----

  lemma ValuesDiffer<V(0, !new)>(s: seq<V>, r: seq<V>, ts: seq<nat>, none: V, t: nat)
    requires |s| == |r| && t < |s| && s[t] != r[t] && t in ts
    ensures Values(s, ts, none) != Values(r, ts, none)
  {
    var i :| 0 <= i < |ts| && ts[i] == t;
    assert Values(s, ts, none)[i] == s[t] && Values(r, ts, none)[i] == r[t];
  }

  lemma GlobalsDiffer<V(!new)>(s: seq<V>, r: seq<V>, g: nat, t: nat)
    requires t < g <= |s| == |r| && s[t] != r[t]
    ensures s[..g] != r[..g]
  {
    assert s[..g][t] == s[t] && r[..g][t] == r[t];
  }

  lemma FirstDiffers<T>(a: T, b: T, x: seq<T>, y: seq<T>)
    requires a != b || x != y
    ensures [a] + x != [b] + y
  {
    if a != b {
      assert ([a] + x)[0] == a && ([b] + y)[0] == b;
    } else {
      assert ([a] + x)[1..] == x && ([b] + y)[1..] == y;
    }
  }

  /** Every needed value shows: runs from states that differ in one show something different, whatever the operations do. */
  lemma {:induction false} NeededShows<V(0, !new), W>(ops: seq<LiveOp>, f: Frame, sem: Semantics<V, W>, none: V, s: seq<V>, r: seq<V>, w: W, j: nat, t: nat)
    requires j <= |ops| && f.globals <= f.temps == |s| == |r| && t < f.temps && Needed(ops, f, j, t) && s[t] != r[t]
    ensures Shows(ops, f, sem, none, s, w, j) != Shows(ops, f, sem, none, r, w, j)
    decreases |ops| - j, 0
  {
    hide Needed, NeededAfter, Store, Values, ShowsAfter;
    if j == |ops| {
      NeededAtEnd(ops, f, t);
      GlobalsDiffer(s, r, f.globals, t);
    } else {
      var op := ops[j];
      NeededStep(ops, f, j, t);
      var vs, us := Values(s, op.ins, none), Values(r, op.ins, none);
      if t in op.ins { ValuesDiffer(s, r, op.ins, none, t); }
      var (outs, next) := sem(j, vs, w);
      var (outs', next') := sem(j, us, w);
      var s1, r1 := Store(s, op.outs, outs, none), Store(r, op.outs, outs', none);
      if vs == us {
        StoreAgrees(s, r, op.outs, outs, none, t);
        StoreAgrees(r, s, op.outs, outs, none, t);
        NeededShowsAfter(ops, f, sem, none, s1, r1, next, j, t);
      }
      FirstDiffers(Read(vs), Read(us), ShowsAfter(ops, f, sem, none, s1, next, j), ShowsAfter(ops, f, sem, none, r1, next', j));
    }
  }

  lemma {:induction false} NeededShowsAfter<V(0, !new), W>(ops: seq<LiveOp>, f: Frame, sem: Semantics<V, W>, none: V, s: seq<V>, r: seq<V>, w: W, j: nat, t: nat)
    requires j < |ops| && f.globals <= f.temps == |s| == |r| && t < f.temps && NeededAfter(ops, f, j, t) && s[t] != r[t]
    ensures ShowsAfter(ops, f, sem, none, s, w, j) != ShowsAfter(ops, f, sem, none, r, w, j)
    decreases |ops| - j - 1, 1
  {
    hide Needed, Shows;
    if Needed(ops, f, j + 1, t) { NeededShows(ops, f, sem, none, s, r, w, j + 1, t); } else { GlobalsDiffer(s, r, f.globals, t); }
    if ops[j].bbEnd {
      FirstDiffers(BlockEnd(s[..f.globals]), BlockEnd(r[..f.globals]), Shows(ops, f, sem, none, s, w, j + 1), Shows(ops, f, sem, none, r, w, j + 1));
    } else {
      assert ShowsAfter(ops, f, sem, none, s, w, j) == Shows(ops, f, sem, none, s, w, j + 1);
      assert ShowsAfter(ops, f, sem, none, r, w, j) == Shows(ops, f, sem, none, r, w, j + 1);
    }
  }

  /** A value that is overwritten by a later output is lost, the others are kept. */
  lemma {:induction false} StoreAt<V(0, !new)>(s: seq<V>, ts: seq<nat>, vs: seq<V>, none: V, p: nat, v: V)
    requires p < |ts| == |vs| && ts[p] < |s|
    ensures Store(s, ts, vs[p := v], none)[ts[p]] == if ts[p] in ts[p + 1..] then Store(s, ts, vs, none)[ts[p]] else v
  {
    var last := |ts| - 1;
    StorePrefix(s, ts[..last], vs[..last], vs, none);
    StorePrefix(s, ts[..last], vs[p := v][..last], vs[p := v], none);
    if p < last {
      assert vs[p := v][..last] == vs[..last][p := v];
      StoreAt(s, ts[..last], vs[..last], none, p, v);
      assert ts[p + 1..] == ts[..last][p + 1..] + [ts[last]];
      assert vs[p := v][last] == vs[last];
    } else {
      assert ts[p + 1..] == [];
      assert vs[p := v][last] == v;
    }
  }

  /**
    * Replacing the value of an output flagged dead changes nothing that shows, exactly when no
    * earlier output of the operation is the same temporary, or a later one is, or the
    * temporary is not needed.
    */
  lemma DeadOutputUnused<V(0, !new), W>(ops: seq<LiveOp>, f: Frame, sem: Semantics<V, W>, none: V, s: seq<V>, w: W, j: nat, vs: seq<V>, p: nat, v: V)
    requires j < |ops| && f.globals <= f.temps == |s| && |vs| == |ops[j].outs| && p < |vs|
    requires DeadOutput(ops, f, j, p) && v != vs[p]
    ensures ShowsAfter(ops, f, sem, none, Store(s, ops[j].outs, vs, none), w, j) ==
            ShowsAfter(ops, f, sem, none, Store(s, ops[j].outs, vs[p := v], none), w, j)
            <==> var t := ops[j].outs[p]; t !in ops[j].outs[..p] || t in ops[j].outs[p + 1..] || !NeededAfter(ops, f, j, t)
  {
    hide NeededAfter, Store, ShowsAfter;
    OutputMatters(ops, f, sem, none, s, w, j, vs, p, v);
  }

  /** An output's value matters to what shows exactly when it is needed and not overwritten by a later output of the operation. */
  lemma OutputMatters<V(0, !new), W>(ops: seq<LiveOp>, f: Frame, sem: Semantics<V, W>, none: V, s: seq<V>, w: W, j: nat, vs: seq<V>, p: nat, v: V)
    requires j < |ops| && f.globals <= f.temps == |s| && |vs| == |ops[j].outs| && p < |vs| && v != vs[p]
    ensures ShowsAfter(ops, f, sem, none, Store(s, ops[j].outs, vs, none), w, j) !=
            ShowsAfter(ops, f, sem, none, Store(s, ops[j].outs, vs[p := v], none), w, j)
            <==> var t := ops[j].outs[p]; t < f.temps && t !in ops[j].outs[p + 1..] && NeededAfter(ops, f, j, t)
  {
    hide NeededAfter, Store, ShowsAfter;
    var outs := ops[j].outs;
    var d, a, b := outs[p], Store(s, outs, vs, none), Store(s, outs, vs[p := v], none);
    if d < f.temps {
      StoreAt(s, outs, vs, none, p, v);
      StoreAt(s, outs, vs, none, p, vs[p]);
      assert vs[p := vs[p]] == vs;
    }
    if d < f.temps && d !in outs[p + 1..] && NeededAfter(ops, f, j, d) {
      NeededShowsAfter(ops, f, sem, none, a, b, w, j, d);
    } else {
      forall t | 0 <= t < f.temps && NeededAfter(ops, f, j, t) ensures a[t] == b[t] {
        if t != d { StoreElsewhere(s, outs, vs, none, p, v, t); }
      }
      NeededDecidesAfter(ops, f, sem, none, a, b, w, j);
    }
  }

  /** Replacing an input's temporary once it is read changes nothing that shows exactly when the first such input is flagged dead. */
  lemma DeadInputUnused<V(0, !new), W>(ops: seq<LiveOp>, f: Frame, sem: Semantics<V, W>, none: V, s: seq<V>, w: W, j: nat, vs: seq<V>, p: nat, v: V)
    requires j < |ops| && f.globals <= f.temps == |s| && p < |ops[j].ins| && ops[j].ins[p] !in ops[j].ins[..p]
    requires ops[j].ins[p] < f.temps && v != s[ops[j].ins[p]]
    ensures ShowsAfter(ops, f, sem, none, Store(s, ops[j].outs, vs, none), w, j) ==
            ShowsAfter(ops, f, sem, none, Store(s[ops[j].ins[p] := v], ops[j].outs, vs, none), w, j)
            <==> DeadInput(ops, f, j, p)
  {
    hide NeededAfter, Store, ShowsAfter;
    var d, outs, r := ops[j].ins[p], ops[j].outs, s[ops[j].ins[p] := v];
    var a, b := Store(s, outs, vs, none), Store(r, outs, vs, none);
    if DeadInput(ops, f, j, p) {
      forall t | 0 <= t < f.temps && NeededAfter(ops, f, j, t) ensures a[t] == b[t] {
        StoreAgrees(s, r, outs, vs, none, t);
        StoreAgrees(r, s, outs, vs, none, t);
      }
      NeededDecidesAfter(ops, f, sem, none, a, b, w, j);
    } else {
      StoreAgrees(s, r, outs, vs, none, d);
      StoreAgrees(r, s, outs, vs, none, d);
      NeededShowsAfter(ops, f, sem, none, a, b, w, j, d);
    }
  }

  /** With a repeated output, whatever the inputs, the flag is on the later position, whose value is the one kept. */
  lemma RepeatedOutput(sem: Semantics<bool, bool>, w: bool, ins: seq<nat>)
    ensures var ops, f := [LiveOp([0, 0], ins, false, false)], Frame(1, 1);
      && DeadOutput(ops, f, 0, 1) && !DeadOutput(ops, f, 0, 0)
      && ShowsAfter(ops, f, sem, false, Store([false], [0, 0], [false, true], false), w, 0) !=
         ShowsAfter(ops, f, sem, false, Store([false], [0, 0], [false, false], false), w, 0)
  {
    hide Shows, Needed, Store;
    var ops, f := [LiveOp([0, 0], ins, false, false)], Frame(1, 1);
    assert [0, 0][..1] == [0];
    NeededAtEnd(ops, f, 0);
    assert NeededAfter(ops, f, 0, 0);
    assert [false, true][1 := false] == [false, false];
    OutputMatters(ops, f, sem, false, [false], w, 0, [false, true], 1, false);
  }
}
