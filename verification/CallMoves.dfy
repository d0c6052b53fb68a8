/** Loading call arguments into their fixed registers (step 3 of regalloc_call in
    accel/src/regalloc.rs): a parallel assignment done by sequential moves. */
module CallMoves {

  const NREGS: nat := 16
  /** R11, the scratch register that breaks cycles. */
  const SCRATCH: nat := 11
  const WORD: nat := 0x1_0000_0000

  datatype Ty = I32 | I64

  datatype Instr =
    | Mov(ty: Ty, dst: nat, src: nat)
    | MovI(ty: Ty, dst: nat, val: nat)
    | Ld(ty: Ty, dst: nat, base: nat, offset: int)

  type Regs = r: seq<nat> | |r| == NREGS witness seq(NREGS, _ => 0)
  type Memory = int -> nat

  /** A 32-bit move clears the upper half of its destination. */
  function Conv(ty: Ty, v: nat): nat { if ty == I64 then v else v % WORD }

  predicate WellFormed(i: Instr) {
    i.dst < NREGS && (i.Mov? ==> i.src < NREGS) && (i.Ld? ==> i.base < NREGS)
  }

  function Step(i: Instr, r: Regs, mem: Memory): Regs
    requires WellFormed(i)
  {
    match i
    case Mov(ty, dst, src) => if dst == src then r else r[dst := Conv(ty, r[src])]
    case MovI(ty, dst, val) => r[dst := Conv(ty, val)]
    case Ld(ty, dst, base, offset) => r[dst := Conv(ty, mem(r[base] + offset))]
  }

  function Exec(code: seq<Instr>, r: Regs, mem: Memory): Regs
    requires forall i | i in code :: WellFormed(i)
  {
    if code == [] then r
    else Step(code[|code| - 1], Exec(code[..|code| - 1], r, mem), mem)
  }

  lemma ExecSnoc(code: seq<Instr>, i: Instr, r: Regs, mem: Memory)
    requires WellFormed(i) && forall j | j in code :: WellFormed(j)
    ensures Exec(code + [i], r, mem) == Step(i, Exec(code, r, mem), mem)
  {
    assert (code + [i])[..|code|] == code;
  }

  // ----- register moves -----

  datatype Move = Move(src: nat, dst: nat, ty: Ty)

  /** Distinct targets, none of them the scratch register; no move to itself. */
  ghost predicate MovesOk(moves: seq<Move>) {
    && (forall i | 0 <= i < |moves| ::
          moves[i].src < NREGS && moves[i].dst < NREGS && moves[i].src != moves[i].dst && moves[i].dst != SCRATCH)
    && (forall i, j | 0 <= i < |moves| && 0 <= j < |moves| && moves[i].dst == moves[j].dst :: i == j)
  }

  /** x is the target of a move that is done. */
  ghost predicate Written(moves: seq<Move>, done: seq<bool>, x: nat)
    requires |done| == |moves|
  {
    exists i :: 0 <= i < |moves| && done[i] && moves[i].dst == x
  }

  /** The done moves have taken effect, and nothing else has happened (the scratch register
      aside, once it is in use). */
  ghost predicate Partial(moves: seq<Move>, done: seq<bool>, r: Regs, r': Regs, scratch: bool)
    requires MovesOk(moves) && |done| == |moves|
  {
    && (forall i | 0 <= i < |moves| && done[i] :: r'[moves[i].dst] == Conv(moves[i].ty, r[moves[i].src]))
    && (forall x | 0 <= x < NREGS && !Written(moves, done, x) && (scratch ==> x != SCRATCH) :: r'[x] == r[x])
  }

  /** All moves at once. */
  ghost predicate Parallel(moves: seq<Move>, r: Regs, r': Regs)
    requires MovesOk(moves)
  {
    && (forall i | 0 <= i < |moves| :: r'[moves[i].dst] == Conv(moves[i].ty, r[moves[i].src]))
    && (forall x | 0 <= x < NREGS && x != SCRATCH && (forall i | 0 <= i < |moves| :: moves[i].dst != x) :: r'[x] == r[x])
  }

  ghost predicate Implements(moves: seq<Move>, code: seq<Instr>)
    requires MovesOk(moves) && forall i | i in code :: WellFormed(i)
  {
    forall r: Regs, mem: Memory :: Parallel(moves, r, Exec(code, r, mem))
  }

  /** The indices in c form a cycle of at least three moves. */
  ghost predicate LongCycle(moves: seq<Move>, c: seq<nat>) {
    && |c| >= 3 && (forall n | 0 <= n < |c| :: c[n] < |moves|)
    && (forall n, m | 0 <= n < m < |c| :: c[n] != c[m])
    && (forall n | 0 <= n < |c| - 1 :: moves[c[n]].dst == moves[c[n + 1]].src)
    && moves[c[|c| - 1]].dst == moves[c[0]].src
  }

  // ----- what the topological loop leaves -----

  /** No undone move reads what a done move wrote. */
  ghost predicate SourcesKept(moves: seq<Move>, done: seq<bool>)
    requires |done| == |moves|
  {
    forall u, d | 0 <= u < |moves| && 0 <= d < |moves| && !done[u] && done[d] :: moves[u].src != moves[d].dst
  }

  /** Move u may not be emitted yet: its target is still to be read by another move. */
  predicate Blocked(moves: seq<Move>, done: seq<bool>, u: nat)
    requires |done| == |moves| && u < |moves|
  {
    exists j :: 0 <= j < |moves| && !done[j] && j != u && moves[j].src == moves[u].dst
  }

  /** No move of a long cycle is done. */
  ghost predicate CyclesUntouched(moves: seq<Move>, done: seq<bool>)
    requires |done| == |moves|
  {
    forall c, n | LongCycle(moves, c) && 0 <= n < |c| :: !done[c[n]]
  }

  ghost function Undone(done: seq<bool>): set<nat> { set i | 0 <= i < |done| && !done[i] }

  ghost function Sources(moves: seq<Move>, ids: set<nat>): set<nat>
    requires forall i | i in ids :: i < |moves|
  {
    set i | i in ids :: moves[i].src
  }

  ghost function Targets(moves: seq<Move>, ids: set<nat>): set<nat>
    requires forall i | i in ids :: i < |moves|
  {
    set i | i in ids :: moves[i].dst
  }

  lemma {:induction false} SourcesSize(moves: seq<Move>, ids: set<nat>)
    requires forall i | i in ids :: i < |moves|
    ensures |Sources(moves, ids)| <= |ids|
    ensures |Sources(moves, ids)| == |ids| ==> forall i, j | i in ids && j in ids && moves[i].src == moves[j].src :: i == j
    decreases ids
  {
    if ids != {} {
      var k :| k in ids;
      var rest := ids - {k};
      SourcesSize(moves, rest);
      assert Sources(moves, ids) == Sources(moves, rest) + {moves[k].src};
      if moves[k].src in Sources(moves, rest) { assert Sources(moves, ids) == Sources(moves, rest); }
    }
  }

  lemma {:induction false} TargetsSize(moves: seq<Move>, ids: set<nat>)
    requires MovesOk(moves) && forall i | i in ids :: i < |moves|
    ensures |Targets(moves, ids)| == |ids|
    decreases ids
  {
    if ids != {} {
      var k :| k in ids;
      var rest := ids - {k};
      TargetsSize(moves, rest);
      assert Targets(moves, ids) == Targets(moves, rest) + {moves[k].dst};
    }
  }

  /** Undone moves of which every one is blocked permute their registers: distinct sources, the
      same set as the targets, and so without the scratch register. */
  lemma LeftoverPermutes(moves: seq<Move>, done: seq<bool>)
    requires MovesOk(moves) && |done| == |moves|
    requires forall u | 0 <= u < |moves| && !done[u] :: Blocked(moves, done, u)
    ensures Sources(moves, Undone(done)) == Targets(moves, Undone(done))
    ensures forall i, j | 0 <= i < |moves| && 0 <= j < |moves| && !done[i] && !done[j] && moves[i].src == moves[j].src :: i == j
    ensures forall i | 0 <= i < |moves| && !done[i] :: moves[i].src != SCRATCH
  {
    hide Blocked;
    var left := Undone(done);
    var s, t := Sources(moves, left), Targets(moves, left);
    forall x | x in t ensures x in s {
      var u :| u in left && moves[u].dst == x;
      var j := Blocker(moves, done, u);
      assert j in left;
    }
    SourcesSize(moves, left);
    TargetsSize(moves, left);
    SubsetSame(t, s);
    forall i, j | 0 <= i < |moves| && 0 <= j < |moves| && !done[i] && !done[j] && moves[i].src == moves[j].src
      ensures i == j
    {
      assert i in left && j in left;
    }
    forall i | 0 <= i < |moves| && !done[i]
      ensures moves[i].src != SCRATCH
    {
      assert i in left && moves[i].src in t;
    }
  }

  lemma Blocker(moves: seq<Move>, done: seq<bool>, u: nat) returns (j: nat)
    requires |done| == |moves| && u < |moves| && Blocked(moves, done, u)
    ensures j < |moves| && !done[j] && j != u && moves[j].src == moves[u].dst
  {
    j :| 0 <= j < |moves| && !done[j] && j != u && moves[j].src == moves[u].dst;
  }

  lemma SubsetSame(a: set<nat>, b: set<nat>)
    requires a <= b && |b| <= |a|
    ensures a == b
  {
    assert |b - a| == |b| - |a|;
    assert b == a + (b - a);
  }

  // ----- the topological loop -----

  function MovOf(m: Move): Instr { Mov(m.ty, m.dst, m.src) }

  /** Emitting an unblocked move. */
  lemma EmitStep(moves: seq<Move>, done: seq<bool>, i: nat, r: Regs, r': Regs, mem: Memory)
    requires MovesOk(moves) && |done| == |moves| && i < |moves| && !done[i] && SourcesKept(moves, done)
    requires Partial(moves, done, r, r', false)
    ensures Partial(moves, done[i := true], r, Step(MovOf(moves[i]), r', mem), false)
  {
    assert !Written(moves, done, moves[i].src);
    forall x | 0 <= x < NREGS && !Written(moves, done[i := true], x)
      ensures Step(MovOf(moves[i]), r', mem)[x] == r[x]
    {
      assert done[i := true][i];
    }
  }

  method Topological(moves: seq<Move>) returns (code: seq<Instr>, done: seq<bool>)
    requires MovesOk(moves)
    ensures |done| == |moves| && (forall i | i in code :: WellFormed(i)) && SourcesKept(moves, done)
    ensures forall u | 0 <= u < |moves| && !done[u] :: Blocked(moves, done, u)
    ensures forall r: Regs, mem: Memory :: Partial(moves, done, r, Exec(code, r, mem), false)
    ensures CyclesUntouched(moves, done)
  {
    hide Blocked, CyclesUntouched;
    code := [];
    done := seq(|moves|, _ => false);
    NothingTouched(moves, done);
    var progress := true;
    while progress
      invariant |done| == |moves| && (forall i | i in code :: WellFormed(i)) && SourcesKept(moves, done)
      invariant !progress ==> forall u | 0 <= u < |moves| && !done[u] :: Blocked(moves, done, u)
      invariant forall r: Regs, mem: Memory :: Partial(moves, done, r, Exec(code, r, mem), false)
      invariant CyclesUntouched(moves, done)
      decreases |Undone(done)|, if progress then 1 else 0
    {
      progress := false;
      ghost var before := done;
      for mi := 0 to |moves|
        invariant |done| == |moves| && (forall i | i in code :: WellFormed(i)) && SourcesKept(moves, done)
        invariant if progress then Undone(done) < Undone(before) else done == before
        invariant !progress ==> forall u | 0 <= u < mi && !done[u] :: Blocked(moves, done, u)
        invariant CyclesUntouched(moves, done)
        invariant forall r: Regs, mem: Memory :: Partial(moves, done, r, Exec(code, r, mem), false)
      {
        if !done[mi] && !Blocked(moves, done, mi) {
          forall r: Regs, mem: Memory
            ensures Partial(moves, done[mi := true], r, Exec(code + [MovOf(moves[mi])], r, mem), false)
          {
            ExecSnoc(code, MovOf(moves[mi]), r, mem);
            EmitStep(moves, done, mi, r, Exec(code, r, mem), mem);
          }
          UnblockedKeeps(moves, done, mi);
          assert Undone(done[mi := true]) == Undone(done) - {mi};
          code := code + [MovOf(moves[mi])];
          done := done[mi := true];
          progress := true;
        }
      }
      if progress { SmallerSet(Undone(done), Undone(before)); }
    }
  }

  lemma UnblockedKeeps(moves: seq<Move>, done: seq<bool>, i: nat)
    requires |done| == |moves| && i < |moves| && !done[i] && SourcesKept(moves, done) && !Blocked(moves, done, i)
    requires CyclesUntouched(moves, done)
    ensures SourcesKept(moves, done[i := true]) && CyclesUntouched(moves, done[i := true])
  {
    forall c, n | LongCycle(moves, c) && 0 <= n < |c| ensures !done[i := true][c[n]] {
      var next := if n + 1 < |c| then c[n + 1] else c[0];
      assert !done[next] && moves[next].src == moves[c[n]].dst && next != c[n];
    }
  }

  lemma NothingTouched(moves: seq<Move>, done: seq<bool>)
    requires |done| == |moves| && forall i | 0 <= i < |done| :: !done[i]
    ensures CyclesUntouched(moves, done)
  {
  }

  lemma SmallerSet(a: set<nat>, b: set<nat>)
    requires a < b
    ensures |a| < |b|
  {
    assert |b - a| == |b| - |a|;
    assert b - a != {};
  }

  // ----- the cycle loop -----

  ghost predicate AllBlocked(moves: seq<Move>, done: seq<bool>)
    requires |done| == |moves|
  {
    forall u | 0 <= u < |moves| && !done[u] :: Blocked(moves, done, u)
  }

  /** w follows the moves from the target of m, each reading what the one before wrote. */
  ghost predicate Walk(moves: seq<Move>, m: nat, w: seq<nat>)
    requires m < |moves|
  {
    && (forall n | 0 <= n < |w| :: w[n] < |moves|)
    && (forall n, l | 0 <= n < l < |w| :: w[n] != w[l])
    && (|w| > 0 ==> moves[w[0]].src == moves[m].dst)
    && (forall n | 0 < n < |w| :: moves[w[n]].src == moves[w[n - 1]].dst)
  }

  /** What the n-th move of a walk carries along: the original target value of m. */
  function Carried(moves: seq<Move>, m: nat, w: seq<nat>, n: nat, r: Regs): nat
    requires m < |moves| && n < |w| && moves[m].dst < NREGS && forall l | 0 <= l < |w| :: w[l] < |moves|
  {
    Conv(moves[w[n]].ty, if n == 0 then r[moves[m].dst] else Carried(moves, m, w, n - 1, r))
  }

  /** Registers after the scratch copy and the moves of w, from r. */
  ghost predicate Walked(moves: seq<Move>, m: nat, w: seq<nat>, r: Regs, r': Regs)
    requires MovesOk(moves) && m < |moves| && Walk(moves, m, w)
  {
    && r'[SCRATCH] == Conv(moves[m].ty, r[moves[m].src])
    && (forall n | 0 <= n < |w| :: r'[moves[w[n]].dst] == Carried(moves, m, w, n, r))
    && (forall x | 0 <= x < NREGS && x != SCRATCH && (forall n | 0 <= n < |w| :: moves[w[n]].dst != x) :: r'[x] == r[x])
  }

  lemma {:induction false} CarriedPrefix(moves: seq<Move>, m: nat, w: seq<nat>, j: nat, n: nat, r: Regs)
    requires m < |moves| && n < |w| && j < |moves| && moves[m].dst < NREGS && forall l | 0 <= l < |w| :: w[l] < |moves|
    ensures Carried(moves, m, w + [j], n, r) == Carried(moves, m, w, n, r)
    decreases n
  {
    if n > 0 { CarriedPrefix(moves, m, w, j, n - 1, r); }
  }

  lemma WalkStep(moves: seq<Move>, m: nat, w: seq<nat>, j: nat, r: Regs, r': Regs, mem: Memory)
    requires MovesOk(moves) && m < |moves| && j < |moves| && Walk(moves, m, w) && Walk(moves, m, w + [j])
    requires Walked(moves, m, w, r, r')
    requires m in w ==> m == w[|w| - 1]
    requires m !in w
    ensures Walked(moves, m, w + [j], r, Step(MovOf(moves[j]), r', mem))
  {
    var w' := w + [j];
    var r'' := Step(MovOf(moves[j]), r', mem);
    assert w'[|w|] == j;
    forall n | 0 <= n < |w| ensures r''[moves[w'[n]].dst] == Carried(moves, m, w', n, r) {
      CarriedPrefix(moves, m, w, j, n, r);
      assert w'[n] == w[n] && w[n] != j;
    }
    if |w| > 0 {
      assert w'[|w| - 1] == w[|w| - 1];
      assert moves[w'[|w|]].src == moves[w'[|w| - 1]].dst;
      CarriedPrefix(moves, m, w, j, |w| - 1, r);
    } else {
      assert r'[moves[m].dst] == r[moves[m].dst];
    }
    forall x | 0 <= x < NREGS && x != SCRATCH && (forall n | 0 <= n < |w'| :: moves[w'[n]].dst != x) ensures r''[x] == r[x] {
      assert moves[w'[|w|]].dst != x;
      forall n | 0 <= n < |w| ensures moves[w[n]].dst != x { assert w'[n] == w[n]; }
    }
  }

  /** The first undone move reading register x, if any. */
  method FindReader(moves: seq<Move>, done: seq<bool>, x: nat) returns (j: int)
    requires |done| == |moves|
    ensures -1 <= j < |moves|
    ensures j >= 0 ==> !done[j] && moves[j].src == x
    ensures j < 0 ==> forall i | 0 <= i < |moves| && !done[i] :: moves[i].src != x
  {
    for i := 0 to |moves|
      invariant forall l | 0 <= l < i && !done[l] :: moves[l].src != x
    {
      if !done[i] && moves[i].src == x { return i; }
    }
    j := -1;
  }

  ghost predicate MarkedBy(done: seq<bool>, done': seq<bool>, w: seq<nat>) {
    |done'| == |done| && forall i | 0 <= i < |done| :: done'[i] <==> done[i] || i in w
  }

  /** A walk over undone moves, all of which are blocked, can only stop at its start. */
  lemma WalkCloses(moves: seq<Move>, done: seq<bool>, m: nat, w: seq<nat>)
    requires MovesOk(moves) && |done| == |moves| && m < |moves| && !done[m] && AllBlocked(moves, done) && Walk(moves, m, w)
    requires forall n | 0 <= n < |w| :: !done[w[n]]
    requires forall i | 0 <= i < |moves| && !done[i] && i !in w :: moves[i].src != (if w == [] then moves[m].dst else moves[w[|w| - 1]].dst)
    ensures w != [] && w[|w| - 1] == m
  {
    hide Blocked;
    LeftoverPermutes(moves, done);
    var last := if w == [] then m else w[|w| - 1];
    assert Blocked(moves, done, last);
    var v := Blocker(moves, done, last);
    assert v in w;
    var n :| 0 <= n < |w| && w[n] == v;
    LinkAt(moves, m, w, n);
  }

  lemma LinkAt(moves: seq<Move>, m: nat, w: seq<nat>, n: nat)
    requires m < |moves| && Walk(moves, m, w) && n < |w|
    ensures n > 0 ==> moves[w[n]].src == moves[w[n - 1]].dst && w[n - 1] != w[|w| - 1]
  {
  }

  /** Registers after the whole pass: m is done, the other moves of w carried a value along. */
  ghost predicate AfterCycle(moves: seq<Move>, m: nat, w: seq<nat>, r: Regs, r': Regs)
    requires MovesOk(moves) && m < |moves| && Walk(moves, m, w)
  {
    && r'[moves[m].dst] == Conv(moves[m].ty, r[moves[m].src])
    && (forall n | 0 <= n < |w| - 1 :: r'[moves[w[n]].dst] == Carried(moves, m, w, n, r))
    && (forall x | 0 <= x < NREGS && x != SCRATCH && (forall n | 0 <= n < |w| :: moves[w[n]].dst != x) :: r'[x] == r[x])
  }

  lemma WalkedEnds(moves: seq<Move>, m: nat, w: seq<nat>, r: Regs, r': Regs, mem: Memory)
    requires MovesOk(moves) && m < |moves| && Walk(moves, m, w) && w != [] && w[|w| - 1] == m
    requires Walked(moves, m, w, r, r')
    ensures AfterCycle(moves, m, w, r, Step(Mov(moves[m].ty, moves[m].dst, SCRATCH), r', mem))
  {
    forall n | 0 <= n < |w| - 1 ensures moves[w[n]].dst != moves[m].dst { assert w[n] != w[|w| - 1]; }
    assert moves[w[|w| - 1]].dst == moves[m].dst;
  }

  lemma WalkStarts(moves: seq<Move>, m: nat, r: Regs, mem: Memory)
    requires MovesOk(moves) && m < |moves| && moves[m].src != SCRATCH
    ensures Walked(moves, m, [], r, Step(Mov(moves[m].ty, SCRATCH, moves[m].src), r, mem))
  {
  }

  lemma WalkGrows(moves: seq<Move>, m: nat, w: seq<nat>, j: nat)
    requires m < |moves| && j < |moves| && Walk(moves, m, w) && j !in w
    requires moves[j].src == if w == [] then moves[m].dst else moves[w[|w| - 1]].dst
    ensures Walk(moves, m, w + [j])
  {
  }

  /** How far a pass has come: w is walked and marked, cur is the register it reads next. */
  ghost predicate PassState(moves: seq<Move>, done0: seq<bool>, done: seq<bool>, m: nat, w: seq<nat>, cur: nat)
    requires |done0| == |moves| && m < |moves|
  {
    && Walk(moves, m, w) && MarkedBy(done0, done, w)
    && (forall n | 0 <= n < |w| :: !done0[w[n]])
    && cur == if w == [] then moves[m].dst else moves[w[|w| - 1]].dst
  }

  lemma PassStateStep(moves: seq<Move>, done0: seq<bool>, done: seq<bool>, m: nat, w: seq<nat>, cur: nat, j: nat)
    requires |done0| == |moves| && m < |moves| && PassState(moves, done0, done, m, w, cur)
    requires j < |moves| && !done[j] && moves[j].src == cur
    ensures PassState(moves, done0, done[j := true], m, w + [j], moves[j].dst)
    ensures Undone(done[j := true]) == Undone(done) - {j} && j in Undone(done)
  {
    WalkGrows(moves, m, w, j);
  }

  lemma PassStateNext(moves: seq<Move>, done0: seq<bool>, done: seq<bool>, m: nat, w: seq<nat>, cur: nat, j: int)
    requires MovesOk(moves) && |done0| == |moves| && m < |moves| && !done0[m] && AllBlocked(moves, done0) && PassState(moves, done0, done, m, w, cur)
    requires -1 <= j < |moves|
    requires j >= 0 ==> !done[j] && moves[j].src == cur
    requires j < 0 ==> forall i | 0 <= i < |moves| && !done[i] :: moves[i].src != cur
    ensures j >= 0 ==> m !in w
    ensures j < 0 ==> w != [] && w[|w| - 1] == m
  {
    hide AllBlocked;
    if j < 0 { WalkCloses(moves, done0, m, w); } else if w != [] { StartNotYet(moves, done0, m, w, j); }
  }

  /** One pass of the cycle loop, from the undone move m. */
  method BreakCycle(moves: seq<Move>, done0: seq<bool>, code0: seq<Instr>, m: nat) returns (code: seq<Instr>, done: seq<bool>, ghost w: seq<nat>)
    requires MovesOk(moves) && |done0| == |moves| && m < |moves| && !done0[m] && AllBlocked(moves, done0)
    requires forall i | i in code0 :: WellFormed(i)
    ensures forall i | i in code :: WellFormed(i)
    ensures Walk(moves, m, w) && w != [] && w[|w| - 1] == m && MarkedBy(done0, done, w)
    ensures forall n | 0 <= n < |w| :: !done0[w[n]]
    ensures forall r: Regs, mem: Memory :: AfterCycle(moves, m, w, Exec(code0, r, mem), Exec(code, r, mem))
  {
    hide AllBlocked, Walked, Exec, Step, AfterCycle, Walk;
    code, done, w := code0 + [Mov(moves[m].ty, SCRATCH, moves[m].src)], done0, [];
    assert moves[m].src != SCRATCH by { NotScratch(moves, done0, m); }
    EmptyWalk(moves, m);
    forall r: Regs, mem: Memory ensures Walked(moves, m, w, Exec(code0, r, mem), Exec(code, r, mem)) {
      ExecSnoc(code0, Mov(moves[m].ty, SCRATCH, moves[m].src), r, mem);
      WalkStarts(moves, m, Exec(code0, r, mem), mem);
    }
    var cur := moves[m].dst;
    var j := FindReader(moves, done, cur);
    PassStateNext(moves, done0, done, m, w, cur, j);
    while j >= 0
      invariant -1 <= j < |moves| && (forall i | i in code :: WellFormed(i))
      invariant |done| == |moves| && PassState(moves, done0, done, m, w, cur)
      invariant j >= 0 ==> !done[j] && moves[j].src == cur && m !in w
      invariant j < 0 ==> w != [] && w[|w| - 1] == m
      invariant forall r: Regs, mem: Memory :: Walked(moves, m, w, Exec(code0, r, mem), Exec(code, r, mem))
      decreases |Undone(done)|, j
    {
      PassStateStep(moves, done0, done, m, w, cur, j);
      forall r: Regs, mem: Memory ensures Walked(moves, m, w + [j], Exec(code0, r, mem), Exec(code + [MovOf(moves[j])], r, mem)) {
        ExecSnoc(code, MovOf(moves[j]), r, mem);
        WalkStep(moves, m, w, j, Exec(code0, r, mem), Exec(code, r, mem), mem);
      }
      code := code + [MovOf(moves[j])];
      done := done[j := true];
      w := w + [j];
      cur := moves[j].dst;
      j := FindReader(moves, done, cur);
      PassStateNext(moves, done0, done, m, w, cur, j);
    }
    forall r: Regs, mem: Memory
      ensures AfterCycle(moves, m, w, Exec(code0, r, mem), Exec(code + [Mov(moves[m].ty, moves[m].dst, SCRATCH)], r, mem))
    {
      ExecSnoc(code, Mov(moves[m].ty, moves[m].dst, SCRATCH), r, mem);
      WalkedEnds(moves, m, w, Exec(code0, r, mem), Exec(code, r, mem), mem);
    }
    code := code + [Mov(moves[m].ty, moves[m].dst, SCRATCH)];
  }

  lemma EmptyWalk(moves: seq<Move>, m: nat)
    requires m < |moves|
    ensures Walk(moves, m, [])
  {
  }

  lemma NotScratch(moves: seq<Move>, done: seq<bool>, m: nat)
    requires MovesOk(moves) && |done| == |moves| && m < |moves| && !done[m] && AllBlocked(moves, done)
    ensures moves[m].src != SCRATCH
  {
    hide Blocked;
    LeftoverPermutes(moves, done);
  }

  /** Each step of the walk goes on to a later step, or is the last one, which reads into j. */
  lemma NotYetAt(moves: seq<Move>, done0: seq<bool>, m: nat, w: seq<nat>, j: nat, n: nat)
    requires MovesOk(moves) && |done0| == |moves| && m < |moves| && AllBlocked(moves, done0) && Walk(moves, m, w) && n < |w|
    requires forall n | 0 <= n < |w| :: !done0[w[n]]
    requires j < |moves| && !done0[j] && j !in w && moves[j].src == moves[w[|w| - 1]].dst
    ensures w[n] != m
  {
    hide Blocked;
    LeftoverPermutes(moves, done0);
    NextOf(moves, m, w, n);
  }

  /** While something undone reads on, the walk has not taken m itself yet. */
  lemma StartNotYet(moves: seq<Move>, done0: seq<bool>, m: nat, w: seq<nat>, j: nat)
    requires MovesOk(moves) && |done0| == |moves| && m < |moves| && AllBlocked(moves, done0) && Walk(moves, m, w) && w != []
    requires forall n | 0 <= n < |w| :: !done0[w[n]]
    requires j < |moves| && !done0[j] && j !in w && moves[j].src == moves[w[|w| - 1]].dst
    ensures m !in w
  {
    hide Blocked;
    LeftoverPermutes(moves, done0);
    forall n: nat | n < |w| ensures w[n] != m { NotYetAt(moves, done0, m, w, j, n); }
  }

  /** After a pass the undone moves still form cycles and nothing they read was written. */
  lemma PassKeeps(moves: seq<Move>, done: seq<bool>, done': seq<bool>, m: nat, w: seq<nat>)
    requires MovesOk(moves) && |done| == |moves| && m < |moves| && AllBlocked(moves, done) && SourcesKept(moves, done)
    requires Walk(moves, m, w) && w != [] && w[|w| - 1] == m && MarkedBy(done, done', w)
    requires forall n | 0 <= n < |w| :: !done[w[n]]
    ensures AllBlocked(moves, done') && SourcesKept(moves, done')
  {
    hide Blocked;
    LeftoverPermutes(moves, done);
    forall u, d | 0 <= u < |moves| && 0 <= d < |moves| && !done'[u] && done'[d] ensures moves[u].src != moves[d].dst {
      if !done[d] {
        var n :| 0 <= n < |w| && w[n] == d;
        var next := if n + 1 < |w| then w[n + 1] else w[0];
        assert moves[next].src == moves[d].dst && next in w;
      }
    }
    forall u | 0 <= u < |moves| && !done'[u] ensures Blocked(moves, done', u) {
      var j := Blocker(moves, done, u);
      if j in w { var prev := PrevOf(moves, m, w, j); }
      StillBlocked(moves, done', u, j);
    }
  }

  lemma PrevOf(moves: seq<Move>, m: nat, w: seq<nat>, j: nat) returns (prev: nat)
    requires m < |moves| && Walk(moves, m, w) && w != [] && w[|w| - 1] == m && j in w
    ensures prev in w && prev < |moves| && moves[prev].dst == moves[j].src
  {
    var n :| 0 <= n < |w| && w[n] == j;
    prev := if n > 0 then w[n - 1] else m;
  }

  lemma NextOf(moves: seq<Move>, m: nat, w: seq<nat>, n: nat)
    requires m < |moves| && Walk(moves, m, w)
    ensures n + 1 < |w| ==> moves[w[n + 1]].src == moves[w[n]].dst && w[n + 1] != w[0]
  {
  }

  lemma StillBlocked(moves: seq<Move>, done: seq<bool>, u: nat, j: nat)
    requires |done| == |moves| && u < |moves| && j < |moves| && !done[j] && j != u && moves[j].src == moves[u].dst
    ensures Blocked(moves, done, u)
  {
  }

  /** What the undone moves read is as it was at the start. */
  ghost predicate Intact(moves: seq<Move>, done: seq<bool>, r: Regs, r': Regs)
    requires MovesOk(moves) && |done| == |moves|
  {
    forall u | 0 <= u < |moves| && !done[u] :: r'[moves[u].src] == r[moves[u].src]
  }

  lemma PassIntact(moves: seq<Move>, done: seq<bool>, done': seq<bool>, m: nat, w: seq<nat>, r: Regs, r0: Regs, r': Regs)
    requires MovesOk(moves) && |done| == |moves| && m < |moves| && AllBlocked(moves, done)
    requires Walk(moves, m, w) && MarkedBy(done, done', w) && SourcesKept(moves, done')
    requires Intact(moves, done, r, r0) && AfterCycle(moves, m, w, r0, r')
    ensures Intact(moves, done', r, r')
  {
    hide Blocked;
    LeftoverPermutes(moves, done);
    forall u | 0 <= u < |moves| && !done'[u] ensures r'[moves[u].src] == r[moves[u].src] {
      forall n | 0 <= n < |w| ensures moves[w[n]].dst != moves[u].src { assert done'[w[n]]; }
    }
  }

  /** A pass over a cycle of two moves does both of them. */
  lemma TwoCycleDone(moves: seq<Move>, done: seq<bool>, done': seq<bool>, m: nat, w: seq<nat>, r: Regs, r0: Regs, r': Regs)
    requires MovesOk(moves) && |done| == |moves| && m < |moves|
    requires Walk(moves, m, w) && |w| == 2 && w[1] == m && MarkedBy(done, done', w) && !done[w[0]] && !done[m]
    requires Partial(moves, done, r, r0, true) && Intact(moves, done, r, r0) && AfterCycle(moves, m, w, r0, r')
    ensures Partial(moves, done', r, r', true)
  {
    var j := w[0];
    assert r'[moves[j].dst] == Carried(moves, m, w, 0, r0);
    forall i | 0 <= i < |moves| && done'[i] ensures r'[moves[i].dst] == Conv(moves[i].ty, r[moves[i].src]) {
      if i != j && i != m { assert moves[w[0]].dst != moves[i].dst && moves[w[1]].dst != moves[i].dst; }
    }
    forall x | 0 <= x < NREGS && !Written(moves, done', x) && x != SCRATCH ensures r'[x] == r[x] {
      assert done'[j] && done'[m];
    }
  }

  /** Members of a cycle of two are on no longer cycle. */
  lemma TwoIsNotLong(moves: seq<Move>, done: seq<bool>, done': seq<bool>, m: nat, w: seq<nat>)
    requires MovesOk(moves) && |done| == |moves| && m < |moves| && AllBlocked(moves, done) && CyclesUntouched(moves, done)
    requires Walk(moves, m, w) && |w| == 2 && w[1] == m && MarkedBy(done, done', w) && !done[w[0]] && !done[m]
    ensures CyclesUntouched(moves, done')
  {
    hide Blocked;
    LeftoverPermutes(moves, done);
    forall c, n | LongCycle(moves, c) && 0 <= n < |c| ensures !done'[c[n]] {
      var next := if n + 1 < |c| then n + 1 else 0;
      var after := if next + 1 < |c| then next + 1 else 0;
      assert !done[c[n]] && !done[c[next]] && !done[c[after]];
      assert moves[c[n]].dst == moves[c[next]].src && moves[c[next]].dst == moves[c[after]].src;
      assert c[n] != c[after];
    }
  }

  function Identity(): Regs { seq(NREGS, i => i) }

  /** The n-th move of a walk from registers holding their own numbers carries the number of the
      target of m. */
  lemma {:induction false} CarriedNumber(moves: seq<Move>, m: nat, w: seq<nat>, n: nat, r: Regs)
    requires MovesOk(moves) && m < |moves| && Walk(moves, m, w) && n < |w| && r[moves[m].dst] == moves[m].dst
    ensures Carried(moves, m, w, n, r) == moves[m].dst
    decreases n
  {
    if n > 0 { CarriedNumber(moves, m, w, n - 1, r); }
  }

  /** A pass over a longer cycle leaves a wrong value in the source register of m. */
  lemma LongCycleWrong(moves: seq<Move>, m: nat, w: seq<nat>, r0: Regs, r': Regs)
    requires MovesOk(moves) && m < |moves| && Walk(moves, m, w) && |w| >= 3 && w[|w| - 1] == m
    requires r0[moves[m].dst] == moves[m].dst && AfterCycle(moves, m, w, r0, r')
    ensures r'[moves[w[|w| - 2]].dst] != Conv(moves[w[|w| - 2]].ty, moves[w[|w| - 2]].src)
  {
    var p := w[|w| - 2];
    CarriedNumber(moves, m, w, |w| - 2, r0);
    assert moves[w[|w| - 3 + 1]].src == moves[w[|w| - 3]].dst && w[|w| - 3] != m;
  }

  /** The walk of such a pass is a long cycle. */
  lemma WalkIsLong(moves: seq<Move>, m: nat, w: seq<nat>)
    requires m < |moves| && Walk(moves, m, w) && |w| >= 3 && w[|w| - 1] == m
    ensures LongCycle(moves, w)
  {
  }

  /** Started with every register holding its own number, the code leaves a wrong value in the
      target of move p. */
  ghost predicate WrongTarget(moves: seq<Move>, code: seq<Instr>, p: nat)
    requires MovesOk(moves) && forall i | i in code :: WellFormed(i)
  {
    p < |moves| && forall mem: Memory :: Exec(code, Identity(), mem)[moves[p].dst] != Conv(moves[p].ty, moves[p].src)
  }

  /** The wrong value is there to stay: its move is done. */
  ghost predicate Spoiled(moves: seq<Move>, done: seq<bool>, code: seq<Instr>, p: nat)
    requires |done| == |moves| && MovesOk(moves) && forall i | i in code :: WellFormed(i)
  {
    p < |moves| && done[p] && WrongTarget(moves, code, p)
  }

  lemma StaysSpoiled(moves: seq<Move>, done: seq<bool>, done': seq<bool>, code: seq<Instr>, code': seq<Instr>, m: nat, w: seq<nat>, p: nat)
    requires MovesOk(moves) && |done| == |moves| && m < |moves| && Walk(moves, m, w) && MarkedBy(done, done', w)
    requires (forall i | i in code :: WellFormed(i)) && (forall i | i in code' :: WellFormed(i))
    requires forall n | 0 <= n < |w| :: !done[w[n]]
    requires Spoiled(moves, done, code, p)
    requires forall r: Regs, mem: Memory :: AfterCycle(moves, m, w, Exec(code, r, mem), Exec(code', r, mem))
    ensures Spoiled(moves, done', code', p)
  {
    hide Exec;
    forall mem: Memory ensures Exec(code', Identity(), mem)[moves[p].dst] != Conv(moves[p].ty, moves[p].src) {
      assert AfterCycle(moves, m, w, Exec(code, Identity(), mem), Exec(code', Identity(), mem));
      forall n | 0 <= n < |w| ensures moves[w[n]].dst != moves[p].dst { assert w[n] != p; }
    }
  }

  lemma BecomesSpoiled(moves: seq<Move>, done: seq<bool>, done': seq<bool>, code: seq<Instr>, code': seq<Instr>, m: nat, w: seq<nat>)
    requires MovesOk(moves) && |done| == |moves| && m < |moves| && Walk(moves, m, w) && MarkedBy(done, done', w)
    requires (forall i | i in code :: WellFormed(i)) && (forall i | i in code' :: WellFormed(i))
    requires |w| >= 3 && w[|w| - 1] == m && !done[w[0]]
    requires forall r: Regs, mem: Memory :: Intact(moves, done, r, Exec(code, r, mem))
    requires forall r: Regs, mem: Memory :: AfterCycle(moves, m, w, Exec(code, r, mem), Exec(code', r, mem))
    ensures Spoiled(moves, done', code', w[|w| - 2])
  {
    hide Exec, AfterCycle, Walk;
    assert Walk(moves, m, w);
    WalkFacts(moves, m, w);
    forall mem: Memory ensures Exec(code', Identity(), mem)[moves[w[|w| - 2]].dst] != Conv(moves[w[|w| - 2]].ty, moves[w[|w| - 2]].src) {
      assert Intact(moves, done, Identity(), Exec(code, Identity(), mem));
      LongCycleWrong(moves, m, w, Exec(code, Identity(), mem), Exec(code', Identity(), mem));
    }
  }

  lemma WalkFacts(moves: seq<Move>, m: nat, w: seq<nat>)
    requires m < |moves| && Walk(moves, m, w) && w != []
    ensures (forall n | 0 <= n < |w| :: w[n] < |moves|) && moves[w[0]].src == moves[m].dst
  {
  }

  lemma StartPasses(moves: seq<Move>, done: seq<bool>, code: seq<Instr>)
    requires MovesOk(moves) && |done| == |moves| && (forall i | i in code :: WellFormed(i)) && SourcesKept(moves, done)
    requires forall u | 0 <= u < |moves| && !done[u] :: Blocked(moves, done, u)
    requires forall r: Regs, mem: Memory :: Partial(moves, done, r, Exec(code, r, mem), false)
    ensures AllBlocked(moves, done)
    ensures forall r: Regs, mem: Memory :: Intact(moves, done, r, Exec(code, r, mem)) && Partial(moves, done, r, Exec(code, r, mem), true)
  {
    hide Exec, Blocked;
    forall r: Regs, mem: Memory ensures Intact(moves, done, r, Exec(code, r, mem)) && Partial(moves, done, r, Exec(code, r, mem), true) {
      assert Partial(moves, done, r, Exec(code, r, mem), false);
      forall u | 0 <= u < |moves| && !done[u] ensures !Written(moves, done, moves[u].src) { }
    }
  }

  /** Every invariant of the cycle loop across one pass. */
  lemma Pass(moves: seq<Move>, done: seq<bool>, done': seq<bool>, code: seq<Instr>, code': seq<Instr>, m: nat, w: seq<nat>, ok: bool, p: nat)
      returns (ok': bool, p': nat)
    requires MovesOk(moves) && |done| == |moves| && m < |moves| && !done[m] && AllBlocked(moves, done) && SourcesKept(moves, done)
    requires (forall i | i in code :: WellFormed(i)) && (forall i | i in code' :: WellFormed(i))
    requires Walk(moves, m, w) && w != [] && w[|w| - 1] == m && MarkedBy(done, done', w)
    requires forall n | 0 <= n < |w| :: !done[w[n]]
    requires forall r: Regs, mem: Memory :: Intact(moves, done, r, Exec(code, r, mem))
    requires forall r: Regs, mem: Memory :: AfterCycle(moves, m, w, Exec(code, r, mem), Exec(code', r, mem))
    requires ok ==> CyclesUntouched(moves, done) && forall r: Regs, mem: Memory :: Partial(moves, done, r, Exec(code, r, mem), true)
    requires !ok ==> Spoiled(moves, done, code, p) && exists c :: LongCycle(moves, c)
    ensures AllBlocked(moves, done') && SourcesKept(moves, done')
    ensures forall r: Regs, mem: Memory :: Intact(moves, done', r, Exec(code', r, mem))
    ensures ok' ==> CyclesUntouched(moves, done') && forall r: Regs, mem: Memory :: Partial(moves, done', r, Exec(code', r, mem), true)
    ensures !ok' ==> Spoiled(moves, done', code', p') && exists c :: LongCycle(moves, c)
  {
    hide Exec, AllBlocked, SourcesKept, CyclesUntouched, AfterCycle, LongCycle, Spoiled, Partial, Intact;
    PassKeeps(moves, done, done', m, w);
    forall r: Regs, mem: Memory ensures Intact(moves, done', r, Exec(code', r, mem)) {
      PassIntact(moves, done, done', m, w, r, Exec(code, r, mem), Exec(code', r, mem));
    }
    ok', p' := ok, p;
    if !ok {
      StaysSpoiled(moves, done, done', code, code', m, w, p);
    } else if |w| >= 3 {
      WalkIsLong(moves, m, w);
      BecomesSpoiled(moves, done, done', code, code', m, w);
      ok', p' := false, w[|w| - 2];
    } else {
      TwoIsNotLong(moves, done, done', m, w);
      forall r: Regs, mem: Memory ensures Partial(moves, done', r, Exec(code', r, mem), true) {
        TwoCycleDone(moves, done, done', m, w, r, Exec(code, r, mem), Exec(code', r, mem));
      }
    }
  }

  lemma FirstUntouched(moves: seq<Move>, done: seq<bool>, c: seq<nat>)
    requires |done| == |moves| && CyclesUntouched(moves, done)
    ensures LongCycle(moves, c) ==> !done[c[0]]
  {
  }

  lemma Conclude(moves: seq<Move>, done: seq<bool>, code: seq<Instr>, ok: bool, p: nat)
    requires MovesOk(moves) && |done| == |moves| && (forall i | i in code :: WellFormed(i))
    requires forall l | 0 <= l < |moves| :: done[l]
    requires ok ==> CyclesUntouched(moves, done) && forall r: Regs, mem: Memory :: Partial(moves, done, r, Exec(code, r, mem), true)
    requires !ok ==> Spoiled(moves, done, code, p) && exists c :: LongCycle(moves, c)
    ensures Implements(moves, code) <==> !exists c :: LongCycle(moves, c)
    ensures (exists c :: LongCycle(moves, c)) ==> exists p :: WrongTarget(moves, code, p)
  {
    hide Exec;
    if ok {
      forall r: Regs, mem: Memory ensures Parallel(moves, r, Exec(code, r, mem)) {
        assert Partial(moves, done, r, Exec(code, r, mem), true);
      }
      forall c ensures !LongCycle(moves, c) { FirstUntouched(moves, done, c); }
    } else {
      var mem: Memory := _ => 0;
      assert Exec(code, Identity(), mem)[moves[p].dst] != Conv(moves[p].ty, moves[p].src);
      assert !Parallel(moves, Identity(), Exec(code, Identity(), mem));
      assert WrongTarget(moves, code, p);
    }
  }

  /** The emitted moves implement the parallel assignment exactly when no cycle of three or more
      moves occurs among them. */
  method ResolveMoves(moves: seq<Move>) returns (code: seq<Instr>)
    requires MovesOk(moves)
    ensures forall i | i in code :: WellFormed(i)
    ensures Implements(moves, code) <==> !exists c :: LongCycle(moves, c)
    ensures (exists c :: LongCycle(moves, c)) ==> exists p :: WrongTarget(moves, code, p)
  {
    hide Exec, AllBlocked, SourcesKept, CyclesUntouched, AfterCycle, LongCycle, Spoiled, Partial, Implements, Intact;
    var done;
    code, done := Topological(moves);
    ghost var ok, p := true, 0;
    StartPasses(moves, done, code);
    for mi := 0 to |moves|
      invariant |done| == |moves| && (forall i | i in code :: WellFormed(i))
      invariant AllBlocked(moves, done) && SourcesKept(moves, done)
      invariant forall l | 0 <= l < mi :: done[l]
      invariant forall r: Regs, mem: Memory :: Intact(moves, done, r, Exec(code, r, mem))
      invariant ok ==> CyclesUntouched(moves, done) && forall r: Regs, mem: Memory :: Partial(moves, done, r, Exec(code, r, mem), true)
      invariant !ok ==> Spoiled(moves, done, code, p) && exists c :: LongCycle(moves, c)
    {
      if !done[mi] {
        ghost var done0, code0 := done, code;
        ghost var w;
        code, done, w := BreakCycle(moves, done, code, mi);
        ok, p := Pass(moves, done0, done, code0, code, mi, w, ok, p);
      }
    }
    Conclude(moves, done, code, ok, p);
  }

  // ----- call arguments -----

  /** Where an input lives: in a register, a constant, in memory at base + offset, nowhere
      (a spilled temporary without a slot), or dead. */
  datatype Arg =
    | InReg(ty: Ty, reg: nat)
    | Const(ty: Ty, val: nat)
    | InMem(ty: Ty, base: nat, offset: int)
    | NoHome(ty: Ty)
    | Dead(ty: Ty)

  /** Targets are distinct argument registers; memory is addressed through reserved registers. */
  ghost predicate ArgsOk(args: seq<Arg>, targets: seq<nat>) {
    && |args| == |targets|
    && (forall i | 0 <= i < |targets| :: targets[i] < NREGS && targets[i] != SCRATCH)
    && (forall i, j | 0 <= i < j < |targets| :: targets[i] != targets[j])
    && (forall i | 0 <= i < |args| :: args[i].InReg? ==> args[i].reg < NREGS)
    && (forall i | 0 <= i < |args| :: args[i].InMem? ==> args[i].base < NREGS && args[i].base != SCRATCH && args[i].base !in targets)
  }

  /** The value the callee must find for an input, from the registers before. */
  ghost predicate Delivered(a: Arg, target: nat, r: Regs, mem: Memory, v: nat)
    requires target < NREGS && (a.InReg? ==> a.reg < NREGS) && (a.InMem? ==> a.base < NREGS)
  {
    match a
    case InReg(ty, reg) => v == if reg == target then r[reg] else Conv(ty, r[reg])
    case Const(ty, val) => v == Conv(ty, val)
    case InMem(ty, base, offset) => v == Conv(ty, mem(r[base] + offset))
    case NoHome(_) => true
    case Dead(_) => v == 0
  }

  ghost predicate Loaded(args: seq<Arg>, targets: seq<nat>, r: Regs, mem: Memory, r': Regs)
    requires ArgsOk(args, targets)
  {
    && (forall i | 0 <= i < |args| :: Delivered(args[i], targets[i], r, mem, r'[targets[i]]))
    && (forall x | 0 <= x < NREGS && x != SCRATCH && x !in targets :: r'[x] == r[x])
  }

  function MovesOf(args: seq<Arg>, targets: seq<nat>): seq<Move>
    requires |args| == |targets|
  {
    if args == [] then [] else
    var n := |args| - 1;
    MovesOf(args[..n], targets[..n]) +
    match args[n] case InReg(ty, reg) => if reg != targets[n] then [Move(reg, targets[n], ty)] else [] case _ => []
  }

  ghost predicate TargetsAmong(moves: seq<Move>, targets: seq<nat>) { forall k | 0 <= k < |moves| :: moves[k].dst in targets }

  lemma MovesSnoc(moves: seq<Move>, m: Move, targets: seq<nat>, n: nat)
    requires MovesOk(moves) && n < |targets| && TargetsAmong(moves, targets[..n]) && targets[n] !in targets[..n]
    requires m.src < NREGS && m.dst < NREGS && m.src != m.dst && m.dst != SCRATCH && m.dst == targets[n]
    ensures MovesOk(moves + [m])
  {
    var now := moves + [m];
    forall k | 0 <= k < |moves| ensures now[k].dst != m.dst { assert moves[k].dst in targets[..n]; }
  }

  /** Moves have distinct targets among those given. */
  lemma {:induction false} MovesDistinct(args: seq<Arg>, targets: seq<nat>)
    requires ArgsOk(args, targets)
    ensures MovesOk(MovesOf(args, targets)) && TargetsAmong(MovesOf(args, targets), targets)
    decreases |args|
  {
    hide MovesOk;
    if args == [] {
      assert MovesOk([]) by { NoMoves(); }
    } else {
      var n := |args| - 1;
      MovesDistinct(args[..n], targets[..n]);
      var ms := MovesOf(args[..n], targets[..n]);
      if args[n].InReg? && args[n].reg != targets[n] {
        MovesSnoc(ms, Move(args[n].reg, targets[n], args[n].ty), targets, n);
      } else {
        assert MovesOf(args, targets) == ms;
      }
      forall k | 0 <= k < |ms| ensures ms[k].dst in targets { assert ms[k].dst in targets[..n]; }
    }
  }

  lemma NoMoves()
    ensures MovesOk([])
  {
  }

  ghost predicate OriginOf(args: seq<Arg>, targets: seq<nat>, m: Move, i: nat) {
    i < |args| == |targets| && args[i] == InReg(m.ty, m.src) && targets[i] == m.dst && m.src != m.dst
  }

  ghost predicate HasOrigin(args: seq<Arg>, targets: seq<nat>, m: Move) { exists i: nat :: OriginOf(args, targets, m, i) }

  /** Every move comes from a register input that is not in place. */
  lemma {:induction false} OriginAt(args: seq<Arg>, targets: seq<nat>, k: nat) returns (i: nat)
    requires |args| == |targets| && k < |MovesOf(args, targets)|
    ensures OriginOf(args, targets, MovesOf(args, targets)[k], i)
    decreases |args|
  {
    var n := |args| - 1;
    if k < |MovesOf(args[..n], targets[..n])| {
      i := OriginAt(args[..n], targets[..n], k);
    } else {
      i := n;
    }
  }

  /** Every register input that is not in place is moved. */
  lemma {:induction false} MovedTo(args: seq<Arg>, targets: seq<nat>, i: nat)
    requires |args| == |targets| && i < |args| && args[i].InReg? && args[i].reg != targets[i]
    ensures Move(args[i].reg, targets[i], args[i].ty) in MovesOf(args, targets)
    decreases |args|
  {
    var n := |args| - 1;
    if i < n { MovedTo(args[..n], targets[..n], i); }
  }

  /** Moves are exactly the register inputs that are not in place, each with its own target. */
  lemma MoveOrigin(args: seq<Arg>, targets: seq<nat>)
    requires ArgsOk(args, targets)
    ensures MovesOk(MovesOf(args, targets))
    ensures forall k | 0 <= k < |MovesOf(args, targets)| :: HasOrigin(args, targets, MovesOf(args, targets)[k])
    ensures forall i | 0 <= i < |args| && args[i].InReg? && args[i].reg != targets[i] ::
      Move(args[i].reg, targets[i], args[i].ty) in MovesOf(args, targets)
  {
    MovesDistinct(args, targets);
    var ms := MovesOf(args, targets);
    forall k | 0 <= k < |ms| ensures HasOrigin(args, targets, ms[k]) {
      var i := OriginAt(args, targets, k);
    }
    forall i | 0 <= i < |args| && args[i].InReg? && args[i].reg != targets[i]
      ensures Move(args[i].reg, targets[i], args[i].ty) in ms
    {
      MovedTo(args, targets, i);
    }
  }

  /** The load of a non-register input. */
  function LoadOf(a: Arg, target: nat): seq<Instr>
    requires !a.InReg?
  {
    match a
    case Const(ty, val) => [MovI(ty, target, val)]
    case InMem(ty, base, offset) => [Ld(ty, target, base, offset)]
    case NoHome(_) => []
    case Dead(ty) => [MovI(ty, target, 0)]
  }

  /** State of the loads: the first n inputs are delivered, the later register inputs too, and
      everything that is no target is as it was. */
  ghost predicate LoadedUpTo(args: seq<Arg>, targets: seq<nat>, n: nat, r: Regs, mem: Memory, r': Regs)
    requires ArgsOk(args, targets) && n <= |args|
  {
    && (forall i | 0 <= i < |args| && (i < n || args[i].InReg?) :: Delivered(args[i], targets[i], r, mem, r'[targets[i]]))
    && (forall x | 0 <= x < NREGS && x != SCRATCH && x !in targets :: r'[x] == r[x])
  }

  lemma LoadStep(args: seq<Arg>, targets: seq<nat>, n: nat, r: Regs, mem: Memory, code: seq<Instr>, code': seq<Instr>)
    requires ArgsOk(args, targets) && n < |args| && !args[n].InReg? && code' == code + LoadOf(args[n], targets[n])
    requires (forall i | i in code :: WellFormed(i)) && (forall i | i in code' :: WellFormed(i))
    requires LoadedUpTo(args, targets, n, r, mem, Exec(code, r, mem))
    ensures LoadedUpTo(args, targets, n + 1, r, mem, Exec(code', r, mem))
  {
    hide Exec, LoadedUpTo;
    var r0 := Exec(code, r, mem);
    if args[n].NoHome? {
      assert code' == code;
      LoadOne(args, targets, n, r, mem, r0, r0[targets[n]]);
      assert r0[targets[n] := r0[targets[n]]] == r0;
    } else {
      ExecSnoc(code, LoadOf(args[n], targets[n])[0], r, mem);
      LoadOne(args, targets, n, r, mem, r0, Exec(code', r, mem)[targets[n]]);
    }
  }

  lemma LoadOne(args: seq<Arg>, targets: seq<nat>, n: nat, r: Regs, mem: Memory, r0: Regs, v: nat)
    requires ArgsOk(args, targets) && n < |args| && !args[n].InReg? && LoadedUpTo(args, targets, n, r, mem, r0)
    requires args[n].InMem? ==> v == Conv(args[n].ty, mem(r0[args[n].base] + args[n].offset))
    requires !args[n].InMem? ==> Delivered(args[n], targets[n], r, mem, v)
    ensures LoadedUpTo(args, targets, n + 1, r, mem, r0[targets[n] := v])
  {
  }

  /** A load leaves the targets of moves alone. */
  lemma LoadKeepsWrong(args: seq<Arg>, targets: seq<nat>, n: nat, code: seq<Instr>, code': seq<Instr>, moves: seq<Move>, p: nat)
    requires ArgsOk(args, targets) && n < |args| && !args[n].InReg? && code' == code + LoadOf(args[n], targets[n])
    requires (forall i | i in code :: WellFormed(i)) && (forall i | i in code' :: WellFormed(i))
    requires MovesOk(moves) && moves == MovesOf(args, targets) && WrongTarget(moves, code, p)
    ensures WrongTarget(moves, code', p)
  {
    hide Exec;
    MoveOrigin(args, targets);
    assert HasOrigin(args, targets, moves[p]);
      var i: nat :| OriginOf(args, targets, moves[p], i);
    assert targets[i] != targets[n];
    forall mem: Memory ensures Exec(code', Identity(), mem)[moves[p].dst] != Conv(moves[p].ty, moves[p].src) {
      if args[n].NoHome? { assert code' == code; } else { ExecSnoc(code, LoadOf(args[n], targets[n])[0], Identity(), mem); }
    }
  }

  lemma MovesLoad(args: seq<Arg>, targets: seq<nat>, code: seq<Instr>, r: Regs, mem: Memory)
    requires ArgsOk(args, targets) && MovesOk(MovesOf(args, targets)) && (forall i | i in code :: WellFormed(i))
    requires Implements(MovesOf(args, targets), code)
    ensures LoadedUpTo(args, targets, 0, r, mem, Exec(code, r, mem))
  {
    hide Exec;
    MoveOrigin(args, targets);
    var moves, r' := MovesOf(args, targets), Exec(code, r, mem);
    assert Parallel(moves, r, r');
    forall i | 0 <= i < |args| && args[i].InReg? ensures Delivered(args[i], targets[i], r, mem, r'[targets[i]]) {
      if args[i].reg != targets[i] {
        var k :| 0 <= k < |moves| && moves[k] == Move(args[i].reg, targets[i], args[i].ty);
      } else {
        InPlaceKept(args, targets, i);
      }
    }
    forall x | 0 <= x < NREGS && x != SCRATCH && x !in targets ensures r'[x] == r[x] {
      forall k | 0 <= k < |moves| ensures moves[k].dst != x { assert HasOrigin(args, targets, moves[k]); }
    }
  }

  /** No move writes a register whose input is already in place. */
  lemma InPlaceKept(args: seq<Arg>, targets: seq<nat>, i: nat)
    requires ArgsOk(args, targets) && i < |args| && args[i].InReg? && args[i].reg == targets[i]
    ensures forall k | 0 <= k < |MovesOf(args, targets)| :: MovesOf(args, targets)[k].dst != targets[i]
  {
    MoveOrigin(args, targets);
    var moves := MovesOf(args, targets);
    forall k | 0 <= k < |moves| ensures moves[k].dst != targets[i] {
      assert HasOrigin(args, targets, moves[k]);
      var j: nat :| OriginOf(args, targets, moves[k], j);
      assert i != j;
    }
  }

  /** Between two pending inputs there are only register inputs, which are delivered already. */
  lemma SkipRegs(args: seq<Arg>, targets: seq<nat>, code: seq<Instr>, pending: seq<nat>, n: nat, good: bool)
    requires ArgsOk(args, targets) && (forall i | i in code :: WellFormed(i)) && n <= |pending|
    requires forall l | 0 <= l < |pending| :: pending[l] < |args|
    requires forall l, k | 0 <= l < k < |pending| :: pending[l] < pending[k]
    requires forall j | 0 <= j < |args| && !args[j].InReg? :: j in pending
    requires good ==> forall r: Regs, mem: Memory ::
      LoadedUpTo(args, targets, if n == 0 then 0 else pending[n - 1] + 1, r, mem, Exec(code, r, mem))
    ensures good ==> forall r: Regs, mem: Memory :: LoadedUpTo(args, targets, NextPending(args, pending, n), r, mem, Exec(code, r, mem))
  {
    hide Exec;
    var from, upto := if n == 0 then 0 else pending[n - 1] + 1, NextPending(args, pending, n);
    assert forall j | from <= j < upto :: args[j].InReg?;
    forall r: Regs, mem: Memory | good ensures LoadedUpTo(args, targets, upto, r, mem, Exec(code, r, mem)) {
      assert LoadedUpTo(args, targets, from, r, mem, Exec(code, r, mem));
    }
  }

  lemma AllLoaded(args: seq<Arg>, targets: seq<nat>, code: seq<Instr>, moves: seq<Move>, good: bool, p: nat)
    requires ArgsOk(args, targets) && (forall i | i in code :: WellFormed(i)) && moves == MovesOf(args, targets) && MovesOk(moves)
    requires good <==> !exists c :: LongCycle(moves, c)
    requires good ==> forall r: Regs, mem: Memory :: LoadedUpTo(args, targets, |args|, r, mem, Exec(code, r, mem))
    requires !good ==> WrongTarget(moves, code, p)
    ensures (forall r: Regs, mem: Memory :: Loaded(args, targets, r, mem, Exec(code, r, mem)))
            <==> !exists c :: LongCycle(MovesOf(args, targets), c)
  {
    hide Exec, LongCycle;
    if good {
      forall r: Regs, mem: Memory ensures Loaded(args, targets, r, mem, Exec(code, r, mem)) {
        assert LoadedUpTo(args, targets, |args|, r, mem, Exec(code, r, mem));
      }
    } else {
      var mem: Memory := _ => 0;
      MoveOrigin(args, targets);
      assert HasOrigin(args, targets, moves[p]);
      var i: nat :| OriginOf(args, targets, moves[p], i);
      assert !Delivered(args[i], targets[i], Identity(), mem, Exec(code, Identity(), mem)[targets[i]]);
      assert !Loaded(args, targets, Identity(), mem, Exec(code, Identity(), mem));
    }
  }

  /** Splits the inputs into register moves and loads to do afterwards. */
  method CollectMoves(args: seq<Arg>, targets: seq<nat>) returns (moves: seq<Move>, pending: seq<nat>)
    requires |args| == |targets|
    ensures moves == MovesOf(args, targets)
    ensures forall n | 0 <= n < |pending| :: pending[n] < |args| && !args[pending[n]].InReg?
    ensures forall n, l | 0 <= n < l < |pending| :: pending[n] < pending[l]
    ensures forall j | 0 <= j < |args| && !args[j].InReg? :: j in pending
  {
    moves, pending := [], [];
    for i := 0 to |args|
      invariant moves == MovesOf(args[..i], targets[..i])
      invariant forall n | 0 <= n < |pending| :: pending[n] < i && !args[pending[n]].InReg?
      invariant forall n, l | 0 <= n < l < |pending| :: pending[n] < pending[l]
      invariant forall j | 0 <= j < i && !args[j].InReg? :: j in pending
    {
      assert args[..i + 1][..i] == args[..i] && targets[..i + 1][..i] == targets[..i];
      if args[i].InReg? {
        if args[i].reg != targets[i] { moves := moves + [Move(args[i].reg, targets[i], args[i].ty)]; }
      } else {
        pending := pending + [i];
      }
    }
    assert args[..|args|] == args && targets[..|targets|] == targets;
  }

  /** Every input reaches its register, whatever the registers and memory hold, exactly when the
      register inputs contain no cycle of three or more. */
  method LoadCallArgs(args: seq<Arg>, targets: seq<nat>) returns (code: seq<Instr>)
    requires ArgsOk(args, targets)
    ensures forall i | i in code :: WellFormed(i)
    ensures (forall r: Regs, mem: Memory :: Loaded(args, targets, r, mem, Exec(code, r, mem)))
            <==> !exists c :: LongCycle(MovesOf(args, targets), c)
  {
    hide Exec, LongCycle, Implements, WrongTarget, LoadedUpTo, Loaded, MovesOf, MovesOk;
    MovesDistinct(args, targets);
    var moves, pending := CollectMoves(args, targets);
    code := ResolveMoves(moves);
    ghost var good := !exists c :: LongCycle(moves, c);
    ghost var p: nat := 0;
    if !good { p :| WrongTarget(moves, code, p); }
    forall r: Regs, mem: Memory | good ensures LoadedUpTo(args, targets, 0, r, mem, Exec(code, r, mem)) {
      MovesLoad(args, targets, code, r, mem);
    }
    SkipRegs(args, targets, code, pending, 0, good);
    for n := 0 to |pending|
      invariant forall i | i in code :: WellFormed(i)
      invariant good ==> forall r: Regs, mem: Memory :: LoadedUpTo(args, targets, NextPending(args, pending, n), r, mem, Exec(code, r, mem))
      invariant !good ==> WrongTarget(moves, code, p)
    {
      var i := pending[n];
      ghost var code0 := code;
      code := code + LoadOf(args[i], targets[i]);
      if !good { LoadKeepsWrong(args, targets, i, code0, code, moves, p); }
      forall r: Regs, mem: Memory | good ensures LoadedUpTo(args, targets, i + 1, r, mem, Exec(code, r, mem)) {
        LoadStep(args, targets, i, r, mem, code0, code);
      }
      SkipRegs(args, targets, code, pending, n + 1, good);
    }
    AllLoaded(args, targets, code, moves, good, p);
  }

  /** Index of the n-th pending input, or past the end. */
  ghost function NextPending(args: seq<Arg>, pending: seq<nat>, n: nat): nat { if n < |pending| then pending[n] else |args| }

  /** Three inputs to rotate among RDI, RSI and RDX: no register file is needed to see that the
      emitted moves cannot be right. */
  lemma RotationExample()
    ensures LongCycle([Move(7, 6, I64), Move(6, 2, I64), Move(2, 7, I64)], [0, 1, 2])
  {
  }
}
