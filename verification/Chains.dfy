/** Singly linked lists threaded through a vector: element i holds the index of the next one.
    Links only ever point to smaller indices, so every list ends. */
module Chains {
  import opened Options

  type Link = Option<nat>

  ghost predicate Descending(next: seq<Link>) {
    forall i | 0 <= i < |next| :: next[i].Some? ==> next[i].value < i
  }

  predicate InRange(n: nat, head: Link) { head.Some? ==> head.value < n }

  /** The indices a walk from head visits. */
  ghost function Members(next: seq<Link>, head: Link): (m: set<nat>)
    requires Descending(next) && InRange(|next|, head)
    ensures forall i | i in m :: head.Some? && i <= head.value
    decreases if head.Some? then head.value + 1 else 0
  {
    if head.None? then {} else {head.value} + Members(next, next[head.value])
  }

  /** A list is untouched by changes outside it. */
  lemma {:induction false} MembersFrame(next: seq<Link>, next': seq<Link>, head: Link)
    requires Descending(next) && Descending(next') && InRange(|next|, head) && |next| <= |next'|
    requires forall i | i in Members(next, head) :: next'[i] == next[i]
    ensures Members(next', head) == Members(next, head)
    decreases if head.Some? then head.value + 1 else 0
  {
    if head.Some? { MembersFrame(next, next', next[head.value]); }
  }

  /** Prepending i to the list at head. */
  lemma Prepend(next: seq<Link>, head: Link, i: nat)
    requires Descending(next) && InRange(i, head) && i < |next|
    ensures Descending(next[i := head])
    ensures Members(next[i := head], Some(i)) == Members(next, head) + {i}
  {
    MembersFrame(next, next[i := head], head);
  }

  /** Following the list to the element before i. */
  lemma {:induction false} Reach(next: seq<Link>, head: Link, p: nat)
    requires Descending(next) && InRange(|next|, head) && p in Members(next, head)
    ensures Members(next, next[p]) <= Members(next, head)
    ensures forall j | j in Members(next, head) && j < p :: j in Members(next, next[p])
    decreases if head.Some? then head.value + 1 else 0
  {
    if p != head.value { Reach(next, next[head.value], p); }
  }

  /** Taking i out from behind its predecessor p. */
  lemma {:induction false} Unlink(next: seq<Link>, head: Link, p: nat, i: nat)
    requires Descending(next) && InRange(|next|, head) && p in Members(next, head)
    requires p < |next| && next[p] == Some(i)
    ensures i < p && i in Members(next, head)
    ensures Descending(next[p := next[i]][i := None])
    ensures Members(next[p := next[i]][i := None], head) == Members(next, head) - {i}
    decreases if head.Some? then head.value + 1 else 0
  {
    var next' := next[p := next[i]][i := None];
    if p == head.value {
      MembersFrame(next, next', next[i]);
    } else {
      Unlink(next, next[head.value], p, i);
    }
  }

  /** Taking the first element out. */
  lemma UnlinkFirst(next: seq<Link>, i: nat)
    requires Descending(next) && i < |next|
    ensures Descending(next[i := None])
    ensures Members(next[i := None], next[i]) == Members(next, Some(i)) - {i}
  {
    MembersFrame(next, next[i := None], next[i]);
  }

  /** Growing the vector keeps every list. */
  lemma Grow(next: seq<Link>, head: Link)
    requires Descending(next) && InRange(|next|, head)
    ensures Descending(next + [None]) && Members(next + [None], head) == Members(next, head)
  {
    MembersFrame(next, next + [None], head);
  }
}
