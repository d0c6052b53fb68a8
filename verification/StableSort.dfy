/** Stable sorting by a weak order, and what the first element with a property becomes. */
module StableSort {
  import opened Options

  /** A strict weak order, as a comparator gives it. */
  ghost predicate Order<T(!new)>(less: (T, T) -> bool) {
    && (forall a, b | less(a, b) :: !less(b, a))
    && (forall a, b, c | !less(a, b) && !less(b, c) :: !less(a, c))
  }

  ghost predicate Sorted<T>(s: seq<T>, less: (T, T) -> bool) {
    forall i, j | 0 <= i < j < |s| :: !less(s[j], s[i])
  }

  /** Puts x before the first element that is not less than it. */
  function Insert<T>(x: T, s: seq<T>, less: (T, T) -> bool): (r: seq<T>)
    ensures |r| == |s| + 1
  {
    if s == [] || !less(s[0], x) then [x] + s else [s[0]] + Insert(x, s[1..], less)
  }

  function Sort<T>(s: seq<T>, less: (T, T) -> bool): (r: seq<T>)
    ensures |r| == |s|
  {
    if s == [] then [] else Insert(s[0], Sort(s[1..], less), less)
  }

  lemma {:induction false} InsertElements<T>(x: T, s: seq<T>, less: (T, T) -> bool)
    ensures multiset(Insert(x, s, less)) == multiset(s) + multiset{x}
  {
    if s == [] || !less(s[0], x) {
      assert multiset([x] + s) == multiset{x} + multiset(s);
    } else {
      var r := Insert(x, s[1..], less);
      InsertElements(x, s[1..], less);
      assert s == [s[0]] + s[1..];
      assert multiset([s[0]] + r) == multiset{s[0]} + multiset(r);
    }
  }

  lemma SortElements<T>(s: seq<T>, less: (T, T) -> bool)
    ensures multiset(Sort(s, less)) == multiset(s)
  {
    if s != [] {
      SortElements(s[1..], less);
      InsertElements(s[0], Sort(s[1..], less), less);
      assert s == [s[0]] + s[1..];
    }
  }

  lemma SortMember<T>(s: seq<T>, less: (T, T) -> bool, x: T)
    ensures x in Sort(s, less) <==> x in s
  {
    SortElements(s, less);
    assert x in Sort(s, less) <==> x in multiset(Sort(s, less));
    assert x in s <==> x in multiset(s);
  }

  lemma InsertSorted<T(!new)>(x: T, s: seq<T>, less: (T, T) -> bool)
    requires Order(less) && Sorted(s, less)
    ensures Sorted(Insert(x, s, less), less)
  {
    var r := Insert(x, s, less);
    if s == [] {
    } else if !less(s[0], x) {
      forall j | 0 <= j < |s| ensures !less(s[j], x) {
        assert j > 0 ==> !less(s[j], s[0]);
      }
    } else {
      InsertSorted(x, s[1..], less);
      InsertElements(x, s[1..], less);
      forall j | 0 < j < |r| ensures !less(r[j], r[0]) {
        assert r[j] in multiset(r[1..]);
        assert r[j] == x || r[j] in s[1..];
      }
    }
  }

  lemma SortSorted<T(!new)>(s: seq<T>, less: (T, T) -> bool)
    requires Order(less)
    ensures Sorted(Sort(s, less), less)
  {
    if s != [] {
      SortSorted(s[1..], less);
      InsertSorted(s[0], Sort(s[1..], less), less);
    }
  }

  /** The first element with property p. */
  function Find<T>(s: seq<T>, p: T -> bool): (r: Option<T>)
    ensures r.Some? ==> p(r.value) && r.value in s
    ensures r.None? ==> forall x | x in s :: !p(x)
  {
    if s == [] then None else if p(s[0]) then Some(s[0]) else Find(s[1..], p)
  }

  lemma FindInsert<T(!new)>(x: T, s: seq<T>, less: (T, T) -> bool, p: T -> bool)
    requires Order(less) && Sorted(s, less)
    ensures Find(Insert(x, s, less), p) ==
      if p(x) && (Find(s, p).None? || !less(Find(s, p).value, x)) then Some(x) else Find(s, p)
  {
    if s != [] {
      if less(s[0], x) {
        FindInsert(x, s[1..], less, p);
      } else if Find(s, p).Some? {
        var y := Find(s, p).value;
        var j :| 0 <= j < |s| && s[j] == y;
        assert j > 0 ==> !less(s[j], s[0]);
      }
    }
  }

  /** Comes first in a stable sort: less than the others with p, or as small and earlier. */
  ghost predicate Winner<T>(s: seq<T>, less: (T, T) -> bool, p: T -> bool, i: nat) {
    && i < |s| && p(s[i])
    && (forall j | 0 <= j < |s| && p(s[j]) :: !less(s[j], s[i]))
    && (forall j | 0 <= j < i && p(s[j]) :: less(s[i], s[j]))
  }

  /** The first element with p of the sorted list is the winner of the unsorted one. */
  lemma {:induction false} FindSorted<T(!new)>(s: seq<T>, less: (T, T) -> bool, p: T -> bool) returns (i: nat)
    requires Order(less)
    ensures var r := Find(Sort(s, less), p);
      if r.Some? then Winner(s, less, p, i) && r.value == s[i] else forall x | x in s :: !p(x)
  {
    i := 0;
    if s != [] {
      var rest := s[1..];
      i := FindSorted(rest, less, p);
      SortSorted(rest, less);
      var t, x := Sort(rest, less), s[0];
      FindInsert(x, t, less, p);
      var best := Find(t, p);
      if p(x) && (best.None? || !less(best.value, x)) {
        forall j | 0 <= j < |s| && p(s[j]) ensures !less(s[j], x) {
          if j > 0 {
            assert s[j] == rest[j - 1] && s[j] in rest;
          }
        }
        i := 0;
      } else if best.Some? {
        forall j | 0 <= j < |s| && p(s[j]) ensures !less(s[j], s[i + 1]) {
          assert j > 0 ==> s[j] == rest[j - 1];
        }
        forall j | 0 <= j < i + 1 && p(s[j]) ensures less(s[i + 1], s[j]) {
          assert j > 0 ==> s[j] == rest[j - 1];
        }
        i := i + 1;
      } else {
        forall y | y in s ensures !p(y) {
          assert y != x ==> y in rest;
        }
      }
    }
  }
}
