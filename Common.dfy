/** Shared vocabulary: optional values and the order-preserving filter that
    every `Array.prototype.filter` and `Array.prototype.map` in the
    application reduces to. */
module Common {

  /** A value that may be absent (`null`/`undefined` in the application). */
  datatype Option<T> = None | Some(value: T) {
    /** The value, or the default `d` when it is absent. */
    function GetOr(default: T): T {
      match this
      case Some(v) => v
      case None => default
    }
  }

  /** The elements of `s` that satisfy `keep`, in order. */
  function Filter<T>(keep: T -> bool, s: seq<T>): (r: seq<T>)
    ensures |r| <= |s|
    ensures forall x :: x in r ==> x in s && keep(x)
  {
    if s == [] then []
    else if keep(s[0]) then [s[0]] + Filter(keep, s[1..])
    else Filter(keep, s[1..])
  }

  /** `a` can be obtained from `b` by deleting elements (order is kept). */
  predicate IsSubsequence<T(==)>(a: seq<T>, b: seq<T>)
    decreases |b|
  {
    a == [] || (b != [] && if a[0] == b[0] then IsSubsequence(a[1..], b[1..]) else IsSubsequence(a, b[1..]))
  }

  /** An element is kept exactly when it is in the input and passes. */
  lemma {:induction false} FilterMembership<T>(keep: T -> bool, s: seq<T>, x: T)
    ensures x in Filter(keep, s) <==> x in s && keep(x)
  {
    if s != [] {
      FilterMembership(keep, s[1..], x);
      assert s == [s[0]] + s[1..];
    }
  }

  /** The membership test of a filter, for every element at once. */
  lemma FilterMembershipAll<T>(keep: T -> bool, s: seq<T>)
    ensures forall x :: x in Filter(keep, s) <==> x in s && keep(x)
  {
    forall x ensures x in Filter(keep, s) <==> x in s && keep(x) {
      FilterMembership(keep, s, x);
    }
  }

  /** Filtering keeps every copy of a passing element and no copy of a
      failing one. */
  lemma {:induction false} FilterCount<T>(keep: T -> bool, s: seq<T>, x: T)
    ensures multiset(Filter(keep, s))[x] == if keep(x) then multiset(s)[x] else 0
  {
    if s != [] {
      FilterCount(keep, s[1..], x);
      assert s == [s[0]] + s[1..];
    }
  }

  /** Filtering never reorders: the result is a subsequence of the input. */
  lemma {:induction false} FilterIsSubsequence<T>(keep: T -> bool, s: seq<T>)
    ensures IsSubsequence(Filter(keep, s), s)
  {
    if s != [] {
      FilterIsSubsequence(keep, s[1..]);
      var r := Filter(keep, s);
      if !keep(s[0]) && r != [] {
        assert r[0] in r;
        assert keep(r[0]);
        assert r[0] != s[0];
      }
    }
  }

  /** Filtering distributes over concatenation. */
  lemma {:induction false} FilterAppend<T>(keep: T -> bool, a: seq<T>, b: seq<T>)
    ensures Filter(keep, a + b) == Filter(keep, a) + Filter(keep, b)
  {
    if a != [] {
      assert (a + b)[1..] == a[1..] + b;
      FilterAppend(keep, a[1..], b);
    } else {
      assert a + b == b;
    }
  }

  /** A filter that every element passes returns its input unchanged. */
  lemma {:induction false} FilterKeepsAll<T>(keep: T -> bool, s: seq<T>)
    requires forall i :: 0 <= i < |s| ==> keep(s[i])
    ensures Filter(keep, s) == s
  {
    if s != [] {
      FilterKeepsAll(keep, s[1..]);
      assert [s[0]] + s[1..] == s;
    }
  }

  /** A filter that no element passes returns the empty sequence. */
  lemma {:induction false} FilterDropsAll<T>(keep: T -> bool, s: seq<T>)
    requires forall i :: 0 <= i < |s| ==> !keep(s[i])
    ensures Filter(keep, s) == []
  {
    if s != [] {
      FilterDropsAll(keep, s[1..]);
    }
  }

  /** The result is empty exactly when no element passes. */
  lemma FilterEmpty<T>(keep: T -> bool, s: seq<T>)
    ensures Filter(keep, s) == [] <==> forall i :: 0 <= i < |s| ==> !keep(s[i])
  {
    if Filter(keep, s) == [] {
      forall i | 0 <= i < |s| ensures !keep(s[i]) {
        FilterMembership(keep, s, s[i]);
      }
    } else {
      var x := Filter(keep, s)[0];
      FilterMembership(keep, s, x);
    }
    if forall i :: 0 <= i < |s| ==> !keep(s[i]) {
      FilterDropsAll(keep, s);
    }
  }

  /** Element `i` is the first element of `s` that satisfies `p`. */
  predicate IsFirst<T>(p: T -> bool, s: seq<T>, i: int) {
    0 <= i < |s| && p(s[i]) && forall j :: 0 <= j < i ==> !p(s[j])
  }

  /** The first element that satisfies `p`, as `Array.prototype.find`
      returns it; absent when no element does. */
  function Find<T>(p: T -> bool, s: seq<T>): (found: Option<T>)
    ensures found.None? <==> forall i :: 0 <= i < |s| ==> !p(s[i])
    ensures found.Some? ==> exists i :: IsFirst(p, s, i) && s[i] == found.value
  {
    if s == [] then None
    else if p(s[0]) then
      assert IsFirst(p, s, 0);
      Some(s[0])
    else
      var rest := Find(p, s[1..]);
      if rest.Some? then
        ghost var i :| IsFirst(p, s[1..], i) && s[1..][i] == rest.value;
        assert IsFirst(p, s, i + 1);
        rest
      else rest
  }
}
