/** JavaScript's `toSorted`: a stable sort by a comparison, and the order of strings. */
module Sorting {
  import opened Text

  /** Places `x` after everything that it does not come before. */
  function Place<T>(s: seq<T>, x: T, before: (T, T) -> bool): (r: seq<T>)
    ensures |r| == |s| + 1
  {
    if s == [] || !before(x, s[|s| - 1]) then s + [x]
    else Place(s[..|s| - 1], x, before) + [s[|s| - 1]]
  }

  function Sort<T>(s: seq<T>, before: (T, T) -> bool): seq<T> {
    if s == [] then [] else Place(Sort(s[..|s| - 1], before), s[|s| - 1], before)
  }

  lemma {:induction false} PlaceAdds<T>(s: seq<T>, x: T, before: (T, T) -> bool)
    ensures multiset(Place(s, x, before)) == multiset(s) + multiset{x}
  {
    if s != [] && before(x, s[|s| - 1]) {
      PlaceAdds(s[..|s| - 1], x, before);
      assert s == s[..|s| - 1] + [s[|s| - 1]];
    }
  }

  lemma {:induction false} SortIsPermutation<T>(s: seq<T>, before: (T, T) -> bool)
    ensures multiset(Sort(s, before)) == multiset(s) && |Sort(s, before)| == |s|
  {
    if s != [] {
      var rest, last := s[..|s| - 1], s[|s| - 1];
      SortIsPermutation(rest, before);
      PlaceAdds(Sort(rest, before), last, before);
      assert s == rest + [last];
    }
  }

  lemma SortHolds<T>(s: seq<T>, before: (T, T) -> bool)
    ensures forall x <- Sort(s, before) :: x in s
    ensures forall x <- s :: x in Sort(s, before)
  {
    SortIsPermutation(s, before);
    assert forall x <- s :: x in multiset(s);
    assert forall x <- Sort(s, before) :: x in multiset(Sort(s, before));
  }

  /** Nothing comes before what stands to its left. */
  ghost predicate Ordered<T(!new)>(s: seq<T>, before: (T, T) -> bool) {
    forall i, j :: 0 <= i < j < |s| ==> !before(s[j], s[i])
  }

  ghost predicate IsOrder<T(!new)>(before: (T, T) -> bool) {
    && (forall a, b :: before(a, b) ==> !before(b, a))
    && (forall a, b, c :: !before(b, a) && !before(c, b) ==> !before(c, a))
  }

  lemma PlaceHolds<T>(s: seq<T>, x: T, before: (T, T) -> bool)
    ensures forall y <- Place(s, x, before) :: y == x || y in s
  {
    PlaceAdds(s, x, before);
    assert forall y <- Place(s, x, before) :: y in multiset(Place(s, x, before));
  }

  lemma {:induction false} PlaceIsOrdered<T(!new)>(s: seq<T>, x: T, before: (T, T) -> bool)
    requires IsOrder(before) && Ordered(s, before)
    ensures Ordered(Place(s, x, before), before)
  {
    if s != [] {
      var n := |s| - 1;
      if before(x, s[n]) {
        PlaceIsOrdered(s[..n], x, before);
        PlaceHolds(s[..n], x, before);
        var rest := Place(s[..n], x, before);
        forall i | 0 <= i < |rest|
          ensures !before(s[n], rest[i])
        {
          assert rest[i] in rest;
        }
      } else {
        forall i | 0 <= i < |s|
          ensures !before(x, s[i])
        {
          assert i < n ==> !before(s[n], s[i]);
        }
      }
    }
  }

  lemma {:induction false} SortIsOrdered<T(!new)>(s: seq<T>, before: (T, T) -> bool)
    requires IsOrder(before)
    ensures Ordered(Sort(s, before), before)
  {
    if s != [] {
      SortIsOrdered(s[..|s| - 1], before);
      PlaceIsOrdered(Sort(s[..|s| - 1], before), s[|s| - 1], before);
    }
  }

  lemma {:induction false} DistinctCounts<T>(s: seq<T>)
    ensures Distinct(s) <==> forall x <- s :: multiset(s)[x] == 1
  {
    if s != [] {
      var rest := s[1..];
      DistinctCounts(rest);
      assert s == [s[0]] + rest;
      if Distinct(s) {
        assert s[0] !in rest;
        forall x | x in s
          ensures multiset(s)[x] == 1
        {
          assert x == s[0] || x in rest;
        }
      } else if Distinct(rest) {
        assert s[0] in rest;
        assert multiset(s)[s[0]] >= 2;
      } else {
        var x :| x in rest && multiset(rest)[x] != 1;
        assert x in s && multiset(s)[x] >= multiset(rest)[x] > 1;
      }
    }
  }

  lemma SortKeepsDistinct<T>(s: seq<T>, before: (T, T) -> bool)
    requires Distinct(s)
    ensures Distinct(Sort(s, before))
  {
    DistinctCounts(s);
    DistinctCounts(Sort(s, before));
    SortIsPermutation(s, before);
    SortHolds(s, before);
  }

  // ---- Strings ----

  /** Strings by character code, shorter first. */
  predicate Less(a: string, b: string) {
    if b == "" then false
    else if a == "" then true
    else a[0] < b[0] || (a[0] == b[0] && Less(a[1..], b[1..]))
  }

  /** `a` and `b` agree up to `k`, where `a` ends or has the smaller character. */
  ghost predicate Differs(a: string, b: string, k: nat) {
    k <= |a| && k < |b| && a[..k] == b[..k] && (k == |a| || a[k] < b[k])
  }

  /** The order of strings is that of their first difference. */
  lemma {:induction false} LessExactly(a: string, b: string)
    ensures Less(a, b) <==> exists k: nat :: Differs(a, b, k)
  {
    if a == "" || b == "" {
      assert b != "" ==> Differs(a, b, 0);
    } else if a[0] != b[0] {
      assert a[0] < b[0] ==> Differs(a, b, 0);
      forall k: nat | Differs(a, b, k)
        ensures a[0] < b[0]
      {
        assert k > 0 ==> a[..k][0] == b[..k][0];
      }
    } else {
      LessExactly(a[1..], b[1..]);
      forall k: nat | Differs(a[1..], b[1..], k)
        ensures Differs(a, b, k + 1)
      {
        assert a[..k + 1] == [a[0]] + a[1..][..k] && b[..k + 1] == [b[0]] + b[1..][..k];
      }
      forall k: nat | Differs(a, b, k)
        ensures k > 0 && Differs(a[1..], b[1..], k - 1)
      {
        assert a[1..][..k - 1] == a[..k][1..] && b[1..][..k - 1] == b[..k][1..];
      }
    }
  }

  lemma {:induction false} LessIsTotal(a: string, b: string)
    ensures Less(a, b) || a == b || Less(b, a)
  {
    if a != "" && b != "" && a[0] == b[0] {
      LessIsTotal(a[1..], b[1..]);
      assert a == [a[0]] + a[1..] && b == [b[0]] + b[1..];
    }
  }

  lemma {:induction false} LessIsTransitive(a: string, b: string, c: string)
    requires Less(a, b) && Less(b, c)
    ensures Less(a, c)
  {
    if a != "" && a[0] == b[0] && b[0] == c[0] { LessIsTransitive(a[1..], b[1..], c[1..]); }
  }

  lemma {:induction false} LessIsIrreflexive(a: string)
    ensures !Less(a, a)
  {
    if a != "" { LessIsIrreflexive(a[1..]); }
  }

  lemma LessIsOrder()
    ensures IsOrder(Less)
  {
    hide Less;
    forall a, b | Less(a, b)
      ensures !Less(b, a)
    {
      LessIsIrreflexive(a);
      if Less(b, a) { LessIsTransitive(a, b, a); }
    }
    forall a, b, c | !Less(b, a) && !Less(c, b)
      ensures !Less(c, a)
    {
      LessIsTotal(a, b);
      LessIsTotal(b, c);
      if Less(c, a) {
        if a == b || b == c {
        } else {
          LessIsTransitive(a, b, c);
          LessIsTransitive(a, c, a);
          LessIsIrreflexive(a);
        }
      }
    }
  }

  predicate Ascending(s: seq<string>) {
    forall i, j :: 0 <= i < j < |s| ==> Less(s[i], s[j])
  }

  /** Distinct strings come out strictly ascending. */
  lemma SortAscends(s: seq<string>)
    requires Distinct(s)
    ensures Ascending(Sort(s, Less))
  {
    LessIsOrder();
    SortIsOrdered(s, Less);
    SortKeepsDistinct(s, Less);
    var t := Sort(s, Less);
    forall i, j | 0 <= i < j < |t|
      ensures Less(t[i], t[j])
    {
      LessIsTotal(t[i], t[j]);
    }
  }
}
