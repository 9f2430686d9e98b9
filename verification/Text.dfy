/** Shared vocabulary: optional and failing results, and the few string
    operations the JavaScript sources rely on. */
module Text {

  datatype Option<+T> = None | Some(value: T)

  datatype Result<+T, +E> = Ok(value: T) | Err(error: E) {
    predicate IsFailure() {
      Err?
    }

    function PropagateFailure<U>(): Result<U, E>
      requires Err?
    {
      Err(error)
    }

    function Extract(): T
      requires Ok?
    {
      value
    }
  }

  predicate IsDigit(c: char) {
    '0' <= c <= '9'
  }

  /** A numeral in base ten, as JavaScript writes it. */
  function Decimal(n: nat): (t: string)
    ensures t != "" && AllIn(t, IsDigit)
  {
    var last := ['0' + (n % 10) as char];
    if n < 10 then last else Decimal(n / 10) + last
  }

  /** What JavaScript's `Number` reads in a run of digits. */
  function Digits(t: string): nat
    requires AllIn(t, IsDigit)
  {
    if t == "" then 0 else 10 * Digits(t[..|t| - 1]) + (t[|t| - 1] as int - '0' as int)
  }

  lemma {:induction false} DigitsOfDecimal(n: nat)
    ensures Digits(Decimal(n)) == n
  {
    var t := Decimal(n);
    assert t[|t| - 1] == '0' + (n % 10) as char;
    if n < 10 {
      assert t[..|t| - 1] == "";
    } else {
      assert t[..|t| - 1] == Decimal(n / 10);
      DigitsOfDecimal(n / 10);
    }
  }

  lemma DecimalIsInjective(m: nat, n: nat)
    requires Decimal(m) == Decimal(n)
    ensures m == n
  {
    DigitsOfDecimal(m);
    DigitsOfDecimal(n);
  }

  predicate Distinct<T(==)>(s: seq<T>) {
    forall i, j :: 0 <= i < j < |s| ==> s[i] != s[j]
  }

  /** JavaScript's `s.filter(keep)`. */
  function Filter<T>(s: seq<T>, keep: T -> bool): seq<T> {
    if s == [] then [] else (if keep(s[0]) then [s[0]] else []) + Filter(s[1..], keep)
  }

  lemma {:induction false} FilterHolds<T>(s: seq<T>, keep: T -> bool)
    ensures forall x <- Filter(s, keep) :: x in s && keep(x)
    ensures forall x <- s :: keep(x) ==> x in Filter(s, keep)
  {
    if s != [] {
      FilterHolds(s[1..], keep);
      var rest := Filter(s[1..], keep);
      assert Filter(s, keep) == (if keep(s[0]) then [s[0]] else []) + rest;
      assert forall x <- s :: x == s[0] || x in s[1..];
    }
  }

  lemma {:induction false} FilterAppend<T>(a: seq<T>, b: seq<T>, keep: T -> bool)
    ensures Filter(a + b, keep) == Filter(a, keep) + Filter(b, keep)
  {
    if a == [] {
      assert a + b == b;
    } else {
      var head := if keep(a[0]) then [a[0]] else [];
      assert (a + b)[0] == a[0] && (a + b)[1..] == a[1..] + b;
      FilterAppend(a[1..], b, keep);
      assert Filter(a, keep) == head + Filter(a[1..], keep);
      assert Filter(a + b, keep) == head + Filter(a[1..] + b, keep);
      hide Filter;
      assert head + (Filter(a[1..], keep) + Filter(b, keep)) == head + Filter(a[1..], keep) + Filter(b, keep);
    }
  }

  lemma {:induction false} FilterAll<T>(s: seq<T>, keep: T -> bool)
    requires forall x <- s :: keep(x)
    ensures Filter(s, keep) == s
  {
    if s != [] { FilterAll(s[1..], keep); }
  }

  lemma FilterNone<T>(x: T, keep: T -> bool)
    requires !keep(x)
    ensures Filter([x], keep) == []
  {
  }

  lemma FilterAllButOne<T>(a: seq<T>, x: T, b: seq<T>, keep: T -> bool)
    requires (forall y <- a :: keep(y)) && !keep(x) && (forall y <- b :: keep(y))
    ensures Filter(a + [x] + b, keep) == a + b
  {
    FilterAll(a, keep);
    FilterAll(b, keep);
    FilterNone(x, keep);
    hide Filter;
    FilterAppend(a + [x], b, keep);
    FilterAppend(a, [x], keep);
    assert Filter(a + [x], keep) == a + [] == a;
  }

  /** What is kept is kept as often as it was there. */
  lemma {:induction false} FilterCounts<T>(s: seq<T>, keep: T -> bool, x: T)
    ensures multiset(Filter(s, keep))[x] == if keep(x) then multiset(s)[x] else 0
  {
    if s != [] {
      FilterCounts(s[1..], keep, x);
      assert s == [s[0]] + s[1..];
    }
  }

  /** What is kept is kept in order. */
  lemma {:induction false} FilterInOrder<T>(s: seq<T>, keep: T -> bool, i: nat, j: nat) returns (a: nat, b: nat)
    requires i < j < |Filter(s, keep)|
    ensures a < b < |s| && s[a] == Filter(s, keep)[i] && s[b] == Filter(s, keep)[j]
  {
    if !keep(s[0]) {
      a, b := FilterInOrder(s[1..], keep, i, j);
      a, b := a + 1, b + 1;
    } else if i > 0 {
      a, b := FilterInOrder(s[1..], keep, i - 1, j - 1);
      a, b := a + 1, b + 1;
    } else {
      a := 0;
      FilterHolds(s[1..], keep);
      assert Filter(s, keep)[j] in Filter(s[1..], keep);
      var k :| 0 <= k < |s[1..]| && s[1..][k] == Filter(s, keep)[j];
      b := k + 1;
    }
  }

  lemma {:induction false} FilterAgrees<T>(s: seq<T>, one: T -> bool, other: T -> bool)
    requires forall x <- s :: one(x) == other(x)
    ensures Filter(s, one) == Filter(s, other)
  {
    if s != [] { FilterAgrees(s[1..], one, other); }
  }

  /** Lists that agree position by position on what to keep are filtered alike. */
  lemma {:induction false} FilterLengths<A, B>(a: seq<A>, b: seq<B>, keepA: A -> bool, keepB: B -> bool)
    requires |a| == |b| && forall i :: 0 <= i < |a| ==> keepA(a[i]) == keepB(b[i])
    ensures |Filter(a, keepA)| == |Filter(b, keepB)|
  {
    if a != [] { FilterLengths(a[1..], b[1..], keepA, keepB); }
  }

  lemma {:induction false} FilterTogether<A, B>(a: seq<A>, b: seq<B>, keepA: A -> bool, keepB: B -> bool, k: nat)
      returns (i: nat)
    requires |a| == |b| && forall i :: 0 <= i < |a| ==> keepA(a[i]) == keepB(b[i])
    requires k < |Filter(a, keepA)| && k < |Filter(b, keepB)|
    ensures i < |a| && a[i] == Filter(a, keepA)[k] && b[i] == Filter(b, keepB)[k]
  {
    assert a != [] && keepA(a[0]) == keepB(b[0]);
    if keepA(a[0]) && k == 0 {
      i := 0;
    } else {
      var m := if keepA(a[0]) then k - 1 else k;
      FilterTail(a, keepA, k, m);
      FilterTail(b, keepB, k, m);
      hide Filter;
      i := FilterTogether(a[1..], b[1..], keepA, keepB, m);
      assert a[1..][i] == a[i + 1] && b[1..][i] == b[i + 1];
      i := i + 1;
    }
  }

  lemma FilterTail<T>(s: seq<T>, keep: T -> bool, k: nat, m: nat)
    requires s != [] && k < |Filter(s, keep)| && k == if keep(s[0]) then m + 1 else m
    ensures m < |Filter(s[1..], keep)| && Filter(s[1..], keep)[m] == Filter(s, keep)[k]
  {
  }

  /** JavaScript's `s.findIndex(test)`, with the length where that gives -1. */
  function FindIndex<T>(s: seq<T>, test: T -> bool): (i: nat)
    ensures i <= |s| && (i < |s| ==> test(s[i]))
    ensures forall j :: 0 <= j < i ==> !test(s[j])
  {
    if s == [] || test(s[0]) then 0 else 1 + FindIndex(s[1..], test)
  }

  /** The text `p` stands in `s` at offset `i`. */
  predicate OccursAt(s: string, p: string, i: nat) {
    i + |p| <= |s| && forall k :: 0 <= k < |p| ==> s[i + k] == p[k]
  }

  /** JavaScript's `s.includes(p)`. */
  predicate Includes(s: string, p: string) {
    exists i: nat :: i <= |s| && OccursAt(s, p, i)
  }

  /** End of the longest run of characters of one class that starts at `i`:
      what a greedy `[class]*` consumes. */
  function RunEnd(s: string, i: nat, cls: char -> bool): (end: nat)
    requires i <= |s|
    ensures i <= end <= |s|
    decreases |s| - i
  {
    if i < |s| && cls(s[i]) then RunEnd(s, i + 1, cls) else i
  }

  predicate AllIn(s: string, cls: char -> bool) {
    forall k :: 0 <= k < |s| ==> cls(s[k])
  }

  lemma OccursSlice(s: string, p: string, i: nat)
    requires i + |p| <= |s|
    ensures OccursAt(s, p, i) <==> s[i..i + |p|] == p
  {
    if s[i..i + |p|] == p {
      forall k | 0 <= k < |p| ensures s[i + k] == p[k] {
        assert s[i..i + |p|][k] == s[i + k];
      }
    }
  }

  lemma SliceOccurs(s: string, lo: nat, hi: nat)
    requires lo <= hi <= |s|
    ensures OccursAt(s, s[lo..hi], lo)
  {
  }

  lemma OccursConcat(s: string, a: string, b: string, i: nat)
    ensures OccursAt(s, a + b, i) <==> OccursAt(s, a, i) && OccursAt(s, b, i + |a|)
  {
    if OccursAt(s, a + b, i) {
      forall k | 0 <= k < |a| ensures s[i + k] == a[k] {
        assert (a + b)[k] == a[k];
      }
      forall k | 0 <= k < |b| ensures s[i + |a| + k] == b[k] {
        assert (a + b)[|a| + k] == b[k];
      }
    }
  }

  lemma OccursInSlice(s: string, lo: nat, hi: nat, p: string, i: nat)
    requires lo <= hi <= |s| && i + |p| <= hi - lo
    ensures OccursAt(s[lo..hi], p, i) <==> OccursAt(s, p, lo + i)
  {
    forall k | 0 <= k < |p|
      ensures s[lo..hi][i + k] == p[k] <==> s[lo + i + k] == p[k]
    {
    }
  }

  lemma {:induction false} RunIsGreedy(s: string, i: nat, cls: char -> bool)
    requires i <= |s|
    ensures var end := RunEnd(s, i, cls);
            AllIn(s[i..end], cls) && (end < |s| ==> !cls(s[end]))
    decreases |s| - i
  {
    if i < |s| && cls(s[i]) {
      RunIsGreedy(s, i + 1, cls);
      var end := RunEnd(s, i, cls);
      assert s[i..end] == [s[i]] + s[i + 1..end];
    }
  }

  /** A greedy run is unambiguous when the character after it is outside the class. */
  lemma {:induction false} RunEndIs(s: string, i: nat, w: string, cls: char -> bool)
    requires OccursAt(s, w, i) && AllIn(w, cls)
    requires i + |w| < |s| ==> !cls(s[i + |w|])
    ensures RunEnd(s, i, cls) == i + |w|
    decreases |w|
  {
    if w != "" {
      assert w[0] == s[i + 0];
      OccursConcat(s, w[..1], w[1..], i);
      assert w == w[..1] + w[1..];
      RunEndIs(s, i + 1, w[1..], cls);
    }
  }
}
