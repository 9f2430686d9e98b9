/** Paging through a service's log, newest page first. */
module LogPaging {
  import opened Text

  datatype Page<T> = Page(records: seq<T>, nextCursor: Option<nat>)

  function Max(a: int, b: int): int {
    if a >= b then a else b
  }

  /** `Math.max(0, Math.trunc(Number(cursor)) || 0)`; `None` is a parameter that is no number. */
  function Cursor(parameter: Option<int>): nat {
    if parameter.None? then 0 else Max(0, parameter.value)
  }

  /** `Math.max(1, Math.trunc(Number(limit)) || 500)`: zero asks for the default. */
  function Limit(parameter: Option<int>): (n: nat)
    ensures n >= 1
  {
    if parameter.None? || parameter.value == 0 then 500 else Max(1, parameter.value)
  }

  /** Chained filters keep what passes both tests. */
  lemma {:induction false} FilterChain<T>(records: seq<T>, first: T -> bool, second: T -> bool)
    ensures Filter(Filter(records, first), second) == Filter(records, (r: T) => first(r) && second(r))
  {
    if records != [] {
      FilterChain(records[1..], first, second);
      if first(records[0]) {
        assert Filter(records, first)[1..] == Filter(records[1..], first);
      } else {
        assert Filter(records, first) == Filter(records[1..], first);
      }
    }
  }

  /** One response over the records that match. */
  function PageOf<T>(matching: seq<T>, cursorParameter: Option<int>, limitParameter: Option<int>): Page<T> {
    var cursor := Cursor(cursorParameter);
    var end := Max(0, |matching| - cursor);
    var start := Max(0, end - Limit(limitParameter));
    var records := matching[start..end];
    Page(records, if start > 0 then Some(cursor + |records|) else None)
  }

  /** A page holds the records just before the cursor, as many as the limit allows and no more,
      in order; a further cursor is given exactly when older records remain, and it counts what
      has been shown. */
  lemma PageExactly<T>(matching: seq<T>, cursorParameter: Option<int>, limitParameter: Option<int>)
    ensures var page := PageOf(matching, cursorParameter, limitParameter);
            var cursor, limit := Cursor(cursorParameter), Limit(limitParameter);
            var left := if cursor < |matching| then |matching| - cursor else 0;
            && |page.records| == (if limit < left then limit else left)
            && page.records == matching[left - |page.records|..left]
            && (page.nextCursor.Some? <==> limit < left)
            && (page.nextCursor.Some? ==> page.nextCursor.value == cursor + limit)
  {
  }

  /** Missing and odd parameters: no cursor or a negative one is zero, no limit or zero is five
      hundred, a negative limit is one. */
  lemma ParametersRead(n: int)
    ensures Cursor(None) == 0 && Limit(None) == 500 && Limit(Some(0)) == 500
    ensures n >= 0 ==> Cursor(Some(n)) == n
    ensures n < 0 ==> Cursor(Some(n)) == 0 && Limit(Some(n)) == 1
    ensures n > 0 ==> Limit(Some(n)) == n
  {
  }

  /** All pages a client sees that follows `nextCursor`, asking for whatever limit it likes
      each time. It ends because the cursor grows. */
  function Walk<T>(matching: seq<T>, cursor: nat, limits: nat -> Option<int>, k: nat): seq<Page<T>>
    decreases |matching| - cursor
  {
    var page := PageOf(matching, Some(cursor), limits(k));
    [page] + if page.nextCursor.None? then [] else Walk(matching, page.nextCursor.value, limits, k + 1)
  }

  /** Pages put back with the oldest first. */
  function Reassemble<T>(pages: seq<Page<T>>): seq<T> {
    if pages == [] then [] else Reassemble(pages[1..]) + pages[0].records
  }

  lemma {:induction false} WalkFrom<T>(matching: seq<T>, cursor: nat, limits: nat -> Option<int>, k: nat)
    ensures Reassemble(Walk(matching, cursor, limits, k)) == matching[..Max(0, |matching| - cursor)]
    decreases |matching| - cursor
  {
    var page := PageOf(matching, Some(cursor), limits(k));
    var pages := Walk(matching, cursor, limits, k);
    var end := Max(0, |matching| - cursor);
    var start := end - |page.records|;
    assert matching[..end] == matching[..start] + page.records;
    if page.nextCursor.Some? {
      WalkFrom(matching, page.nextCursor.value, limits, k + 1);
      assert pages[1..] == Walk(matching, page.nextCursor.value, limits, k + 1);
    } else {
      assert pages[1..] == [];
    }
  }

  /** Following the cursor from zero, with any limits, shows every matching record exactly
      once: the pages in reverse order are the matching records. */
  lemma PagesAreTheLog<T>(records: seq<T>, keep: T -> bool, limits: nat -> Option<int>)
    ensures Reassemble(Walk(Filter(records, keep), 0, limits, 0)) == Filter(records, keep)
  {
    var matching := Filter(records, keep);
    WalkFrom(matching, 0, limits, 0);
    assert matching[..|matching|] == matching;
  }
}
