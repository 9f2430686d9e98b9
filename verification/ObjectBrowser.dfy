/** Browsing an object store by prefix and delimiter. */
module ObjectBrowser {
  import opened Text
  import opened Sorting

  datatype Object = Object(key: string, size: nat)

  datatype Page = Page(objects: seq<Object>, prefixes: seq<string>)

  /** First occurrence of the delimiter at or after `from`. */
  function IndexFrom(text: string, delimiter: string, from: nat): (r: Option<nat>)
    ensures r.Some? ==> from <= r.value <= |text| && OccursAt(text, delimiter, r.value)
    ensures r.Some? ==> forall i: nat :: from <= i < r.value ==> !OccursAt(text, delimiter, i)
    ensures r.None? ==> forall i: nat :: from <= i ==> !OccursAt(text, delimiter, i)
    decreases |text| - from
  {
    if from + |delimiter| > |text| then None
    else if OccursAt(text, delimiter, from) then Some(from)
    else if from == |text| then None
    else IndexFrom(text, delimiter, from + 1)
  }

  /** The common prefix a key under `prefix` is folded into, if the delimiter occurs after it. */
  function Folder(key: string, prefix: string, delimiter: string): (r: Option<string>)
    ensures r.Some? ==> delimiter != "" && r.value <= key && |prefix| + |delimiter| <= |r.value|
  {
    if delimiter == "" then None
    else
      match IndexFrom(key, delimiter, |prefix|)
      case None => None
      case Some(i) => Some(key[..i + |delimiter|])
  }

  predicate IsLeaf(o: Object, prefix: string, delimiter: string) {
    prefix <= o.key && Folder(o.key, prefix, delimiter).None?
  }

  predicate IsFolded(o: Object, prefix: string, delimiter: string, q: string) {
    prefix <= o.key && Folder(o.key, prefix, delimiter) == Some(q)
  }

  /** The objects with no delimiter after the prefix, in order. */
  function Leaves(available: seq<Object>, prefix: string, delimiter: string): seq<Object> {
    Filter(available, (o: Object) => IsLeaf(o, prefix, delimiter))
  }

  /** The common prefixes in the order they first appear, each once. */
  function Folders(available: seq<Object>, prefix: string, delimiter: string): (qs: seq<string>)
    ensures Distinct(qs)
  {
    if available == [] then []
    else
      var rest, o := Folders(available[..|available| - 1], prefix, delimiter), available[|available| - 1];
      var folder := Folder(o.key, prefix, delimiter);
      if prefix <= o.key && folder.Some? && folder.value !in rest then rest + [folder.value] else rest
  }

  lemma {:induction false} FoldersExactly(available: seq<Object>, prefix: string, delimiter: string, q: string)
    ensures q in Folders(available, prefix, delimiter) <==> exists o <- available :: IsFolded(o, prefix, delimiter, q)
  {
    hide Folder;
    if available != [] {
      var n := |available| - 1;
      FoldersExactly(available[..n], prefix, delimiter, q);
      assert available == available[..n] + [available[n]];
      assert IsFolded(available[n], prefix, delimiter, q) ==> available[n] in available;
    }
  }

  /** A common prefix is longer than the prefix it was found under and no longer than some key. */
  lemma FoldersLength(available: seq<Object>, prefix: string, delimiter: string, q: string)
    requires q in Folders(available, prefix, delimiter)
    ensures |prefix| < |q| <= LongestKey(available)
  {
    FoldersExactly(available, prefix, delimiter, q);
  }

  function Sorted(qs: seq<string>): (r: seq<string>)
    ensures forall y :: y in r <==> y in qs
  {
    SortHolds(qs, Less);
    Sort(qs, Less)
  }

  /** The delimiter stands in the key at `i`, behind the prefix, and nowhere in between. */
  ghost predicate FirstDelimiter(key: string, prefix: string, delimiter: string, i: nat) {
    && |prefix| <= i && OccursAt(key, delimiter, i)
    && forall j: nat :: |prefix| <= j < i ==> !OccursAt(key, delimiter, j)
  }

  /** A key under a prefix is a leaf exactly when no delimiter follows the prefix; otherwise it
      folds into the key up to and with the first one. Without a delimiter all keys are leaves. */
  lemma FoldsExactly(o: Object, prefix: string, delimiter: string)
    requires prefix <= o.key
    ensures IsLeaf(o, prefix, "")
    ensures delimiter != "" ==>
              (IsLeaf(o, prefix, delimiter) <==> forall i: nat :: |prefix| <= i ==> !OccursAt(o.key, delimiter, i))
    ensures delimiter != "" ==> forall i: nat :: FirstDelimiter(o.key, prefix, delimiter, i) ==>
              IsFolded(o, prefix, delimiter, o.key[..i + |delimiter|])
  {
    forall i: nat | delimiter != "" && FirstDelimiter(o.key, prefix, delimiter, i)
      ensures IndexFrom(o.key, delimiter, |prefix|) == Some(i)
    {
    }
  }

  /** What is not under the prefix is on no page of it. */
  lemma OutsideIsOut(o: Object, prefix: string, delimiter: string, q: string)
    requires !(prefix <= o.key)
    ensures !IsLeaf(o, prefix, delimiter) && !IsFolded(o, prefix, delimiter, q)
  {
  }

  lemma PageOfOne(o: Object, prefix: string, delimiter: string, q: string)
    requires IsFolded(o, prefix, delimiter, q)
    ensures Leaves([o], prefix, delimiter) == [] && Folders([o], prefix, delimiter) == [q]
  {
    hide Folder;
    LeavesAppend([], o, prefix, delimiter);
    assert [] + [o] == [o];
    assert [o][..0] == [];
    assert Folders([o][..0], prefix, delimiter) == [];
    assert Folders([o], prefix, delimiter) == [] + [q];
  }

  /** The top level of a store with one object in one folder. */
  lemma TopLevelShowsFolders(size: nat)
    ensures var o := Object("img/logo.png", size);
            Leaves([o], "", "/") == [] && Folders([o], "", "/") == ["img/"]
  {
    var o := Object("img/logo.png", size);
    assert o.key[3] == '/' && forall j :: 0 <= j < 3 ==> o.key[j] != '/';
    forall j: nat | j < 3
      ensures !OccursAt(o.key, "/", j)
    {
      assert o.key[j + 0] != "/"[0];
    }
    assert FirstDelimiter(o.key, "", "/", 3);
    FoldsExactly(o, "", "/");
    assert IsFolded(o, "", "/", o.key[..3 + 1]);
    assert o.key[..4] == "img/";
    hide FirstDelimiter, OccursAt, Leaves, Folders;
    PageOfOne(o, "", "/", "img/");
  }

  // ---- One page ----

  method BrowseObjectPage(available: seq<Object>, prefix: string, delimiter: string) returns (page: Page)
    ensures page.objects == Leaves(available, prefix, delimiter)
    ensures page.prefixes == Sorted(Folders(available, prefix, delimiter)) && Ascending(page.prefixes)
  {
    var objects: seq<Object> := [];
    var prefixes: seq<string> := [];
    for i := 0 to |available|
      invariant objects == Leaves(available[..i], prefix, delimiter)
      invariant prefixes == Folders(available[..i], prefix, delimiter)
    {
      var object' := available[i];
      assert available[..i + 1][..i] == available[..i];
      LeavesAppend(available[..i], object', prefix, delimiter);
      assert available[..i + 1] == available[..i] + [object'];
      if !(prefix <= object'.key) {
        continue;
      }
      var folder := Folder(object'.key, prefix, delimiter);
      if folder.None? {
        objects := objects + [object'];
      } else if folder.value !in prefixes {
        prefixes := prefixes + [folder.value];
      }
    }
    assert available[..|available|] == available;
    SortAscends(prefixes);
    page := Page(objects, Sorted(prefixes));
  }

  lemma LeavesAppend(available: seq<Object>, o: Object, prefix: string, delimiter: string)
    ensures Leaves(available + [o], prefix, delimiter)
         == Leaves(available, prefix, delimiter) + if IsLeaf(o, prefix, delimiter) then [o] else []
  {
    hide IsLeaf;
    FilterAppend(available, [o], (x: Object) => IsLeaf(x, prefix, delimiter));
  }

  // ---- Browsing everything ----

  function LongestKey(available: seq<Object>): (n: nat)
    ensures forall o <- available :: |o.key| <= n
  {
    if available == [] then 0
    else var rest := LongestKey(available[1..]); if |available[0].key| > rest then |available[0].key| else rest
  }

  /** The objects a client collects by browsing `prefix` and descending into every common
      prefix. It ends because each common prefix is longer than the one it was found under. */
  function Crawl(available: seq<Object>, prefix: string, delimiter: string): seq<Object>
    decreases LongestKey(available) - |prefix|, 1, 0
  {
    var qs := Sorted(Folders(available, prefix, delimiter));
    assert forall q <- qs :: |prefix| < |q| <= LongestKey(available) by {
      forall q | q in qs ensures |prefix| < |q| <= LongestKey(available) { FoldersLength(available, prefix, delimiter, q); }
    }
    Leaves(available, prefix, delimiter) + CrawlAll(available, qs, delimiter, |prefix|)
  }

  function CrawlAll(available: seq<Object>, qs: seq<string>, delimiter: string, above: nat): seq<Object>
    requires forall q <- qs :: above < |q| <= LongestKey(available)
    decreases LongestKey(available) - above, 0, |qs|
  {
    if qs == [] then []
    else Crawl(available, qs[0], delimiter) + CrawlAll(available, qs[1..], delimiter, above)
  }

  /** Keys under a common prefix are exactly the keys folded into it. */
  lemma FolderIsExact(key: string, other: string, prefix: string, delimiter: string, q: string)
    requires prefix <= other && Folder(other, prefix, delimiter) == Some(q)
    ensures q <= key <==> prefix <= key && Folder(key, prefix, delimiter) == Some(q)
  {
    var i := IndexFrom(other, delimiter, |prefix|).value;
    assert prefix <= q;
    if q <= key {
      assert forall k :: 0 <= k < |q| ==> key[k] == q[k] == other[k];
      assert OccursAt(key, delimiter, i);
      forall j: nat | |prefix| <= j < i
        ensures !OccursAt(key, delimiter, j)
      {
        assert !OccursAt(other, delimiter, j);
        var k :| 0 <= k < |delimiter| && other[j + k] != delimiter[k];
        assert key[j + k] == other[j + k];
      }
      assert IndexFrom(key, delimiter, |prefix|) == Some(i);
      assert key[..i + |delimiter|] == q;
    }
  }

  lemma LeavesCount(available: seq<Object>, prefix: string, delimiter: string, x: Object)
    ensures multiset(Leaves(available, prefix, delimiter))[x] ==
            if IsLeaf(x, prefix, delimiter) then multiset(available)[x] else 0
  {
    hide IsLeaf;
    FilterCounts(available, (o: Object) => IsLeaf(o, prefix, delimiter), x);
  }

  predicate AtMostOneHolds(qs: seq<string>, key: string) {
    forall i, j :: 0 <= i < j < |qs| ==> !(qs[i] <= key && qs[j] <= key)
  }

  predicate SomeHolds(qs: seq<string>, key: string) {
    exists q <- qs :: q <= key
  }

  /** Among the folders of a prefix, the one that holds a key is the one it folds into. */
  lemma HolderIsFolder(available: seq<Object>, prefix: string, delimiter: string, x: Object)
    ensures var qs := Sorted(Folders(available, prefix, delimiter));
            && AtMostOneHolds(qs, x.key)
            && (SomeHolds(qs, x.key) ==> prefix <= x.key && !IsLeaf(x, prefix, delimiter))
            && (x in available && prefix <= x.key && !IsLeaf(x, prefix, delimiter) ==> SomeHolds(qs, x.key))
  {
    var qs := Sorted(Folders(available, prefix, delimiter));
    SortAscends(Folders(available, prefix, delimiter));
    forall q | q in qs
      ensures q <= x.key <==> IsFolded(x, prefix, delimiter, q)
    {
      FoldersExactly(available, prefix, delimiter, q);
      var o :| o in available && IsFolded(o, prefix, delimiter, q);
      FolderIsExact(x.key, o.key, prefix, delimiter, q);
    }
    forall i, j | 0 <= i < j < |qs|
      ensures !(qs[i] <= x.key && qs[j] <= x.key)
    {
      assert qs[i] in qs && qs[j] in qs;
      LessIsIrreflexive(qs[i]);
    }
    if SomeHolds(qs, x.key) {
      var q :| q in qs && q <= x.key;
      assert IsFolded(x, prefix, delimiter, q);
    }
    if x in available && prefix <= x.key && !IsLeaf(x, prefix, delimiter) {
      var q := Folder(x.key, prefix, delimiter).value;
      FoldersExactly(available, prefix, delimiter, q);
      assert q in qs;
    }
  }

  /** Every object under the prefix is collected exactly as often as it is stored, and
      nothing else is. */
  lemma {:induction false} CrawlIsExact(available: seq<Object>, prefix: string, delimiter: string, x: Object)
    ensures multiset(Crawl(available, prefix, delimiter))[x] == if prefix <= x.key then multiset(available)[x] else 0
    decreases LongestKey(available) - |prefix|, 1, 0
  {
    hide IsLeaf, Leaves, SomeHolds, AtMostOneHolds, Folders, Sorted;
    var qs := Sorted(Folders(available, prefix, delimiter));
    HolderIsFolder(available, prefix, delimiter, x);
    LeavesCount(available, prefix, delimiter, x);
    forall q | q in qs
      ensures |prefix| < |q| <= LongestKey(available)
    {
      FoldersLength(available, prefix, delimiter, q);
    }
    CrawlAllIsExact(available, qs, delimiter, |prefix|, x);
    assert Crawl(available, prefix, delimiter)
        == Leaves(available, prefix, delimiter) + CrawlAll(available, qs, delimiter, |prefix|);
    LeafIsUnder(x, prefix, delimiter);
  }

  lemma LeafIsUnder(x: Object, prefix: string, delimiter: string)
    ensures IsLeaf(x, prefix, delimiter) ==> prefix <= x.key
  {
  }

  lemma {:induction false} CrawlAllIsExact(available: seq<Object>, qs: seq<string>, delimiter: string, above: nat, x: Object)
    requires forall q <- qs :: above < |q| <= LongestKey(available)
    requires AtMostOneHolds(qs, x.key)
    ensures multiset(CrawlAll(available, qs, delimiter, above))[x] == if SomeHolds(qs, x.key) then multiset(available)[x] else 0
    decreases LongestKey(available) - above, 0, |qs|
  {
    hide Crawl;
    if qs != [] {
      CrawlIsExact(available, qs[0], delimiter, x);
      CrawlAllIsExact(available, qs[1..], delimiter, above, x);
      SomeHoldsStep(qs, x.key);
      hide SomeHolds, AtMostOneHolds;
    }
  }

  lemma SomeHoldsStep(qs: seq<string>, key: string)
    requires qs != [] && AtMostOneHolds(qs, key)
    ensures SomeHolds(qs, key) <==> qs[0] <= key || SomeHolds(qs[1..], key)
    ensures !(qs[0] <= key && SomeHolds(qs[1..], key))
  {
    assert qs[0] in qs && forall q :: q in qs <==> q == qs[0] || q in qs[1..];
    if SomeHolds(qs[1..], key) {
      var j :| 0 <= j < |qs[1..]| && qs[1..][j] <= key;
      assert qs[j + 1] <= key;
    }
  }

  /** Browsing recursively from any prefix lists every object under it exactly once. */
  lemma CrawlListsAll(available: seq<Object>, prefix: string, delimiter: string)
    ensures multiset(Crawl(available, prefix, delimiter)) == multiset(Leaves(available, prefix, ""))
  {
    hide Crawl, Leaves;
    forall x: Object
      ensures multiset(Crawl(available, prefix, delimiter))[x] == multiset(Leaves(available, prefix, ""))[x]
    {
      CrawlIsExact(available, prefix, delimiter, x);
      LeavesCount(available, prefix, "", x);
    }
  }
}
