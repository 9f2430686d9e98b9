/** Analytics trackers: normalised root domains, the overlap test, and the registry in which
    no two roots overlap. */
module TrackerRegistry {
  import opened Text
  import opened Templates
  import opened Resources

  // ---- Root domains ----

  function LowerChar(c: char): char {
    if 'A' <= c <= 'Z' then (c as int + 32) as char else c
  }

  function Lower(s: string): string {
    seq(|s|, i requires 0 <= i < |s| => LowerChar(s[i]))
  }

  function TrimStart(s: string): string {
    if s != "" && IsSpace(s[0]) then TrimStart(s[1..]) else s
  }

  function TrimEnd(s: string): string {
    if s != "" && IsSpace(s[|s| - 1]) then TrimEnd(s[..|s| - 1]) else s
  }

  /** `replace(/\\.+$/u, "")` */
  function TrimDots(s: string): string {
    if s != "" && s[|s| - 1] == '.' then TrimDots(s[..|s| - 1]) else s
  }

  function FirstIndex(s: string, c: char): (r: Option<nat>)
    ensures r.Some? ==> r.value < |s| && s[r.value] == c
  {
    if s == "" then None
    else if s[0] == c then Some(0)
    else match FirstIndex(s[1..], c) case None => None case Some(i) => Some(i + 1)
  }

  function LastIndex(s: string, c: char): (r: Option<nat>)
    ensures r.Some? ==> r.value < |s| && s[r.value] == c
  {
    if s == "" then None
    else if s[|s| - 1] == c then Some(|s| - 1)
    else LastIndex(s[..|s| - 1], c)
  }

  function NormalizeTrackerRoot(value: string): string {
    var host := TrimDots(Lower(TrimEnd(TrimStart(value))));
    var bracket := FirstIndex(host, ']');
    if host != "" && host[0] == '[' && bracket.Some? && bracket.value > 0 then host[1..bracket.value]
    else
      var colon := LastIndex(host, ':');
      if colon.Some? && colon.value > 0 && colon.value + 1 < |host| && AllIn(host[colon.value + 1..], IsDigit)
      then TrimDots(host[..colon.value])
      else host
  }

  // ---- What normalisation takes away ----

  lemma {:induction false} TrimStartIs(lead: string, v: string)
    requires AllIn(lead, IsSpace) && (v == "" || !IsSpace(v[0]))
    ensures TrimStart(lead + v) == v
  {
    if lead == "" {
      assert lead + v == v;
    } else {
      assert (lead + v)[1..] == lead[1..] + v;
      TrimStartIs(lead[1..], v);
    }
  }

  /** Trimming the end keeps everything up to a character that is no blank, and takes blanks. */
  lemma {:induction false} TrimEndKeeps(v: string, rest: string)
    requires v != "" && !IsSpace(v[|v| - 1])
    ensures v <= TrimEnd(v + rest) && (AllIn(rest, IsSpace) ==> TrimEnd(v + rest) == v)
  {
    var s := v + rest;
    if rest == "" {
      assert s == v;
    } else if IsSpace(rest[|rest| - 1]) {
      assert s[..|s| - 1] == v + rest[..|rest| - 1];
      TrimEndKeeps(v, rest[..|rest| - 1]);
    }
  }

  predicate AllDots(s: string) {
    forall k :: 0 <= k < |s| ==> s[k] == '.'
  }

  lemma {:induction false} TrimDotsKeeps(v: string, rest: string)
    requires v != "" && v[|v| - 1] != '.'
    ensures v <= TrimDots(v + rest) && (AllDots(rest) ==> TrimDots(v + rest) == v)
  {
    var s := v + rest;
    if rest == "" {
      assert s == v;
    } else if rest[|rest| - 1] == '.' {
      assert s[..|s| - 1] == v + rest[..|rest| - 1];
      TrimDotsKeeps(v, rest[..|rest| - 1]);
    }
  }

  lemma LowerConcat(a: string, b: string)
    ensures Lower(a + b) == Lower(a) + Lower(b)
  {
  }

  /** Small letters for capital ones, everything else as it is. */
  lemma LowerReads()
    ensures Lower("AZaz09.-") == "azaz09.-"
  {
  }

  lemma {:induction false} LastIndexIs(s: string, c: char, i: nat)
    requires i < |s| && s[i] == c && forall k :: i < k < |s| ==> s[k] != c
    ensures LastIndex(s, c) == Some(i)
  {
    if i < |s| - 1 { LastIndexIs(s[..|s| - 1], c, i); }
  }

  lemma {:induction false} NoLastIndex(s: string, c: char)
    requires c !in s
    ensures LastIndex(s, c).None?
  {
    if s != "" { NoLastIndex(s[..|s| - 1], c); }
  }

  lemma {:induction false} FirstIndexIs(s: string, c: char, i: nat)
    requires i < |s| && s[i] == c && forall k :: 0 <= k < i ==> s[k] != c
    ensures FirstIndex(s, c) == Some(i)
  {
    if i > 0 { FirstIndexIs(s[1..], c, i - 1); }
  }

  /** A hostname without a colon that neither begins with a bracket or a blank nor ends in a dot
      or a blank. */
  predicate IsHost(h: string) {
    h != "" && ':' !in h && h[0] != '[' && !IsSpace(h[0]) && !IsSpace(h[|h| - 1]) && h[|h| - 1] != '.'
  }

  /** What `trim`, `toLowerCase` and the dot pattern leave of a text in blanks. */
  lemma Bared(lead: string, v: string, rest: string, trail: string)
    requires AllIn(lead, IsSpace) && AllIn(trail, IsSpace) && v != "" && !IsSpace(v[0]) && !IsSpace(v[|v| - 1])
    requires v[|v| - 1] != '.' && AllDots(rest)
    ensures TrimDots(Lower(TrimEnd(TrimStart(lead + v + rest + trail)))) == Lower(v)
  {
    hide IsSpace, TrimDots, TrimEnd, TrimStart;
    var body := v + rest;
    assert lead + v + rest + trail == lead + (body + trail);
    assert (body + trail)[0] == v[0];
    TrimStartIs(lead, body + trail);
    DotsAreNoBlanks(v, rest);
    TrimEndKeeps(body, trail);
    LowerConcat(v, rest);
    assert Lower(rest) == rest;
    assert Lower(v)[|v| - 1] == LowerChar(v[|v| - 1]);
    TrimDotsKeeps(Lower(v), rest);
  }

  lemma DotsAreNoBlanks(v: string, rest: string)
    requires v != "" && !IsSpace(v[|v| - 1]) && AllDots(rest)
    ensures !IsSpace((v + rest)[|v + rest| - 1])
  {
    if rest != "" { assert (v + rest)[|v + rest| - 1] == rest[|rest| - 1]; }
  }

  /** Blanks around a hostname, dots behind it and its case do not matter. */
  lemma HostNormalizes(lead: string, h: string, dots: string, trail: string)
    requires AllIn(lead, IsSpace) && AllIn(trail, IsSpace) && AllDots(dots) && IsHost(h)
    ensures NormalizeTrackerRoot(lead + h + dots + trail) == Lower(h)
  {
    hide IsSpace, TrimDots, TrimEnd, TrimStart;
    Bared(lead, h, dots, trail);
    forall i | 0 <= i < |h|
      ensures Lower(h)[i] != ':'
    {
      assert h[i] in h;
    }
    NoLastIndex(Lower(h), ':');
    assert Lower(h)[0] == LowerChar(h[0]);
  }

  /** Neither does a port. */
  lemma PortNormalizes(lead: string, h: string, inner: string, port: string, dots: string, trail: string)
    requires AllIn(lead, IsSpace) && AllIn(trail, IsSpace) && AllDots(inner) && AllDots(dots) && IsHost(h)
    requires port != "" && AllIn(port, IsDigit)
    ensures NormalizeTrackerRoot(lead + (h + inner + ":" + port) + dots + trail) == Lower(h)
  {
    hide IsSpace, TrimEnd, TrimStart, TrimDots, LastIndex, FirstIndex;
    var v := h + inner + ":" + port;
    DigitIsPlain(port[|port| - 1]);
    assert v[0] == h[0] && v[|v| - 1] == port[|port| - 1];
    Bared(lead, v, dots, trail);
    LowerPort(h, inner, port);
    assert Lower(h)[0] == LowerChar(h[0]) && Lower(h)[|h| - 1] == LowerChar(h[|h| - 1]);
    PortIsCut(Lower(h), inner, port);
  }

  lemma LowerPort(h: string, inner: string, port: string)
    requires AllDots(inner) && AllIn(port, IsDigit)
    ensures Lower(h + inner + ":" + port) == Lower(h) + inner + ":" + port
  {
    LowerConcat(h + inner + ":", port);
    LowerConcat(h + inner, ":");
    LowerConcat(h, inner);
    assert Lower(inner) == inner && Lower(":") == ":";
    assert Lower(port) == port by { forall k | 0 <= k < |port| ensures LowerChar(port[k]) == port[k] {} }
  }

  lemma PortIsCut(x: string, inner: string, port: string)
    requires x != "" && x[0] != '[' && x[|x| - 1] != '.' && AllDots(inner) && port != "" && AllIn(port, IsDigit)
    ensures var host, colon := x + inner + ":" + port, |x| + |inner|;
            && host[0] != '[' && LastIndex(host, ':') == Some(colon)
            && host[colon + 1..] == port && TrimDots(host[..colon]) == x
  {
    hide TrimDots;
    var host, colon := x + inner + ":" + port, |x| + |inner|;
    assert host[0] == x[0] && host[colon] == ':';
    forall k | colon < k < |host|
      ensures host[k] != ':'
    {
      assert host[k] == port[k - colon - 1];
    }
    LastIndexIs(host, ':', colon);
    assert host[..colon] == x + inner;
    TrimDotsKeeps(x, inner);
  }

  lemma DigitIsPlain(c: char)
    requires IsDigit(c)
    ensures !IsSpace(c) && c != '.' && LowerChar(c) == c
  {
  }

  /** What follows a colon and is not all digits is no port, and neither is nothing; a colon in
      front of everything introduces none. */
  lemma NoPortStays(h: string, x: string)
    requires IsHost(h) && ':' !in x && (x == "" || (!AllIn(x, IsDigit) && !IsSpace(x[|x| - 1]) && x[|x| - 1] != '.'))
    ensures NormalizeTrackerRoot(h + ":" + x) == Lower(h) + ":" + Lower(x)
  {
    hide IsSpace, TrimEnd, TrimStart, TrimDots, LastIndex, FirstIndex;
    var v := h + ":" + x;
    assert v[0] == h[0] && v[|v| - 1] == (if x == "" then ':' else x[|x| - 1]);
    ColonIsPlain();
    Bared("", v, "", "");
    assert "" + v + "" + "" == v;
    LowerConcat(h + ":", x);
    LowerConcat(h, ":");
    assert Lower(":") == ":";
    var low := Lower(h) + ":" + Lower(x);
    assert low[0] == LowerChar(h[0]) && low[|h|] == ':';
    forall k | |h| < k < |low|
      ensures low[k] != ':'
    {
      assert low[k] == LowerChar(x[k - |h| - 1]) && x[k - |h| - 1] in x;
    }
    LastIndexIs(low, ':', |h|);
    assert low[|h| + 1..] == Lower(x);
    LowerDigits(x);
  }

  lemma ColonIsPlain()
    ensures !IsSpace(':')
  {
  }

  lemma LowerDigits(x: string)
    ensures AllIn(Lower(x), IsDigit) <==> AllIn(x, IsDigit)
  {
    assert forall k :: 0 <= k < |x| ==> (IsDigit(Lower(x)[k]) <==> IsDigit(x[k]));
  }

  lemma LeadingColonStays(port: string)
    requires port != "" && AllIn(port, IsDigit)
    ensures NormalizeTrackerRoot(":" + port) == ":" + port
  {
    hide IsSpace, TrimEnd, TrimStart, TrimDots, LastIndex, FirstIndex;
    var v := ":" + port;
    ColonIsPlain();
    DigitIsPlain(port[|port| - 1]);
    Bared("", v, "", "");
    assert "" + v + "" + "" == v;
    assert Lower(v) == v by { forall k | 0 <= k < |port| ensures LowerChar(port[k]) == port[k] {} }
    assert forall k :: 0 < k < |v| ==> v[k] == port[k - 1] && IsDigit(v[k]);
    LastIndexIs(v, ':', 0);
  }

  /** Of an address in brackets only the inside matters. */
  lemma BracketNormalizes(lead: string, h: string, rest: string)
    requires AllIn(lead, IsSpace) && ']' !in h
    ensures NormalizeTrackerRoot(lead + ("[" + h + "]") + rest) == Lower(h)
  {
    hide TrimEnd, TrimStart, TrimDots, FirstIndex, LastIndex;
    var v := "[" + h + "]";
    assert lead + v + rest == lead + (v + rest);
    TrimStartIs(lead, v + rest);
    TrimEndKeeps(v, rest);
    var x := TrimEnd(v + rest);
    assert x == v + x[|v|..];
    LowerConcat(v, x[|v|..]);
    assert Lower(v) == "[" + Lower(h) + "]";
    TrimDotsKeeps(Lower(v), Lower(x[|v|..]));
    var host := TrimDots(Lower(x));
    forall k | 0 <= k < |h|
      ensures Lower(h)[k] != ']'
    {
      assert h[k] in h;
    }
    BracketIsCut(Lower(h), host[|v|..]);
    assert host == "[" + Lower(h) + "]" + host[|v|..];
  }

  lemma BracketIsCut(x: string, rest: string)
    requires forall k :: 0 <= k < |x| ==> x[k] != ']'
    ensures var host := "[" + x + "]" + rest; FirstIndex(host, ']') == Some(|x| + 1) && host[1..|x| + 1] == x
  {
    var host := "[" + x + "]" + rest;
    assert forall k :: 1 <= k < |x| + 1 ==> host[k] == x[k - 1];
    FirstIndexIs(host, ']', |x| + 1);
  }

  // ---- Labels ----

  /** The labels of a hostname: its parts between dots. */
  function Labels(s: string): (ls: seq<string>)
    ensures ls != []
    decreases |s|
  {
    match FirstIndex(s, '.')
    case None => [s]
    case Some(i) => [s[..i]] + Labels(s[i + 1..])
  }

  function Dotted(ls: seq<string>): string
    requires ls != []
  {
    if |ls| == 1 then ls[0] else ls[0] + "." + Dotted(ls[1..])
  }

  lemma {:induction false} FirstIndexIsFirst(s: string, c: char)
    ensures FirstIndex(s, c).None? ==> c !in s
    ensures FirstIndex(s, c).Some? ==> c !in s[..FirstIndex(s, c).value]
  {
    if s != "" && s[0] != c {
      FirstIndexIsFirst(s[1..], c);
      if FirstIndex(s, c).Some? {
        var i := FirstIndex(s, c).value;
        assert s[..i] == [s[0]] + s[1..][..i - 1];
      }
    }
  }

  lemma {:induction false} LabelsConcat(a: string, b: string)
    ensures Labels(a + "." + b) == Labels(a) + Labels(b)
    decreases |a|
  {
    hide FirstIndex;
    var s := a + "." + b;
    FirstDot(a, b);
    match FirstIndex(a, '.')
    case None =>
      assert s[..|a|] == a && s[|a| + 1..] == b;
    case Some(i) =>
      assert s[..i] == a[..i] && s[i + 1..] == a[i + 1..] + "." + b;
      LabelsConcat(a[i + 1..], b);
      assert [a[..i]] + (Labels(a[i + 1..]) + Labels(b)) == [a[..i]] + Labels(a[i + 1..]) + Labels(b);
  }

  lemma FirstDot(a: string, b: string)
    ensures FirstIndex(a + "." + b, '.') == if FirstIndex(a, '.').Some? then FirstIndex(a, '.') else Some(|a|)
  {
    var s := a + "." + b;
    FirstIndexIsFirst(a, '.');
    var i := if FirstIndex(a, '.').Some? then FirstIndex(a, '.').value else |a|;
    forall k | 0 <= k < i
      ensures s[k] != '.'
    {
      assert s[k] == a[..i][k] && a[..i][k] in a[..i];
      assert i == |a| ==> a[..i] == a;
    }
    assert s[i] == '.';
    FirstIndexIs(s, '.', i);
  }

  lemma {:induction false} DottedLabels(s: string)
    ensures Dotted(Labels(s)) == s
    decreases |s|
  {
    hide FirstIndex, Dotted;
    match FirstIndex(s, '.')
    case None =>
      DottedFirst(s, []);
      assert [s] + [] == [s];
    case Some(i) =>
      DottedLabels(s[i + 1..]);
      DottedFirst(s[..i], Labels(s[i + 1..]));
      assert s == s[..i] + "." + s[i + 1..];
  }

  lemma DottedFirst(l: string, ls: seq<string>)
    ensures Dotted([l] + ls) == if ls == [] then l else l + "." + Dotted(ls)
  {
    assert ([l] + ls)[1..] == ls;
  }

  lemma {:induction false} DottedConcat(a: seq<string>, b: seq<string>)
    requires a != [] && b != []
    ensures Dotted(a + b) == Dotted(a) + "." + Dotted(b)
    decreases |a|
  {
    assert (a + b)[1..] == a[1..] + b;
    if |a| > 1 { DottedConcat(a[1..], b); }
  }

  /** A host lies under a root exactly when the root's labels are its last labels. */
  lemma UnderIsLabelSuffix(host: string, root: string)
    ensures Under(host, root) <==>
            |Labels(root)| <= |Labels(host)| && Labels(host)[|Labels(host)| - |Labels(root)|..] == Labels(root)
  {
    hide Labels, Dotted;
    var h, r := Labels(host), Labels(root);
    if Under(host, root) && host != root {
      var a := host[..|host| - |root| - 1];
      assert host == a + "." + root;
      LabelsConcat(a, root);
    }
    if |r| <= |h| && h[|h| - |r|..] == r {
      DottedLabels(host);
      DottedLabels(root);
      var a := h[..|h| - |r|];
      assert h == a + r;
      if a == [] {
        assert h == r;
      } else {
        DottedConcat(a, r);
        assert host == Dotted(a) + "." + root;
        assert host[|host| - |root| - 1..] == "." + root;
      }
    }
  }

  predicate EndsWith(s: string, suffix: string) {
    |suffix| <= |s| && s[|s| - |suffix|..] == suffix
  }

  /** `host === root || host.endsWith("." + root)` */
  predicate Under(host: string, root: string) {
    host == root || EndsWith(host, "." + root)
  }

  /** A hostname belongs to a root, both normalised first; an empty root has no hosts. */
  predicate Matches(root: string, hostname: string) {
    NormalizeTrackerRoot(root) != "" && Under(NormalizeTrackerRoot(hostname), NormalizeTrackerRoot(root))
  }

  function MatchesRoot(root: string): string -> bool {
    (h: string) => Matches(root, h)
  }

  function MatchingHostnames(root: string, hostnames: seq<string>): seq<string> {
    Filter(hostnames, MatchesRoot(root))
  }

  /** The listed hostnames are the matching ones, each as often as given and in the given order. */
  lemma MatchingExactly(root: string, hostnames: seq<string>, h: string, i: nat, j: nat) returns (a: nat, b: nat)
    ensures var listed := MatchingHostnames(root, hostnames);
            && multiset(listed)[h] == (if Matches(root, h) then multiset(hostnames)[h] else 0)
            && (i < j < |listed| ==> a < b < |hostnames| && hostnames[a] == listed[i] && hostnames[b] == listed[j])
  {
    var keep := MatchesRoot(root);
    FilterCounts(hostnames, keep, h);
    a, b := 0, 0;
    if i < j < |MatchingHostnames(root, hostnames)| {
      a, b := FilterInOrder(hostnames, keep, i, j);
    }
  }

  predicate RootsOverlap(left: string, right: string) {
    var l, r := NormalizeTrackerRoot(left), NormalizeTrackerRoot(right);
    l != "" && r != "" && (Under(l, r) || Under(r, l))
  }

  /** Two label suffixes of one host are comparable. */
  lemma SuffixesComparable(host: string, a: string, b: string)
    requires Under(host, a) && Under(host, b) && |a| <= |b|
    ensures Under(b, a)
  {
    if |a| < |b| {
      var n := |host|;
      assert host[n - |a| - 1..] == "." + a;
      assert host[n - |b|..] == b by {
        if host != b { assert host[n - |b| - 1..][1..] == b; }
      }
      assert b[|b| - |a| - 1..] == host[n - |a| - 1..];
    } else {
      assert host[|host| - |a|..] == a by {
        if host != a { assert host[|host| - |a| - 1..][1..] == a; }
      }
      assert host[|host| - |b|..] == b by {
        if host != b { assert host[|host| - |b| - 1..][1..] == b; }
      }
    }
  }

  /** Two roots overlap exactly when some hostname belongs to both. */
  lemma OverlapExactly(left: string, right: string)
    ensures RootsOverlap(left, right) <==> exists h :: Matches(left, h) && Matches(right, h)
  {
    hide NormalizeTrackerRoot, EndsWith;
    if RootsOverlap(left, right) {
      var h := if Under(NormalizeTrackerRoot(left), NormalizeTrackerRoot(right)) then left else right;
      assert Matches(left, h) && Matches(right, h);
    }
    forall h | Matches(left, h) && Matches(right, h)
      ensures RootsOverlap(left, right)
    {
      var host, l, r := NormalizeTrackerRoot(h), NormalizeTrackerRoot(left), NormalizeTrackerRoot(right);
      if |l| <= |r| { SuffixesComparable(host, l, r); } else { SuffixesComparable(host, r, l); }
    }
  }

  // ---- The registry ----

  datatype Tracker = Tracker(id: string, name: string, rootDomain: string)

  /** Trackers by project, and the identifier sequence. */
  datatype Registry = Registry(trackers: map<string, seq<Tracker>>, sequence: nat)

  function List(r: Registry, pid: string): seq<Tracker> {
    if pid in r.trackers then r.trackers[pid] else []
  }

  /** `trackerRootsConflict`: the overlap test against every other tracker of every project. */
  predicate Conflict(r: Registry, rootDomain: string, exceptId: string) {
    exists pid, i ::
      pid in r.trackers && 0 <= i < |r.trackers[pid]| && r.trackers[pid][i].id != exceptId
      && RootsOverlap(r.trackers[pid][i].rootDomain, rootDomain)
  }

  function FindTracker(ts: seq<Tracker>, id: string): (i: nat)
    ensures i <= |ts| && (i < |ts| ==> ts[i].id == id)
    ensures forall j :: 0 <= j < i ==> ts[j].id != id
  {
    FindIndex(ts, (t: Tracker) => t.id == id)
  }

  function OtherThan(id: string): Tracker -> bool {
    (t: Tracker) => t.id != id
  }

  /** `trackers.filter(entry => entry.id !== id)` */
  function WithoutTracker(ts: seq<Tracker>, id: string): (kept: seq<Tracker>)
    ensures forall t :: t in kept <==> t in ts && t.id != id
  {
    FilterHolds(ts, OtherThan(id));
    Filter(ts, OtherThan(id))
  }

  /** POST. The identifier is drawn even when the root conflicts. */
  function Post(r: Registry, pid: string, name: string, rootDomain: string): Registry {
    var t := Tracker(MockId("tracker", r.sequence + 1), name, NormalizeTrackerRoot(rootDomain));
    var s := r.(sequence := r.sequence + 1);
    if Conflict(s, t.rootDomain, "") then s
    else s.(trackers := s.trackers[pid := List(s, pid) + [t]])
  }

  /** PUT; absent fields keep the stored value, and the root is normalised again. */
  function Put(r: Registry, pid: string, id: string, name: Option<string>, rootDomain: Option<string>): Registry {
    var ts := List(r, pid);
    var i := FindTracker(ts, id);
    if i == |ts| then r
    else
      var root := NormalizeTrackerRoot(if rootDomain.Some? then rootDomain.value else ts[i].rootDomain);
      if Conflict(r, root, id) then r
      else
        var t := ts[i].(name := if name.Some? then name.value else ts[i].name, rootDomain := root);
        r.(trackers := r.trackers[pid := ts[i := t]])
  }

  function Delete(r: Registry, pid: string, id: string): Registry {
    if FindTracker(List(r, pid), id) == |List(r, pid)| then r
    else r.(trackers := r.trackers[pid := WithoutTracker(List(r, pid), id)])
  }

  datatype Request =
    | DoPost(pid: string, name: string, rootDomain: string)
    | DoPut(pid: string, id: string, newName: Option<string>, newRoot: Option<string>)
    | DoDelete(pid: string, id: string)
    | Other(drawn: nat)

  function Step(r: Registry, q: Request): Registry {
    match q
    case DoPost(pid, name, root) => Post(r, pid, name, root)
    case DoPut(pid, id, name, root) => Put(r, pid, id, name, root)
    case DoDelete(pid, id) => Delete(r, pid, id)
    case Other(drawn) => r.(sequence := r.sequence + drawn)
  }

  function Run(r: Registry, requests: seq<Request>): Registry
    decreases |requests|
  {
    if requests == [] then r else Run(Step(r, requests[0]), requests[1..])
  }

  /** A run is its requests one after the other. */
  lemma {:induction false} RunConcat(r: Registry, first: seq<Request>, then': seq<Request>, q: Request)
    ensures Run(r, []) == r && Run(r, [q]) == Step(r, q)
    ensures Run(r, first + then') == Run(Run(r, first), then')
    decreases |first|
  {
    hide Step;
    assert [q][1..] == [] && Run(Step(r, q), [q][1..]) == Step(r, q);
    if first == [] {
      assert first + then' == then';
    } else {
      assert (first + then')[1..] == first[1..] + then';
      RunConcat(Step(r, first[0]), first[1..], then', q);
    }
  }

  /** Requests elsewhere only draw identifiers. */
  lemma OtherDraws(r: Registry, drawn: nat)
    ensures Step(r, Other(drawn)) == r.(sequence := r.sequence + drawn)
  {
  }

  // ---- What every run keeps ----

  /** A registered tracker, named by its identifier. */
  ghost predicate Holds(r: Registry, pid: string, t: Tracker) {
    pid in r.trackers && t in r.trackers[pid]
  }

  ghost predicate DistinctTrackers(ts: seq<Tracker>) {
    forall i, j :: 0 <= i < j < |ts| ==> ts[i].id != ts[j].id
  }

  ghost predicate Inv(r: Registry) {
    && (forall pid :: pid in r.trackers ==> DistinctTrackers(r.trackers[pid]))
    && (forall pid, t :: Holds(r, pid, t) ==> t.id != "" && Spent(t.id, r.sequence))
    && (forall p, q, t, u :: Holds(r, p, t) && Holds(r, q, u) ==>
          if t.id == u.id then p == q && t == u else !RootsOverlap(t.rootDomain, u.rootDomain))
  }

  lemma ConflictTells(r: Registry, root: string, exceptId: string, pid: string, t: Tracker)
    requires !Conflict(r, root, exceptId) && Holds(r, pid, t) && t.id != exceptId
    ensures !RootsOverlap(t.rootDomain, root) && !RootsOverlap(root, t.rootDomain)
  {
    hide NormalizeTrackerRoot, Under;
    var i :| 0 <= i < |r.trackers[pid]| && r.trackers[pid][i] == t;
  }

  lemma InvLater(r: Registry, later: nat)
    requires Inv(r) && r.sequence <= later
    ensures Inv(r.(sequence := later))
  {
    hide RootsOverlap;
    var s := r.(sequence := later);
    forall pid, t | Holds(s, pid, t)
      ensures t.id != "" && Spent(t.id, later)
    {
      assert Holds(r, pid, t);
    }
    hide Spent;
    forall p, q, t, u | Holds(s, p, t) && Holds(s, q, u)
      ensures if t.id == u.id then p == q && t == u else !RootsOverlap(t.rootDomain, u.rootDomain)
    {
      assert Holds(r, p, t) && Holds(r, q, u);
    }
  }

  lemma PostKeeps(r: Registry, pid: string, name: string, rootDomain: string)
    requires Inv(r)
    ensures Inv(Post(r, pid, name, rootDomain))
  {
    hide RootsOverlap, NormalizeTrackerRoot, MockId, Conflict;
    var id := MockId("tracker", r.sequence + 1);
    var t := Tracker(id, name, NormalizeTrackerRoot(rootDomain));
    var s := r.(sequence := r.sequence + 1);
    MockIdNotEmpty("tracker", r.sequence + 1);
    MockIdIsSpent("tracker", r.sequence + 1, s.sequence);
    forall q, u | Holds(r, q, u)
      ensures u.id != id
    {
      assert Spent(u.id, r.sequence);
    }
    InvLater(r, s.sequence);
    hide Spent;
    if !Conflict(s, t.rootDomain, "") {
      var c := Post(r, pid, name, rootDomain);
      forall q, u
        ensures Holds(c, q, u) <==> Holds(s, q, u) || (q == pid && u == t)
        ensures Holds(s, q, u) ==> Holds(r, q, u)
        ensures Holds(s, q, u) ==> !RootsOverlap(u.rootDomain, t.rootDomain) && !RootsOverlap(t.rootDomain, u.rootDomain)
      {
        if Holds(s, q, u) { ConflictTells(s, t.rootDomain, "", q, u); }
      }
      assert forall i :: 0 <= i < |List(s, pid)| ==> Holds(s, pid, List(s, pid)[i]);
    }
  }

  lemma MockIdNotEmpty(prefix: string, n: nat)
    ensures MockId(prefix, n) != ""
  {
  }

  lemma PutKeeps(r: Registry, pid: string, id: string, name: Option<string>, rootDomain: Option<string>)
    requires Inv(r)
    ensures Inv(Put(r, pid, id, name, rootDomain))
  {
    hide RootsOverlap, NormalizeTrackerRoot, Conflict, Spent;
    var ts := List(r, pid);
    var i := FindTracker(ts, id);
    if i < |ts| {
      var root := NormalizeTrackerRoot(if rootDomain.Some? then rootDomain.value else ts[i].rootDomain);
      if !Conflict(r, root, id) {
        var t := ts[i].(name := if name.Some? then name.value else ts[i].name, rootDomain := root);
        var c := Put(r, pid, id, name, rootDomain);
        assert c.trackers[pid] == ts[i := t] && Holds(r, pid, ts[i]);
        PutHolds(ts, i, t);
        forall q, u
          ensures Holds(c, q, u) ==> (q == pid && u == t) || (Holds(r, q, u) && u.id != id)
          ensures Holds(r, q, u) && u.id != id ==>
                    !RootsOverlap(u.rootDomain, root) && !RootsOverlap(root, u.rootDomain)
        {
          if Holds(r, q, u) && u.id != id { ConflictTells(r, root, id, q, u); }
        }
      }
    }
  }

  lemma PutHolds(ts: seq<Tracker>, i: nat, t: Tracker)
    requires i < |ts| && DistinctTrackers(ts) && t.id == ts[i].id
    ensures DistinctTrackers(ts[i := t])
    ensures forall u :: u in ts[i := t] ==> u == t || (u in ts && u.id != t.id)
  {
  }

  lemma WithoutKeepsDistinct(ts: seq<Tracker>, id: string)
    requires DistinctTrackers(ts)
    ensures DistinctTrackers(WithoutTracker(ts, id))
  {
    var kept := WithoutTracker(ts, id);
    forall i, j | 0 <= i < j < |kept|
      ensures kept[i].id != kept[j].id
    {
      var a, b := FilterInOrder(ts, OtherThan(id), i, j);
    }
  }

  lemma DeleteKeeps(r: Registry, pid: string, id: string)
    requires Inv(r)
    ensures Inv(Delete(r, pid, id))
  {
    hide RootsOverlap, Spent;
    var c := Delete(r, pid, id);
    if pid in r.trackers { WithoutKeepsDistinct(r.trackers[pid], id); }
    assert forall q, u :: Holds(c, q, u) ==> Holds(r, q, u);
  }

  lemma StepKeeps(r: Registry, q: Request)
    requires Inv(r)
    ensures Inv(Step(r, q))
  {
    hide Inv, Post, Put, Delete;
    match q
    case DoPost(pid, name, root) => PostKeeps(r, pid, name, root);
    case DoPut(pid, id, name, root) => PutKeeps(r, pid, id, name, root);
    case DoDelete(pid, id) => DeleteKeeps(r, pid, id);
    case Other(drawn) => InvLater(r, r.sequence + drawn);
  }

  lemma {:induction false} RunKeeps(r: Registry, requests: seq<Request>)
    requires Inv(r)
    ensures Inv(Run(r, requests))
    decreases |requests|
  {
    hide Inv, Step;
    if requests != [] {
      StepKeeps(r, requests[0]);
      RunKeeps(Step(r, requests[0]), requests[1..]);
    }
  }

  /** In every reachable registry a hostname belongs to at most one tracker of any project. */
  lemma HostHasOneTracker(r: Registry, requests: seq<Request>, h: string, p: string, q: string, t: Tracker, u: Tracker)
    requires Inv(r)
    requires Holds(Run(r, requests), p, t) && Holds(Run(r, requests), q, u)
    requires Matches(t.rootDomain, h) && Matches(u.rootDomain, h)
    ensures p == q && t == u
  {
    RunKeeps(r, requests);
    hide Run, Matches, RootsOverlap, Spent;
    OverlapExactly(t.rootDomain, u.rootDomain);
  }

  /** A root is refused exactly when some hostname would belong to it and to a tracker that is
      registered already, other than the one being changed. */
  lemma RefusedExactly(r: Registry, root: string, exceptId: string)
    ensures Conflict(r, root, exceptId) <==>
            exists pid, t, h :: Holds(r, pid, t) && t.id != exceptId && Matches(t.rootDomain, h) && Matches(root, h)
  {
    hide RootsOverlap, Matches, Spent;
    if Conflict(r, root, exceptId) {
      var pid, i :| pid in r.trackers && 0 <= i < |r.trackers[pid]| && r.trackers[pid][i].id != exceptId
                    && RootsOverlap(r.trackers[pid][i].rootDomain, root);
      var t := r.trackers[pid][i];
      OverlapExactly(t.rootDomain, root);
      var h :| Matches(t.rootDomain, h) && Matches(root, h);
      assert Holds(r, pid, t);
    }
    forall pid, t, h | Holds(r, pid, t) && t.id != exceptId && Matches(t.rootDomain, h) && Matches(root, h)
      ensures Conflict(r, root, exceptId)
    {
      OverlapExactly(t.rootDomain, root);
      var i :| 0 <= i < |r.trackers[pid]| && r.trackers[pid][i] == t;
    }
  }

  /** A refused POST only spends an identifier. */
  lemma RefusedPost(r: Registry, pid: string, name: string, root: string)
    requires Conflict(r, NormalizeTrackerRoot(root), "")
    ensures Post(r, pid, name, root) == r.(sequence := r.sequence + 1)
  {
    hide NormalizeTrackerRoot, Conflict;
    ConflictLater(r, r.sequence + 1, NormalizeTrackerRoot(root));
  }

  /** A PUT changes the name and the root of the tracker it names, to what is given or else to
      what was there, the root normalised; a conflict or an unknown tracker changes nothing. */
  lemma PutShows(r: Registry, pid: string, id: string, name: Option<string>, rootDomain: Option<string>, i: nat)
    requires i <= |List(r, pid)| && (i < |List(r, pid)| ==> List(r, pid)[i].id == id)
    requires forall j :: 0 <= j < i ==> List(r, pid)[j].id != id
    ensures i == |List(r, pid)| ==> Put(r, pid, id, name, rootDomain) == r
    ensures i < |List(r, pid)| ==>
              var t, c := List(r, pid)[i], Put(r, pid, id, name, rootDomain);
              var root := NormalizeTrackerRoot(if rootDomain.Some? then rootDomain.value else t.rootDomain);
              if Conflict(r, root, id) then c == r
              else
                && List(c, pid) == List(r, pid)[i := Tracker(id, if name.Some? then name.value else t.name, root)]
                && c.sequence == r.sequence && forall q :: q != pid ==> List(c, q) == List(r, q)
  {
    hide NormalizeTrackerRoot, Conflict, FindIndex;
    assert FindTracker(List(r, pid), id) == i;
  }

  /** An accepted POST registers the tracker beside the ones already there, and deleting it
      again leaves every project with the list it had. */
  lemma DeleteUndoesPost(r: Registry, pid: string, name: string, root: string)
    requires Inv(r) && !Conflict(r, NormalizeTrackerRoot(root), "")
    ensures var id, s := MockId("tracker", r.sequence + 1), Post(r, pid, name, root);
            && List(s, pid) == List(r, pid) + [Tracker(id, name, NormalizeTrackerRoot(root))]
            && forall q :: List(Delete(s, pid, id), q) == List(r, q)
  {
    hide NormalizeTrackerRoot, MockId, Inv, Conflict, WithoutTracker, FindTracker;
    var id, s := MockId("tracker", r.sequence + 1), Post(r, pid, name, root);
    var t := Tracker(id, name, NormalizeTrackerRoot(root));
    FreshTracker(r, pid);
    ConflictLater(r, r.sequence + 1, t.rootDomain);
    WithoutPosted(List(r, pid), t);
    var c := Delete(s, pid, id);
    assert List(c, pid) == List(r, pid);
    forall q | q != pid
      ensures List(c, q) == List(r, q)
    {
    }
  }

  lemma FreshTracker(r: Registry, pid: string)
    requires Inv(r)
    ensures forall u <- List(r, pid) :: u.id != MockId("tracker", r.sequence + 1)
  {
    hide RootsOverlap, MockId;
    forall u | u in List(r, pid)
      ensures u.id != MockId("tracker", r.sequence + 1)
    {
      assert Holds(r, pid, u);
    }
  }

  lemma ConflictLater(r: Registry, later: nat, root: string)
    ensures Conflict(r.(sequence := later), root, "") == Conflict(r, root, "")
  {
    hide RootsOverlap;
  }

  lemma WithoutPosted(ts: seq<Tracker>, t: Tracker)
    requires forall u <- ts :: u.id != t.id
    ensures WithoutTracker(ts + [t], t.id) == ts && FindTracker(ts + [t], t.id) < |ts + [t]|
  {
    var keep := OtherThan(t.id);
    FilterAppend(ts, [t], keep);
    FilterAll(ts, keep);
    assert (ts + [t])[|ts|].id == t.id;
  }

  /** The seeded registry. */
  function Demo(): Registry {
    Registry(map["project-demo" := [Tracker("tracker-shop", "shop.mock.local", "shop.mock.local")]], 100)
  }

  lemma DemoIsInv()
    ensures Inv(Demo())
  {
    hide RootsOverlap;
    var r, t := Demo(), Tracker("tracker-shop", "shop.mock.local", "shop.mock.local");
    assert t.id[|t.id| - 1] == 'p';
    SeededIsSpent(t.id, 100);
    hide Spent;
    assert forall pid, u :: Holds(r, pid, u) ==> pid == "project-demo" && u == t;
  }

  // ---- The handlers ----

  /** A stored tracker; PUT edits it in place. */
  class Entry {
    const id: string
    var name: string
    var rootDomain: string

    constructor (id: string, name: string, rootDomain: string)
      ensures this.id == id && this.name == name && this.rootDomain == rootDomain
    {
      this.id, this.name, this.rootDomain := id, name, rootDomain;
    }

    ghost predicate Shows(t: Tracker)
      reads this
    {
      t == Tracker(id, name, rootDomain)
    }
  }

  datatype Status = Done | NotFound | Overlaps

  /** PUT fails on an unknown tracker, then on a root that overlaps another tracker's. */
  function PutStatus(r: Registry, pid: string, id: string, rootDomain: Option<string>): Status {
    var ts := List(r, pid);
    var i := FindTracker(ts, id);
    if i == |ts| then NotFound
    else if Conflict(r, NormalizeTrackerRoot(if rootDomain.Some? then rootDomain.value else ts[i].rootDomain), id) then Overlaps
    else Done
  }

  /** PUT answers that there is no such tracker, that its new root overlaps another's, or that
      it is done, in that order. */
  lemma PutAnswers(r: Registry, pid: string, id: string, rootDomain: Option<string>, i: nat)
    requires i <= |List(r, pid)| && (i < |List(r, pid)| ==> List(r, pid)[i].id == id)
    requires forall j :: 0 <= j < i ==> List(r, pid)[j].id != id
    ensures PutStatus(r, pid, id, rootDomain) == NotFound <==> i == |List(r, pid)|
    ensures i < |List(r, pid)| ==>
              (PutStatus(r, pid, id, rootDomain) == Overlaps <==>
               Conflict(r, NormalizeTrackerRoot(if rootDomain.Some? then rootDomain.value else List(r, pid)[i].rootDomain), id))
  {
    hide NormalizeTrackerRoot, Conflict, FindIndex;
    assert FindTracker(List(r, pid), id) == i;
  }

  function FindEntry(es: seq<Entry>, id: string): (i: nat)
    ensures i <= |es| && (i < |es| ==> es[i].id == id)
    ensures forall j :: 0 <= j < i ==> es[j].id != id
  {
    FindIndex(es, (e: Entry) => e.id == id)
  }

  function OtherEntry(id: string): Entry -> bool {
    (e: Entry) => e.id != id
  }

  function WithoutEntry(es: seq<Entry>, id: string): seq<Entry> {
    Filter(es, OtherEntry(id))
  }

  class Store {
    var lists: map<string, seq<Entry>>
    var sequence: nat
    ghost var shown: map<string, seq<Tracker>>
    ghost var objects: set<object>

    ghost predicate ListShows(es: seq<Entry>, ts: seq<Tracker>)
      reads this`objects, objects
    {
      |es| == |ts| && forall i :: 0 <= i < |es| ==> es[i] in objects && es[i].Shows(ts[i])
    }

    ghost predicate Linked()
      reads this`lists, this`shown, this`objects, objects
    {
      && this !in objects && shown.Keys == lists.Keys
      && forall pid :: pid in lists ==> ListShows(lists[pid], shown[pid])
    }

    ghost function View(): Registry
      reads this`shown, this`sequence
    {
      Registry(shown, sequence)
    }

    ghost predicate Valid()
      reads this`lists, this`shown, this`sequence, this`objects, objects
    {
      Linked() && Inv(View())
    }

    constructor ()
      ensures Valid() && View() == Registry(map[], 100)
    {
      lists, sequence, shown, objects := map[], 100, map[], {};
    }

    /** `Object.values(trackers).flat().some(...)` */
    method HasConflict(rootDomain: string, exceptId: string) returns (conflict: bool)
      requires Linked()
      ensures conflict == Conflict(View(), rootDomain, exceptId)
    {
      hide RootsOverlap;
      var pids := lists.Keys;
      while pids != {}
        invariant pids <= lists.Keys
        invariant forall pid, i :: pid in shown && pid !in pids && 0 <= i < |shown[pid]| ==>
                    shown[pid][i].id == exceptId || !RootsOverlap(shown[pid][i].rootDomain, rootDomain)
        decreases pids
      {
        var pid :| pid in pids;
        var es := lists[pid];
        assert ListShows(es, shown[pid]);
        for i := 0 to |es|
          invariant forall j :: 0 <= j < i ==>
                      shown[pid][j].id == exceptId || !RootsOverlap(shown[pid][j].rootDomain, rootDomain)
        {
          assert es[i].Shows(shown[pid][i]);
          if es[i].id != exceptId && RootsOverlap(es[i].rootDomain, rootDomain) {
            return true;
          }
        }
        pids := pids - {pid};
      }
      return false;
    }

    method PutTracker(pid: string, id: string, name: Option<string>, rootDomain: Option<string>) returns (status: Status)
      requires Valid()
      modifies this`shown, objects
      ensures Valid() && View() == Put(old(View()), pid, id, name, rootDomain)
      ensures status == PutStatus(old(View()), pid, id, rootDomain)
      ensures objects == old(objects) && lists == old(lists)
    {
      hide RootsOverlap, NormalizeTrackerRoot, Conflict, Inv;
      PutKeeps(View(), pid, id, name, rootDomain);
      assert pid in lists ==> ListShows(lists[pid], shown[pid]);
      var es := if pid in lists then lists[pid] else [];
      var i := FindEntry(es, id);
      SameIndex(es, List(View(), pid), id);
      if i == |es| {
        return NotFound;
      }
      var entry := es[i];
      assert entry.Shows(shown[pid][i]);
      var root := NormalizeTrackerRoot(if rootDomain.Some? then rootDomain.value else entry.rootDomain);
      var conflict := HasConflict(root, id);
      if conflict {
        return Overlaps;
      }
      Rewrite(pid, i, if name.Some? then name.value else entry.name, root);
      return Done;
    }

    method PostTracker(pid: string, name: string, rootDomain: string) returns (status: Status)
      requires Valid()
      modifies this
      ensures Valid() && View() == Post(old(View()), pid, name, rootDomain) && fresh(objects - old(objects))
      ensures status == if Conflict(old(View()), NormalizeTrackerRoot(rootDomain), "") then Overlaps else Done
    {
      hide RootsOverlap, NormalizeTrackerRoot, Inv, MockId;
      PostKeeps(View(), pid, name, rootDomain);
      sequence := sequence + 1;
      var entry := new Entry(MockId("tracker", sequence), name, NormalizeTrackerRoot(rootDomain));
      var conflict := HasConflict(entry.rootDomain, "");
      assert conflict == Conflict(old(View()), entry.rootDomain, "");
      hide Conflict;
      if conflict {
        return Overlaps;
      }
      Append(pid, entry);
      return Done;
    }

    method Append(pid: string, entry: Entry)
      requires Linked()
      modifies this`lists, this`shown, this`objects
      ensures Linked() && objects == old(objects) + {entry}
      ensures shown == old(shown)[pid := List(old(View()), pid) + [Tracker(entry.id, entry.name, entry.rootDomain)]]
    {
      var es := if pid in lists then lists[pid] else [];
      assert pid in lists ==> ListShows(lists[pid], shown[pid]);
      lists := lists[pid := es + [entry]];
      objects := objects + {entry};
      shown := shown[pid := List(View(), pid) + [Tracker(entry.id, entry.name, entry.rootDomain)]];
      forall q | q in lists
        ensures ListShows(lists[q], shown[q])
      {
        assert q in old(lists) ==> old(ListShows(lists[q], shown[q]));
      }
    }

    method DeleteTracker(pid: string, id: string) returns (status: Status)
      requires Valid()
      modifies this`lists, this`shown
      ensures Valid() && View() == Delete(old(View()), pid, id)
      ensures status == if exists t :: Holds(old(View()), pid, t) && t.id == id then Done else NotFound
    {
      hide RootsOverlap, Inv;
      DeleteKeeps(View(), pid, id);
      assert pid in lists ==> ListShows(lists[pid], shown[pid]);
      var es := if pid in lists then lists[pid] else [];
      SameIndex(es, List(View(), pid), id);
      if FindEntry(es, id) == |es| {
        return NotFound;
      }
      assert Holds(View(), pid, List(View(), pid)[FindEntry(es, id)]);
      SameLeft(es, List(View(), pid), id);
      lists := lists[pid := WithoutEntry(es, id)];
      shown := shown[pid := WithoutTracker(List(View(), pid), id)];
      return Done;
    }

    lemma SameLeft(es: seq<Entry>, ts: seq<Tracker>, id: string)
      requires ListShows(es, ts)
      ensures ListShows(WithoutEntry(es, id), WithoutTracker(ts, id))
    {
      var keepE, keepT := OtherEntry(id), OtherThan(id);
      assert forall i :: 0 <= i < |es| ==> es[i].Shows(ts[i]);
      FilterLengths(es, ts, keepE, keepT);
      var left, kept := WithoutEntry(es, id), WithoutTracker(ts, id);
      forall k | 0 <= k < |left|
        ensures left[k] in objects && left[k].Shows(kept[k])
      {
        var i := FilterTogether(es, ts, keepE, keepT, k);
      }
    }

    /** The in-place edit touches one tracker only, because identifiers are unique. */
    method Rewrite(pid: string, i: nat, name: string, root: string)
      requires Valid() && pid in lists && i < |lists[pid]|
      modifies this`shown, objects
      ensures Linked() && lists == old(lists) && objects == old(objects)
      ensures |lists[pid]| == |old(shown)[pid]|
      ensures shown == old(shown)[pid := old(shown)[pid][i := Tracker(lists[pid][i].id, name, root)]]
    {
      hide RootsOverlap, Spent;
      var entry := lists[pid][i];
      assert ListShows(lists[pid], shown[pid]);
      forall q, j | q in lists && 0 <= j < |lists[q]| && lists[q][j] == entry
        ensures q == pid && j == i
      {
        OnePlace(q, j, pid, i);
      }
      hide Inv;
      entry.name := name;
      entry.rootDomain := root;
      shown := shown[pid := shown[pid][i := Tracker(entry.id, name, root)]];
      forall q | q in lists
        ensures ListShows(lists[q], shown[q])
      {
        assert old(ListShows(lists[q], shown[q]));
      }
    }

    lemma OnePlace(q: string, j: nat, p: string, i: nat)
      requires Valid() && q in lists && j < |lists[q]| && p in lists && i < |lists[p]| && lists[q][j] == lists[p][i]
      ensures q == p && j == i
    {
      hide RootsOverlap, Spent;
      assert ListShows(lists[q], shown[q]) && ListShows(lists[p], shown[p]);
      assert lists[q][j].Shows(shown[q][j]) && lists[p][i].Shows(shown[p][i]);
      assert Holds(View(), q, shown[q][j]) && Holds(View(), p, shown[p][i]);
      assert DistinctTrackers(shown[p]);
    }

    lemma SameIndex(es: seq<Entry>, ts: seq<Tracker>, id: string)
      requires ListShows(es, ts)
      ensures FindEntry(es, id) == FindTracker(ts, id)
    {
      assert forall i :: 0 <= i < |es| ==> es[i].id == ts[i].id;
    }
  }
}
