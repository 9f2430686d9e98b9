/** Scoping a trace to agent runs: an explicit-stack search over child links that
    may be cyclic, and the shape of the runs it yields. */
module AiRuns {
  import opened Text

  /** An absent parent or kind is the empty string. */
  datatype Span = Span(spanId: string, parentSpanId: string, aiKind: string)

  datatype Run = Run(agent: bool, root: Span, spans: seq<Span>)

  predicate IsAgent(s: Span) {
    s.aiKind == "agent"
  }

  predicate IsAi(s: Span) {
    s.aiKind != ""
  }

  function IdIn(ids: set<string>): Span -> bool {
    (s: Span) => s.spanId in ids
  }

  /** The spans whose id is wanted, in their original order. */
  function Scope(spans: seq<Span>, ids: set<string>): (kept: seq<Span>)
    ensures forall s :: s in kept <==> s in spans && s.spanId in ids
  {
    FilterHolds(spans, IdIn(ids));
    Filter(spans, IdIn(ids))
  }

  lemma ScopeAgrees(spans: seq<Span>, one: set<string>, other: set<string>)
    requires forall s <- spans :: s.spanId in one <==> s.spanId in other
    ensures Scope(spans, one) == Scope(spans, other)
  {
    FilterAgrees(spans, IdIn(one), IdIn(other));
  }

  ghost function IdSet(spans: seq<Span>): set<string> {
    set s | s in spans :: s.spanId
  }

  // ---- Child links ----

  /** `child` was reported with the non-empty parent `parent`. */
  ghost predicate Edge(spans: seq<Span>, parent: string, child: string) {
    exists s :: s in spans && s.parentSpanId == parent && s.spanId == child && parent != ""
  }

  ghost predicate IsPath(spans: seq<Span>, path: seq<string>, from: string, to: string) {
    && |path| > 0 && path[0] == from && path[|path| - 1] == to
    && forall i :: 0 <= i < |path| - 1 ==> Edge(spans, path[i], path[i + 1])
  }

  /** `to` is `from` itself or one of its descendants. */
  ghost predicate Reaches(spans: seq<Span>, from: string, to: string) {
    exists path :: IsPath(spans, path, from, to)
  }

  lemma ReachesSelf(spans: seq<Span>, id: string)
    ensures Reaches(spans, id, id)
  {
    assert IsPath(spans, [id], id, id);
  }

  lemma ReachesChild(spans: seq<Span>, from: string, parent: string, child: string)
    requires Reaches(spans, from, parent) && Edge(spans, parent, child)
    ensures Reaches(spans, from, child)
  {
    var path :| IsPath(spans, path, from, parent);
    assert IsPath(spans, path + [child], from, child);
  }

  lemma ReachesTransitive(spans: seq<Span>, a: string, b: string, c: string)
    requires Reaches(spans, a, b) && Reaches(spans, b, c)
    ensures Reaches(spans, a, c)
  {
    var p :| IsPath(spans, p, a, b);
    var q :| IsPath(spans, q, b, c);
    var joined := p + q[1..];
    forall i | 0 <= i < |joined| - 1
      ensures Edge(spans, joined[i], joined[i + 1])
    {
      if i >= |p| - 1 { assert joined[i] == q[i - |p| + 1] && joined[i + 1] == q[i - |p| + 2]; }
    }
    assert IsPath(spans, joined, a, c);
  }

  /** A set that holds the start and every child of its members holds all descendants. */
  lemma {:induction false} ClosedHolds(spans: seq<Span>, closed: set<string>, path: seq<string>, from: string, to: string)
    requires (from == "" || from in closed) && IsPath(spans, path, from, to) && to != ""
    requires forall a, b :: a in closed && b != "" && Edge(spans, a, b) ==> b in closed
    ensures to in closed
    decreases |path|
  {
    if |path| > 1 {
      var last := |path| - 2;
      assert Edge(spans, path[last], path[last + 1]);
      ClosedHolds(spans, closed, path[..last + 1], from, path[last]);
    }
  }

  /** The ids a run is meant to hold: the root's own and those of its descendants. */
  ghost function RunIds(spans: seq<Span>, root: Span): set<string> {
    set s | s in spans && s.spanId != "" && Reaches(spans, root.spanId, s.spanId) :: s.spanId
  }

  /** "That agent span and its descendants." */
  ghost function Descendants(spans: seq<Span>, root: Span): seq<Span> {
    Scope(spans, RunIds(spans, root))
  }

  // ---- The search ----

  ghost predicate IsChild(children: map<string, seq<string>>, parent: string, child: string) {
    parent in children && child in children[parent]
  }

  ghost predicate Indexes(children: map<string, seq<string>>, spans: seq<Span>) {
    forall p, c :: IsChild(children, p, c) <==> Edge(spans, p, c)
  }

  /** The index of children by parent id, in span order. */
  method ChildIndex(spans: seq<Span>) returns (children: map<string, seq<string>>)
    ensures Indexes(children, spans)
  {
    children := map[];
    for i := 0 to |spans|
      invariant Indexes(children, spans[..i])
    {
      var span := spans[i];
      EdgeGrows(spans, i);
      ghost var before := children;
      if span.parentSpanId != "" {
        var siblings := if span.parentSpanId in children then children[span.parentSpanId] else [];
        children := children[span.parentSpanId := siblings + [span.spanId]];
      }
      forall p, c
        ensures IsChild(children, p, c) <==> Edge(spans[..i + 1], p, c)
      {
        assert IsChild(before, p, c) <==> Edge(spans[..i], p, c);
      }
    }
    assert spans[..|spans|] == spans;
  }

  lemma EdgeGrows(spans: seq<Span>, i: nat)
    requires i < |spans|
    ensures forall p, c :: Edge(spans[..i + 1], p, c) <==>
              Edge(spans[..i], p, c) || (spans[i].parentSpanId == p && spans[i].spanId == c && p != "")
  {
    assert spans[..i + 1] == spans[..i] + [spans[i]];
  }

  /** The worklist. It ends because each round either shortens the stack or adds an id,
      and every id is the root's or some span's. */
  method Subtree(spans: seq<Span>, children: map<string, seq<string>>, root: Span) returns (run: seq<Span>)
    requires Indexes(children, spans)
    ensures run == Descendants(spans, root)
  {
    ghost var all := IdSet(spans) + {root.spanId};
    var included: set<string> := {};
    var pending := [root.spanId];
    ReachesSelf(spans, root.spanId);
    while |pending| > 0
      invariant included <= all && "" !in included
      invariant forall id :: id in included || id in pending ==> Reaches(spans, root.spanId, id)
      invariant forall id :: id in pending ==> id in all
      invariant root.spanId == "" || root.spanId in included || root.spanId in pending
      invariant forall a, b :: a in included && b != "" && Edge(spans, a, b) ==> b in included || b in pending
      decreases all - included, |pending|
    {
      var id := pending[|pending| - 1];
      ghost var before := pending;
      pending := pending[..|pending| - 1];
      assert before == pending + [id];
      if id == "" || id in included {
        continue;
      }
      included := included + {id};
      var next := if id in children then children[id] else [];
      forall c | c in next
        ensures Reaches(spans, root.spanId, c) && c in all
      {
        assert IsChild(children, id, c);
        ReachesChild(spans, root.spanId, id, c);
      }
      assert forall b :: Edge(spans, id, b) ==> IsChild(children, id, b);
      pending := pending + next;
    }
    forall s | s in spans
      ensures s.spanId in included <==> s.spanId in RunIds(spans, root)
    {
      if s.spanId in RunIds(spans, root) {
        var path :| IsPath(spans, path, root.spanId, s.spanId);
        ClosedHolds(spans, included, path, root.spanId, s.spanId);
      }
    }
    ScopeAgrees(spans, included, RunIds(spans, root));
    return Scope(spans, included);
  }

  /** `aiRuns`: one run per agent span, or else a single run of all AI spans. */
  method AiRuns(spans: seq<Span>) returns (runs: seq<Run>)
    ensures var agents := Filter(spans, IsAgent);
            && (agents != [] ==> && |runs| == |agents|
                                 && forall i :: 0 <= i < |agents| ==> runs[i] == Run(true, agents[i], Descendants(spans, agents[i])))
            && (agents == [] ==> var ai := Filter(spans, IsAi);
                                 runs == if ai == [] then [] else [Run(false, ai[0], ai)])
  {
    var children := ChildIndex(spans);
    var agents := Filter(spans, IsAgent);
    if |agents| > 0 {
      runs := [];
      for i := 0 to |agents|
        invariant |runs| == i
        invariant forall j :: 0 <= j < i ==> runs[j] == Run(true, agents[j], Descendants(spans, agents[j]))
      {
        var run := Subtree(spans, children, agents[i]);
        runs := runs + [Run(true, agents[i], run)];
      }
      return;
    }
    var ai := Filter(spans, IsAi);
    return if ai == [] then [] else [Run(false, ai[0], ai)];
  }

  /** Agent spans are those of the kind `agent`, AI spans those of any kind, each as often as it
      is in the trace. */
  lemma KindsRead(spans: seq<Span>, s: Span)
    ensures multiset(Filter(spans, IsAgent))[s] == if s.aiKind == "agent" then multiset(spans)[s] else 0
    ensures multiset(Filter(spans, IsAi))[s] == if s.aiKind == "" then 0 else multiset(spans)[s]
  {
    hide Filter;
    FilterCounts(spans, IsAgent, s);
    FilterCounts(spans, IsAi, s);
  }

  // ---- The shape of agent runs ----

  /** A run holds its own root exactly when the root has an id. */
  lemma RootInRun(spans: seq<Span>, root: Span)
    requires root in spans
    ensures root in Descendants(spans, root) <==> root.spanId != ""
  {
    ReachesSelf(spans, root.spanId);
  }

  ghost predicate UniqueIds(spans: seq<Span>) {
    && (forall s <- spans :: s.spanId != "")
    && (forall s, t :: s in spans && t in spans && s.spanId == t.spanId ==> s == t)
  }

  /** With one parent per span, two ancestors of the same span lie on one line. */
  lemma {:induction false} AncestorsComparable(
      spans: seq<Span>, p: seq<string>, q: seq<string>, a: string, b: string, x: string)
    requires UniqueIds(spans) && IsPath(spans, p, a, x) && IsPath(spans, q, b, x)
    ensures Reaches(spans, a, b) || Reaches(spans, b, a)
    decreases |p|
  {
    if |p| > 1 && |q| > 1 {
      var i, j := |p| - 2, |q| - 2;
      assert Edge(spans, p[i], p[i + 1]) && Edge(spans, q[j], q[j + 1]);
      AncestorsComparable(spans, p[..i + 1], q[..j + 1], a, b, p[i]);
    }
  }

  /** One run contains another exactly when its root is an ancestor of the other's root. */
  lemma ContainsExactly(spans: seq<Span>, a: Span, b: Span)
    requires UniqueIds(spans) && a in spans && b in spans
    ensures (forall s :: s in Descendants(spans, b) ==> s in Descendants(spans, a)) <==>
            Reaches(spans, a.spanId, b.spanId)
  {
    RootInRun(spans, b);
    if Reaches(spans, a.spanId, b.spanId) {
      forall s | s in Descendants(spans, b)
        ensures s in Descendants(spans, a)
      {
        ReachesTransitive(spans, a.spanId, b.spanId, s.spanId);
      }
    }
  }

  /** Any two agent runs are nested or disjoint. */
  lemma NestedOrDisjoint(spans: seq<Span>, a: Span, b: Span)
    requires UniqueIds(spans) && a in spans && b in spans
    ensures || (forall s :: s in Descendants(spans, b) ==> s in Descendants(spans, a))
            || (forall s :: s in Descendants(spans, a) ==> s in Descendants(spans, b))
            || (forall s :: s in Descendants(spans, a) ==> s !in Descendants(spans, b))
  {
    if s :| s in Descendants(spans, a) && s in Descendants(spans, b) {
      var p :| IsPath(spans, p, a.spanId, s.spanId);
      var q :| IsPath(spans, q, b.spanId, s.spanId);
      AncestorsComparable(spans, p, q, a.spanId, b.spanId, s.spanId);
      ContainsExactly(spans, a, b);
      ContainsExactly(spans, b, a);
    }
  }
}
