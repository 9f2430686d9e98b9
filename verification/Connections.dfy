/** The edges a service has on its canvas. An update of the service draws them anew from the
    references in its environment. */
module Connections {
  import opened Text
  import opened Sorting
  import opened Templates
  import opened Resources
  import S = Substitution

  datatype Connection = Connection(source: string, target: string, names: seq<string>)

  /** A variable, by name, refers to a resource, by identifier. */
  datatype Use = Use(target: string, name: string)

  function HasName(name: string): Resource -> bool {
    (r: Resource) => r.name == name
  }

  /** `canvas.resources.find(candidate => candidate.name === name)` */
  function FindByName(rs: seq<Resource>, name: string): Option<Resource> {
    var i := FindIndex(rs, HasName(name));
    if i < |rs| then Some(rs[i]) else None
  }

  /** What the references to `names` in the variable `variable` come to, in order. */
  function UsesOf(rs: seq<Resource>, variable: string, names: seq<string>): seq<Use> {
    if names == [] then []
    else
      var n := |names| - 1;
      UsesOf(rs, variable, names[..n])
      + match FindByName(rs, names[n]) case None => [] case Some(r) => [Use(r.id, variable)]
  }

  function Uses(rs: seq<Resource>, environment: seq<(string, string)>): seq<Use> {
    if environment == [] then []
    else
      var n := |environment| - 1;
      Uses(rs, environment[..n]) + UsesOf(rs, environment[n].0, ReferencedResourceNames(environment[n].1))
  }

  /** The targets in the order of their first use. */
  function Targets(uses: seq<Use>): (ts: seq<string>)
    ensures Distinct(ts)
  {
    if uses == [] then []
    else
      var ts, last := Targets(uses[..|uses| - 1]), uses[|uses| - 1].target;
      if last in ts then ts else ts + [last]
  }

  /** The variables that refer to a target, once per reference. */
  function NamesFor(uses: seq<Use>, target: string): seq<string> {
    if uses == [] then []
    else
      var last := uses[|uses| - 1];
      NamesFor(uses[..|uses| - 1], target) + if last.target == target then [last.name] else []
  }

  function Edges(serviceId: string, uses: seq<Use>): (es: seq<Connection>)
    ensures |es| == |Targets(uses)|
    ensures forall i :: 0 <= i < |es| ==>
              es[i] == Connection(serviceId, Targets(uses)[i], Sort(NamesFor(uses, Targets(uses)[i]), Less))
  {
    var ts := Targets(uses);
    seq(|ts|, i requires 0 <= i < |ts| => Connection(serviceId, ts[i], Sort(NamesFor(uses, ts[i]), Less)))
  }

  function NotFrom(serviceId: string): Connection -> bool {
    (c: Connection) => c.source != serviceId
  }

  // ---- The handler ----

  ghost predicate Collects(references: map<string, seq<string>>, order: seq<string>, uses: seq<Use>) {
    && order == Targets(uses)
    && (forall t :: t in order <==> t in references)
    && (forall t :: t in references ==> references[t] == NamesFor(uses, t))
  }

  lemma OneMoreUse(uses: seq<Use>, use: Use)
    ensures Targets(uses + [use]) == if use.target in Targets(uses) then Targets(uses) else Targets(uses) + [use.target]
    ensures forall t :: NamesFor(uses + [use], t) == NamesFor(uses, t) + if use.target == t then [use.name] else []
  {
    assert (uses + [use])[..|uses|] == uses;
  }

  lemma {:induction false} NoNames(uses: seq<Use>, t: string)
    requires t !in Targets(uses)
    ensures NamesFor(uses, t) == []
  {
    if uses != [] { NoNames(uses[..|uses| - 1], t); }
  }

  /** `references.set(resource.id, [...(references.get(resource.id) ?? []), name])` */
  method Collect(references: map<string, seq<string>>, order: seq<string>, ghost uses: seq<Use>, use: Use)
      returns (references': map<string, seq<string>>, order': seq<string>)
    requires Collects(references, order, uses)
    ensures Collects(references', order', uses + [use])
  {
    hide Targets, NamesFor;
    OneMoreUse(uses, use);
    var known := if use.target in references then references[use.target] else [];
    if use.target !in references { NoNames(uses, use.target); }
    order' := if use.target in references then order else order + [use.target];
    references' := references[use.target := known + [use.name]];
  }

  /** The part of PUT that draws the edges: the service's old ones go, everyone else's stay,
      and there is a new one for each resource its variables refer to. */
  method Connect(rs: seq<Resource>, connections: seq<Connection>, serviceId: string, environment: seq<(string, string)>)
      returns (result: seq<Connection>)
    ensures result == Filter(connections, NotFrom(serviceId)) + Edges(serviceId, Uses(rs, environment))
  {
    hide Targets, NamesFor, ReferencedResourceNames, FindByName, Edges;
    var references: map<string, seq<string>>, order: seq<string> := map[], [];
    NothingCollected();
    for i := 0 to |environment|
      invariant Collects(references, order, Uses(rs, environment[..i]))
    {
      var (variable, value) := environment[i];
      var names := ReferencedResourceNames(value);
      ghost var before := Uses(rs, environment[..i]);
      assert before + UsesOf(rs, variable, names[..0]) == before;
      for j := 0 to |names|
        invariant Collects(references, order, before + UsesOf(rs, variable, names[..j]))
      {
        UsesOfStep(rs, variable, names, j);
        var found := FindByName(rs, names[j]);
        ghost var uses := before + UsesOf(rs, variable, names[..j]);
        if found.Some? {
          var use := Use(found.value.id, variable);
          assert before + UsesOf(rs, variable, names[..j + 1]) == uses + [use];
          references, order := Collect(references, order, uses, use);
        } else {
          assert before + UsesOf(rs, variable, names[..j + 1]) == uses;
        }
      }
      assert names[..|names|] == names;
      assert environment[..i + 1][..i] == environment[..i];
    }
    assert environment[..|environment|] == environment;
    ghost var uses := Uses(rs, environment);
    var edges := seq(|order|, i requires 0 <= i < |order| =>
                   assert order[i] in order; Connection(serviceId, order[i], Sort(references[order[i]], Less)));
    EdgesAre(serviceId, uses, references, order, edges);
    return Filter(connections, NotFrom(serviceId)) + edges;
  }

  lemma NothingCollected()
    ensures Collects(map[], [], [])
  {
  }

  lemma UsesOfStep(rs: seq<Resource>, variable: string, names: seq<string>, j: nat)
    requires j < |names|
    ensures UsesOf(rs, variable, names[..j + 1]) ==
            UsesOf(rs, variable, names[..j])
            + match FindByName(rs, names[j]) case None => [] case Some(r) => [Use(r.id, variable)]
  {
    assert names[..j + 1][..j] == names[..j];
  }

  lemma EdgesAre(serviceId: string, uses: seq<Use>, references: map<string, seq<string>>, order: seq<string>,
                 edges: seq<Connection>)
    requires Collects(references, order, uses) && |edges| == |order|
    requires forall i :: 0 <= i < |order| ==>
               order[i] in references && edges[i] == Connection(serviceId, order[i], Sort(references[order[i]], Less))
    ensures edges == Edges(serviceId, uses)
  {
    hide Targets, NamesFor;
    forall i | 0 <= i < |order|
      ensures edges[i] == Edges(serviceId, uses)[i]
    {
    }
  }

  // ---- What the edges say ----

  lemma {:induction false} TargetsExactly(uses: seq<Use>, t: string)
    ensures t in Targets(uses) <==> exists u <- uses :: u.target == t
  {
    if uses != [] {
      var n := |uses| - 1;
      TargetsExactly(uses[..n], t);
      assert uses == uses[..n] + [uses[n]];
    }
  }

  lemma {:induction false} NamesCount(uses: seq<Use>, t: string, name: string)
    ensures multiset(NamesFor(uses, t))[name] == multiset(uses)[Use(t, name)]
  {
    if uses != [] {
      var n := |uses| - 1;
      NamesCount(uses[..n], t, name);
      assert uses == uses[..n] + [uses[n]];
    }
  }

  ghost predicate RefersTo(rs: seq<Resource>, value: string, t: string) {
    exists token <- Tokens(value) ::
      token.Ref? && FindByName(rs, token.resource).Some? && FindByName(rs, token.resource).value.id == t
  }

  lemma {:induction false} UsesOfExactly(rs: seq<Resource>, variable: string, names: seq<string>, u: Use)
    ensures u in UsesOf(rs, variable, names) <==>
            u.name == variable && exists n <- names :: FindByName(rs, n).Some? && FindByName(rs, n).value.id == u.target
  {
    hide FindByName;
    if names != [] {
      var k := |names| - 1;
      UsesOfExactly(rs, variable, names[..k], u);
      assert names == names[..k] + [names[k]];
    }
  }

  lemma {:induction false} RefResourcesExactly(ts: seq<Token>, name: string)
    ensures name in RefResources(ts) <==> exists token <- ts :: token.Ref? && token.resource == name
  {
    if ts != [] {
      RefResourcesExactly(ts[1..], name);
      assert ts == [ts[0]] + ts[1..];
    }
  }

  /** The uses of one value are the lookups of its references. */
  lemma ValueExactly(rs: seq<Resource>, variable: string, value: string, u: Use)
    ensures u in UsesOf(rs, variable, ReferencedResourceNames(value)) <==> u.name == variable && RefersTo(rs, value, u.target)
  {
    hide FindByName, UsesOf, Tokens, ReferencedResourceNames, RefResources;
    var names := ReferencedResourceNames(value);
    UsesOfExactly(rs, variable, names, u);
    TokenNames(value);
    forall name
      ensures name in names <==> exists token <- Tokens(value) :: token.Ref? && token.resource == name
    {
      RefResourcesExactly(Tokens(value), name);
    }
  }

  lemma TokenNames(value: string)
    ensures ReferencedResourceNames(value) == RefResources(Tokens(value))
  {
    NamesAreLookups(value, 0);
  }

  lemma {:induction false} UsesExactly(rs: seq<Resource>, environment: seq<(string, string)>, u: Use)
    ensures u in Uses(rs, environment) <==> exists e <- environment :: e.0 == u.name && RefersTo(rs, e.1, u.target)
  {
    hide RefersTo, UsesOf, ReferencedResourceNames;
    if environment != [] {
      var n := |environment| - 1;
      UsesExactly(rs, environment[..n], u);
      ValueExactly(rs, environment[n].0, environment[n].1, u);
      assert environment == environment[..n] + [environment[n]];
    }
  }

  /** After an update the service has an edge to a resource exactly when some value of its
      environment refers to that resource; it has one such edge, whose names are sorted and
      list each variable once per reference. */
  lemma EdgesExactly(rs: seq<Resource>, connections: seq<Connection>, serviceId: string,
                     environment: seq<(string, string)>, t: string)
    ensures var uses := Uses(rs, environment);
            var result := Filter(connections, NotFrom(serviceId)) + Edges(serviceId, uses);
            && ((exists c <- result :: c.source == serviceId && c.target == t) <==>
                exists e <- environment :: RefersTo(rs, e.1, t))
            && (forall c <- result :: c.source == serviceId && c.target == t ==>
                  && Ordered(c.names, Less)
                  && forall name :: multiset(c.names)[name] == multiset(uses)[Use(t, name)])
            && (forall c, d :: c in result && d in result && c.source == d.source == serviceId && c.target == d.target ==> c == d)
  {
    hide Uses, Targets, NamesFor, RefersTo, Filter, Sort, Less;
    var uses := Uses(rs, environment);
    var es := Edges(serviceId, uses);
    FilterHolds(connections, NotFrom(serviceId));
    EdgeTargets(serviceId, uses, t);
    UsedExactly(rs, environment, t);
    NamesAreSorted(uses, t);
    var result := Filter(connections, NotFrom(serviceId)) + es;
    assert forall c <- result :: c.source == serviceId ==> c in es;
    assert forall c <- es :: c in result;
  }

  lemma UsedExactly(rs: seq<Resource>, environment: seq<(string, string)>, t: string)
    ensures (exists u <- Uses(rs, environment) :: u.target == t) <==> exists e <- environment :: RefersTo(rs, e.1, t)
  {
    hide Uses, RefersTo;
    forall u | u in Uses(rs, environment) && u.target == t
      ensures exists e <- environment :: RefersTo(rs, e.1, t)
    {
      UsesExactly(rs, environment, u);
    }
    forall e | e in environment && RefersTo(rs, e.1, t)
      ensures exists u <- Uses(rs, environment) :: u.target == t
    {
      UsesExactly(rs, environment, Use(t, e.0));
    }
  }

  lemma EdgeTargets(serviceId: string, uses: seq<Use>, t: string)
    ensures var es := Edges(serviceId, uses);
            && (forall c <- es :: c.source == serviceId && c.names == Sort(NamesFor(uses, c.target), Less))
            && ((exists c <- es :: c.target == t) <==> exists u <- uses :: u.target == t)
  {
    hide Targets, NamesFor, Sort;
    var es, ts := Edges(serviceId, uses), Targets(uses);
    TargetsExactly(uses, t);
    if t in ts {
      var i :| 0 <= i < |ts| && ts[i] == t;
      assert es[i] in es;
    }
  }

  lemma NamesAreSorted(uses: seq<Use>, t: string)
    ensures var names := Sort(NamesFor(uses, t), Less);
            Ordered(names, Less) && forall name :: multiset(names)[name] == multiset(uses)[Use(t, name)]
  {
    hide NamesFor, Less;
    LessIsOrder();
    SortIsOrdered(NamesFor(uses, t), Less);
    SortIsPermutation(NamesFor(uses, t), Less);
    forall name
      ensures multiset(NamesFor(uses, t))[name] == multiset(uses)[Use(t, name)]
    {
      NamesCount(uses, t, name);
    }
  }

  // ---- Edges and the resolver ----

  predicate DistinctNames(rs: seq<Resource>) {
    forall i, j :: 0 <= i < j < |rs| ==> rs[i].name != rs[j].name
  }

  function Resolved(rs: seq<Resource>, name: string): Option<Resource> {
    if name in S.ByName(rs) then Some(S.ByName(rs)[name]) else None
  }

  /** The resolver takes the last resource of a name. */
  lemma {:induction false} ByNameIsLast(rs: seq<Resource>, name: string) returns (i: int)
    ensures -1 <= i < |rs| && (i == -1 <==> Resolved(rs, name).None?)
    ensures i >= 0 ==> rs[i].name == name && Resolved(rs, name) == Some(rs[i])
    ensures forall j :: i < j < |rs| ==> rs[j].name != name
  {
    i := -1;
    if rs != [] {
      var n := |rs| - 1;
      i := ByNameIsLast(rs[..n], name);
      if rs[n].name == name { i := n; }
    }
  }

  /** Edges and resolver read every name alike exactly when no two resources share a name: an
      edge is drawn to the first resource of a name, and the resolver asks the last. */
  lemma EdgesFollowResolverExactly(rs: seq<Resource>)
    requires DistinctIds(rs)
    ensures (forall name :: FindByName(rs, name) == Resolved(rs, name)) <==> DistinctNames(rs)
  {
    hide Resolved;
    if DistinctNames(rs) {
      forall name
        ensures FindByName(rs, name) == Resolved(rs, name)
      {
        var i := ByNameIsLast(rs, name);
        var k := FindIndex(rs, HasName(name));
        assert k < |rs| && i >= 0 ==> k == i;
      }
    }
    forall i, j | 0 <= i < j < |rs| && rs[i].name == rs[j].name
      ensures FindByName(rs, rs[i].name) != Resolved(rs, rs[i].name)
    {
      var last := ByNameIsLast(rs, rs[i].name);
      var first := FindIndex(rs, HasName(rs[i].name));
      assert first <= i < j <= last;
    }
  }
}
