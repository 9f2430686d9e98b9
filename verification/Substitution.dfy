/** What a variable means: uncached recursive substitution over one project,
    and when that substitution succeeds. */
module Substitution {
  import opened Text
  import opened Templates
  import opened Resources

  datatype Domain = Domain(hostname: string, publicOutputName: string, internalOutputName: string, targetPort: string)

  /** `projectName` is absent when the project list does not hold the service's project. */
  datatype Service = Service(
    id: string, name: string, projectId: string, projectName: Option<string>, activeDeploymentId: Option<string>,
    environment: map<string, string>)

  /** The part of the mock state one resolution reads. `tables` holds the named
      outputs of each managed database or store. */
  datatype Project = Project(
    resources: seq<Resource>,
    services: map<string, Service>,
    domains: map<string, seq<Domain>>,
    tables: map<(Kind, string), map<string, string>>)

  datatype Error =
    | InvalidReference
    | NoSuchService
    | NoSuchResource(name: string)
    | NoSuchManaged(name: string)
    | NotExported(owner: string, output: string)
    | Cycle(key: string)

  /** A variable of a service's environment. */
  datatype Var = Var(service: string, name: string)

  /** The cache key `${sourceID}.${output}`. */
  function KeyOf(v: Var): string {
    v.service + "." + v.name
  }

  /** Keys do not collide: an output name has no dot, so the last dot splits the key. */
  lemma KeyIsInjective(v: Var, w: Var)
    requires IsOutputName(v.name) && IsOutputName(w.name) && KeyOf(v) == KeyOf(w)
    ensures v == w
  {
    var k := KeyOf(v);
    var i, j := |v.service|, |w.service|;
    assert k[i] == '.' && k[j] == '.';
    assert forall x :: i < x < |k| ==> k[x] == v.name[x - i - 1];
    assert forall x :: j < x < |k| ==> k[x] == w.name[x - j - 1];
    assert i == j;
    assert v.service == k[..i] == w.service;
    assert v.name == k[i + 1..] == w.name;
  }

  /** `new Map(resources.map(r => [r.name, r]))`: the last of equal names stays. */
  function ByName(resources: seq<Resource>): map<string, Resource> {
    if resources == [] then map[]
    else
      var last := resources[|resources| - 1];
      ByName(resources[..|resources| - 1])[last.name := last]
  }

  function FirstDomain(domains: seq<Domain>, output: string): Option<Domain> {
    if domains == [] then None
    else if domains[0].publicOutputName == output || domains[0].internalOutputName == output then Some(domains[0])
    else FirstDomain(domains[1..], output)
  }

  /** What a reference names: fixed text, a service variable, or nothing. */
  datatype Target = Constant(text: string) | Variable(v: Var) | Broken(error: Error)

  function ServiceTarget(p: Project, r: Resource, output: string): Target {
    if r.id in p.services && output in p.services[r.id].environment then Variable(Var(r.id, output))
    else
      var domain := FirstDomain(if r.id in p.domains then p.domains[r.id] else [], output);
      if r.id !in p.services || domain.None? then Broken(NotExported(r.name, output))
      else if domain.value.publicOutputName == output then Constant("https://" + domain.value.hostname)
      else
        var source := p.services[r.id];
        var project := if source.projectName.Some? then source.projectName.value else "project";
        Constant("http://" + source.name + "." + project + ".internal:" + domain.value.targetPort)
  }

  /** Outputs of everything that is not a service. A network gateway falls through
      to the object stores, where its id is never found. */
  function ManagedTarget(p: Project, r: Resource, output: string): Target {
    var kind := if r.kind.NetworkGatewayKind? then ObjectStoreKind else r.kind;
    if (kind, r.id) !in p.tables then Broken(NoSuchManaged(r.name))
    else if output !in p.tables[(kind, r.id)] then Broken(NotExported(r.name, output))
    else Constant(p.tables[(kind, r.id)][output])
  }

  function Lookup(p: Project, resource: string, output: string): (t: Target)
    ensures t.Variable? ==> t.v in Universe(p) && t.v.name == output
    ensures t.Broken? ==> !t.error.Cycle?
  {
    if resource !in ByName(p.resources) then Broken(NoSuchResource(resource))
    else
      var r := ByName(p.resources)[resource];
      if r.kind.ServiceKind? then ServiceTarget(p, r, output) else ManagedTarget(p, r, output)
  }

  /** Every variable of every service: finite, which is why resolution ends. */
  function Universe(p: Project): set<Var> {
    set id, name | id in p.services && name in p.services[id].environment :: Var(id, name)
  }

  function Body(p: Project, v: Var): seq<Token>
    requires v in Universe(p)
  {
    Tokens(p.services[v.service].environment[v.name])
  }

  /** Plain substitution, left to right, with no memory between references.
      `path` holds the variables being expanded around this text. */
  function Eval(p: Project, path: set<Var>, ts: seq<Token>): Result<string, Error>
    decreases Universe(p) - path, |ts|
  {
    if ts == [] then Ok("")
    else
      var head :- EvalToken(p, path, ts[0]);
      var rest :- Eval(p, path, ts[1..]);
      Ok(head + rest)
  }

  function EvalToken(p: Project, path: set<Var>, t: Token): Result<string, Error>
    decreases Universe(p) - path, 0
  {
    match t
    case Literal(text) => Ok(text)
    case Malformed => Err(InvalidReference)
    case Ref(resource, output) =>
      match Lookup(p, resource, output)
      case Constant(text) => Ok(text)
      case Broken(error) => Err(error)
      case Variable(v) => if v in path then Err(Cycle(KeyOf(v))) else Eval(p, path + {v}, Body(p, v))
  }

  function EvalVar(p: Project, path: set<Var>, v: Var): Result<string, Error>
    requires v in Universe(p)
  {
    Eval(p, path + {v}, Body(p, v))
  }

  // ---- What a reference means ----

  /** Index `i` holds the last resource of this name, the one a reference to the name is about. */
  ghost predicate IsNamed(rs: seq<Resource>, name: string, i: nat) {
    i < |rs| && rs[i].name == name && forall j :: i < j < |rs| ==> rs[j].name != name
  }

  lemma {:induction false} NamedIsFound(rs: seq<Resource>, name: string, i: nat)
    requires IsNamed(rs, name, i)
    ensures name in ByName(rs) && ByName(rs)[name] == rs[i]
  {
    if i < |rs| - 1 { NamedIsFound(rs[..|rs| - 1], name, i); }
  }

  lemma {:induction false} UnnamedIsNotFound(rs: seq<Resource>, name: string)
    requires forall r <- rs :: r.name != name
    ensures name !in ByName(rs)
  {
    if rs != [] { UnnamedIsNotFound(rs[..|rs| - 1], name); }
  }

  lemma UnknownResource(p: Project, path: set<Var>, resource: string, output: string)
    requires forall r <- p.resources :: r.name != resource
    ensures EvalToken(p, path, Ref(resource, output)) == Err(NoSuchResource(resource))
  {
    UnnamedIsNotFound(p.resources, resource);
  }

  /** A variable of a service is expanded in turn, unless it is being expanded already. */
  lemma VariableOutput(p: Project, path: set<Var>, resource: string, output: string, i: nat)
    requires IsNamed(p.resources, resource, i) && p.resources[i].kind == ServiceKind && p.resources[i].id in p.services
    requires output in p.services[p.resources[i].id].environment
    ensures var r := p.resources[i];
            EvalToken(p, path, Ref(resource, output)) ==
            if Var(r.id, output) in path then Err(Cycle(r.id + "." + output))
            else Eval(p, path + {Var(r.id, output)}, Tokens(p.services[r.id].environment[output]))
  {
    hide Eval, Tokens;
    NamedIsFound(p.resources, resource, i);
  }

  ghost predicate NamesDomain(domains: seq<Domain>, output: string, d: nat) {
    && d < |domains| && (domains[d].publicOutputName == output || domains[d].internalOutputName == output)
    && forall e :: 0 <= e < d ==> domains[e].publicOutputName != output && domains[e].internalOutputName != output
  }

  lemma {:induction false} FirstDomainIs(domains: seq<Domain>, output: string, d: nat)
    requires NamesDomain(domains, output, d)
    ensures FirstDomain(domains, output) == Some(domains[d])
  {
    if d > 0 { FirstDomainIs(domains[1..], output, d - 1); }
  }

  /** Otherwise the first domain with an output of that name gives its public address under its
      public name and the service's internal address under its internal name. */
  lemma DomainOutput(p: Project, path: set<Var>, resource: string, output: string, i: nat, d: nat)
    requires IsNamed(p.resources, resource, i) && p.resources[i].kind == ServiceKind && p.resources[i].id in p.services
    requires output !in p.services[p.resources[i].id].environment
    requires p.resources[i].id in p.domains && NamesDomain(p.domains[p.resources[i].id], output, d)
    ensures var service, domain := p.services[p.resources[i].id], p.domains[p.resources[i].id][d];
            var project := if service.projectName.Some? then service.projectName.value else "project";
            EvalToken(p, path, Ref(resource, output)) ==
            if domain.publicOutputName == output then Ok("https://" + domain.hostname)
            else Ok("http://" + service.name + "." + project + ".internal:" + domain.targetPort)
  {
    hide Eval;
    NamedIsFound(p.resources, resource, i);
    FirstDomainIs(p.domains[p.resources[i].id], output, d);
  }

  lemma {:induction false} NoDomain(domains: seq<Domain>, output: string)
    requires forall d <- domains :: d.publicOutputName != output && d.internalOutputName != output
    ensures FirstDomain(domains, output).None?
  {
    if domains != [] { NoDomain(domains[1..], output); }
  }

  lemma MissingOutput(p: Project, path: set<Var>, resource: string, output: string, i: nat)
    requires IsNamed(p.resources, resource, i) && p.resources[i].kind == ServiceKind
    requires var id := p.resources[i].id;
             || id !in p.services
             || (&& output !in p.services[id].environment
                 && (id in p.domains ==> forall d <- p.domains[id] :: d.publicOutputName != output && d.internalOutputName != output))
    ensures EvalToken(p, path, Ref(resource, output)) == Err(NotExported(resource, output))
  {
    hide Eval;
    NamedIsFound(p.resources, resource, i);
    var id := p.resources[i].id;
    if id in p.services { NoDomain(if id in p.domains then p.domains[id] else [], output); }
  }

  /** A database, cache or store has the outputs of its table; anything else is looked for
      among the stores. */
  lemma ManagedOutput(p: Project, path: set<Var>, resource: string, output: string, i: nat)
    requires IsNamed(p.resources, resource, i) && p.resources[i].kind != ServiceKind
    ensures var r := p.resources[i];
            var table := (if r.kind == PostgresKind then PostgresKind else if r.kind == RedisKind then RedisKind
                          else ObjectStoreKind, r.id);
            EvalToken(p, path, Ref(resource, output)) ==
            if table !in p.tables then Err(NoSuchManaged(resource))
            else if output !in p.tables[table] then Err(NotExported(resource, output))
            else Ok(p.tables[table][output])
  {
    hide Eval;
    NamedIsFound(p.resources, resource, i);
  }

  /** Text is read left to right: values are joined in order and the first error decides. */
  lemma {:induction false} EvalConcat(p: Project, path: set<Var>, a: seq<Token>, b: seq<Token>)
    ensures Eval(p, path, a + b) ==
            (var x, y := Eval(p, path, a), Eval(p, path, b);
             if x.Err? then x else if y.Err? then y else Ok(x.value + y.value))
    decreases |a|
  {
    hide EvalToken;
    if a == [] {
      assert a + b == b;
      assert Eval(p, path, b).Ok? ==> "" + Eval(p, path, b).value == Eval(p, path, b).value;
    } else {
      assert (a + b)[1..] == a[1..] + b;
      EvalConcat(p, path, a[1..], b);
      var h, x, y := EvalToken(p, path, a[0]), Eval(p, path, a[1..]), Eval(p, path, b);
      if h.Ok? && x.Ok? && y.Ok? { assert h.value + (x.value + y.value) == h.value + x.value + y.value; }
    }
  }

  lemma EvalOne(p: Project, path: set<Var>, t: Token)
    ensures Eval(p, path, [t]) == EvalToken(p, path, t)
    ensures t.Literal? ==> Eval(p, path, [t]) == Ok(t.text)
    ensures t.Malformed? ==> Eval(p, path, [t]) == Err(InvalidReference)
  {
    var r := EvalToken(p, path, t);
    assert Eval(p, path, [t][1..]) == Ok("");
    assert r.Ok? ==> r.value + "" == r.value;
  }

  // ---- When substitution succeeds ----

  /** Every opening is a reference and every reference names something. */
  predicate LocallyOk(p: Project, ts: seq<Token>) {
    forall t <- ts :: !t.Malformed? && (t.Ref? ==> !Lookup(p, t.resource, t.output).Broken?)
  }

  ghost predicate Refers(p: Project, ts: seq<Token>, v: Var) {
    exists t :: t in ts && t.Ref? && Lookup(p, t.resource, t.output) == Variable(v)
  }

  /** `vs` are variables each of which refers to the next. */
  ghost predicate Chain(p: Project, vs: seq<Var>) {
    && (forall i :: 0 <= i < |vs| ==> vs[i] in Universe(p))
    && (forall i :: 0 <= i < |vs| - 1 ==> Refers(p, Body(p, vs[i]), vs[i + 1]))
  }

  ghost predicate ReachesVia(p: Project, ts: seq<Token>, v: Var, vs: seq<Var>) {
    |vs| > 0 && Refers(p, ts, vs[0]) && Chain(p, vs) && vs[|vs| - 1] == v
  }

  /** Following references from the text `ts` leads to the variable `v`. */
  ghost predicate Reaches(p: Project, ts: seq<Token>, v: Var) {
    exists vs :: ReachesVia(p, ts, v, vs)
  }

  ghost predicate OnCycle(p: Project, v: Var)
    requires v in Universe(p)
  {
    Reaches(p, Body(p, v), v)
  }

  /** Reachability read one reference at a time. */
  lemma ReachesStep(p: Project, ts: seq<Token>, v: Var)
    ensures Reaches(p, ts, v) ==> v in Universe(p)
    ensures Reaches(p, ts, v) <==>
            || Refers(p, ts, v)
            || exists w :: w in Universe(p) && Refers(p, ts, w) && Reaches(p, Body(p, w), v)
  {
    hide Refers, Body, Universe, Chain;
    if Refers(p, ts, v) {
      ReachesOne(p, ts, v);
    }
    forall w | w in Universe(p) && Refers(p, ts, w) && Reaches(p, Body(p, w), v)
      ensures Reaches(p, ts, v)
    {
      var vs :| ReachesVia(p, Body(p, w), v, vs);
      ReachesMore(p, ts, w, v, vs);
    }
    forall vs | ReachesVia(p, ts, v, vs)
      ensures v in Universe(p)
      ensures |vs| > 1 ==> vs[0] in Universe(p) && ReachesVia(p, Body(p, vs[0]), v, vs[1..])
    {
      ReachesLess(p, ts, v, vs);
    }
  }

  lemma ReachesOne(p: Project, ts: seq<Token>, v: Var)
    requires Refers(p, ts, v)
    ensures v in Universe(p) && ReachesVia(p, ts, v, [v])
  {
  }

  lemma ReachesMore(p: Project, ts: seq<Token>, w: Var, v: Var, vs: seq<Var>)
    requires w in Universe(p) && Refers(p, ts, w) && ReachesVia(p, Body(p, w), v, vs)
    ensures ReachesVia(p, ts, v, [w] + vs)
  {
    hide Refers, Body, Universe;
    var path := [w] + vs;
    forall i | 0 <= i < |path| - 1
      ensures Refers(p, Body(p, path[i]), path[i + 1])
    {
      assert i > 0 ==> path[i] == vs[i - 1] && path[i + 1] == vs[i];
    }
  }

  lemma ReachesLess(p: Project, ts: seq<Token>, v: Var, vs: seq<Var>)
    requires ReachesVia(p, ts, v, vs)
    ensures v in Universe(p)
    ensures |vs| > 1 ==> vs[0] in Universe(p) && ReachesVia(p, Body(p, vs[0]), v, vs[1..])
  {
    hide Refers, Body, Universe;
    if |vs| > 1 {
      assert forall i :: 0 <= i < |vs[1..]| ==> vs[1..][i] == vs[i + 1];
      assert Refers(p, Body(p, vs[0]), vs[0 + 1]);
    }
  }

  lemma ReachesThrough(p: Project, ts: seq<Token>, w: Var, v: Var)
    requires w in Universe(p) && Refers(p, ts, w) && Reaches(p, Body(p, w), v)
    ensures Reaches(p, ts, v)
  {
    ReachesStep(p, ts, v);
  }

  /** What success with `path` in progress says about everything reachable. */
  ghost predicate Sound(p: Project, path: set<Var>, v: Var) {
    v in Universe(p) && v !in path && LocallyOk(p, Body(p, v)) && !OnCycle(p, v)
  }

  lemma {:induction false} SuccessIsSound(p: Project, path: set<Var>, ts: seq<Token>, v: Var)
    requires Eval(p, path, ts).Ok?
    ensures LocallyOk(p, ts)
    ensures Reaches(p, ts, v) ==> Sound(p, path, v)
    decreases Universe(p) - path, |ts|
  {
    TokenwiseOk(p, path, ts);
    if Reaches(p, ts, v) {
      ReachesStep(p, ts, v);
      var w :| w in Universe(p) && Refers(p, ts, w) && (w == v || Reaches(p, Body(p, w), v));
      ReferredOk(p, path, ts, w);
      SuccessIsSound(p, path + {w}, Body(p, w), v);
      SuccessIsSound(p, path + {w}, Body(p, w), w);
    }
  }

  lemma ReferredOk(p: Project, path: set<Var>, ts: seq<Token>, w: Var)
    requires w in Universe(p) && Refers(p, ts, w)
    requires forall t :: t in ts ==> EvalToken(p, path, t).Ok?
    ensures w !in path && Eval(p, path + {w}, Body(p, w)).Ok?
  {
    hide Lookup, Body;
    var t :| t in ts && t.Ref? && Lookup(p, t.resource, t.output) == Variable(w);
    assert EvalToken(p, path, t).Ok?;
  }

  /** Success of a text is success of each of its tokens. */
  lemma {:induction false} TokenwiseOk(p: Project, path: set<Var>, ts: seq<Token>)
    ensures Eval(p, path, ts).Ok? <==> forall t :: t in ts ==> EvalToken(p, path, t).Ok?
    decreases |ts|
  {
    hide EvalToken;
    if ts != [] {
      TokenwiseOk(p, path, ts[1..]);
      EvalOkStep(p, path, ts);
      TokensSplit(p, path, ts);
      hide Eval;
    }
  }

  lemma EvalOkStep(p: Project, path: set<Var>, ts: seq<Token>)
    requires ts != []
    ensures Eval(p, path, ts).Ok? <==> EvalToken(p, path, ts[0]).Ok? && Eval(p, path, ts[1..]).Ok?
  {
    hide EvalToken;
  }

  lemma TokensSplit(p: Project, path: set<Var>, ts: seq<Token>)
    requires ts != []
    ensures (forall t :: t in ts ==> EvalToken(p, path, t).Ok?) <==>
            EvalToken(p, path, ts[0]).Ok? && forall t :: t in ts[1..] ==> EvalToken(p, path, t).Ok?
  {
    hide EvalToken, Eval;
    assert forall t :: t in ts <==> t == ts[0] || t in ts[1..];
  }

  lemma {:induction false} SoundIsSuccess(p: Project, path: set<Var>, ts: seq<Token>)
    requires LocallyOk(p, ts)
    requires forall v :: Reaches(p, ts, v) ==> Sound(p, path, v)
    ensures Eval(p, path, ts).Ok?
    decreases Universe(p) - path, |ts|
  {
    TokenwiseOk(p, path, ts);
    forall t | t in ts
      ensures EvalToken(p, path, t).Ok?
    {
      if t.Ref? && Lookup(p, t.resource, t.output).Variable? {
        var w := Lookup(p, t.resource, t.output).v;
        assert Refers(p, ts, w);
        ReachesStep(p, ts, w);
        forall v | Reaches(p, Body(p, w), v)
          ensures Sound(p, path + {w}, v)
        {
          ReachesThrough(p, ts, w, v);
        }
        SoundIsSuccess(p, path + {w}, Body(p, w));
      }
    }
  }

  /** From this text on, every opening is a well-formed reference, every reference
      names an output, and no variable reaches itself. */
  ghost predicate Resolvable(p: Project, ts: seq<Token>) {
    && LocallyOk(p, ts)
    && (forall v :: Reaches(p, ts, v) ==> v in Universe(p) && LocallyOk(p, Body(p, v)) && !OnCycle(p, v))
  }

  /** Substitution succeeds exactly on resolvable text. */
  lemma SucceedsExactly(p: Project, ts: seq<Token>)
    ensures Eval(p, {}, ts).Ok? <==> Resolvable(p, ts)
  {
    if Eval(p, {}, ts).Ok? {
      forall v | Reaches(p, ts, v)
        ensures Sound(p, {}, v)
      {
        SuccessIsSound(p, {}, ts, v);
      }
      SuccessIsSound(p, {}, ts, Var("", ""));
    }
    if Resolvable(p, ts) {
      SoundIsSuccess(p, {}, ts);
    }
  }

  /** A cycle error names a variable that is reachable and is either in progress
      or refers back to itself. */
  lemma {:induction false} CycleWitness(p: Project, path: set<Var>, ts: seq<Token>, key: string) returns (v: Var)
    requires Eval(p, path, ts) == Err(Cycle(key))
    ensures KeyOf(v) == key && Reaches(p, ts, v) && v in Universe(p) && (v in path || OnCycle(p, v))
    decreases Universe(p) - path, |ts|
  {
    if EvalToken(p, path, ts[0]).Err? {
      v := Lookup(p, ts[0].resource, ts[0].output).v;
      assert Refers(p, ts, v);
      ReachesStep(p, ts, v);
      if v !in path {
        var w := v;
        v := CycleWitness(p, path + {w}, Body(p, w), key);
        ReachesThrough(p, ts, w, v);
      }
    } else {
      v := CycleWitness(p, path, ts[1..], key);
      assert forall w :: Refers(p, ts[1..], w) ==> Refers(p, ts, w);
      ReachesStep(p, ts, v);
      ReachesStep(p, ts[1..], v);
    }
  }

  /** A cycle is reported only where there is one, so shared references are never rejected. */
  lemma CycleIsReal(p: Project, ts: seq<Token>, key: string)
    requires Eval(p, {}, ts) == Err(Cycle(key))
    ensures exists v :: v in Universe(p) && KeyOf(v) == key && Reaches(p, ts, v) && OnCycle(p, v)
  {
    var v := CycleWitness(p, {}, ts, key);
  }

  /** A successful meaning does not depend on the variables in progress. */
  lemma {:induction false} PathIrrelevant(p: Project, small: set<Var>, path: set<Var>, ts: seq<Token>)
    requires small <= path && Eval(p, path, ts).Ok?
    ensures Eval(p, small, ts) == Eval(p, path, ts)
    decreases Universe(p) - path, |ts|
  {
    if ts != [] {
      PathIrrelevant(p, small, path, ts[1..]);
      var t := ts[0];
      if t.Ref? && Lookup(p, t.resource, t.output).Variable? {
        var v := Lookup(p, t.resource, t.output).v;
        PathIrrelevant(p, small + {v}, path + {v}, Body(p, v));
      }
    }
  }

  /** The meaning of a variable on its own. */
  function Meaning(p: Project, v: Var): Result<string, Error>
    requires v in Universe(p)
  {
    Eval(p, {}, Body(p, v))
  }

  /** Text with every variable reference replaced by that variable's own meaning. */
  function Replace(p: Project, ts: seq<Token>): Result<string, Error> {
    if ts == [] then Ok("")
    else
      var head :- (match ts[0]
                   case Literal(text) => Ok(text)
                   case Malformed => Err(InvalidReference)
                   case Ref(resource, output) =>
                     match Lookup(p, resource, output)
                     case Constant(text) => Ok(text)
                     case Broken(error) => Err(error)
                     case Variable(v) => Meaning(p, v));
      var rest :- Replace(p, ts[1..]);
      Ok(head + rest)
  }

  /** Substitution equation: whenever a text resolves, its value is the text with each
      reference replaced by the value of what it names, cycle bookkeeping aside. */
  lemma {:induction false} SubstitutionEquation(p: Project, path: set<Var>, ts: seq<Token>)
    requires Eval(p, path, ts).Ok?
    ensures Replace(p, ts) == Eval(p, path, ts)
    decreases |ts|
  {
    if ts != [] {
      SubstitutionEquation(p, path, ts[1..]);
      var t := ts[0];
      if t.Ref? && Lookup(p, t.resource, t.output).Variable? {
        var v := Lookup(p, t.resource, t.output).v;
        PathIrrelevant(p, {}, path + {v}, Body(p, v));
      }
    }
  }
}
