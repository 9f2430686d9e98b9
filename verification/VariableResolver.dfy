/** `MockEnvironmentResolution`: the memoising expander, proved to return exactly
    what uncached substitution returns. */
module VariableResolver {
  import opened Text
  import opened Sorting
  import opened Templates
  import opened Resources
  import opened Substitution

  function Elems<T>(s: seq<T>): set<T> {
    set x | x in s
  }

  function Prefixed(text: string, r: Result<string, Error>): Result<string, Error> {
    if r.Ok? then Ok(text + r.value) else r
  }

  /** One round of the expander's loop, seen from the specification. */
  lemma EvalRound(p: Project, path: set<Var>, value: string, cursor: nat, m: Match)
    requires cursor <= |value| && FindMatch(value, cursor) == Some(m)
    ensures var literal := value[cursor..m.start];
            var text := EvalToken(p, path, Ref(m.resource, m.output));
            Eval(p, path, TokensFrom(value, cursor)) ==
            if Includes(literal, OPENING) then Err(InvalidReference)
            else if text.Err? then text
            else Prefixed(literal + text.value, Eval(p, path, TokensFrom(value, m.end)))
    ensures forall w :: Refers(p, TokensFrom(value, cursor), w) ==>
              || Lookup(p, m.resource, m.output) == Variable(w)
              || Refers(p, TokensFrom(value, m.end), w)
  {
    hide FindMatch, Includes, Lookup;
    var head, mid, rest := LiteralToken(value[cursor..m.start]), Ref(m.resource, m.output), TokensFrom(value, m.end);
    var ts := TokensFrom(value, cursor);
    assert ts == [head, mid] + rest;
    assert ts[1..] == [mid] + rest && ts[1..][1..] == rest;
    assert Eval(p, path, ts[1..]).Ok? ==> Eval(p, path, rest).Ok?;
    if Eval(p, path, rest).Ok? && EvalToken(p, path, mid).Ok? && head.Literal? {
      var a, b, c := head.text, EvalToken(p, path, mid).value, Eval(p, path, rest).value;
      assert a + (b + c) == a + b + c;
    }
  }

  lemma EvalLast(p: Project, path: set<Var>, value: string, cursor: nat)
    requires cursor <= |value| && FindMatch(value, cursor).None?
    ensures Eval(p, path, TokensFrom(value, cursor)) ==
            if Includes(value[cursor..], OPENING) then Err(InvalidReference) else Ok(value[cursor..])
    ensures forall w :: !Refers(p, TokensFrom(value, cursor), w)
  {
    hide FindMatch, Includes, Lookup;
    var ts := TokensFrom(value, cursor);
    assert ts == [LiteralToken(value[cursor..])] && ts[1..] == [];
    assert Eval(p, path, ts[1..]) == Ok("");
    assert value[cursor..] + "" == value[cursor..];
  }

  /** Cached variables whose cached text is their meaning under any call stack that
      avoids them. */
  ghost predicate Settled(p: Project, known: set<Var>, cache: map<string, string>) {
    && (forall v :: v in known ==> v in Universe(p) && IsOutputName(v.name) && KeyOf(v) in cache)
    && (forall path, v :: v in known && path !! known ==> EvalVar(p, path, v) == Ok(cache[KeyOf(v)]))
  }

  /** Every cached text is the meaning of its variable. */
  lemma CachedIsMeaning(p: Project, known: set<Var>, cache: map<string, string>, v: Var)
    requires Settled(p, known, cache) && v in known
    ensures Meaning(p, v) == Ok(cache[KeyOf(v)])
  {
    assert EvalVar(p, {}, v) == Ok(cache[KeyOf(v)]);
    PathIrrelevant(p, {}, {} + {v}, Body(p, v));
  }

  /** A text that refers only to settled variables has one meaning for all call stacks
      that avoid them. */
  lemma {:induction false} SettledAgree(
      p: Project, known: set<Var>, cache: map<string, string>, one: set<Var>, other: set<Var>, ts: seq<Token>)
    requires Settled(p, known, cache) && one !! known && other !! known
    requires forall w :: Refers(p, ts, w) ==> w in known
    ensures Eval(p, one, ts) == Eval(p, other, ts)
    decreases |ts|
  {
    if ts != [] {
      var t := ts[0];
      assert forall w :: Refers(p, ts[1..], w) ==> Refers(p, ts, w);
      SettledAgree(p, known, cache, one, other, ts[1..]);
      if t.Ref? && Lookup(p, t.resource, t.output).Variable? {
        var v := Lookup(p, t.resource, t.output).v;
        assert Refers(p, ts, v);
        assert EvalVar(p, one, v) == EvalVar(p, other, v);
      }
    }
  }

  /** Finishing a variable settles it. */
  lemma SettleOne(p: Project, known: set<Var>, cache: map<string, string>, path: set<Var>, v: Var, text: string)
    requires Settled(p, known, cache)
    requires v in Universe(p) && IsOutputName(v.name) && v !in known && v !in path && path !! known
    requires forall w :: Refers(p, Body(p, v), w) ==> w in known
    requires EvalVar(p, path, v) == Ok(text)
    ensures Settled(p, known + {v}, cache[KeyOf(v) := text])
  {
    forall w | w in known
      ensures KeyOf(w) != KeyOf(v)
    {
      if KeyOf(w) == KeyOf(v) { KeyIsInjective(v, w); }
    }
    forall other: set<Var>, w | w in known + {v} && other !! known + {v}
      ensures EvalVar(p, other, w) == Ok(cache[KeyOf(v) := text][KeyOf(w)])
    {
      if w == v {
        SettledAgree(p, known, cache, path + {v}, other + {v}, Body(p, v));
      } else {
        assert other !! known;
      }
    }
  }

  // ---- The platform's own variables ----

  function OrEmpty(text: Option<string>): string {
    if text.Some? then text.value else ""
  }

  /** Set where the service does not set them itself. */
  function Defaults(service: Service): map<string, string> {
    var project, deployment := OrEmpty(service.projectName), OrEmpty(service.activeDeploymentId);
    map["NODE_ENV" := "production",
        "OTEL_EXPORTER_OTLP_ENDPOINT" := "http://otel-" + service.name + "." + project + ".internal:4318",
        "OTEL_EXPORTER_OTLP_PROTOCOL" := "http/protobuf",
        "OTEL_RESOURCE_ATTRIBUTES" :=
          "service.namespace=" + project + ",deployment.environment.name=production"
          + (if deployment == "" then "" else ",deployment.id=" + deployment),
        "OTEL_SERVICE_NAME" := service.name,
        "SENTRY_DSN" := "http://" + service.id + "@errors-" + service.name + "." + project + ".internal:9001/1"]
  }

  /** Set whatever the service says. */
  function Forced(p: Project, service: Service): map<string, string> {
    var project := OrEmpty(service.projectName);
    map["PLATFORMD_ENVIRONMENT" := "production",
        "PLATFORMD_PROJECT_ID" := service.projectId,
        "PLATFORMD_PROJECT_NAME" := project,
        "PLATFORMD_SERVICE_ID" := service.id,
        "PLATFORMD_SERVICE_NAME" := service.name,
        "PLATFORMD_PRIVATE_DOMAIN" := service.name + "." + project + ".internal",
        "PLATFORMD_DEPLOYMENT_ID" := OrEmpty(service.activeDeploymentId),
        "PLATFORMD_PUBLIC_URLS" := Join(Sort(PublicUrls(p, service.id), Less))]
  }

  function PublicUrls(p: Project, id: string): seq<string> {
    var domains := if id in p.domains then p.domains[id] else [];
    seq(|domains|, i requires 0 <= i < |domains| => "https://" + domains[i].hostname)
  }

  /** `urls.join(",")` */
  function Join(urls: seq<string>): string {
    if urls == [] then "" else if |urls| == 1 then urls[0] else urls[0] + "," + Join(urls[1..])
  }

  /** What one entry of an environment resolves to. */
  function Expansion(p: Project, environment: map<string, string>, name: string): Result<string, Error>
    requires name in environment
  {
    Eval(p, {}, Tokens(environment[name]))
  }

  /** The variables a service runs with: forced ones as they are, else its own expanded, else
      the defaults, and no others. */
  ghost predicate IsResolved(p: Project, service: Service, environment: map<string, string>, result: map<string, string>) {
    var defaults, forced := Defaults(service), Forced(p, service);
    && result.Keys == environment.Keys + defaults.Keys + forced.Keys
    && forall name :: name in result ==>
         if name in forced then result[name] == forced[name]
         else if name in environment then Expansion(p, environment, name) == Ok(result[name])
         else name in defaults && result[name] == defaults[name]
  }

  lemma Merged(p: Project, service: Service, environment: map<string, string>, own: map<string, string>)
    requires own.Keys == environment.Keys
    requires forall name :: name in environment ==> Expansion(p, environment, name) == Ok(own[name])
    ensures IsResolved(p, service, environment, Defaults(service) + own + Forced(p, service))
  {
    hide Defaults, Forced, Expansion;
  }

  class Resolution {
    const project: Project
    const serviceId: string
    const resources: map<string, Resource>
    var cache: map<string, string>
    var resolving: set<string>
    ghost var known: set<Var>

    /** `stack` is the chain of variables being expanded: `resolving` holds exactly its
        keys, no variable is on it twice, and it shares nothing with the cache. */
    ghost predicate Valid(stack: seq<Var>)
      reads this
    {
      && serviceId in project.services && resources == ByName(project.resources)
      && (forall v <- stack :: v in Universe(project) && IsOutputName(v.name))
      && (forall i, j :: 0 <= i < j < |stack| ==> stack[i] != stack[j])
      && resolving == (set v | v in stack :: KeyOf(v))
      && cache.Keys == (set v | v in known :: KeyOf(v))
      && Elems(stack) !! known
      && Settled(project, known, cache)
    }

    /** The source's constructor throws when there is no such service. */
    constructor (project: Project, serviceId: string)
      requires serviceId in project.services
      ensures Valid([]) && this.project == project && this.serviceId == serviceId && known == {}
    {
      this.project, this.serviceId := project, serviceId;
      resources := ByName(project.resources);
      cache, resolving, known := map[], {}, {};
    }

    method Expand(value: string, ghost stack: seq<Var>) returns (r: Result<string, Error>)
      requires Valid(stack)
      modifies this
      ensures r == Eval(project, Elems(stack), Tokens(value))
      ensures r.Ok? ==> Valid(stack) && old(known) <= known
      ensures r.Ok? ==> forall w :: Refers(project, Tokens(value), w) ==> w in known
      decreases Universe(project) - Elems(stack), 3
    {
      hide FindMatch, Eval, EvalToken, TokensFrom, Refers, Lookup, Includes, Settled;
      var cursor := 0;
      var result := "";
      ghost var path := Elems(stack);
      var found := FindMatch(value, cursor);
      PrefixedEmpty(Eval(project, path, Tokens(value)));
      while found.Some?
        invariant cursor <= |value| && found == FindMatch(value, cursor)
        invariant Valid(stack) && old(known) <= known
        invariant Eval(project, path, Tokens(value)) == Prefixed(result, Eval(project, path, TokensFrom(value, cursor)))
        invariant forall w :: Refers(project, Tokens(value), w) ==> w in known || Refers(project, TokensFrom(value, cursor), w)
        decreases |value| - cursor
      {
        var m := found.value;
        EvalRound(project, path, value, cursor, m);
        var literal := value[cursor..m.start];
        if Includes(literal, OPENING) {
          return Err(InvalidReference);
        }
        var text := Reference(m.resource, m.output, stack);
        if text.Err? {
          return text;
        }
        assert result + (literal + text.value) == result + literal + text.value;
        PrefixedTwice(result, literal + text.value, Eval(project, path, TokensFrom(value, m.end)));
        result := result + literal + text.value;
        cursor := m.end;
        found := FindMatch(value, cursor);
      }
      EvalLast(project, path, value, cursor);
      if Includes(value[cursor..], OPENING) {
        return Err(InvalidReference);
      }
      return Ok(result + value[cursor..]);
    }

    /** `resolve`: expands the entries in order, then fills in what the service leaves
        unset and forces the platform's own variables. */
    method Resolve(names: seq<string>, environment: map<string, string>) returns (r: Result<map<string, string>, Error>)
      requires Valid([])
      requires Elems(names) == environment.Keys
      modifies this
      ensures r.Ok? <==> forall name <- names :: Expansion(project, environment, name).Ok?
      ensures r.Err? ==> exists i :: 0 <= i < |names| && Expansion(project, environment, names[i]) == Err(r.error)
                                     && forall j :: 0 <= j < i ==> Expansion(project, environment, names[j]).Ok?
      ensures r.Ok? ==> IsResolved(project, project.services[serviceId], environment, r.value)
    {
      hide Eval, Tokens, Settled, Defaults, Forced, IsResolved;
      var result: map<string, string> := map[];
      for i := 0 to |names|
        invariant Valid([])
        invariant result.Keys == Elems(names[..i])
        invariant forall j :: 0 <= j < i ==> Expansion(project, environment, names[j]) == Ok(result[names[j]])
      {
        var value := Expand(environment[names[i]], []);
        assert Elems<Var>([]) == {};
        assert value == Expansion(project, environment, names[i]);
        if value.Err? {
          return Err(value.error);
        }
        assert names[..i + 1] == names[..i] + [names[i]];
        result := result[names[i] := value.value];
      }
      assert names[..|names|] == names;
      var service := project.services[serviceId];
      Merged(project, service, environment, result);
      return Ok(Defaults(service) + result + Forced(project, service));
    }

    method Reference(resource: string, output: string, ghost stack: seq<Var>) returns (r: Result<string, Error>)
      requires Valid(stack) && IsOutputName(output)
      modifies this
      ensures r == EvalToken(project, Elems(stack), Ref(resource, output))
      ensures r.Ok? ==> Valid(stack) && old(known) <= known
      ensures r.Ok? && Lookup(project, resource, output).Variable? ==> Lookup(project, resource, output).v in known
      decreases Universe(project) - Elems(stack), 2
    {
      hide Settled, IsOutputName, Eval;
      if resource !in resources {
        return Err(NoSuchResource(resource));
      }
      var found := resources[resource];
      if found.kind.ServiceKind? {
        r := ServiceOutput(found, output, stack);
      } else {
        var target := ManagedTarget(project, found, output);
        r := if target.Constant? then Ok(target.text) else Err(target.error);
      }
    }

    method ServiceOutput(found: Resource, output: string, ghost stack: seq<Var>) returns (r: Result<string, Error>)
      requires Valid(stack) && IsOutputName(output)
      modifies this
      ensures var target := ServiceTarget(project, found, output);
              && (target.Constant? ==> r == Ok(target.text))
              && (target.Broken? ==> r == Err(target.error))
              && (target.Variable? && target.v in Elems(stack) ==> r == Err(Cycle(KeyOf(target.v))))
              && (target.Variable? && target.v !in Elems(stack) ==> r == EvalVar(project, Elems(stack), target.v))
              && (target.Variable? && r.Ok? ==> target.v in known)
      ensures r.Ok? ==> Valid(stack) && old(known) <= known
      decreases Universe(project) - Elems(stack), 1
    {
      hide Settled, IsOutputName, EvalVar;
      if found.id in project.services && output in project.services[found.id].environment {
        r := ServiceVariable(found.id, output, stack);
        return;
      }
      var domain := FirstDomain(if found.id in project.domains then project.domains[found.id] else [], output);
      if found.id !in project.services || domain.None? {
        return Err(NotExported(found.name, output));
      }
      if domain.value.publicOutputName == output {
        return Ok("https://" + domain.value.hostname);
      }
      var source := project.services[found.id];
      var name := if source.projectName.Some? then source.projectName.value else "project";
      return Ok("http://" + source.name + "." + name + ".internal:" + domain.value.targetPort);
    }

    method ServiceVariable(sourceId: string, output: string, ghost stack: seq<Var>) returns (r: Result<string, Error>)
      requires Valid(stack) && IsOutputName(output)
      modifies this
      ensures var v := Var(sourceId, output);
              && (v !in Universe(project) ==> r.Err? && r.error.NotExported?)
              && (v in Elems(stack) ==> r == Err(Cycle(KeyOf(v))))
              && (v in Universe(project) && v !in Elems(stack) ==> r == EvalVar(project, Elems(stack), v))
              && (r.Ok? ==> v in known)
      ensures r.Ok? ==> Valid(stack) && old(known) <= known
      decreases Universe(project) - Elems(stack), 0
    {
      hide Eval, Tokens, IsOutputName;
      ghost var v := Var(sourceId, output);
      var key := sourceId + "." + output;
      KeyTells(v, stack);
      if key in cache {
        return Ok(cache[key]);
      }
      if key in resolving {
        return Err(Cycle(key));
      }
      if sourceId !in project.services || output !in project.services[sourceId].environment {
        var owner := if sourceId in project.services then project.services[sourceId].name else sourceId;
        return Err(NotExported(owner, output));
      }
      resolving := resolving + {key};
      ghost var deeper := stack + [v];
      assert Elems(deeper) == Elems(stack) + {v};
      assert resolving == (set w | w in deeper :: KeyOf(w));
      var value := Expand(project.services[sourceId].environment[output], deeper);
      if value.Err? {
        return value;
      }
      KeyTells(v, stack);
      SettleOne(project, known, cache, Elems(stack), v, value.value);
      resolving := resolving - {key};
      cache := cache[key := value.value];
      known := known + {v};
      KeysWithout(stack, v);
      return value;
    }

    /** A key is cached or in progress exactly when its variable is. */
    lemma KeyTells(v: Var, stack: seq<Var>)
      requires resources == ByName(project.resources) && IsOutputName(v.name)
      requires forall w <- known :: IsOutputName(w.name)
      requires forall w <- stack :: IsOutputName(w.name)
      requires cache.Keys == (set w | w in known :: KeyOf(w))
      ensures KeyOf(v) in cache <==> v in known
      ensures KeyOf(v) in (set w | w in stack :: KeyOf(w)) <==> v in stack
    {
      forall w | (w in known || w in stack) && KeyOf(w) == KeyOf(v)
        ensures w == v
      {
        KeyIsInjective(v, w);
      }
    }
  }

  lemma PrefixedEmpty(r: Result<string, Error>)
    ensures Prefixed("", r) == r
  {
    if r.Ok? { assert "" + r.value == r.value; }
  }

  lemma PrefixedTwice(a: string, b: string, r: Result<string, Error>)
    ensures Prefixed(a, Prefixed(b, r)) == Prefixed(a + b, r)
  {
    if r.Ok? { assert a + (b + r.value) == a + b + r.value; }
  }

  /** Leaving a variable takes exactly its key off the in-progress set. */
  lemma KeysWithout(stack: seq<Var>, v: Var)
    requires IsOutputName(v.name) && v !in stack && forall w <- stack :: IsOutputName(w.name)
    ensures (set w | w in stack + [v] :: KeyOf(w)) - {KeyOf(v)} == (set w | w in stack :: KeyOf(w))
  {
    forall w | w in stack
      ensures KeyOf(w) != KeyOf(v)
    {
      if KeyOf(w) == KeyOf(v) { KeyIsInjective(v, w); }
    }
    assert forall w :: w in stack + [v] <==> w in stack || w == v;
  }

  /** `resolveMockEnvironment`: a fresh resolution of one service's own environment. */
  method ResolveMockEnvironment(p: Project, serviceId: string, names: seq<string>)
      returns (r: Result<map<string, string>, Error>)
    requires serviceId in p.services ==> Elems(names) == p.services[serviceId].environment.Keys
    ensures serviceId !in p.services ==> r == Err(NoSuchService)
    ensures serviceId in p.services ==>
              var service := p.services[serviceId];
              && (r.Ok? <==> forall name :: name in service.environment ==> Resolvable(p, Tokens(service.environment[name])))
              && (r.Err? && r.error.Cycle? ==> exists v :: v in Universe(p) && KeyOf(v) == r.error.key && OnCycle(p, v))
              && (r.Ok? ==> IsResolved(p, service, service.environment, r.value))
    ensures serviceId in p.services && r.Ok? ==>
              var service := p.services[serviceId];
              forall name :: name in service.environment && name !in Forced(p, service) ==>
                name in r.value && Replace(p, Tokens(service.environment[name])) == Ok(r.value[name])
  {
    hide Defaults, Forced;
    if serviceId !in p.services {
      return Err(NoSuchService);
    }
    var environment := p.services[serviceId].environment;
    var resolution := new Resolution(p, serviceId);
    r := resolution.Resolve(names, environment);
    forall name | name in environment
      ensures Expansion(p, environment, name).Ok? <==> Resolvable(p, Tokens(environment[name]))
      ensures Expansion(p, environment, name).Ok? ==>
                Replace(p, Tokens(environment[name])) == Expansion(p, environment, name)
    {
      SucceedsExactly(p, Tokens(environment[name]));
      if Expansion(p, environment, name).Ok? {
        SubstitutionEquation(p, {}, Tokens(environment[name]));
      }
    }
    if r.Err? && r.error.Cycle? {
      var i :| 0 <= i < |names| && Expansion(p, environment, names[i]) == Err(r.error);
      CycleIsReal(p, Tokens(environment[names[i]]), r.error.key);
    }
  }

  /** What stands under each of the platform's names. */
  lemma ForcedValues(p: Project, service: Service)
    ensures var forced, project := Forced(p, service), OrEmpty(service.projectName);
            && Stands(forced, "PLATFORMD_ENVIRONMENT", "production")
            && Stands(forced, "PLATFORMD_PROJECT_ID", service.projectId)
            && Stands(forced, "PLATFORMD_PROJECT_NAME", project)
            && Stands(forced, "PLATFORMD_SERVICE_ID", service.id)
            && Stands(forced, "PLATFORMD_SERVICE_NAME", service.name)
            && Stands(forced, "PLATFORMD_PRIVATE_DOMAIN", service.name + "." + project + ".internal")
            && Stands(forced, "PLATFORMD_DEPLOYMENT_ID", OrEmpty(service.activeDeploymentId))
            && Stands(forced, "PLATFORMD_PUBLIC_URLS", Join(Sort(PublicUrls(p, service.id), Less)))
  {
  }

  lemma DefaultValues(service: Service)
    ensures var defaults, project := Defaults(service), OrEmpty(service.projectName);
            && Stands(defaults, "NODE_ENV", "production")
            && Stands(defaults, "OTEL_SERVICE_NAME", service.name)
            && Stands(defaults, "OTEL_EXPORTER_OTLP_PROTOCOL", "http/protobuf")
            && Stands(defaults, "OTEL_EXPORTER_OTLP_ENDPOINT", "http://otel-" + service.name + "." + project + ".internal:4318")
            && Stands(defaults, "SENTRY_DSN",
                      "http://" + service.id + "@errors-" + service.name + "." + project + ".internal:9001/1")
  {
  }

  lemma DefaultAttributes(service: Service)
    ensures var project, deployment := OrEmpty(service.projectName), OrEmpty(service.activeDeploymentId);
            Stands(Defaults(service), "OTEL_RESOURCE_ATTRIBUTES",
                   "service.namespace=" + project + ",deployment.environment.name=production"
                   + (if deployment == "" then "" else ",deployment.id=" + deployment))
  {
  }

  ghost predicate Stands(result: map<string, string>, name: string, value: string) {
    name in result && result[name] == value
  }

  /** A platform variable cannot be overridden; a default stands where nothing else is set. */
  lemma PlatformWins(p: Project, service: Service, environment: map<string, string>, result: map<string, string>, name: string)
    requires IsResolved(p, service, environment, result)
    ensures name in Forced(p, service) ==> Stands(result, name, Forced(p, service)[name])
    ensures name in Defaults(service) && name !in environment && name !in Forced(p, service) ==>
              Stands(result, name, Defaults(service)[name])
  {
    hide Defaults, Forced;
  }

  lemma EmptyWhenAbsent(text: string)
    ensures OrEmpty(None) == "" && OrEmpty(Some(text)) == text
  {
  }

  /** Joining puts one comma between neighbours. */
  lemma {:induction false} JoinConcat(a: seq<string>, b: seq<string>, url: string)
    ensures Join([]) == "" && Join([url]) == url
    ensures a != [] && b != [] ==> Join(a + b) == Join(a) + "," + Join(b)
    decreases |a|
  {
    if a != [] && b != [] {
      assert (a + b)[1..] == a[1..] + b;
      if |a| > 1 {
        JoinConcat(a[1..], b, url);
        assert a[0] + "," + (Join(a[1..]) + "," + Join(b)) == a[0] + "," + Join(a[1..]) + "," + Join(b);
      } else {
        assert (a + b)[1..] == b;
      }
    }
  }

  /** The public URLs are listed in string order, each as often as there is a domain for it. */
  lemma PublicUrlsAreSorted(p: Project, id: string)
    ensures var urls := Sort(PublicUrls(p, id), Less);
            Ordered(urls, Less) && multiset(urls) == multiset(PublicUrls(p, id))
    ensures id !in p.domains ==> PublicUrls(p, id) == []
    ensures id in p.domains ==> |PublicUrls(p, id)| == |p.domains[id]|
                                && forall i :: 0 <= i < |p.domains[id]| ==> PublicUrls(p, id)[i] == "https://" + p.domains[id][i].hostname
  {
    LessIsOrder();
    SortIsOrdered(PublicUrls(p, id), Less);
    SortIsPermutation(PublicUrls(p, id), Less);
  }
}
