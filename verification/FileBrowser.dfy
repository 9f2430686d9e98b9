/** The container file browser's directory loader as a protocol: loads begin, their
    responses come back in any order, roots change and effects clean up in between. */
module FileBrowser {
  import opened Text

  datatype Tree = Tree(root: string, entries: seq<string>)

  /** One call of `loadDirectory` suspended at its `await`. */
  datatype Request = Request(path: string, replaceRoot: bool, generation: nat, aborted: bool)

  datatype Outcome = Arrived(tree: Tree) | AbortError | Failed(message: string)

  /** The component's refs and state. `inFlight` and `nextId` stand for the suspended calls
      and the identity of abort controllers. The last three fields are history: the
      generation each held listing was requested in, the generation whose root has arrived,
      and whether the current generation was begun by a root change. */
  datatype State = State(
    generation: nat,
    requests: map<string, nat>,
    loading: set<string>,
    entries: map<string, seq<string>>,
    root: string,
    expanded: set<string>,
    selected: Option<string>,
    error: Option<string>,
    inFlight: map<nat, Request>,
    nextId: nat,
    fetched: map<string, nat>,
    arrived: Option<nat>,
    rooted: bool)

  const INITIAL := State(0, map[], {}, map[], "/", {}, None, None, map[], 0, map[], None, false)

  predicate IsAbsolute(path: string) {
    path != "" && path[0] == '/' && '\0' !in path
  }

  /** The suspended calls after `controller.abort()` on every registered request. */
  function Aborted(inFlight: map<nat, Request>, requests: map<string, nat>): map<nat, Request> {
    map id | id in inFlight :: if id in requests.Values then inFlight[id].(aborted := true) else inFlight[id]
  }

  function AbortAll(s: State): State {
    s.(inFlight := Aborted(s.inFlight, s.requests), requests := map[])
  }

  /** A root change: a new generation with nothing in flight and nothing marked. */
  function Restart(s: State): State {
    AbortAll(s).(generation := s.generation + 1, loading := {}, rooted := true)
  }

  /** A new request, filed under its path and marked as loading. */
  function Register(s: State, path: string, replaceRoot: bool): State {
    s.(requests := s.requests[path := s.nextId],
       loading := s.loading + {path},
       inFlight := s.inFlight[s.nextId := Request(path, replaceRoot, s.generation, false)],
       nextId := s.nextId + 1)
  }

  /** `loadDirectory` up to its `await`. */
  function Begin(s: State, path: string, replaceRoot: bool): State {
    if !IsAbsolute(path) then s.(error := Some("Path must be absolute"))
    else if replaceRoot then Register(Restart(s), path, true)
    else if path in s.requests then s
    else Register(s, path, false)
  }

  /** What the resumed call does before its `finally`. */
  function Deliver(s: State, r: Request, outcome: Outcome): State {
    match outcome
    case AbortError => s
    case Failed(message) => s.(error := Some(message))
    case Arrived(tree) =>
      if r.generation != s.generation then s
      else if r.replaceRoot then
        s.(entries := map[tree.root := tree.entries], fetched := map[tree.root := r.generation],
           root := tree.root, expanded := {}, selected := None, error := None, arrived := Some(r.generation))
      else
        s.(entries := s.entries[tree.root := tree.entries], fetched := s.fetched[tree.root := r.generation],
           expanded := s.expanded + {tree.root}, error := None)
  }

  /** The `finally` block: a request takes down its own registration and mark, if it still
      has them. */
  function Release(s: State, id: nat, path: string): State {
    var t := if path in s.requests && s.requests[path] == id
             then s.(requests := s.requests - {path}, loading := s.loading - {path})
             else s;
    t.(inFlight := t.inFlight - {id})
  }

  /** `loadDirectory` from its `await` to the end. */
  function Settle(s: State, id: nat, outcome: Outcome): State
    requires id in s.inFlight
  {
    var r := s.inFlight[id];
    Release(Deliver(s, r, outcome), id, r.path)
  }

  /** The effect's clean-up, on unmount or when the resource changes. */
  function Cleanup(s: State): State {
    AbortAll(s).(generation := s.generation + 1, rooted := false)
  }

  function Toggle(s: State, path: string, directory: bool): State {
    if !directory then s
    else if path in s.expanded then s.(expanded := s.expanded - {path})
    else if path in s.entries then s.(expanded := s.expanded + {path})
    else Begin(s, path, false)
  }

  datatype Event =
    | Open(path: string)
    | Load(path: string)
    | Response(id: nat, outcome: Outcome)
    | Unmount
    | Click(path: string, directory: bool)
    | Select(path: string)

  function Next(s: State, e: Event): State {
    match e
    case Open(path) => Begin(s, path, true)
    case Load(path) => Begin(s, path, false)
    case Response(id, outcome) => if id in s.inFlight then Settle(s, id, outcome) else s
    case Unmount => Cleanup(s)
    case Click(path, directory) => Toggle(s, path, directory)
    case Select(path) => s.(selected := Some(path))
  }

  function Run(s: State, events: seq<Event>): State
    decreases |events|
  {
    if events == [] then s
    else Run(Next(s, events[0]), events[1..])
  }

  // ---- What every interleaving keeps ----

  ghost predicate Owns(s: State, id: nat) {
    id in s.inFlight && s.inFlight[id].path in s.requests && s.requests[s.inFlight[id].path] == id
  }

  /** Registered requests are live, current and filed under their own path; every other
      suspended call has been aborted. */
  ghost predicate Registered(s: State) {
    && (forall p :: p in s.requests ==> s.requests[p] in s.inFlight && s.inFlight[s.requests[p]].path == p)
    && (forall id :: id in s.inFlight ==> id < s.nextId && s.inFlight[id].generation <= s.generation)
    && (forall id :: id in s.inFlight ==> (Owns(s, id) <==> !s.inFlight[id].aborted))
    && (forall id :: Owns(s, id) ==> s.inFlight[id].generation == s.generation)
  }

  ghost predicate Inv(s: State) {
    && Registered(s)
    && s.requests.Keys <= s.loading
    && (s.rooted ==> s.loading == s.requests.Keys)
    && s.fetched.Keys == s.entries.Keys
    && (forall p :: p in s.fetched ==> s.fetched[p] <= s.generation)
    && (s.arrived.Some? ==> s.arrived.value <= s.generation)
    && (s.arrived == Some(s.generation) ==> forall p :: p in s.fetched ==> s.fetched[p] == s.generation)
  }

  lemma AbortAllKeeps(s: State)
    requires Registered(s)
    ensures var t := AbortAll(s);
            && t.inFlight.Keys == s.inFlight.Keys && t.requests == map[]
            && forall id :: id in t.inFlight ==> t.inFlight[id] == s.inFlight[id].(aborted := true)
  {
    forall id | id in s.inFlight
      ensures AbortAll(s).inFlight[id] == s.inFlight[id].(aborted := true)
    {
      if Owns(s, id) {
        assert s.requests[s.inFlight[id].path] in s.requests.Values;
      }
    }
  }

  /** Suspended calls keep the generation they began in, and generations only grow. */
  ghost predicate Ages(s: State, t: State) {
    && s.generation <= t.generation && s.nextId <= t.nextId
    && forall id :: id in t.inFlight && id < s.nextId ==>
         id in s.inFlight && t.inFlight[id].generation == s.inFlight[id].generation
  }

  lemma RestartKeeps(s: State)
    requires Inv(s)
    ensures Inv(Restart(s)) && Ages(s, Restart(s)) && Restart(s).requests == map[]
  {
    AbortAllKeeps(s);
  }

  lemma RegisterKeeps(s: State, path: string, replaceRoot: bool)
    requires Inv(s) && path !in s.requests
    ensures Inv(Register(s, path, replaceRoot)) && Ages(s, Register(s, path, replaceRoot))
  {
    var t := Register(s, path, replaceRoot);
    assert Registered(t) by {
      assert Owns(t, s.nextId);
      forall id | id in s.inFlight
        ensures Owns(t, id) <==> Owns(s, id)
      {
      }
    }
    hide Registered;
  }

  lemma BeginKeeps(s: State, path: string, replaceRoot: bool)
    requires Inv(s)
    ensures Inv(Begin(s, path, replaceRoot)) && Ages(s, Begin(s, path, replaceRoot))
  {
    hide Inv, Register, Restart;
    if !IsAbsolute(path) {
      RegistryKeeps(s, s.(error := Some("Path must be absolute")));
    } else if replaceRoot {
      RestartKeeps(s);
      RegisterKeeps(Restart(s), path, true);
    } else if path !in s.requests {
      RegisterKeeps(s, path, false);
    }
  }

  /** What is shown besides the listings has no part in the invariant. */
  lemma RegistryKeeps(s: State, t: State)
    requires Inv(s) && t == s.(expanded := t.expanded, selected := t.selected, error := t.error)
    ensures Inv(t)
  {
    SameRegistry(s, t);
    hide Registered;
  }

  lemma DeliverKeeps(s: State, r: Request, outcome: Outcome)
    requires Inv(s) && r.generation <= s.generation
    ensures Inv(Deliver(s, r, outcome)) && Ages(s, Deliver(s, r, outcome))
    ensures Deliver(s, r, outcome).inFlight == s.inFlight
  {
    hide Registered;
    SameRegistry(s, Deliver(s, r, outcome));
  }

  lemma SameRegistry(s: State, t: State)
    requires Registered(s)
    requires t.requests == s.requests && t.inFlight == s.inFlight && t.nextId == s.nextId && t.generation == s.generation
    ensures Registered(t)
  {
    assert forall id :: Owns(t, id) <==> Owns(s, id);
  }

  lemma ReleaseKeeps(s: State, id: nat)
    requires Inv(s) && id in s.inFlight
    ensures Inv(Release(s, id, s.inFlight[id].path)) && Ages(s, Release(s, id, s.inFlight[id].path))
  {
    var t := Release(s, id, s.inFlight[id].path);
    forall other
      ensures Owns(t, other) <==> Owns(s, other) && other != id
    {
    }
    forall p | p in t.requests
      ensures t.requests[p] in t.inFlight && t.inFlight[t.requests[p]].path == p
    {
    }
  }

  lemma SettleKeeps(s: State, id: nat, outcome: Outcome)
    requires Inv(s) && id in s.inFlight
    ensures Inv(Settle(s, id, outcome)) && Ages(s, Settle(s, id, outcome))
  {
    hide Deliver, Release;
    var r := s.inFlight[id];
    assert r.generation <= s.generation;
    DeliverKeeps(s, r, outcome);
    hide Inv;
    ReleaseKeeps(Deliver(s, r, outcome), id);
  }

  lemma CleanupKeeps(s: State)
    requires Inv(s)
    ensures Inv(Cleanup(s)) && Ages(s, Cleanup(s))
  {
    AbortAllKeeps(s);
  }

  lemma ViewKeeps(s: State, expanded: set<string>, selected: Option<string>)
    requires Inv(s)
    ensures var t := s.(expanded := expanded, selected := selected); Inv(t) && Ages(s, t)
  {
    hide Inv;
    RegistryKeeps(s, s.(expanded := expanded, selected := selected));
  }

  lemma NextKeeps(s: State, e: Event)
    requires Inv(s)
    ensures Inv(Next(s, e)) && Ages(s, Next(s, e))
  {
    hide Begin, Settle, Cleanup, Inv, Ages;
    ViewKeeps(s, s.expanded, s.selected);
    match e
    case Open(path) => BeginKeeps(s, path, true);
    case Load(path) => BeginKeeps(s, path, false);
    case Response(id, outcome) => if id in s.inFlight { SettleKeeps(s, id, outcome); }
    case Unmount => CleanupKeeps(s);
    case Click(path, directory) =>
      BeginKeeps(s, path, false);
      ViewKeeps(s, s.expanded - {path}, s.selected);
      ViewKeeps(s, s.expanded + {path}, s.selected);
    case Select(path) => ViewKeeps(s, s.expanded, Some(path));
  }

  lemma {:induction false} RunKeeps(s: State, events: seq<Event>)
    requires Inv(s)
    ensures Inv(Run(s, events)) && s.generation <= Run(s, events).generation
    decreases |events|
  {
    hide Next, Inv;
    if events != [] {
      NextKeeps(s, events[0]);
      RunKeeps(Next(s, events[0]), events[1..]);
    }
  }

  /** In every reachable state in which the current generation's root has arrived, every
      listing held was requested in that generation. */
  lemma ListingsAreCurrent(events: seq<Event>, p: string)
    requires var s := Run(INITIAL, events); s.arrived == Some(s.generation) && p in s.entries
    ensures var s := Run(INITIAL, events); p in s.fetched && s.fetched[p] == s.generation
  {
    RunKeeps(INITIAL, events);
  }

  /** A response of an older generation, in any reachable state, leaves the tree alone and
      clears no loading mark; only a failure other than an abort still writes the error line. */
  lemma StaleResponseIsInert(events: seq<Event>, id: nat, outcome: Outcome)
    requires var s := Run(INITIAL, events); id in s.inFlight && s.inFlight[id].generation != s.generation
    ensures var s := Run(INITIAL, events);
            Settle(s, id, outcome) ==
            s.(inFlight := s.inFlight - {id}, error := if outcome.Failed? then Some(outcome.message) else s.error)
  {
    RunKeeps(INITIAL, events);
  }

  /** Once overtaken, always overtaken: later events cannot revive a suspended call. */
  lemma {:induction false} OvertakenForGood(s: State, events: seq<Event>, id: nat)
    requires Inv(s) && id < s.nextId && (id in s.inFlight ==> s.inFlight[id].generation < s.generation)
    ensures var t := Run(s, events); id in t.inFlight ==> t.inFlight[id].generation < t.generation
    decreases |events|
  {
    hide Next, Inv;
    if events != [] {
      NextKeeps(s, events[0]);
      OvertakenForGood(Next(s, events[0]), events[1..], id);
    }
  }

  /** A loading mark goes away only with the request that owns it or with a root change. */
  lemma MarkClearedByOwner(s: State, e: Event, p: string)
    requires p in s.loading && p !in Next(s, e).loading
    ensures || (e.Open? && IsAbsolute(e.path))
            || (e.Response? && p in s.requests && s.requests[p] == e.id)
  {
    hide Settle, Begin, Cleanup;
    match e
    case Response(id, outcome) => if id in s.inFlight { SettleClears(s, id, outcome, p); }
    case Open(path) => if !IsAbsolute(path) { BeginMarks(s, path, true, p); }
    case Click(path, directory) => BeginMarks(s, path, false, p);
    case Load(path) => BeginMarks(s, path, false, p);
    case Unmount => CleanupMarks(s);
    case Select(_) =>
  }

  lemma SettleClears(s: State, id: nat, outcome: Outcome, p: string)
    requires id in s.inFlight && p in s.loading && p !in Settle(s, id, outcome).loading
    ensures p in s.requests && s.requests[p] == id
  {
    hide Deliver;
    DeliverLeavesRegistry(s, s.inFlight[id], outcome);
  }

  lemma BeginMarks(s: State, path: string, replaceRoot: bool, p: string)
    requires p in s.loading && !(replaceRoot && IsAbsolute(path))
    ensures p in Begin(s, path, replaceRoot).loading
  {
    hide Restart;
  }

  lemma CleanupMarks(s: State)
    ensures Cleanup(s).loading == s.loading
  {
    hide Aborted;
  }

  lemma DeliverLeavesRegistry(s: State, r: Request, outcome: Outcome)
    ensures var t := Deliver(s, r, outcome);
            t.requests == s.requests && t.inFlight == s.inFlight && t.loading == s.loading
  {
  }

  lemma MarksAreInFlight(s: State)
    requires Inv(s) && s.rooted
    ensures forall p :: p in s.loading ==> p in s.requests && s.requests[p] in s.inFlight
  {
  }

  /** No spinner outlives its request: once a root change began the generation and every
      call has settled, nothing is marked as loading. */
  lemma NoStuckSpinner(events: seq<Event>)
    requires var s := Run(INITIAL, events); s.rooted && s.inFlight == map[]
    ensures Run(INITIAL, events).loading == {}
  {
    RunKeeps(INITIAL, events);
    var s := Run(INITIAL, events);
    MarksAreInFlight(s);
  }

  /** At most one live request per path. */
  lemma OneLiveRequestPerPath(events: seq<Event>, i: nat, j: nat)
    requires var s := Run(INITIAL, events);
             && i in s.inFlight && j in s.inFlight && !s.inFlight[i].aborted && !s.inFlight[j].aborted
             && s.inFlight[i].path == s.inFlight[j].path
    ensures i == j
  {
    RunKeeps(INITIAL, events);
    var s := Run(INITIAL, events);
    assert Owns(s, i) && Owns(s, j);
  }

  /** Neither a root change nor a clean-up, nor the response to this call itself. */
  predicate Leaves(e: Event, id: nat) {
    !e.Unmount? && !(e.Open? && IsAbsolute(e.path)) && !(e.Response? && e.id == id)
  }

  /** Everything else a user or a response can do comes under it. */
  lemma MostEventsLeave(path: string, directory: bool, other: nat, outcome: Outcome, id: nat)
    ensures Leaves(Load(path), id) && Leaves(Click(path, directory), id) && Leaves(Select(path), id)
    ensures other != id ==> Leaves(Response(other, outcome), id)
    ensures path == "" || path[0] != '/' ==> Leaves(Open(path), id)
  {
  }

  lemma NextUndisturbed(s: State, e: Event, id: nat)
    requires Inv(s) && Owns(s, id) && Leaves(e, id)
    ensures var t := Next(s, e); Owns(t, id) && t.inFlight[id] == s.inFlight[id] && t.generation == s.generation
  {
    match e
    case Response(other, outcome) =>
      if other in s.inFlight {
        DeliverLeavesRegistry(s, s.inFlight[other], outcome);
        hide Deliver, Inv;
        DeliverStaysInGeneration(s, s.inFlight[other], outcome);
      }
    case Load(path) => BeginUndisturbed(s, path, id);
    case Click(path, directory) => hide Begin; BeginUndisturbed(s, path, id);
    case _ =>
  }

  lemma BeginUndisturbed(s: State, path: string, id: nat)
    requires Inv(s) && Owns(s, id)
    ensures var t := Begin(s, path, false);
            Owns(t, id) && t.inFlight[id] == s.inFlight[id] && t.generation == s.generation
  {
    assert id < s.nextId;
  }

  lemma DeliverStaysInGeneration(s: State, r: Request, outcome: Outcome)
    ensures Deliver(s, r, outcome).generation == s.generation
  {
  }

  /** A suspended call keeps its place through everything that is not a root change or a
      clean-up. */
  lemma {:induction false} RunUndisturbed(s: State, events: seq<Event>, id: nat)
    requires Inv(s) && Owns(s, id) && forall e <- events :: Leaves(e, id)
    ensures var t := Run(s, events); Owns(t, id) && t.inFlight[id] == s.inFlight[id] && t.generation == s.generation
    decreases |events|
  {
    hide Next, Inv, Leaves, Owns;
    if events != [] {
      assert events[0] in events;
      NextUndisturbed(s, events[0], id);
      NextKeeps(s, events[0]);
      RunUndisturbed(Next(s, events[0]), events[1..], id);
    }
  }

  /** However other loads, clicks and responses fall in between, the listing a root change
      asked for replaces the tree when it arrives, and its mark goes. */
  lemma RootChangeTakesEffect(s: State, path: string, events: seq<Event>, tree: Tree)
    requires Inv(s) && IsAbsolute(path) && forall e <- events :: Leaves(e, s.nextId)
    ensures var t := Run(Next(s, Open(path)), events);
            var u := Next(t, Response(s.nextId, Arrived(tree)));
            && u.root == tree.root && u.entries == map[tree.root := tree.entries]
            && u.expanded == {} && u.selected == None && u.error == None
            && u.arrived == Some(u.generation) && u.generation == s.generation + 1
            && path !in u.loading && path !in u.requests
  {
    var t0 := Next(s, Open(path));
    NextKeeps(s, Open(path));
    hide Inv;
    assert Owns(t0, s.nextId);
    RunUndisturbed(t0, events, s.nextId);
  }

  /** However other events fall in between, the listing a plain load asked for is added to the
      listings held when it arrives, opened, and nothing else of the tree changes. */
  lemma PlainLoadTakesEffect(s: State, path: string, events: seq<Event>, tree: Tree)
    requires Inv(s) && IsAbsolute(path) && path !in s.requests && forall e <- events :: Leaves(e, s.nextId)
    ensures var t := Run(Next(s, Load(path)), events);
            var u := Next(t, Response(s.nextId, Arrived(tree)));
            && u.entries == t.entries[tree.root := tree.entries] && u.expanded == t.expanded + {tree.root}
            && u.root == t.root && u.selected == t.selected && u.error == None
            && u.generation == t.generation == s.generation && u.arrived == t.arrived
            && u.loading == t.loading - {path} && u.requests == t.requests - {path}
  {
    var t0 := Next(s, Load(path));
    NextKeeps(s, Load(path));
    hide Inv;
    assert Owns(t0, s.nextId);
    RunUndisturbed(t0, events, s.nextId);
  }

  /** A failure of a registered request shows its message and clears its mark; an abort only
      clears the mark. The tree stays. */
  lemma FailureTakesEffect(s: State, id: nat, message: string)
    requires Inv(s) && Owns(s, id)
    ensures var path := s.inFlight[id].path;
            && Next(s, Response(id, Failed(message))) ==
               s.(error := Some(message), requests := s.requests - {path}, loading := s.loading - {path},
                  inFlight := s.inFlight - {id})
            && Next(s, Response(id, AbortError)) ==
               s.(requests := s.requests - {path}, loading := s.loading - {path}, inFlight := s.inFlight - {id})
  {
  }

  /** A path that does not begin at the root, or holds a NUL, is refused with a message. */
  lemma RefusedPath(s: State, path: string, replaceRoot: bool)
    requires path == "" || path[0] != '/' || '\0' in path
    ensures Begin(s, path, replaceRoot) == s.(error := Some("Path must be absolute"))
  {
  }

  /** A load that begins is filed, marked and in flight, and nothing else changes; one that is
      already under way is not repeated. */
  lemma LoadBegins(s: State, path: string)
    requires |path| > 0 && path[0] == '/' && '\0' !in path
    ensures Begin(s, path, false) ==
            if path in s.requests then s
            else s.(requests := s.requests[path := s.nextId], loading := s.loading + {path}, nextId := s.nextId + 1,
                    inFlight := s.inFlight[s.nextId := Request(path, false, s.generation, false)])
  {
  }

  /** A root change leaves one request and one mark, in a new generation, and every earlier call
      aborted and overtaken; what is shown stays until the answer. */
  lemma RootChangeBegins(s: State, path: string)
    requires Inv(s) && |path| > 0 && path[0] == '/' && '\0' !in path
    ensures var t := Begin(s, path, true);
            && t.generation == s.generation + 1 && t.rooted && t.requests == map[path := s.nextId] && t.loading == {path}
            && t.inFlight.Keys == s.inFlight.Keys + {s.nextId}
            && t.inFlight[s.nextId] == Request(path, true, t.generation, false)
            && (forall id :: id in s.inFlight ==> t.inFlight[id].aborted && t.inFlight[id].generation < t.generation)
            && t.entries == s.entries && t.root == s.root && t.expanded == s.expanded
            && t.selected == s.selected && t.error == s.error
  {
    hide Aborted;
    AbortAllKeeps(s);
    assert s.nextId !in s.inFlight;
  }

  /** A clean-up aborts and overtakes every call, forgets the requests and shows what it showed. */
  lemma CleanupOvertakes(s: State)
    requires Inv(s)
    ensures var t := Cleanup(s);
            && t.generation == s.generation + 1 && !t.rooted && t.requests == map[] && t.inFlight.Keys == s.inFlight.Keys
            && (forall id :: id in t.inFlight ==> t.inFlight[id].aborted && t.inFlight[id].generation < t.generation)
            && t.entries == s.entries && t.root == s.root && t.expanded == s.expanded
            && t.selected == s.selected && t.error == s.error && t.loading == s.loading
  {
    hide Aborted;
    AbortAllKeeps(s);
  }

  /** A click on a directory closes it if it is open, opens it if its listing is held, and
      otherwise loads it; a click on a file does nothing here. */
  lemma ToggleExactly(s: State, path: string)
    ensures Toggle(s, path, false) == s
    ensures path in s.expanded ==> Toggle(s, path, true) == s.(expanded := s.expanded - {path})
    ensures path !in s.expanded && path in s.entries ==> Toggle(s, path, true) == s.(expanded := s.expanded + {path})
    ensures path !in s.expanded && path !in s.entries ==> Toggle(s, path, true) == Next(s, Load(path))
  {
  }

  lemma SelectShows(s: State, path: string)
    ensures Next(s, Select(path)) == s.(selected := Some(path))
  {
  }

  // ---- The component ----

  /** The loader with its refs and hooks as fields. The suspended calls and the history are
      ghost: the component itself never sees them. */
  class Loader {
    var generation: nat
    var requests: map<string, nat>
    var loading: set<string>
    var entries: map<string, seq<string>>
    var root: string
    var expanded: set<string>
    var selected: Option<string>
    var error: Option<string>
    var nextId: nat
    ghost var inFlight: map<nat, Request>
    ghost var fetched: map<string, nat>
    ghost var arrived: Option<nat>
    ghost var rooted: bool

    ghost function View(): State
      reads this
    {
      State(generation, requests, loading, entries, root, expanded, selected, error, inFlight, nextId, fetched, arrived, rooted)
    }

    constructor ()
      ensures View() == INITIAL && Inv(View())
    {
      generation, requests, loading, entries, root := 0, map[], {}, map[], "/";
      expanded, selected, error, nextId := {}, None, None, 0;
      inFlight, fetched, arrived, rooted := map[], map[], None, false;
    }

    method ChangeRoot()
      modifies this
      ensures View() == Restart(old(View()))
    {
      hide Aborted;
      generation := generation + 1;
      inFlight := Aborted(inFlight, requests);
      requests := map[];
      loading := {};
      rooted := true;
    }

    method File(path: string, replaceRoot: bool) returns (controller: nat)
      modifies this
      ensures View() == Register(old(View()), path, replaceRoot)
      ensures controller == old(nextId)
    {
      controller := nextId;
      nextId := nextId + 1;
      requests := requests[path := controller];
      loading := loading + {path};
      inFlight := inFlight[controller := Request(path, replaceRoot, generation, false)];
    }

    /** Runs to the `await`; `call` is what the suspended closure remembers. */
    method LoadDirectory(path: string, replaceRoot: bool) returns (call: Option<(nat, Request)>)
      requires Inv(View())
      modifies this
      ensures Inv(View())
      ensures View() == Begin(old(View()), path, replaceRoot)
      ensures call.Some? ==> call.value.0 in inFlight && inFlight[call.value.0] == call.value.1
    {
      hide Inv;
      BeginKeeps(View(), path, replaceRoot);
      if !IsAbsolute(path) {
        error := Some("Path must be absolute");
        return None;
      }
      hide Restart;
      if replaceRoot {
        ChangeRoot();
      } else if path in requests {
        return None;
      }
      var controller := File(path, replaceRoot);
      return Some((controller, Request(path, replaceRoot, generation, false)));
    }

    method Accept(r: Request, tree: Tree)
      requires r.generation == generation
      modifies this
      ensures View() == Deliver(old(View()), r, Arrived(tree))
    {
      entries := (if r.replaceRoot then map[] else entries)[tree.root := tree.entries];
      fetched := (if r.replaceRoot then map[] else fetched)[tree.root := r.generation];
      if r.replaceRoot {
        root := tree.root;
        expanded := {};
        selected := None;
        arrived := Some(r.generation);
      } else {
        expanded := expanded + {tree.root};
      }
      error := None;
    }

    method Finish(id: nat, path: string)
      modifies this
      ensures View() == Release(old(View()), id, path)
    {
      if path in requests && requests[path] == id {
        requests := requests - {path};
        loading := loading - {path};
      }
      inFlight := inFlight - {id};
    }

    /** Resumes a suspended call with the outcome of its fetch. */
    method Resume(id: nat, r: Request, outcome: Outcome)
      requires Inv(View())
      requires id in inFlight && inFlight[id].path == r.path
      requires inFlight[id].replaceRoot == r.replaceRoot && inFlight[id].generation == r.generation
      modifies this
      ensures View() == Settle(old(View()), id, outcome) && Inv(View())
    {
      hide Release, Inv;
      SettleKeeps(View(), id, outcome);
      match outcome {
        case AbortError =>
        case Failed(message) => error := Some(message);
        case Arrived(tree) =>
          if r.generation == generation { Accept(r, tree); }
      }
      assert View() == Deliver(old(View()), old(View()).inFlight[id], outcome);
      Finish(id, r.path);
    }

    method ToggleDirectory(path: string, directory: bool) returns (call: Option<(nat, Request)>)
      requires Inv(View())
      modifies this
      ensures Inv(View())
      ensures View() == Toggle(old(View()), path, directory)
      ensures call.Some? ==> call.value.0 in inFlight && inFlight[call.value.0] == call.value.1
    {
      hide Inv, Begin;
      NextKeeps(View(), Click(path, directory));
      call := None;
      if !directory {
        return;
      }
      if path in expanded {
        expanded := expanded - {path};
      } else if path in entries {
        expanded := expanded + {path};
      } else {
        call := LoadDirectory(path, false);
      }
    }

    method Dispose()
      requires Inv(View())
      modifies this
      ensures Inv(View())
      ensures View() == Cleanup(old(View()))
    {
      hide Inv, Aborted;
      CleanupKeeps(View());
      inFlight := Aborted(inFlight, requests);
      generation := generation + 1;
      requests := map[];
      rooted := false;
    }
  }
}
