/** The control plane as a value: projects, their canvases, their denormalised counters
    and the five stores, with each request one step. */
module Plane {
  import opened Text
  import opened Resources

  datatype Entry = Entry(projectId: string, updatedAt: int)

  datatype Project = Project(name: string, hasIcon: bool, counts: map<Kind, int>, resources: seq<Resource>)

  /** `order` is the project list; `volumes` maps a service to its volume identifiers. */
  datatype Plane = Plane(
    order: seq<string>,
    projects: map<string, Project>,
    stores: map<Kind, map<string, Entry>>,
    volumes: map<string, seq<string>>,
    sequence: nat)

  const KINDS: set<Kind> := {ServiceKind, PostgresKind, RedisKind, ObjectStoreKind, NetworkGatewayKind}

  const NO_COUNTS: map<Kind, int> := map k | k in KINDS :: 0

  const EMPTY := Plane([], map[], map k | k in KINDS :: map[], map[], 100)

  function Prefix(kind: Kind): string {
    match kind
    case ServiceKind => "service"
    case PostgresKind => "postgres"
    case RedisKind => "redis"
    case ObjectStoreKind => "object-store"
    case NetworkGatewayKind => "network-gateway"
  }

  function CountKind(rs: seq<Resource>, kind: Kind): nat {
    if rs == [] then 0 else (if rs[0].kind == kind then 1 else 0) + CountKind(rs[1..], kind)
  }

  function OtherThan(id: string): Resource -> bool {
    (r: Resource) => r.id != id
  }

  /** `resources.filter(r => r.id !== id)` */
  function Without(rs: seq<Resource>, id: string): seq<Resource> {
    Filter(rs, OtherThan(id))
  }

  /** `resources.map(r => r.id === id ? replacement : r)` */
  function Replaced(rs: seq<Resource>, replacement: Resource): seq<Resource> {
    seq(|rs|, i requires 0 <= i < |rs| => if rs[i].id == replacement.id then replacement else rs[i])
  }

  function OtherId(id: string): string -> bool {
    (x: string) => x != id
  }

  function WithoutId(order: seq<string>, id: string): seq<string> {
    Filter(order, OtherId(id))
  }

  // ---- The requests ----

  function CreateProject(s: Plane, name: string): Plane {
    var id := MockId("project", s.sequence + 1);
    s.(order := s.order + [id],
       projects := s.projects[id := Project(name, false, NO_COUNTS, [])],
       sequence := s.sequence + 1)
  }

  function VolumeIds(first: nat, count: nat): seq<string> {
    seq(count, i requires 0 <= i < count => MockId("volume", first + i))
  }

  /** Puts a resource into its store, onto its canvas and into its project's counter, and a
      service's volumes into theirs. */
  function Insert(s: Plane, kind: Kind, projectId: string, r: Resource, updatedAt: int): Plane
    requires kind in s.stores && projectId in s.projects
  {
    s.(stores := s.stores[kind := s.stores[kind][r.id := Entry(projectId, updatedAt)]],
       projects := s.projects[projectId := Grown(s.projects[projectId], r)],
       volumes := if kind.ServiceKind? then s.volumes[r.id := r.volumes] else s.volumes)
  }

  /** What a creation lists: a fresh identifier, and for services the volumes asked for. */
  function Created(s: Plane, kind: Kind, name: string, volumeCount: nat): Resource {
    Resource(MockId(Prefix(kind), s.sequence + 1), kind, name, VolumeIds(s.sequence + 2, Extra(kind, volumeCount)))
  }

  /** Only services come with volumes. */
  function Extra(kind: Kind, volumeCount: nat): nat {
    if kind.ServiceKind? then volumeCount else 0
  }

  /** Creation of any of the five kinds. */
  function CreateResource(s: Plane, kind: Kind, projectId: string, name: string, updatedAt: int, volumeCount: nat): Plane
    requires kind in s.stores
  {
    if projectId !in s.projects then s
    else
      Insert(s.(sequence := s.sequence + 1 + Extra(kind, volumeCount)), kind, projectId,
             Created(s, kind, name, volumeCount), updatedAt)
  }

  /** A project after a resource is pushed onto its canvas and its counter touched. */
  function Grown(p: Project, r: Resource): Project {
    p.(resources := p.resources + [r], counts := p.counts[r.kind := Count(p, r.kind) + 1])
  }

  /** A project after one of its resources is filtered out of its canvas. */
  function Shrunk(p: Project, kind: Kind, id: string): Project {
    p.(resources := Without(p.resources, id), counts := p.counts[kind := Decremented(kind, Count(p, kind))])
  }

  function Count(p: Project, kind: Kind): int {
    if kind in p.counts then p.counts[kind] else 0
  }

  /** The counter after a deletion: gateways subtract, everything else clamps at zero. */
  function Decremented(kind: Kind, count: int): int {
    if kind.NetworkGatewayKind? || count >= 1 then count - 1 else 0
  }

  /** Deletion of one resource, found in its store by identifier. */
  function DeleteResource(s: Plane, kind: Kind, id: string): Plane
    requires kind in s.stores
  {
    if id !in s.stores[kind] then s
    else
      var owner := s.stores[kind][id].projectId;
      var t := s.(stores := s.stores[kind := s.stores[kind] - {id}],
                  volumes := if kind.ServiceKind? then s.volumes - {id} else s.volumes);
      if owner !in t.projects then t
      else
        t.(projects := t.projects[owner := Shrunk(t.projects[owner], kind, id)])
  }

  function RenameGateway(s: Plane, id: string, name: string): Plane
    requires NetworkGatewayKind in s.stores
  {
    if id !in s.stores[NetworkGatewayKind] then s
    else
      var owner := s.stores[NetworkGatewayKind][id].projectId;
      if owner !in s.projects then s
      else
        var p := s.projects[owner];
        s.(projects := s.projects[owner := p.(resources := Replaced(p.resources, Resource(id, NetworkGatewayKind, name, [])))])
  }

  function SetIcon(s: Plane, projectId: string, hasIcon: bool): Plane {
    if projectId !in s.projects then s
    else s.(projects := s.projects[projectId := s.projects[projectId].(hasIcon := hasIcon)])
  }

  /** `...spread` of a stored resource with a new version. */
  function Touch(s: Plane, kind: Kind, id: string, updatedAt: int): Plane
    requires kind in s.stores
  {
    if id !in s.stores[kind] then s
    else s.(stores := s.stores[kind := s.stores[kind][id := s.stores[kind][id].(updatedAt := updatedAt)]])
  }

  function VolumesOf(s: Plane, sid: string): seq<string> {
    if sid in s.volumes then s.volumes[sid] else []
  }

  function HasId(id: string): Resource -> bool {
    (r: Resource) => r.id == id
  }

  /** The first entry with this identifier on a project's canvas, if there is one. */
  function Spot(s: Plane, projectId: string, id: string): Option<nat> {
    if projectId !in s.projects then None
    else
      var rs := s.projects[projectId].resources;
      var i := FindIndex(rs, HasId(id));
      if i < |rs| then Some(i) else None
  }

  function Volumes(rs: seq<Resource>, i: nat, volumes: seq<string>): seq<Resource>
    requires i < |rs|
  {
    rs[i := rs[i].(volumes := volumes)]
  }

  /** `canvasService.volumes = ...` for the entry found on the named project's canvas. */
  function SetVolumes(s: Plane, projectId: string, id: string, edit: seq<string> -> seq<string>): Plane {
    match Spot(s, projectId, id)
    case None => s
    case Some(i) =>
      var p := s.projects[projectId];
      s.(projects := s.projects[projectId := p.(resources := Volumes(p.resources, i, edit(p.resources[i].volumes)))])
  }

  function Push(vid: string): seq<string> -> seq<string> {
    (vs: seq<string>) => vs + [vid]
  }

  function Drop(vid: string): seq<string> -> seq<string> {
    (vs: seq<string>) => WithoutId(vs, vid)
  }

  function Become(volumes: seq<string>): seq<string> -> seq<string> {
    (_: seq<string>) => volumes
  }

  /** A volume is filed under whatever service identifier the request names, and shown on
      whatever project's canvas the request names. */
  function AddVolume(s: Plane, projectId: string, sid: string): Plane {
    var vid := MockId("volume", s.sequence + 1);
    SetVolumes(s.(volumes := s.volumes[sid := VolumesOf(s, sid) + [vid]], sequence := s.sequence + 1),
               projectId, sid, Push(vid))
  }

  function DropVolume(s: Plane, projectId: string, sid: string, vid: string): Plane {
    SetVolumes(s.(volumes := s.volumes[sid := WithoutId(VolumesOf(s, sid), vid)]), projectId, sid, Drop(vid))
  }

  /** PUT of a service: its canvas entry shows its volumes anew. */
  function UpdateService(s: Plane, sid: string): Plane
    requires ServiceKind in s.stores
  {
    if sid !in s.stores[ServiceKind] then s
    else SetVolumes(s, s.stores[ServiceKind][sid].projectId, sid, Become(VolumesOf(s, sid)))
  }

  function OwnedIn(store: map<string, Entry>, projectId: string): set<string> {
    set id | id in store && store[id].projectId == projectId
  }

  /** Everything `removeProjectResources` takes out: the project's entries of every store,
      and the volumes of its services. */
  function Doomed(stores: Stores, volumes: map<string, seq<string>>, projectId: string): set<string> {
    (set kind, id | kind in stores && id in OwnedIn(stores[kind], projectId) :: id)
    + (set sid, vid | sid in DoomedServices(stores, projectId) && sid in volumes && vid in volumes[sid] :: vid)
  }

  function DoomedServices(stores: Stores, projectId: string): set<string> {
    if ServiceKind in stores then OwnedIn(stores[ServiceKind], projectId) else {}
  }

  function DeleteProject(s: Plane, projectId: string, expectedName: string): Plane {
    if projectId !in s.projects || s.projects[projectId].name != expectedName then s
    else
      var doomed := Doomed(s.stores, s.volumes, projectId);
      s.(stores := map kind | kind in s.stores :: s.stores[kind] - doomed,
         volumes := s.volumes - DoomedServices(s.stores, projectId),
         order := WithoutId(s.order, projectId),
         projects := s.projects - {projectId})
  }

  // ---- The invariant ----

  predicate Lists(rs: seq<Resource>, id: string, kind: Kind) {
    exists r <- rs :: r.id == id && r.kind == kind
  }

  type Stores = map<Kind, map<string, Entry>>

  /** The store of this kind holds `id` for this project. */
  predicate Has(stores: Stores, kind: Kind, id: string, projectId: string) {
    kind in stores && id in stores[kind] && stores[kind][id].projectId == projectId
  }

  predicate InStore(stores: Stores, kind: Kind, id: string) {
    kind in stores && id in stores[kind]
  }

  ghost predicate Indexed(s: Plane) {
    && (forall pid :: pid in s.order <==> pid in s.projects)
    && Distinct(s.order)
    && s.stores.Keys == KINDS
  }

  /** A canvas lists exactly its project's store entries, each once. */
  ghost predicate Mirrors(rs: seq<Resource>, stores: Stores, pid: string) {
    DistinctIds(rs) && forall kind, id :: Lists(rs, id, kind) <==> Has(stores, kind, id, pid)
  }

  ghost predicate Counted(p: Project) {
    p.counts.Keys == KINDS && forall kind :: kind in KINDS ==> p.counts[kind] == CountKind(p.resources, kind)
  }

  ghost predicate Owned(s: Plane) {
    forall kind, id :: InStore(s.stores, kind, id) ==> s.stores[kind][id].projectId in s.projects
  }

  /** Identifiers are used for one thing only and never again. */
  ghost predicate Separate(s: Plane) {
    && (forall a, b, id :: InStore(s.stores, a, id) && InStore(s.stores, b, id) ==> a == b)
    && (forall kind, id :: InStore(s.stores, kind, id) ==> Spent(id, s.sequence))
    && (forall pid :: pid in s.projects ==> Spent(pid, s.sequence))
    && (forall sid, vid :: IsVolume(s, sid, vid) ==> Spent(vid, s.sequence))
    && (forall sid, vid, kind :: IsVolume(s, sid, vid) ==> !InStore(s.stores, kind, vid))
  }

  predicate IsVolume(s: Plane, sid: string, vid: string) {
    sid in s.volumes && vid in s.volumes[sid]
  }

  ghost predicate ProjectOk(s: Plane, pid: string)
    requires pid in s.projects
  {
    Mirrors(s.projects[pid].resources, s.stores, pid) && Counted(s.projects[pid])
  }

  ghost predicate Consistent(s: Plane) {
    Indexed(s) && Owned(s) && Separate(s) && forall pid :: pid in s.projects ==> ProjectOk(s, pid)
  }

  // ---- Lists of resources ----

  lemma WithoutLists(rs: seq<Resource>, id: string)
    requires DistinctIds(rs)
    ensures DistinctIds(Without(rs, id))
    ensures forall r :: r in Without(rs, id) <==> r in rs && r.id != id
  {
    var kept := Without(rs, id);
    FilterHolds(rs, OtherThan(id));
    forall i, j | 0 <= i < j < |kept|
      ensures kept[i].id != kept[j].id
    {
      var a, b := FilterInOrder(rs, OtherThan(id), i, j);
    }
  }

  /** A resource that is listed once leaves its kind's count by one. */
  lemma WithoutCounts(rs: seq<Resource>, id: string, kind: Kind)
    requires DistinctIds(rs)
    ensures CountKind(Without(rs, id), kind) == CountKind(rs, kind) - if Lists(rs, id, kind) then 1 else 0
  {
    hide CountKind, Filter;
    var i := FindIndex(rs, HasId(id));
    if i == |rs| {
      FilterAll(rs, OtherThan(id));
    } else {
      var a, b := rs[..i], rs[i + 1..];
      WithoutAt(rs, i);
      assert Lists(rs, id, kind) <==> rs[i].kind == kind;
      assert rs == a + [rs[i]] + b;
      CountConcat(a + [rs[i]], b, kind);
      CountAppends(a, rs[i], kind);
      CountConcat(a, b, kind);
    }
  }

  lemma WithoutAt(rs: seq<Resource>, i: nat)
    requires DistinctIds(rs) && i < |rs|
    ensures Without(rs, rs[i].id) == rs[..i] + rs[i + 1..]
  {
    hide Filter;
    var id := rs[i].id;
    assert forall r <- rs[..i] :: r.id != id;
    assert forall r <- rs[i + 1..] :: r.id != id;
    hide DistinctIds;
    FilterAllButOne(rs[..i], rs[i], rs[i + 1..], OtherThan(id));
    assert rs == rs[..i] + [rs[i]] + rs[i + 1..];
  }

  lemma {:induction false} CountConcat(a: seq<Resource>, b: seq<Resource>, kind: Kind)
    ensures CountKind(a + b, kind) == CountKind(a, kind) + CountKind(b, kind)
  {
    if a == [] {
      assert a + b == b;
    } else {
      assert (a + b)[1..] == a[1..] + b;
      CountConcat(a[1..], b, kind);
    }
  }

  lemma CountAppends(rs: seq<Resource>, r: Resource, kind: Kind)
    ensures CountKind(rs + [r], kind) == CountKind(rs, kind) + if r.kind == kind then 1 else 0
  {
    CountConcat(rs, [r], kind);
  }

  function KindIds(rs: seq<Resource>, kind: Kind): set<string> {
    if rs == [] then {} else (if rs[0].kind == kind then {rs[0].id} else {}) + KindIds(rs[1..], kind)
  }

  lemma {:induction false} KindIdsAreListed(rs: seq<Resource>, kind: Kind, id: string)
    ensures id in KindIds(rs, kind) <==> Lists(rs, id, kind)
  {
    if rs != [] {
      KindIdsAreListed(rs[1..], kind, id);
      assert forall r :: r in rs <==> r == rs[0] || r in rs[1..];
    }
  }

  /** The number of listed resources of a kind is the number of their identifiers. */
  lemma {:induction false} CountIsCardinality(rs: seq<Resource>, kind: Kind)
    requires DistinctIds(rs)
    ensures CountKind(rs, kind) == |KindIds(rs, kind)|
  {
    if rs != [] {
      CountIsCardinality(rs[1..], kind);
      KindIdsAreListed(rs[1..], kind, rs[0].id);
    }
  }

  /** In a consistent plane the stored counter of every project and kind is both the number
      of canvas resources of that kind and the number of entries in that kind's store. */
  lemma CountersAgree(s: Plane, pid: string, kind: Kind)
    requires Consistent(s) && pid in s.projects && kind in KINDS
    ensures s.projects[pid].counts[kind] == CountKind(s.projects[pid].resources, kind)
                                         == |OwnedIn(s.stores[kind], pid)|
  {
    hide Lists, DistinctIds, Separate, Owned;
    assert ProjectOk(s, pid);
    var rs := s.projects[pid].resources;
    CountIsCardinality(rs, kind);
    forall id
      ensures id in KindIds(rs, kind) <==> id in OwnedIn(s.stores[kind], pid)
    {
      KindIdsAreListed(rs, kind, id);
      assert Lists(rs, id, kind) <==> Has(s.stores, kind, id, pid);
    }
    assert KindIds(rs, kind) == OwnedIn(s.stores[kind], pid);
  }

  /** A counted kind that is listed counts at least one, so no clamp ever takes effect. */
  lemma {:induction false} ListedCounts(rs: seq<Resource>, id: string, kind: Kind)
    requires Lists(rs, id, kind)
    ensures CountKind(rs, kind) >= 1
  {
    if rs[0].kind != kind || rs[0].id != id {
      ListedCounts(rs[1..], id, kind);
    }
  }

  // ---- Every request keeps the invariant ----

  lemma ListsAppends(rs: seq<Resource>, r: Resource, id: string, kind: Kind)
    ensures Lists(rs + [r], id, kind) <==> Lists(rs, id, kind) || (r.id == id && r.kind == kind)
  {
    assert forall x :: x in rs + [r] <==> x in rs || x == r;
  }

  lemma ListsWithout(rs: seq<Resource>, gone: string, id: string, kind: Kind)
    requires DistinctIds(rs)
    ensures Lists(Without(rs, gone), id, kind) <==> Lists(rs, id, kind) && id != gone
  {
    WithoutLists(rs, gone);
  }

  /** Canvases that agree in identifiers and kinds, place by place, list the same. */
  lemma ListsByParts(rs: seq<Resource>, ts: seq<Resource>, id: string, kind: Kind)
    requires |rs| == |ts| && forall i :: 0 <= i < |rs| ==> rs[i].id == ts[i].id && rs[i].kind == ts[i].kind
    ensures Lists(ts, id, kind) <==> Lists(rs, id, kind)
  {
    forall x | x in rs
      ensures exists y <- ts :: y.id == x.id && y.kind == x.kind
    {
      var j :| 0 <= j < |rs| && rs[j] == x;
      assert ts[j] in ts;
    }
    forall y | y in ts
      ensures exists x <- rs :: y.id == x.id && y.kind == x.kind
    {
      var j :| 0 <= j < |ts| && ts[j] == y;
      assert rs[j] in rs;
    }
  }

  lemma ReplacedParts(rs: seq<Resource>, r: Resource, i: nat)
    requires DistinctIds(rs) && Lists(rs, r.id, r.kind) && i < |rs|
    ensures Replaced(rs, r)[i].id == rs[i].id && Replaced(rs, r)[i].kind == rs[i].kind
  {
    var x :| x in rs && x.id == r.id && x.kind == r.kind;
    var j :| 0 <= j < |rs| && rs[j] == x;
    assert rs[i].id == r.id ==> i == j;
  }

  lemma {:induction false} CountReplaced(rs: seq<Resource>, ts: seq<Resource>, kind: Kind)
    requires |rs| == |ts| && forall i :: 0 <= i < |rs| ==> rs[i].kind == ts[i].kind
    ensures CountKind(rs, kind) == CountKind(ts, kind)
  {
    if rs != [] { CountReplaced(rs[1..], ts[1..], kind); }
  }

  lemma FreshId(s: Plane, prefix: string)
    requires Separate(s)
    ensures var id := MockId(prefix, s.sequence + 1);
            && id !in s.projects
            && (forall kind :: !InStore(s.stores, kind, id))
            && (forall sid :: !IsVolume(s, sid, id))
  {
    assert !Spent(MockId(prefix, s.sequence + 1), s.sequence);
  }

  lemma FreshProjectId(s: Plane)
    requires Consistent(s)
    ensures MockId("project", s.sequence + 1) !in s.projects
  {
    FreshId(s, "project");
  }

  lemma SeparateLater(s: Plane, more: nat)
    requires Separate(s) && s.sequence <= more
    ensures Separate(s.(sequence := more))
  {
    hide InStore;
    assert forall sid, vid :: IsVolume(s.(sequence := more), sid, vid) <==> IsVolume(s, sid, vid);
    forall id: string | Spent(id, s.sequence)
      ensures Spent(id, more)
    {
    }
  }

  lemma CreateProjectSeparate(s: Plane, name: string)
    requires Separate(s)
    ensures Separate(CreateProject(s, name))
  {
    hide InStore, Spent, MockId;
    SeparateLater(s, s.sequence + 1);
    MockIdIsSpent("project", s.sequence + 1, s.sequence + 1);
    var t, u := CreateProject(s, name), s.(sequence := s.sequence + 1);
    assert forall sid, vid :: IsVolume(t, sid, vid) <==> IsVolume(u, sid, vid);
  }

  lemma CreateProjectKeeps(s: Plane, name: string)
    requires Consistent(s)
    ensures Consistent(CreateProject(s, name))
  {
    hide *;
    ConsistentParts(s);
    FreshProjectId(s);
    CreateProjectSeparate(s, name);
    CreateProjectIndexed(s, name);
    var t := CreateProject(s, name);
    NewProjectOk(s, name);
    forall pid | pid in t.projects
      ensures ProjectOk(t, pid)
    {
      if pid in s.projects {
        ProjectParts(s, pid);
        ProjectWhole(t, pid);
      }
    }
    Assemble(t);
  }

  lemma CreateProjectIndexed(s: Plane, name: string)
    requires Indexed(s) && Owned(s) && MockId("project", s.sequence + 1) !in s.projects
    ensures var t, id := CreateProject(s, name), MockId("project", s.sequence + 1);
            && Indexed(t) && Owned(t) && t.stores == s.stores && t.projects.Keys == s.projects.Keys + {id}
            && forall pid :: pid in s.projects ==> t.projects[pid] == s.projects[pid]
  {
    hide MockId, InStore;
  }

  lemma NewProjectOk(s: Plane, name: string)
    requires Owned(s) && MockId("project", s.sequence + 1) !in s.projects
    ensures MockId("project", s.sequence + 1) in CreateProject(s, name).projects
    ensures ProjectOk(CreateProject(s, name), MockId("project", s.sequence + 1))
  {
    hide MockId, Mirrors, Owned;
    NewProjectIsEmpty(s, MockId("project", s.sequence + 1));
  }

  lemma NewProjectIsEmpty(s: Plane, id: string)
    requires Owned(s) && id !in s.projects
    ensures Mirrors([], s.stores, id)
  {
    forall kind, x
      ensures !Has(s.stores, kind, x, id)
    {
      assert InStore(s.stores, kind, x) ==> s.stores[kind][x].projectId in s.projects;
    }
  }

  // Creation of a resource.

  lemma InStoreUnfold(stores: Stores, kind: Kind, id: string)
    ensures InStore(stores, kind, id) <==> kind in stores && id in stores[kind]
  {
  }

  lemma StoresAfterInsert(stores: Stores, kind: Kind, id: string, entry: Entry)
    requires kind in stores && !InStore(stores, kind, id)
    ensures var t := stores[kind := stores[kind][id := entry]];
            && (forall k, x :: InStore(t, k, x) <==> InStore(stores, k, x) || (k == kind && x == id))
            && (forall k, x :: InStore(stores, k, x) ==> t[k][x] == stores[k][x])
            && (forall k, x, q :: Has(t, k, x, q) <==> Has(stores, k, x, q) || (k == kind && x == id && q == entry.projectId))
  {
  }

  /** An identifier that is spent but used for nothing. */
  ghost predicate Unused(s: Plane, id: string) {
    Spent(id, s.sequence) && (forall kind :: !InStore(s.stores, kind, id)) && forall sid :: !IsVolume(s, sid, id)
  }

  ghost predicate CanInsert(s: Plane, kind: Kind, pid: string, r: Resource) {
    && kind in KINDS && r.kind == kind && pid in s.projects
    && Unused(s, r.id) && r.id !in r.volumes && forall vid :: vid in r.volumes ==> Unused(s, vid)
  }

  lemma InsertSeparate(s: Plane, kind: Kind, pid: string, r: Resource, at: int)
    requires Separate(s) && kind in s.stores && CanInsert(s, kind, pid, r)
    ensures Separate(Insert(s, kind, pid, r, at))
  {
    hide InStore, Spent, Has, Grown;
    var t := Insert(s, kind, pid, r, at);
    StoresAfterInsert(s.stores, kind, r.id, Entry(pid, at));
    assert forall sid, vid :: IsVolume(t, sid, vid) ==> IsVolume(s, sid, vid) || vid in r.volumes;
    assert forall k, x :: InStore(t.stores, k, x) ==> Spent(x, t.sequence);
    assert forall sid, vid, k :: IsVolume(t, sid, vid) ==> !InStore(t.stores, k, vid);
  }

  lemma OwnedAfter(s: Plane, t: Plane)
    requires Owned(s) && s.projects.Keys == t.projects.Keys
    requires forall k, x :: InStore(t.stores, k, x) ==>
               || (InStore(s.stores, k, x) && t.stores[k][x] == s.stores[k][x])
               || t.stores[k][x].projectId in s.projects
    ensures Owned(t)
  {
    hide InStore;
  }

  lemma IndexedSame(s: Plane, t: Plane)
    requires Indexed(s) && t.order == s.order
    requires t.projects.Keys == s.projects.Keys && t.stores.Keys == s.stores.Keys
    ensures Indexed(t)
  {
  }

  lemma InsertKeeps(s: Plane, kind: Kind, pid: string, r: Resource, at: int)
    requires Consistent(s) && CanInsert(s, kind, pid, r)
    ensures Consistent(Insert(s, kind, pid, r, at))
  {
    hide Separate, ProjectOk, Grown, Has, Unused, InStore;
    assert Unused(s, r.id);
    var t := Insert(s, kind, pid, r, at);
    UnusedIsOut(s, r.id, kind);
    StoresAfterInsert(s.stores, kind, r.id, Entry(pid, at));
    InsertSeparate(s, kind, pid, r, at);
    forall q | q in t.projects
      ensures ProjectOk(t, q)
    {
      InsertProject(s, kind, pid, r, at, q);
    }
    IndexedSame(s, t);
    hide Indexed;
    OwnedAfter(s, t);
  }

  lemma UnusedIsOut(s: Plane, id: string, kind: Kind)
    requires Unused(s, id)
    ensures !InStore(s.stores, kind, id)
  {
  }

  lemma InsertProject(s: Plane, kind: Kind, pid: string, r: Resource, at: int, q: string)
    requires Consistent(s) && CanInsert(s, kind, pid, r) && q in s.projects
    ensures ProjectOk(Insert(s, kind, pid, r, at), q)
  {
    hide InStore, Has, Separate, Mirrors, Counted, Owned, Grown, Spent;
    var t := Insert(s, kind, pid, r, at);
    StoresAfterInsert(s.stores, kind, r.id, Entry(pid, at));
    hide Indexed;
    assert ProjectOk(s, q);
    if q == pid {
      GrownOk(s.projects[q], s.stores, q, r, t.stores);
    } else {
      MirrorsSame(s.projects[q].resources, s.stores, t.stores, q);
    }
  }

  /** Identifiers drawn from the sequence are unused. */
  lemma DrawnIsUnused(s: Plane, prefix: string, n: nat, later: nat)
    requires Separate(s) && s.sequence < n <= later
    ensures Unused(s.(sequence := later), MockId(prefix, n))
  {
    hide MockId;
    MockIdIsSpent(prefix, n, later);
    assert !Spent(MockId(prefix, n), s.sequence);
    var t := s.(sequence := later);
    assert forall sid, vid :: IsVolume(t, sid, vid) <==> IsVolume(s, sid, vid);
  }

  lemma ConsistentLater(s: Plane, later: nat)
    requires Consistent(s) && s.sequence <= later
    ensures Consistent(s.(sequence := later))
  {
    hide Mirrors, Counted, Separate, InStore;
    SeparateLater(s, later);
    var t := s.(sequence := later);
    forall pid | pid in t.projects
      ensures ProjectOk(t, pid)
    {
      assert ProjectOk(s, pid);
    }
  }

  lemma CreateResourceKeeps(s: Plane, kind: Kind, pid: string, name: string, at: int, count: nat)
    requires Consistent(s) && kind in KINDS
    ensures kind in s.stores && Consistent(CreateResource(s, kind, pid, name, at, count))
  {
    hide *;
    KindHasStore(s, kind);
    ConsistentParts(s);
    if pid in s.projects {
      CreateInserts(s, kind, pid, name, at, count);
      CanCreate(s, kind, pid, name, count);
      ConsistentLater(s, s.sequence + 1 + Extra(kind, count));
      InsertKeeps(s.(sequence := s.sequence + 1 + Extra(kind, count)), kind, pid, Created(s, kind, name, count), at);
    } else {
      CreateFails(s, kind, pid, name, at, count);
    }
  }

  lemma CreateParts(s: Plane, kind: Kind, pid: string, name: string, at: int, count: nat)
    requires kind in s.stores && pid in s.projects
    ensures var r := Created(s, kind, name, count);
            && r.id == MockId(Prefix(kind), s.sequence + 1) && r.kind == kind
            && CreateResource(s, kind, pid, name, at, count) ==
               Plane(s.order, s.projects[pid := Grown(s.projects[pid], r)],
                     s.stores[kind := s.stores[kind][r.id := Entry(pid, at)]],
                     if kind.ServiceKind? then s.volumes[r.id := r.volumes] else s.volumes,
                     s.sequence + 1 + Extra(kind, count))
  {
    hide MockId, VolumeIds, Grown;
  }

  lemma OwnerExists(s: Plane, kind: Kind, id: string)
    requires Consistent(s) && kind in s.stores && id in s.stores[kind]
    ensures s.stores[kind][id].projectId in s.projects
  {
    assert InStore(s.stores, kind, id);
  }

  lemma CreateFails(s: Plane, kind: Kind, pid: string, name: string, at: int, count: nat)
    requires kind in s.stores && pid !in s.projects
    ensures CreateResource(s, kind, pid, name, at, count) == s
  {
  }

  lemma ConsistentParts(s: Plane)
    requires Consistent(s)
    ensures Indexed(s) && Owned(s) && Separate(s)
  {
  }

  lemma KindHasStore(s: Plane, kind: Kind)
    requires Consistent(s)
    ensures kind in s.stores
  {
    AnyKind(kind);
  }

  lemma CreateInserts(s: Plane, kind: Kind, pid: string, name: string, at: int, count: nat)
    requires kind in s.stores && pid in s.projects
    ensures CreateResource(s, kind, pid, name, at, count)
         == Insert(s.(sequence := s.sequence + 1 + Extra(kind, count)), kind, pid, Created(s, kind, name, count), at)
  {
  }

  lemma CanCreate(s: Plane, kind: Kind, pid: string, name: string, count: nat)
    requires Separate(s) && kind in KINDS && pid in s.projects
    ensures CanInsert(s.(sequence := s.sequence + 1 + Extra(kind, count)), kind, pid, Created(s, kind, name, count))
  {
    hide MockId, VolumeIds, Unused, Separate;
    var extra := Extra(kind, count);
    var t := s.(sequence := s.sequence + 1 + extra);
    DrawnIsUnused(s, Prefix(kind), s.sequence + 1, t.sequence);
    forall vid | vid in VolumeIds(s.sequence + 2, extra)
      ensures Unused(t, vid) && vid != MockId(Prefix(kind), s.sequence + 1)
    {
      VolumeIsUnused(s, Prefix(kind), extra, vid);
    }
  }

  lemma VolumeIsUnused(s: Plane, prefix: string, extra: nat, vid: string)
    requires Separate(s) && vid in VolumeIds(s.sequence + 2, extra)
    ensures Unused(s.(sequence := s.sequence + 1 + extra), vid) && vid != MockId(prefix, s.sequence + 1)
  {
    hide MockId, Unused, Separate;
    var i :| 0 <= i < extra && VolumeIds(s.sequence + 2, extra)[i] == vid;
    var n := s.sequence + 2 + i;
    DrawnIsUnused(s, "volume", n, s.sequence + 1 + extra);
    if MockId("volume", n) == MockId(prefix, s.sequence + 1) { MockIdTellsNumber("volume", n, prefix, s.sequence + 1); }
  }

  lemma MirrorsSame(rs: seq<Resource>, stores: Stores, after: Stores, pid: string)
    requires Mirrors(rs, stores, pid)
    requires forall k, x :: Has(after, k, x, pid) <==> Has(stores, k, x, pid)
    ensures Mirrors(rs, after, pid)
  {
  }

  lemma GrownOk(p: Project, stores: Stores, pid: string, r: Resource, after: Stores)
    requires Mirrors(p.resources, stores, pid) && Counted(p) && r.kind in KINDS
    requires forall kind :: !InStore(stores, kind, r.id)
    requires forall k, x :: Has(after, k, x, pid) <==> Has(stores, k, x, pid) || (k == r.kind && x == r.id)
    ensures Mirrors(Grown(p, r).resources, after, pid) && Counted(Grown(p, r))
  {
    var rs := p.resources;
    forall k, x
      ensures Lists(rs + [r], x, k) <==> Has(after, k, x, pid)
    {
      ListsAppends(rs, r, x, k);
    }
    forall i | 0 <= i < |rs|
      ensures rs[i].id != r.id
    {
      assert Lists(rs, rs[i].id, rs[i].kind);
      assert Has(stores, rs[i].kind, rs[i].id, pid);
      assert !InStore(stores, rs[i].kind, r.id);
    }
    forall k | k in KINDS
      ensures CountKind(rs + [r], k) == Grown(p, r).counts[k]
    {
      CountAppends(rs, r, k);
    }
  }

  // Deletion of a resource.

  lemma ShrunkOk(p: Project, stores: Stores, pid: string, kind: Kind, id: string, after: Stores)
    requires Mirrors(p.resources, stores, pid) && Counted(p) && kind in KINDS && Has(stores, kind, id, pid)
    requires forall k :: InStore(stores, k, id) ==> k == kind
    requires forall k, x :: Has(after, k, x, pid) <==> Has(stores, k, x, pid) && !(k == kind && x == id)
    ensures Mirrors(Shrunk(p, kind, id).resources, after, pid) && Counted(Shrunk(p, kind, id))
    ensures Shrunk(p, kind, id).counts == p.counts[kind := p.counts[kind] - 1]
  {
    hide Without, CountKind;
    var rs := p.resources;
    assert Lists(rs, id, kind);
    ListedCounts(rs, id, kind);
    WithoutLists(rs, id);
    forall k, x
      ensures Lists(Without(rs, id), x, k) <==> Has(after, k, x, pid)
    {
      ListsWithout(rs, id, x, k);
      HasIsIn(stores, k, x, pid);
    }
    forall k | k in KINDS
      ensures CountKind(Without(rs, id), k) == Shrunk(p, kind, id).counts[k]
    {
      WithoutCounts(rs, id, k);
      assert Lists(rs, id, k) <==> Has(stores, k, id, pid);
      HasIsIn(stores, k, id, pid);
    }
  }

  lemma HasIsIn(stores: Stores, kind: Kind, id: string, pid: string)
    ensures Has(stores, kind, id, pid) ==> InStore(stores, kind, id)
  {
  }

  lemma StoresAfterDelete(stores: Stores, kind: Kind, id: string)
    requires kind in stores
    ensures var t := stores[kind := stores[kind] - {id}];
            && (forall k, x :: InStore(t, k, x) <==> InStore(stores, k, x) && !(k == kind && x == id))
            && (forall k, x :: InStore(t, k, x) ==> t[k][x] == stores[k][x])
            && (forall k, x, q :: Has(t, k, x, q) <==> Has(stores, k, x, q) && !(k == kind && x == id))
  {
  }

  /** Taking things away keeps identifiers apart. */
  lemma SeparateLess(s: Plane, t: Plane)
    requires Separate(s) && t.sequence == s.sequence && t.projects.Keys <= s.projects.Keys
    requires forall k, x :: InStore(t.stores, k, x) ==> InStore(s.stores, k, x)
    requires forall sid, vid :: IsVolume(t, sid, vid) ==> IsVolume(s, sid, vid)
    ensures Separate(t)
  {
    hide InStore, Spent, IsVolume;
  }

  /** What a deletion leaves as it was. */
  lemma DeleteParts(s: Plane, kind: Kind, id: string)
    requires kind in s.stores && id in s.stores[kind] && s.stores[kind][id].projectId in s.projects
    ensures var t, owner := DeleteResource(s, kind, id), s.stores[kind][id].projectId;
            && t.order == s.order && t.sequence == s.sequence && t.projects.Keys == s.projects.Keys
            && t.stores == s.stores[kind := s.stores[kind] - {id}]
            && t.projects[owner] == Shrunk(s.projects[owner], kind, id)
            && (forall q :: q in s.projects && q != owner ==> t.projects[q] == s.projects[q])
            && (forall sid, vid :: IsVolume(t, sid, vid) ==> IsVolume(s, sid, vid))
  {
    hide Shrunk;
  }

  lemma DeleteFails(s: Plane, kind: Kind, id: string)
    requires kind in s.stores && id !in s.stores[kind]
    ensures DeleteResource(s, kind, id) == s
  {
  }

  /** The four parts make a consistent plane. */
  lemma Assemble(s: Plane)
    requires Indexed(s) && Owned(s) && Separate(s) && forall q :: q in s.projects ==> ProjectOk(s, q)
    ensures Consistent(s)
  {
    hide Indexed, Owned, Separate, ProjectOk;
  }

  lemma DeleteResourceKeeps(s: Plane, kind: Kind, id: string)
    requires Consistent(s) && kind in KINDS
    ensures kind in s.stores && Consistent(DeleteResource(s, kind, id))
  {
    hide *;
    KindHasStore(s, kind);
    ConsistentParts(s);
    if id in s.stores[kind] {
      OwnerExists(s, kind, id);
      DeleteParts(s, kind, id);
      StoresAfterDelete(s.stores, kind, id);
      var t := DeleteResource(s, kind, id);
      forall q | q in t.projects
        ensures ProjectOk(t, q)
      {
        DeleteResourceProject(s, kind, id, q);
      }
      IndexedSame(s, t);
      SeparateLess(s, t);
      OwnedAfter(s, t);
      Assemble(t);
    } else {
      DeleteFails(s, kind, id);
    }
  }

  lemma OneKind(s: Plane, kind: Kind, id: string)
    requires Separate(s) && kind in s.stores && id in s.stores[kind]
    ensures forall k :: InStore(s.stores, k, id) ==> k == kind
    ensures forall q :: Has(s.stores, kind, id, q) <==> q == s.stores[kind][id].projectId
  {
    hide Spent;
    assert InStore(s.stores, kind, id);
  }

  lemma ProjectParts(s: Plane, q: string)
    requires Consistent(s) && q in s.projects
    ensures Mirrors(s.projects[q].resources, s.stores, q) && Counted(s.projects[q])
  {
    hide Mirrors, Counted, Indexed, Owned, Separate;
    assert ProjectOk(s, q);
  }

  lemma ProjectWhole(s: Plane, q: string)
    requires q in s.projects && Mirrors(s.projects[q].resources, s.stores, q) && Counted(s.projects[q])
    ensures ProjectOk(s, q)
  {
    hide Mirrors, Counted;
  }

  lemma DeleteResourceProject(s: Plane, kind: Kind, id: string, q: string)
    requires Consistent(s) && kind in KINDS && kind in s.stores && id in s.stores[kind] && q in s.projects
    requires s.stores[kind][id].projectId in s.projects
    ensures q in DeleteResource(s, kind, id).projects && ProjectOk(DeleteResource(s, kind, id), q)
  {
    hide *;
    ConsistentParts(s);
    OneKind(s, kind, id);
    DeleteParts(s, kind, id);
    StoresAfterDelete(s.stores, kind, id);
    ProjectParts(s, q);
    var t := DeleteResource(s, kind, id);
    if q == s.stores[kind][id].projectId {
      ShrunkOk(s.projects[q], s.stores, q, kind, id, t.stores);
    } else {
      MirrorsSame(s.projects[q].resources, s.stores, t.stores, q);
    }
    ProjectWhole(t, q);
  }

  // Renaming a gateway, changing an icon.

  /** A step that leaves the stores and volumes alone and rewrites one project in place. */
  lemma RewriteKeeps(s: Plane, pid: string, p: Project)
    requires Consistent(s) && pid in s.projects && Mirrors(p.resources, s.stores, pid) && Counted(p)
    ensures Consistent(s.(projects := s.projects[pid := p]))
  {
    hide *;
    ConsistentParts(s);
    var t := s.(projects := s.projects[pid := p]);
    SameVolumes(s, t);
    assert t.projects.Keys == s.projects.Keys;
    forall q | q in t.projects
      ensures ProjectOk(t, q)
    {
      ProjectParts(s, q);
      ProjectWhole(t, q);
    }
    IndexedSame(s, t);
    SeparateLess(s, t);
    OwnedAfter(s, t);
    Assemble(t);
  }

  lemma SameVolumes(s: Plane, t: Plane)
    requires s.volumes == t.volumes
    ensures forall sid, vid :: IsVolume(t, sid, vid) <==> IsVolume(s, sid, vid)
  {
  }

  lemma RenameGatewayKeeps(s: Plane, id: string, name: string)
    requires Consistent(s)
    ensures NetworkGatewayKind in s.stores && Consistent(RenameGateway(s, id, name))
  {
    var kind := NetworkGatewayKind;
    hide Consistent, Replaced, Mirrors, Counted, Has;
    KindHasStore(s, kind);
    if id in s.stores[kind] && s.stores[kind][id].projectId in s.projects {
      var owner := s.stores[kind][id].projectId;
      ConsistentParts(s);
      hide Indexed, Owned, Separate;
      OneKind(s, kind, id);
      ProjectParts(s, owner);
      ReplacedOk(s.projects[owner], s.stores, owner, Resource(id, kind, name, []));
      RewriteKeeps(s, owner, s.projects[owner].(resources := Replaced(s.projects[owner].resources, Resource(id, kind, name, []))));
    }
  }

  lemma ReplacedOk(p: Project, stores: Stores, pid: string, r: Resource)
    requires Mirrors(p.resources, stores, pid) && Counted(p) && Has(stores, r.kind, r.id, pid)
    ensures var t := p.(resources := Replaced(p.resources, r)); Mirrors(t.resources, stores, pid) && Counted(t)
  {
    var rs, ts := p.resources, Replaced(p.resources, r);
    assert Lists(rs, r.id, r.kind);
    forall i | 0 <= i < |rs|
      ensures ts[i].id == rs[i].id && ts[i].kind == rs[i].kind
    {
      ReplacedParts(rs, r, i);
    }
    hide Has, Replaced;
    forall k, x
      ensures Lists(ts, x, k) <==> Has(stores, k, x, pid)
    {
      ListsByParts(rs, ts, x, k);
    }
    forall k
      ensures CountKind(ts, k) == CountKind(rs, k)
    {
      CountReplaced(rs, ts, k);
    }
  }

  /** After a rename the owner's canvas lists the gateway once, under its new name, in its old place. */
  lemma RenameShows(s: Plane, id: string, name: string, owner: string, i: nat)
    requires Consistent(s) && owner in s.projects && Has(s.stores, NetworkGatewayKind, id, owner)
    requires i < |s.projects[owner].resources|
    ensures var rs, ts := s.projects[owner].resources, RenameGateway(s, id, name).projects[owner].resources;
            && |ts| == |rs| && ts[i].id == rs[i].id && ts[i].kind == rs[i].kind
            && ts[i].name == (if rs[i].id == id then name else rs[i].name)
            && ts[i].volumes == (if rs[i].id == id then [] else rs[i].volumes)
  {
    hide Counted, Indexed, Owned;
    assert ProjectOk(s, owner);
    var rs := s.projects[owner].resources;
    if rs[i].id == id {
      assert Lists(rs, id, rs[i].kind);
      assert Has(s.stores, rs[i].kind, id, owner);
      HasIsIn(s.stores, rs[i].kind, id, owner);
      HasIsIn(s.stores, NetworkGatewayKind, id, owner);
    }
  }

  lemma SetIconKeeps(s: Plane, pid: string, hasIcon: bool)
    requires Consistent(s)
    ensures Consistent(SetIcon(s, pid, hasIcon))
  {
    hide Consistent, Mirrors, CountKind;
    if pid in s.projects {
      ProjectParts(s, pid);
      RewriteKeeps(s, pid, s.projects[pid].(hasIcon := hasIcon));
    }
  }

  // A new version of a resource, volumes.

  lemma StoresAfterTouch(stores: Stores, kind: Kind, id: string, at: int)
    requires InStore(stores, kind, id)
    ensures var t := stores[kind := stores[kind][id := stores[kind][id].(updatedAt := at)]];
            && (forall k, x :: InStore(t, k, x) <==> InStore(stores, k, x))
            && (forall k, x :: InStore(t, k, x) ==> t[k][x].projectId == stores[k][x].projectId)
            && (forall k, x, q :: Has(t, k, x, q) <==> Has(stores, k, x, q))
  {
  }

  lemma TouchKeeps(s: Plane, kind: Kind, id: string, at: int)
    requires Consistent(s)
    ensures kind in s.stores && Consistent(Touch(s, kind, id, at))
  {
    hide *;
    KindHasStore(s, kind);
    ConsistentParts(s);
    if id in s.stores[kind] {
      var t := s.(stores := s.stores[kind := s.stores[kind][id := s.stores[kind][id].(updatedAt := at)]]);
      InStoreUnfold(s.stores, kind, id);
      StoresAfterTouch(s.stores, kind, id, at);
      SameVolumes(s, t);
      forall q | q in t.projects
        ensures ProjectOk(t, q)
      {
        ProjectParts(s, q);
        MirrorsSame(s.projects[q].resources, s.stores, t.stores, q);
        ProjectWhole(t, q);
      }
      IndexedSame(s, t);
      SeparateLess(s, t);
      OwnersStored(s);
      OwnedAfter(s, t);
      Assemble(t);
    }
    TouchParts(s, kind, id, at);
  }

  lemma TouchParts(s: Plane, kind: Kind, id: string, at: int)
    requires kind in s.stores
    ensures Touch(s, kind, id, at) ==
            if id !in s.stores[kind] then s
            else s.(stores := s.stores[kind := s.stores[kind][id := s.stores[kind][id].(updatedAt := at)]])
  {
  }

  lemma OwnersStored(s: Plane)
    requires Owned(s)
    ensures forall k, x :: InStore(s.stores, k, x) ==> s.stores[k][x].projectId in s.projects
  {
    hide InStore;
  }

  /** Volumes may come and go as long as the new ones carry unused identifiers. */
  lemma VolumesKeep(s: Plane, volumes: map<string, seq<string>>)
    requires Consistent(s)
    requires forall sid, vid :: sid in volumes && vid in volumes[sid] ==> IsVolume(s, sid, vid) || Unused(s, vid)
    ensures Consistent(s.(volumes := volumes))
  {
    hide Indexed, Mirrors, Counted, InStore, Spent;
    var t := s.(volumes := volumes);
    forall q | q in t.projects
      ensures ProjectOk(t, q)
    {
      assert ProjectOk(s, q);
    }
    IndexedSame(s, t);
    hide ProjectOk;
    forall sid, vid | IsVolume(t, sid, vid)
      ensures Spent(vid, t.sequence) && forall kind :: !InStore(t.stores, kind, vid)
    {
      assert IsVolume(s, sid, vid) || Unused(s, vid);
    }
  }

  /** New volumes for one entry of a canvas change neither what it lists nor what it counts. */
  lemma SetVolumesKeeps(s: Plane, pid: string, id: string, edit: seq<string> -> seq<string>)
    requires Consistent(s)
    ensures Consistent(SetVolumes(s, pid, id, edit))
  {
    hide Consistent, Mirrors, Counted, Volumes;
    match Spot(s, pid, id)
    case None =>
    case Some(i) =>
      var p := s.projects[pid];
      ProjectParts(s, pid);
      VolumesOk(p, s.stores, pid, i, edit(p.resources[i].volumes));
      RewriteKeeps(s, pid, p.(resources := Volumes(p.resources, i, edit(p.resources[i].volumes))));
  }

  lemma VolumesOk(p: Project, stores: Stores, pid: string, i: nat, volumes: seq<string>)
    requires Mirrors(p.resources, stores, pid) && Counted(p) && i < |p.resources|
    ensures var t := p.(resources := Volumes(p.resources, i, volumes)); Mirrors(t.resources, stores, pid) && Counted(t)
  {
    hide Has;
    var rs := p.resources;
    var ts := Volumes(rs, i, volumes);
    forall k, x
      ensures Lists(ts, x, k) <==> Has(stores, k, x, pid)
    {
      ListsByParts(rs, ts, x, k);
    }
    forall k
      ensures CountKind(ts, k) == CountKind(rs, k)
    {
      CountReplaced(rs, ts, k);
    }
  }

  /** Filing a volume with a fresh identifier. */
  lemma FiledKeeps(s: Plane, sid: string) returns (t: Plane)
    requires Consistent(s)
    ensures t == s.(volumes := s.volumes[sid := VolumesOf(s, sid) + [MockId("volume", s.sequence + 1)]],
                    sequence := s.sequence + 1)
    ensures Consistent(t)
  {
    hide Consistent, Unused, MockId, Separate, Indexed, Owned;
    ConsistentParts(s);
    ConsistentLater(s, s.sequence + 1);
    DrawnIsUnused(s, "volume", s.sequence + 1, s.sequence + 1);
    var volumes := s.volumes[sid := VolumesOf(s, sid) + [MockId("volume", s.sequence + 1)]];
    VolumesKeep(s.(sequence := s.sequence + 1), volumes);
    t := s.(volumes := volumes, sequence := s.sequence + 1);
  }

  lemma AddVolumeKeeps(s: Plane, pid: string, sid: string)
    requires Consistent(s)
    ensures Consistent(AddVolume(s, pid, sid))
  {
    hide Consistent, MockId, SetVolumes;
    var t := FiledKeeps(s, sid);
    SetVolumesKeeps(t, pid, sid, Push(MockId("volume", s.sequence + 1)));
  }

  lemma DroppedKeeps(s: Plane, sid: string, vid: string) returns (t: Plane)
    requires Consistent(s)
    ensures t == s.(volumes := s.volumes[sid := WithoutId(VolumesOf(s, sid), vid)])
    ensures Consistent(t)
  {
    hide Consistent, WithoutId;
    LeftWasThere(VolumesOf(s, sid), vid);
    t := s.(volumes := s.volumes[sid := WithoutId(VolumesOf(s, sid), vid)]);
    VolumesKeep(s, t.volumes);
  }

  lemma DropVolumeKeeps(s: Plane, pid: string, sid: string, vid: string)
    requires Consistent(s)
    ensures Consistent(DropVolume(s, pid, sid, vid))
  {
    hide Consistent, WithoutId, SetVolumes;
    var t := DroppedKeeps(s, sid, vid);
    SetVolumesKeeps(t, pid, sid, Drop(vid));
  }

  lemma UpdateServiceKeeps(s: Plane, sid: string)
    requires Consistent(s)
    ensures ServiceKind in s.stores && Consistent(UpdateService(s, sid))
  {
    hide Consistent, SetVolumes;
    KindHasStore(s, ServiceKind);
    if sid in s.stores[ServiceKind] {
      SetVolumesKeeps(s, s.stores[ServiceKind][sid].projectId, sid, Become(VolumesOf(s, sid)));
    }
  }

  lemma LeftWasThere(order: seq<string>, id: string)
    ensures forall x :: x in WithoutId(order, id) ==> x in order && x != id
    ensures forall x :: x in order && x != id ==> x in WithoutId(order, id)
  {
    FilterHolds(order, OtherId(id));
  }

  // Deletion of a project.

  lemma VolumesAreNotStored(s: Plane, kind: Kind, id: string)
    requires Separate(s) && InStore(s.stores, kind, id)
    ensures forall sid :: sid in s.volumes ==> id !in s.volumes[sid]
  {
    hide Spent;
    forall sid | sid in s.volumes
      ensures id !in s.volumes[sid]
    {
      assert !IsVolume(s, sid, id);
    }
  }

  /** Deleting a project takes exactly its own entries out of every store. */
  lemma DoomedExactly(s: Plane, pid: string, kind: Kind, id: string)
    requires Separate(s) && InStore(s.stores, kind, id)
    ensures id in Doomed(s.stores, s.volumes, pid) <==> Has(s.stores, kind, id, pid)
  {
    hide Spent;
    if Has(s.stores, kind, id, pid) {
      assert id in OwnedIn(s.stores[kind], pid);
    }
    if id in Doomed(s.stores, s.volumes, pid) {
      if k, x :| k in s.stores && x in OwnedIn(s.stores[k], pid) && x == id {
        assert InStore(s.stores, k, id);
      } else {
        VolumesAreNotStored(s, kind, id);
      }
    }
  }

  lemma StoresAfterProject(s: Plane, pid: string)
    requires Separate(s)
    ensures var t := map kind | kind in s.stores :: s.stores[kind] - Doomed(s.stores, s.volumes, pid);
            && (forall k, x :: InStore(t, k, x) <==> InStore(s.stores, k, x) && !Has(s.stores, k, x, pid))
            && (forall k, x :: InStore(t, k, x) ==> t[k][x] == s.stores[k][x])
            && (forall k, x, q :: Has(t, k, x, q) <==> Has(s.stores, k, x, q) && q != pid)
  {
    hide Doomed;
    var t := map kind | kind in s.stores :: s.stores[kind] - Doomed(s.stores, s.volumes, pid);
    forall k, x
      ensures InStore(t, k, x) <==> InStore(s.stores, k, x) && !Has(s.stores, k, x, pid)
      ensures InStore(t, k, x) ==> t[k][x] == s.stores[k][x]
    {
      if InStore(s.stores, k, x) { DoomedExactly(s, pid, k, x); }
    }
    hide Separate;
    forall k, x, q
      ensures Has(t, k, x, q) <==> Has(s.stores, k, x, q) && q != pid
    {
      assert InStore(t, k, x) <==> InStore(s.stores, k, x) && !Has(s.stores, k, x, pid);
    }
  }

  lemma WithoutIdLists(order: seq<string>, id: string)
    requires Distinct(order)
    ensures Distinct(WithoutId(order, id))
    ensures forall x :: x in WithoutId(order, id) <==> x in order && x != id
  {
    LeftWasThere(order, id);
    var kept := WithoutId(order, id);
    forall i, j | 0 <= i < j < |kept|
      ensures kept[i] != kept[j]
    {
      var a, b := FilterInOrder(order, OtherId(id), i, j);
    }
  }

  lemma DeleteProjectKeeps(s: Plane, pid: string, expectedName: string)
    requires Consistent(s)
    ensures Consistent(DeleteProject(s, pid, expectedName))
  {
    hide *;
    ConsistentParts(s);
    if pid in s.projects && s.projects[pid].name == expectedName {
      var t := DeleteProject(s, pid, expectedName);
      StoresAfterProject(s, pid);
      DeleteProjectIndexed(s, pid, expectedName);
      SeparateLess(s, t);
      OwnersLeft(s, t, pid);
      forall q | q in t.projects
        ensures ProjectOk(t, q)
      {
        ProjectParts(s, q);
        MirrorsSame(s.projects[q].resources, s.stores, t.stores, q);
        ProjectWhole(t, q);
      }
      Assemble(t);
    } else {
      DeleteProjectFails(s, pid, expectedName);
    }
  }

  lemma DeleteProjectFails(s: Plane, pid: string, expectedName: string)
    requires !(pid in s.projects && s.projects[pid].name == expectedName)
    ensures DeleteProject(s, pid, expectedName) == s
  {
  }

  lemma DeleteProjectIndexed(s: Plane, pid: string, expectedName: string)
    requires Indexed(s) && pid in s.projects && s.projects[pid].name == expectedName
    ensures var t := DeleteProject(s, pid, expectedName);
            && Indexed(t) && t.sequence == s.sequence && t.projects == s.projects - {pid}
            && t.stores == (map kind | kind in s.stores :: s.stores[kind] - Doomed(s.stores, s.volumes, pid))
            && forall sid, vid :: IsVolume(t, sid, vid) ==> IsVolume(s, sid, vid)
  {
    hide Doomed, DoomedServices, WithoutId;
    WithoutIdLists(s.order, pid);
  }

  lemma OwnersLeft(s: Plane, t: Plane, pid: string)
    requires Owned(s) && t.projects == s.projects - {pid}
    requires forall k, x :: InStore(t.stores, k, x) ==> InStore(s.stores, k, x) && !Has(s.stores, k, x, pid)
    requires forall k, x :: InStore(t.stores, k, x) ==> t.stores[k][x] == s.stores[k][x]
    ensures Owned(t)
  {
    forall k, x | InStore(t.stores, k, x)
      ensures t.stores[k][x].projectId in t.projects
    {
      assert InStore(s.stores, k, x) && !Has(s.stores, k, x, pid);
    }
  }

  // ---- What the requests achieve ----

  /** Everything but one project's record stays. */
  ghost predicate OthersStay(s: Plane, t: Plane, pid: string) {
    forall q :: q != pid ==> (q in t.projects <==> q in s.projects) && (q in s.projects ==> t.projects[q] == s.projects[q])
  }

  /** A new project stands last in the list, with the requested name and nothing in it. */
  lemma CreateProjectShows(s: Plane, name: string)
    ensures var t, id := CreateProject(s, name), "project-mock-" + Decimal(s.sequence + 1);
            && t.order == s.order + [id] && id in t.projects
            && t.projects[id].name == name && !t.projects[id].hasIcon && t.projects[id].resources == []
            && (forall kind :: kind in t.projects[id].counts ==> t.projects[id].counts[kind] == 0)
            && OthersStay(s, t, id) && t.stores == s.stores && t.volumes == s.volumes && t.sequence == s.sequence + 1
  {
    assert "project" + "-mock-" == "project-mock-";
  }

  /** A creation puts one entry, named as requested, behind what the canvas listed, and one
      entry of the named project into the store of its kind; a service comes with its volumes. */
  lemma CreateResourceShows(s: Plane, kind: Kind, pid: string, name: string, at: int, count: nat)
    requires kind in s.stores && pid in s.projects
    ensures var t := CreateResource(s, kind, pid, name, at, count);
            && pid in t.projects && |t.projects[pid].resources| == |s.projects[pid].resources| + 1
            && var r := t.projects[pid].resources[|s.projects[pid].resources|];
               && t.projects[pid].resources == s.projects[pid].resources + [r]
               && r.name == name && r.kind == kind && r.id == MockId(Prefix(kind), s.sequence + 1)
               && |r.volumes| == (if kind.ServiceKind? then count else 0)
               && (forall i :: 0 <= i < |r.volumes| ==> r.volumes[i] == MockId("volume", s.sequence + 2 + i))
               && t.stores.Keys == s.stores.Keys && t.stores[kind] == s.stores[kind][r.id := Entry(pid, at)]
               && (forall k :: k in s.stores && k != kind ==> t.stores[k] == s.stores[k])
               && (kind.ServiceKind? ==> VolumesOf(t, r.id) == r.volumes)
               && (forall sid :: sid != r.id || !kind.ServiceKind? ==> VolumesOf(t, sid) == VolumesOf(s, sid))
               && t.projects[pid].name == s.projects[pid].name && t.projects[pid].hasIcon == s.projects[pid].hasIcon
               && OthersStay(s, t, pid) && t.order == s.order
  {
    hide MockId;
    CreateParts(s, kind, pid, name, at, count);
    hide CreateResource;
    var t := CreateResource(s, kind, pid, name, at, count);
    assert t.projects[pid].resources == s.projects[pid].resources + [Created(s, kind, name, count)];
  }

  /** How identifiers of each kind begin. */
  lemma PrefixReads()
    ensures Prefix(ServiceKind) == "service" && Prefix(PostgresKind) == "postgres" && Prefix(RedisKind) == "redis"
            && Prefix(ObjectStoreKind) == "object-store" && Prefix(NetworkGatewayKind) == "network-gateway"
  {
  }

  /** A deletion takes out the store entry and the canvas entry, and leaves the others in order. */
  lemma DeleteResourceTakes(s: Plane, kind: Kind, id: string, i: nat)
    requires Consistent(s) && kind in s.stores && id in s.stores[kind]
    requires var owner := s.stores[kind][id].projectId;
             owner in s.projects && i < |s.projects[owner].resources| && s.projects[owner].resources[i].id == id
    ensures var t, owner := DeleteResource(s, kind, id), s.stores[kind][id].projectId;
            && t.stores == s.stores[kind := s.stores[kind] - {id}] && owner in t.projects
            && t.projects[owner].resources == s.projects[owner].resources[..i] + s.projects[owner].resources[i + 1..]
            && t.projects[owner].name == s.projects[owner].name && t.projects[owner].hasIcon == s.projects[owner].hasIcon
            && OthersStay(s, t, owner) && t.order == s.order && t.sequence == s.sequence
            && t.volumes == (if kind.ServiceKind? then s.volumes - {id} else s.volumes)
  {
    hide Consistent, Counted, Without, Mirrors;
    var owner := s.stores[kind][id].projectId;
    CanvasIsDistinct(s, owner);
    WithoutAt(s.projects[owner].resources, i);
    DeleteParts(s, kind, id);
    DeletedVolumes(s, kind, id);
    hide DeleteResource;
  }

  lemma CanvasIsDistinct(s: Plane, pid: string)
    requires Consistent(s) && pid in s.projects
    ensures DistinctIds(s.projects[pid].resources)
  {
    hide Consistent;
    ProjectParts(s, pid);
  }

  lemma DeletedVolumes(s: Plane, kind: Kind, id: string)
    requires kind in s.stores && id in s.stores[kind]
    ensures DeleteResource(s, kind, id).volumes == if kind.ServiceKind? then s.volumes - {id} else s.volumes
  {
    hide Shrunk;
  }

  /** A gateway's counter is lowered plainly, every other one not below zero. */
  lemma DecrementedReads(kind: Kind, count: int)
    ensures kind == NetworkGatewayKind ==> Decremented(kind, count) == count - 1
    ensures kind != NetworkGatewayKind ==>
              Decremented(kind, count) >= 0 && Decremented(kind, count) >= count - 1
              && (Decremented(kind, count) == 0 || Decremented(kind, count) == count - 1)
  {
  }

  lemma SetIconShows(s: Plane, pid: string, hasIcon: bool)
    requires pid in s.projects
    ensures var t := SetIcon(s, pid, hasIcon);
            && pid in t.projects && t.projects[pid] == s.projects[pid].(hasIcon := hasIcon) && OthersStay(s, t, pid)
            && t.order == s.order && t.stores == s.stores && t.volumes == s.volumes && t.sequence == s.sequence
  {
  }

  lemma TouchShows(s: Plane, kind: Kind, id: string, at: int)
    requires kind in s.stores && id in s.stores[kind]
    ensures var t := Touch(s, kind, id, at);
            && t == s.(stores := t.stores) && t.stores.Keys == s.stores.Keys
            && t.stores[kind] == s.stores[kind][id := Entry(s.stores[kind][id].projectId, at)]
            && forall k :: k in s.stores && k != kind ==> t.stores[k] == s.stores[k]
  {
  }

  /** After a deletion the project is in neither list nor table, nothing is stored for it, no
      volume is filed for what were its services, and all other volumes are. */
  lemma DeleteProjectTakes(s: Plane, pid: string, name: string)
    requires Consistent(s) && pid in s.projects && s.projects[pid].name == name
    ensures var t := DeleteProject(s, pid, name);
            && pid !in t.order && pid !in t.projects && OthersStay(s, t, pid) && t.sequence == s.sequence
            && (forall k, x, q :: Has(t.stores, k, x, q) <==> Has(s.stores, k, x, q) && q != pid)
            && (forall sid :: Has(s.stores, ServiceKind, sid, pid) ==> sid !in t.volumes)
            && (forall sid :: !Has(s.stores, ServiceKind, sid, pid) ==> VolumesOf(t, sid) == VolumesOf(s, sid))
  {
    ConsistentParts(s);
    hide Consistent;
    StoresAfterProject(s, pid);
    WithoutIdLists(s.order, pid);
    hide Doomed, WithoutId, Separate, Owned;
  }

  lemma DeleteProjectKeepsName(s: Plane, pid: string, name: string)
    requires pid in s.projects && s.projects[pid].name != name
    ensures DeleteProject(s, pid, name) == s
  {
  }

  /** A volume is filed last under the service, and every other service keeps its own. */
  lemma AddVolumeFiles(s: Plane, pid: string, sid: string)
    ensures var t := AddVolume(s, pid, sid);
            && VolumesOf(t, sid) == VolumesOf(s, sid) + ["volume-mock-" + Decimal(s.sequence + 1)]
            && (forall other :: other != sid ==> VolumesOf(t, other) == VolumesOf(s, other))
            && t.stores == s.stores && t.order == s.order && t.sequence == s.sequence + 1
  {
    assert "volume" + "-mock-" == "volume-mock-";
  }

  lemma DropVolumeFiles(s: Plane, pid: string, sid: string, vid: string)
    ensures var t := DropVolume(s, pid, sid, vid);
            && (forall x :: multiset(VolumesOf(t, sid))[x] == if x == vid then 0 else multiset(VolumesOf(s, sid))[x])
            && (forall other :: other != sid ==> VolumesOf(t, other) == VolumesOf(s, other))
            && t.stores == s.stores && t.order == s.order && t.sequence == s.sequence
  {
    forall x: string
      ensures multiset(WithoutId(VolumesOf(s, sid), vid))[x] == if x == vid then 0 else multiset(VolumesOf(s, sid))[x]
    {
      FilterCounts(VolumesOf(s, sid), OtherId(vid), x);
    }
    hide WithoutId, Spot;
  }

  /** Showing volumes changes nothing else of any canvas. */
  lemma SetVolumesKeepsRest(s: Plane, pid: string, id: string, edit: seq<string> -> seq<string>, q: string, i: nat)
    requires q in s.projects && i < |s.projects[q].resources|
    ensures var t := SetVolumes(s, pid, id, edit);
            && q in t.projects && |t.projects[q].resources| == |s.projects[q].resources|
            && t.projects[q].resources[i] == s.projects[q].resources[i].(volumes := t.projects[q].resources[i].volumes)
            && t.projects[q].name == s.projects[q].name && t.projects[q].counts == s.projects[q].counts
            && t.projects[q].hasIcon == s.projects[q].hasIcon
  {
  }

  // ---- What one request undoes ----

  lemma WithoutFresh(rs: seq<Resource>, r: Resource)
    requires forall x <- rs :: x.id != r.id
    ensures Without(rs + [r], r.id) == rs
  {
    FilterAppend(rs, [r], OtherThan(r.id));
    FilterAll(rs, OtherThan(r.id));
  }

  lemma ShrunkUndoesGrown(p: Project, r: Resource)
    requires Counted(p) && r.kind in KINDS && forall x <- p.resources :: x.id != r.id
    ensures Shrunk(Grown(p, r), r.kind, r.id) == p
  {
    hide CountKind, Without;
    WithoutFresh(p.resources, r);
    var counts := p.counts[r.kind := p.counts[r.kind] + 1];
    assert counts[r.kind := p.counts[r.kind]] == p.counts;
  }

  /** A fresh identifier is on no canvas. */
  lemma FreshIsUnlisted(s: Plane, prefix: string, pid: string)
    requires Consistent(s) && pid in s.projects
    ensures forall x <- s.projects[pid].resources :: x.id != MockId(prefix, s.sequence + 1)
  {
    hide Spent, MockId, Counted, Indexed, Owned;
    FreshId(s, prefix);
    hide Separate;
    var id := MockId(prefix, s.sequence + 1);
    assert ProjectOk(s, pid);
    forall x | x in s.projects[pid].resources
      ensures x.id != id
    {
      assert Lists(s.projects[pid].resources, x.id, x.kind);
      assert Has(s.stores, x.kind, x.id, pid);
      assert !InStore(s.stores, x.kind, id);
    }
  }

  /** Deleting what was just created gives the old plane back: stores, canvases, counters and
      list. Only the sequence has moved on, and volumes filed in advance under a service's
      future identifier are gone. */
  lemma DeleteUndoesCreate(s: Plane, kind: Kind, pid: string, name: string, at: int, count: nat)
    requires Consistent(s) && pid in s.projects
    ensures kind in s.stores
    ensures var id, t := MockId(Prefix(kind), s.sequence + 1), CreateResource(s, kind, pid, name, at, count);
            && kind in t.stores && id in t.stores[kind] && id !in s.stores[kind]
            && DeleteResource(t, kind, id) ==
               s.(sequence := t.sequence, volumes := if kind.ServiceKind? then s.volumes - {id} else s.volumes)
  {
    hide *;
    KindHasStore(s, kind);
    ConsistentParts(s);
    AnyKind(kind);
    var id := MockId(Prefix(kind), s.sequence + 1);
    var r := Created(s, kind, name, count);
    CreateParts(s, kind, pid, name, at, count);
    FreshId(s, Prefix(kind));
    InStoreUnfold(s.stores, kind, id);
    FreshIsUnlisted(s, Prefix(kind), pid);
    ProjectParts(s, pid);
    ShrunkUndoesGrown(s.projects[pid], r);
    DeleteCreated(s, CreateResource(s, kind, pid, name, at, count), kind, pid, r, at);
  }

  lemma DeleteCreated(s: Plane, t: Plane, kind: Kind, pid: string, r: Resource, at: int)
    requires kind in s.stores && pid in s.projects && r.id !in s.stores[kind]
    requires Shrunk(Grown(s.projects[pid], r), kind, r.id) == s.projects[pid]
    requires t.order == s.order && t.projects == s.projects[pid := Grown(s.projects[pid], r)]
    requires t.stores == s.stores[kind := s.stores[kind][r.id := Entry(pid, at)]]
    requires t.volumes == if kind.ServiceKind? then s.volumes[r.id := r.volumes] else s.volumes
    ensures DeleteResource(t, kind, r.id) ==
            s.(sequence := t.sequence, volumes := if kind.ServiceKind? then s.volumes - {r.id} else s.volumes)
  {
    hide Shrunk, Grown;
    var u := DeleteResource(t, kind, r.id);
    assert t.stores[kind] - {r.id} == s.stores[kind];
    assert u.stores == s.stores;
    assert u.projects == s.projects;
    assert kind.ServiceKind? ==> t.volumes - {r.id} == s.volumes - {r.id};
  }

  lemma WithoutFreshId(order: seq<string>, id: string)
    requires id !in order
    ensures WithoutId(order + [id], id) == order
  {
    FilterAppend(order, [id], OtherId(id));
    FilterAll(order, OtherId(id));
  }

  /** Deleting a project that was just created gives the old plane back. */
  lemma DeleteProjectUndoesCreate(s: Plane, name: string)
    requires Consistent(s)
    ensures DeleteProject(CreateProject(s, name), MockId("project", s.sequence + 1), name) == s.(sequence := s.sequence + 1)
  {
    hide *;
    var id := MockId("project", s.sequence + 1);
    ConsistentParts(s);
    FreshProjectId(s);
    ListedIsKept(s, id);
    WithoutFreshId(s.order, id);
    NothingOwned(s, id);
    DropFresh(s, id, name);
  }

  lemma ListedIsKept(s: Plane, id: string)
    requires Indexed(s) && id !in s.projects
    ensures id !in s.order
  {
  }

  lemma DropFresh(s: Plane, id: string, name: string)
    requires id == MockId("project", s.sequence + 1) && id !in s.projects && WithoutId(s.order + [id], id) == s.order
    requires Doomed(s.stores, s.volumes, id) == {} && DoomedServices(s.stores, id) == {}
    ensures DeleteProject(CreateProject(s, name), id, name) == s.(sequence := s.sequence + 1)
  {
    hide MockId, Doomed, DoomedServices, WithoutId;
    var t := CreateProject(s, name);
    assert t.projects - {id} == s.projects;
    var u := DeleteProject(t, id, name);
    assert forall kind :: kind in s.stores ==> u.stores[kind] == s.stores[kind] - {} == s.stores[kind];
    assert u.stores == s.stores;
    assert s.volumes - {} == s.volumes;
  }

  lemma NothingOwned(s: Plane, id: string)
    requires Owned(s) && id !in s.projects
    ensures Doomed(s.stores, s.volumes, id) == {} && DoomedServices(s.stores, id) == {}
  {
    forall kind | kind in s.stores
      ensures OwnedIn(s.stores[kind], id) == {}
    {
      forall x | x in s.stores[kind]
        ensures s.stores[kind][x].projectId != id
      {
        assert InStore(s.stores, kind, x);
      }
    }
  }

  // ---- Runs ----

  datatype Request =
    | NewProject(name: string)
    | NewResource(kind: Kind, projectId: string, name: string, updatedAt: int, volumeCount: nat)
    | Remove(kind: Kind, id: string)
    | Rename(gatewayId: string, name: string)
    | Icon(projectId: string, hasIcon: bool)
    | RemoveProject(projectId: string, expectedName: string)
    | NewVersion(kind: Kind, id: string, updatedAt: int)
    | PutService(serviceId: string)
    | NewVolume(projectId: string, serviceId: string)
    | RemoveVolume(projectId: string, serviceId: string, volumeId: string)
    | Elsewhere(drawn: nat)

  /** One request. `Elsewhere` is any request of another part that draws identifiers. */
  function Step(s: Plane, r: Request): Plane
    requires s.stores.Keys == KINDS
  {
    match r
    case NewProject(name) => CreateProject(s, name)
    case NewResource(kind, pid, name, at, count) => AnyKind(kind); CreateResource(s, kind, pid, name, at, count)
    case Remove(kind, id) => AnyKind(kind); DeleteResource(s, kind, id)
    case Rename(id, name) => RenameGateway(s, id, name)
    case Icon(pid, hasIcon) => SetIcon(s, pid, hasIcon)
    case RemoveProject(pid, name) => DeleteProject(s, pid, name)
    case NewVersion(kind, id, at) => AnyKind(kind); Touch(s, kind, id, at)
    case PutService(sid) => UpdateService(s, sid)
    case NewVolume(pid, sid) => AddVolume(s, pid, sid)
    case RemoveVolume(pid, sid, vid) => DropVolume(s, pid, sid, vid)
    case Elsewhere(drawn) => s.(sequence := s.sequence + drawn)
  }

  lemma AnyKind(kind: Kind)
    ensures kind in KINDS
  {
  }

  lemma StoresOfEveryKind(s: Plane)
    requires Consistent(s)
    ensures s.stores.Keys == KINDS
  {
  }

  lemma StepIs(s: Plane, r: Request)
    requires s.stores.Keys == KINDS
    ensures match r
            case NewProject(name) => Step(s, r) == CreateProject(s, name)
            case NewResource(kind, pid, name, at, count) =>
              kind in KINDS && kind in s.stores && Step(s, r) == CreateResource(s, kind, pid, name, at, count)
            case Remove(kind, id) => kind in KINDS && kind in s.stores && Step(s, r) == DeleteResource(s, kind, id)
            case Rename(id, name) => NetworkGatewayKind in s.stores && Step(s, r) == RenameGateway(s, id, name)
            case Icon(pid, hasIcon) => Step(s, r) == SetIcon(s, pid, hasIcon)
            case RemoveProject(pid, name) => Step(s, r) == DeleteProject(s, pid, name)
            case NewVersion(kind, id, at) => kind in s.stores && Step(s, r) == Touch(s, kind, id, at)
            case PutService(sid) => ServiceKind in s.stores && Step(s, r) == UpdateService(s, sid)
            case NewVolume(pid, sid) => Step(s, r) == AddVolume(s, pid, sid)
            case RemoveVolume(pid, sid, vid) => Step(s, r) == DropVolume(s, pid, sid, vid)
            case Elsewhere(drawn) => Step(s, r) == s.(sequence := s.sequence + drawn)
  {
    hide CreateProject, CreateResource, DeleteResource, RenameGateway, SetIcon, DeleteProject;
    hide Touch, UpdateService, AddVolume, DropVolume;
    forall kind: Kind
      ensures kind in s.stores
    {
      AnyKind(kind);
    }
  }

  lemma StepKeeps(s: Plane, r: Request)
    requires Consistent(s)
    ensures s.stores.Keys == KINDS && Consistent(Step(s, r))
  {
    hide *;
    StoresOfEveryKind(s);
    StepIs(s, r);
    match r
    case NewProject(name) => CreateProjectKeeps(s, name);
    case NewResource(kind, pid, name, at, count) => AnyKind(kind); CreateResourceKeeps(s, kind, pid, name, at, count);
    case Remove(kind, id) => AnyKind(kind); DeleteResourceKeeps(s, kind, id);
    case Rename(id, name) => RenameGatewayKeeps(s, id, name);
    case Icon(pid, hasIcon) => SetIconKeeps(s, pid, hasIcon);
    case RemoveProject(pid, name) => DeleteProjectKeeps(s, pid, name);
    case NewVersion(kind, id, at) => TouchKeeps(s, kind, id, at);
    case PutService(sid) => UpdateServiceKeeps(s, sid);
    case NewVolume(pid, sid) => AddVolumeKeeps(s, pid, sid);
    case RemoveVolume(pid, sid, vid) => DropVolumeKeeps(s, pid, sid, vid);
    case Elsewhere(drawn) => ConsistentLater(s, s.sequence + drawn);
  }

  /** The planes that sequential requests can lead to from `start`. */
  ghost predicate Leads(start: Plane, requests: seq<Request>, s: Plane)
    decreases |requests|
  {
    if requests == [] then s == start
    else start.stores.Keys == KINDS && Leads(Step(start, requests[0]), requests[1..], s)
  }

  /** Each request leads from one plane to the next. */
  lemma LeadsOn(start: Plane, r: Request)
    requires start.stores.Keys == KINDS
    ensures Leads(start, [], start) && Leads(start, [r], Step(start, r))
  {
    hide Step;
    assert [r][1..] == [];
  }

  lemma {:induction false} LeadsConcat(start: Plane, first: seq<Request>, mid: Plane, then': seq<Request>, end: Plane)
    requires Leads(start, first, mid) && Leads(mid, then', end)
    ensures Leads(start, first + then', end)
    decreases |first|
  {
    hide Step;
    if first == [] {
      assert first + then' == then';
    } else {
      assert (first + then')[1..] == first[1..] + then';
      LeadsConcat(Step(start, first[0]), first[1..], mid, then', end);
    }
  }

  lemma {:induction false} RunKeeps(start: Plane, requests: seq<Request>, s: Plane)
    requires Consistent(start) && Leads(start, requests, s)
    ensures Consistent(s)
    decreases |requests|
  {
    hide Consistent, Step;
    if requests != [] {
      StepKeeps(start, requests[0]);
      RunKeeps(Step(start, requests[0]), requests[1..], s);
    }
  }

  /** In every state reachable from a consistent one, for every project and kind, the stored
      counter is the number of canvas resources and the number of store entries. */
  lemma ReachableCountersAgree(start: Plane, requests: seq<Request>, s: Plane, pid: string, kind: Kind)
    requires Consistent(start) && Leads(start, requests, s) && pid in s.projects
    ensures kind in s.stores && kind in s.projects[pid].counts
    ensures s.projects[pid].counts[kind] == CountKind(s.projects[pid].resources, kind)
                                         == |OwnedIn(s.stores[kind], pid)|
  {
    hide *;
    RunKeeps(start, requests, s);
    AnyKind(kind);
    KindHasStore(s, kind);
    CountedKinds(s, pid);
    CountersAgree(s, pid, kind);
  }

  lemma CountedKinds(s: Plane, pid: string)
    requires Consistent(s) && pid in s.projects
    ensures s.projects[pid].counts.Keys == KINDS
  {
    assert ProjectOk(s, pid);
  }

  /** In every reachable state a deletion lowers its owner's counter by exactly one: the
      clamp at zero never takes effect. */
  lemma ClampNeverBites(start: Plane, requests: seq<Request>, s: Plane, kind: Kind, id: string)
    requires Consistent(start) && Leads(start, requests, s) && kind in s.stores && id in s.stores[kind]
    ensures var owner := s.stores[kind][id].projectId;
            var t := DeleteResource(s, kind, id);
            && owner in s.projects && kind in s.projects[owner].counts && s.projects[owner].counts[kind] >= 1
            && t.projects[owner].counts == s.projects[owner].counts[kind := s.projects[owner].counts[kind] - 1]
            && forall pid :: pid in s.projects && pid != owner ==> t.projects[pid] == s.projects[pid]
  {
    RunKeeps(start, requests, s);
    AnyKind(kind);
    hide Separate, Mirrors, Counted, Leads;
    var owner := s.stores[kind][id].projectId;
    InStoreUnfold(s.stores, kind, id);
    assert ProjectOk(s, owner);
    CountedKinds(s, owner);
    CountersAgree(s, owner, kind);
    assert id in OwnedIn(s.stores[kind], owner);
  }

  lemma EmptyIsConsistent()
    ensures Consistent(EMPTY)
  {
  }

  function Seeded(s: Plane, pid: string, rs: seq<Resource>): Plane
    requires s.stores.Keys == KINDS && pid in s.projects
    decreases |rs|
  {
    if rs == [] then s
    else
      AnyKind(rs[0].kind);
      Seeded(Insert(s, rs[0].kind, pid, rs[0], 0), pid, rs[1..])
  }

  function DemoStart(pid: string): Plane {
    EMPTY.(order := [pid], projects := map[pid := Project("storefront", false, NO_COUNTS, [])])
  }

  const DEMO_RESOURCES := [
    Resource("service-api", ServiceKind, "api", []), Resource("service-worker", ServiceKind, "worker", []),
    Resource("postgres-main", PostgresKind, "main", []), Resource("redis-cache", RedisKind, "cache", []),
    Resource("object-assets", ObjectStoreKind, "assets", [])]

  /** The seeded storefront: two services, a database, a cache and a store. */
  function Demo(): Plane {
    Seeded(DemoStart("project-demo"), "project-demo", DEMO_RESOURCES)
  }

  predicate IsSeed(id: string) {
    id != "" && !IsDigit(id[|id| - 1])
  }

  /** Seeding with distinct identifiers that the sequence never hands out. */
  lemma {:induction false} SeededKeeps(s: Plane, pid: string, rs: seq<Resource>)
    requires Consistent(s) && s.stores.Keys == KINDS && pid in s.projects && DistinctIds(rs)
    requires forall r <- rs :: Unused(s, r.id) && r.volumes == []
    ensures Consistent(Seeded(s, pid, rs))
    decreases |rs|
  {
    hide Consistent, Unused, Insert;
    if rs != [] {
      var t := SeedNext(s, pid, rs);
      SeededKeeps(t, pid, rs[1..]);
    }
  }

  lemma SeedNext(s: Plane, pid: string, rs: seq<Resource>) returns (t: Plane)
    requires Consistent(s) && s.stores.Keys == KINDS && pid in s.projects && DistinctIds(rs) && rs != []
    requires forall r <- rs :: Unused(s, r.id) && r.volumes == []
    ensures rs[0].kind in s.stores && t == Insert(s, rs[0].kind, pid, rs[0], 0)
    ensures Consistent(t) && t.stores.Keys == KINDS && pid in t.projects
    ensures DistinctIds(rs[1..]) && forall r <- rs[1..] :: Unused(t, r.id) && r.volumes == []
  {
    hide Consistent, Unused, Insert, CanInsert;
    var r := rs[0];
    AnyKind(r.kind);
    t := Insert(s, r.kind, pid, r, 0);
    CanSeed(s, pid, r);
    InsertKeeps(s, r.kind, pid, r, 0);
    InsertKeys(s, r.kind, pid, r);
    forall q | q in rs[1..]
      ensures Unused(t, q.id)
    {
      StillUnused(s, r.kind, pid, r, q.id);
    }
  }

  lemma CanSeed(s: Plane, pid: string, r: Resource)
    requires pid in s.projects && Unused(s, r.id) && r.volumes == []
    ensures CanInsert(s, r.kind, pid, r)
  {
    hide Unused;
    AnyKind(r.kind);
  }

  lemma InsertKeys(s: Plane, kind: Kind, pid: string, r: Resource)
    requires s.stores.Keys == KINDS && kind in KINDS && pid in s.projects
    ensures var t := Insert(s, kind, pid, r, 0); t.stores.Keys == KINDS && pid in t.projects
  {
  }

  lemma StillUnused(s: Plane, kind: Kind, pid: string, r: Resource, id: string)
    requires kind in s.stores && pid in s.projects && Unused(s, r.id) && Unused(s, id) && id != r.id && r.volumes == []
    ensures Unused(Insert(s, kind, pid, r, 0), id)
  {
    hide Spent;
    StoresAfterInsert(s.stores, kind, r.id, Entry(pid, 0));
    var t := Insert(s, kind, pid, r, 0);
    forall sid
      ensures !IsVolume(t, sid, id)
    {
      assert !IsVolume(s, sid, id);
    }
  }

  lemma DemoStartIsConsistent(pid: string)
    requires IsSeed(pid)
    ensures Consistent(DemoStart(pid)) && DemoStart(pid).stores.Keys == KINDS && pid in DemoStart(pid).projects
    ensures forall id :: IsSeed(id) ==> Unused(DemoStart(pid), id)
  {
    forall id | IsSeed(id)
      ensures Spent(id, 100)
    {
      SeededIsSpent(id, 100);
    }
    hide Spent;
    assert ProjectOk(DemoStart(pid), pid);
  }

  lemma DemoResourcesAreSeeds()
    ensures DistinctIds(DEMO_RESOURCES) && forall r <- DEMO_RESOURCES :: IsSeed(r.id) && r.volumes == []
  {
    var rs := DEMO_RESOURCES;
    assert rs[0].id[0] == 's' && rs[1].id[0] == 's' && rs[2].id[0] == 'p' && rs[3].id[0] == 'r' && rs[4].id[0] == 'o';
    assert |rs[0].id| == 11 && |rs[1].id| == 14;
  }

  lemma DemoIsConsistent()
    ensures Consistent(Demo())
  {
    DemoResourcesAreSeeds();
    DemoStartIsConsistent("project-demo");
    hide Consistent, DemoStart, Unused, Seeded, DistinctIds;
    SeededKeeps(DemoStart("project-demo"), "project-demo", DEMO_RESOURCES);
  }
}
