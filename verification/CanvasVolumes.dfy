/** What a canvas shows of a service's volumes. The volume handlers file a volume under the
    service a request names and show it on the canvas of the project it names, without asking
    whether the two belong together. */
module CanvasVolumes {
  import opened Text
  import opened Resources
  import opened Plane

  ghost predicate OnCanvas(s: Plane, pid: string, r: Resource) {
    pid in s.projects && r in s.projects[pid].resources
  }

  ghost predicate IsService(s: Plane, sid: string) {
    InStore(s.stores, ServiceKind, sid)
  }

  ghost function Owner(s: Plane, sid: string): string
    requires IsService(s, sid)
  {
    s.stores[ServiceKind][sid].projectId
  }

  /** The volumes on the entry of a service, on its owner's canvas. */
  ghost function ShownVolumes(s: Plane, sid: string): seq<string>
    requires IsService(s, sid)
  {
    match Spot(s, Owner(s, sid), sid)
    case None => []
    case Some(i) => s.projects[Owner(s, sid)].resources[i].volumes
  }

  /** The canvas shows the volumes that are filed for the service. */
  ghost predicate Shown(s: Plane, sid: string)
    requires IsService(s, sid)
  {
    ShownVolumes(s, sid) == VolumesOf(s, sid)
  }

  ghost predicate AllShown(s: Plane) {
    forall sid :: IsService(s, sid) ==> Shown(s, sid)
  }

  // ---- The entry of a service ----

  /** Every service has exactly one entry on all canvases together: its owner's. */
  lemma OneEntry(s: Plane, sid: string) returns (r: Resource)
    requires Consistent(s) && IsService(s, sid)
    ensures OnCanvas(s, Owner(s, sid), r) && r.id == sid && r.volumes == ShownVolumes(s, sid)
    ensures forall pid, x :: OnCanvas(s, pid, x) && x.id == sid ==> pid == Owner(s, sid) && x == r
  {
    hide *;
    var owner := Owner(s, sid);
    r := ListedEntry(s, sid);
    forall pid, x | OnCanvas(s, pid, x) && x.id == sid
      ensures pid == owner && x == r
    {
      ListedByOwner(s, sid, pid, x);
      SameEntry(s, owner, x, r);
    }
  }

  lemma ListedEntry(s: Plane, sid: string) returns (r: Resource)
    requires Consistent(s) && IsService(s, sid)
    ensures OnCanvas(s, Owner(s, sid), r) && r.id == sid && r.volumes == ShownVolumes(s, sid)
  {
    hide Counted, Separate, Spent, Indexed;
    var owner := Owner(s, sid);
    assert ProjectOk(s, owner);
    var rs := s.projects[owner].resources;
    assert Has(s.stores, ServiceKind, sid, owner);
    assert Lists(rs, sid, ServiceKind);
    var i := FindIndex(rs, HasId(sid));
    r := rs[i];
  }

  lemma ListedByOwner(s: Plane, sid: string, pid: string, r: Resource)
    requires Consistent(s) && IsService(s, sid) && OnCanvas(s, pid, r) && r.id == sid
    ensures pid == Owner(s, sid)
  {
    hide Counted, Indexed, Owned, Spent;
    assert ProjectOk(s, pid);
    assert Lists(s.projects[pid].resources, r.id, r.kind);
    assert Has(s.stores, r.kind, r.id, pid);
    HasIsIn(s.stores, r.kind, sid, pid);
  }

  lemma SameEntry(s: Plane, pid: string, x: Resource, y: Resource)
    requires Consistent(s) && OnCanvas(s, pid, x) && OnCanvas(s, pid, y) && x.id == y.id
    ensures x == y
  {
    hide Counted, Indexed, Owned, Separate, Has;
    assert ProjectOk(s, pid);
  }

  /** The entry found on the owner's canvas after a step is the entry. */
  lemma EntryIs(t: Plane, sid: string, r: Resource)
    requires Consistent(t) && IsService(t, sid) && OnCanvas(t, Owner(t, sid), r) && r.id == sid
    ensures ShownVolumes(t, sid) == r.volumes
  {
    hide *;
    var entry := OneEntry(t, sid);
  }

  /** A service whose entry and filed volumes a step leaves alone stays shown. */
  lemma StaysShown(s: Plane, t: Plane, sid: string, r: Resource)
    requires Consistent(t) && IsService(s, sid) && IsService(t, sid) && Shown(s, sid)
    requires r.id == sid && r.volumes == ShownVolumes(s, sid) && OnCanvas(t, Owner(t, sid), r)
    requires VolumesOf(t, sid) == VolumesOf(s, sid)
    ensures Shown(t, sid)
  {
    hide Consistent, OnCanvas, ShownVolumes, VolumesOf;
    EntryIs(t, sid, r);
  }

  // ---- Requests that edit an entry ----

  /** An edit through a project reaches the entry of that project's own service only. */
  lemma EditedEntry(s: Plane, pid: string, id: string, edit: seq<string> -> seq<string>, sid: string)
    requires Consistent(s) && IsService(s, sid)
    ensures var t := SetVolumes(s, pid, id, edit);
            && IsService(t, sid) && VolumesOf(t, sid) == VolumesOf(s, sid)
            && ShownVolumes(t, sid) ==
               if id == sid && pid == Owner(s, sid) then edit(ShownVolumes(s, sid)) else ShownVolumes(s, sid)
  {
    hide *;
    var t := SetVolumes(s, pid, id, edit);
    SetVolumesKeeps(s, pid, id, edit);
    SameStores(s, pid, id, edit, sid);
    var r := OneEntry(s, sid);
    var x := EntryAfter(s, pid, id, edit, sid, r);
    EntryIs(t, sid, x);
  }

  lemma SameStores(s: Plane, pid: string, id: string, edit: seq<string> -> seq<string>, sid: string)
    requires IsService(s, sid)
    ensures var t := SetVolumes(s, pid, id, edit);
            IsService(t, sid) && Owner(t, sid) == Owner(s, sid) && VolumesOf(t, sid) == VolumesOf(s, sid)
  {
    hide InStore, Spot;
  }

  lemma EntryAfter(s: Plane, pid: string, id: string, edit: seq<string> -> seq<string>, sid: string, r: Resource)
      returns (x: Resource)
    requires IsService(s, sid) && OnCanvas(s, Owner(s, sid), r) && r.id == sid && r.volumes == ShownVolumes(s, sid)
    ensures OnCanvas(SetVolumes(s, pid, id, edit), Owner(s, sid), x) && x.id == sid
    ensures x.volumes == if id == sid && pid == Owner(s, sid) then edit(r.volumes) else r.volumes
  {
    hide FindIndex;
    var owner := Owner(s, sid);
    var rs := s.projects[owner].resources;
    var k :| 0 <= k < |rs| && rs[k] == r;
    match Spot(s, pid, id)
    case None => x := r;
    case Some(i) =>
      if pid == owner {
        var ts := Volumes(rs, i, edit(rs[i].volumes));
        x := if id == sid then ts[i] else ts[k];
        assert x in ts;
      } else {
        x := r;
      }
  }

  /** A volume added to a shown service is shown exactly when the request names the project
      that owns the service. */
  lemma AddedIsShownExactly(s: Plane, pid: string, sid: string)
    requires Consistent(s) && IsService(s, sid) && Shown(s, sid)
    ensures var t := AddVolume(s, pid, sid); IsService(t, sid) && (Shown(t, sid) <==> pid == Owner(s, sid))
  {
    hide Consistent, MockId, SetVolumes, InStore, Spot;
    var vid := MockId("volume", s.sequence + 1);
    var filed := FiledKeeps(s, sid);
    EditedEntry(filed, pid, sid, Push(vid), sid);
    assert ShownVolumes(filed, sid) == ShownVolumes(s, sid) by { SameEntries(s, filed, sid); }
  }

  /** A volume dropped from a shown service is gone from its entry exactly when the request
      names the owner, or there was nothing to drop. */
  lemma DroppedIsShownExactly(s: Plane, pid: string, sid: string, vid: string)
    requires Consistent(s) && IsService(s, sid) && Shown(s, sid)
    ensures var t := DropVolume(s, pid, sid, vid);
            IsService(t, sid) && (Shown(t, sid) <==> pid == Owner(s, sid) || vid !in VolumesOf(s, sid))
  {
    hide Consistent, SetVolumes, InStore, Spot, WithoutId;
    var filed := DroppedKeeps(s, sid, vid);
    EditedEntry(filed, pid, sid, Drop(vid), sid);
    SameEntries(s, filed, sid);
    DropsExactly(VolumesOf(s, sid), vid);
  }

  lemma DropsExactly(vs: seq<string>, vid: string)
    ensures WithoutId(vs, vid) == vs <==> vid !in vs
  {
    LeftWasThere(vs, vid);
    if vid !in vs { FilterAll(vs, OtherId(vid)); }
  }

  lemma SameEntries(s: Plane, t: Plane, sid: string)
    requires IsService(s, sid) && t.stores == s.stores && t.projects == s.projects
    ensures IsService(t, sid) && ShownVolumes(t, sid) == ShownVolumes(s, sid)
  {
  }

  /** An update of a service shows its volumes, whatever was shown before. */
  lemma UpdateShows(s: Plane, sid: string)
    requires Consistent(s) && IsService(s, sid)
    ensures ServiceKind in s.stores && IsService(UpdateService(s, sid), sid) && Shown(UpdateService(s, sid), sid)
  {
    hide Consistent, SetVolumes, Spot;
    EditedEntry(s, Owner(s, sid), sid, Become(VolumesOf(s, sid)), sid);
  }

  // ---- Every run ----

  /** A volume request for a stored service names the project that owns it. */
  ghost predicate Routed(s: Plane, r: Request) {
    (r.NewVolume? || r.RemoveVolume?) && IsService(s, r.serviceId) ==> r.projectId == Owner(s, r.serviceId)
  }

  ghost predicate AllRouted(start: Plane, requests: seq<Request>)
    decreases |requests|
  {
    requests == []
    || (&& start.stores.Keys == KINDS && Routed(start, requests[0])
        && AllRouted(Step(start, requests[0]), requests[1..]))
  }

  /** A step leaves this service's entry and filed volumes alone. */
  ghost predicate LeavesEntry(s: Plane, t: Plane, sid: string, r: Resource) {
    && IsService(s, sid) && IsService(t, sid) && VolumesOf(t, sid) == VolumesOf(s, sid)
    && Owner(t, sid) == Owner(s, sid) && (OnCanvas(s, Owner(s, sid), r) ==> OnCanvas(t, Owner(s, sid), r))
  }

  lemma CreateProjectLeaves(s: Plane, name: string, sid: string, r: Resource)
    requires IsService(s, sid) && MockId("project", s.sequence + 1) !in s.projects
    ensures LeavesEntry(s, CreateProject(s, name), sid, r)
  {
    hide MockId;
  }

  lemma InsertLeaves(s: Plane, kind: Kind, pid: string, x: Resource, at: int, sid: string, r: Resource)
    requires kind in s.stores && pid in s.projects && IsService(s, sid) && x.id !in s.stores[kind]
    ensures LeavesEntry(s, Insert(s, kind, pid, x, at), sid, r)
  {
    var p := s.projects[pid];
    assert forall y <- p.resources :: y in p.resources + [x];
  }

  /** A new service is shown with the volumes it is filed with. */
  lemma InsertedIsShown(s: Plane, kind: Kind, pid: string, x: Resource, at: int, sid: string)
    requires kind in s.stores && pid in s.projects && x.kind == kind && !IsService(s, sid)
    requires Consistent(Insert(s, kind, pid, x, at)) && IsService(Insert(s, kind, pid, x, at), sid)
    ensures Shown(Insert(s, kind, pid, x, at), sid)
  {
    hide Consistent, ShownVolumes;
    var t := Insert(s, kind, pid, x, at);
    assert sid == x.id && kind == ServiceKind;
    assert x in s.projects[pid].resources + [x];
    EntryIs(t, sid, x);
  }

  lemma LeavesTwice(s: Plane, t: Plane, u: Plane, sid: string, r: Resource)
    requires LeavesEntry(s, t, sid, r) && LeavesEntry(t, u, sid, r)
    ensures LeavesEntry(s, u, sid, r)
  {
    hide OnCanvas, InStore;
  }

  lemma CreateResourceLeaves(
      s: Plane, kind: Kind, pid: string, name: string, at: int, count: nat, sid: string, r: Resource)
    requires kind in s.stores && pid in s.projects && IsService(s, sid)
    requires !InStore(s.stores, kind, MockId(Prefix(kind), s.sequence + 1))
    ensures LeavesEntry(s, CreateResource(s, kind, pid, name, at, count), sid, r)
  {
    hide CreateResource, MockId, Insert, LeavesEntry, VolumeIds;
    CreateInserts(s, kind, pid, name, at, count);
    var later := s.sequence + 1 + Extra(kind, count);
    LaterLeaves(s, later, sid, r);
    var t := s.(sequence := later);
    InsertLeaves(t, kind, pid, Created(s, kind, name, count), at, sid, r);
    LeavesTwice(s, t, CreateResource(s, kind, pid, name, at, count), sid, r);
  }

  lemma CreatedIsShown(s: Plane, kind: Kind, pid: string, name: string, at: int, count: nat, sid: string)
    requires Consistent(s) && kind in s.stores && pid in s.projects && !IsService(s, sid)
    requires IsService(CreateResource(s, kind, pid, name, at, count), sid)
    ensures Shown(CreateResource(s, kind, pid, name, at, count), sid)
  {
    hide Consistent, CreateResource, MockId, Insert, VolumeIds, Shown, InStore;
    AnyKind(kind);
    CreateResourceKeeps(s, kind, pid, name, at, count);
    CreateInserts(s, kind, pid, name, at, count);
    InsertedIsShown(s.(sequence := s.sequence + 1 + Extra(kind, count)), kind, pid, Created(s, kind, name, count), at, sid);
  }

  lemma DeleteResourceLeaves(s: Plane, kind: Kind, id: string, sid: string, r: Resource)
    requires kind in s.stores && id in s.stores[kind] && s.stores[kind][id].projectId in s.projects
    requires IsService(s, sid) && IsService(DeleteResource(s, kind, id), sid) && r.id == sid
    requires InStore(s.stores, ServiceKind, id) ==> kind == ServiceKind
    ensures LeavesEntry(s, DeleteResource(s, kind, id), sid, r)
  {
    hide Filter;
    var owner := s.stores[kind][id].projectId;
    FilterHolds(s.projects[owner].resources, OtherThan(id));
  }

  lemma RenameGatewayLeaves(s: Plane, id: string, name: string, sid: string, r: Resource)
    requires NetworkGatewayKind in s.stores && IsService(s, sid) && r.id == sid
    requires InStore(s.stores, NetworkGatewayKind, id) ==> sid != id
    ensures LeavesEntry(s, RenameGateway(s, id, name), sid, r)
  {
    hide InStore;
    InStoreUnfold(s.stores, NetworkGatewayKind, id);
    if OnCanvas(s, Owner(s, sid), r) {
      var rs := s.projects[Owner(s, sid)].resources;
      var i :| 0 <= i < |rs| && rs[i] == r;
      if sid != id { assert Replaced(rs, Resource(id, NetworkGatewayKind, name, []))[i] == r; }
    }
  }

  lemma DeleteProjectLeaves(s: Plane, pid: string, name: string, sid: string, r: Resource)
    requires Separate(s) && IsService(s, sid) && IsService(DeleteProject(s, pid, name), sid)
    ensures LeavesEntry(s, DeleteProject(s, pid, name), sid, r)
  {
    hide Doomed, WithoutId;
    StoresAfterProject(s, pid);
    hide Separate;
  }

  lemma OneKindEach(s: Plane, kind: Kind, id: string, sid: string)
    requires Separate(s) && IsService(s, sid) && InStore(s.stores, kind, id)
    ensures kind != ServiceKind ==> sid != id && !InStore(s.stores, ServiceKind, id)
  {
    hide Spent;
  }

  /** Every request that is not about volumes leaves every service that stays alone. */
  lemma StepLeaves(s: Plane, q: Request, sid: string, r: Resource)
    requires Consistent(s) && s.stores.Keys == KINDS && IsService(s, sid) && IsService(Step(s, q), sid) && r.id == sid
    requires !q.NewVolume? && !q.RemoveVolume? && !q.PutService?
    ensures LeavesEntry(s, Step(s, q), sid, r)
  {
    hide *;
    ConsistentParts(s);
    StepIs(s, q);
    StaysItself(s, sid, r);
    match q
    case NewProject(name) =>
      FreshProjectId(s);
      CreateProjectLeaves(s, name, sid, r);
    case NewResource(kind, pid, name, at, count) =>
      FreshId(s, Prefix(kind));
      if pid in s.projects {
        CreateResourceLeaves(s, kind, pid, name, at, count, sid, r);
      } else {
        CreateFails(s, kind, pid, name, at, count);
      }
    case Remove(kind, id) =>
      if id in s.stores[kind] {
        InStoreUnfold(s.stores, kind, id);
        OwnerExists(s, kind, id);
        OneKindEach(s, kind, id, sid);
        DeleteResourceLeaves(s, kind, id, sid, r);
      } else {
        DeleteFails(s, kind, id);
      }
    case Rename(id, name) =>
      if InStore(s.stores, NetworkGatewayKind, id) { OneKindEach(s, NetworkGatewayKind, id, sid); }
      RenameGatewayLeaves(s, id, name, sid, r);
    case Icon(pid, hasIcon) => SetIconLeaves(s, pid, hasIcon, sid, r);
    case RemoveProject(pid, name) => DeleteProjectLeaves(s, pid, name, sid, r);
    case NewVersion(kind, id, at) => TouchLeaves(s, kind, id, at, sid, r);
    case Elsewhere(drawn) => LaterLeaves(s, s.sequence + drawn, sid, r);
  }

  lemma StaysItself(s: Plane, sid: string, r: Resource)
    requires IsService(s, sid)
    ensures LeavesEntry(s, s, sid, r)
  {
  }

  lemma SetIconLeaves(s: Plane, pid: string, hasIcon: bool, sid: string, r: Resource)
    requires IsService(s, sid)
    ensures LeavesEntry(s, SetIcon(s, pid, hasIcon), sid, r)
  {
  }

  lemma TouchLeaves(s: Plane, kind: Kind, id: string, at: int, sid: string, r: Resource)
    requires kind in s.stores && IsService(s, sid)
    ensures LeavesEntry(s, Touch(s, kind, id, at), sid, r)
  {
  }

  lemma LaterLeaves(s: Plane, later: nat, sid: string, r: Resource)
    requires IsService(s, sid)
    ensures LeavesEntry(s, s.(sequence := later), sid, r)
  {
  }

  /** Only a creation makes a service. */
  lemma NewServiceIsCreated(s: Plane, q: Request, sid: string)
    requires Consistent(s) && s.stores.Keys == KINDS && !IsService(s, sid) && IsService(Step(s, q), sid)
    ensures q.NewResource? && q.projectId in s.projects
  {
    hide MockId, WithoutId, Spot, Doomed, Grown, Shrunk, Replaced;
  }

  lemma ServiceShown(s: Plane, q: Request, sid: string)
    requires Consistent(s) && s.stores.Keys == KINDS && AllShown(s) && Routed(s, q) && IsService(Step(s, q), sid)
    ensures Shown(Step(s, q), sid)
  {
    hide *;
    StepIs(s, q);
    StepKeeps(s, q);
    if !IsService(s, sid) {
      NewServiceIsCreated(s, q, sid);
      CreatedIsShown(s, q.kind, q.projectId, q.name, q.updatedAt, q.volumeCount, sid);
    } else {
      ShownOne(s, sid);
      match q
      case NewVolume(pid, id) => AddVolumeShows(s, pid, id, sid);
      case RemoveVolume(pid, id, vid) => DropVolumeShows(s, pid, id, vid, sid);
      case PutService(id) => UpdateServiceShows(s, id, sid);
      case _ =>
        var r := OneEntry(s, sid);
        StepLeaves(s, q, sid, r);
        LeavesParts(s, Step(s, q), sid, r);
        StaysShown(s, Step(s, q), sid, r);
    }
  }

  lemma ShownOne(s: Plane, sid: string)
    requires AllShown(s) && IsService(s, sid)
    ensures Shown(s, sid)
  {
    hide Shown;
  }

  lemma LeavesParts(s: Plane, t: Plane, sid: string, r: Resource)
    requires LeavesEntry(s, t, sid, r) && OnCanvas(s, Owner(s, sid), r)
    ensures OnCanvas(t, Owner(t, sid), r) && VolumesOf(t, sid) == VolumesOf(s, sid)
  {
  }

  lemma AddVolumeShows(s: Plane, pid: string, id: string, sid: string)
    requires Consistent(s) && IsService(s, sid) && Shown(s, sid) && Routed(s, NewVolume(pid, id))
    ensures IsService(AddVolume(s, pid, id), sid) && Shown(AddVolume(s, pid, id), sid)
  {
    hide Consistent, MockId, SetVolumes, InStore, Spot;
    if id == sid {
      hide Shown;
      AddedIsShownExactly(s, pid, sid);
    } else {
      var filed := FiledKeeps(s, id);
      SameEntries(s, filed, sid);
      EditedEntry(filed, pid, id, Push(MockId("volume", s.sequence + 1)), sid);
    }
  }

  lemma DropVolumeShows(s: Plane, pid: string, id: string, vid: string, sid: string)
    requires Consistent(s) && IsService(s, sid) && Shown(s, sid) && Routed(s, RemoveVolume(pid, id, vid))
    ensures IsService(DropVolume(s, pid, id, vid), sid) && Shown(DropVolume(s, pid, id, vid), sid)
  {
    hide Consistent, SetVolumes, InStore, Spot, WithoutId;
    if id == sid {
      hide Shown;
      DroppedIsShownExactly(s, pid, sid, vid);
    } else {
      var filed := DroppedKeeps(s, id, vid);
      SameEntries(s, filed, sid);
      EditedEntry(filed, pid, id, Drop(vid), sid);
    }
  }

  lemma UpdateServiceShows(s: Plane, id: string, sid: string)
    requires Consistent(s) && ServiceKind in s.stores && IsService(s, sid) && Shown(s, sid)
    ensures IsService(UpdateService(s, id), sid) && Shown(UpdateService(s, id), sid)
  {
    hide Consistent, SetVolumes, Spot;
    if id in s.stores[ServiceKind] {
      EditedEntry(s, s.stores[ServiceKind][id].projectId, id, Become(VolumesOf(s, id)), sid);
    }
  }

  /** Over every run whose volume requests name the owning project, each service's canvas
      entry shows exactly the volumes filed for it. */
  lemma {:induction false} RunShows(start: Plane, requests: seq<Request>, s: Plane)
    requires Consistent(start) && AllShown(start) && AllRouted(start, requests) && Leads(start, requests, s)
    ensures AllShown(s)
    decreases |requests|
  {
    hide Consistent, Step, Shown, Routed, IsService;
    if requests != [] {
      var t := Step(start, requests[0]);
      StepKeeps(start, requests[0]);
      forall sid | IsService(t, sid)
        ensures Shown(t, sid)
      {
        ServiceShown(start, requests[0], sid);
      }
      RunShows(t, requests[1..], s);
    }
  }

  // ---- The seeded storefront ----

  lemma {:induction false} SeededShows(s: Plane, pid: string, rs: seq<Resource>)
    requires Consistent(s) && s.stores.Keys == KINDS && pid in s.projects && DistinctIds(rs) && AllShown(s)
    requires forall r <- rs :: Unused(s, r.id) && r.volumes == []
    ensures AllShown(Seeded(s, pid, rs))
    decreases |rs|
  {
    hide Consistent, Unused, Insert, CanInsert, IsService, Shown;
    if rs != [] {
      var r := rs[0];
      var t := SeedNext(s, pid, rs);
      forall sid | IsService(t, sid)
        ensures Shown(t, sid)
      {
        SeedShows(s, pid, r, sid);
      }
      SeededShows(t, pid, rs[1..]);
    }
  }

  lemma SeedShows(s: Plane, pid: string, x: Resource, sid: string)
    requires Consistent(s) && x.kind in s.stores && pid in s.projects && AllShown(s)
    requires Unused(s, x.id) && x.volumes == [] && IsService(Insert(s, x.kind, pid, x, 0), sid)
    ensures Shown(Insert(s, x.kind, pid, x, 0), sid)
  {
    hide *;
    CanSeed(s, pid, x);
    InsertKeeps(s, x.kind, pid, x, 0);
    var t := Insert(s, x.kind, pid, x, 0);
    if IsService(s, sid) {
      ShownOne(s, sid);
      UnusedIsOut(s, x.id, x.kind);
      InStoreUnfold(s.stores, x.kind, x.id);
      var r := OneEntry(s, sid);
      InsertLeaves(s, x.kind, pid, x, 0, sid, r);
      LeavesParts(s, t, sid, r);
      StaysShown(s, t, sid, r);
    } else {
      InsertedIsShown(s, x.kind, pid, x, 0, sid);
    }
  }

  lemma DemoIsShown()
    ensures AllShown(Demo())
  {
    DemoResourcesAreSeeds();
    DemoStartIsConsistent("project-demo");
    assert AllShown(DemoStart("project-demo"));
    hide Consistent, DemoStart, Unused, Seeded, DistinctIds, AllShown;
    SeededShows(DemoStart("project-demo"), "project-demo", DEMO_RESOURCES);
  }

  lemma {:induction false} SeededHolds(s: Plane, pid: string, rs: seq<Resource>, kind: Kind, id: string)
    requires s.stores.Keys == KINDS && pid in s.projects
    requires Has(s.stores, kind, id, pid) || exists r <- rs :: r.kind == kind && r.id == id
    ensures Has(Seeded(s, pid, rs).stores, kind, id, pid)
    decreases |rs|
  {
    if rs != [] {
      AnyKind(rs[0].kind);
      InsertKeys(s, rs[0].kind, pid, rs[0]);
      SeededHolds(Insert(s, rs[0].kind, pid, rs[0], 0), pid, rs[1..], kind, id);
    }
  }

  lemma DemoHoldsApi()
    ensures IsService(Demo(), "service-api") && Owner(Demo(), "service-api") == "project-demo"
  {
    DemoStartIsConsistent("project-demo");
    assert DEMO_RESOURCES[0] in DEMO_RESOURCES;
    hide Consistent, DemoStart, Seeded, Unused;
    SeededHolds(DemoStart("project-demo"), "project-demo", DEMO_RESOURCES, ServiceKind, "service-api");
  }

  /** In the seeded storefront, a volume request for its service that names another project
      leaves the canvas behind what is filed. */
  lemma MisroutedVolume(pid: string)
    requires pid != "project-demo"
    ensures var t := AddVolume(Demo(), pid, "service-api"); IsService(t, "service-api") && !Shown(t, "service-api")
  {
    hide *;
    DemoHoldsApi();
    DemoIsConsistent();
    DemoIsShown();
    ShownOne(Demo(), "service-api");
    AddedIsShownExactly(Demo(), pid, "service-api");
  }
}
