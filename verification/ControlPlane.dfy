/** The mock control plane on the heap. The project list and the canvases refer to the same
    project objects, and the request handlers rely on it: creations count through the list,
    deletions through the canvas. */
module ControlPlane {
  import opened Text
  import opened Resources
  import P = Plane

  class Project {
    const id: string
    const name: string
    var hasIcon: bool
    var counts: map<Kind, int>

    constructor (id: string, name: string, hasIcon: bool, counts: map<Kind, int>)
      ensures this.id == id && this.name == name && this.hasIcon == hasIcon && this.counts == counts
    {
      this.id, this.name, this.hasIcon, this.counts := id, name, hasIcon, counts;
    }
  }

  class Canvas {
    const project: Project
    var resources: seq<Resource>

    constructor (project: Project, resources: seq<Resource>)
      ensures this.project == project && this.resources == resources
    {
      this.project, this.resources := project, resources;
    }
  }

  /** What a canvas and its project object amount to. */
  ghost predicate Shows(canvas: Canvas, p: P.Project)
    reads canvas, canvas.project
  {
    && p.name == canvas.project.name && p.hasIcon == canvas.project.hasIcon && p.counts == canvas.project.counts
    && p.resources == canvas.resources
  }

  /** `findIndex` by identifier. */
  function FindProject(projects: seq<Project>, id: string): (i: nat)
    ensures i <= |projects| && (i < |projects| ==> projects[i].id == id)
    ensures forall j :: 0 <= j < i ==> projects[j].id != id
  {
    FindIndex(projects, (p: Project) => p.id == id)
  }

  function OtherThan(id: string): Project -> bool {
    (p: Project) => p.id != id
  }

  /** `projects.filter(p => p.id !== id)` */
  function WithoutProject(projects: seq<Project>, id: string): seq<Project> {
    Filter(projects, OtherThan(id))
  }

  ghost function WithCount(p: P.Project, kind: Kind, count: int): P.Project {
    p.(counts := p.counts[kind := count])
  }

  /** The list, named by `order`, holds the project objects the canvases hold. */
  ghost predicate Shared(projects: seq<Project>, order: seq<string>, canvases: map<string, Canvas>) {
    && |order| == |projects|
    && forall i :: 0 <= i < |projects| ==>
         projects[i].id == order[i] && order[i] in canvases && canvases[order[i]].project == projects[i]
  }

  ghost predicate Held(canvases: map<string, Canvas>, objects: set<object>) {
    forall pid :: pid in canvases ==>
      canvases[pid] in objects && canvases[pid].project in objects && canvases[pid].project.id == pid
  }

  lemma HeldWith(canvases: map<string, Canvas>, objects: set<object>, canvas: Canvas)
    requires Held(canvases, objects)
    ensures Held(canvases[canvas.project.id := canvas], objects + {canvas, canvas.project})
  {
  }

  lemma HeldWithout(canvases: map<string, Canvas>, objects: set<object>, id: string)
    requires Held(canvases, objects)
    ensures Held(canvases - {id}, objects)
  {
  }

  lemma SharedAppend(projects: seq<Project>, order: seq<string>, canvases: map<string, Canvas>, canvas: Canvas)
    requires Shared(projects, order, canvases) && canvas.project.id !in canvases
    ensures Shared(projects + [canvas.project], order + [canvas.project.id], canvases[canvas.project.id := canvas])
  {
  }

  lemma SharedReplace(projects: seq<Project>, order: seq<string>, canvases: map<string, Canvas>, i: nat, canvas: Canvas)
    requires Shared(projects, order, canvases) && Distinct(order) && i < |order| && order[i] == canvas.project.id
    ensures Shared(projects[i := canvas.project], order, canvases[canvas.project.id := canvas])
  {
    assert forall j :: 0 <= j < |order| && j != i ==> order[j] != order[i];
  }

  lemma SharedLeft(projects: seq<Project>, order: seq<string>, canvases: map<string, Canvas>, id: string)
    requires Shared(projects, order, canvases)
    ensures Shared(WithoutProject(projects, id), P.WithoutId(order, id), canvases - {id})
  {
    FilterLengths(projects, order, OtherThan(id), P.OtherId(id));
    FilterHolds(projects, OtherThan(id));
    var kept, left := WithoutProject(projects, id), P.WithoutId(order, id);
    forall k | 0 <= k < |kept|
      ensures kept[k].id == left[k] && left[k] in canvases - {id} && canvases[left[k]].project == kept[k]
    {
      var i := FilterTogether(projects, order, OtherThan(id), P.OtherId(id), k);
      assert kept[k] in kept;
    }
  }

  datatype Status = Created | Done | NotFound | Conflict

  class Server {
    var projects: seq<Project>
    var canvases: map<string, Canvas>
    var stores: map<Kind, map<string, P.Entry>>
    var volumes: map<string, seq<string>>
    var sequence: nat
    ghost var order: seq<string>
    ghost var shown: map<string, P.Project>
    ghost var objects: set<object>

    /** The shared objects amount to `order` and `shown`. */
    ghost predicate Linked()
      reads this`projects, this`canvases, this`order, this`shown, this`objects, objects
    {
      && this !in objects
      && Shared(projects, order, canvases)
      && Held(canvases, objects) && shown.Keys == canvases.Keys
      && forall pid :: pid in canvases ==> Shows(canvases[pid], shown[pid])
    }

    ghost function View(): P.Plane
      reads this`order, this`shown, this`stores, this`volumes, this`sequence
    {
      P.Plane(order, shown, stores, volumes, sequence)
    }

    ghost predicate Valid()
      reads this, objects
    {
      Linked() && P.Consistent(View())
    }

    /** The empty scenario. */
    constructor ()
      ensures Valid() && View() == P.EMPTY
    {
      projects, canvases, volumes, sequence := [], map[], map[], 100;
      stores := map k | k in P.KINDS :: map[];
      order, shown, objects := [], map[], {};
      new;
      P.EmptyIsConsistent();
    }

    // ---- What happens to the shared objects ----

    method AddProject(id: string, name: string)
      requires Linked() && id !in shown
      modifies this`projects, this`canvases, this`order, this`shown, this`objects
      ensures Linked() && order == old(order) + [id]
      ensures shown == old(shown)[id := P.Project(name, false, P.NO_COUNTS, [])]
      ensures fresh(objects - old(objects))
    {
      var project := new Project(id, name, false, P.NO_COUNTS);
      var canvas := new Canvas(project, []);
      hide Linked;
      Append(canvas, P.Project(name, false, P.NO_COUNTS, []));
    }

    /** Assigns a list and a table that share their project objects. */
    method Install(list: seq<Project>, ghost names: seq<string>, table: map<string, Canvas>,
                   ghost view: map<string, P.Project>, ghost repr: set<object>)
      requires this !in repr && Shared(list, names, table) && Held(table, repr)
      requires view.Keys == table.Keys && forall pid :: pid in table ==> Shows(table[pid], view[pid])
      modifies this`projects, this`canvases, this`order, this`shown, this`objects
      ensures Linked() && order == names && shown == view && objects == repr
    {
      hide Shared, Held, Shows;
      projects, canvases := list, table;
      order, shown, objects := names, view, repr;
    }

    method Append(canvas: Canvas, ghost p: P.Project)
      requires Linked() && canvas.project.id !in shown && Shows(canvas, p)
      modifies this`projects, this`canvases, this`order, this`shown, this`objects
      ensures Linked() && order == old(order) + [canvas.project.id]
      ensures shown == old(shown)[canvas.project.id := p]
      ensures objects == old(objects) + {canvas, canvas.project}
    {
      var id := canvas.project.id;
      SharedAppend(projects, order, canvases, canvas);
      HeldWith(canvases, objects, canvas);
      hide Shared, Held, Shows;
      Install(projects + [canvas.project], order + [id], canvases[id := canvas],
              shown[id := p], objects + {canvas, canvas.project});
    }

    /** `project[field] = count`, whichever way the project object was reached. */
    method SetCount(project: Project, kind: Kind, count: int)
      requires Linked() && project.id in canvases && canvases[project.id].project == project
      modifies objects, this`shown
      ensures Linked() && shown == old(shown)[project.id := WithCount(old(shown[project.id]), kind, count)]
    {
      project.counts := project.counts[kind := count];
      shown := shown[project.id := WithCount(shown[project.id], kind, count)];
    }

    /** `projectByID` over the list, then one more of a kind. */
    method TouchProject(id: string, kind: Kind)
      requires Linked() && (id in shown ==> id in order)
      modifies objects, this`shown
      ensures Linked()
      ensures id !in old(shown) ==> shown == old(shown)
      ensures id in old(shown) ==> shown == old(shown)[id := WithCount(old(shown[id]), kind, P.Count(old(shown[id]), kind) + 1)]
    {
      hide WithCount;
      var i := FindProject(projects, id);
      if i < |projects| {
        var project := projects[i];
        assert canvases[id].project == project && Shows(canvases[id], shown[id]);
        SetCount(project, kind, (if kind in project.counts then project.counts[kind] else 0) + 1);
      }
    }

    /** `canvas.resources = resources` */
    method SetResources(id: string, resources: seq<Resource>)
      requires Linked() && id in canvases
      modifies objects, this`shown
      ensures Linked() && shown == old(shown)[id := old(shown[id]).(resources := resources)]
    {
      canvases[id].resources := resources;
      shown := shown[id := shown[id].(resources := resources)];
    }

    lemma PlacedFacts(id: string)
      requires Linked() && id in shown
      ensures this !in objects && id in canvases && canvases[id] in objects && canvases[id].project in objects
      ensures canvases[id].project.id == id && Shows(canvases[id], shown[id])
    {
      assert Shows(canvases[id], shown[id]);
    }

    /** A creation's two writes: the canvas first, then the counter through the list. */
    method Record(id: string, r: Resource)
      requires Linked() && id in shown && id in order
      modifies objects, this`shown
      ensures Linked() && shown == old(shown)[id := P.Grown(old(shown[id]), r)]
    {
      hide Linked;
      PlacedFacts(id);
      var resources := canvases[id].resources + [r];
      SetResources(id, resources);
      TouchProject(id, r.kind);
    }

    /** A deletion's two writes, both through the canvas. */
    method Forget(id: string, kind: Kind, gone: string)
      requires Linked() && id in shown
      modifies objects, this`shown
      ensures Linked() && shown == old(shown)[id := P.Shrunk(old(shown[id]), kind, gone)]
    {
      hide Linked, P.Without;
      PlacedFacts(id);
      var canvas := canvases[id];
      var project := canvas.project;
      var count := if kind in project.counts then project.counts[kind] else 0;
      var resources := P.Without(canvas.resources, gone);
      SetResources(id, resources);
      SetCount(project, kind, P.Decremented(kind, count));
    }

    lemma ListedFacts(id: string)
      requires Linked() && id in order
      ensures var i := FindProject(projects, id);
              && i < |projects| == |order| && order[i] == id && projects[i].id == id
              && id in canvases && id in shown && canvases[id].project == projects[i] && Shows(canvases[id], shown[id])
    {
      var k :| 0 <= k < |order| && order[k] == id;
      assert projects[k].id == id;
      assert Shows(canvases[id], shown[id]);
    }

    /** The icon handler's spread copy: list and canvas both move to one new object. */
    method ReplaceProject(id: string, hasIcon: bool)
      requires Linked() && id in order && Distinct(order)
      modifies this`projects, this`canvases, this`order, this`shown, this`objects
      ensures Linked() && order == old(order) && id in old(shown) && shown == old(shown)[id := old(shown[id]).(hasIcon := hasIcon)]
      ensures fresh(objects - old(objects))
    {
      hide Linked, FindProject, Distinct;
      ListedFacts(id);
      var i := FindProject(projects, id);
      var current := projects[i];
      var updated := new Project(current.id, current.name, hasIcon, current.counts);
      var canvas := new Canvas(updated, canvases[id].resources);
      Exchange(i, canvas, shown[id].(hasIcon := hasIcon));
    }

    method Exchange(i: nat, canvas: Canvas, ghost p: P.Project)
      requires Linked() && Distinct(order) && i < |order| && order[i] == canvas.project.id && Shows(canvas, p)
      modifies this`projects, this`canvases, this`order, this`shown, this`objects
      ensures Linked() && order == old(order) && shown == old(shown)[canvas.project.id := p]
      ensures objects == old(objects) + {canvas, canvas.project}
    {
      var id := canvas.project.id;
      SharedReplace(projects, order, canvases, i, canvas);
      HeldWith(canvases, objects, canvas);
      hide Shared, Held, Distinct, Shows;
      Install(projects[i := canvas.project], order, canvases[id := canvas],
              shown[id := p], objects + {canvas, canvas.project});
    }

    /** Takes a project out of the list and its canvas out of the table. */
    method DropProject(id: string)
      requires Linked()
      modifies this`projects, this`canvases, this`order, this`shown, this`objects
      ensures Linked() && order == P.WithoutId(old(order), id) && shown == old(shown) - {id} && objects == old(objects)
    {
      SharedLeft(projects, order, canvases, id);
      HeldWithout(canvases, objects, id);
      hide Shared, Held, WithoutProject, P.WithoutId, Shows;
      Install(WithoutProject(projects, id), P.WithoutId(order, id), canvases - {id}, shown - {id}, objects);
    }

    lemma LinkedFacts(pid: string)
      requires Linked() && P.Indexed(View())
      ensures canvases.Keys == shown.Keys && (pid in order <==> pid in shown) && Distinct(order)
      ensures pid in canvases ==> Shows(canvases[pid], shown[pid]) && canvases[pid].project.id == pid
      ensures stores.Keys == P.KINDS && this !in objects
    {
      assert pid in canvases ==> Shows(canvases[pid], shown[pid]);
    }

    /** In a valid server the counters, whichever way the project object is reached, are the
        number of canvas resources and of store entries, and there is one object to reach. */
    lemma CountersAgree(pid: string, kind: Kind)
      requires Valid() && pid in canvases
      ensures kind in stores && kind in canvases[pid].project.counts
      ensures canvases[pid].project.counts[kind] == P.CountKind(canvases[pid].resources, kind)
                                                 == |P.OwnedIn(stores[kind], pid)|
      ensures var i := FindProject(projects, pid);
              && i < |projects| && projects[i] == canvases[pid].project
              && forall j :: 0 <= j < |projects| && projects[j].id == pid ==> j == i
    {
      P.AnyKind(kind);
      P.KindHasStore(View(), kind);
      P.CountedKinds(View(), pid);
      P.CountersAgree(View(), pid, kind);
      P.ConsistentParts(View());
      assert Shows(canvases[pid], shown[pid]);
      hide P.Consistent, P.Owned, P.Separate;
      OneObject(pid);
    }

    lemma OneObject(pid: string)
      requires Linked() && P.Indexed(View()) && pid in canvases
      ensures var i := FindProject(projects, pid);
              && i < |projects| && projects[i] == canvases[pid].project
              && forall j :: 0 <= j < |projects| && projects[j].id == pid ==> j == i
    {
      assert pid in order;
      var k :| 0 <= k < |order| && order[k] == pid;
      assert projects[k].id == pid;
    }

    // ---- The requests ----

    method CreateProject(name: string) returns (id: string)
      requires Valid()
      modifies this
      ensures Valid() && View() == P.CreateProject(old(View()), name) && id == MockId("project", sequence)
      ensures fresh(objects - old(objects))
    {
      hide Linked, P.Consistent, P.Indexed, P.Owned, P.Separate, MockId;
      P.ConsistentParts(View());
      LinkedFacts("");
      P.CreateProjectKeeps(View(), name);
      P.FreshProjectId(View());
      sequence := sequence + 1;
      id := MockId("project", sequence);
      AddProject(id, name);
    }

    /** `createService`, `createRedis`, `createPostgres`, `createObjectStore` and the gateway
        collection: store, canvas, counter. */
    method CreateResource(kind: Kind, projectId: string, name: string, updatedAt: int, volumeCount: nat)
        returns (status: Status)
      requires Valid()
      modifies this, objects
      ensures kind in old(stores) && Valid()
      ensures View() == P.CreateResource(old(View()), kind, projectId, name, updatedAt, volumeCount)
      ensures status == if projectId in old(canvases) then Created else NotFound
      ensures objects == old(objects)
    {
      hide Linked, P.Consistent, P.Indexed, P.Owned, P.Separate, MockId, P.VolumeIds, P.Prefix, P.Extra, P.CreateResource, P.Grown;
      P.AnyKind(kind);
      P.ConsistentParts(View());
      LinkedFacts(projectId);
      P.CreateResourceKeeps(View(), kind, projectId, name, updatedAt, volumeCount);
      if projectId !in canvases {
        P.CreateFails(View(), kind, projectId, name, updatedAt, volumeCount);
        return NotFound;
      }
      P.CreateParts(View(), kind, projectId, name, updatedAt, volumeCount);
      var id := MockId(P.Prefix(kind), sequence + 1);
      var resource := Resource(id, kind, name, P.VolumeIds(sequence + 2, P.Extra(kind, volumeCount)));
      Record(projectId, resource);
      Stock(resource, P.Entry(projectId, updatedAt), 1 + P.Extra(kind, volumeCount));
      return Created;
    }

    /** The store of a new resource, and a service's volumes. */
    method Stock(resource: Resource, entry: P.Entry, drawn: nat)
      requires resource.kind in stores
      modifies this`stores, this`volumes, this`sequence
      ensures stores == old(stores)[resource.kind := old(stores)[resource.kind][resource.id := entry]]
      ensures volumes == if resource.kind.ServiceKind? then old(volumes)[resource.id := resource.volumes] else old(volumes)
      ensures sequence == old(sequence) + drawn
    {
      stores := stores[resource.kind := stores[resource.kind][resource.id := entry]];
      if resource.kind.ServiceKind? {
        volumes := volumes[resource.id := resource.volumes];
      }
      sequence := sequence + drawn;
    }

    /** The part the three deletion handlers share: store, volumes, canvas, counter. */
    method DeleteResource(kind: Kind, id: string)
      requires Valid() && kind in stores && id in stores[kind]
      modifies this, objects
      ensures Valid() && View() == P.DeleteResource(old(View()), kind, id) && objects == old(objects)
    {
      hide Linked, P.Consistent, P.Indexed, P.Owned, P.Separate, P.Shrunk;
      P.AnyKind(kind);
      P.ConsistentParts(View());
      LinkedFacts("");
      P.DeleteResourceKeeps(View(), kind, id);
      P.OwnerExists(View(), kind, id);
      var owner := stores[kind][id].projectId;
      stores := stores[kind := stores[kind] - {id}];
      if kind.ServiceKind? {
        volumes := volumes - {id};
      }
      if owner in canvases {
        Forget(owner, kind, id);
      }
    }

    method DeleteService(id: string) returns (status: Status)
      requires Valid()
      modifies this, objects
      ensures Valid() && ServiceKind in old(stores) && View() == P.DeleteResource(old(View()), ServiceKind, id)
      ensures status == if id in old(stores)[ServiceKind] then Done else NotFound
      ensures objects == old(objects)
    {
      hide Linked, P.Consistent;
      P.KindHasStore(View(), ServiceKind);
      if id !in stores[ServiceKind] {
        return NotFound;
      }
      DeleteResource(ServiceKind, id);
      return Done;
    }

    /** Databases and stores are deleted only at the version the caller saw. */
    method DeleteManaged(kind: Kind, id: string, expectedUpdatedAt: int) returns (status: Status)
      requires Valid() && kind in {PostgresKind, RedisKind, ObjectStoreKind}
      modifies this, objects
      ensures Valid() && kind in old(stores) && objects == old(objects)
      ensures status == if id !in old(stores)[kind] then NotFound
                        else if old(stores)[kind][id].updatedAt != expectedUpdatedAt then Conflict else Done
      ensures View() == if status == Done then P.DeleteResource(old(View()), kind, id) else old(View())
    {
      hide Linked, P.Consistent;
      P.KindHasStore(View(), kind);
      if id !in stores[kind] {
        return NotFound;
      }
      if stores[kind][id].updatedAt != expectedUpdatedAt {
        return Conflict;
      }
      DeleteResource(kind, id);
      return Done;
    }

    /** The port-forward and public-access updates: a copy at a new version. */
    method UpdateManaged(kind: Kind, id: string, expectedUpdatedAt: int, now: int) returns (status: Status)
      requires Valid() && kind in {PostgresKind, RedisKind, ObjectStoreKind}
      modifies this`stores
      ensures Valid() && kind in old(stores)
      ensures status == if id !in old(stores)[kind] then NotFound
                        else if old(stores)[kind][id].updatedAt != expectedUpdatedAt then Conflict else Done
      ensures View() == if status == Done then P.Touch(old(View()), kind, id, now) else old(View())
    {
      hide Linked, P.Consistent;
      P.KindHasStore(View(), kind);
      if id !in stores[kind] {
        return NotFound;
      }
      if stores[kind][id].updatedAt != expectedUpdatedAt {
        return Conflict;
      }
      P.ConsistentParts(View());
      LinkedFacts("");
      P.TouchKeeps(View(), kind, id, now);
      stores := stores[kind := stores[kind][id := stores[kind][id].(updatedAt := now)]];
      return Done;
    }

    /** `canvasService.volumes = ...` for the entry found on the named project's canvas. */
    method ShowVolumes(projectId: string, id: string, edit: seq<string> -> seq<string>)
      requires Linked()
      modifies objects, this`shown
      ensures Linked() && View() == P.SetVolumes(old(View()), projectId, id, edit)
    {
      if projectId !in canvases {
        return;
      }
      PlacedFacts(projectId);
      hide Linked;
      var resources := canvases[projectId].resources;
      var i := FindIndex(resources, P.HasId(id));
      if i < |resources| {
        SetResources(projectId, P.Volumes(resources, i, edit(resources[i].volumes)));
      }
    }

    method CreateVolume(projectId: string, serviceId: string) returns (id: string)
      requires Valid()
      modifies this`volumes, this`sequence, this`shown, objects
      ensures Valid() && View() == P.AddVolume(old(View()), projectId, serviceId) && id == MockId("volume", sequence)
      ensures objects == old(objects)
    {
      hide Linked, P.Consistent, P.Indexed, P.Owned, P.Separate, MockId, P.SetVolumes;
      P.ConsistentParts(View());
      LinkedFacts("");
      P.AddVolumeKeeps(View(), projectId, serviceId);
      sequence := sequence + 1;
      id := MockId("volume", sequence);
      volumes := volumes[serviceId := (if serviceId in volumes then volumes[serviceId] else []) + [id]];
      ShowVolumes(projectId, serviceId, P.Push(id));
    }

    method DeleteVolume(projectId: string, serviceId: string, volumeId: string)
      requires Valid()
      modifies this`volumes, this`shown, objects
      ensures Valid() && View() == P.DropVolume(old(View()), projectId, serviceId, volumeId) && objects == old(objects)
    {
      hide Linked, P.Consistent, P.Indexed, P.Owned, P.Separate, P.WithoutId, P.SetVolumes;
      P.ConsistentParts(View());
      LinkedFacts("");
      P.DropVolumeKeeps(View(), projectId, serviceId, volumeId);
      volumes := volumes[serviceId := P.WithoutId(if serviceId in volumes then volumes[serviceId] else [], volumeId)];
      ShowVolumes(projectId, serviceId, P.Drop(volumeId));
    }

    /** PUT of a service, as far as its canvas entry goes. */
    method UpdateService(serviceId: string) returns (status: Status)
      requires Valid()
      modifies this`shown, objects
      ensures Valid() && ServiceKind in old(stores) && objects == old(objects)
      ensures status == if serviceId in old(stores)[ServiceKind] then Done else NotFound
      ensures View() == P.UpdateService(old(View()), serviceId)
    {
      hide Linked, P.Consistent, P.Indexed, P.Owned, P.Separate, P.SetVolumes;
      P.ConsistentParts(View());
      LinkedFacts("");
      P.UpdateServiceKeeps(View(), serviceId);
      if serviceId !in stores[ServiceKind] {
        return NotFound;
      }
      var own := if serviceId in volumes then volumes[serviceId] else [];
      ShowVolumes(stores[ServiceKind][serviceId].projectId, serviceId, P.Become(own));
      return Done;
    }

    method DeleteGateway(projectId: string, id: string) returns (status: Status)
      requires Valid()
      modifies this, objects
      ensures Valid() && NetworkGatewayKind in old(stores) && objects == old(objects)
      ensures status == if P.Has(old(stores), NetworkGatewayKind, id, projectId) then Done else NotFound
      ensures View() == if status == Done then P.DeleteResource(old(View()), NetworkGatewayKind, id) else old(View())
    {
      hide Linked, P.Consistent;
      P.KindHasStore(View(), NetworkGatewayKind);
      if !P.Has(stores, NetworkGatewayKind, id, projectId) {
        return NotFound;
      }
      DeleteResource(NetworkGatewayKind, id);
      return Done;
    }

    method UpdateGateway(projectId: string, id: string, name: string) returns (status: Status)
      requires Valid()
      modifies this, objects
      ensures Valid() && NetworkGatewayKind in old(stores) && objects == old(objects)
      ensures status == if P.Has(old(stores), NetworkGatewayKind, id, projectId) then Done else NotFound
      ensures View() == if status == Done then P.RenameGateway(old(View()), id, name) else old(View())
    {
      hide Linked, P.Consistent, P.Indexed, P.Owned, P.Separate, P.Replaced;
      P.KindHasStore(View(), NetworkGatewayKind);
      P.ConsistentParts(View());
      LinkedFacts(projectId);
      P.RenameGatewayKeeps(View(), id, name);
      if !P.Has(stores, NetworkGatewayKind, id, projectId) {
        return NotFound;
      }
      if projectId in canvases {
        SetResources(projectId, P.Replaced(canvases[projectId].resources, Resource(id, NetworkGatewayKind, name, [])));
      }
      return Done;
    }

    /** PUT and DELETE of a project icon; removing an icon that is not there is an error. */
    method ChangeIcon(projectId: string, hasIcon: bool) returns (status: Status)
      requires Valid()
      modifies this
      ensures Valid() && fresh(objects - old(objects))
      ensures status == if projectId !in old(shown) || (!hasIcon && !old(shown)[projectId].hasIcon) then NotFound else Done
      ensures View() == if status == Done then P.SetIcon(old(View()), projectId, hasIcon) else old(View())
    {
      hide Linked, P.Consistent, P.Indexed, P.Owned, P.Separate;
      P.ConsistentParts(View());
      LinkedFacts(projectId);
      P.SetIconKeeps(View(), projectId, hasIcon);
      if projectId !in canvases || (!hasIcon && !canvases[projectId].project.hasIcon) {
        return NotFound;
      }
      ReplaceProject(projectId, hasIcon);
      return Done;
    }

    method DeleteProject(projectId: string, expectedName: string) returns (status: Status)
      requires Valid()
      modifies this
      ensures Valid() && objects == old(objects)
      ensures status == if projectId !in old(shown) then NotFound
                        else if old(shown)[projectId].name != expectedName then Conflict else Done
      ensures View() == P.DeleteProject(old(View()), projectId, expectedName)
    {
      hide Linked, P.Consistent, P.Indexed, P.Owned, P.Separate, P.Doomed, P.DoomedServices, P.WithoutId;
      P.ConsistentParts(View());
      LinkedFacts(projectId);
      P.DeleteProjectKeeps(View(), projectId, expectedName);
      if projectId !in canvases {
        return NotFound;
      }
      if canvases[projectId].project.name != expectedName {
        return Conflict;
      }
      var doomed, services := P.Doomed(stores, volumes, projectId), P.DoomedServices(stores, projectId);
      stores := map kind | kind in stores :: stores[kind] - doomed;
      volumes := volumes - services;
      DropProject(projectId);
      return Done;
    }
  }
}
