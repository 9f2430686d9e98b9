/** Deployment history: which deployment of a service is active, and which log records are
    kept. */
module Deployments {
  import opened Text
  import opened Resources

  datatype Deployment = Deployment(id: string, configHash: string, imageDigest: string, succeeded: bool)

  datatype Service = Service(active: Option<string>, configHash: Option<string>, imageDigest: Option<string>, enabled: bool)

  datatype Record = Record(deploymentId: string, text: string)

  datatype Board = Board(
    services: map<string, Service>,
    deployments: map<string, seq<Deployment>>,
    logs: map<string, seq<Record>>,
    sequence: nat)

  function History(b: Board, sid: string): seq<Deployment> {
    if sid in b.deployments then b.deployments[sid] else []
  }

  function Log(b: Board, sid: string): seq<Record> {
    if sid in b.logs then b.logs[sid] else []
  }

  function Find(history: seq<Deployment>, id: string): (r: Option<Deployment>)
    ensures r.Some? ==> r.value in history && r.value.id == id
    ensures r.None? ==> forall d <- history :: d.id != id
  {
    if history == [] then None
    else if history[0].id == id then Some(history[0])
    else Find(history[1..], id)
  }

  function OtherThan(id: string): Deployment -> bool {
    (d: Deployment) => d.id != id
  }

  function NotOf(id: string): Record -> bool {
    (r: Record) => r.deploymentId != id
  }

  /** `deployments.filter(candidate => candidate.id !== id)` */
  function Without(history: seq<Deployment>, id: string): (kept: seq<Deployment>)
    ensures forall d :: d in kept <==> d in history && d.id != id
  {
    FilterHolds(history, OtherThan(id));
    Filter(history, OtherThan(id))
  }

  /** `records.filter(record => record.deploymentId !== id)` */
  function WithoutRecords(log: seq<Record>, id: string): (kept: seq<Record>)
    ensures forall r :: r in kept <==> r in log && r.deploymentId != id
  {
    FilterHolds(log, NotOf(id));
    Filter(log, NotOf(id))
  }

  // ---- The requests ----

  function CreateService(b: Board, id: string, enabled: bool): Board {
    b.(services := b.services[id := Service(None, None, None, enabled)],
       deployments := b.deployments[id := []],
       logs := b.logs[id := []])
  }

  /** PUT changes configuration only; the active deployment stays. */
  function UpdateService(b: Board, id: string, enabled: bool): Board {
    if id !in b.services then b else b.(services := b.services[id := b.services[id].(enabled := enabled)])
  }

  function DeleteService(b: Board, id: string): Board {
    if id !in b.services then b
    else b.(services := b.services - {id}, deployments := b.deployments - {id}, logs := b.logs - {id})
  }

  /** Project deletion takes out the project's services together with their histories and logs. */
  function DeleteServices(b: Board, serviceIds: set<string>, otherIds: set<string>): Board {
    b.(services := b.services - (serviceIds + otherIds), logs := b.logs - (serviceIds + otherIds),
       deployments := b.deployments - serviceIds)
  }

  /** Deploying an old deployment copies it under a new identifier and activates the copy. */
  function Deploy(b: Board, sid: string, id: string): Board {
    var found := Find(History(b, sid), id);
    if sid !in b.services || found.None? then b
    else
      var next := found.value.(id := MockId("deployment", b.sequence + 1), succeeded := true);
      b.(deployments := b.deployments[sid := [next] + History(b, sid)],
         services := b.services[sid := Service(Some(next.id), Some(next.configHash), Some(next.imageDigest), true)],
         sequence := b.sequence + 1)
  }

  /** Removing the active deployment only deactivates it; any other is dropped with its log. */
  function Remove(b: Board, sid: string, id: string): Board {
    if sid !in b.services || Find(History(b, sid), id).None? then b
    else if b.services[sid].active == Some(id) then
      b.(services := b.services[sid := Service(None, None, None, false)])
    else
      b.(deployments := b.deployments[sid := Without(History(b, sid), id)],
         logs := if sid in b.logs then b.logs[sid := WithoutRecords(b.logs[sid], id)] else b.logs)
  }

  datatype Request =
    | Create(enabled: bool)
    | Update(sid: string, enabled: bool)
    | Delete(sid: string)
    | DeleteProject(serviceIds: set<string>, otherIds: set<string>)
    | DoDeploy(sid: string, id: string)
    | DoRemove(sid: string, id: string)
    | Restart(sid: string, id: string)
    | Other(drawn: nat)

  /** One request. `Other` is any request elsewhere that draws identifiers. */
  function Step(b: Board, r: Request): Board {
    match r
    case Create(enabled) => CreateService(b.(sequence := b.sequence + 1), MockId("service", b.sequence + 1), enabled)
    case Update(sid, enabled) => UpdateService(b, sid, enabled)
    case Delete(sid) => DeleteService(b, sid)
    case DeleteProject(serviceIds, otherIds) => DeleteServices(b, serviceIds, otherIds)
    case DoDeploy(sid, id) => Deploy(b, sid, id)
    case DoRemove(sid, id) => Remove(b, sid, id)
    case Restart(_, _) => b
    case Other(drawn) => b.(sequence := b.sequence + drawn)
  }

  function Run(b: Board, requests: seq<Request>): Board
    decreases |requests|
  {
    if requests == [] then b else Run(Step(b, requests[0]), requests[1..])
  }

  /** A run is its requests one after the other. */
  lemma {:induction false} RunConcat(b: Board, first: seq<Request>, then': seq<Request>, r: Request)
    ensures Run(b, []) == b && Run(b, [r]) == Step(b, r)
    ensures Run(b, first + then') == Run(Run(b, first), then')
    decreases |first|
  {
    hide Step;
    assert [r][1..] == [] && Run(Step(b, r), [r][1..]) == Step(b, r);
    if first == [] {
      assert first + then' == then';
    } else {
      assert (first + then')[1..] == first[1..] + then';
      RunConcat(Step(b, first[0]), first[1..], then', r);
    }
  }

  /** Requests elsewhere only draw identifiers. */
  lemma OtherDraws(b: Board, drawn: nat)
    ensures Step(b, Other(drawn)) == b.(sequence := b.sequence + drawn)
  {
  }

  // ---- What every run keeps ----

  ghost predicate DistinctHistory(history: seq<Deployment>) {
    forall i, j :: 0 <= i < j < |history| ==> history[i].id != history[j].id
  }

  /** The active deployment is in the history, with the hash and digest the service reports. */
  ghost predicate ActiveOk(s: Service, history: seq<Deployment>) {
    s.active.Some? ==>
      exists d <- history :: d == Deployment(s.active.value, d.configHash, d.imageDigest, true)
                             && s.configHash == Some(d.configHash) && s.imageDigest == Some(d.imageDigest)
  }

  ghost predicate LogOk(log: seq<Record>, history: seq<Deployment>) {
    forall r <- log :: exists d <- history :: d.id == r.deploymentId
  }

  ghost predicate Sound(s: Service, history: seq<Deployment>, log: seq<Record>, sequence: nat) {
    && DistinctHistory(history) && ActiveOk(s, history) && LogOk(log, history)
    && forall d <- history :: Spent(d.id, sequence)
  }

  ghost predicate ServiceOk(b: Board, sid: string)
    requires sid in b.services
  {
    Sound(b.services[sid], History(b, sid), Log(b, sid), b.sequence)
  }

  ghost predicate Inv(b: Board) {
    forall sid :: sid in b.services ==> ServiceOk(b, sid)
  }

  lemma WithoutKeepsDistinct(history: seq<Deployment>, id: string)
    requires DistinctHistory(history)
    ensures DistinctHistory(Without(history, id))
  {
    var kept := Without(history, id);
    forall i, j | 0 <= i < j < |kept|
      ensures kept[i].id != kept[j].id
    {
      var a, b := FilterInOrder(history, OtherThan(id), i, j);
    }
  }

  lemma SpentLater(id: string, now: nat, later: nat)
    requires Spent(id, now) && now <= later
    ensures Spent(id, later)
  {
  }

  lemma SoundLater(s: Service, t: Service, history: seq<Deployment>, log: seq<Record>, now: nat, later: nat)
    requires Sound(s, history, log, now) && now <= later
    requires s.active == t.active && s.configHash == t.configHash && s.imageDigest == t.imageDigest
    ensures Sound(t, history, log, later)
  {
    forall d | d in history
      ensures Spent(d.id, later)
    {
      SpentLater(d.id, now, later);
    }
    hide Spent;
  }

  /** The history grows by a copy under a fresh identifier, which becomes active. */
  lemma SoundDeployed(s: Service, history: seq<Deployment>, log: seq<Record>, now: nat, next: Deployment)
    requires Sound(s, history, log, now) && next.id == MockId("deployment", now + 1) && next.succeeded
    ensures Sound(Service(Some(next.id), Some(next.configHash), Some(next.imageDigest), true), [next] + history, log, now + 1)
  {
    hide MockId, ActiveOk;
    MockIdIsSpent("deployment", now + 1, now + 1);
    forall d | d in history
      ensures d.id != next.id && Spent(d.id, now + 1)
    {
      SpentLater(d.id, now, now + 1);
    }
    hide Spent;
    var grown := [next] + history;
    NewestIsActive(next, history);
    assert LogOk(log, grown) by { LogGrows(log, history, next); }
  }

  lemma NewestIsActive(next: Deployment, history: seq<Deployment>)
    requires next.succeeded
    ensures ActiveOk(Service(Some(next.id), Some(next.configHash), Some(next.imageDigest), true), [next] + history)
  {
    assert next in [next] + history;
  }

  lemma LogGrows(log: seq<Record>, history: seq<Deployment>, next: Deployment)
    requires LogOk(log, history)
    ensures LogOk(log, [next] + history)
  {
    assert forall d <- history :: d in [next] + history;
  }

  lemma SoundRemoved(s: Service, history: seq<Deployment>, log: seq<Record>, now: nat, id: string)
    requires Sound(s, history, log, now) && s.active != Some(id)
    ensures Sound(s, Without(history, id), WithoutRecords(log, id), now)
  {
    hide Spent;
    WithoutKeepsDistinct(history, id);
  }

  lemma StepKeeps(b: Board, r: Request)
    requires Inv(b)
    ensures Inv(Step(b, r))
  {
    forall sid | sid in Step(b, r).services
      ensures ServiceOk(Step(b, r), sid)
    {
      hide Spent, MockId, Sound, Find;
      assert sid in b.services ==> ServiceOk(b, sid);
      match r
      case Create(_) => CreateOk(b, r, sid);
      case DoDeploy(_, _) => DeployOk(b, r, sid);
      case DoRemove(_, _) => RemoveOk(b, r, sid);
      case _ => QuietOk(b, r, sid);
    }
  }

  lemma CreateOk(b: Board, r: Request, sid: string)
    requires r.Create? && sid in Step(b, r).services && (sid in b.services ==> ServiceOk(b, sid))
    ensures ServiceOk(Step(b, r), sid)
  {
    hide Spent, MockId, Sound;
    if sid == MockId("service", b.sequence + 1) {
      EmptyIsSound(r.enabled, b.sequence + 1);
    } else {
      SoundLater(b.services[sid], b.services[sid], History(b, sid), Log(b, sid), b.sequence, b.sequence + 1);
    }
  }

  lemma EmptyIsSound(enabled: bool, now: nat)
    ensures Sound(Service(None, None, None, enabled), [], [], now)
  {
  }

  lemma DeployOk(b: Board, r: Request, sid: string)
    requires r.DoDeploy? && sid in b.services && ServiceOk(b, sid)
    ensures ServiceOk(Step(b, r), sid)
  {
    hide Spent, MockId, Sound, Find;
    var history := History(b, sid);
    var found := Find(History(b, r.sid), r.id);
    if r.sid in b.services && found.Some? {
      if r.sid == sid {
        SoundDeployed(b.services[sid], history, Log(b, sid), b.sequence,
                      found.value.(id := MockId("deployment", b.sequence + 1), succeeded := true));
      } else {
        SoundLater(b.services[sid], b.services[sid], history, Log(b, sid), b.sequence, b.sequence + 1);
      }
    }
  }

  lemma RemoveOk(b: Board, r: Request, sid: string)
    requires r.DoRemove? && sid in b.services && ServiceOk(b, sid)
    ensures ServiceOk(Step(b, r), sid)
  {
    hide Spent, Sound, Find;
    if r.sid == sid {
      if b.services[sid].active == Some(r.id) {
        InactiveIsSound(b.services[sid], History(b, sid), Log(b, sid), b.sequence);
      } else {
        SoundRemoved(b.services[sid], History(b, sid), Log(b, sid), b.sequence, r.id);
      }
    }
  }

  lemma InactiveIsSound(s: Service, history: seq<Deployment>, log: seq<Record>, now: nat)
    requires Sound(s, history, log, now)
    ensures Sound(Service(None, None, None, false), history, log, now)
  {
    hide Spent;
  }

  /** The other requests leave the history, log and active deployment of whatever stays. */
  lemma QuietOk(b: Board, r: Request, sid: string)
    requires !r.Create? && !r.DoDeploy? && !r.DoRemove?
    requires sid in b.services && ServiceOk(b, sid) && sid in Step(b, r).services
    ensures ServiceOk(Step(b, r), sid)
  {
    hide Sound;
    var c := Step(b, r);
    SoundLater(b.services[sid], c.services[sid], History(b, sid), Log(b, sid), b.sequence, c.sequence);
  }

  /** Over every run, a service's active deployment names exactly one deployment of its
      history, with the same hash and digest, and every kept log record names a deployment
      of that history. */
  lemma {:induction false} RunKeeps(b: Board, requests: seq<Request>)
    requires Inv(b)
    ensures Inv(Run(b, requests))
    decreases |requests|
  {
    hide Step, Inv;
    if requests != [] {
      StepKeeps(b, requests[0]);
      RunKeeps(Step(b, requests[0]), requests[1..]);
    }
  }

  lemma ActiveNamesExactlyOne(b: Board, requests: seq<Request>, sid: string)
    requires Inv(b) && sid in Run(b, requests).services && Run(b, requests).services[sid].active.Some?
    ensures var c := Run(b, requests);
            var s, history := c.services[sid], History(c, sid);
            exists i :: && 0 <= i < |history| && history[i].id == s.active.value && history[i].succeeded
                        && s.configHash == Some(history[i].configHash) && s.imageDigest == Some(history[i].imageDigest)
                        && forall j :: 0 <= j < |history| && history[j].id == s.active.value ==> j == i
  {
    RunKeeps(b, requests);
    hide Run, Spent;
    var c := Run(b, requests);
    assert ServiceOk(c, sid);
    var s, history := c.services[sid], History(c, sid);
    var d :| d in history && d == Deployment(s.active.value, d.configHash, d.imageDigest, true)
             && s.configHash == Some(d.configHash) && s.imageDigest == Some(d.imageDigest);
    var i :| 0 <= i < |history| && history[i] == d;
    assert forall j :: 0 <= j < |history| && history[j].id == s.active.value ==> j == i;
  }

  lemma KeptRecordsNameHistory(b: Board, requests: seq<Request>, sid: string, r: Record)
    requires Inv(b) && sid in Run(b, requests).services && r in Log(Run(b, requests), sid)
    ensures Find(History(Run(b, requests), sid), r.deploymentId).Some?
  {
    RunKeeps(b, requests);
    hide Run, Spent;
    assert ServiceOk(Run(b, requests), sid);
  }

  // ---- What the actions achieve ----

  /** A deploy activates a copy of the chosen deployment: same hash, same digest, new
      identifier, in front of a history that is otherwise unchanged. */
  lemma DeployActivates(b: Board, sid: string, id: string)
    requires Inv(b) && sid in b.services && Find(History(b, sid), id).Some?
    ensures var c, d, n := Deploy(b, sid, id), Find(History(b, sid), id).value, MockId("deployment", b.sequence + 1);
            && c.services[sid] == Service(Some(n), Some(d.configHash), Some(d.imageDigest), true)
            && Find(History(b, sid), n).None? && Find(History(c, sid), n) == Some(History(c, sid)[0])
            && History(c, sid)[0] == Deployment(n, d.configHash, d.imageDigest, true)
            && History(c, sid)[1..] == History(b, sid) && Log(c, sid) == Log(b, sid)
            && forall other :: other != sid ==>
                 && History(c, other) == History(b, other) && Log(c, other) == Log(b, other)
                 && (other in c.services <==> other in b.services)
                 && (other in b.services ==> c.services[other] == b.services[other])
  {
    hide MockId, Find, Inv;
    NewIsAbsent(b, sid);
    var c := Deploy(b, sid, id);
    FindHead(History(c, sid));
  }

  /** A new service has never been deployed. */
  lemma CreateStarts(b: Board, enabled: bool)
    ensures var c, sid := Step(b, Create(enabled)), "service-mock-" + Decimal(b.sequence + 1);
            && sid in c.services && c.services[sid] == Service(None, None, None, enabled)
            && History(c, sid) == [] && Log(c, sid) == [] && c.sequence == b.sequence + 1
            && OthersStay(b, c, {sid})
  {
    assert "service" + "-mock-" == "service-mock-";
  }

  /** Other services keep their record, history and log. */
  ghost predicate OthersStay(b: Board, c: Board, sids: set<string>) {
    forall other :: other !in sids ==>
      && (other in c.services <==> other in b.services) && (other in b.services ==> c.services[other] == b.services[other])
      && History(c, other) == History(b, other) && Log(c, other) == Log(b, other)
  }

  /** An update switches the service on or off and leaves what is deployed. */
  lemma UpdateSwitches(b: Board, sid: string, enabled: bool)
    requires sid in b.services
    ensures var c := Step(b, Update(sid, enabled));
            && sid in c.services && c.services[sid] == b.services[sid].(enabled := enabled)
            && History(c, sid) == History(b, sid) && Log(c, sid) == Log(b, sid) && OthersStay(b, c, {sid})
  {
  }

  /** Deleted services leave nothing behind, one at a time or with their project. */
  lemma DeleteLeavesNothing(b: Board, sids: set<string>, others: set<string>, sid: string)
    requires sid in b.services
    ensures var c := Step(b, Delete(sid));
            sid !in c.services && History(c, sid) == [] && Log(c, sid) == [] && OthersStay(b, c, {sid})
    ensures var c := Step(b, DeleteProject(sids, others));
            && (sid in sids ==> sid !in c.services && History(c, sid) == [] && Log(c, sid) == [])
            && OthersStay(b, c, sids + others)
  {
  }

  /** A restart changes nothing that is recorded here. */
  lemma RestartLeaves(b: Board, sid: string, id: string)
    ensures Step(b, Restart(sid, id)) == b
  {
  }

  lemma FindHead(history: seq<Deployment>)
    requires history != []
    ensures Find(history, history[0].id) == Some(history[0])
  {
  }

  lemma FreshIsNew(history: seq<Deployment>, sequence: nat)
    requires forall d <- history :: Spent(d.id, sequence)
    ensures forall d <- history :: d.id != MockId("deployment", sequence + 1)
    ensures Find(history, MockId("deployment", sequence + 1)).None?
  {
    hide MockId;
  }

  /** Removing the active deployment only deactivates it. Removing any other takes that one
      entry out of the history, and its records out of the log, and leaves the rest in place;
      other services stay as they are. */
  lemma RemoveForgets(b: Board, sid: string, id: string)
    requires Inv(b) && sid in b.services && Find(History(b, sid), id).Some?
    ensures var c, history := Remove(b, sid, id), History(b, sid);
            if b.services[sid].active == Some(id) then
              && c == b.(services := b.services[sid := Service(None, None, None, false)])
              && History(c, sid) == history && Log(c, sid) == Log(b, sid)
            else
              && c.services == b.services && c.sequence == b.sequence
              && (exists i :: 0 <= i < |history| && history[i].id == id && History(c, sid) == history[..i] + history[i + 1..])
              && (forall r :: multiset(Log(c, sid))[r] == if r.deploymentId == id then 0 else multiset(Log(b, sid))[r])
              && (forall i, j :: 0 <= i < j < |Log(c, sid)| ==> Before(Log(b, sid), Log(c, sid)[i], Log(c, sid)[j]))
    ensures var c := Remove(b, sid, id);
            forall other :: other != sid ==> History(c, other) == History(b, other) && Log(c, other) == Log(b, other)
  {
    hide Find, Inv, Without, WithoutRecords, Before;
    if b.services[sid].active != Some(id) {
      HistoryIsDistinct(b, sid);
      WithoutOne(History(b, sid), id);
      RecordsLeft(Log(b, sid), id);
    }
  }

  lemma HistoryIsDistinct(b: Board, sid: string)
    requires Inv(b) && sid in b.services
    ensures DistinctHistory(History(b, sid))
  {
    hide Spent, DistinctHistory;
    assert ServiceOk(b, sid);
  }

  /** `x` stands in the log somewhere before `y`. */
  ghost predicate Before(log: seq<Record>, x: Record, y: Record) {
    exists i, j :: 0 <= i < j < |log| && log[i] == x && log[j] == y
  }

  lemma WithoutOne(history: seq<Deployment>, id: string)
    requires DistinctHistory(history) && Find(history, id).Some?
    ensures exists i :: 0 <= i < |history| && history[i].id == id && Without(history, id) == history[..i] + history[i + 1..]
  {
    hide Without, DistinctHistory;
    var d := Find(history, id).value;
    var i :| 0 <= i < |history| && history[i] == d;
    WithoutAt(history, i);
  }

  lemma WithoutAt(history: seq<Deployment>, i: nat)
    requires DistinctHistory(history) && i < |history|
    ensures Without(history, history[i].id) == history[..i] + history[i + 1..]
  {
    hide Filter;
    var id := history[i].id;
    assert forall d <- history[..i] :: d.id != id;
    assert forall d <- history[i + 1..] :: d.id != id;
    hide DistinctHistory;
    FilterAllButOne(history[..i], history[i], history[i + 1..], OtherThan(id));
    assert history == history[..i] + [history[i]] + history[i + 1..];
  }

  lemma RecordsLeft(log: seq<Record>, id: string)
    ensures var kept := WithoutRecords(log, id);
            && (forall r :: multiset(kept)[r] == if r.deploymentId == id then 0 else multiset(log)[r])
            && (forall i, j :: 0 <= i < j < |kept| ==> Before(log, kept[i], kept[j]))
  {
    var kept, keep := WithoutRecords(log, id), NotOf(id);
    forall r: Record
      ensures multiset(kept)[r] == if r.deploymentId == id then 0 else multiset(log)[r]
    {
      FilterCounts(log, keep, r);
    }
    forall i, j | 0 <= i < j < |kept|
      ensures Before(log, kept[i], kept[j])
    {
      var a, b := FilterInOrder(log, keep, i, j);
    }
  }

  /** Removing a fresh deployment twice takes the deploy back, except that nothing is active
      any more and the identifier is spent. */
  lemma RemoveTwiceUndoesDeploy(b: Board, sid: string, id: string)
    requires Inv(b) && sid in b.services && Find(History(b, sid), id).Some?
    ensures var n := MockId("deployment", b.sequence + 1);
            Remove(Remove(Deploy(b, sid, id), sid, n), sid, n) ==
            b.(services := b.services[sid := Service(None, None, None, false)], sequence := b.sequence + 1)
  {
    hide MockId, Find, Inv, Filter, Without, WithoutRecords, Deploy, Remove;
    var n := MockId("deployment", b.sequence + 1);
    var next := Find(History(b, sid), id).value.(id := n, succeeded := true);
    NewIsAbsent(b, sid);
    NoneToDrop(Log(b, sid), n);
    var c := DeployParts(b, sid, id, next);
    FindHead(History(c, sid));
    WithoutHead(History(c, sid));
    var e := RemoveActive(c, sid, n);
    RemoveOther(e, sid, n);
    FindSomeIsListed(b, sid, id);
    assert [next] + History(b, sid) == History(e, sid) && History(e, sid)[1..] == History(b, sid);
    var f := Remove(e, sid, n);
    assert f.deployments == b.deployments;
    assert f.services == b.services[sid := Service(None, None, None, false)];
  }

  lemma NoneToDrop(log: seq<Record>, id: string)
    requires forall r <- log :: r.deploymentId != id
    ensures WithoutRecords(log, id) == log
  {
    FilterAll(log, NotOf(id));
  }

  lemma DeployParts(b: Board, sid: string, id: string, next: Deployment) returns (c: Board)
    requires sid in b.services && Find(History(b, sid), id).Some?
    requires next == Find(History(b, sid), id).value.(id := MockId("deployment", b.sequence + 1), succeeded := true)
    ensures c == Deploy(b, sid, id)
    ensures c == Board(b.services[sid := Service(Some(next.id), Some(next.configHash), Some(next.imageDigest), true)],
                       b.deployments[sid := [next] + History(b, sid)], b.logs, b.sequence + 1)
  {
    c := Deploy(b, sid, id);
  }

  lemma RemoveActive(b: Board, sid: string, id: string) returns (c: Board)
    requires sid in b.services && Find(History(b, sid), id).Some? && b.services[sid].active == Some(id)
    ensures c == Remove(b, sid, id) == b.(services := b.services[sid := Service(None, None, None, false)])
  {
    c := Remove(b, sid, id);
  }

  lemma RemoveOther(b: Board, sid: string, id: string)
    requires sid in b.services && Find(History(b, sid), id).Some? && b.services[sid].active != Some(id)
    ensures WithoutRecords(Log(b, sid), id) == Log(b, sid) ==>
              Remove(b, sid, id) == b.(deployments := b.deployments[sid := Without(History(b, sid), id)])
  {
    hide Find;
    assert sid in b.logs ==> b.logs[sid := b.logs[sid]] == b.logs;
  }

  lemma FindSomeIsListed(b: Board, sid: string, id: string)
    requires Find(History(b, sid), id).Some?
    ensures sid in b.deployments
  {
  }

  lemma WithoutHead(history: seq<Deployment>)
    requires history != [] && forall d <- history[1..] :: d.id != history[0].id
    ensures Without(history, history[0].id) == history[1..]
  {
    FilterAll(history[1..], OtherThan(history[0].id));
  }

  lemma NewIsAbsent(b: Board, sid: string)
    requires Inv(b) && sid in b.services
    ensures var n := MockId("deployment", b.sequence + 1);
            (forall d <- History(b, sid) :: d.id != n) && forall r <- Log(b, sid) :: r.deploymentId != n
  {
    hide MockId;
    assert ServiceOk(b, sid);
    FreshIsNew(History(b, sid), b.sequence);
  }

  /** The seeded histories and logs. */
  function Demo(): Board {
    var demo := Deployment("deployment-demo", "config-demo", "sha256:service-demo", true);
    var failed := Deployment("deployment-failed", "config-failed", "sha256:service-failed", false);
    var previous := Deployment("deployment-previous", "config-previous", "sha256:service-previous", true);
    var worker := Deployment("deployment-worker", "config-worker", "sha256:service-worker", true);
    Board(map["service-api" := Service(Some(demo.id), Some(demo.configHash), Some(demo.imageDigest), true),
              "service-worker" := Service(Some(worker.id), Some(worker.configHash), Some(worker.imageDigest), true)],
          map["service-api" := [demo, failed, previous], "service-worker" := [worker]],
          map["service-api" := [Record(demo.id, "HTTP server listening on :8080"), Record(demo.id, "GET /health 200 2ms"),
                                Record(failed.id, "Health check failed: connection refused"),
                                Record(previous.id, "Previous release started on :8080")]],
          100)
  }

  lemma DemoIsInv()
    ensures Inv(Demo())
  {
    var b := Demo();
    assert |"service-api"| == 11 && |"service-worker"| == 14;
    forall sid | sid in b.services
      ensures ServiceOk(b, sid)
    {
      forall d | d in History(b, sid)
        ensures Spent(d.id, 100)
      {
        SeededIsSpent(d.id, 100);
      }
      hide Spent;
      var history := History(b, sid);
      assert history[0] in history;
      if sid == "service-api" {
        assert |history[0].id| == 15 && |history[1].id| == 17 && |history[2].id| == 19;
        assert history[1] in history && history[2] in history;
      }
    }
  }

  // ---- The handlers ----

  datatype Status = Done | NotFound | Conflict

  class Handlers {
    var services: map<string, Service>
    var deployments: map<string, seq<Deployment>>
    var logs: map<string, seq<Record>>
    var sequence: nat

    ghost function View(): Board
      reads this
    {
      Board(services, deployments, logs, sequence)
    }

    method PutService(id: string, enabled: bool) returns (status: Status)
      requires Inv(View())
      modifies this`services
      ensures Inv(View())
      ensures status == if id in old(services) then Done else NotFound
      ensures View() == UpdateService(old(View()), id, enabled)
    {
      hide Inv;
      StepKeeps(View(), Update(id, enabled));
      if id !in services {
        return NotFound;
      }
      services := services[id := services[id].(enabled := enabled)];
      return Done;
    }

    method RemoveService(id: string) returns (status: Status)
      requires Inv(View())
      modifies this
      ensures Inv(View())
      ensures status == if id in old(services) then Done else NotFound
      ensures View() == DeleteService(old(View()), id)
    {
      hide Inv;
      StepKeeps(View(), Delete(id));
      if id !in services {
        return NotFound;
      }
      services := services - {id};
      deployments := deployments - {id};
      logs := logs - {id};
      return Done;
    }

    /** No service, no history, no log. */
    constructor ()
      ensures Inv(View()) && View() == Board(map[], map[], map[], 100)
    {
      services, deployments, logs, sequence := map[], map[], map[], 100;
    }

    /** Every action starts from a deployment found in the service's history. */
    method Act(sid: string, id: string, r: Request) returns (status: Status)
      requires Inv(View()) && r in {DoDeploy(sid, id), DoRemove(sid, id), Restart(sid, id)}
      modifies this
      ensures Inv(View())
      ensures status == if sid !in old(services) || Find(History(old(View()), sid), id).None? then NotFound
                        else if r.Restart? && old(services)[sid].active != Some(id) then Conflict
                        else Done
      ensures View() == if status == Done then Step(old(View()), r) else old(View())
    {
      hide Inv, Find, Without, WithoutRecords, MockId;
      StepKeeps(View(), r);
      var history := if sid in deployments then deployments[sid] else [];
      var found := Find(history, id);
      if sid !in services || found.None? {
        return NotFound;
      }
      var service := services[sid];
      if r.Restart? {
        return if service.active != Some(id) then Conflict else Done;
      }
      if r.DoDeploy? {
        sequence := sequence + 1;
        var next := found.value.(id := MockId("deployment", sequence), succeeded := true);
        deployments := deployments[sid := [next] + history];
        services := services[sid := Service(Some(next.id), Some(next.configHash), Some(next.imageDigest), true)];
        return Done;
      }
      if service.active == Some(id) {
        services := services[sid := Service(None, None, None, false)];
      } else {
        deployments := deployments[sid := Without(history, id)];
        if sid in logs {
          logs := logs[sid := WithoutRecords(logs[sid], id)];
        }
      }
      return Done;
    }
  }
}
