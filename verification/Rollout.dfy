/** Feature-flag rollout schedules read as step functions of time. */
module Rollout {
  import opened Text
  import opened Sorting

  datatype Step = Step(at: real, percentage: real)

  /** A step as it arrives; `None` is a number that is not finite. */
  datatype RawStep = RawStep(at: Option<real>, percentage: Option<real>)

  datatype RawGroup = RawGroup(hasProperties: bool, base: real, steps: seq<RawStep>)

  datatype Group = Group(hasProperties: bool, base: real, steps: seq<Step>)

  function Clamp(x: real): real {
    if x < 0.0 then 0.0 else if x > 100.0 then 100.0 else x
  }

  // ---- Reading the targeting: finite steps only, clamped, in stable time order ----

  function Finite(raw: seq<RawStep>): seq<Step> {
    if raw == [] then []
    else (if raw[0].at.Some? && raw[0].percentage.Some? then [Step(raw[0].at.value, Clamp(raw[0].percentage.value))] else [])
         + Finite(raw[1..])
  }

  predicate InOrder(s: seq<Step>) {
    forall i, j :: 0 <= i < j < |s| ==> s[i].at <= s[j].at
  }

  predicate Earlier(x: Step, y: Step) {
    x.at < y.at
  }

  function TargetingGroups(raw: seq<RawGroup>): (gs: seq<Group>)
    ensures |gs| == |raw|
  {
    if raw == [] then []
    else [Group(raw[0].hasProperties, raw[0].base, Sort(Finite(raw[0].steps), Earlier))] + TargetingGroups(raw[1..])
  }

  lemma SortInOrder(s: seq<Step>)
    ensures InOrder(Sort(s, Earlier)) && multiset(Sort(s, Earlier)) == multiset(s)
  {
    SortIsOrdered(s, Earlier);
    SortIsPermutation(s, Earlier);
    assert forall i, j :: 0 <= i < j < |s| ==> !Earlier(Sort(s, Earlier)[j], Sort(s, Earlier)[i]);
  }

  // ---- What reading keeps ----

  function Distance(x: real, y: real): real {
    if x < y then y - x else x - y
  }

  /** Clamping goes to the nearest percentage. */
  lemma ClampIsNearest(x: real, y: real)
    requires 0.0 <= y <= 100.0
    ensures 0.0 <= Clamp(x) <= 100.0 && Distance(x, Clamp(x)) <= Distance(x, y)
  {
  }

  /** A step survives reading exactly when both its numbers are finite; order and number of
      the survivors are kept, and only their percentage is clamped. */
  lemma {:induction false} FiniteExactly(raw: seq<RawStep>)
    ensures Finite(raw) == seq(|Filter(raw, IsFinite)|, i requires 0 <= i < |Filter(raw, IsFinite)| => Read(Filter(raw, IsFinite)[i]))
  {
    if raw != [] {
      FiniteExactly(raw[1..]);
      var rest, kept := Filter(raw[1..], IsFinite), Filter(raw, IsFinite);
      assert kept == (if IsFinite(raw[0]) then [raw[0]] else []) + rest;
    }
  }

  predicate IsFinite(step: RawStep) {
    step.at != None && step.percentage != None
  }

  function Read(step: RawStep): (r: Step)
    ensures IsFinite(step) ==> r == Step(step.at.value, Clamp(step.percentage.value))
  {
    if IsFinite(step) then Step(step.at.value, Clamp(step.percentage.value)) else Step(0.0, 0.0)
  }

  /** Every group keeps its place, its base and whether it has properties. */
  lemma {:induction false} GroupsKeepPlace(raw: seq<RawGroup>, i: nat)
    requires i < |raw|
    ensures var g := TargetingGroups(raw)[i];
            g.hasProperties == raw[i].hasProperties && g.base == raw[i].base && g.steps == Sort(Finite(raw[i].steps), Earlier)
  {
    if i > 0 { GroupsKeepPlace(raw[1..], i - 1); }
  }

  // ---- The step function ----

  /** Step `i` is in force: latest of those not after `now`, and the last one on a tie. */
  ghost predicate InForce(s: seq<Step>, now: real, i: int) {
    && 0 <= i < |s| && s[i].at <= now
    && forall j :: 0 <= j < |s| && s[j].at <= now ==> s[j].at < s[i].at || (s[j].at == s[i].at && j <= i)
  }

  /** `r` is the value of the schedule at `now`. */
  ghost predicate IsRollout(s: seq<Step>, base: real, now: real, r: real) {
    || (exists i :: InForce(s, now, i) && r == Clamp(s[i].percentage))
    || ((forall j :: 0 <= j < |s| ==> s[j].at > now) && r == Clamp(base))
  }

  /** One round of the loop, as a value. */
  function Better(best: Option<Step>, x: Step, now: real): Option<Step> {
    if x.at <= now && (best.None? || x.at >= best.value.at) then Some(x) else best
  }

  function Best(s: seq<Step>, now: real): Option<Step> {
    if s == [] then None else Better(Best(s[..|s| - 1], now), s[|s| - 1], now)
  }

  function RolloutAt(s: seq<Step>, base: real, now: real): real {
    match Best(s, now)
    case None => Clamp(base)
    case Some(x) => Clamp(x.percentage)
  }

  method GroupRollout(group: Group, now: real) returns (percentage: real)
    ensures percentage == RolloutAt(group.steps, group.base, now)
  {
    percentage := group.base;
    var found, latest := false, 0.0;
    for i := 0 to |group.steps|
      invariant found <==> Best(group.steps[..i], now).Some?
      invariant found ==> Best(group.steps[..i], now) == Some(Step(latest, percentage))
      invariant !found ==> percentage == group.base
    {
      var step := group.steps[i];
      assert group.steps[..i + 1][..i] == group.steps[..i];
      if step.at <= now && (!found || step.at >= latest) {
        found, latest, percentage := true, step.at, step.percentage;
      }
    }
    assert group.steps[..|group.steps|] == group.steps;
    percentage := Clamp(percentage);
  }

  /** What the loop leaves behind is the step in force. */
  lemma {:induction false} BestIsInForce(s: seq<Step>, now: real) returns (k: int)
    ensures Best(s, now).None? ==> forall j :: 0 <= j < |s| ==> s[j].at > now
    ensures Best(s, now).Some? ==> InForce(s, now, k) && s[k] == Best(s, now).value
  {
    k := -1;
    if s != [] {
      var n := |s| - 1;
      k := BestIsInForce(s[..n], now);
      assert forall j :: 0 <= j < n ==> s[..n][j] == s[j];
      if s[n].at <= now && (Best(s[..n], now).None? || s[n].at >= Best(s[..n], now).value.at) {
        k := n;
      }
    }
  }

  /** The loop computes the step function of the schedule, for any list of steps. */
  lemma RolloutIsStepFunction(s: seq<Step>, base: real, now: real, r: real)
    ensures r == RolloutAt(s, base, now) <==> IsRollout(s, base, now, r)
  {
    var k := BestIsInForce(s, now);
    forall i | InForce(s, now, i)
      ensures Best(s, now) == Some(s[i])
    {
      assert s[i].at <= now;
    }
  }

  // ---- Sorting does not change the schedule ----

  lemma BetterSwap(best: Option<Step>, x: Step, y: Step, now: real)
    requires x.at < y.at
    ensures Better(Better(best, x, now), y, now) == Better(Better(best, y, now), x, now)
  {
  }

  lemma BestAppend(s: seq<Step>, x: Step, now: real)
    ensures Best(s + [x], now) == Better(Best(s, now), x, now)
  {
    assert (s + [x])[..|s|] == s;
  }

  lemma {:induction false} BestPlace(s: seq<Step>, x: Step, now: real)
    ensures Best(Place(s, x, Earlier), now) == Better(Best(s, now), x, now)
  {
    if s == [] || s[|s| - 1].at <= x.at {
      BestAppend(s, x, now);
    } else {
      var rest, last := s[..|s| - 1], s[|s| - 1];
      BestPlace(rest, x, now);
      BestAppend(Place(rest, x, Earlier), last, now);
      BetterSwap(Best(rest, now), x, last, now);
    }
  }

  /** The stable sort leaves the step function as it was. */
  lemma {:induction false} SortKeepsRollout(s: seq<Step>, base: real, now: real)
    ensures Best(Sort(s, Earlier), now) == Best(s, now)
    ensures RolloutAt(Sort(s, Earlier), base, now) == RolloutAt(s, base, now)
  {
    if s != [] {
      SortKeepsRollout(s[..|s| - 1], base, now);
      BestPlace(Sort(s[..|s| - 1], Earlier), s[|s| - 1], now);
    }
  }

  // ---- The queries ----

  function DefaultGroup(gs: seq<Group>): (r: Option<Group>)
    ensures r.Some? ==> r.value in gs
  {
    if gs == [] then None else Some(FirstPlain(gs, gs[0]))
  }

  function FirstPlain(gs: seq<Group>, otherwise: Group): (g: Group)
    ensures g in gs || g == otherwise
  {
    if gs == [] then otherwise else if !gs[0].hasProperties then gs[0] else FirstPlain(gs[1..], otherwise)
  }

  function EffectiveRollout(gs: seq<Group>, now: real): real {
    match DefaultGroup(gs)
    case None => 100.0
    case Some(g) => RolloutAt(g.steps, g.base, now)
  }

  function NextAfter(s: seq<Step>, now: real): (r: Option<nat>)
    ensures r.Some? ==> r.value < |s| && s[r.value].at > now && forall j :: 0 <= j < r.value ==> s[j].at <= now
    ensures r.None? ==> forall j :: 0 <= j < |s| ==> s[j].at <= now
  {
    if s == [] then None
    else if s[0].at > now then Some(0)
    else match NextAfter(s[1..], now) case None => None case Some(i) => Some(i + 1)
  }

  function NextRolloutStep(gs: seq<Group>, now: real): Option<Step> {
    match DefaultGroup(gs)
    case None => None
    case Some(g) =>
      match NextAfter(g.steps, now)
      case None => None
      case Some(i) => Some(g.steps[i])
  }

  /** The effective rollout is that of the first group without properties, else of the first
      group, else everything. */
  lemma EffectiveExactly(gs: seq<Group>, now: real, i: nat)
    ensures gs == [] ==> EffectiveRollout(gs, now) == 100.0 && NextRolloutStep(gs, now) == None
    ensures IsDefault(gs, i) ==>
              && EffectiveRollout(gs, now) == RolloutAt(gs[i].steps, gs[i].base, now)
              && (NextRolloutStep(gs, now).None? ==> forall j :: 0 <= j < |gs[i].steps| ==> gs[i].steps[j].at <= now)
              && (NextRolloutStep(gs, now).Some? ==> exists k: nat :: IsNextStep(gs[i].steps, now, k)
                                                                && NextRolloutStep(gs, now).value == gs[i].steps[k])
  {
    if IsDefault(gs, i) {
      DefaultIs(gs, i);
      var next := NextAfter(gs[i].steps, now);
      assert next.Some? ==> IsNextStep(gs[i].steps, now, next.value);
    }
  }

  /** The first step in the list that is still to come. */
  ghost predicate IsNextStep(s: seq<Step>, now: real, k: nat) {
    k < |s| && s[k].at > now && forall j :: 0 <= j < k ==> s[j].at <= now
  }

  ghost predicate IsDefault(gs: seq<Group>, i: nat) {
    && i < |gs|
    && if forall g <- gs :: g.hasProperties then i == 0
       else !gs[i].hasProperties && forall j :: 0 <= j < i ==> gs[j].hasProperties
  }

  lemma {:induction false} FirstPlainIs(gs: seq<Group>, otherwise: Group, i: nat)
    requires i < |gs| && !gs[i].hasProperties && forall j :: 0 <= j < i ==> gs[j].hasProperties
    ensures FirstPlain(gs, otherwise) == gs[i]
  {
    if i > 0 { FirstPlainIs(gs[1..], otherwise, i - 1); }
  }

  lemma {:induction false} NoPlain(gs: seq<Group>, otherwise: Group)
    requires forall g <- gs :: g.hasProperties
    ensures FirstPlain(gs, otherwise) == otherwise
  {
    if gs != [] { NoPlain(gs[1..], otherwise); }
  }

  lemma DefaultIs(gs: seq<Group>, i: nat)
    requires IsDefault(gs, i)
    ensures DefaultGroup(gs) == Some(gs[i])
  {
    if forall g <- gs :: g.hasProperties {
      NoPlain(gs, gs[0]);
    } else {
      FirstPlainIs(gs, gs[0], i);
    }
  }

  lemma {:induction false} SameBest(s: seq<Step>, now: real, later: real)
    requires forall j :: 0 <= j < |s| ==> (s[j].at <= now <==> s[j].at <= later)
    ensures Best(s, now) == Best(s, later)
  {
    if s != [] { SameBest(s[..|s| - 1], now, later); }
  }

  lemma {:induction false} GroupsInOrder(raw: seq<RawGroup>)
    ensures forall g <- TargetingGroups(raw) :: InOrder(g.steps)
  {
    if raw != [] {
      SortInOrder(Finite(raw[0].steps));
      GroupsInOrder(raw[1..]);
    }
  }

  /** The effective rollout stays what it is now until the reported next step, or forever
      when none is reported. */
  lemma ConstantUntilNext(raw: seq<RawGroup>, now: real, later: real)
    requires now <= later
    requires var next := NextRolloutStep(TargetingGroups(raw), now); next.None? || later < next.value.at
    ensures EffectiveRollout(TargetingGroups(raw), later) == EffectiveRollout(TargetingGroups(raw), now)
  {
    var gs := TargetingGroups(raw);
    GroupsInOrder(raw);
    if DefaultGroup(gs).Some? {
      SameBest(DefaultGroup(gs).value.steps, now, later);
    }
  }

  /** At the reported time the last step of that time takes over, which is the reported one
      unless several steps share the time. */
  lemma NextTakesOver(raw: seq<RawGroup>, now: real, last: nat)
    requires var gs := TargetingGroups(raw);
             && NextRolloutStep(gs, now).Some?
             && var s, next := DefaultGroup(gs).value.steps, NextRolloutStep(gs, now).value;
                last < |s| && s[last].at == next.at && (last + 1 < |s| ==> s[last + 1].at > next.at)
    ensures var gs := TargetingGroups(raw);
            EffectiveRollout(gs, NextRolloutStep(gs, now).value.at) == Clamp(DefaultGroup(gs).value.steps[last].percentage)
  {
    var gs := TargetingGroups(raw);
    GroupsInOrder(raw);
    var g, next := DefaultGroup(gs).value, NextRolloutStep(gs, now).value;
    assert InForce(g.steps, next.at, last);
    RolloutIsStepFunction(g.steps, g.base, next.at, Clamp(g.steps[last].percentage));
  }
}
