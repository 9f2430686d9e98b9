/** The AI overview: activity and usage rows folded into timeline points, a grand total and
    one total per model. */
module AiOverview {
  import opened Text
  import opened Sorting

  /** A usage row; prices may be absent. */
  datatype Usage = Usage(
    inputTokens: int, outputTokens: int, cacheReadTokens: int, cacheWriteTokens: int, reasoningTokens: int,
    reportedCostUsd: Option<real>, estimatedCostUsd: Option<real>)

  datatype PricedUsage = PricedUsage(
    inputTokens: int, outputTokens: int, cacheReadTokens: int, cacheWriteTokens: int, reasoningTokens: int,
    cost: real, estimatedCost: bool, hasPrice: bool, partialCost: bool)

  datatype Activity = Activity(timeUnixNano: int, agentRuns: int, errors: int, generations: int, toolCalls: int)

  datatype Point = Point(
    observedAt: int, agentRuns: int, errors: int, generations: int, toolCalls: int,
    inputTokens: int, outputTokens: int, cost: real, estimatedCost: bool, hasPrice: bool, partialCost: bool)

  /** BigInt division by a million, which truncates. */
  function Milliseconds(unixNano: int): int {
    if unixNano >= 0 then unixNano / 1_000_000 else -(-unixNano / 1_000_000)
  }

  const EMPTY := PricedUsage(0, 0, 0, 0, 0, 0.0, false, false, false)

  /** `priceUsage`: the price of a row and whether any of it is an estimate. */
  function PriceUsage(u: Usage): Option<(real, bool)> {
    if u.reportedCostUsd.None? && u.estimatedCostUsd.None? then None
    else Some(((if u.reportedCostUsd.Some? then u.reportedCostUsd.value else 0.0)
               + (if u.estimatedCostUsd.Some? then u.estimatedCostUsd.value else 0.0),
               u.estimatedCostUsd.Some?))
  }

  /** What one row amounts to on its own. */
  function Single(u: Usage): PricedUsage {
    var price := PriceUsage(u);
    PricedUsage(u.inputTokens, u.outputTokens, u.cacheReadTokens, u.cacheWriteTokens, u.reasoningTokens,
                if price.Some? then price.value.0 else 0.0, price.Some? && price.value.1, price.Some?, price.None?)
  }

  /** Totals add their numbers and join their flags. */
  function Plus(a: PricedUsage, b: PricedUsage): PricedUsage {
    PricedUsage(a.inputTokens + b.inputTokens, a.outputTokens + b.outputTokens, a.cacheReadTokens + b.cacheReadTokens,
                a.cacheWriteTokens + b.cacheWriteTokens, a.reasoningTokens + b.reasoningTokens, a.cost + b.cost,
                a.estimatedCost || b.estimatedCost, a.hasPrice || b.hasPrice, a.partialCost || b.partialCost)
  }

  /** `addUsage` */
  method AddUsage(total: PricedUsage, u: Usage) returns (r: PricedUsage)
    ensures r == Plus(total, Single(u))
  {
    var price := PriceUsage(u);
    r := total.(
      cacheReadTokens := total.cacheReadTokens + u.cacheReadTokens,
      cacheWriteTokens := total.cacheWriteTokens + u.cacheWriteTokens,
      inputTokens := total.inputTokens + u.inputTokens,
      outputTokens := total.outputTokens + u.outputTokens,
      reasoningTokens := total.reasoningTokens + u.reasoningTokens);
    if price.Some? {
      r := r.(cost := r.cost + price.value.0, estimatedCost := r.estimatedCost || price.value.1, hasPrice := true);
    } else {
      r := r.(partialCost := true);
    }
  }

  // ---- Sums over keyed rows ----

  function SumAll<K>(rows: seq<(K, Usage)>): PricedUsage {
    if rows == [] then EMPTY else Plus(SumAll(rows[..|rows| - 1]), Single(rows[|rows| - 1].1))
  }

  /** Some row has this key. */
  ghost predicate HasRow<K>(rows: seq<(K, Usage)>, k: K) {
    exists row <- rows :: row.0 == k
  }

  function SumAt<K(==)>(rows: seq<(K, Usage)>, k: K): PricedUsage {
    if rows == [] then EMPTY
    else
      var rest, last := SumAt(rows[..|rows| - 1], k), rows[|rows| - 1];
      if last.0 == k then Plus(rest, Single(last.1)) else rest
  }

  lemma OneMoreRow<K>(rows: seq<(K, Usage)>, row: (K, Usage))
    ensures SumAll(rows + [row]) == Plus(SumAll(rows), Single(row.1))
    ensures forall k :: SumAt(rows + [row], k) == if row.0 == k then Plus(SumAt(rows, k), Single(row.1)) else SumAt(rows, k)
    ensures forall k :: HasRow(rows + [row], k) <==> HasRow(rows, k) || row.0 == k
  {
    hide Plus, Single;
    assert (rows + [row])[..|rows|] == rows;
    assert forall x :: x in rows + [row] <==> x in rows || x == row;
  }

  lemma RowsHaveKeys<K>(rows: seq<(K, Usage)>)
    ensures forall row <- rows :: HasRow(rows, row.0)
  {
  }

  function SumOver<K(==)>(rows: seq<(K, Usage)>, keys: seq<K>): PricedUsage {
    if keys == [] then EMPTY else Plus(SumAt(rows, keys[0]), SumOver(rows, keys[1..]))
  }

  lemma PlusLaws(a: PricedUsage, b: PricedUsage, c: PricedUsage)
    ensures Plus(Plus(a, b), c) == Plus(a, Plus(b, c)) && Plus(a, b) == Plus(b, a) && Plus(a, EMPTY) == a
  {
  }

  lemma {:induction false} SumOverNothing<K>(keys: seq<K>)
    ensures SumOver<K>([], keys) == EMPTY
  {
    if keys != [] { SumOverNothing(keys[1..]); }
  }

  /** One more row adds to the sum over distinct keys exactly once. */
  lemma {:induction false} SumOverRow<K>(rows: seq<(K, Usage)>, row: (K, Usage), keys: seq<K>)
    requires Distinct(keys)
    ensures SumOver(rows + [row], keys) ==
            if row.0 in keys then Plus(SumOver(rows, keys), Single(row.1)) else SumOver(rows, keys)
    decreases |keys|
  {
    hide Plus, Single;
    if keys != [] {
      SumOverRow(rows, row, keys[1..]);
      assert (rows + [row])[..|rows|] == rows;
      var a, b, c := SumAt(rows, keys[0]), SumOver(rows, keys[1..]), Single(row.1);
      PlusLaws(a, b, c);
      PlusLaws(a, c, b);
      PlusLaws(b, c, a);
      assert keys[0] !in keys[1..];
      assert row.0 in keys <==> row.0 == keys[0] || row.0 in keys[1..];
    }
  }

  /** Conservation: grouping rows by key and adding up the groups gives the grand total. */
  lemma {:induction false} GroupsConserve<K>(rows: seq<(K, Usage)>, keys: seq<K>)
    requires Distinct(keys) && forall row <- rows :: row.0 in keys
    ensures SumOver(rows, keys) == SumAll(rows)
  {
    hide Plus, Single, Distinct, SumAt, SumOver;
    if rows == [] {
      SumOverNothing(keys);
    } else {
      var n := |rows| - 1;
      GroupsConserve(rows[..n], keys);
      SumOverRow(rows[..n], rows[n], keys);
      assert rows == rows[..n] + [rows[n]];
    }
  }

  // ---- What the totals are ----

  function SumOf<K>(rows: seq<(K, Usage)>, f: Usage -> int): int {
    if rows == [] then 0 else SumOf(rows[..|rows| - 1], f) + f(rows[|rows| - 1].1)
  }

  /** A row costs what was reported and what was estimated together. */
  function CostOf<K>(rows: seq<(K, Usage)>): real {
    if rows == [] then 0.0
    else
      var u := rows[|rows| - 1].1;
      CostOf(rows[..|rows| - 1])
      + (if u.reportedCostUsd == None then 0.0 else u.reportedCostUsd.value)
      + (if u.estimatedCostUsd == None then 0.0 else u.estimatedCostUsd.value)
  }

  /** Each number of a total is the sum of that number over the rows; a flag is set when some
      row has an estimate, has any price, or has none. */
  lemma {:induction false} TotalsExactly<K>(rows: seq<(K, Usage)>)
    ensures var total := SumAll(rows);
            && total.inputTokens == SumOf(rows, (u: Usage) => u.inputTokens)
            && total.outputTokens == SumOf(rows, (u: Usage) => u.outputTokens)
            && total.cacheReadTokens == SumOf(rows, (u: Usage) => u.cacheReadTokens)
            && total.cacheWriteTokens == SumOf(rows, (u: Usage) => u.cacheWriteTokens)
            && total.reasoningTokens == SumOf(rows, (u: Usage) => u.reasoningTokens)
            && total.cost == CostOf(rows)
  {
    if rows != [] { TotalsExactly(rows[..|rows| - 1]); }
  }

  lemma {:induction false} FlagsExactly<K>(rows: seq<(K, Usage)>)
    ensures var total := SumAll(rows);
            && (total.estimatedCost <==> exists row <- rows :: row.1.estimatedCostUsd != None)
            && (total.hasPrice <==> exists row <- rows :: row.1.estimatedCostUsd != None || row.1.reportedCostUsd != None)
            && (total.partialCost <==> exists row <- rows :: row.1.estimatedCostUsd == None && row.1.reportedCostUsd == None)
  {
    if rows != [] {
      var n := |rows| - 1;
      FlagsExactly(rows[..n]);
      assert rows == rows[..n] + [rows[n]];
      assert forall row :: row in rows <==> row in rows[..n] || row == rows[n];
    }
  }

  /** The rows of one key. */
  function RowsAt<K(==)>(rows: seq<(K, Usage)>, k: K): seq<(K, Usage)> {
    if rows == [] then []
    else RowsAt(rows[..|rows| - 1], k) + if rows[|rows| - 1].0 == k then [rows[|rows| - 1]] else []
  }

  /** The sum at a key is the total of the rows of that key. */
  lemma {:induction false} SumAtExactly<K>(rows: seq<(K, Usage)>, k: K)
    ensures SumAt(rows, k) == SumAll(RowsAt(rows, k))
    ensures forall row :: row in RowsAt(rows, k) <==> row in rows && row.0 == k
  {
    hide Plus, Single;
    if rows != [] {
      var n := |rows| - 1;
      SumAtExactly(rows[..n], k);
      assert rows == rows[..n] + [rows[n]];
      if rows[n].0 == k {
        OneMoreRow(RowsAt(rows[..n], k), rows[n]);
        assert RowsAt(rows, k) == RowsAt(rows[..n], k) + [rows[n]];
      } else {
        assert RowsAt(rows, k) == RowsAt(rows[..n], k);
      }
    }
  }

  /** A time in milliseconds is the one in nanoseconds with what is below a millisecond cut off
      towards zero. */
  lemma MillisecondsExactly(t: int)
    ensures var ms := Milliseconds(t);
            && (t >= 0 ==> 0 <= t - 1_000_000 * ms < 1_000_000)
            && (t <= 0 ==> -1_000_000 < t - 1_000_000 * ms <= 0)
  {
  }

  // ---- The timeline ----

  /** The last activity row of a millisecond. */
  function ActivityAt(activity: seq<Activity>, t: int): Option<Activity> {
    if activity == [] then None
    else
      var last := activity[|activity| - 1];
      if Milliseconds(last.timeUnixNano) == t then Some(last) else ActivityAt(activity[..|activity| - 1], t)
  }

  /** What the point of a millisecond must hold: the activity of that time and the sum of
      the usage rows of that time. Costs are in cents. */
  function PointAt(activity: seq<Activity>, rows: seq<(int, Usage)>, t: int): Point {
    var a, sum := ActivityAt(activity, t), SumAt(rows, t);
    Point(t,
          if a.Some? then a.value.agentRuns else 0, if a.Some? then a.value.errors else 0,
          if a.Some? then a.value.generations else 0, if a.Some? then a.value.toolCalls else 0,
          sum.inputTokens, sum.outputTokens, sum.cost * 100.0, sum.estimatedCost,
          (a.Some? && a.value.generations == 0) || sum.hasPrice, sum.partialCost)
  }

  /** A point shows the counts of the last activity row of its time, or none. */
  lemma PointShowsActivity(activity: seq<Activity>, rows: seq<(int, Usage)>, i: nat, t: int)
    requires i < |activity| ==> Milliseconds(activity[i].timeUnixNano) == t
    requires i <= |activity| && forall j :: (if i < |activity| then i + 1 else 0) <= j < |activity| ==>
                                  Milliseconds(activity[j].timeUnixNano) != t
    ensures var p := PointAt(activity, rows, t);
            && p.observedAt == t
            && p.agentRuns == (if i < |activity| then activity[i].agentRuns else 0)
            && p.errors == (if i < |activity| then activity[i].errors else 0)
            && p.generations == (if i < |activity| then activity[i].generations else 0)
            && p.toolCalls == (if i < |activity| then activity[i].toolCalls else 0)
            && (p.hasPrice <==> (i < |activity| && activity[i].generations == 0) || SumAt(rows, t).hasPrice)
  {
    hide SumAt, Milliseconds;
    LastActivity(activity, i, t);
  }

  lemma {:induction false} LastActivity(activity: seq<Activity>, i: nat, t: int)
    requires i < |activity| ==> Milliseconds(activity[i].timeUnixNano) == t
    requires i <= |activity| && forall j :: (if i < |activity| then i + 1 else 0) <= j < |activity| ==>
                                  Milliseconds(activity[j].timeUnixNano) != t
    ensures ActivityAt(activity, t) == if i < |activity| then Some(activity[i]) else None
  {
    hide Milliseconds;
    if activity != [] && i != |activity| - 1 {
      var n := |activity| - 1;
      LastActivity(activity[..n], if i == |activity| then n else i, t);
    }
  }

  predicate Increasing(ts: seq<int>) {
    forall i, j :: 0 <= i < j < |ts| ==> ts[i] < ts[j]
  }

  predicate Earlier(t: int, u: int) {
    t < u
  }

  function Sorted(ts: seq<int>): (r: seq<int>)
    ensures forall x :: x in r <==> x in ts
  {
    SortHolds(ts, Earlier);
    Sort(ts, Earlier)
  }

  lemma SortedIncreases(ts: seq<int>)
    requires Distinct(ts)
    ensures Increasing(Sorted(ts))
  {
    SortIsOrdered(ts, Earlier);
    SortKeepsDistinct(ts, Earlier);
  }

  function Times(points: seq<Point>): (ts: seq<int>)
    ensures |ts| == |points| && forall i :: 0 <= i < |ts| ==> ts[i] == points[i].observedAt
  {
    seq(|points|, i requires 0 <= i < |points| => points[i].observedAt)
  }

  function Keyed(usage: seq<(int, Usage)>): (rows: seq<(int, Usage)>)
    ensures |rows| == |usage| && forall i :: 0 <= i < |rows| ==> rows[i] == (Milliseconds(usage[i].0), usage[i].1)
  {
    seq(|usage|, i requires 0 <= i < |usage| => (Milliseconds(usage[i].0), usage[i].1))
  }

  /** `activityPoints`: one point per millisecond with activity. `order` is insertion order. */
  method ActivityPoints(activity: seq<Activity>) returns (points: map<int, Point>, order: seq<int>)
    ensures Distinct(order) && forall t :: t in order <==> t in points
    ensures forall t :: t in points <==> ActivityAt(activity, t).Some?
    ensures forall t :: t in points ==> points[t] == PointAt(activity, [], t)
  {
    points, order := map[], [];
    for i := 0 to |activity|
      invariant Distinct(order) && forall t :: t in order <==> t in points
      invariant forall t :: t in points <==> ActivityAt(activity[..i], t).Some?
      invariant forall t :: t in points ==> points[t] == PointAt(activity[..i], [], t)
    {
      var a := activity[i];
      var t := Milliseconds(a.timeUnixNano);
      assert activity[..i + 1][..i] == activity[..i];
      if t !in points {
        order := order + [t];
      }
      points := points[t := Point(t, a.agentRuns, a.errors, a.generations, a.toolCalls, 0, 0, 0.0, false, a.generations == 0, false)];
    }
    assert activity[..|activity|] == activity;
  }

  function Blank(t: int): Point {
    Point(t, 0, 0, 0, 0, 0, 0, 0.0, false, false, false)
  }

  /** A point after one more usage row. */
  function Charged(p: Point, u: Usage): Point {
    var price := PriceUsage(u);
    p.(inputTokens := p.inputTokens + u.inputTokens, outputTokens := p.outputTokens + u.outputTokens,
       cost := if price.Some? then p.cost + price.value.0 * 100.0 else p.cost,
       estimatedCost := p.estimatedCost || (price.Some? && price.value.1),
       hasPrice := p.hasPrice || price.Some?,
       partialCost := p.partialCost || price.None?)
  }

  lemma ChargedIsPointAt(activity: seq<Activity>, rows: seq<(int, Usage)>, row: (int, Usage), t: int)
    ensures PointAt(activity, rows + [row], t) ==
            if row.0 == t then Charged(PointAt(activity, rows, t), row.1) else PointAt(activity, rows, t)
  {
    assert (rows + [row])[..|rows|] == rows;
  }

  /** The first loop of `overviewAnalysis`. */
  method Timeline(activity: seq<Activity>, usage: seq<(int, Usage)>) returns (points: seq<Point>, total: PricedUsage)
    ensures total == SumAll(Keyed(usage))
    ensures Increasing(Times(points))
    ensures forall p <- points :: p == PointAt(activity, Keyed(usage), p.observedAt)
    ensures forall t :: t in Times(points) <==> ActivityAt(activity, t).Some? || HasRow(Keyed(usage), t)
  {
    hide PointAt, Charged, Plus, Single, ActivityAt, SumAll, HasRow, SumAt;
    var table, order := ActivityPoints(activity);
    var rows := Keyed(usage);
    total := EMPTY;
    NoRowsYet(rows);
    for i := 0 to |usage|
      invariant total == SumAll(rows[..i])
      invariant Distinct(order) && forall t :: t in order <==> t in table
      invariant forall t :: t in table <==> ActivityAt(activity, t).Some? || HasRow(rows[..i], t)
      invariant forall t :: t in table ==> table[t] == PointAt(activity, rows[..i], t)
    {
      var t, u := Milliseconds(usage[i].0), usage[i].1;
      assert rows[i] == (t, u) && rows[..i + 1] == rows[..i] + [rows[i]];
      OneMoreRow(rows[..i], rows[i]);
      forall x { ChargedIsPointAt(activity, rows[..i], rows[i], x); }
      if t !in table {
        BlankIsPointAt(activity, rows[..i], t);
        order := order + [t];
      }
      var point := if t in table then table[t] else Blank(t);
      table := table[t := Charged(point, u)];
      total := AddUsage(total, u);
    }
    assert rows[..|usage|] == rows;
    SortedIncreases(order);
    var times := Sorted(order);
    points := seq(|times|, i requires 0 <= i < |times| => assert times[i] in times; table[times[i]]);
    TimesOfPoints(activity, rows, points, times);
  }

  lemma NoRowsYet<K>(rows: seq<(K, Usage)>)
    ensures rows[..0] == [] && SumAll(rows[..0]) == EMPTY && forall k :: !HasRow(rows[..0], k)
  {
  }

  lemma BlankIsPointAt(activity: seq<Activity>, rows: seq<(int, Usage)>, t: int)
    requires ActivityAt(activity, t).None? && !HasRow(rows, t)
    ensures PointAt(activity, rows, t) == Blank(t)
  {
    NoRows(rows, t);
  }

  lemma {:induction false} NoRows<K>(rows: seq<(K, Usage)>, k: K)
    requires !HasRow(rows, k)
    ensures SumAt(rows, k) == EMPTY
  {
    if rows != [] { NoRows(rows[..|rows| - 1], k); }
  }

  lemma TimesOfPoints(activity: seq<Activity>, rows: seq<(int, Usage)>, points: seq<Point>, times: seq<int>)
    requires |points| == |times| && forall i :: 0 <= i < |times| ==> points[i] == PointAt(activity, rows, times[i])
    ensures Times(points) == times
    ensures forall p <- points :: p == PointAt(activity, rows, p.observedAt)
  {
  }

  // ---- Totals are conserved ----

  function PointsInput(ps: seq<Point>): int {
    if ps == [] then 0 else ps[0].inputTokens + PointsInput(ps[1..])
  }

  function PointsOutput(ps: seq<Point>): int {
    if ps == [] then 0 else ps[0].outputTokens + PointsOutput(ps[1..])
  }

  function PointsCost(ps: seq<Point>): real {
    if ps == [] then 0.0 else ps[0].cost + PointsCost(ps[1..])
  }

  /** The timeline and the total tell the same story. */
  ghost predicate Conserves(ps: seq<Point>, total: PricedUsage) {
    && PointsInput(ps) == total.inputTokens && PointsOutput(ps) == total.outputTokens
    && PointsCost(ps) == total.cost * 100.0
    && (total.partialCost <==> exists p <- ps :: p.partialCost)
    && (total.estimatedCost <==> exists p <- ps :: p.estimatedCost)
  }

  lemma ConservesStep(ps: seq<Point>, a: PricedUsage, b: PricedUsage)
    requires ps != [] && Conserves(ps[1..], b)
    requires ps[0].inputTokens == a.inputTokens && ps[0].outputTokens == a.outputTokens && ps[0].cost == a.cost * 100.0
    requires ps[0].estimatedCost == a.estimatedCost && ps[0].partialCost == a.partialCost
    ensures Conserves(ps, Plus(a, b))
  {
    assert forall p :: p in ps <==> p == ps[0] || p in ps[1..];
    assert (a.cost + b.cost) * 100.0 == a.cost * 100.0 + b.cost * 100.0;
  }

  lemma {:induction false} PointsAddUp(activity: seq<Activity>, rows: seq<(int, Usage)>, ps: seq<Point>)
    requires forall p <- ps :: p == PointAt(activity, rows, p.observedAt)
    ensures Conserves(ps, SumOver(rows, Times(ps)))
  {
    if ps != [] {
      PointsAddUp(activity, rows, ps[1..]);
      assert Times(ps)[1..] == Times(ps[1..]);
      assert ps[0] in ps;
      hide SumAt, ActivityAt, Conserves, Plus;
      ConservesStep(ps, SumAt(rows, ps[0].observedAt), SumOver(rows, Times(ps[1..])));
    }
  }

  /** Conservation for the whole timeline. */
  lemma TimelineConserves(activity: seq<Activity>, usage: seq<(int, Usage)>, ps: seq<Point>)
    requires Increasing(Times(ps)) && forall p <- ps :: p == PointAt(activity, Keyed(usage), p.observedAt)
    requires forall row <- Keyed(usage) :: row.0 in Times(ps)
    ensures Conserves(ps, SumAll(Keyed(usage)))
  {
    PointsAddUp(activity, Keyed(usage), ps);
    GroupsConserve(Keyed(usage), Times(ps));
  }

  // ---- Totals per model ----

  /** `${provider}\u0000${model}` */
  function ModelKey(provider: string, model: string): string {
    provider + "\0" + model
  }

  /** One key for two models: exactly when one provider continues the other with a NUL. */
  lemma SharedKeyExactly(provider: string, other: string)
    ensures (exists m, n :: ModelKey(provider, m) == ModelKey(other, n) && (provider, m) != (other, n)) <==>
            provider + "\0" <= other || other + "\0" <= provider
  {
    forall m, n | ModelKey(provider, m) == ModelKey(other, n) && (provider, m) != (other, n)
      ensures provider + "\0" <= other || other + "\0" <= provider
    {
      KeySplits(provider, m, other, n);
    }
    if provider + "\0" <= other { Collides(provider, other); }
    if other + "\0" <= provider { Collides(other, provider); }
  }

  lemma KeySplits(p: string, m: string, q: string, n: string)
    requires ModelKey(p, m) == ModelKey(q, n)
    ensures (p == q && m == n) || p + "\0" <= q || q + "\0" <= p
  {
    var k := ModelKey(p, m);
    assert k[..|p|] == p && k[|p|..|p| + 1] == "\0" && k[|p| + 1..] == m;
    assert k[..|q|] == q && k[|q|..|q| + 1] == "\0" && k[|q| + 1..] == n;
    if |p| < |q| {
      assert k[..|p| + 1] == p + "\0";
      assert q == k[..|p| + 1] + k[|p| + 1..|q|];
    } else if |q| < |p| {
      assert k[..|q| + 1] == q + "\0";
      assert p == k[..|q| + 1] + k[|q| + 1..|p|];
    }
  }

  lemma Collides(p: string, q: string)
    requires p + "\0" <= q
    ensures var m := q[|p| + 1..] + "\0"; ModelKey(p, m) == ModelKey(q, "") && p != q
  {
    assert q == p + "\0" + q[|p| + 1..];
  }

  /** Two models of different providers that share one total. */
  lemma CollidingModels()
    ensures ModelKey("a\0b", "c") == ModelKey("a", "b\0c")
  {
  }

  /** No provider of these rows continues another with a NUL; in particular when none holds one. */
  predicate ProvidersApart(usage: seq<(string, string, Usage)>) {
    forall i, j :: 0 <= i < |usage| && 0 <= j < |usage| ==> !(usage[i].0 + "\0" <= usage[j].0)
  }

  lemma NoNulIsApart(usage: seq<(string, string, Usage)>)
    requires forall row <- usage :: '\0' !in row.0
    ensures ProvidersApart(usage)
  {
    forall i, j | 0 <= i < |usage| && 0 <= j < |usage|
      ensures !(usage[i].0 + "\0" <= usage[j].0)
    {
      var p, q := usage[i].0, usage[j].0;
      assert (p + "\0")[|p|] == '\0';
    }
  }

  function ByPair(usage: seq<(string, string, Usage)>): (rows: seq<((string, string), Usage)>)
    ensures |rows| == |usage| && forall i :: 0 <= i < |rows| ==> rows[i] == ((usage[i].0, usage[i].1), usage[i].2)
  {
    seq(|usage|, i requires 0 <= i < |usage| => ((usage[i].0, usage[i].1), usage[i].2))
  }

  /** With providers apart, the total under a model's key is the sum of that model's own rows. */
  lemma ModelTotal(usage: seq<(string, string, Usage)>, provider: string, model: string)
    requires ProvidersApart(usage) && exists row <- usage :: row.0 == provider
    ensures SumAt(KeyedByModel(usage), ModelKey(provider, model)) == SumAt(ByPair(usage), (provider, model))
  {
    hide ModelKey, SumAt;
    var rows, pairs := KeyedByModel(usage), ByPair(usage);
    forall i | 0 <= i < |usage|
      ensures rows[i].0 == ModelKey(provider, model) <==> pairs[i].0 == (provider, model)
    {
      if rows[i].0 == ModelKey(provider, model) { KeySplits(usage[i].0, usage[i].1, provider, model); }
    }
    SameSums(rows, pairs, ModelKey(provider, model), (provider, model));
  }

  lemma {:induction false} SameSums<K, L>(rows: seq<(K, Usage)>, others: seq<(L, Usage)>, k: K, l: L)
    requires |rows| == |others|
    requires forall i :: 0 <= i < |rows| ==> rows[i].1 == others[i].1 && (rows[i].0 == k <==> others[i].0 == l)
    ensures SumAt(rows, k) == SumAt(others, l)
  {
    if rows != [] { SameSums(rows[..|rows| - 1], others[..|rows| - 1], k, l); }
  }

  function KeyedByModel(usage: seq<(string, string, Usage)>): (rows: seq<(string, Usage)>)
    ensures |rows| == |usage| && forall i :: 0 <= i < |rows| ==> rows[i] == (ModelKey(usage[i].0, usage[i].1), usage[i].2)
  {
    seq(|usage|, i requires 0 <= i < |usage| => (ModelKey(usage[i].0, usage[i].1), usage[i].2))
  }

  /** The second loop: each model's total is the sum of its rows, and the models together
      make up all rows. */
  method ByModel(usage: seq<(string, string, Usage)>) returns (byModel: map<string, PricedUsage>, order: seq<string>)
    ensures forall k :: k in byModel <==> HasRow(KeyedByModel(usage), k)
    ensures forall k :: k in byModel ==> byModel[k] == SumAt(KeyedByModel(usage), k)
    ensures Distinct(order) && (forall k :: k in order <==> k in byModel)
    ensures SumOver(KeyedByModel(usage), order) == SumAll(KeyedByModel(usage))
  {
    hide Plus, Single, ModelKey, SumAll, SumAt, HasRow, SumOver;
    var rows := KeyedByModel(usage);
    byModel, order := map[], [];
    NoRowsYet(rows);
    for i := 0 to |usage|
      invariant Distinct(order) && forall k :: k in order <==> k in byModel
      invariant forall k :: k in byModel <==> HasRow(rows[..i], k)
      invariant forall k :: k in byModel ==> byModel[k] == SumAt(rows[..i], k)
    {
      var key, u := ModelKey(usage[i].0, usage[i].1), usage[i].2;
      assert rows[i] == (key, u) && rows[..i + 1] == rows[..i] + [rows[i]];
      OneMoreRow(rows[..i], rows[i]);
      if key !in byModel {
        NoRows(rows[..i], key);
        order := order + [key];
      }
      var current := if key in byModel then byModel[key] else EMPTY;
      var next := AddUsage(current, u);
      byModel := byModel[key := next];
    }
    assert rows[..|usage|] == rows;
    RowsHaveKeys(rows);
    GroupsConserve(rows, order);
  }

  /** `overviewAnalysis` */
  method OverviewAnalysis(activity: seq<Activity>, usage: seq<(int, Usage)>, modelUsage: seq<(string, string, Usage)>)
      returns (points: seq<Point>, total: PricedUsage, byModel: map<string, PricedUsage>)
    ensures total == SumAll(Keyed(usage)) && Conserves(points, total) && Increasing(Times(points))
    ensures forall p <- points :: p == PointAt(activity, Keyed(usage), p.observedAt)
    ensures forall t :: t in Times(points) <==> ActivityAt(activity, t).Some? || HasRow(Keyed(usage), t)
    ensures forall k :: k in byModel <==> HasRow(KeyedByModel(modelUsage), k)
    ensures forall k :: k in byModel ==> byModel[k] == SumAt(KeyedByModel(modelUsage), k)
  {
    hide HasRow, SumAt, SumAll, ActivityAt, PointAt, Conserves;
    points, total := Timeline(activity, usage);
    RowsHaveKeys(Keyed(usage));
    TimelineConserves(activity, usage, points);
    var order;
    byModel, order := ByModel(modelUsage);
  }
}
