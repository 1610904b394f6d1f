/** What the grouping guarantees about related alerts, and the reduced list it yields. */
module AlertIncidents {
  import opened Common
  import opened Alerts
  import opened AlertGrouping

  // ---- Where an alert goes ----------------------------------------------------------

  /** Alert `i` joins the oldest group holding an earlier related alert, or a new last group. */
  ghost predicate PlacedRight(alerts: seq<Alert>, slots: seq<nat>, i: nat)
    requires i < |alerts| == |slots|
  {
    if exists j :: 0 <= j < i && Related(alerts[j], alerts[i]) then
      && (exists j :: 0 <= j < i && Related(alerts[j], alerts[i]) && slots[j] == slots[i])
      && (forall j | 0 <= j < i && Related(alerts[j], alerts[i]) :: slots[i] <= slots[j])
    else
      forall j | 0 <= j < i :: slots[j] < slots[i]
  }

  lemma {:induction false} EveryAlertPlacedRight(alerts: seq<Alert>)
    ensures forall i | 0 <= i < |alerts| :: PlacedRight(alerts, Assignment(alerts), i)
  {
    if alerts != [] {
      var n := |alerts| - 1;
      var init := alerts[..n];
      EveryAlertPlacedRight(init);
      LastPlacedRight(alerts);
      forall i | 0 <= i < n ensures PlacedRight(alerts, Assignment(alerts), i) {
        assert PlacedRight(init, Assignment(init), i);
        PlacedInPrefix(alerts, Assignment(alerts), n, i);
      }
    }
  }

  lemma {:induction false} PlacedInPrefix(alerts: seq<Alert>, slots: seq<nat>, n: nat, i: nat)
    requires |alerts| == |slots| && i < n <= |alerts| && PlacedRight(alerts[..n], slots[..n], i)
    ensures PlacedRight(alerts, slots, i)
  {
    var a, s := alerts[..n], slots[..n];
    assert forall j | 0 <= j < n :: a[j] == alerts[j] && s[j] == slots[j];
    if j :| 0 <= j < i && Related(alerts[j], alerts[i]) {
      assert Related(a[j], a[i]);
      var k :| 0 <= k < i && Related(a[k], a[i]) && s[k] == s[i];
      assert Related(alerts[k], alerts[i]);
      forall k | 0 <= k < i && Related(alerts[k], alerts[i]) ensures slots[i] <= slots[k] {
        assert Related(a[k], a[i]);
      }
    } else {
      forall j | 0 <= j < i ensures slots[j] < slots[i] {
        assert !Related(a[j], a[i]);
      }
    }
  }

  lemma {:induction false} LastPlacedRight(alerts: seq<Alert>)
    requires alerts != []
    ensures PlacedRight(alerts, Assignment(alerts), |alerts| - 1)
  {
    var n := |alerts| - 1;
    var init, slots := alerts[..n], Assignment(alerts);
    var at := slots[n];
    assert slots[..n] == Assignment(init);
    forall j | 0 <= j < n && Related(alerts[j], alerts[n]) ensures at <= slots[j] < |GroupAll(init)| {
      assert init[j] == alerts[j] && Assignment(init)[j] == slots[j];
      RelatedIsTouched(init, j, alerts[n]);
    }
    GroupsPartition(init);
    if at < |GroupAll(init)| {
      TouchedIsRelated(init, at, alerts[n]);
      var j :| 0 <= j < n && Assignment(init)[j] == at && Related(init[j], alerts[n]);
      assert Related(alerts[j], alerts[n]) && slots[j] == slots[n];
    } else {
      forall j | 0 <= j < n ensures slots[j] < at { assert Assignment(init)[j] == slots[j]; }
    }
  }

  lemma {:induction false} RelatedIsTouched(alerts: seq<Alert>, j: nat, alert: Alert)
    requires j < |alerts| && Related(alerts[j], alert)
    ensures FirstTouched(GroupAll(alerts), alert) <= Assignment(alerts)[j] < |GroupAll(alerts)|
  {
    GroupsPartition(alerts);
    TouchedIsRelated(alerts, Assignment(alerts)[j], alert);
  }

  // ---- When grouping keeps all related alerts together ---------------------------------

  ghost predicate RelatedStayTogether(alerts: seq<Alert>) {
    forall i, j | 0 <= i < j < |alerts| && Related(alerts[i], alerts[j]) :: Assignment(alerts)[i] == Assignment(alerts)[j]
  }

  /** A chain of related alerts. */
  ghost predicate Walk(alerts: seq<Alert>, p: seq<nat>) {
    && (forall i | 0 <= i < |p| :: p[i] < |alerts|)
    && (forall i | 0 <= i < |p| - 1 :: Related(alerts[p[i]], alerts[p[i + 1]]))
  }

  ghost predicate Joins(alerts: seq<Alert>, p: seq<nat>, j: nat, k: nat) {
    Walk(alerts, p) && p != [] && p[0] == j && p[|p| - 1] == k
  }

  ghost predicate Reaches(alerts: seq<Alert>, j: nat, k: nat) {
    exists p :: Joins(alerts, p, j, k)
  }

  /** No alert is the first to connect two earlier ones: those it is related to are joined by a
      chain of related alerts before it. */
  ghost predicate NoBridge(alerts: seq<Alert>) {
    forall i, j, k | 0 <= i < |alerts| && 0 <= j < i && 0 <= k < i
                     && Related(alerts[j], alerts[i]) && Related(alerts[k], alerts[i]) ::
      Reaches(alerts[..i], j, k)
  }

  lemma {:induction false} WalkExtended(alerts: seq<Alert>, x: nat, p: seq<nat>)
    requires x < |alerts| && Walk(alerts, p) && p != []
    ensures Related(alerts[x], alerts[p[0]]) ==> Walk(alerts, [x] + p)
    ensures Related(alerts[p[|p| - 1]], alerts[x]) ==> Walk(alerts, p + [x])
  {
    assert forall i | 0 < i <= |p| :: ([x] + p)[i] == p[i - 1];
    assert forall i | 0 <= i < |p| :: (p + [x])[i] == p[i];
  }

  /** From every alert a chain of earlier ones leads down to the first of its group, and back up. */
  lemma {:induction false} ChainToBase(alerts: seq<Alert>, n: nat, x: nat) returns (base: nat, down: seq<nat>, up: seq<nat>)
    requires x < n <= |alerts|
    ensures base <= x && Assignment(alerts)[base] == Assignment(alerts)[x]
    ensures forall y | 0 <= y < base :: Assignment(alerts)[y] != Assignment(alerts)[x]
    ensures Joins(alerts[..n], down, x, base) && Joins(alerts[..n], up, base, x)
  {
    EveryAlertPlacedRight(alerts);
    var slots := Assignment(alerts);
    assert PlacedRight(alerts, slots, x);
    if y :| 0 <= y < x && Related(alerts[y], alerts[x]) && slots[y] == slots[x] {
      base, down, up := ChainToBase(alerts, n, y);
      WalkExtended(alerts[..n], x, down);
      WalkExtended(alerts[..n], x, up);
      down, up := [x] + down, up + [x];
    } else {
      base, down, up := x, [x], [x];
    }
  }

  lemma {:induction false} SameGroupReaches(alerts: seq<Alert>, n: nat, j: nat, k: nat)
    requires j < n <= |alerts| && k < n && Assignment(alerts)[j] == Assignment(alerts)[k]
    ensures Reaches(alerts[..n], j, k)
  {
    var b, down, _ := ChainToBase(alerts, n, j);
    var b', _, up := ChainToBase(alerts, n, k);
    assert b == b';
    assert Joins(alerts[..n], down + up, j, k);
  }

  ghost predicate TogetherUpTo(alerts: seq<Alert>, n: nat)
    requires n <= |alerts|
  {
    forall i, j | 0 <= i < j < n && Related(alerts[i], alerts[j]) :: Assignment(alerts)[i] == Assignment(alerts)[j]
  }

  lemma {:induction false} OneGroupAlongChain(alerts: seq<Alert>, n: nat, p: seq<nat>, j: nat, k: nat)
    requires n <= |alerts| && TogetherUpTo(alerts, n) && Joins(alerts[..n], p, j, k)
    ensures j < n && k < n && Assignment(alerts)[j] == Assignment(alerts)[k]
    decreases |p|
  {
    if |p| > 1 {
      var m := |p| - 2;
      OneGroupAlongChain(alerts, n, p[..m + 1], j, p[m]);
      assert Related(alerts[..n][p[m]], alerts[..n][p[m + 1]]);
      assert Related(alerts[p[m + 1]], alerts[p[m]]);
    }
  }

  lemma {:induction false} NoBridgeKeepsTogether(alerts: seq<Alert>, n: nat)
    requires NoBridge(alerts) && n <= |alerts|
    ensures TogetherUpTo(alerts, n)
  {
    if n > 0 {
      var i, slots := n - 1, Assignment(alerts);
      NoBridgeKeepsTogether(alerts, i);
      EveryAlertPlacedRight(alerts);
      assert PlacedRight(alerts, slots, i);
      forall j | 0 <= j < i && Related(alerts[j], alerts[i]) ensures slots[j] == slots[i] {
        var k :| 0 <= k < i && Related(alerts[k], alerts[i]) && slots[k] == slots[i];
        assert Reaches(alerts[..i], j, k);
        var p :| Joins(alerts[..i], p, j, k);
        OneGroupAlongChain(alerts, i, p, j, k);
      }
    }
  }

  /** Main result: related alerts all end up in one incident exactly when no alert arrives as a
      bridge between alerts that were not connected before; the greedy loop never merges groups. */
  lemma {:induction false} TogetherIffNoBridge(alerts: seq<Alert>)
    ensures RelatedStayTogether(alerts) <==> NoBridge(alerts)
  {
    if NoBridge(alerts) {
      NoBridgeKeepsTogether(alerts, |alerts|);
    }
    if RelatedStayTogether(alerts) {
      forall i, j, k | 0 <= i < |alerts| && 0 <= j < i && 0 <= k < i
                       && Related(alerts[j], alerts[i]) && Related(alerts[k], alerts[i])
        ensures Reaches(alerts[..i], j, k)
      {
        SameGroupReaches(alerts, i, j, k);
      }
    }
  }

  /** Time plays no part: two alerts grouped together share an incident exactly when they share an
      entity or a metric. */
  lemma {:induction false} TogetherOnlyIfRelated(a: Alert, entity: string, metric: string,
        b: Alert, entity': string, metric': string)
    requires IsAbout(a, entity, metric) && IsAbout(b, entity', metric')
    ensures |GroupAll([a, b])| == (if entity == entity' || metric == metric' then 1 else 2)
    ensures Related(a, b) <==> entity == entity' || metric == metric'
  {
    assert [a, b][..1] == [a] && [a][..0] == [];
    assert GroupAll([]) == [] && GroupAll([a]) == [Opened(a)];
    assert Touches(Opened(a), b) <==> Related(a, b);
  }

  function At(entity: string, metric: string): Alert {
    Alert(Some(entity), Some(metric), None, None)
  }

  /** CPU on host a, memory on host b, then memory on host a: the third joins the first only. */
  lemma {:induction false} BridgeSplitsRelated()
    ensures !RelatedStayTogether([At("host-a", "cpu"), At("host-b", "mem"), At("host-a", "mem")])
  {
    var a, b, c := At("host-a", "cpu"), At("host-b", "mem"), At("host-a", "mem");
    var alerts := [a, b, c];
    EveryAlertPlacedRight(alerts);
    var slots := Assignment(alerts);
    assert PlacedRight(alerts, slots, 1) && PlacedRight(alerts, slots, 2);
    assert !Related(alerts[0], alerts[1]) && Related(alerts[0], alerts[2]) && Related(alerts[1], alerts[2]);
    assert "host-a"[5] != "host-b"[5];
    assert slots[0] < slots[1] && slots[2] <= slots[0];
  }

  // ---- A group is connected -------------------------------------------------------------

  lemma {:induction false} WalkToFirst(g: Group, j: nat) returns (down: seq<nat>, up: seq<nat>)
    requires Linked(g) && j < |g.alerts|
    ensures Walk(g.alerts, down) && down != [] && down[0] == j && down[|down| - 1] == 0
    ensures Walk(g.alerts, up) && up != [] && up[0] == 0 && up[|up| - 1] == j
  {
    if j == 0 {
      down, up := [0], [0];
    } else {
      var i :| 0 <= i < j && Related(g.alerts[i], g.alerts[j]);
      down, up := WalkToFirst(g, i);
      WalkExtended(g.alerts, j, down);
      WalkExtended(g.alerts, j, up);
      down, up := [j] + down, up + [j];
    }
  }

  /** Any two alerts of a group are joined by a chain of related alerts inside the group. */
  lemma {:induction false} GroupConnected(alerts: seq<Alert>, g: nat, i: nat, j: nat) returns (p: seq<nat>)
    requires g < |GroupAll(alerts)| && i < |GroupAll(alerts)[g].alerts| && j < |GroupAll(alerts)[g].alerts|
    ensures Walk(GroupAll(alerts)[g].alerts, p) && p != [] && p[0] == i && p[|p| - 1] == j
  {
    GroupsPartition(alerts);
    var down, _ := WalkToFirst(GroupAll(alerts)[g], i);
    var _, up := WalkToFirst(GroupAll(alerts)[g], j);
    p := down + up;
  }

  // ---- Deduplication ----------------------------------------------------------------------

  /** The text the deduplication hash is taken of; the hash is read as collision-free. */
  function DedupKey(alert: Alert): string {
    GetOr(alert.entity, "") + "|" + GetOr(alert.metric, "") + "|" + GetOr(alert.state, "") + "|" + GetOr(alert.severity, "")
  }

  /** The four parts as hashed; an absent one is empty. */
  predicate Reads(alert: Alert, entity: string, metric: string, state: string, severity: string) {
    && (alert.entity == Some(entity) || (alert.entity == None && entity == ""))
    && (alert.metric == Some(metric) || (alert.metric == None && metric == ""))
    && (alert.state == Some(state) || (alert.state == None && state == ""))
    && (alert.severity == Some(severity) || (alert.severity == None && severity == ""))
  }

  /** Two alerts are repeats exactly when all four parts agree, unless one of the first three holds the
      separator. */
  lemma {:induction false} RepeatsExactly(a: Alert, entity: string, metric: string, state: string, severity: string,
        b: Alert, entity': string, metric': string, state': string, severity': string)
    requires Reads(a, entity, metric, state, severity) && Reads(b, entity', metric', state', severity')
    requires '|' !in entity + metric + state && '|' !in entity' + metric' + state'
    ensures DedupKey(a) == DedupKey(b) <==> entity == entity' && metric == metric' && state == state' && severity == severity'
  {
    if DedupKey(a) == DedupKey(b) {
      SplitParts(entity, metric, state, severity);
      SplitParts(entity', metric', state', severity');
      FirstSplit('|', entity, metric + "|" + (state + "|" + severity), entity', metric' + "|" + (state' + "|" + severity'));
      FirstSplit('|', metric, state + "|" + severity, metric', state' + "|" + severity');
      FirstSplit('|', state, severity, state', severity');
    }
  }

  lemma {:induction false} SplitParts(entity: string, metric: string, state: string, severity: string)
    ensures entity + "|" + metric + "|" + state + "|" + severity
         == entity + ['|'] + (metric + "|" + (state + "|" + severity))
  {}

  function Keys(alerts: seq<Alert>): set<string> {
    set i | 0 <= i < |alerts| :: DedupKey(alerts[i])
  }

  function Unique(alerts: seq<Alert>): seq<Alert> {
    if alerts == [] then []
    else
      var n := |alerts| - 1;
      Unique(alerts[..n]) + (if DedupKey(alerts[n]) in Keys(alerts[..n]) then [] else [alerts[n]])
  }

  ghost predicate DistinctKeys(alerts: seq<Alert>) {
    forall i, j | 0 <= i < j < |alerts| :: DedupKey(alerts[i]) != DedupKey(alerts[j])
  }

  lemma {:induction false} KeysStep(alerts: seq<Alert>)
    requires alerts != []
    ensures Keys(alerts) == Keys(alerts[..|alerts| - 1]) + {DedupKey(alerts[|alerts| - 1])}
  {
    var n := |alerts| - 1;
    var init := alerts[..n];
    forall k | k in Keys(alerts) ensures k in Keys(init) + {DedupKey(alerts[n])} {
      var i :| 0 <= i < |alerts| && DedupKey(alerts[i]) == k;
      if i < n { assert init[i] == alerts[i]; }
    }
    forall k | k in Keys(init) ensures k in Keys(alerts) {
      var i :| 0 <= i < n && DedupKey(init[i]) == k;
      assert alerts[i] == init[i];
    }
  }

  /** Deduplication keeps one alert per key, and loses no key. */
  lemma {:induction false} UniqueKeepsEachKeyOnce(alerts: seq<Alert>)
    ensures DistinctKeys(Unique(alerts)) && Keys(Unique(alerts)) == Keys(alerts)
  {
    if alerts != [] {
      var n := |alerts| - 1;
      var u := Unique(alerts[..n]);
      UniqueKeepsEachKeyOnce(alerts[..n]);
      KeysStep(alerts);
      if DedupKey(alerts[n]) !in Keys(alerts[..n]) {
        var u' := u + [alerts[n]];
        assert u'[..|u|] == u;
        KeysStep(u');
        forall i | 0 <= i < |u| ensures DedupKey(u[i]) != DedupKey(alerts[n]) {
          assert DedupKey(u[i]) in Keys(u);
        }
      } else {
        assert u + [] == u;
      }
    }
  }

  // ---- The reduced list -------------------------------------------------------------------

  datatype Entry =
    | Single(alert: Alert)
    | Incident(alertCount: nat, entities: set<string>, metrics: set<string>, severity: string, first: Alert)

  function SeverityOf(alert: Alert): string { GetOr(alert.severity, "info") }

  predicate Has(alerts: seq<Alert>, severity: string) {
    exists i :: 0 <= i < |alerts| && alerts[i].severity == Some(severity)
  }

  function Priority(severity: string): nat {
    if severity == "critical" then 0 else if severity == "warning" then 1 else if severity == "info" then 2 else 99
  }

  /** The highest severity present; unknown severities never win over "info". */
  method MaxSeverity(alerts: seq<Alert>) returns (best: string)
    ensures best == Highest(alerts)
    ensures best == "critical" <==> Has(alerts, "critical")
    ensures best == "warning" <==> !Has(alerts, "critical") && Has(alerts, "warning")
    ensures best == "info" <==> !Has(alerts, "critical") && !Has(alerts, "warning")
  {
    best := "info";
    for i := 0 to |alerts|
      invariant best == Highest(alerts[..i])
    {
      var seen := alerts[..i + 1];
      assert seen[..i] == alerts[..i] && seen[i] == alerts[i];
      HasStep(seen, "critical");
      HasStep(seen, "warning");
      var sev := SeverityOf(alerts[i]);
      if Priority(sev) < Priority(best) {
        best := sev;
      }
    }
    assert alerts[..|alerts|] == alerts;
  }

  function Highest(alerts: seq<Alert>): string {
    if Has(alerts, "critical") then "critical" else if Has(alerts, "warning") then "warning" else "info"
  }

  lemma {:induction false} HasStep(alerts: seq<Alert>, severity: string)
    requires alerts != []
    ensures Has(alerts, severity) <==> Has(alerts[..|alerts| - 1], severity) || alerts[|alerts| - 1].severity == Some(severity)
  {
    var init := alerts[..|alerts| - 1];
    if i :| 0 <= i < |alerts| && alerts[i].severity == Some(severity) {
      if i < |init| { assert init[i].severity == Some(severity); }
    }
    if i :| 0 <= i < |init| && init[i].severity == Some(severity) { assert alerts[i].severity == Some(severity); }
  }

  function EntryOf(g: Group): Entry
    requires g.alerts != []
  {
    if |g.alerts| == 1 then Single(g.alerts[0])
    else Incident(|g.alerts|, g.entities, g.metrics, Highest(g.alerts), g.alerts[0])
  }

  /** What an entry says of its group: a lone alert itself; otherwise how many there are, exactly their
      entities and metrics, their highest severity, and the first of them. */
  lemma {:induction false} EntryTells(alerts: seq<Alert>, g: nat)
    requires g < |GroupAll(alerts)|
    ensures GroupAll(alerts)[g].alerts != []
    ensures var mine, e := GroupAll(alerts)[g].alerts, EntryOf(GroupAll(alerts)[g]);
            match e
            case Single(alert) => mine == [alert]
            case Incident(n, entities, metrics, severity, first) =>
              && n == |mine| != 1 && first == mine[0] && severity == Highest(mine)
              && (forall x :: x in entities <==> exists i :: 0 <= i < |mine| && EntityOf(mine[i]) == x)
              && (forall x :: x in metrics <==> exists i :: 0 <= i < |mine| && MetricOf(mine[i]) == x)
  {
    GroupsPartition(alerts);
    var group := GroupAll(alerts)[g];
    assert SetsExact(group) && Linked(group);
  }

  function Weight(e: Entry): nat {
    match e case Single(_) => 1 case Incident(n, _, _, _, _) => n
  }

  function TotalWeight(es: seq<Entry>): nat {
    if es == [] then 0 else TotalWeight(es[..|es| - 1]) + Weight(es[|es| - 1])
  }

  function Sizes(groups: seq<Group>): nat {
    if groups == [] then 0 else Sizes(groups[..|groups| - 1]) + |groups[|groups| - 1].alerts|
  }

  lemma {:induction false} SizesUpdate(groups: seq<Group>, g: nat, v: Group)
    requires g < |groups|
    ensures Sizes(groups[g := v]) == Sizes(groups) - |groups[g].alerts| + |v.alerts|
  {
    var n := |groups| - 1;
    if g == n {
      assert groups[g := v][..n] == groups[..n];
    } else {
      SizesUpdate(groups[..n], g, v);
      assert groups[g := v][..n] == groups[..n][g := v];
    }
  }

  lemma {:induction false} GroupsHoldAll(alerts: seq<Alert>)
    ensures Sizes(GroupAll(alerts)) == |alerts|
  {
    if alerts != [] {
      var n := |alerts| - 1;
      var groups, alert := GroupAll(alerts[..n]), alerts[n];
      GroupsHoldAll(alerts[..n]);
      var g := FirstTouched(groups, alert);
      if g < |groups| {
        SizesUpdate(groups, g, Joined(groups[g], alert));
      } else {
        assert (groups + [Opened(alert)])[..|groups|] == groups;
      }
    }
  }

  /** One entry per group, in order. */
  ghost predicate Reports(result: seq<Entry>, groups: seq<Group>) {
    |result| == |groups| && forall g | 0 <= g < |groups| :: groups[g].alerts != [] && result[g] == EntryOf(groups[g])
  }

  lemma {:induction false} ReportsWeigh(result: seq<Entry>, groups: seq<Group>)
    requires Reports(result, groups)
    ensures TotalWeight(result) == Sizes(groups)
  {
    if result != [] {
      ReportsWeigh(result[..|result| - 1], groups[..|groups| - 1]);
    }
  }

  lemma {:induction false} NoEmptyGroup(alerts: seq<Alert>)
    ensures forall g | 0 <= g < |GroupAll(alerts)| :: GroupAll(alerts)[g].alerts != []
  {
    GroupsPartition(alerts);
    forall g | 0 <= g < |GroupAll(alerts)| ensures GroupAll(alerts)[g].alerts != [] { assert Linked(GroupAll(alerts)[g]); }
  }

  class IncidentManager {
    var incidents: seq<IncidentGroup>

    constructor ()
      ensures incidents == []
    {
      incidents := [];
    }

    /** The reduced list accounts for every distinct alert, group by group. */
    method Deduplicate(alerts: seq<Alert>) returns (result: seq<Entry>)
      modifies this
      ensures |incidents| == |old(incidents)| + |result| && old(incidents) <= incidents
      ensures Values(incidents[|old(incidents)|..]) == GroupAll(Unique(alerts))
      ensures Reports(result, GroupAll(Unique(alerts))) && TotalWeight(result) == |Unique(alerts)|
    {
      var unique := DropRepeats(alerts);
      var groups := GroupIntoIncidents(unique);
      NoEmptyGroup(unique);
      result := Report(groups);
      ReportWeighsAll(result, unique);
      incidents := incidents + groups;
      assert incidents[|old(incidents)|..] == groups;
    }
  }

  lemma {:induction false} ReportWeighsAll(result: seq<Entry>, alerts: seq<Alert>)
    requires Reports(result, GroupAll(alerts))
    ensures TotalWeight(result) == |alerts|
  {
    GroupsHoldAll(alerts);
    ReportsWeigh(result, GroupAll(alerts));
  }

  method Report(groups: seq<IncidentGroup>) returns (result: seq<Entry>)
    requires forall g | 0 <= g < |groups| :: Values(groups)[g].alerts != []
    ensures Reports(result, Values(groups))
  {
    ghost var values := Values(groups);
    result := [];
    assert values[..0] == [];
    for g := 0 to |groups|
      invariant Reports(result, values[..g])
    {
      assert groups[g].Value() == values[g];
      var severity := MaxSeverity(groups[g].alerts);
      var entry := if |groups[g].alerts| == 1 then Single(groups[g].alerts[0])
        else Incident(|groups[g].alerts|, groups[g].entityIds, groups[g].metrics, severity, groups[g].alerts[0]);
      assert entry == EntryOf(values[g]);
      assert values[..g + 1] == values[..g] + [values[g]];
      result := result + [entry];
    }
    assert values[..|groups|] == values;
  }

  lemma {:induction false} UniqueStep(alerts: seq<Alert>, i: nat)
    requires i < |alerts|
    ensures Keys(alerts[..i + 1]) == Keys(alerts[..i]) + {DedupKey(alerts[i])}
    ensures Unique(alerts[..i + 1]) ==
            Unique(alerts[..i]) + if DedupKey(alerts[i]) in Keys(alerts[..i]) then [] else [alerts[i]]
  {
    assert alerts[..i + 1][..i] == alerts[..i];
    KeysStep(alerts[..i + 1]);
  }

  method DropRepeats(alerts: seq<Alert>) returns (unique: seq<Alert>)
    ensures unique == Unique(alerts)
  {
    unique := [];
    var seen: set<string> := {};
    assert alerts[..0] == [];
    for i := 0 to |alerts|
      invariant unique == Unique(alerts[..i]) && seen == Keys(alerts[..i])
    {
      UniqueStep(alerts, i);
      if DedupKey(alerts[i]) !in seen {
        seen := seen + {DedupKey(alerts[i])};
        unique := unique + [alerts[i]];
      }
    }
    assert alerts[..|alerts|] == alerts;
  }
}
