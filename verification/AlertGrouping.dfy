/** Deduplication of alerts and their greedy grouping into incidents. */
module AlertGrouping {
  import opened Alerts

  // ---- Grouping as a function on values -------------------------------------------

  datatype Group = Group(alerts: seq<Alert>, entities: set<string>, metrics: set<string>)

  predicate Touches(g: Group, alert: Alert) {
    EntityOf(alert) in g.entities || MetricOf(alert) in g.metrics
  }

  function Opened(alert: Alert): Group {
    Group([alert], {EntityOf(alert)}, {MetricOf(alert)})
  }

  function Joined(g: Group, alert: Alert): Group {
    Group(g.alerts + [alert], g.entities + {EntityOf(alert)}, g.metrics + {MetricOf(alert)})
  }

  /** The first group the alert touches; one past the last when there is none. */
  function FirstTouched(groups: seq<Group>, alert: Alert): (g: nat)
    ensures g <= |groups|
    ensures g < |groups| ==> Touches(groups[g], alert)
    ensures forall h | 0 <= h < g :: !Touches(groups[h], alert)
  {
    if groups == [] then 0
    else if Touches(groups[0], alert) then 0
    else 1 + FirstTouched(groups[1..], alert)
  }

  function Place(groups: seq<Group>, alert: Alert): seq<Group> {
    var g := FirstTouched(groups, alert);
    if g < |groups| then groups[g := Joined(groups[g], alert)] else groups + [Opened(alert)]
  }

  function GroupAll(alerts: seq<Alert>): seq<Group> {
    if alerts == [] then []
    else Place(GroupAll(alerts[..|alerts| - 1]), alerts[|alerts| - 1])
  }

  // ---- The grouping loops over group records ---------------------------------------

  class IncidentGroup {
    var alerts: seq<Alert>
    var entityIds: set<string>
    var metrics: set<string>

    constructor (alert: Alert)
      ensures Value() == Opened(alert)
    {
      alerts, entityIds, metrics := [alert], {EntityOf(alert)}, {MetricOf(alert)};
    }

    function Value(): Group
      reads this
    {
      Group(alerts, entityIds, metrics)
    }

    method Join(alert: Alert)
      modifies this
      ensures Value() == Joined(old(Value()), alert)
    {
      alerts := alerts + [alert];
      entityIds := entityIds + {EntityOf(alert)};
      metrics := metrics + {MetricOf(alert)};
    }
  }

  ghost predicate Separate(groups: seq<IncidentGroup>) {
    forall i, j | 0 <= i < j < |groups| :: groups[i] != groups[j]
  }

  ghost function Values(groups: seq<IncidentGroup>): (vs: seq<Group>)
    reads groups
    ensures |vs| == |groups|
    ensures forall i | 0 <= i < |groups| :: vs[i] == groups[i].Value()
  {
    if groups == [] then [] else Values(groups[..|groups| - 1]) + [groups[|groups| - 1].Value()]
  }

  method FindGroup(groups: seq<IncidentGroup>, alert: Alert) returns (g: nat)
    ensures g == FirstTouched(Values(groups), alert)
  {
    g := 0;
    ghost var vs := Values(groups);
    while g < |groups|
      invariant g <= |groups|
      invariant forall h | 0 <= h < g :: !Touches(vs[h], alert)
    {
      if EntityOf(alert) in groups[g].entityIds || MetricOf(alert) in groups[g].metrics {
        break;
      }
      g := g + 1;
    }
  }

  method JoinAt(groups: seq<IncidentGroup>, g: nat, alert: Alert)
    requires Separate(groups) && g < |groups|
    modifies groups
    ensures Values(groups) == old(Values(groups))[g := Joined(old(Values(groups))[g], alert)]
  {
    groups[g].Join(alert);
  }

  method OpenAfter(groups: seq<IncidentGroup>, alert: Alert) returns (placed: seq<IncidentGroup>)
    requires Separate(groups)
    ensures |placed| == |groups| + 1 && placed[..|groups|] == groups && fresh(placed[|groups|]) && Separate(placed)
    ensures Values(placed) == Values(groups) + [Opened(alert)]
  {
    var group := new IncidentGroup(alert);
    placed := groups + [group];
    assert placed[..|groups|] == groups;
  }

  /** One round of the grouping loop: the alert joins the first group it touches, or opens one. */
  method PlaceAlert(groups: seq<IncidentGroup>, alert: Alert) returns (placed: seq<IncidentGroup>)
    requires Separate(groups)
    modifies groups
    ensures Separate(placed) && (forall i | 0 <= i < |placed| :: placed[i] in groups || fresh(placed[i]))
    ensures Values(placed) == Place(old(Values(groups)), alert)
  {
    var g := FindGroup(groups, alert);
    if g < |groups| {
      JoinAt(groups, g, alert);
      placed := groups;
    } else {
      placed := OpenAfter(groups, alert);
    }
  }

  method GroupIntoIncidents(alerts: seq<Alert>) returns (groups: seq<IncidentGroup>)
    ensures Separate(groups) && fresh(groups)
    ensures Values(groups) == GroupAll(alerts)
  {
    groups := [];
    assert alerts[..0] == [];
    for n := 0 to |alerts|
      invariant Separate(groups) && forall i | 0 <= i < |groups| :: fresh(groups[i])
      invariant Values(groups) == GroupAll(alerts[..n])
    {
      assert alerts[..n + 1][..n] == alerts[..n];
      groups := PlaceAlert(groups, alerts[n]);
    }
    assert alerts[..|alerts|] == alerts;
  }

  // ---- Which alert went where --------------------------------------------------------

  /** Alerts sharing an entity or a metric, with the grouping's defaults. */
  predicate Related(a: Alert, b: Alert) {
    EntityOf(a) == EntityOf(b) || MetricOf(a) == MetricOf(b)
  }

  /** For each alert, the number of the group it was put in. */
  function Assignment(alerts: seq<Alert>): (r: seq<nat>)
    ensures |r| == |alerts|
  {
    if alerts == [] then []
    else
      var init := alerts[..|alerts| - 1];
      Assignment(init) + [FirstTouched(GroupAll(init), alerts[|alerts| - 1])]
  }

  /** The alerts assigned to group `g`, in their original order. */
  function Members(alerts: seq<Alert>, slots: seq<nat>, g: nat): seq<Alert>
    requires |slots| == |alerts|
  {
    if alerts == [] then []
    else
      var n := |alerts| - 1;
      Members(alerts[..n], slots[..n], g) + (if slots[n] == g then [alerts[n]] else [])
  }

  ghost predicate SetsExact(g: Group) {
    && (forall e :: e in g.entities <==> exists i :: 0 <= i < |g.alerts| && EntityOf(g.alerts[i]) == e)
    && (forall m :: m in g.metrics <==> exists i :: 0 <= i < |g.alerts| && MetricOf(g.alerts[i]) == m)
  }

  /** Every alert after the group's first shares something with an earlier one of the group. */
  ghost predicate Linked(g: Group) {
    g.alerts != [] && forall j | 0 < j < |g.alerts| :: exists i :: 0 <= i < j && Related(g.alerts[i], g.alerts[j])
  }

  lemma {:induction false} TouchedMember(g: Group, alert: Alert) returns (i: nat)
    requires SetsExact(g) && Touches(g, alert)
    ensures i < |g.alerts| && Related(g.alerts[i], alert)
  {
    if EntityOf(alert) in g.entities {
      i :| 0 <= i < |g.alerts| && EntityOf(g.alerts[i]) == EntityOf(alert);
    } else {
      i :| 0 <= i < |g.alerts| && MetricOf(g.alerts[i]) == MetricOf(alert);
    }
  }

  lemma {:induction false} JoinedKeeps(g: Group, alert: Alert)
    requires SetsExact(g) && Linked(g) && Touches(g, alert)
    ensures SetsExact(Joined(g, alert)) && Linked(Joined(g, alert))
  {
    var j := Joined(g, alert);
    var t := TouchedMember(g, alert);
    forall k | 0 < k < |j.alerts| ensures exists i :: 0 <= i < k && Related(j.alerts[i], j.alerts[k]) {
      if k < |g.alerts| {
        var i :| 0 <= i < k && Related(g.alerts[i], g.alerts[k]);
        assert Related(j.alerts[i], j.alerts[k]);
      } else {
        assert Related(j.alerts[t], j.alerts[k]);
      }
    }
    JoinedSets(g, alert);
  }

  lemma {:induction false} JoinedSets(g: Group, alert: Alert)
    requires SetsExact(g)
    ensures SetsExact(Joined(g, alert))
  {
    var j := Joined(g, alert);
    assert j.alerts[|g.alerts|] == alert;
    forall e ensures e in j.entities <==> exists i :: 0 <= i < |j.alerts| && EntityOf(j.alerts[i]) == e {
      if i :| 0 <= i < |g.alerts| && EntityOf(g.alerts[i]) == e {
        assert EntityOf(j.alerts[i]) == e;
      }
    }
    forall m ensures m in j.metrics <==> exists i :: 0 <= i < |j.alerts| && MetricOf(j.alerts[i]) == m {
      if i :| 0 <= i < |g.alerts| && MetricOf(g.alerts[i]) == m {
        assert MetricOf(j.alerts[i]) == m;
      }
    }
  }

  lemma {:induction false} OpenedKeeps(alert: Alert)
    ensures SetsExact(Opened(alert)) && Linked(Opened(alert))
  {
    assert Opened(alert).alerts[0] == alert;
  }

  /** The groups are a partition of the alerts in order, their sets are exactly those of their
      alerts, and each hangs together. */
  lemma {:induction false} GroupsPartition(alerts: seq<Alert>)
    ensures forall i | 0 <= i < |alerts| :: Assignment(alerts)[i] < |GroupAll(alerts)|
    ensures forall g | 0 <= g < |GroupAll(alerts)| ::
              && GroupAll(alerts)[g].alerts == Members(alerts, Assignment(alerts), g)
              && SetsExact(GroupAll(alerts)[g]) && Linked(GroupAll(alerts)[g])
  {
    if alerts != [] {
      var n := |alerts| - 1;
      var init, alert := alerts[..n], alerts[n];
      GroupsPartition(init);
      var groups := GroupAll(init);
      var at := FirstTouched(groups, alert);
      var slots := Assignment(alerts);
      assert slots[..n] == Assignment(init) && slots[n] == at;
      MembersBeyond(init, Assignment(init), |groups|);
      forall g | 0 <= g < |GroupAll(alerts)|
        ensures GroupAll(alerts)[g].alerts == Members(alerts, slots, g)
        ensures SetsExact(GroupAll(alerts)[g]) && Linked(GroupAll(alerts)[g])
      {
        if g == at {
          if at < |groups| { JoinedKeeps(groups[at], alert); } else { OpenedKeeps(alert); }
        }
      }
    }
  }

  lemma {:induction false} MembersBeyond(alerts: seq<Alert>, slots: seq<nat>, g: nat)
    requires |slots| == |alerts| && forall i | 0 <= i < |slots| :: slots[i] < g
    ensures Members(alerts, slots, g) == []
  {
    if alerts != [] { MembersBeyond(alerts[..|alerts| - 1], slots[..|alerts| - 1], g); }
  }

  lemma {:induction false} MembersIndexed(alerts: seq<Alert>, slots: seq<nat>, g: nat)
    requires |slots| == |alerts|
    ensures forall a :: a in Members(alerts, slots, g) <==> exists i :: 0 <= i < |alerts| && slots[i] == g && alerts[i] == a
  {
    if alerts != [] {
      var n := |alerts| - 1;
      MembersIndexed(alerts[..n], slots[..n], g);
      forall a ensures a in Members(alerts, slots, g) <==> exists i :: 0 <= i < |alerts| && slots[i] == g && alerts[i] == a {
        if i :| 0 <= i < |alerts| && slots[i] == g && alerts[i] == a {
          if i < n { assert slots[..n][i] == g && alerts[..n][i] == a; }
        }
        if a in Members(alerts[..n], slots[..n], g) {
          var i :| 0 <= i < n && slots[..n][i] == g && alerts[..n][i] == a;
          assert slots[i] == g && alerts[i] == a;
        }
      }
    }
  }

  /** A group is touched exactly when one of the alerts assigned to it is related. */
  lemma {:induction false} TouchedIsRelated(alerts: seq<Alert>, g: nat, alert: Alert)
    requires g < |GroupAll(alerts)|
    ensures Touches(GroupAll(alerts)[g], alert) <==>
              exists i :: 0 <= i < |alerts| && Assignment(alerts)[i] == g && Related(alerts[i], alert)
  {
    GroupsPartition(alerts);
    MembersIndexed(alerts, Assignment(alerts), g);
    var group := GroupAll(alerts)[g];
    if i :| 0 <= i < |alerts| && Assignment(alerts)[i] == g && Related(alerts[i], alert) {
      assert alerts[i] in group.alerts;
      var j :| 0 <= j < |group.alerts| && group.alerts[j] == alerts[i];
    }
    if Touches(group, alert) {
      var j :| 0 <= j < |group.alerts| && Related(group.alerts[j], alert);
      assert group.alerts[j] in group.alerts;
    }
  }
}
