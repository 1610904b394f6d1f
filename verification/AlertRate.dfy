/** What the two alert filters guarantee together: a bound on surfaced non-critical
    alerts of one key in any fifteen minutes, which neither gives alone. */
module AlertRate {
  import opened Common
  import opened Alerts
  import opened AlertFatigue

  /** The event counts against the rate: a surfaced non-critical alert at or after `a`. */
  predicate Counts(e: Event, a: real) {
    e.fired && !e.critical && a <= e.time
  }

  ghost function SurfacedCount(h: seq<Event>, key: string, a: real, b: real): nat {
    if h == [] then 0
    else
      var e := h[|h| - 1];
      SurfacedCount(h[..|h| - 1], key, a, b) + (if e.key == key && Counts(e, a) && e.time <= b then 1 else 0)
  }

  // ---- From the manager's history to the calls of one key ------------------------

  ghost predicate RunDecidedAt(r: seq<Event>, i: nat)
    requires i < |r|
  {
    r[i].fired == Surfaces(r[..i], r[i].time, r[i].state, r[i].critical)
  }

  ghost predicate RunLawful(r: seq<Event>) {
    ClockRuns(r) && forall i | 0 <= i < |r| :: RunDecidedAt(r, i)
  }

  lemma {:induction false} ClockOfPrefix(h: seq<Event>)
    requires ClockRuns(h) && h != []
    ensures ClockRuns(h[..|h| - 1])
  {
    assert forall i | 0 <= i < |h| - 1 :: h[..|h| - 1][i] == h[i];
  }

  lemma {:induction false} LawfulPrefix(h: seq<Event>)
    requires Lawful(h) && h != []
    ensures Lawful(h[..|h| - 1])
  {
    var init := h[..|h| - 1];
    ClockOfPrefix(h);
    forall i | 0 <= i < |init| ensures DecidedAt(init, i) {
      assert DecidedAt(h, i) && init[..i] == h[..i] && init[i] == h[i];
    }
  }

  lemma {:induction false} RunOfLawful(h: seq<Event>, key: string)
    requires Lawful(h)
    ensures RunLawful(Run(h, key))
  {
    if h != [] {
      var init, e := h[..|h| - 1], h[|h| - 1];
      LawfulPrefix(h);
      RunOfLawful(init, key);
      RunMembers(init, key);
      var r := Run(init, key);
      assert DecidedAt(h, |h| - 1);
      if e.key == key {
        RunExtends(r, e);
      } else {
        assert Run(h, key) == r;
      }
    }
  }

  lemma {:induction false} RunExtends(r: seq<Event>, e: Event)
    requires RunLawful(r) && 0.0 < e.time && (forall i | 0 <= i < |r| :: r[i].time <= e.time)
    requires e.fired == Surfaces(r, e.time, e.state, e.critical)
    ensures RunLawful(r + [e])
  {
    assert (r + [e])[..|r|] == r && (r + [e])[|r|] == e;
    ClockExtends(r, e);
    forall i | 0 <= i < |r| + 1 ensures RunDecidedAt(r + [e], i) {
      if i < |r| {
        DecidedInPrefix(r, e, i);
      }
    }
  }

  lemma {:induction false} ClockExtends(r: seq<Event>, e: Event)
    requires ClockRuns(r) && 0.0 < e.time && (forall i | 0 <= i < |r| :: r[i].time <= e.time)
    ensures ClockRuns(r + [e])
  {}

  lemma {:induction false} DecidedInPrefix(r: seq<Event>, e: Event, i: nat)
    requires i < |r| && RunDecidedAt(r, i)
    ensures RunDecidedAt(r + [e], i)
  {
    assert (r + [e])[..i] == r[..i];
  }

  lemma {:induction false} RunPrefix(r: seq<Event>, n: nat)
    requires RunLawful(r) && n <= |r|
    ensures RunLawful(r[..n])
  {
    forall i | 0 <= i < n ensures RunDecidedAt(r[..n], i) {
      assert RunDecidedAt(r, i) && r[..n][..i] == r[..i];
    }
  }

  // ---- State changes since a moment ------------------------------------------------

  ghost function Since(ts: seq<Transition>, a: real): seq<Transition> {
    if ts == [] then []
    else Since(ts[..|ts| - 1], a) + (if a <= ts[|ts| - 1].time then [ts[|ts| - 1]] else [])
  }

  ghost predicate InOrder(ts: seq<Transition>) {
    forall i, j | 0 <= i < j < |ts| :: ts[i].time <= ts[j].time
  }

  lemma {:induction false} RecentIsSince(ts: seq<Transition>, now: real)
    ensures Recent(ts, now) == Since(ts, now - FLAP_WINDOW)
  {
    if ts != [] { RecentIsSince(ts[..|ts| - 1], now); }
  }

  lemma {:induction false} SinceEnds(ts: seq<Transition>, a: real)
    requires InOrder(ts)
    ensures Since(ts, a) == [] <==> (ts == [] || ts[|ts| - 1].time < a)
    ensures Since(ts, a) != [] ==> Since(ts, a)[|Since(ts, a)| - 1] == ts[|ts| - 1]
  {
    if ts != [] { SinceEnds(ts[..|ts| - 1], a); }
  }

  ghost function Toggles(ts: seq<Transition>, a: real): nat {
    Changes(Since(ts, a))
  }

  lemma {:induction false} ChangesAppend(ts: seq<Transition>, t: Transition)
    ensures Changes(ts + [t]) == Changes(ts) + if ts != [] && ts[|ts| - 1].state != t.state then 1 else 0
  {
    assert (ts + [t])[..|ts + [t]| - 1] == ts;
  }

  /** Looking back less far never shows more state changes. */
  lemma {:induction false} TogglesShrink(ts: seq<Transition>, a: real, a': real)
    requires InOrder(ts) && a <= a'
    ensures Toggles(ts, a') <= Toggles(ts, a)
  {
    if ts != [] {
      var init, t := ts[..|ts| - 1], ts[|ts| - 1];
      TogglesShrink(init, a, a');
      SinceEnds(init, a);
      SinceEnds(init, a');
      SinceEnds(ts, a');
      if a' <= t.time {
        ChangesAppend(Since(init, a), t);
        ChangesAppend(Since(init, a'), t);
      } else {
        assert Since(ts, a') == [];
      }
    }
  }

  lemma {:induction false} TogglesStep(ts: seq<Transition>, a: real, n: nat)
    requires InOrder(ts) && 2 <= n <= |ts| && a <= ts[n - 2].time
    ensures Toggles(ts[..n], a) == Toggles(ts[..n - 1], a) + if ts[n - 1].state != ts[n - 2].state then 1 else 0
  {
    assert ts[..n][..n - 1] == ts[..n - 1];
    SinceEnds(ts[..n - 1], a);
    ChangesAppend(Since(ts[..n - 1], a), ts[n - 1]);
  }

  /** Toggles only grow, and a stretch without a new one stays in one state. */
  lemma {:induction false} StretchBetween(ts: seq<Transition>, a: real, l: nat, n: nat)
    requires InOrder(ts) && l < n <= |ts| && a <= ts[l].time
    ensures Toggles(ts[..l + 1], a) <= Toggles(ts[..n], a)
    ensures Toggles(ts[..l + 1], a) == Toggles(ts[..n], a) ==> forall j | l <= j < n :: ts[j].state == ts[l].state
    decreases n
  {
    if l + 1 < n {
      StretchBetween(ts, a, l, n - 1);
      TogglesStep(ts, a, n);
    }
  }

  // ---- The potential ----------------------------------------------------------------

  ghost function Tally(r: seq<Event>, a: real): nat {
    if r == [] then 0
    else Tally(r[..|r| - 1], a) + (if Counts(r[|r| - 1], a) then 1 else 0)
  }

  /** The last surfaced alert before `n` was no earlier than any given surfaced one. */
  lemma {:induction false} LastFiredAfter(r: seq<Event>, l: nat) returns (m: nat)
    requires l < |r| && r[l].fired
    ensures l <= m < |r| && r[m].fired && LastFired(r) == Some(r[m])
    decreases |r|
  {
    if r[|r| - 1].fired {
      m := |r| - 1;
    } else {
      m := LastFiredAfter(r[..|r| - 1], l);
    }
  }

  /** Two surfaced alerts of one state are a cooldown apart, unless one of another state was
      surfaced between them; what was suppressed there does not matter. */
  lemma {:induction false} QuietRepeatWaits(r: seq<Event>, l: nat)
    requires RunLawful(r) && l < |r| - 1 && r[l].fired
    requires r[|r| - 1].fired && !r[|r| - 1].critical
    requires forall j | l <= j < |r| && r[j].fired :: r[j].state == r[l].state
    ensures r[|r| - 1].time - r[l].time >= COOLDOWN
  {
    var n := |r| - 1;
    var m := LastFiredAfter(r[..n], l);
    assert r[m].fired && r[m].state == r[l].state == r[n].state;
    assert RunDecidedAt(r, n);
  }

  lemma {:induction false} LastFiredIs(h: seq<Event>, l: nat)
    requires l < |h| && h[l].fired && forall j | l < j < |h| && h[j].key == h[l].key :: !h[j].fired
    ensures LastFired(Run(h, h[l].key)) == Some(h[l])
  {
    var n := |h| - 1;
    var r := Run(h[..n], h[l].key);
    LastFiredGrows(r, h[n]);
    assert r + [] == r;
    if l < n {
      assert h[..n][l] == h[l];
      LastFiredIs(h[..n], l);
    }
  }

  /** Main result: after a surfaced alert of its key, a non-critical alert is surfaced exactly when
      the key is not flapping and either 300 seconds have passed or its state is another one. So
      two alerts come less than five minutes apart just when the state differs. */
  lemma {:induction false} RepeatSurfacesExactly(h: seq<Event>, l: nat, n: nat)
    requires Lawful(h) && l < n < |h| && h[l].key == h[n].key && h[l].fired && !h[n].critical
    requires forall j | l < j < n && h[j].key == h[l].key :: !h[j].fired
    ensures h[n].fired <==>
              !Flapping(Run(h[..n], h[n].key), h[n].time, h[n].state)
              && (h[n].time - h[l].time >= COOLDOWN || h[n].state != h[l].state)
  {
    assert DecidedAt(h, n);
    LastFiredIs(h[..n], l);
  }

  /** `elapsed` seconds allow for this many alerts given this many toggles. */
  ghost predicate Paid(alerts: nat, toggles: nat, elapsed: real) {
    COOLDOWN * (alerts - 1 - toggles) as real <= elapsed
  }

  lemma {:induction false} PaidNext(alerts: nat, toggles: nat, elapsed: real, toggles': nat, elapsed': real)
    requires Paid(alerts, toggles, elapsed) && toggles <= toggles' && elapsed <= elapsed'
    requires toggles < toggles' || elapsed' - elapsed >= COOLDOWN
    ensures Paid(alerts + 1, toggles', elapsed')
  {
    var before, after := (alerts - 1 - toggles) as real, (alerts - toggles') as real;
    if toggles < toggles' {
      assert after <= before;
    } else {
      assert after == before + 1.0;
    }
  }

  /** Every counted alert after the first paid for itself: with a toggle or 300 seconds. */
  lemma {:induction false} Potential(r: seq<Event>, a: real) returns (l: nat)
    requires RunLawful(r) && Tally(r, a) > 0
    ensures l < |r| && Counts(r[l], a)
    ensures Paid(Tally(r, a), TogglesUpTo(r, l, a), r[l].time - a)
    decreases |r|
  {
    var n := |r| - 1;
    RunPrefix(r, n);
    if !Counts(r[n], a) {
      l := Potential(r[..n], a);
      PrefixToggles(r, n, l, a);
    } else if Tally(r[..n], a) == 0 {
      l := n;
    } else {
      var l0 := Potential(r[..n], a);
      PrefixToggles(r, n, l0, a);
      AnotherPays(r, a, l0);
      l := n;
    }
  }

  lemma {:induction false} AnotherPays(r: seq<Event>, a: real, l: nat)
    requires RunLawful(r) && l < |r| - 1 && Counts(r[l], a) && Counts(r[|r| - 1], a)
    requires Paid(Tally(r[..|r| - 1], a), TogglesUpTo(r, l, a), r[l].time - a)
    ensures Paid(Tally(r, a), TogglesUpTo(r, |r| - 1, a), r[|r| - 1].time - a)
  {
    var ts := Transitions(r);
    StretchBetween(ts, a, l, |r|);
    if Toggles(ts[..l + 1], a) == Toggles(ts[..|r|], a) {
      forall j | l <= j < |r| ensures r[j].state == r[l].state {
        assert ts[j].state == ts[l].state;
      }
      QuietRepeatWaits(r, l);
    }
    PaidNext(Tally(r[..|r| - 1], a), Toggles(ts[..l + 1], a), r[l].time - a, Toggles(ts[..|r|], a), r[|r| - 1].time - a);
  }

  ghost function TogglesUpTo(r: seq<Event>, l: nat, a: real): nat
    requires l < |r|
  {
    Toggles(Transitions(r)[..l + 1], a)
  }

  lemma {:induction false} PrefixToggles(r: seq<Event>, n: nat, l: nat, a: real)
    requires l < n <= |r|
    ensures TogglesUpTo(r[..n], l, a) == TogglesUpTo(r, l, a)
  {
    assert Transitions(r[..n])[..l + 1] == Transitions(r)[..l + 1];
  }

  lemma {:induction false} FewToggles(r: seq<Event>, a: real, l: nat)
    requires RunLawful(r) && l < |r| && Counts(r[l], a) && r[l].time <= a + FLAP_WINDOW
    ensures TogglesUpTo(r, l, a) <= 2
  {
    var ts := Transitions(r);
    assert RunDecidedAt(r, l);
    assert Transitions(r[..l]) + [ts[l]] == ts[..l + 1];
    RecentIsSince(ts[..l + 1], r[l].time);
    TogglesShrink(ts[..l + 1], r[l].time - FLAP_WINDOW, a);
  }

  lemma {:induction false} RunRate(r: seq<Event>, a: real)
    requires RunLawful(r) && forall i | 0 <= i < |r| :: r[i].time <= a + FLAP_WINDOW
    ensures Tally(r, a) <= 6
  {
    if Tally(r, a) > 0 {
      var l := Potential(r, a);
      FewToggles(r, a, l);
    }
  }

  lemma {:induction false} CountIsTally(h: seq<Event>, key: string, a: real, b: real)
    requires ClockRuns(h)
    ensures h != [] && h[|h| - 1].time <= b ==> SurfacedCount(h, key, a, b) == Tally(Run(h, key), a)
    ensures h == [] ==> SurfacedCount(h, key, a, b) == Tally(Run(h, key), a)
  {
    if h != [] && h[|h| - 1].time <= b {
      var init, e := h[..|h| - 1], h[|h| - 1];
      CountIsTally(init, key, a, b);
      if e.key == key {
        assert (Run(init, key) + [e])[..|Run(init, key)|] == Run(init, key);
      } else {
        assert Run(h, key) == Run(init, key);
      }
    }
  }

  /** Main result: whatever calls are made, critical ones included, any closed window of 900
      seconds surfaces at most six non-critical alerts of one key. */
  lemma {:induction false} RateBound(h: seq<Event>, key: string, a: real)
    requires Lawful(h)
    ensures SurfacedCount(h, key, a, a + 900.0) <= 6
    decreases |h|
  {
    if h != [] {
      var init := h[..|h| - 1];
      if h[|h| - 1].time > a + FLAP_WINDOW {
        LawfulPrefix(h);
        RateBound(init, key, a);
      } else {
        RunOfLawful(h, key);
        RunMembers(h, key);
        CountIsTally(h, key, a, a + FLAP_WINDOW);
        RunRate(Run(h, key), a);
      }
    }
  }

  /** So it is for the alerts of one entity and metric, in any sequence of calls. */
  lemma {:induction false} SixAtMost(calls: seq<Call>, alert: Alert, a: real)
    requires Clocked(calls)
    ensures SurfacedCount(HistoryOf(calls), KeyOf(alert), a, a + 900.0) <= 6
  {
    HistoryIsLawful(calls);
    RateBound(HistoryOf(calls), KeyOf(alert), a);
  }

  // ---- The bound is reached -----------------------------------------------------------

  /** Only surfaced non-critical alerts of `key`, all inside one window. */
  ghost predicate AllCounted(h: seq<Event>, key: string, a: real) {
    Lawful(h) && forall i | 0 <= i < |h| :: h[i].key == key && Counts(h[i], a)
  }

  lemma {:induction false} RunOfOneKey(h: seq<Event>, key: string)
    requires forall i | 0 <= i < |h| :: h[i].key == key
    ensures Run(h, key) == h
  {
    if h != [] { RunOfOneKey(h[..|h| - 1], key); }
  }

  lemma {:induction false} RecentKeepsAll(ts: seq<Transition>, now: real)
    requires forall i | 0 <= i < |ts| :: now - ts[i].time <= FLAP_WINDOW
    ensures Recent(ts, now) == ts
  {
    if ts != [] { RecentKeepsAll(ts[..|ts| - 1], now); }
  }

  lemma {:induction false} SurfacesNext(h: seq<Event>, now: real, state: string)
    requires forall i | 0 <= i < |h| :: h[i].fired && now - h[i].time <= FLAP_WINDOW
    requires h != [] ==> h[|h| - 1].state != state || now - h[|h| - 1].time >= COOLDOWN
    requires Changes(Transitions(h) + [Transition(now, state)]) < FLAP_THRESHOLD
    ensures Surfaces(h, now, state, false)
  {
    RecentKeepsAll(Transitions(h) + [Transition(now, state)], now);
  }

  predicate Toggled(h: seq<Event>, state: string) {
    h != [] && h[|h| - 1].state != state
  }

  lemma {:induction false} Surface(h: seq<Event>, key: string, a: real, now: real, state: string) returns (h': seq<Event>)
    requires 0.0 < a <= now <= a + FLAP_WINDOW && AllCounted(h, key, a)
    requires h != [] ==> h[|h| - 1].time <= now && (Toggled(h, state) || now - h[|h| - 1].time >= COOLDOWN)
    requires Changes(Transitions(h)) + (if Toggled(h, state) then 1 else 0) < FLAP_THRESHOLD
    ensures h' == h + [Event(now, key, state, false, true)] && AllCounted(h', key, a)
    ensures Changes(Transitions(h')) == Changes(Transitions(h)) + if Toggled(h, state) then 1 else 0
    ensures SurfacedCount(h', key, a, a + FLAP_WINDOW) == SurfacedCount(h, key, a, a + FLAP_WINDOW) + 1
  {
    var e := Event(now, key, state, false, true);
    h' := h + [e];
    assert Changes(Transitions(h) + [Transition(now, state)]) == Changes(Transitions(h)) + if Toggled(h, state) then 1 else 0 by {
      ChangesAppend(Transitions(h), Transition(now, state));
    }
    assert Transitions(h') == Transitions(h) + [Transition(now, state)];
    assert Lawful(h') by {
      RunOfOneKey(h, key);
      SurfacesNext(h, now, state);
      LawfulGrows(h, e);
    }
    CountGrows(h, e, key, a);
  }

  lemma {:induction false} CountGrows(h: seq<Event>, e: Event, key: string, a: real)
    requires e.key == key && Counts(e, a) && e.time <= a + FLAP_WINDOW
    requires forall i | 0 <= i < |h| :: h[i].key == key && Counts(h[i], a)
    ensures forall i | 0 <= i <= |h| :: (h + [e])[i].key == key && Counts((h + [e])[i], a)
    ensures SurfacedCount(h + [e], key, a, a + FLAP_WINDOW) == SurfacedCount(h, key, a, a + FLAP_WINDOW) + 1
  {
    assert (h + [e])[..|h|] == h;
  }

  /** All surfaced and counted so far: `count` alerts with `changes` state changes, the last in
      `state` at `now`. */
  ghost predicate Stage(h: seq<Event>, key: string, a: real, now: real, state: string, changes: nat, count: nat) {
    && AllCounted(h, key, a) && h != [] && h[|h| - 1].time == now && h[|h| - 1].state == state
    && Changes(Transitions(h)) == changes && SurfacedCount(h, key, a, a + FLAP_WINDOW) == count
  }

  lemma {:induction false} FirstAlert(key: string, a: real, state: string) returns (h: seq<Event>)
    requires 0.0 < a
    ensures Stage(h, key, a, a, state, 0, 1)
  {
    h := Surface([], key, a, a, state);
  }

  lemma {:induction false} QuietAlert(h: seq<Event>, key: string, a: real, now: real, state: string, changes: nat, count: nat)
    returns (h': seq<Event>)
    requires Stage(h, key, a, now, state, changes, count) && changes < FLAP_THRESHOLD
    requires 0.0 < a <= now && now + COOLDOWN <= a + FLAP_WINDOW
    ensures Stage(h', key, a, now + COOLDOWN, state, changes, count + 1)
  {
    h' := Surface(h, key, a, now + COOLDOWN, state);
  }

  lemma {:induction false} ToggledAlert(h: seq<Event>, key: string, a: real, now: real, state: string, changes: nat, count: nat,
        state': string) returns (h': seq<Event>)
    requires Stage(h, key, a, now, state, changes, count) && changes + 1 < FLAP_THRESHOLD && state' != state
    requires 0.0 < a <= now <= a + FLAP_WINDOW
    ensures Stage(h', key, a, now, state', changes + 1, count + 1)
  {
    h' := Surface(h, key, a, now, state');
  }

  /** Six surfaced alerts in one window, two of them inside one cooldown: the bound cannot be
      lowered, and the cooldown does not hold across a state change. */
  lemma {:induction false} RateBoundIsReached() returns (h: seq<Event>)
    ensures Lawful(h) && SurfacedCount(h, "host-1:cpu", 1.0, 901.0) == 6
  {
    var key := "host-1:cpu";
    h := FirstAlert(key, 1.0, "firing");
    h := QuietAlert(h, key, 1.0, 1.0, "firing", 0, 1);
    h := QuietAlert(h, key, 1.0, 301.0, "firing", 0, 2);
    h := QuietAlert(h, key, 1.0, 601.0, "firing", 0, 3);
    h := ToggledAlert(h, key, 1.0, 901.0, "firing", 0, 4, "resolved");
    h := ToggledAlert(h, key, 1.0, 901.0, "resolved", 1, 5, "firing");
  }

  /** The flapping filter as documented: more than three state changes. */
  ghost predicate SurfacesAsDocumented(r: seq<Event>, now: real, state: string, critical: bool) {
    critical || (!(Changes(Recent(Transitions(r) + [Transition(now, state)], now)) > FLAP_THRESHOLD) && !CoolingDown(r, now, state))
  }

  /** The documented and the coded rule differ on a call exactly when it is not critical, not cooling
      down, and makes three changes. */
  lemma {:induction false} FlappingRulesDiffer(r: seq<Event>, now: real, state: string, critical: bool)
    ensures SurfacesAsDocumented(r, now, state, critical) != Surfaces(r, now, state, critical) <==>
              !critical && !CoolingDown(r, now, state)
              && Changes(Recent(Transitions(r) + [Transition(now, state)], now)) == FLAP_THRESHOLD
  {}

  /** After two changes, an alert in the other state makes the third, and is held back. */
  lemma {:induction false} ThirdChangeHeld(h: seq<Event>, key: string, a: real, now: real,
        state: string, count: nat, state': string)
    requires Stage(h, key, a, now, state, 2, count) && state' != state && now <= a + FLAP_WINDOW
    ensures Run(h, key) == h && !Surfaces(h, now, state', false) && SurfacesAsDocumented(h, now, state', false)
  {
    RunOfOneKey(h, key);
    var t := Transition(now, state');
    ChangesAppend(Transitions(h), t);
    RecentKeepsAll(Transitions(h) + [t], now);
    assert Counts(h[|h| - 1], a) && LastFired(h) == Some(h[|h| - 1]);
  }

  /** Three alerts of alternating states are surfaced; the fourth is where the rules differ. */
  lemma {:induction false} ThirdChangeSuppressed() returns (h: seq<Event>)
    ensures Lawful(h) && Run(h, "host-1:cpu") == h && SurfacedCount(h, "host-1:cpu", 1.0, 901.0) == 3
    ensures !Surfaces(h, 1.0, "resolved", false) && SurfacesAsDocumented(h, 1.0, "resolved", false)
  {
    var key := "host-1:cpu";
    h := FirstAlert(key, 1.0, "firing");
    h := ToggledAlert(h, key, 1.0, 1.0, "firing", 0, 1, "resolved");
    h := ToggledAlert(h, key, 1.0, 1.0, "resolved", 1, 2, "firing");
    ThirdChangeHeld(h, key, 1.0, 1.0, "firing", 3, "resolved");
  }
}
