/** The flapping and cooldown filters of the alert manager and the rate they
    impose together on non-critical alerts. */
module AlertFatigue {
  import opened Common
  import opened Alerts

  const FLAP_WINDOW := 900.0
  const FLAP_THRESHOLD := 3
  const COOLDOWN := 300.0

  // ---- Calls and what the filters say of them ---------------------------------

  datatype Transition = Transition(time: real, state: string)
  datatype Event = Event(time: real, key: string, state: string, critical: bool, fired: bool)

  function KeyOf(alert: Alert): string { EntityOf(alert) + ":" + MetricOf(alert) }
  function StateOf(alert: Alert): string { GetOr(alert.state, "firing") }
  predicate IsCritical(alert: Alert) { GetOr(alert.severity, "warning") == "critical" }

  /** The calls made for one key, in order. */
  ghost function Run(h: seq<Event>, key: string): seq<Event> {
    if h == [] then []
    else Run(h[..|h| - 1], key) + (if h[|h| - 1].key == key then [h[|h| - 1]] else [])
  }

  ghost function Transitions(r: seq<Event>): (ts: seq<Transition>)
    ensures |ts| == |r|
    ensures forall i | 0 <= i < |r| :: ts[i] == Transition(r[i].time, r[i].state)
  {
    seq(|r|, i requires 0 <= i < |r| => Transition(r[i].time, r[i].state))
  }

  function Recent(ts: seq<Transition>, now: real): seq<Transition> {
    if ts == [] then []
    else Recent(ts[..|ts| - 1], now) + (if now - ts[|ts| - 1].time <= FLAP_WINDOW then [ts[|ts| - 1]] else [])
  }

  function Changes(ts: seq<Transition>): nat {
    if |ts| < 2 then 0
    else Changes(ts[..|ts| - 1]) + (if ts[|ts| - 1].state != ts[|ts| - 2].state then 1 else 0)
  }

  ghost function LastFired(r: seq<Event>): Option<Event> {
    if r == [] then None
    else if r[|r| - 1].fired then Some(r[|r| - 1])
    else LastFired(r[..|r| - 1])
  }

  ghost predicate Flapping(r: seq<Event>, now: real, state: string) {
    Changes(Recent(Transitions(r) + [Transition(now, state)], now)) >= FLAP_THRESHOLD
  }

  ghost predicate CoolingDown(r: seq<Event>, now: real, state: string) {
    LastFired(r).Some? && now - LastFired(r).value.time < COOLDOWN && LastFired(r).value.state == state
  }

  /** Whether an alert is surfaced, from the earlier calls for its key alone. */
  ghost predicate Surfaces(r: seq<Event>, now: real, state: string, critical: bool) {
    critical || (!Flapping(r, now, state) && !CoolingDown(r, now, state))
  }

  ghost predicate ClockRuns(h: seq<Event>) {
    && (forall i | 0 <= i < |h| :: 0.0 < h[i].time)
    && (forall i, j | 0 <= i < j < |h| :: h[i].time <= h[j].time)
  }

  /** A history the manager can have produced: a clock that never runs backwards, and every
      answer the one the filters give. */
  ghost predicate Lawful(h: seq<Event>) {
    ClockRuns(h) && forall i | 0 <= i < |h| :: DecidedAt(h, i)
  }

  ghost predicate DecidedAt(h: seq<Event>, i: nat)
    requires i < |h|
  {
    h[i].fired == Surfaces(Run(h[..i], h[i].key), h[i].time, h[i].state, h[i].critical)
  }

  // ---- The manager ---------------------------------------------------------------

  lemma {:induction false} RecentConcat(a: seq<Transition>, b: seq<Transition>, now: real)
    ensures Recent(a + b, now) == Recent(a, now) + Recent(b, now)
    decreases |b|
  {
    if b == [] {
      assert a + b == a;
    } else {
      assert (a + b)[..|a + b| - 1] == a + b[..|b| - 1];
      RecentConcat(a, b[..|b| - 1], now);
    }
  }

  lemma {:induction false} RecentTwice(ts: seq<Transition>, now: real, later: real)
    requires now <= later
    ensures Recent(Recent(ts, now), later) == Recent(ts, later)
  {
    if ts != [] {
      var init, last := ts[..|ts| - 1], ts[|ts| - 1];
      RecentTwice(init, now, later);
      RecentConcat(Recent(init, now), if now - last.time <= FLAP_WINDOW then [last] else [], later);
      assert [last][..0] == [];
      assert Recent([last], later) == if later - last.time <= FLAP_WINDOW then [last] else [];
    }
  }

  /** A stored transition log stands for the key's calls: from now on both filter alike. */
  ghost predicate TracksFlapping(h: seq<Event>, flapping: map<string, seq<Transition>>, key: string) {
    forall now | h == [] || h[|h| - 1].time <= now ::
      Recent(LogOf(flapping, key), now) == Recent(Transitions(Run(h, key)), now)
  }

  ghost predicate TracksCooldown(h: seq<Event>, cooldowns: map<string, Transition>, key: string) {
    match LastFired(Run(h, key))
    case None => key !in cooldowns
    case Some(e) => key in cooldowns && cooldowns[key] == Transition(e.time, e.state)
  }

  function LogOf(flapping: map<string, seq<Transition>>, key: string): seq<Transition> {
    if key in flapping then flapping[key] else []
  }

  lemma {:induction false} LastFiredGrows(r: seq<Event>, e: Event)
    ensures LastFired(r + [e]) == if e.fired then Some(e) else LastFired(r)
  {
    assert (r + [e])[..|r + [e]| - 1] == r;
  }

  lemma {:induction false} RunGrows(h: seq<Event>, e: Event, key: string)
    ensures Run(h + [e], key) == Run(h, key) + if e.key == key then [e] else []
  {
    assert (h + [e])[..|h + [e]| - 1] == h;
  }

  lemma {:induction false} LawfulGrows(h: seq<Event>, e: Event)
    requires Lawful(h) && 0.0 < e.time && (h != [] ==> h[|h| - 1].time <= e.time)
    requires e.fired == Surfaces(Run(h, e.key), e.time, e.state, e.critical)
    ensures Lawful(h + [e])
  {
    forall i | 0 <= i < |h| + 1 ensures DecidedAt(h + [e], i) {
      if i < |h| {
        assert DecidedAt(h, i) && (h + [e])[..i] == h[..i];
      } else {
        assert (h + [e])[..i] == h;
      }
    }
  }

  function Logged(flapping: map<string, seq<Transition>>, e: Event): map<string, seq<Transition>> {
    flapping[e.key := Recent(LogOf(flapping, e.key) + [Transition(e.time, e.state)], e.time)]
  }

  lemma {:induction false} FlappingGrows(h: seq<Event>, flapping: map<string, seq<Transition>>, e: Event, key: string)
    requires h != [] ==> h[|h| - 1].time <= e.time
    requires TracksFlapping(h, flapping, key)
    ensures TracksFlapping(h + [e], Logged(flapping, e), key)
  {
    forall later | e.time <= later
      ensures Recent(LogOf(Logged(flapping, e), key), later) == Recent(Transitions(Run(h + [e], key)), later)
    {
      assert Recent(LogOf(flapping, key), later) == Recent(Transitions(Run(h, key)), later);
      FlappingGrowsAt(h, flapping, e, key, later);
    }
  }

  lemma {:induction false} FlappingGrowsAt(h: seq<Event>, flapping: map<string, seq<Transition>>,
        e: Event, key: string, later: real)
    requires e.time <= later
    requires Recent(LogOf(flapping, key), later) == Recent(Transitions(Run(h, key)), later)
    ensures Recent(LogOf(Logged(flapping, e), key), later) == Recent(Transitions(Run(h + [e], key)), later)
  {
    RunGrows(h, e, key);
    if e.key == key {
      var run, t := Run(h, key), Transition(e.time, e.state);
      assert Transitions(run + [e]) == Transitions(run) + [t];
      RecentGrows(LogOf(flapping, key), Transitions(run), t, later);
    } else {
      assert Run(h, key) + [] == Run(h, key);
    }
  }

  lemma {:induction false} RecentGrows(log: seq<Transition>, all: seq<Transition>, t: Transition, later: real)
    requires t.time <= later && Recent(log, later) == Recent(all, later)
    ensures Recent(Recent(log + [t], t.time), later) == Recent(all + [t], later)
  {
    RecentTwice(log + [t], t.time, later);
    RecentConcat(log, [t], later);
    RecentConcat(all, [t], later);
  }

  lemma {:induction false} CooldownGrows(h: seq<Event>, cooldowns: map<string, Transition>, e: Event, key: string)
    requires TracksCooldown(h, cooldowns, key)
    ensures TracksCooldown(h + [e], Cooled(cooldowns, e), key)
  {
    RunGrows(h, e, key);
    if e.key == key {
      LastFiredGrows(Run(h, key), e);
    } else {
      assert Run(h, key) + [] == Run(h, key);
    }
  }

  lemma {:induction false} RunMembers(h: seq<Event>, key: string)
    ensures forall e | e in Run(h, key) :: e in h && e.key == key
  {
    if h != [] { RunMembers(h[..|h| - 1], key); }
  }

  lemma {:induction false} LastFiredMember(r: seq<Event>)
    ensures LastFired(r).Some? ==> LastFired(r).value in r && LastFired(r).value.fired
  {
    if r != [] { LastFiredMember(r[..|r| - 1]); }
  }

  /** State changes in the key's window, this call's transition included. */
  function ChangesBy(flapping: map<string, seq<Transition>>, key: string, now: real, state: string): nat {
    Changes(Recent(LogOf(flapping, key) + [Transition(now, state)], now))
  }

  /** The cooldown test on a stored record. */
  predicate Cools(cooldown: Transition, now: real, state: string) {
    cooldown.time > 0.0 && now - cooldown.time < COOLDOWN && cooldown.state == state
  }

  lemma {:induction false} FlappingMatches(h: seq<Event>, flapping: map<string, seq<Transition>>,
        key: string, now: real, state: string)
    requires TracksFlapping(h, flapping, key) && (h != [] ==> h[|h| - 1].time <= now)
    ensures Flapping(Run(h, key), now, state) <==> ChangesBy(flapping, key, now, state) >= FLAP_THRESHOLD
  {
    RecentConcat(LogOf(flapping, key), [Transition(now, state)], now);
    RecentConcat(Transitions(Run(h, key)), [Transition(now, state)], now);
  }

  function CooldownOf(cooldowns: map<string, Transition>, key: string): Transition {
    if key in cooldowns then cooldowns[key] else Transition(0.0, "")
  }

  lemma {:induction false} CooldownMatches(h: seq<Event>, cooldowns: map<string, Transition>,
        key: string, now: real, state: string)
    requires ClockRuns(h) && TracksCooldown(h, cooldowns, key)
    ensures CoolingDown(Run(h, key), now, state) <==> Cools(CooldownOf(cooldowns, key), now, state)
  {
    RunMembers(h, key);
    LastFiredMember(Run(h, key));
  }

  function Cooled(cooldowns: map<string, Transition>, e: Event): map<string, Transition> {
    if e.fired then cooldowns[e.key := Transition(e.time, e.state)] else cooldowns
  }

  ghost predicate BooksMatch(h: seq<Event>, flapping: map<string, seq<Transition>>, cooldowns: map<string, Transition>) {
    && Lawful(h)
    && (forall key :: TracksFlapping(h, flapping, key))
    && (forall key :: TracksCooldown(h, cooldowns, key))
  }

  /** The answer the stored state gives. */
  predicate Passes(flapping: map<string, seq<Transition>>, cooldowns: map<string, Transition>,
        key: string, now: real, state: string, critical: bool)
  {
    critical || (ChangesBy(flapping, key, now, state) < FLAP_THRESHOLD && !Cools(CooldownOf(cooldowns, key), now, state))
  }

  /** It is the answer the whole history gives. */
  lemma {:induction false} PassesExactly(h: seq<Event>, flapping: map<string, seq<Transition>>,
        cooldowns: map<string, Transition>, key: string, now: real, state: string, critical: bool)
    requires BooksMatch(h, flapping, cooldowns) && (h != [] ==> h[|h| - 1].time <= now)
    ensures Passes(flapping, cooldowns, key, now, state, critical) <==> Surfaces(Run(h, key), now, state, critical)
  {
    FlappingMatches(h, flapping, key, now, state);
    CooldownMatches(h, cooldowns, key, now, state);
  }

  /** Logging a call and its answer keeps the stored state in line with the history. */
  lemma {:induction false} BooksKept(h: seq<Event>, flapping: map<string, seq<Transition>>,
        cooldowns: map<string, Transition>, e: Event)
    requires BooksMatch(h, flapping, cooldowns) && 0.0 < e.time && (h != [] ==> h[|h| - 1].time <= e.time)
    requires e.fired == Surfaces(Run(h, e.key), e.time, e.state, e.critical)
    ensures BooksMatch(h + [e], Logged(flapping, e), Cooled(cooldowns, e))
  {
    LawfulGrows(h, e);
    forall k ensures TracksFlapping(h + [e], Logged(flapping, e), k) { FlappingGrows(h, flapping, e, k); }
    forall k ensures TracksCooldown(h + [e], Cooled(cooldowns, e), k) { CooldownGrows(h, cooldowns, e, k); }
  }

  // ---- Runs of alerts -------------------------------------------------------------

  /** One call of the manager. */
  datatype Call = Call(alert: Alert, now: real)

  function EventOf(c: Call, fired: bool): Event {
    Event(c.now, KeyOf(c.alert), StateOf(c.alert), IsCritical(c.alert), fired)
  }

  /** The calls with their answers. */
  ghost function HistoryOf(calls: seq<Call>): (h: seq<Event>)
    ensures |h| == |calls| && forall i | 0 <= i < |calls| :: h[i].time == calls[i].now
    decreases |calls|, 0
  {
    if calls == [] then []
    else
      var before, c := calls[..|calls| - 1], calls[|calls| - 1];
      HistoryOf(before) + [EventOf(c, Answer(before, c))]
  }

  /** What a call is answered after these others. */
  ghost predicate Answer(calls: seq<Call>, c: Call)
    decreases |calls|, 1
  {
    Surfaces(Run(HistoryOf(calls), KeyOf(c.alert)), c.now, StateOf(c.alert), IsCritical(c.alert))
  }

  lemma {:induction false} HistoryGrows(calls: seq<Call>, c: Call)
    ensures HistoryOf(calls + [c]) == HistoryOf(calls) + [EventOf(c, Answer(calls, c))]
  {
    assert (calls + [c])[..|calls|] == calls;
  }

  ghost predicate Clocked(calls: seq<Call>) {
    && (forall i | 0 <= i < |calls| :: 0.0 < calls[i].now)
    && (forall i, j | 0 <= i < j < |calls| :: calls[i].now <= calls[j].now)
  }

  lemma {:induction false} HistoryIsLawful(calls: seq<Call>)
    requires Clocked(calls)
    ensures Lawful(HistoryOf(calls))
  {
    if calls != [] {
      var before, c := calls[..|calls| - 1], calls[|calls| - 1];
      HistoryIsLawful(before);
      LawfulGrows(HistoryOf(before), EventOf(c, Answer(before, c)));
    }
  }

  /** The alert's state, as given or the default. */
  predicate Reports(alert: Alert, state: string) {
    alert.state == Some(state) || (alert.state == None && state == "firing")
  }

  predicate ShareRecord(a: Alert, b: Alert) { KeyOf(a) == KeyOf(b) }

  /** Two alerts share a record exactly when entity, colon and metric read the same; so for entities
      without a colon exactly when both parts are equal. */
  lemma {:induction false} ShareRecordExactly(a: Alert, entity: string, metric: string,
        b: Alert, entity': string, metric': string)
    requires IsAbout(a, entity, metric) && IsAbout(b, entity', metric')
    ensures ShareRecord(a, b) <==> entity + ":" + metric == entity' + ":" + metric'
    ensures ':' !in entity && ':' !in entity' ==> (ShareRecord(a, b) <==> entity == entity' && metric == metric')
  {
    if ':' !in entity && ':' !in entity' && ShareRecord(a, b) {
      FirstSplit(':', entity, metric, entity', metric');
    }
  }

  ghost function OnRecordOf(calls: seq<Call>, alert: Alert): seq<Call> {
    if calls == [] then []
    else
      var c := calls[|calls| - 1];
      OnRecordOf(calls[..|calls| - 1], alert) + if ShareRecord(c.alert, alert) then [c] else []
  }

  lemma {:induction false} RunOfRecord(calls: seq<Call>, alert: Alert)
    ensures Run(HistoryOf(OnRecordOf(calls, alert)), KeyOf(alert)) == Run(HistoryOf(calls), KeyOf(alert))
  {
    if calls != [] {
      var before, c, key := calls[..|calls| - 1], calls[|calls| - 1], KeyOf(alert);
      var kept := OnRecordOf(before, alert);
      RunOfRecord(before, alert);
      assert calls == before + [c];
      HistoryGrows(before, c);
      RunGrows(HistoryOf(before), EventOf(c, Answer(before, c)), key);
      if ShareRecord(c.alert, alert) {
        HistoryGrows(kept, c);
        RunGrows(HistoryOf(kept), EventOf(c, Answer(kept, c)), key);
      } else {
        assert OnRecordOf(calls, alert) == kept;
      }
    }
  }

  /** Main result: the calls on other records play no part in an answer. */
  lemma {:induction false} OthersDoNotMatter(calls: seq<Call>, c: Call)
    ensures Answer(calls, c) <==> Answer(OnRecordOf(calls, c.alert), c)
  {
    RunOfRecord(calls, c.alert);
  }

  lemma {:induction false} NoneOnRecord(calls: seq<Call>, alert: Alert)
    requires forall c | c in calls :: !ShareRecord(c.alert, alert)
    ensures OnRecordOf(calls, alert) == []
  {
    if calls != [] { NoneOnRecord(calls[..|calls| - 1], alert); }
  }

  /** No earlier call's entity, colon and metric read like these. */
  ghost predicate NewPair(calls: seq<Call>, entity: string, metric: string) {
    forall c, entity', metric' | c in calls && IsAbout(c.alert, entity', metric') ::
      entity' + ":" + metric' != entity + ":" + metric
  }

  lemma {:induction false} NewPairSharesNone(calls: seq<Call>, alert: Alert, entity: string, metric: string)
    requires IsAbout(alert, entity, metric) && NewPair(calls, entity, metric)
    ensures OnRecordOf(calls, alert) == []
  {
    forall c | c in calls ensures !ShareRecord(c.alert, alert) {
      var e, m := EntityOf(c.alert), MetricOf(c.alert);
      assert IsAbout(c.alert, e, m);
      ShareRecordExactly(c.alert, e, m, alert, entity, metric);
    }
    NoneOnRecord(calls, alert);
  }

  lemma {:induction false} FewChanges(r: seq<Event>, now: real, state: string)
    requires |r| < 2
    ensures !Flapping(r, now, state)
  {
    var ts := Transitions(r) + [Transition(now, state)];
    RecentShorter(ts, now);
    ChangesFew(Recent(ts, now));
  }

  lemma {:induction false} RecentShorter(ts: seq<Transition>, now: real)
    ensures |Recent(ts, now)| <= |ts|
  {
    if ts != [] { RecentShorter(ts[..|ts| - 1], now); }
  }

  lemma {:induction false} ChangesFew(ts: seq<Transition>)
    ensures Changes(ts) <= |ts|
  {
    if ts != [] { ChangesFew(ts[..|ts| - 1]); }
  }

  /** An alert whose entity and metric no earlier call had together is surfaced, whatever went before. */
  lemma {:induction false} FirstIsSurfaced(calls: seq<Call>, c: Call, entity: string, metric: string)
    requires IsAbout(c.alert, entity, metric) && ':' !in entity
    requires forall d, entity', metric' | d in calls && IsAbout(d.alert, entity', metric') ::
               ':' !in entity' && (entity' != entity || metric' != metric)
    ensures Answer(calls, c)
  {
    forall d, entity', metric' | d in calls && IsAbout(d.alert, entity', metric')
      ensures entity' + ":" + metric' != entity + ":" + metric
    {
      if entity' + ":" + metric' == entity + ":" + metric { FirstSplit(':', entity', metric', entity, metric); }
    }
    NewPairSharesNone(calls, c.alert, entity, metric);
    OthersDoNotMatter(calls, c);
    NothingHeldBack(c);
  }

  lemma {:induction false} NothingHeldBack(c: Call)
    ensures Answer([], c)
  {
    assert Run([], KeyOf(c.alert)) == [];
    FewChanges([], c.now, StateOf(c.alert));
  }

  lemma {:induction false} AfterOne(first: Call, second: Call)
    requires ShareRecord(first.alert, second.alert)
    ensures Answer([first], second) <==>
              IsCritical(second.alert) || StateOf(first.alert) != StateOf(second.alert) || second.now - first.now >= 300.0
  {
    var e := EventOf(first, true);
    NothingHeldBack(first);
    assert [first][..0] == [];
    assert HistoryOf([first]) == [] + [e];
    assert [] + [e] == [e];
    RunGrows([], e, e.key);
    LastFiredGrows([], e);
    FewChanges([e], second.now, StateOf(second.alert));
  }

  /** Main result: the second call on a record is surfaced exactly if it is critical, reports another
      state, or comes 300 seconds or more after the first; calls on other records may have come before. */
  lemma {:induction false} SecondSurfacesExactly(calls: seq<Call>, a: Alert, t: real, b: Alert, now: real,
        entity: string, metric: string, entity': string, metric': string, state: string, state': string)
    requires IsAbout(a, entity', metric') && IsAbout(b, entity, metric) && NewPair(calls, entity, metric)
    requires entity' + ":" + metric' == entity + ":" + metric
    requires Reports(a, state) && Reports(b, state')
    ensures Answer(calls + [Call(a, t)], Call(b, now)) <==>
              b.severity == Some("critical") || state' != state || now - t >= 300.0
  {
    var first, second := Call(a, t), Call(b, now);
    ShareRecordExactly(a, entity', metric', b, entity, metric);
    NewPairSharesNone(calls, b, entity, metric);
    assert (calls + [first])[..|calls|] == calls;
    assert OnRecordOf(calls + [first], b) == [first];
    OthersDoNotMatter(calls + [first], second);
    AfterOne(first, second);
  }

  /** Entities with a colon can share a record: then the second alert waits for the first one's cooldown. */
  lemma {:induction false} ColonsCollide(x: string, y: string, z: string, t: real, now: real)
    requires now - t < 300.0
    ensures var a := Alert(Some(x + ":" + y), Some(z), None, None);
            var b := Alert(Some(x), Some(y + ":" + z), None, None);
            Answer([], Call(a, t)) && !Answer([Call(a, t)], Call(b, now))
  {
    var a := Alert(Some(x + ":" + y), Some(z), None, None);
    var b := Alert(Some(x), Some(y + ":" + z), None, None);
    assert x + ":" + y + ":" + z == x + ":" + (y + ":" + z);
    assert [] + [Call(a, t)] == [Call(a, t)];
    NothingHeldBack(Call(a, t));
    SecondSurfacesExactly([], a, t, b, now, x, y + ":" + z, x + ":" + y, z, "firing", "firing");
    assert !Answer([Call(a, t)], Call(b, now));
  }

  /** The stored log holds what the last 900 seconds brought. */
  lemma {:induction false} RecentExactly(ts: seq<Transition>, now: real, t: Transition)
    ensures t in Recent(ts, now) <==> t in ts && now - t.time <= 900.0
  {
    if ts != [] { RecentExactly(ts[..|ts| - 1], now, t); }
  }

  class AlertFatigueManager {
    var flapping: map<string, seq<Transition>>
    var cooldowns: map<string, Transition>
    var suppressedCount: nat
    ghost var calls: seq<Call>

    ghost predicate Valid()
      reads this
    {
      BooksMatch(HistoryOf(calls), flapping, cooldowns)
    }

    constructor ()
      ensures Valid() && calls == [] && suppressedCount == 0
    {
      flapping, cooldowns, suppressedCount, calls := map[], map[], 0, [];
    }

    method ShouldAlert(alert: Alert, now: real) returns (fire: bool)
      requires Valid() && 0.0 < now
      requires calls != [] ==> calls[|calls| - 1].now <= now
      modifies this
      ensures Valid() && calls == old(calls) + [Call(alert, now)]
      ensures fire == Answer(old(calls), Call(alert, now))
      ensures suppressedCount == old(suppressedCount) + if fire then 0 else 1
    {
      var key, state, critical := KeyOf(alert), StateOf(alert), IsCritical(alert);
      fire := Filter(key, state, critical, now);
      ghost var h := HistoryOf(calls);
      PassesExactly(h, old(flapping), old(cooldowns), key, now, state, critical);
      BooksKept(h, old(flapping), old(cooldowns), Event(now, key, state, critical, fire));
      HistoryGrows(calls, Call(alert, now));
      calls := calls + [Call(alert, now)];
    }

    /** The two filters, on the stored state. */
    method Filter(key: string, state: string, critical: bool, now: real) returns (fire: bool)
      modifies this`flapping, this`cooldowns, this`suppressedCount
      ensures fire == Passes(old(flapping), old(cooldowns), key, now, state, critical)
      ensures flapping == Logged(old(flapping), Event(now, key, state, critical, fire))
      ensures cooldowns == Cooled(old(cooldowns), Event(now, key, state, critical, fire))
      ensures suppressedCount == old(suppressedCount) + if fire then 0 else 1
    {
      var stateChanges := LogTransition(key, state, now);
      if stateChanges >= FLAP_THRESHOLD && !critical {
        suppressedCount := suppressedCount + 1;
        return false;
      }
      var cooldown := CooldownOf(cooldowns, key);
      if !critical && cooldown.time > 0.0 && now - cooldown.time < COOLDOWN && cooldown.state == state {
        suppressedCount := suppressedCount + 1;
        return false;
      }
      cooldowns := cooldowns[key := Transition(now, state)];
      fire := true;
    }

    /** The transition goes into the key's log, which is trimmed and its state changes counted. */
    method LogTransition(key: string, state: string, now: real) returns (stateChanges: nat)
      modifies this`flapping
      ensures stateChanges == ChangesBy(old(flapping), key, now, state)
      ensures flapping == old(flapping)[key := Recent(LogOf(old(flapping), key) + [Transition(now, state)], now)]
    {
      var recent := KeepRecent(LogOf(flapping, key) + [Transition(now, state)], now);
      flapping := flapping[key := recent];
      stateChanges := CountChanges(recent);
    }
  }

  method KeepRecent(log: seq<Transition>, now: real) returns (kept: seq<Transition>)
    ensures kept == Recent(log, now)
  {
    kept := [];
    assert log[..0] == [];
    for i := 0 to |log|
      invariant kept == Recent(log[..i], now)
    {
      assert log[..i + 1][..i] == log[..i];
      if now - log[i].time <= FLAP_WINDOW {
        kept := kept + [log[i]];
      }
    }
    assert log[..|log|] == log;
  }

  method CountChanges(transitions: seq<Transition>) returns (stateChanges: nat)
    ensures stateChanges == Changes(transitions)
  {
    stateChanges := 0;
    if |transitions| == 0 { return; }
    for i := 1 to |transitions|
      invariant stateChanges == Changes(transitions[..i])
    {
      assert transitions[..i + 1][..i] == transitions[..i];
      if transitions[i].state != transitions[i - 1].state {
        stateChanges := stateChanges + 1;
      }
    }
    assert transitions[..|transitions|] == transitions;
  }
}
