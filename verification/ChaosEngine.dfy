/** The chaos experiment runner: coroutines over shared maps, interleaving at their awaits. */
module ChaosEngine {

  import opened Common

  const MAX_CONCURRENT_EXPERIMENTS := 3
  const MAX_BLAST_RADIUS_COMPONENTS := 10

  // ---- Experiments and targets ----------------------------------------------------------

  datatype Experiment = KillContainer | NetworkPartition | CpuStress | MemoryPressure | DiskFill

  /** `EXPERIMENTS.get(name)`. */
  function Lookup(name: string): Option<Experiment> {
    if name == "kill_container" then Some(KillContainer)
    else if name == "network_partition_simulate" then Some(NetworkPartition)
    else if name == "cpu_stress" then Some(CpuStress)
    else if name == "memory_pressure" then Some(MemoryPressure)
    else if name == "disk_fill_test" then Some(DiskFill)
    else None
  }

  function BlastRadius(experiment: Experiment, target: string): seq<string> {
    [target] +
    match experiment
    case KillContainer => [target + "-sidecar", target + "-healthcheck"]
    case NetworkPartition => [target + "-ingress", target + "-egress", target + "-dependent-services"]
    case CpuStress => [target + "-colocated-containers", target + "-monitoring-agent"]
    case MemoryPressure => [target + "-colocated-containers", target + "-monitoring-agent"]
    case DiskFill => [target + "-filesystem", target + "-log-pipeline"]
  }

  /** The blast-radius cap blocks nothing. */
  lemma {:induction false} CapNeverBlocks(experiment: Experiment, target: string)
    ensures |BlastRadius(experiment, target)| <= 4 < MAX_BLAST_RADIUS_COMPONENTS
  {}

  function LowerChar(c: char): char { if 'A' <= c <= 'Z' then (c as int + 32) as char else c }

  function Lower(s: string): (r: string)
    ensures |r| == |s| && forall i | 0 <= i < |s| :: r[i] == LowerChar(s[i])
  {
    if s == "" then ""
    else [LowerChar(s[0])] + Lower(s[1..])
  }

  predicate At(s: string, part: string, i: nat) { i + |part| <= |s| && s[i..i + |part|] == part }

  predicate Contains(s: string, part: string) {
    exists i | 0 <= i <= |s| :: At(s, part, i)
  }

  const PRODUCTION_TARGETS := {"prod", "production", "prod-gpu", "prod-db", "prod-api"}

  predicate Production(target: string) {
    exists p | p in PRODUCTION_TARGETS :: Contains(Lower(target), p)
  }

  /** The other four patterns add nothing to the first. */
  lemma {:induction false} ProdDecides(target: string)
    ensures Production(target) <==> Contains(Lower(target), "prod")
  {
    var s := Lower(target);
    assert "prod" in PRODUCTION_TARGETS;
    forall p | p in PRODUCTION_TARGETS && Contains(s, p) ensures Contains(s, "prod") {
      StartsWithProd(p);
      var i :| 0 <= i <= |s| && At(s, p, i);
      AtPrefix(s, p, "prod", i);
    }
  }

  /** The four letters in a row, each in either case. */
  predicate ProdAt(s: string, i: nat) {
    i + 4 <= |s| && s[i] in "pP" && s[i + 1] in "rR" && s[i + 2] in "oO" && s[i + 3] in "dD"
  }

  predicate SpellsProd(s: string) { exists i | 0 <= i <= |s| :: ProdAt(s, i) }

  lemma {:induction false} ProdSpelled(target: string)
    ensures Production(target) <==> SpellsProd(target)
  {
    ProdDecides(target);
    forall i: nat | i <= |target| { LettersAt(target, i); }
    if i :| 0 <= i <= |target| && ProdAt(target, i) { assert At(Lower(target), "prod", i); }
    if i :| 0 <= i <= |target| && At(Lower(target), "prod", i) { assert ProdAt(target, i); }
  }

  lemma {:induction false} LettersAt(s: string, i: nat)
    ensures At(Lower(s), "prod", i) <==> ProdAt(s, i)
  {
    if i + 4 <= |s| {
      var part := Lower(s)[i..i + 4];
      assert part == "prod" <==> part[0] == 'p' && part[1] == 'r' && part[2] == 'o' && part[3] == 'd';
    }
  }

  lemma {:induction false} AtPrefix(s: string, p: string, q: string, i: nat)
    requires At(s, p, i) && |q| <= |p| && p[..|q|] == q
    ensures At(s, q, i)
  {
    assert s[i..i + |q|] == s[i..i + |p|][..|q|];
  }

  lemma {:induction false} StartsWithProd(p: string)
    requires p in PRODUCTION_TARGETS
    ensures |p| >= 4 && p[..4] == "prod"
  {
    assert "production"[..4] == "prod" && "prod-gpu"[..4] == "prod";
    assert "prod-db"[..4] == "prod" && "prod-api"[..4] == "prod" && "prod"[..4] == "prod";
  }

  // ---- The engine's state -----------------------------------------------------------------

  type Id = nat

  datatype State = Pending | Running | Completed | Aborted | Failed

  datatype ChaosResult = ChaosResult(id: Option<Id>, experiment: string, target: string, success: bool,
                                     blastRadius: seq<string>, dryRun: bool, state: State)

  /** Its four fields, the next fresh id, and every id `abort` has returned True for. */
  datatype Engine = Engine(running: map<Id, ChaosResult>, hostLocks: map<string, Id>, history: seq<ChaosResult>,
                           aborted: set<Id>, next: Id, killed: set<Id>)

  const IDLE := Engine(map[], map[], [], {}, 0, {})

  /** Everything between two awaits is one event: a call runs to its first await, the simulation
      of an experiment wakes up, its task is cancelled instead, or someone aborts an id. */
  datatype Event =
    | Begin(name: string, target: string, dryRun: bool, allowProduction: bool)
    | WakeUp(id: Id)
    | CancelTask(id: Id)
    | Abort(id: Id)

  predicate Blocked(e: Engine, target: string, dryRun: bool, allowProduction: bool) {
    || (!dryRun && !allowProduction && Production(target))
    || |e.running| >= MAX_CONCURRENT_EXPERIMENTS
    || target in e.hostLocks
  }

  /** A call is refused for an unknown name, a live run on a target that spells "prod" without leave,
      three experiments already running, or one on this very target. */
  predicate Refuses(e: Engine, name: string, target: string, dryRun: bool, allowProduction: bool) {
    || name !in {"kill_container", "network_partition_simulate", "cpu_stress", "memory_pressure", "disk_fill_test"}
    || (!dryRun && !allowProduction && SpellsProd(target))
    || |e.running| >= 3
    || target in e.hostLocks
  }

  lemma {:induction false} RefusesExactly(e: Engine, name: string, target: string, dryRun: bool, allowProduction: bool)
    ensures Refuses(e, name, target, dryRun, allowProduction) <==>
              Lookup(name).None? || Blocked(e, target, dryRun, allowProduction)
  {
    ProdSpelled(target);
  }

  function Started(id: Id, name: string, experiment: Experiment, target: string): ChaosResult {
    ChaosResult(Some(id), name, target, false, BlastRadius(experiment, target), true, Running)
  }

  function Unregister(e: Engine, id: Id, result: ChaosResult): Engine {
    e.(running := e.running - {id}, hostLocks := e.hostLocks - {result.target}, history := e.history + [result])
  }

  function AbortRunning(e: Engine, id: Id): Engine
    requires id in e.running
  {
    e.(running := e.running[id := e.running[id].(state := Aborted)], aborted := e.aborted + {id}, killed := e.killed + {id})
  }

  /** A live call is never approved, so it leaves nothing behind. */
  function Next(e: Engine, event: Event): Engine {
    match event
    case Begin(name, target, dryRun, allow) =>
      if Lookup(name).None? then e
      else if Blocked(e, target, dryRun, allow) || !dryRun then e.(next := e.next + 1)
      else e.(running := e.running[e.next := Started(e.next, name, Lookup(name).value, target)],
              hostLocks := e.hostLocks[target := e.next], next := e.next + 1)
    case WakeUp(id) =>
      if id !in e.running then e
      else
        var result := e.running[id];
        Unregister(e, id, if id in e.aborted then result.(state := Aborted) else result.(state := Completed, success := true))
    case CancelTask(id) => if id !in e.running then e else Unregister(e, id, e.running[id])
    case Abort(id) =>
      if id !in e.running then e.(aborted := e.aborted + {id}) else AbortRunning(e, id)
  }

  function After(events: seq<Event>): Engine {
    if events == [] then IDLE else Next(After(events[..|events| - 1]), events[|events| - 1])
  }

  // ---- What every run keeps ------------------------------------------------------------------

  predicate RunningOk(e: Engine, id: Id)
    requires id in e.running
  {
    var r := e.running[id];
    && id < e.next && r.id == Some(id) && r.dryRun && !r.success
    && r.target in e.hostLocks && e.hostLocks[r.target] == id
    && r.state == (if id in e.killed then Aborted else Running)
  }

  predicate RecordOk(e: Engine, r: ChaosResult) {
    && r.id.Some? && r.id.value < e.next && r.id.value !in e.running && r.dryRun
    && (r.success <==> r.state == Completed)
    && (r.id.value in e.killed ==> r.state == Aborted)
  }

  ghost predicate EngineOk(e: Engine) {
    && |e.running| <= MAX_CONCURRENT_EXPERIMENTS
    && (forall id | id in e.running :: RunningOk(e, id))
    && (forall t | t in e.hostLocks :: e.hostLocks[t] in e.running && e.running[e.hostLocks[t]].target == t)
    && (forall r | r in e.history :: RecordOk(e, r))
    && (forall i, j | 0 <= i < j < |e.history| :: e.history[i].id != e.history[j].id)
    && e.killed <= e.aborted
    && (forall id | id in e.killed :: id < e.next)
  }

  lemma {:induction false} BeginKeeps(e: Engine, name: string, target: string)
    requires EngineOk(e) && Lookup(name).Some? && !Blocked(e, target, true, false)
    ensures EngineOk(Next(e, Begin(name, target, true, false)))
  {
    var e' := Next(e, Begin(name, target, true, false));
    assert e.next !in e.running && e.next !in e.killed;
    forall id | id in e'.running ensures RunningOk(e', id) { assert id in e.running ==> RunningOk(e, id); }
    forall r | r in e'.history ensures RecordOk(e', r) { assert RecordOk(e, r); }
  }

  lemma {:induction false} UnregisterKeeps(e: Engine, id: Id, result: ChaosResult)
    requires EngineOk(e) && id in e.running
    requires result.id == Some(id) && result.target == e.running[id].target && result.dryRun
    requires (result.success <==> result.state == Completed) && (id in e.killed ==> result.state == Aborted)
    ensures EngineOk(Unregister(e, id, result))
  {
    var e' := Unregister(e, id, result);
    assert e'.running.Keys == e.running.Keys - {id};
    assert |e'.running| == |e'.running.Keys|;
    forall x | x in e'.running ensures RunningOk(e', x) { assert RunningOk(e, x) && RunningOk(e, id); }
    forall r | r in e'.history ensures RecordOk(e', r) { assert r in e.history ==> RecordOk(e, r); }
    forall i, j | 0 <= i < j < |e'.history| ensures e'.history[i].id != e'.history[j].id {
      assert e'.history[i] in e.history && RecordOk(e, e.history[i]);
    }
  }

  lemma {:induction false} AbortKeepsRunning(e: Engine, id: Id)
    requires EngineOk(e)
    ensures var e' := Next(e, Abort(id));
            && e'.running.Keys == e.running.Keys && (forall x | x in e'.running :: RunningOk(e', x))
            && (forall x | x in e'.running :: e'.running[x].target == e.running[x].target)
  {
    var e' := Next(e, Abort(id));
    forall x | x in e'.running ensures RunningOk(e', x) { assert RunningOk(e, x); }
  }

  lemma {:induction false} AbortKeepsHistory(e: Engine, id: Id)
    requires EngineOk(e)
    ensures var e' := Next(e, Abort(id)); forall r | r in e'.history :: RecordOk(e', r)
  {
    var e' := Next(e, Abort(id));
    forall r | r in e'.history ensures RecordOk(e', r) { assert RecordOk(e, r); }
  }

  lemma {:induction false} AbortKeeps(e: Engine, id: Id)
    requires EngineOk(e)
    ensures EngineOk(Next(e, Abort(id)))
  {
    AbortKeepsRunning(e, id);
    AbortKeepsHistory(e, id);
    SameSize(e.running, Next(e, Abort(id)).running);
    assert id in e.running ==> RunningOk(e, id);
  }

  lemma {:induction false} SameSize(m: map<Id, ChaosResult>, m': map<Id, ChaosResult>)
    requires m.Keys == m'.Keys
    ensures |m| == |m'|
  {
    assert |m| == |m.Keys| && |m'| == |m'.Keys|;
  }

  lemma {:induction false} NextKeeps(e: Engine, event: Event)
    requires EngineOk(e)
    ensures EngineOk(Next(e, event))
  {
    match event
    case Begin(name, target, dryRun, allow) =>
      if Lookup(name).Some? {
        if !Blocked(e, target, dryRun, allow) && dryRun { BeginKeeps(e, name, target); }
        else { AgeKeeps(e); }
      }
    case WakeUp(id) => WakeUpKeeps(e, id);
    case CancelTask(id) =>
      if id in e.running {
        assert RunningOk(e, id);
        UnregisterKeeps(e, id, e.running[id]);
      }
    case Abort(id) => AbortKeeps(e, id);
  }

  lemma {:induction false} WakeUpKeeps(e: Engine, id: Id)
    requires EngineOk(e)
    ensures EngineOk(Next(e, WakeUp(id)))
  {
    if id in e.running {
      assert RunningOk(e, id);
      var result := e.running[id];
      UnregisterKeeps(e, id, if id in e.aborted then result.(state := Aborted) else result.(state := Completed, success := true));
    }
  }

  lemma {:induction false} AgeKeeps(e: Engine)
    requires EngineOk(e)
    ensures EngineOk(e.(next := e.next + 1))
  {
    var e' := e.(next := e.next + 1);
    forall id | id in e'.running ensures RunningOk(e', id) { assert RunningOk(e, id); }
    forall r | r in e'.history ensures RecordOk(e', r) { assert RecordOk(e, r); }
  }

  lemma {:induction false} AlwaysOk(events: seq<Event>)
    ensures EngineOk(After(events))
  {
    if events != [] {
      AlwaysOk(events[..|events| - 1]);
      NextKeeps(After(events[..|events| - 1]), events[|events| - 1]);
    }
  }

  // ---- Single steps of a run ----------------------------------------------------------------

  /** A call puts an experiment on the running list exactly when it is a dry run of a known
      experiment on a free host with room for one more; a live call never does. */
  lemma {:induction false} RegisteredExactly(e: Engine, name: string, target: string, dryRun: bool, allow: bool)
    requires EngineOk(e)
    ensures var e' := Next(e, Begin(name, target, dryRun, allow));
            && (e'.running != e.running <==> dryRun && Lookup(name).Some? && |e.running| < 3 && target !in e.hostLocks)
            && (e'.running != e.running ==> e.next in e'.running && e'.running == e.running[e.next := e'.running[e.next]])
            && (e'.running == e.running ==> e'.hostLocks == e.hostLocks && e'.history == e.history)
  {
    assert e.next in e.running ==> RunningOk(e, e.next);
  }

  /** A simulation that wakes up completes exactly when its id was never aborted. */
  lemma {:induction false} CompletesExactly(events: seq<Event>, id: Id)
    requires id in After(events).running
    ensures var e, e' := After(events), Next(After(events), WakeUp(id));
            var record := e'.history[|e.history|];
            && record.id == Some(id) && (record.success <==> id !in e.aborted)
            && record.state == (if id in e.aborted then Aborted else Completed)
  {
    AlwaysOk(events);
    assert RunningOk(After(events), id);
  }

  // ---- Main results ------------------------------------------------------------------------

  /** At most three experiments run at once, all of them dry runs, and host locks and running
      experiments match one to one: a host is never the target of two. */
  lemma {:induction false} LocksMatchRunning(events: seq<Event>)
    ensures var e := After(events);
            && |e.running| <= 3
            && (forall id | id in e.running :: e.running[id].dryRun && e.running[id].target in e.hostLocks
                                               && e.hostLocks[e.running[id].target] == id)
            && (forall t | t in e.hostLocks :: e.hostLocks[t] in e.running && e.running[e.hostLocks[t]].target == t)
            && (forall id, id' | id in e.running && id' in e.running && e.running[id].target == e.running[id'].target ::
                  id == id')
  {
    AlwaysOk(events);
    var e := After(events);
    forall id | id in e.running
      ensures e.running[id].dryRun && e.running[id].target in e.hostLocks && e.hostLocks[e.running[id].target] == id
    {
      assert RunningOk(e, id);
    }
  }

  predicate Recorded(e: Engine, id: Id) {
    exists i | 0 <= i < |e.history| :: e.history[i].id == Some(id)
  }

  lemma {:induction false} StaysSomewhere(e: Engine, event: Event, id: Id)
    requires EngineOk(e) && (id in e.running || Recorded(e, id))
    ensures id in Next(e, event).running || Recorded(Next(e, event), id)
    ensures e.history <= Next(e, event).history
  {
    var e' := Next(e, event);
    if Recorded(e, id) {
      var i :| 0 <= i < |e.history| && e.history[i].id == Some(id);
      assert e'.history[i].id == Some(id);
    } else if id !in e'.running {
      assert RunningOk(e, id);
      assert e'.history[|e.history|].id == Some(id);
    }
  }

  /** An experiment once registered is from then on in exactly one of running and history, and
      recorded at most once. */
  lemma {:induction false} InExactlyOne(events: seq<Event>, more: seq<Event>, id: Id)
    requires id in After(events).running
    ensures id in After(events + more).running <==> !Recorded(After(events + more), id)
    ensures var h := After(events + more).history;
            forall i, j | 0 <= i < j < |h| :: h[i].id != h[j].id
    decreases |more|
  {
    AlwaysOk(events + more);
    var e := After(events + more);
    forall i | 0 <= i < |e.history| ensures e.history[i].id == Some(id) ==> id !in e.running {
      assert RecordOk(e, e.history[i]);
    }
    Somewhere(events, more, id);
  }

  lemma {:induction false} Somewhere(events: seq<Event>, more: seq<Event>, id: Id)
    requires id in After(events).running
    ensures id in After(events + more).running || Recorded(After(events + more), id)
    decreases |more|
  {
    if more == [] {
      assert events + more == events;
    } else {
      var rest := more[..|more| - 1];
      AfterMore(events, more);
      Somewhere(events, rest, id);
      AlwaysOk(events + rest);
      StaysSomewhere(After(events + rest), more[|more| - 1], id);
    }
  }

  lemma {:induction false} AfterMore(events: seq<Event>, more: seq<Event>)
    requires more != []
    ensures After(events + more) == Next(After(events + more[..|more| - 1]), more[|more| - 1])
  {
    assert (events + more)[..|events + more| - 1] == events + more[..|more| - 1];
  }

  lemma {:induction false} KilledForGood(events: seq<Event>, more: seq<Event>)
    ensures After(events).killed <= After(events + more).killed
    decreases |more|
  {
    if more == [] {
      assert events + more == events;
    } else {
      AfterMore(events, more);
      KilledForGood(events, more[..|more| - 1]);
    }
  }

  /** Main result: an experiment for which `abort` returned True never ends completed or successful:
      whatever follows, it stays ABORTED, running or recorded. */
  lemma {:induction false} AbortedNeverCompletes(events: seq<Event>, more: seq<Event>, id: Id)
    requires id in After(events).running
    ensures var e := After(events + [Abort(id)] + more);
            && (id in e.running ==> e.running[id].state == Aborted && !e.running[id].success)
            && (forall i | 0 <= i < |e.history| && e.history[i].id == Some(id) ::
                  e.history[i].state == Aborted && !e.history[i].success)
  {
    var killing := events + [Abort(id)];
    AfterMore(events, [Abort(id)]);
    assert events + [] == events && [Abort(id)][..0] == [];
    KilledForGood(killing, more);
    AlwaysOk(killing + more);
    var e := After(killing + more);
    if id in e.running { assert RunningOk(e, id); }
    forall i | 0 <= i < |e.history| && e.history[i].id == Some(id)
      ensures e.history[i].state == Aborted && !e.history[i].success
    {
      assert RecordOk(e, e.history[i]);
    }
  }

  // ---- The engine object --------------------------------------------------------------------

  /** What a call has to show at its first await: a finished result, or an experiment under way. */
  datatype Outcome = Refused(result: ChaosResult) | AwaitingApproval(result: ChaosResult) | Simulating(id: Id)

  class ChaosEngine {
    var running: map<Id, ChaosResult>
    var hostLocks: map<string, Id>
    var history: seq<ChaosResult>
    var aborted: set<Id>
    var next: Id
    ghost var killed: set<Id>

    ghost function Contents(): Engine reads this { Engine(running, hostLocks, history, aborted, next, killed) }

    ghost predicate Valid() reads this { EngineOk(Contents()) }

    constructor ()
      ensures Valid() && Contents() == IDLE
    {
      running, hostLocks, history, aborted, next, killed := map[], map[], [], {}, 0, {};
    }

    method RunExperiment(name: string, target: string, dryRun: bool, allowProduction: bool) returns (outcome: Outcome)
      requires Valid()
      modifies this
      ensures Valid() && Contents() == Next(old(Contents()), Begin(name, target, dryRun, allowProduction))
      ensures outcome.Simulating? ==> dryRun && outcome.id == old(next) && outcome.id in running && outcome.id !in old(running)
      ensures !outcome.Simulating? ==> running == old(running) && !outcome.result.success
      ensures outcome.AwaitingApproval? ==> !dryRun && outcome.result.state == State.Pending
      ensures outcome.Refused? ==> outcome.result.state == Failed
      ensures outcome.Refused? <==> Refuses(old(Contents()), name, target, dryRun, allowProduction)
    {
      RefusesExactly(Contents(), name, target, dryRun, allowProduction);
      var experiment := Lookup(name);
      if experiment.None? {
        return Refused(ChaosResult(None, name, target, false, [], dryRun, Failed));
      }
      if PreFlightBlocks(target, dryRun, allowProduction) {
        var id := TakeId();
        return Refused(ChaosResult(Some(id), name, target, false, [], dryRun, Failed));
      }
      var blast := BlastRadius(experiment.value, target);
      CapNeverBlocks(experiment.value, target);
      if |blast| > MAX_BLAST_RADIUS_COMPONENTS {
        assert false;
      }
      if !dryRun {
        var id := TakeId();
        return AwaitingApproval(ChaosResult(Some(id), name, target, false, blast, false, State.Pending));
      }
      outcome := Simulating(next);
      Register(ChaosResult(Some(next), name, target, false, blast, true, Running));
    }

    method TakeId() returns (id: Id)
      requires Valid()
      modifies this`next
      ensures Valid() && id == old(next) && Contents() == old(Contents()).(next := id + 1)
    {
      AgeKeeps(Contents());
      id := next;
      next := next + 1;
    }

    /** The experiment is under way, under the next id, and its host is locked. */
    method Register(result: ChaosResult)
      requires Valid() && Lookup(result.experiment).Some? && !Blocked(Contents(), result.target, true, false)
      requires result == Started(next, result.experiment, Lookup(result.experiment).value, result.target)
      modifies this
      ensures Valid() && Contents() == Next(old(Contents()), Begin(result.experiment, result.target, true, false))
      ensures old(next) in running && old(next) !in old(running)
    {
      ghost var after := Next(Contents(), Begin(result.experiment, result.target, true, false));
      BeginKeeps(Contents(), result.experiment, result.target);
      assert next in running ==> RunningOk(Contents(), next);
      running := running[next := result];
      hostLocks := hostLocks[result.target := next];
      next := next + 1;
      assert Contents() == after;
    }

    predicate PreFlightBlocks(target: string, dryRun: bool, allowProduction: bool)
      reads this
    {
      if !dryRun && !allowProduction && Production(target) then true
      else if |running| >= MAX_CONCURRENT_EXPERIMENTS then true
      else target in hostLocks
    }

    /** The `finally` of a call: its entry, its host's lock and its record. */
    method Settle(id: Id, result: ChaosResult)
      requires Valid() && id in running && result.id == Some(id) && result.target == running[id].target && result.dryRun
      requires (result.success <==> result.state == Completed) && (id in killed ==> result.state == Aborted)
      modifies this`running, this`hostLocks, this`history
      ensures Valid() && Contents() == Unregister(old(Contents()), id, result)
    {
      ghost var after := Unregister(Contents(), id, result);
      UnregisterKeeps(Contents(), id, result);
      running, hostLocks := running - {id}, hostLocks - {result.target};
      history := history + [result];
      assert Contents() == after;
    }

    /** The call after its simulation's sleep. */
    method FinishSimulation(id: Id) returns (result: ChaosResult)
      requires Valid() && id in running
      modifies this
      ensures Valid() && Contents() == Next(old(Contents()), WakeUp(id))
      ensures history == old(history) + [result] && (result.success <==> id !in aborted)
    {
      assert RunningOk(Contents(), id);
      result := running[id];
      if id in aborted {
        result := result.(state := Aborted);
      } else {
        result := result.(success := true, state := Completed);
      }
      Settle(id, result);
    }

    /** The call when its task is cancelled during the sleep: the `finally` records it as it stands. */
    method CancelSimulation(id: Id)
      requires Valid() && id in running
      modifies this
      ensures Valid() && Contents() == Next(old(Contents()), CancelTask(id))
    {
      assert RunningOk(Contents(), id);
      Settle(id, running[id]);
    }

    method AbortExperiment(id: Id) returns (found: bool)
      requires Valid()
      modifies this
      ensures Valid() && Contents() == Next(old(Contents()), Abort(id))
      ensures found <==> id in old(running)
    {
      ghost var before := Contents();
      NextKeeps(before, Abort(id));
      aborted := aborted + {id};
      found := id in running;
      if found {
        running := running[id := running[id].(state := Aborted)];
        killed := killed + {id};
        assert Contents() == AbortRunning(before, id);
      } else {
        assert Contents() == before.(aborted := before.aborted + {id});
      }
    }
  }
}
