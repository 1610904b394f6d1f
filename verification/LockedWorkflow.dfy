/** Remediation plans running side by side over the execution lock: routing, lock
    acquisition, playbooks and release, one awaited call at a time. */
module LockedWorkflow {
  import opened Common
  import opened ExecutionLock

  // ---- Plans and their routing -----------------------------------------------------

  datatype Action = Action(entity: string, kind: string, duration: int)
  datatype Plan = Plan(status: string, risk: RiskClass, actions: seq<Action>)
  datatype Route = Blocked | PolicyViolation | Review | NotAutomatic | AutoExecute

  function RouteOf(plan: Plan, compliant: bool): Route {
    if plan.status == "blocked" then Blocked
    else if !compliant then PolicyViolation
    else if plan.risk == RC2 || plan.risk == RC3 then Review
    else if plan.risk != RC1 || plan.status != "auto_approved" then NotAutomatic
    else AutoExecute
  }

  function Window(action: Action): int {
    if action.duration * 2 < 300 then 300 else action.duration * 2
  }

  function KeyOf(action: Action): string { LockKey(action.entity, action.kind) }

  // ---- One call of execute_plan between two awaits ------------------------------------

  datatype Phase = Acquiring | Running(playbook: nat) | Releasing(done: nat, ran: bool) | Returned(ran: bool)

  /** `tokens[i]` is the lock of `plan.actions[i]`, granted at time `since[i]`. */
  datatype Call = Call(plan: Plan, compliant: bool, phase: Phase, tokens: seq<Token>, since: seq<int>)

  datatype System = System(world: World, calls: map<nat, Call>)

  /** A call is started, resumes from its await, or a stranger uses the lock or time passes. */
  datatype Event =
    | Begin(id: nat, plan: Plan, compliant: bool)
    | Resume(id: nat, success: bool)
    | Outside(step: Step)

  function AfterAcquiring(plan: Plan, acquired: nat): Phase {
    if acquired < |plan.actions| then Acquiring else AfterPlaybook(plan, 0, acquired)
  }

  function AfterPlaybook(plan: Plan, next: nat, acquired: nat): Phase {
    if next < |plan.actions| then Running(next) else Unwinding(0, acquired, true)
  }

  function Unwinding(done: nat, acquired: nat, ran: bool): Phase {
    if done < acquired then Releasing(done, ran) else Returned(ran)
  }

  /** The command a lock is asked for with; a failing Redis refuses it. */
  function Asking(action: Action, up: bool): Step {
    if up then Acquire(action.entity, action.kind, Window(action)) else Refused
  }

  /** `success`: Redis answered, while acquiring; the playbook succeeded, while running. */
  function ResumeCall(w: World, c: Call, success: bool): (World, Call) {
    var n := |c.tokens|;
    match c.phase
    case Acquiring =>
      if n >= |c.plan.actions| then (w, c)
      else
        var w' := Next(w, Asking(c.plan.actions[n], success));
        if w.next in w'.claims then
          (w', c.(tokens := c.tokens + [w.next], since := c.since + [w.now], phase := AfterAcquiring(c.plan, n + 1)))
        else (w', c.(phase := Unwinding(0, n, false)))
    case Running(i) =>
      (w, c.(phase := if success then AfterPlaybook(c.plan, i + 1, n) else Unwinding(0, n, false)))
    case Releasing(done, ran) =>
      if done >= n || done >= |c.plan.actions| then (w, c)
      else
        var action := c.plan.actions[done];
        (Next(w, Release(action.entity, action.kind, c.tokens[done])), c.(phase := Unwinding(done + 1, n, ran)))
    case Returned(_) => (w, c)
  }

  predicate Strange(s: System, step: Step) {
    TokenOf(step).Some? ==> forall id | id in s.calls :: TokenOf(step).value !in s.calls[id].tokens
  }

  function Fresh(plan: Plan, compliant: bool): Call {
    Call(plan, compliant, if RouteOf(plan, compliant) == AutoExecute then AfterAcquiring(plan, 0) else Returned(false), [], [])
  }

  function NextSystem(s: System, e: Event): System {
    match e
    case Begin(id, plan, compliant) =>
      if id in s.calls then s else s.(calls := s.calls[id := Fresh(plan, compliant)])
    case Resume(id, success) =>
      if id !in s.calls then s
      else
        var (w, c) := ResumeCall(s.world, s.calls[id], success);
        System(w, s.calls[id := c])
    case Outside(step) =>
      if Strange(s, step) then s.(world := Next(s.world, step)) else s
  }

  function AfterEvents(events: seq<Event>): System {
    if events == [] then System(START, map[])
    else NextSystem(AfterEvents(events[..|events| - 1]), events[|events| - 1])
  }

  // ---- What every interleaving keeps ------------------------------------------------------

  predicate RunsPlaybooks(c: Call) { c.phase.Running? }

  /** Locks of `c` from this position on have not been handed back. */
  function Kept(c: Call): nat {
    match c.phase case Releasing(done, _) => done case Returned(_) => |c.tokens| case _ => 0
  }

  ghost predicate CallOk(w: World, c: Call) {
    && |c.tokens| == |c.since| <= |c.plan.actions|
    && (RouteOf(c.plan, c.compliant) != AutoExecute ==> c.phase.Returned? && c.tokens == [])
    && (c.phase.Running? ==> |c.tokens| == |c.plan.actions|)
    && (c.phase.Acquiring? ==> |c.tokens| < |c.plan.actions|)
    && (c.phase.Releasing? ==> c.phase.done < |c.tokens|)
    && (forall i | 0 <= i < |c.tokens| :: LockOk(w, c, i))
    && (forall i, j | 0 <= i < j < |c.tokens| :: c.tokens[i] != c.tokens[j])
  }

  /** The i-th lock: on its action's key, running out one window after it was granted, and
      gone once the call has released it. */
  ghost predicate LockOk(w: World, c: Call, i: nat)
    requires i < |c.tokens| == |c.since| <= |c.plan.actions|
  {
    var t := c.tokens[i];
    && t < w.next
    && (t in w.claims ==> w.claims[t] == Claim(KeyOf(c.plan.actions[i]), c.since[i] + Window(c.plan.actions[i])))
    && (i >= Kept(c) ==> t in w.claims)
    && (i < Kept(c) ==> !Holds(w, t))
  }

  ghost predicate Apart(c: Call, d: Call) {
    forall t | t in c.tokens :: t !in d.tokens
  }

  ghost predicate SystemOk(s: System) {
    && Agrees(s.world)
    && (forall id | id in s.calls :: CallOk(s.world, s.calls[id]))
    && (forall id, id' | id in s.calls && id' in s.calls && id != id' :: Apart(s.calls[id], s.calls[id']))
  }

  /** A step that does not use the call's tokens leaves its locks as they are, bar expiry. */
  lemma {:induction false} CallUndisturbed(w: World, step: Step, c: Call)
    requires Agrees(w) && CallOk(w, c)
    requires TokenOf(step).Some? ==> TokenOf(step).value !in c.tokens
    ensures CallOk(Next(w, step), c)
  {
    NextAgrees(w, step);
    forall i | 0 <= i < |c.tokens| ensures LockOk(Next(w, step), c, i) {
      assert LockOk(w, c, i) && c.tokens[i] in c.tokens;
      ClaimUndisturbed(w, step, c.tokens[i]);
    }
  }

  lemma {:induction false} ClaimUndisturbed(w: World, step: Step, t: Token)
    requires Agrees(w) && t < w.next && TokenOf(step) != Some(t)
    ensures t in Next(w, step).claims <==> t in w.claims
    ensures t in w.claims ==> Next(w, step).claims[t] == w.claims[t]
    ensures w.next <= Next(w, step).next && w.now <= Next(w, step).now
  {}

  lemma {:induction false} AcquireKeepsOwn(w: World, c: Call, up: bool)
    requires Agrees(w) && CallOk(w, c) && c.phase.Acquiring?
    ensures var (w', c') := ResumeCall(w, c, up); CallOk(w', c') && Agrees(w')
  {
    var n := |c.tokens|;
    var step := Asking(c.plan.actions[n], up);
    var w' := Next(w, step);
    NextAgrees(w, step);
    CallUndisturbed(w, step, c);
    if w.next in w'.claims {
      GrantKeepsOwn(w, w', c);
    } else {
      var c' := ResumeCall(w, c, up).1;
      forall i | 0 <= i < n ensures LockOk(w', c', i) { assert LockOk(w', c, i); }
    }
  }

  lemma {:induction false} GrantKeepsOwn(w: World, w': World, c: Call)
    requires CallOk(w, c) && CallOk(w', c) && c.phase.Acquiring? && w'.next == w.next + 1
    requires var n := |c.tokens|;
             w.next in w'.claims && w'.claims[w.next] == Claim(KeyOf(c.plan.actions[n]), w.now + Window(c.plan.actions[n]))
    ensures var n := |c.tokens|;
            CallOk(w', c.(tokens := c.tokens + [w.next], since := c.since + [w.now], phase := AfterAcquiring(c.plan, n + 1)))
  {
    var n := |c.tokens|;
    var c' := c.(tokens := c.tokens + [w.next], since := c.since + [w.now], phase := AfterAcquiring(c.plan, n + 1));
    forall i | 0 <= i <= n ensures LockOk(w', c', i) {
      if i < n { assert LockOk(w', c, i); }
    }
    forall i | 0 <= i < n ensures c'.tokens[i] != w.next {
      assert LockOk(w, c, i);
    }
  }

  lemma {:induction false} ReleaseKeepsOwn(w: World, c: Call)
    requires Agrees(w) && CallOk(w, c) && c.phase.Releasing?
    ensures var (w', c') := ResumeCall(w, c, true); CallOk(w', c') && Agrees(w')
  {
    var (w', c') := ResumeCall(w, c, true);
    var d := c.phase.done;
    var action, t := c.plan.actions[d], c.tokens[d];
    var step := Release(action.entity, action.kind, t);
    NextAgrees(w, step);
    assert LockOk(w, c, d) && w.claims[t].key == KeyOf(action);
    assert !Holds(w', t);
    forall i | 0 <= i < |c'.tokens| ensures LockOk(w', c', i) {
      assert LockOk(w, c, i);
      if i != d {
        ClaimUndisturbed(w, step, c.tokens[i]);
      }
    }
  }

  /** A resumed call keeps its own books. */
  lemma {:induction false} ResumeKeepsOwn(w: World, c: Call, success: bool)
    requires Agrees(w) && CallOk(w, c)
    ensures var (w', c') := ResumeCall(w, c, success); CallOk(w', c') && Agrees(w')
  {
    match c.phase
    case Acquiring => AcquireKeepsOwn(w, c, success);
    case Releasing(_, _) => ReleaseKeepsOwn(w, c);
    case Running(_) =>
      var c' := ResumeCall(w, c, success).1;
      forall i | 0 <= i < |c'.tokens| ensures LockOk(w, c', i) { assert LockOk(w, c, i); }
      if c'.phase.Returned? { assert c'.tokens == []; }
    case Returned(_) =>
  }

  /** The lock command, if any, a resumed call issues. */
  function CommandOf(c: Call, success: bool): Option<Step> {
    var n := |c.tokens|;
    match c.phase
    case Acquiring =>
      if n >= |c.plan.actions| then None
      else Some(Asking(c.plan.actions[n], success))
    case Releasing(done, _) =>
      if done >= n || done >= |c.plan.actions| then None
      else Some(Release(c.plan.actions[done].entity, c.plan.actions[done].kind, c.tokens[done]))
    case _ => None
  }

  lemma {:induction false} ResumeCommand(w: World, c: Call, success: bool)
    ensures ResumeCall(w, c, success).0 == match CommandOf(c, success) case None => w case Some(step) => Next(w, step)
    ensures forall t | t in ResumeCall(w, c, success).1.tokens :: t in c.tokens || t == w.next
    ensures CommandOf(c, success).Some? && TokenOf(CommandOf(c, success).value).Some? ==>
              TokenOf(CommandOf(c, success).value).value in c.tokens
  {}

  lemma {:induction false} ResumeKeepsSystem(s: System, id: nat, success: bool)
    requires SystemOk(s) && id in s.calls
    ensures SystemOk(NextSystem(s, Resume(id, success)))
  {
    var c := s.calls[id];
    var (w', c') := ResumeCall(s.world, c, success);
    ResumeKeepsOwn(s.world, c, success);
    ResumeCommand(s.world, c, success);
    forall other | other in s.calls && other != id
      ensures CallOk(w', s.calls[other]) && Apart(c', s.calls[other]) && Apart(s.calls[other], c')
    {
      var d := s.calls[other];
      assert Apart(c, d) && Apart(d, c) && CallOk(s.world, d);
      if CommandOf(c, success).Some? {
        CallUndisturbed(s.world, CommandOf(c, success).value, d);
      }
      forall t | t in d.tokens ensures t < s.world.next {
        var i :| 0 <= i < |d.tokens| && d.tokens[i] == t;
        assert LockOk(s.world, d, i);
      }
    }
  }

  lemma {:induction false} OutsideKeepsSystem(s: System, step: Step)
    requires SystemOk(s) && Strange(s, step)
    ensures SystemOk(s.(world := Next(s.world, step)))
  {
    NextAgrees(s.world, step);
    forall id | id in s.calls ensures CallOk(Next(s.world, step), s.calls[id]) {
      CallUndisturbed(s.world, step, s.calls[id]);
    }
  }

  lemma {:induction false} NextOk(s: System, e: Event)
    requires SystemOk(s)
    ensures SystemOk(NextSystem(s, e))
  {
    match e
    case Begin(id, plan, compliant) =>
    case Resume(id, success) => if id in s.calls { ResumeKeepsSystem(s, id, success); }
    case Outside(step) => if Strange(s, step) { OutsideKeepsSystem(s, step); }
  }

  lemma {:induction false} AlwaysOk(events: seq<Event>)
    ensures SystemOk(AfterEvents(events))
  {
    if events != [] {
      AlwaysOk(events[..|events| - 1]);
      NextOk(AfterEvents(events[..|events| - 1]), events[|events| - 1]);
    }
  }

  // ---- Main results -----------------------------------------------------------------------

  /** Since the call was granted the lock of its i-th action, less than 300 seconds have passed, or
      less than twice the duration the action declares. */
  predicate Open(s: System, id: nat, i: nat)
    requires id in s.calls && i < |s.calls[id].since| <= |s.calls[id].plan.actions|
  {
    var elapsed := s.world.now - s.calls[id].since[i];
    elapsed < 300 || elapsed < 2 * s.calls[id].plan.actions[i].duration
  }

  /** Main result: a lock not handed back is in the store, on the key of its action and under its own
      token, for exactly that long. */
  lemma {:induction false} LockLastsExactly(s: System, id: nat, i: nat)
    requires SystemOk(s) && id in s.calls && Kept(s.calls[id]) <= i < |s.calls[id].tokens|
    ensures |s.calls[id].tokens| == |s.calls[id].since| <= |s.calls[id].plan.actions|
    ensures var action := s.calls[id].plan.actions[i];
            OwnedBy(s.world.entries, LockKey(action.entity, action.kind), s.calls[id].tokens[i]) <==> Open(s, id, i)
  {
    var c := s.calls[id];
    assert CallOk(s.world, c) && LockOk(s.world, c, i);
    if Open(s, id, i) { assert Holds(s.world, c.tokens[i]); }
  }

  /** A running call has every lock of its plan, and holds those whose windows are open. */
  lemma {:induction false} RunningHolds(s: System, id: nat, i: nat)
    requires SystemOk(s) && id in s.calls && RunsPlaybooks(s.calls[id]) && i < |s.calls[id].plan.actions|
    ensures |s.calls[id].tokens| == |s.calls[id].since| == |s.calls[id].plan.actions|
    ensures Open(s, id, i) ==> OwnedBy(s.world.entries, KeyOf(s.calls[id].plan.actions[i]), s.calls[id].tokens[i])
  {
    assert CallOk(s.world, s.calls[id]);
    LockLastsExactly(s, id, i);
  }

  ghost predicate Runs(s: System, id: nat, i: nat) {
    && id in s.calls && RunsPlaybooks(s.calls[id])
    && i < |s.calls[id].plan.actions| == |s.calls[id].tokens| == |s.calls[id].since|
  }

  /** Main result: in every state the calls can reach, two calls whose plans share a lock key do not
      both run playbooks while less than 300 seconds, or less than twice the duration of the action,
      have passed for both since they were granted the lock; nor does one plan that names a key twice. */
  lemma {:induction false} NoOverlap(s: System, id: nat, id': nat, i: nat, j: nat)
    requires SystemOk(s) && Runs(s, id, i) && Runs(s, id', j) && Open(s, id, i) && Open(s, id', j)
    requires KeyOf(s.calls[id].plan.actions[i]) == KeyOf(s.calls[id'].plan.actions[j])
    ensures id == id' && i == j
  {
    var c, d := s.calls[id], s.calls[id'];
    RunningHolds(s, id, i);
    RunningHolds(s, id', j);
    assert c.tokens[i] == d.tokens[j] && CallOk(s.world, c);
    assert c.tokens[i] in c.tokens && d.tokens[j] in d.tokens;
    assert id != id' ==> Apart(c, d);
  }

  /** The plan started now as call `other`, and resumed m times with nothing in between. */
  function Advanced(s: System, other: nat, plan: Plan, m: nat): System {
    if m == 0 then NextSystem(s, Begin(other, plan, true))
    else NextSystem(Advanced(s, other, plan, m - 1), Resume(other, true))
  }

  /** The first m keys of the plan are free, and different from each other. */
  predicate FreeKeys(w: World, plan: Plan, m: nat)
    requires m <= |plan.actions|
  {
    && (forall i | 0 <= i < m :: KeyOf(plan.actions[i]) !in w.entries)
    && (forall i, j | 0 <= i < j < m :: KeyOf(plan.actions[i]) != KeyOf(plan.actions[j]))
  }

  predicate NamesKey(plan: Plan, m: nat, key: string)
    requires m <= |plan.actions|
  {
    exists i | 0 <= i < m :: KeyOf(plan.actions[i]) == key
  }

  /** After m turns, from w to w', the call has the first m locks, or was denied one and will never
      run. */
  ghost predicate Progress(w: World, w': World, c: Call, plan: Plan, m: nat)
    requires m <= |plan.actions|
  {
    && c.plan == plan && w'.now == w.now
    && (FreeKeys(w, plan, m) ==>
          && c.phase == AfterAcquiring(plan, m) && |c.tokens| == m
          && (forall k :: k in w'.entries <==> k in w.entries || NamesKey(plan, m, k)))
    && (!FreeKeys(w, plan, m) ==> c.phase.Releasing? || c.phase.Returned?)
  }

  /** Of the calls there were, none has moved. */
  ghost predicate OthersStay(s: System, s': System) {
    forall id | id in s.calls :: id in s'.calls && s'.calls[id] == s.calls[id]
  }

  lemma {:induction false} FreeOneMore(w: World, plan: Plan, m: nat)
    requires m < |plan.actions|
    ensures FreeKeys(w, plan, m + 1) <==>
              FreeKeys(w, plan, m) && KeyOf(plan.actions[m]) !in w.entries && !NamesKey(plan, m, KeyOf(plan.actions[m]))
    ensures forall k :: NamesKey(plan, m + 1, k) <==> NamesKey(plan, m, k) || k == KeyOf(plan.actions[m])
  {
    assert NamesKey(plan, m + 1, KeyOf(plan.actions[m]));
    forall k | NamesKey(plan, m, k) ensures NamesKey(plan, m + 1, k) {
      var i :| 0 <= i < m && KeyOf(plan.actions[i]) == k;
    }
    if FreeKeys(w, plan, m) && KeyOf(plan.actions[m]) !in w.entries && !NamesKey(plan, m, KeyOf(plan.actions[m])) {
      forall i, j | 0 <= i < j < m + 1 ensures KeyOf(plan.actions[i]) != KeyOf(plan.actions[j]) { }
    }
  }

  /** A call that asks for a lock gets it exactly when the key is free. */
  lemma {:induction false} GrantedWhenFree(w: World, c: Call)
    requires Agrees(w) && c.phase.Acquiring? && |c.tokens| < |c.plan.actions|
    ensures var (w', c') := ResumeCall(w, c, true);
            var n, key := |c.tokens|, KeyOf(c.plan.actions[|c.tokens|]);
            && (key !in w.entries ==> c'.phase == AfterAcquiring(c.plan, n + 1) && |c'.tokens| == n + 1
                                      && forall k :: k in w'.entries <==> k in w.entries || k == key)
            && (key in w.entries ==> c'.phase == Unwinding(0, n, false))
            && w'.now == w.now && c'.plan == c.plan
  {
    var step := Asking(c.plan.actions[|c.tokens|], true);
    assert w.next !in w.claims;
    assert w.next in Next(w, step).claims <==> KeyOf(c.plan.actions[|c.tokens|]) !in w.entries;
  }

  lemma {:induction false} TurnDenied(w: World, c: Call)
    requires c.phase.Releasing? || c.phase.Returned?
    ensures var (w', c') := ResumeCall(w, c, true);
            (c'.phase.Releasing? || c'.phase.Returned?) && c'.plan == c.plan && w'.now == w.now
  {}

  lemma {:induction false} OneTurn(w: World, w': World, c: Call, plan: Plan, m: nat)
    requires m < |plan.actions| && Agrees(w') && Progress(w, w', c, plan, m)
    ensures var (v, d) := ResumeCall(w', c, true); Progress(w, v, d, plan, m + 1)
  {
    FreeOneMore(w, plan, m);
    if FreeKeys(w, plan, m) { GrantedWhenFree(w', c); } else { TurnDenied(w', c); }
  }

  lemma {:induction false} ResumeAlone(s: System, other: nat)
    requires other in s.calls
    ensures var (w, c) := ResumeCall(s.world, s.calls[other], true);
            NextSystem(s, Resume(other, true)) == System(w, s.calls[other := c])
  {}

  ghost predicate Advance(s: System, s': System, other: nat, plan: Plan, m: nat)
    requires m <= |plan.actions|
  {
    && SystemOk(s') && OthersStay(s, s') && other in s'.calls
    && Progress(s.world, s'.world, s'.calls[other], plan, m)
  }

  lemma {:induction false} AdvanceTurn(s: System, s': System, other: nat, plan: Plan, m: nat)
    requires m < |plan.actions| && other !in s.calls && Advance(s, s', other, plan, m)
    ensures Advance(s, NextSystem(s', Resume(other, true)), other, plan, m + 1)
  {
    NextOk(s', Resume(other, true));
    OneTurn(s.world, s'.world, s'.calls[other], plan, m);
    ResumeAlone(s', other);
    var c := ResumeCall(s'.world, s'.calls[other], true).1;
    var after := NextSystem(s', Resume(other, true));
    assert after.calls == s'.calls[other := c];
    assert OthersStay(s, after);
  }

  lemma {:induction false} AdvanceStarts(s: System, other: nat, plan: Plan)
    requires SystemOk(s) && other !in s.calls && RouteOf(plan, true) == AutoExecute
    ensures Advance(s, NextSystem(s, Begin(other, plan, true)), other, plan, 0)
  {
    NextOk(s, Begin(other, plan, true));
  }

  lemma {:induction false} AdvancesExactly(s: System, other: nat, plan: Plan, m: nat)
    requires SystemOk(s) && other !in s.calls && RouteOf(plan, true) == AutoExecute && m <= |plan.actions|
    ensures Advance(s, Advanced(s, other, plan, m), other, plan, m)
  {
    if m == 0 {
      AdvanceStarts(s, other, plan);
    } else {
      AdvancesExactly(s, other, plan, m - 1);
      AdvanceTurn(s, Advanced(s, other, plan, m - 1), other, plan, m - 1);
    }
  }

  /** Main result: while a call runs with action i, any automatic plan that names the same lock, is
      started now and resumed once per action, runs beside it exactly when none of its keys is in
      the store and its keys differ; so it cannot while the lock of action i lasts. */
  lemma {:induction false} SecondRunsExactly(s: System, id: nat, i: nat, other: nat, plan: Plan)
    requires SystemOk(s) && Runs(s, id, i) && other !in s.calls && RouteOf(plan, true) == AutoExecute
    requires NamesKey(plan, |plan.actions|, KeyOf(s.calls[id].plan.actions[i]))
    ensures var s' := Advanced(s, other, plan, |plan.actions|);
            && SystemOk(s') && Runs(s', id, i) && other in s'.calls
            && (RunsPlaybooks(s'.calls[other]) <==> FreeKeys(s.world, plan, |plan.actions|))
            && (Open(s, id, i) ==> !RunsPlaybooks(s'.calls[other]))
  {
    AdvancesExactly(s, other, plan, |plan.actions|);
    RunningHolds(s, id, i);
    var j :| 0 <= j < |plan.actions| && KeyOf(plan.actions[j]) == KeyOf(s.calls[id].plan.actions[i]);
  }

  /** A case in point: a plan declared to last no time at all is still
      running when its 300 seconds are over, and the same plan starts beside it. */
  lemma {:induction false} SlowPlanOverlaps(entity: string, kind: string)
    ensures var plan := Plan("auto_approved", RC1, [Action(entity, kind, 0)]);
            var s := AfterEvents([Begin(0, plan, true), Resume(0, true), Outside(Tick(300)),
                                  Begin(1, plan, true), Resume(1, true)]);
            && 0 in s.calls && 1 in s.calls && s.calls[0].plan == s.calls[1].plan == plan
            && Runs(s, 0, 0) && Runs(s, 1, 0) && !Open(s, 0, 0) && Open(s, 1, 0)
  {
    var plan := Plan("auto_approved", RC1, [Action(entity, kind, 0)]);
    var es := [Begin(0, plan, true), Resume(0, true), Outside(Tick(300)), Begin(1, plan, true), Resume(1, true)];
    var key := LockKey(entity, kind);
    assert es[..5] == es && es[..4][..3] == es[..3] && es[..3][..2] == es[..2] && es[..2][..1] == es[..1] && es[..1][..0] == [];
    var s1 := AfterEvents(es[..1]);
    var s2 := AfterEvents(es[..2]);
    assert s1 == NextSystem(AfterEvents([]), es[0]);
    assert s2 == NextSystem(s1, es[1]) && s2.world.entries == map[key := Entry(0, 300)];
    assert RunsPlaybooks(s2.calls[0]) && s2.calls[0].since == [0];
    var s3 := AfterEvents(es[..3]);
    assert s3 == NextSystem(s2, es[2]) && s3.world.entries == map[] && s3.world.now == 300;
    assert s3.calls == s2.calls;
    var s4 := AfterEvents(es[..4]);
    assert s4 == NextSystem(s3, es[3]) && s4.calls[0] == s2.calls[0] && s4.world == s3.world;
    assert AfterEvents(es) == NextSystem(s4, es[4]);
  }

  /** Playbooks run only for compliant, auto-approved RC-1 plans, and only once every action's
      lock has been granted to the call. */
  lemma {:induction false} RunsOnlyLocked(s: System, id: nat)
    requires SystemOk(s) && id in s.calls && RunsPlaybooks(s.calls[id])
    ensures var c := s.calls[id];
            && c.compliant && c.plan.risk == RC1 && c.plan.status == "auto_approved"
            && |c.tokens| == |c.since| == |c.plan.actions|
            && (forall i | 0 <= i < |c.plan.actions| ::
                  c.tokens[i] in s.world.claims
                  && s.world.claims[c.tokens[i]] == Claim(KeyOf(c.plan.actions[i]), c.since[i] + Window(c.plan.actions[i])))
  {
    var c := s.calls[id];
    forall i | 0 <= i < |c.plan.actions| ensures c.tokens[i] in s.world.claims { assert LockOk(s.world, c, i); }
    forall i | 0 <= i < |c.plan.actions|
      ensures s.world.claims[c.tokens[i]] == Claim(KeyOf(c.plan.actions[i]), c.since[i] + Window(c.plan.actions[i]))
    {
      assert LockOk(s.world, c, i);
    }
  }

  lemma {:induction false} NothingLeft(s: System, id: nat)
    requires SystemOk(s) && id in s.calls && s.calls[id].phase.Returned?
    ensures forall k | k in s.world.entries :: s.world.entries[k].token !in s.calls[id].tokens
  {
    var c := s.calls[id];
    forall k | k in s.world.entries ensures s.world.entries[k].token !in c.tokens {
      forall i | 0 <= i < |c.tokens| ensures c.tokens[i] != s.world.entries[k].token {
        assert LockOk(s.world, c, i);
      }
    }
  }

  /** Once a call has returned, none of its tokens is left in the store. */
  lemma {:induction false} ReturnsClean(events: seq<Event>, id: nat)
    requires id in AfterEvents(events).calls && AfterEvents(events).calls[id].phase.Returned?
    ensures var s := AfterEvents(events);
            forall k | k in s.world.entries :: s.world.entries[k].token !in s.calls[id].tokens
  {
    AlwaysOk(events);
    NothingLeft(AfterEvents(events), id);
  }

  /** A call's own steps never touch an entry held under someone else's token, and add none but
      its own. */
  lemma {:induction false} OthersUntouched(s: System, id: nat, success: bool, key: string)
    requires SystemOk(s) && id in s.calls
    ensures var s' := NextSystem(s, Resume(id, success));
            && (key in s.world.entries && s.world.entries[key].token !in s.calls[id].tokens ==>
                  key in s'.world.entries && s'.world.entries[key] == s.world.entries[key])
            && (key in s'.world.entries && key !in s.world.entries ==> s'.world.entries[key].token in s'.calls[id].tokens)
  {
    ResumeCommand(s.world, s.calls[id], success);
  }

  // ---- The call itself ----------------------------------------------------------------------

  datatype Result = Result(executed: bool, lockDenied: bool)

  function PlaybookFails(plan: Plan, available: set<string>, outcomes: seq<bool>, i: nat): bool
    requires i < |plan.actions| == |outcomes|
  {
    plan.actions[i].kind in available && !outcomes[i]
  }

  /** No playbook fails from action i on. */
  predicate AllSucceed(plan: Plan, available: set<string>, outcomes: seq<bool>, i: nat)
    requires i <= |plan.actions| == |outcomes|
    decreases |plan.actions| - i
  {
    i == |plan.actions| || (!PlaybookFails(plan, available, outcomes, i) && AllSucceed(plan, available, outcomes, i + 1))
  }

  lemma {:induction false} AllSucceedExactly(plan: Plan, available: set<string>, outcomes: seq<bool>, i: nat)
    requires i <= |plan.actions| == |outcomes|
    ensures AllSucceed(plan, available, outcomes, i) <==>
              forall k | i <= k < |plan.actions| && plan.actions[k].kind in available :: outcomes[k]
    decreases |plan.actions| - i
  {
    if i < |plan.actions| { AllSucceedExactly(plan, available, outcomes, i + 1); }
  }

  /** The playbooks run from action i on: the known ones, up to and including the first to fail. */
  function Plays(plan: Plan, available: set<string>, outcomes: seq<bool>, i: nat): seq<nat>
    requires i <= |plan.actions| == |outcomes|
    decreases |plan.actions| - i
  {
    if i == |plan.actions| then []
    else if plan.actions[i].kind !in available then Plays(plan, available, outcomes, i + 1)
    else if PlaybookFails(plan, available, outcomes, i) then [i]
    else [i] + Plays(plan, available, outcomes, i + 1)
  }

  /** An action is played exactly when its playbook is known and none known before it failed. */
  lemma {:induction false} PlaysExactly(plan: Plan, available: set<string>, outcomes: seq<bool>, i: nat)
    requires i <= |plan.actions| == |outcomes|
    ensures forall k :: k in Plays(plan, available, outcomes, i) <==>
              i <= k < |plan.actions| && plan.actions[k].kind in available
              && forall j | i <= j < k && plan.actions[j].kind in available :: outcomes[j]
    decreases |plan.actions| - i
  {
    if i < |plan.actions| {
      PlaysExactly(plan, available, outcomes, i + 1);
      var rest, p := Plays(plan, available, outcomes, i + 1), Plays(plan, available, outcomes, i);
      var known, fails := plan.actions[i].kind in available, PlaybookFails(plan, available, outcomes, i);
      assert p == (if !known then rest else if fails then [i] else [i] + rest);
      forall k ensures k in p <==> (k == i && known) || (k in rest && !fails) { }
    }
  }

  predicate Ascending(s: seq<nat>) { forall x, y | 0 <= x < y < |s| :: s[x] < s[y] }

  lemma {:induction false} PlaysInOrder(plan: Plan, available: set<string>, outcomes: seq<bool>, i: nat)
    requires i <= |plan.actions| == |outcomes|
    ensures Ascending(Plays(plan, available, outcomes, i))
    decreases |plan.actions| - i
  {
    if i < |plan.actions| {
      PlaysInOrder(plan, available, outcomes, i + 1);
      PlaysExactly(plan, available, outcomes, i + 1);
      var rest := Plays(plan, available, outcomes, i + 1);
      forall y | 0 <= y < |rest| ensures i < rest[y] { assert rest[y] in rest; }
      Ahead(i, rest);
    }
  }

  lemma {:induction false} Ahead(i: nat, rest: seq<nat>)
    requires (forall y | 0 <= y < |rest| :: i < rest[y]) && Ascending(rest)
    ensures Ascending([i] + rest) && Ascending([i])
  {}

  lemma {:induction false} PlaysNext(plan: Plan, available: set<string>, outcomes: seq<bool>, i: nat, played: seq<nat>)
    requires i < |plan.actions| == |outcomes|
    ensures var fails, now := PlaybookFails(plan, available, outcomes, i), if plan.actions[i].kind in available then [i] else [];
            played + Plays(plan, available, outcomes, i)
            == played + now + if fails then [] else Plays(plan, available, outcomes, i + 1)
  {}

  /** The workflow object. `system` is everything in flight over the store: this object's calls,
      other callers' and strangers'. Each of a call's own steps between two awaits is one Resume
      event of it, so the main results above speak about the states this code goes through. */
  class ActionWorkflow {
    const lock: LockService
    var system: System
    var played: seq<nat>

    constructor (lock: LockService)
      requires lock.entries == map[] && lock.now == 0 && lock.nextToken == 0
      ensures this.lock == lock && played == [] && system == System(START, map[]) && InStep()
    {
      this.lock, system, played := lock, System(START, map[]), [];
    }

    ghost predicate InStep()
      reads this, lock
    {
      SystemOk(system) && lock.entries == system.world.entries && lock.now == system.world.now
      && lock.nextToken == system.world.next
    }

    /** Anything may happen while call `id` awaits, except a step of its own. */
    method Await(id: nat)
      requires InStep() && id in system.calls
      modifies this`system, lock
      ensures InStep() && id in system.calls && system.calls[id] == old(system.calls[id])
    {
      var events: seq<Event> := *;
      for i := 0 to |events|
        invariant SystemOk(system) && id in system.calls && system.calls[id] == old(system.calls[id])
      {
        if !(events[i].Resume? && events[i].id == id) {
          NextOk(system, events[i]);
          system := NextSystem(system, events[i]);
        }
      }
      lock.entries, lock.now, lock.nextToken := system.world.entries, system.world.now, system.world.next;
    }

    /** Takes the locks in order until one is denied, held by another or refused by a failing Redis. */
    method AcquireAll(id: nat, plan: Plan) returns (denied: bool, tokens: seq<Token>)
      requires InStep() && id in system.calls && system.calls[id] == Fresh(plan, true)
      requires RouteOf(plan, true) == Route.AutoExecute
      modifies this`system, lock
      ensures InStep() && id in system.calls && system.calls[id].plan == plan && system.calls[id].tokens == tokens
      ensures denied ==> system.calls[id].phase == Unwinding(0, |tokens|, false)
      ensures !denied ==> |tokens| == |plan.actions| && system.calls[id].phase == AfterPlaybook(plan, 0, |tokens|)
    {
      tokens := [];
      for n := 0 to |plan.actions|
        invariant InStep() && id in system.calls && system.calls[id].plan == plan && system.calls[id].tokens == tokens
        invariant |tokens| == n && system.calls[id].phase == AfterAcquiring(plan, n)
      {
        var action := plan.actions[n];
        Await(id);
        var up: bool := *;
        ResumeKeepsSystem(system, id, up);
        var token := lock.Acquire(action.entity, action.kind, Window(action), up);
        system := NextSystem(system, Resume(id, up));
        if token.None? { return true, tokens; }
        tokens := tokens + [token.value];
      }
      denied := false;
    }

    method ReleaseOne(id: nat, j: nat, ran: bool)
      requires InStep() && id in system.calls && system.calls[id].phase == Releasing(j, ran)
      modifies this`system, lock
      ensures InStep() && id in system.calls
      ensures var before := old(system.calls[id]);
              system.calls[id] == before.(phase := Unwinding(j + 1, |before.tokens|, ran))
    {
      Await(id);
      ReleaseNow(id, j, ran);
    }

    method ReleaseNow(id: nat, j: nat, ran: bool)
      requires InStep() && id in system.calls && system.calls[id].phase == Releasing(j, ran)
      modifies this`system, lock
      ensures InStep() && id in system.calls
      ensures var before := old(system.calls[id]);
              system.calls[id] == before.(phase := Unwinding(j + 1, |before.tokens|, ran))
    {
      var c := system.calls[id];
      assert CallOk(system.world, c);
      ResumeKeepsSystem(system, id, true);
      var released := lock.Release(c.plan.actions[j].entity, c.plan.actions[j].kind, c.tokens[j], true);
      system := NextSystem(system, Resume(id, true));
    }

    /** Hands the locks back in order. */
    method ReleaseAll(id: nat, plan: Plan, tokens: seq<Token>, ran: bool)
      requires InStep() && id in system.calls && system.calls[id].plan == plan && system.calls[id].tokens == tokens
      requires system.calls[id].phase == Unwinding(0, |tokens|, ran)
      modifies this`system, lock
      ensures InStep() && id in system.calls && system.calls[id].plan == plan && system.calls[id].tokens == tokens
      ensures system.calls[id].phase == Returned(ran)
    {
      for j := 0 to |tokens|
        invariant InStep() && id in system.calls && system.calls[id].plan == plan && system.calls[id].tokens == tokens
        invariant system.calls[id].phase == Unwinding(j, |tokens|, ran)
      {
        ReleaseOne(id, j, ran);
      }
    }

    /** One round of the playbook loop. Of this call only the phase moves; others may move at the await. */
    method PlayOne(id: nat, i: nat, known: bool, success: bool)
      requires InStep() && id in system.calls && system.calls[id].phase == Running(i)
      modifies this`played, this`system, lock
      ensures InStep() && id in system.calls
      ensures var before := old(system.calls[id]);
              system.calls[id] == before.(phase := if success then AfterPlaybook(before.plan, i + 1, |before.tokens|)
                                                   else Unwinding(0, |before.tokens|, false))
      ensures played == old(played) + if known then [i] else []
    {
      if known {
        Await(id);
        played := played + [i];
      }
      ResumeKeepsSystem(system, id, success);
      system := NextSystem(system, Resume(id, success));
    }

    method RunPlaybooks(id: nat, plan: Plan, available: set<string>, outcomes: seq<bool>) returns (executed: bool)
      requires |outcomes| == |plan.actions|
      requires InStep() && id in system.calls && system.calls[id].plan == plan
      requires system.calls[id].phase == AfterPlaybook(plan, 0, |system.calls[id].tokens|)
      modifies this`played, this`system, lock
      ensures InStep() && id in system.calls && system.calls[id].plan == plan
      ensures system.calls[id].tokens == old(system.calls[id].tokens)
      ensures system.calls[id].phase == Unwinding(0, |system.calls[id].tokens|, executed)
      ensures executed <==> AllSucceed(plan, available, outcomes, 0)
      ensures played == old(played) + Plays(plan, available, outcomes, 0)
    {
      for i := 0 to |plan.actions|
        invariant InStep() && id in system.calls && system.calls[id].plan == plan
        invariant system.calls[id].tokens == old(system.calls[id].tokens)
        invariant system.calls[id].phase == AfterPlaybook(plan, i, |system.calls[id].tokens|)
        invariant AllSucceed(plan, available, outcomes, i) <==> AllSucceed(plan, available, outcomes, 0)
        invariant played + Plays(plan, available, outcomes, i) == old(played) + Plays(plan, available, outcomes, 0)
      {
        var known, success := plan.actions[i].kind in available, !PlaybookFails(plan, available, outcomes, i);
        PlaysNext(plan, available, outcomes, i, played);
        PlayOne(id, i, known, success);
        if !success { return false; }
      }
      executed := true;
    }

    method AutoExecute(id: nat, plan: Plan, available: set<string>, outcomes: seq<bool>) returns (result: Result)
      requires |outcomes| == |plan.actions| && RouteOf(plan, true) == Route.AutoExecute
      requires InStep() && id in system.calls && system.calls[id] == Fresh(plan, true)
      modifies this`played, this`system, lock
      ensures InStep() && id in system.calls && system.calls[id].phase == Returned(result.executed)
      ensures result.lockDenied ==> !result.executed && played == old(played)
      ensures !result.lockDenied ==>
                && |system.calls[id].tokens| == |plan.actions| && played == old(played) + Plays(plan, available, outcomes, 0)
                && (result.executed <==> forall i | 0 <= i < |plan.actions| && plan.actions[i].kind in available :: outcomes[i])
    {
      var denied, tokens := AcquireAll(id, plan);
      if denied {
        ReleaseAll(id, plan, tokens, false);
        return Result(false, true);
      }
      var executed := RunPlaybooks(id, plan, available, outcomes);
      AllSucceedExactly(plan, available, outcomes, 0);
      ReleaseAll(id, plan, tokens, executed);
      result := Result(executed, false);
    }

    /** The whole call. Only an auto-executed plan runs anything or touches a lock, a policy
        violation leaves the plan blocked for every later call, and none of the call's tokens is
        left in the store. */
    method ExecutePlan(id: nat, plan: Plan, compliant: bool, available: set<string>, outcomes: seq<bool>)
      returns (after: Plan, route: Route, result: Result)
      requires |outcomes| == |plan.actions| && InStep() && id !in system.calls
      modifies this`played, this`system, lock
      ensures InStep() && id in system.calls && system.calls[id].phase == Returned(result.executed)
      ensures route == RouteOf(plan, compliant)
      ensures route == Blocked <==> plan.status == "blocked"
      ensures route == PolicyViolation <==> plan.status != "blocked" && !compliant
      ensures route == Review <==> plan.status != "blocked" && compliant && plan.risk in {RC2, RC3}
      ensures route == Route.AutoExecute <==> compliant && plan.risk == RC1 && plan.status == "auto_approved"
      ensures route != Route.AutoExecute ==> !result.executed && played == old(played) && unchanged(lock)
      ensures result.executed ==> played == old(played) + Plays(plan, available, outcomes, 0)
      ensures after == if route == PolicyViolation then plan.(status := "blocked") else plan
      ensures route == PolicyViolation ==> forall later :: RouteOf(after, later) == Blocked
      ensures forall k | k in lock.entries :: lock.entries[k].token !in system.calls[id].tokens
    {
      NextOk(system, Begin(id, plan, compliant));
      system := NextSystem(system, Begin(id, plan, compliant));
      after, result := plan, Result(false, false);
      if plan.status == "blocked" {
        route := Blocked;
      } else if !compliant {
        route, after := PolicyViolation, plan.(status := "blocked");
      } else if plan.risk in {RC2, RC3} {
        route := Review;
      } else if plan.risk != RC1 || plan.status != "auto_approved" {
        route := NotAutomatic;
      } else {
        route := Route.AutoExecute;
        result := AutoExecute(id, plan, available, outcomes);
      }
      NothingLeft(system, id);
    }
  }
}
