/** Mediated action requests: seven statuses, moved by seven operations under the policy. */
module ActionRequests {
  import opened Common
  import opened Ordering
  import opened PolicyMatrix

  // ---- Rows -----------------------------------------------------------------------

  datatype Status = Pending | Approved | Denied | Executing | Completed | Failed | Revoked

  predicate Terminal(s: Status) { s in {Completed, Failed, Revoked, Denied} }

  /** The stored JSON scope and its values. */
  datatype Value = Ids(ids: seq<string>) | Text(text: string) | Flag(on: bool)
  type Scope = map<string, Value>

  datatype Request = Request(code: string, recordId: Option<string>, classText: string, scope: Scope, status: Status)

  datatype ChangeLog = ChangeLog(code: string, request: nat, recordId: Option<string>, outcome: string, changedBy: string)

  datatype Spec = Spec(action: ActionClass, targets: set<string>, requestedBy: string, taskType: string,
                       contract: Option<EvidenceContract>, present: set<Evidence>,
                       record: Option<ApprovalRecord>, snapshotExists: bool)

  function TargetIds(req: Request): set<string> {
    if "entity_ids" in req.scope && req.scope["entity_ids"].Ids? then set id | id in req.scope["entity_ids"].ids else {}
  }

  predicate HasSnapshot(req: Request) {
    "snapshot_exists" in req.scope && req.scope["snapshot_exists"].Flag? && req.scope["snapshot_exists"].on
  }

  function RiskOf(req: Request): RiskClass
    requires ClassOf(req.classText).Some?
  {
    PolicyFor(ClassOf(req.classText).value).risk
  }

  // ---- The operations ----------------------------------------------------------------

  datatype Op =
    | Approve(record: ApprovalRecord)
    | Begin
    | Complete(outcome: string, changedBy: string)
    | Fail(reason: string)
    | Revoke(reason: string)
    | Deny(reason: string)

  datatype Reason =
    | NotFound
    | AlreadyTerminal(status: Status)
    | InvalidTransition(status: Status)
    | RecordExpired
    | RecordWrongClass
    | ScopeTooSmall
    | PolicyDenies(deny: PolicyMatrix.Deny)
    | SnapshotMissing

  datatype Result = Result(success: bool, status: Option<Status>, reasons: seq<Reason>, id: Option<nat>)

  function Denials(denies: seq<PolicyMatrix.Deny>): (r: seq<Reason>)
    ensures |r| == |denies| && forall d :: PolicyDenies(d) in r <==> d in denies
  {
    if denies == [] then [] else [PolicyDenies(denies[0])] + Denials(denies[1..])
  }

  /** The statuses an operation starts from, and the one it leads to. */
  function From(op: Op): set<Status> {
    match op
    case Approve(_) => {Pending}
    case Deny(_) => {Pending}
    case Begin => {Approved}
    case Complete(_, _) => {Executing}
    case Fail(_) => {Executing}
    case Revoke(_) => {Pending, Approved}
  }

  function To(op: Op): Status {
    match op
    case Approve(_) => Approved
    case Deny(_) => Denied
    case Begin => Executing
    case Complete(_, _) => Completed
    case Fail(_) => Failed
    case Revoke(_) => Revoked
  }

  function RejectApproval(req: Request, record: ApprovalRecord): Option<Reason>
    requires ClassOf(req.classText).Some?
  {
    if record.expired then Some(RecordExpired)
    else if Some(record.covers) != ClassOf(req.classText) then Some(RecordWrongClass)
    else if !(TargetIds(req) <= record.scope) then Some(ScopeTooSmall)
    else if RiskOf(req) == RC4 && |record.approvers| < MIN_QUORUM_APPROVERS then
      Some(PolicyDenies(QuorumShort(|record.approvers|)))
    else None
  }

  function Reject(req: Request, op: Op): Option<Reason>
    requires ClassOf(req.classText).Some?
  {
    if Terminal(req.status) then Some(AlreadyTerminal(req.status))
    else if req.status !in From(op) then Some(InvalidTransition(req.status))
    else if op.Approve? then RejectApproval(req, op.record)
    else if op.Begin? && RiskOf(req) == RC4 && !HasSnapshot(req) then Some(SnapshotMissing)
    else None
  }

  function Rewrite(req: Request, op: Op): Request {
    var moved := req.(status := To(op));
    match op
    case Approve(record) => moved.(recordId := Some(record.id))
    case Fail(reason) => moved.(scope := req.scope["failure_reason" := Text(reason)])
    case Revoke(reason) => moved.(scope := req.scope["revocation_reason" := Text(reason)])
    case Deny(reason) => moved.(scope := req.scope["denial_reason" := Text(reason)])
    case _ => moved
  }

  /** The tables, and beside them the record each request was approved with. */
  datatype Store = Store(requests: map<nat, Request>, changes: seq<ChangeLog>, next: nat, granted: map<nat, ApprovalRecord>)

  const EMPTY := Store(map[], [], 0, map[])

  function Succeed(s: Store, id: nat, op: Op): Store
    requires id in s.requests
  {
    var req := s.requests[id];
    Store(s.requests[id := Rewrite(req, op)],
          if op.Complete? then
            s.changes + [ChangeLog("CL-" + req.code, id, req.recordId, op.outcome, op.changedBy)]
          else s.changes,
          s.next,
          if op.Approve? then s.granted[id := op.record] else s.granted)
  }

  function Operate(s: Store, id: nat, op: Op): (Store, Result)
    requires id in s.requests ==> ClassOf(s.requests[id].classText).Some?
  {
    if id !in s.requests then (s, Result(false, None, [NotFound], None))
    else
      match Reject(s.requests[id], op)
      case Some(reason) => (s, Result(false, Some(s.requests[id].status), [reason], None))
      case None => (Succeed(s, id, op), Result(true, Some(To(op)), [], Some(id)))
  }

  function ContextOf(spec: Spec): Context {
    Context(spec.action, spec.contract, spec.present, SortedKeys(spec.targets), spec.record, spec.snapshotExists)
  }

  function NewRequest(spec: Spec, stamp: string): Request {
    Request("REQ-" + Code(spec.action) + "-" + stamp,
            if spec.record.Some? then Some(spec.record.value.id) else None,
            Code(spec.action),
            map["entity_ids" := Ids(SortedKeys(spec.targets)), "requested_by" := Text(spec.requestedBy),
                "task_type_code" := Text(spec.taskType), "snapshot_exists" := Flag(spec.snapshotExists)],
            if PolicyFor(spec.action).risk == RC1 then Approved else Pending)
  }

  /** Only an admissible request is stored; a denied one leaves no row. */
  function Insert(s: Store, spec: Spec, stamp: string): Store {
    if Admissible(ContextOf(spec)) then
      s.(requests := s.requests[s.next := NewRequest(spec, stamp)], next := s.next + 1)
    else s
  }

  // ---- What every run keeps --------------------------------------------------------------

  /** The record a request was approved with was good for it. */
  predicate Warrants(record: ApprovalRecord, req: Request)
    requires ClassOf(req.classText).Some?
  {
    && !record.expired && Some(record.covers) == ClassOf(req.classText) && TargetIds(req) <= record.scope
    && (RiskOf(req) == RC4 ==> |record.approvers| >= MIN_QUORUM_APPROVERS)
  }

  predicate RequestOk(req: Request, granted: Option<ApprovalRecord>) {
    && ClassOf(req.classText).Some?
    && (RiskOf(req) == RC4 ==> HasSnapshot(req))
    && (RiskOf(req) == RC1 ==> !req.status.Pending? && !req.status.Denied?)
    && (granted.Some? ==> Warrants(granted.value, req) && req.recordId == Some(granted.value.id)
                          && RiskOf(req) != RC1 && !req.status.Pending? && !req.status.Denied?)
    && (RiskOf(req) != RC1 && req.status in {Approved, Executing, Completed, Failed} ==> granted.Some?)
  }

  function GrantOf(s: Store, id: nat): Option<ApprovalRecord> {
    if id in s.granted then Some(s.granted[id]) else None
  }

  ghost predicate StoreOk(s: Store) {
    && (forall id | id in s.requests :: id < s.next && RequestOk(s.requests[id], GrantOf(s, id)))
    && (forall id | id in s.granted :: id in s.requests)
    && LogOk(s)
  }

  predicate LoggedAs(s: Store, c: ChangeLog) {
    c.request in s.requests && s.requests[c.request].status == Completed && s.requests[c.request].recordId == c.recordId
  }

  /** Change-log rows and completed requests are in one-to-one correspondence. */
  ghost predicate LogOk(s: Store) {
    && (forall c | c in s.changes :: LoggedAs(s, c))
    && (forall i, j | 0 <= i < j < |s.changes| :: s.changes[i].request != s.changes[j].request)
    && (forall id | id in s.requests && s.requests[id].status == Completed :: exists c :: c in s.changes && c.request == id)
  }

  lemma {:induction false} CreateKeeps(s: Store, spec: Spec, stamp: string)
    requires StoreOk(s)
    ensures StoreOk(Insert(s, spec, stamp))
  {
    var s' := Insert(s, spec, stamp);
    if s' != s {
      CodeRoundTrip(spec.action);
      assert s.next !in s.requests && s.next !in s.granted;
      assert RequestOk(s'.requests[s.next], GrantOf(s', s.next));
      forall id | id in s.requests ensures RequestOk(s'.requests[id], GrantOf(s', id)) {
        assert GrantOf(s', id) == GrantOf(s, id);
      }
    }
  }

  /** An operation's own row: class, targets and snapshot flag stay, and the warrant is in order. */
  lemma {:induction false} RewriteKeeps(req: Request, op: Op, granted: Option<ApprovalRecord>)
    requires RequestOk(req, granted) && Reject(req, op) == None
    ensures RequestOk(Rewrite(req, op), if op.Approve? then Some(op.record) else granted)
    ensures Frozen(req, Rewrite(req, op))
  {
    RewriteFrozen(req, op);
  }

  predicate Frozen(req: Request, req': Request) {
    && req'.classText == req.classText && req'.code == req.code
    && TargetIds(req') == TargetIds(req) && HasSnapshot(req') == HasSnapshot(req)
  }

  lemma {:induction false} RewriteFrozen(req: Request, op: Op)
    ensures Frozen(req, Rewrite(req, op))
  {
    var req' := Rewrite(req, op);
    KeysApart();
    assert "entity_ids" in req'.scope <==> "entity_ids" in req.scope;
    assert "snapshot_exists" in req'.scope <==> "snapshot_exists" in req.scope;
  }

  lemma {:induction false} KeysApart()
    ensures "entity_ids" !in {"failure_reason", "revocation_reason", "denial_reason"}
    ensures "snapshot_exists" !in {"failure_reason", "revocation_reason", "denial_reason"}
  {
    assert "entity_ids"[0] == 'e' && "snapshot_exists"[0] == 's';
    assert "failure_reason"[0] == 'f' && "revocation_reason"[0] == 'r' && "denial_reason"[0] == 'd';
  }

  lemma {:induction false} SucceedKeepsLog(s: Store, id: nat, op: Op)
    requires StoreOk(s) && id in s.requests && Reject(s.requests[id], op) == None
    ensures LogOk(Succeed(s, id, op))
  {
    var s' := Succeed(s, id, op);
    forall c | c in s.changes ensures c.request != id && LoggedAs(s', c) { assert LoggedAs(s, c); }
    forall x | x in s'.requests && s'.requests[x].status == Completed ensures exists c :: c in s'.changes && c.request == x {
      CompletionLogged(s, id, op, x);
    }
  }

  lemma {:induction false} CompletionLogged(s: Store, id: nat, op: Op, x: nat)
    requires LogOk(s) && id in s.requests && x in s.requests && Succeed(s, id, op).requests[x].status == Completed
    ensures exists c :: c in Succeed(s, id, op).changes && c.request == x
  {
    var s' := Succeed(s, id, op);
    if x != id {
      var c :| c in s.changes && c.request == x;
      assert c in s'.changes;
    } else {
      assert s'.changes[|s.changes|].request == id;
    }
  }

  lemma {:induction false} SucceedKeepsRows(s: Store, id: nat, op: Op)
    requires StoreOk(s) && id in s.requests && Reject(s.requests[id], op) == None
    ensures var s' := Succeed(s, id, op); forall x | x in s'.requests :: x < s'.next && RequestOk(s'.requests[x], GrantOf(s', x))
  {
    var s' := Succeed(s, id, op);
    RewriteKeeps(s.requests[id], op, GrantOf(s, id));
    forall x | x in s'.requests ensures x < s'.next && RequestOk(s'.requests[x], GrantOf(s', x)) {
      assert x != id ==> GrantOf(s', x) == GrantOf(s, x) && s'.requests[x] == s.requests[x];
    }
  }

  lemma {:induction false} OperateKeeps(s: Store, id: nat, op: Op)
    requires StoreOk(s)
    ensures StoreOk(Operate(s, id, op).0)
  {
    if id in s.requests && Reject(s.requests[id], op) == None {
      SucceedKeepsLog(s, id, op);
      SucceedKeepsRows(s, id, op);
    }
  }

  // ---- Runs -----------------------------------------------------------------------------

  datatype Command = New(spec: Spec, stamp: string) | On(id: nat, op: Op)

  /** A row whose class text is no action class would raise; `Always` says there is none. */
  function Step(s: Store, c: Command): Store {
    match c
    case New(spec, stamp) => Insert(s, spec, stamp)
    case On(id, op) =>
      if id in s.requests && ClassOf(s.requests[id].classText).None? then s else Operate(s, id, op).0
  }

  function After(cs: seq<Command>): Store {
    if cs == [] then EMPTY else Step(After(cs[..|cs| - 1]), cs[|cs| - 1])
  }

  lemma {:induction false} Always(cs: seq<Command>)
    ensures StoreOk(After(cs))
  {
    if cs != [] {
      var s, c := After(cs[..|cs| - 1]), cs[|cs| - 1];
      Always(cs[..|cs| - 1]);
      match c
      case New(spec, stamp) => CreateKeeps(s, spec, stamp);
      case On(id, op) => OperateKeeps(s, id, op);
    }
  }

  /** Command k of the run is an approval of the request, and it went through. */
  predicate ApprovedAt(cs: seq<Command>, k: nat, id: nat, record: ApprovalRecord)
    requires k < |cs|
  {
    var s := After(cs[..k]);
    && cs[k] == On(id, Approve(record))
    && id in s.requests && ClassOf(s.requests[id].classText).Some? && Reject(s.requests[id], Approve(record)) == None
  }

  lemma {:induction false} GrantIsAnApproval(cs: seq<Command>, id: nat)
    requires id in After(cs).granted
    ensures exists k | 0 <= k < |cs| :: ApprovedAt(cs, k, id, After(cs).granted[id])
  {
    var n := |cs| - 1;
    var s, c := After(cs[..n]), cs[n];
    if c.On? && c.id == id && c.op.Approve? && After(cs) != s && After(cs).granted[id] == c.op.record && id in s.requests
       && Reject(s.requests[id], c.op) == None {
      assert ApprovedAt(cs, n, id, c.op.record);
    } else {
      assert id in s.granted && s.granted[id] == After(cs).granted[id];
      GrantIsAnApproval(cs[..n], id);
      var k :| 0 <= k < n && ApprovedAt(cs[..n], k, id, s.granted[id]);
      assert cs[..n][..k] == cs[..k];
      assert ApprovedAt(cs, k, id, s.granted[id]);
    }
  }

  /** Main result: a request past the approval gate that is not read-only went through `approve`
      with a record then unexpired, of its class, covering every target it has stored, and with
      two approvers if it is RC-4; and its row names that record. */
  lemma {:induction false} NoneWithoutApproval(cs: seq<Command>, id: nat)
    requires id in After(cs).requests && ClassOf(After(cs).requests[id].classText).Some?
    requires RiskOf(After(cs).requests[id]) != RC1
    requires After(cs).requests[id].status in {Approved, Executing, Completed, Failed}
    ensures exists k, record | 0 <= k < |cs| ::
              ApprovedAt(cs, k, id, record) && Warrants(record, After(cs).requests[id])
              && After(cs).requests[id].recordId == Some(record.id)
  {
    Always(cs);
    assert RequestOk(After(cs).requests[id], GrantOf(After(cs), id));
    GrantIsAnApproval(cs, id);
  }

  /** Read-only requests are never approved by anyone: they are born approved. */
  lemma {:induction false} ReadOnlyNeedsNone(cs: seq<Command>, id: nat)
    requires id in After(cs).requests
    ensures ClassOf(After(cs).requests[id].classText).Some?
    ensures RiskOf(After(cs).requests[id]) == RC1 ==>
              id !in After(cs).granted && !After(cs).requests[id].status.Pending? && !After(cs).requests[id].status.Denied?
  {
    Always(cs);
    assert RequestOk(After(cs).requests[id], GrantOf(After(cs), id));
  }

  lemma {:induction false} AfterMore(cs: seq<Command>, more: seq<Command>)
    requires more != []
    ensures After(cs + more) == Step(After(cs + more[..|more| - 1]), more[|more| - 1])
  {
    assert (cs + more)[..|cs + more| - 1] == cs + more[..|more| - 1];
  }

  function Rank(s: Status): nat {
    match s case Pending => 0 case Approved => 1 case Executing => 2 case _ => 3
  }

  lemma {:induction false} StepForward(s: Store, c: Command, id: nat)
    requires StoreOk(s) && id in s.requests
    ensures id in Step(s, c).requests
    ensures Onward(s.requests[id], Step(s, c).requests[id])
  {
    if c.On? && c.id == id {
      RewriteOnward(s.requests[id], c.op);
    }
  }

  predicate Onward(req: Request, req': Request) {
    Frozen(req, req') && (req' == req || Rank(req.status) < Rank(req'.status))
  }

  lemma {:induction false} RewriteOnward(req: Request, op: Op)
    ensures Onward(req, req)
    ensures ClassOf(req.classText).Some? && Reject(req, op) == None ==> Onward(req, Rewrite(req, op))
  {
    RewriteFrozen(req, op);
  }

  /** Main result: whatever happens later, a request keeps its class, targets and snapshot flag;
      its status only moves forward, and once terminal the row never changes again. */
  lemma {:induction false} OnlyForward(cs: seq<Command>, more: seq<Command>, id: nat)
    requires id in After(cs).requests
    ensures id in After(cs + more).requests
    ensures Onward(After(cs).requests[id], After(cs + more).requests[id])
    ensures Terminal(After(cs).requests[id].status) ==> After(cs + more).requests[id] == After(cs).requests[id]
    decreases |more|
  {
    if more == [] {
      assert cs + more == cs;
    } else {
      var rest, c := more[..|more| - 1], more[|more| - 1];
      AfterMore(cs, more);
      OnlyForward(cs, rest, id);
      Always(cs + rest);
      StepForward(After(cs + rest), c, id);
    }
  }

  /** Main result: each completed request has exactly one change-log row, each row belongs to a
      completed request, and the row names the approval its request was granted under. */
  lemma {:induction false} LogMatchesCompletions(cs: seq<Command>)
    ensures var s := After(cs);
            && (forall id | id in s.requests ::
                  s.requests[id].status == Completed <==> exists i | 0 <= i < |s.changes| :: s.changes[i].request == id)
            && (forall i, j | 0 <= i < j < |s.changes| :: s.changes[i].request != s.changes[j].request)
            && (forall i | 0 <= i < |s.changes| :: s.changes[i].request in s.requests
                                                   && s.changes[i].recordId == s.requests[s.changes[i].request].recordId)
  {
    Always(cs);
    var s := After(cs);
    forall i | 0 <= i < |s.changes| ensures LoggedAs(s, s.changes[i]) { assert s.changes[i] in s.changes; }
    forall id | id in s.requests && s.requests[id].status == Completed
      ensures exists i | 0 <= i < |s.changes| :: s.changes[i].request == id
    {
      var c :| c in s.changes && c.request == id;
      var i :| 0 <= i < |s.changes| && s.changes[i] == c;
    }
  }

  /** The D-006 denial of `begin_execution` never happens. */
  lemma {:induction false} SnapshotNeverMissing(cs: seq<Command>, id: nat)
    requires id in After(cs).requests
    ensures ClassOf(After(cs).requests[id].classText).Some?
    ensures Reject(After(cs).requests[id], Begin) != Some(SnapshotMissing)
  {
    Always(cs);
    assert RequestOk(After(cs).requests[id], GrantOf(After(cs), id));
  }

  /** Main result: a request that needs approval and was created under a record is then approved
      with that same record exactly when the record lists every target: `create` reads an empty
      scope as covering everything, `approve` does not. */
  lemma {:induction false} CreateThenApprove(s: Store, spec: Spec, stamp: string)
    requires StoreOk(s) && PolicyFor(spec.action).risk != RC1 && Admissible(ContextOf(spec))
    ensures var s' := Insert(s, spec, stamp);
            && s.next in s'.requests && ClassOf(s'.requests[s.next].classText).Some?
            && (Operate(s', s.next, Approve(spec.record.value)).1.success <==> spec.targets <= spec.record.value.scope)
            && (!Operate(s', s.next, Approve(spec.record.value)).1.success ==> spec.record.value.scope == {} != spec.targets)
  {
    CodeRoundTrip(spec.action);
    var req := NewRequest(spec, stamp);
    var record := spec.record.value;
    assert TargetIds(req) == spec.targets;
    assert Covers(record, SortedKeys(spec.targets));
    if record.scope != {} && spec.targets != {} {
      var t :| t in spec.targets;
      assert t in SortedKeys(spec.targets);
    }
  }

  /** A request to trigger an agent run on one target, created under a record with an empty scope: the
      same record is then refused. */
  lemma {:induction false} EmptyScopeRefused(s: Store, target: string, stamp: string)
    requires StoreOk(s)
    ensures var record := ApprovalRecord("A-1", {"ann"}, AgentRunTrigger, {}, false);
            var spec := Spec(AgentRunTrigger, {target}, "bob", "TT-001", Some(EvidenceContract({}, {})), {}, Some(record), false);
            var s' := Insert(s, spec, stamp);
            && s.next in s'.requests && s'.requests[s.next].status == Pending && ClassOf(s'.requests[s.next].classText).Some?
            && !Operate(s', s.next, Approve(record)).1.success
  {
    var record := ApprovalRecord("A-1", {"ann"}, AgentRunTrigger, {}, false);
    var spec := Spec(AgentRunTrigger, {target}, "bob", "TT-001", Some(EvidenceContract({}, {})), {}, Some(record), false);
    assert Covers(record, SortedKeys(spec.targets)) && Admissible(ContextOf(spec));
    CreateThenApprove(s, spec, stamp);
    assert target in spec.targets && target !in record.scope;
  }

  // ---- What a row's status tells ------------------------------------------------------------

  datatype Kind = Approving | Beginning | Completing | Failing | Revoking | Denying

  function KindOf(op: Op): Kind {
    match op
    case Approve(_) => Approving
    case Begin => Beginning
    case Complete(_, _) => Completing
    case Fail(_) => Failing
    case Revoke(_) => Revoking
    case Deny(_) => Denying
  }

  /** The command is an operation on the request and goes through. */
  predicate GoesThrough(s: Store, c: Command, id: nat) {
    c.On? && c.id == id && id in s.requests && ClassOf(s.requests[id].classText).Some? && Operate(s, id, c.op).1.success
  }

  /** The kinds of operation on the request that went through. */
  function Done(cs: seq<Command>, id: nat): set<Kind> {
    if cs == [] then {}
    else
      var before, c := cs[..|cs| - 1], cs[|cs| - 1];
      Done(before, id) + if GoesThrough(After(before), c, id) then {KindOf(c.op)} else {}
  }

  lemma {:induction false} DoneAt(cs: seq<Command>, id: nat, kind: Kind) returns (k: nat)
    requires kind in Done(cs, id)
    ensures k < |cs| && GoesThrough(After(cs[..k]), cs[k], id) && KindOf(cs[k].op) == kind
  {
    var n := |cs| - 1;
    if GoesThrough(After(cs[..n]), cs[n], id) && KindOf(cs[n].op) == kind {
      k := n;
    } else {
      k := DoneAt(cs[..n], id, kind);
      assert cs[..n][..k] == cs[..k];
    }
  }

  predicate ReadOnly(req: Request) { ClassOf(req.classText).Some? && RiskOf(req) == RC1 }

  /** What lets a request be executed. */
  function Gate(req: Request): set<Kind> { if ReadOnly(req) then {} else {Approving} }

  predicate Tells(req: Request, done: set<Kind>) {
    match req.status
    case Pending => !ReadOnly(req) && done == {}
    case Denied => !ReadOnly(req) && done == {Denying}
    case Approved => done == Gate(req)
    case Revoked => done == {Revoking} || done == Gate(req) + {Revoking}
    case Executing => done == Gate(req) + {Beginning}
    case Completed => done == Gate(req) + {Beginning, Completing}
    case Failed => done == Gate(req) + {Beginning, Failing}
  }

  lemma {:induction false} RewriteTells(req: Request, op: Op, done: set<Kind>)
    requires ClassOf(req.classText).Some? && Reject(req, op) == None && Tells(req, done)
    requires ReadOnly(req) ==> !req.status.Pending?
    ensures Tells(Rewrite(req, op), done + {KindOf(op)})
  {
    var req' := Rewrite(req, op);
    assert req'.classText == req.classText;
    assert Gate(req') == Gate(req) && ReadOnly(req') == ReadOnly(req);
    match op
    case Approve(_) => assert {} + {Approving} == {Approving};
    case Complete(_, _) => assert Gate(req) + {Beginning} + {Completing} == Gate(req) + {Beginning, Completing};
    case Fail(_) => assert Gate(req) + {Beginning} + {Failing} == Gate(req) + {Beginning, Failing};
    case _ =>
  }

  /** Any command that moves a row it finds is an operation that goes through. */
  lemma {:induction false} StepTells(s: Store, c: Command, id: nat, done: set<Kind>)
    requires StoreOk(s) && id in s.requests && Tells(s.requests[id], done)
    ensures id in Step(s, c).requests
    ensures Tells(Step(s, c).requests[id], done + if GoesThrough(s, c, id) then {KindOf(c.op)} else {})
  {
    if GoesThrough(s, c, id) {
      Moves(s, c, id);
      RewriteTells(s.requests[id], c.op, done);
    } else {
      StaysPut(s, c, id);
      assert done + {} == done;
    }
  }

  lemma {:induction false} Moves(s: Store, c: Command, id: nat)
    requires StoreOk(s) && GoesThrough(s, c, id)
    ensures Reject(s.requests[id], c.op) == None && (ReadOnly(s.requests[id]) ==> !s.requests[id].status.Pending?)
    ensures id in Step(s, c).requests && Step(s, c).requests[id] == Rewrite(s.requests[id], c.op)
  {
    assert RequestOk(s.requests[id], GrantOf(s, id));
  }

  lemma {:induction false} StaysPut(s: Store, c: Command, id: nat)
    requires StoreOk(s) && id in s.requests && !GoesThrough(s, c, id)
    ensures id in Step(s, c).requests && Step(s, c).requests[id] == s.requests[id]
  {
    assert RequestOk(s.requests[id], GrantOf(s, id));
  }

  lemma {:induction false} NewTells(s: Store, c: Command, id: nat)
    requires StoreOk(s) && id !in s.requests && id in Step(s, c).requests
    ensures c.New? && Tells(Step(s, c).requests[id], {})
  {
    if c.New? { CodeRoundTrip(c.spec.action); }
  }

  lemma {:induction false} NothingDoneYet(cs: seq<Command>, id: nat)
    ensures id !in After(cs).requests ==> Done(cs, id) == {}
  {
    if cs != [] { NothingDoneYet(cs[..|cs| - 1], id); }
  }

  /** Main result: the status of a row tells exactly which operations on it went through. One that is
      executing, completed or failed began; one that began was approved, unless it is read-only. */
  lemma {:induction false} StatusTells(cs: seq<Command>, id: nat)
    requires id in After(cs).requests
    ensures Tells(After(cs).requests[id], Done(cs, id))
  {
    var before, c := cs[..|cs| - 1], cs[|cs| - 1];
    Always(before);
    if id in After(before).requests {
      StatusTells(before, id);
      StepTells(After(before), c, id, Done(before, id));
    } else {
      NothingDoneYet(before, id);
      NewTells(After(before), c, id);
    }
  }

  /** What an operation takes, by what went through before. */
  predicate MayGo(req: Request, op: Op, done: set<Kind>) {
    match op
    case Approve(record) =>
      && !ReadOnly(req) && done == {}
      && !record.expired && Some(record.covers) == ClassOf(req.classText) && TargetIds(req) <= record.scope
      && (ClassOf(req.classText) in {Some(SchemaMigration), Some(BulkRegistryImport)} ==> |record.approvers| >= 2)
    case Deny(_) => !ReadOnly(req) && done == {}
    case Begin => done == Gate(req)
    case Complete(_, _) => done == Gate(req) + {Beginning}
    case Fail(_) => done == Gate(req) + {Beginning}
    case Revoke(_) => done <= {Approving}
  }

  lemma {:induction false} RejectsExactly(req: Request, granted: Option<ApprovalRecord>, op: Op, done: set<Kind>)
    requires RequestOk(req, granted) && Tells(req, done)
    ensures Reject(req, op) == None <==> MayGo(req, op, done)
  {
    assert Beginning in Gate(req) + {Beginning} && Beginning !in Gate(req);
    match op
    case Approve(record) => TableByColumn(ClassOf(req.classText).value);
    case Complete(_, _) => assert Completing !in Gate(req) + {Beginning} && Failing !in Gate(req) + {Beginning};
    case Fail(_) => assert Completing !in Gate(req) + {Beginning} && Failing !in Gate(req) + {Beginning};
    case _ =>
  }

  /** Main result: when each operation on a row succeeds, by what went through before. */
  lemma {:induction false} SucceedsExactly(cs: seq<Command>, id: nat, op: Op)
    requires id in After(cs).requests
    ensures ClassOf(After(cs).requests[id].classText).Some?
    ensures Operate(After(cs), id, op).1.success <==> MayGo(After(cs).requests[id], op, Done(cs, id))
  {
    Always(cs);
    StatusTells(cs, id);
    RejectsExactly(After(cs).requests[id], GrantOf(After(cs), id), op, Done(cs, id));
  }

  /** A request that is executing, completed or failed has a step of the run at which `begin_execution`
      took it out of approved, with its snapshot if it is RC-4. */
  lemma {:induction false} NoneWithoutBegin(cs: seq<Command>, id: nat) returns (k: nat)
    requires id in After(cs).requests && After(cs).requests[id].status in {Executing, Completed, Failed}
    ensures k < |cs| && cs[k] == On(id, Begin) && id in After(cs[..k]).requests
    ensures BeginsWell(After(cs[..k]).requests[id])
    ensures id in After(cs[..k + 1]).requests && After(cs[..k + 1]).requests[id].status == Executing
  {
    StatusTells(cs, id);
    k := DoneAt(cs, id, Beginning);
    Always(cs[..k]);
    BeginStep(After(cs[..k]), cs[k], id);
    assert cs[..k + 1][..k] == cs[..k];
    assert After(cs[..k + 1]) == Step(After(cs[..k]), cs[k]);
  }

  lemma {:induction false} BeginStep(s: Store, c: Command, id: nat)
    requires StoreOk(s) && GoesThrough(s, c, id) && KindOf(c.op) == Beginning
    ensures c == On(id, Begin) && BeginsWell(s.requests[id])
    ensures id in Step(s, c).requests && Step(s, c).requests[id].status == Executing
  {
    Moves(s, c, id);
  }

  predicate BeginsWell(req: Request) {
    req.status == Approved && ClassOf(req.classText).Some? && (RiskOf(req) == RC4 ==> HasSnapshot(req))
  }

  /** What ends a request is on record: in its scope, or in the change log. */
  predicate OnRecord(s: Store, id: nat, op: Op)
    requires id in s.requests
  {
    var req := s.requests[id];
    match op
    case Fail(reason) => "failure_reason" in req.scope && req.scope["failure_reason"] == Text(reason)
    case Revoke(reason) => "revocation_reason" in req.scope && req.scope["revocation_reason"] == Text(reason)
    case Deny(reason) => "denial_reason" in req.scope && req.scope["denial_reason"] == Text(reason)
    case Complete(outcome, changedBy) => ChangeLog("CL-" + req.code, id, req.recordId, outcome, changedBy) in s.changes
    case _ => false
  }

  lemma {:induction false} RecordStays(s: Store, c: Command, id: nat, op: Op)
    requires StoreOk(s) && id in s.requests && Terminal(s.requests[id].status) && OnRecord(s, id, op)
    ensures id in Step(s, c).requests && OnRecord(Step(s, c), id, op)
  {
    StaysPut(s, c, id);
    if c.On? { assert s.changes <= Step(s, c).changes; }
  }

  lemma {:induction false} RecordMade(s: Store, c: Command, id: nat)
    requires StoreOk(s) && id in s.requests && !Terminal(s.requests[id].status)
    requires id in Step(s, c).requests && Terminal(Step(s, c).requests[id].status)
    ensures GoesThrough(s, c, id) && OnRecord(Step(s, c), id, c.op)
  {
    if !GoesThrough(s, c, id) { StaysPut(s, c, id); }
  }

  /** Main result: a terminal request shows the reason, or the outcome and its author, of the command that
      ended it. */
  lemma {:induction false} EndIsOnRecord(cs: seq<Command>, id: nat) returns (k: nat)
    requires id in After(cs).requests && Terminal(After(cs).requests[id].status)
    ensures k < |cs| && GoesThrough(After(cs[..k]), cs[k], id) && OnRecord(After(cs), id, cs[k].op)
  {
    var n := |cs| - 1;
    var s, c := After(cs[..n]), cs[n];
    Always(cs[..n]);
    if id in s.requests && Terminal(s.requests[id].status) {
      k := EndIsOnRecord(cs[..n], id);
      assert cs[..n][..k] == cs[..k];
      RecordStays(s, c, id, cs[k].op);
    } else {
      if id !in s.requests { NewTells(s, c, id); }
      RecordMade(s, c, id);
      k := n;
    }
  }

  /** A new row holds what was asked for: no row appears but for an admissible request. */
  lemma {:induction false} StoredAsGiven(s: Store, spec: Spec, stamp: string)
    requires StoreOk(s)
    ensures var s' := Insert(s, spec, stamp);
            && (s' != s <==> Admissible(ContextOf(spec)))
            && (s' != s ==>
                  && s'.requests.Keys == s.requests.Keys + {s.next}
                  && var req := s'.requests[s.next];
                     && ClassOf(req.classText) == Some(spec.action) && TargetIds(req) == spec.targets
                     && HasSnapshot(req) == spec.snapshotExists && req.code == "REQ-" + req.classText + "-" + stamp
                     && "requested_by" in req.scope && req.scope["requested_by"] == Text(spec.requestedBy)
                     && "task_type_code" in req.scope && req.scope["task_type_code"] == Text(spec.taskType)
                     && req.recordId == (if spec.record.Some? then Some(spec.record.value.id) else None)
                     && req.status == (if spec.action in {RegistryRead, DocumentValidationRun} then Approved else Pending))
  {
    CodeRoundTrip(spec.action);
  }

  // ---- The workflow object ------------------------------------------------------------------

  class ActionWorkflow {
    var requests: map<nat, Request>
    var changes: seq<ChangeLog>
    var next: nat
    ghost var granted: map<nat, ApprovalRecord>

    ghost function Contents(): Store reads this { Store(requests, changes, next, granted) }

    ghost predicate Valid() reads this { StoreOk(Contents()) }

    constructor ()
      ensures Valid() && Contents() == EMPTY
    {
      requests, changes, next, granted := map[], [], 0, map[];
    }

    method Create(spec: Spec, stamp: string) returns (r: Result)
      requires Valid()
      modifies this
      ensures Valid() && Contents() == Insert(old(Contents()), spec, stamp)
      ensures r.success <==> Admissible(ContextOf(spec))
      ensures r.success ==> r.status == Some(requests[old(next)].status) && r.reasons == [] && r.id == Some(old(next))
      ensures !r.success ==> r.status == Some(Denied) && r.id == None
                             && forall d :: PolicyDenies(d) in r.reasons <==> Violates(ContextOf(spec), d)
    {
      CreateKeeps(Contents(), spec, stamp);
      var denied, reasons := Check(ContextOf(spec));
      if denied {
        return Result(false, Some(Denied), Denials(reasons), None);
      }
      var req := NewRequest(spec, stamp);
      r := Result(true, Some(req.status), [], Some(next));
      requests, next := requests[next := req], next + 1;
    }

    method Approve(id: nat, record: ApprovalRecord) returns (r: Result)
      requires Valid()
      modifies this
      ensures Valid() && (Contents(), r) == Operate(old(Contents()), id, Op.Approve(record))
    {
      OperateKeeps(Contents(), id, Op.Approve(record));
      if id !in requests { return Result(false, None, [NotFound], None); }
      var req := requests[id];
      assert RequestOk(req, GrantOf(Contents(), id));
      if Terminal(req.status) { return Result(false, Some(req.status), [AlreadyTerminal(req.status)], None); }
      if req.status != Pending { return Result(false, Some(req.status), [InvalidTransition(req.status)], None); }
      if record.expired { return Result(false, Some(req.status), [RecordExpired], None); }
      var action := ClassOf(req.classText).value;
      if record.covers != action { return Result(false, Some(req.status), [RecordWrongClass], None); }
      if !(TargetIds(req) <= record.scope) { return Result(false, Some(req.status), [ScopeTooSmall], None); }
      if PolicyFor(action).risk == RC4 {
        var short := CheckQuorum(Context(action, None, {}, SortedKeys(TargetIds(req)), Some(record), false));
        if short != [] { return Result(false, Some(req.status), [PolicyDenies(short[0])], None); }
      }
      requests := requests[id := req.(recordId := Some(record.id), status := Approved)];
      granted := granted[id := record];
      r := Result(true, Some(Approved), [], Some(id));
    }

    method BeginExecution(id: nat) returns (r: Result)
      requires Valid()
      modifies this
      ensures Valid() && (Contents(), r) == Operate(old(Contents()), id, Begin)
    {
      OperateKeeps(Contents(), id, Begin);
      if id !in requests { return Result(false, None, [NotFound], None); }
      var req := requests[id];
      assert RequestOk(req, GrantOf(Contents(), id));
      if Terminal(req.status) { return Result(false, Some(req.status), [AlreadyTerminal(req.status)], None); }
      if req.status != Approved { return Result(false, Some(req.status), [InvalidTransition(req.status)], None); }
      if PolicyFor(ClassOf(req.classText).value).risk == RC4 {
        if !HasSnapshot(req) { return Result(false, Some(req.status), [SnapshotMissing], None); }
      }
      requests := requests[id := req.(status := Executing)];
      r := Result(true, Some(Executing), [], Some(id));
    }

    method Complete(id: nat, outcome: string, changedBy: string) returns (r: Result)
      requires Valid()
      modifies this
      ensures Valid() && (Contents(), r) == Operate(old(Contents()), id, Op.Complete(outcome, changedBy))
    {
      OperateKeeps(Contents(), id, Op.Complete(outcome, changedBy));
      if id !in requests { return Result(false, None, [NotFound], None); }
      var req := requests[id];
      assert RequestOk(req, GrantOf(Contents(), id));
      if Terminal(req.status) { return Result(false, Some(req.status), [AlreadyTerminal(req.status)], None); }
      if req.status != Executing { return Result(false, Some(req.status), [InvalidTransition(req.status)], None); }
      requests := requests[id := req.(status := Completed)];
      changes := changes + [ChangeLog("CL-" + req.code, id, req.recordId, outcome, changedBy)];
      r := Result(true, Some(Completed), [], Some(id));
    }

    method Fail(id: nat, reason: string) returns (r: Result)
      requires Valid()
      modifies this
      ensures Valid() && (Contents(), r) == Operate(old(Contents()), id, Op.Fail(reason))
    {
      OperateKeeps(Contents(), id, Op.Fail(reason));
      if id !in requests { return Result(false, None, [NotFound], None); }
      var req := requests[id];
      assert RequestOk(req, GrantOf(Contents(), id));
      if Terminal(req.status) { return Result(false, Some(req.status), [AlreadyTerminal(req.status)], None); }
      if req.status != Executing { return Result(false, Some(req.status), [InvalidTransition(req.status)], None); }
      requests := requests[id := req.(status := Failed, scope := req.scope["failure_reason" := Text(reason)])];
      r := Result(true, Some(Failed), [], Some(id));
    }

    method Revoke(id: nat, reason: string) returns (r: Result)
      requires Valid()
      modifies this
      ensures Valid() && (Contents(), r) == Operate(old(Contents()), id, Op.Revoke(reason))
    {
      OperateKeeps(Contents(), id, Op.Revoke(reason));
      if id !in requests { return Result(false, None, [NotFound], None); }
      var req := requests[id];
      assert RequestOk(req, GrantOf(Contents(), id));
      if Terminal(req.status) { return Result(false, Some(req.status), [AlreadyTerminal(req.status)], None); }
      if req.status == Executing { return Result(false, Some(req.status), [InvalidTransition(req.status)], None); }
      requests := requests[id := req.(status := Revoked, scope := req.scope["revocation_reason" := Text(reason)])];
      r := Result(true, Some(Revoked), [], Some(id));
    }

    method Deny(id: nat, reason: string) returns (r: Result)
      requires Valid()
      modifies this
      ensures Valid() && (Contents(), r) == Operate(old(Contents()), id, Op.Deny(reason))
    {
      OperateKeeps(Contents(), id, Op.Deny(reason));
      if id !in requests { return Result(false, None, [NotFound], None); }
      var req := requests[id];
      assert RequestOk(req, GrantOf(Contents(), id));
      if Terminal(req.status) { return Result(false, Some(req.status), [AlreadyTerminal(req.status)], None); }
      if req.status != Pending { return Result(false, Some(req.status), [InvalidTransition(req.status)], None); }
      requests := requests[id := req.(status := Denied, scope := req.scope["denial_reason" := Text(reason)])];
      r := Result(true, Some(Denied), [], Some(id));
    }
  }
}
