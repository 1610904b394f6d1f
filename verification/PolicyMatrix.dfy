/** The policy table for governed actions and the deny-by-default check over it. */
module PolicyMatrix {

  import opened Common

  datatype ActionClass =
    | RegistryRead | DocumentValidationRun | RegistryEntityCreate | RegistryEntityUpdate | DiscoveryRun
    | DocumentCreate | DocumentUpdate | SchemaMigration | AgentRunTrigger | BulkRegistryImport

  datatype Evidence =
    | CanonicalDoc | RegistryHost | RegistryService | RegistryApplication | RegistryOwnership | EvidenceArtifact
    | ObservedFact | TaxonomyTerm | SchemaEntity | ChunkLexical | ChunkSemantic

  datatype Policy = Policy(risk: RiskClass, mandatory: set<Evidence>, approval: bool, quorum: bool, snapshot: bool)

  function PolicyFor(c: ActionClass): Policy {
    match c
    case RegistryRead => Policy(RC1, {}, false, false, false)
    case DocumentValidationRun => Policy(RC1, {CanonicalDoc}, false, false, false)
    case RegistryEntityCreate => Policy(RC3, {RegistryOwnership}, true, false, false)
    case RegistryEntityUpdate => Policy(RC3, {RegistryOwnership}, true, false, false)
    case DiscoveryRun => Policy(RC2, {RegistryHost}, true, false, false)
    case DocumentCreate => Policy(RC2, {CanonicalDoc, SchemaEntity, TaxonomyTerm}, true, false, false)
    case DocumentUpdate => Policy(RC2, {CanonicalDoc, SchemaEntity}, true, false, false)
    case SchemaMigration => Policy(RC4, {SchemaEntity, CanonicalDoc}, true, true, true)
    case AgentRunTrigger => Policy(RC2, {}, true, false, false)
    case BulkRegistryImport => Policy(RC4, {RegistryOwnership, EvidenceArtifact}, true, true, true)
  }

  /** The flags of the table say what the risk classes say. */
  lemma {:induction false} FlagsFollowRisk(c: ActionClass)
    ensures PolicyFor(c).approval <==> PolicyFor(c).risk != RC1
    ensures PolicyFor(c).quorum <==> PolicyFor(c).risk == RC4
    ensures PolicyFor(c).snapshot <==> PolicyFor(c).risk == RC4
  {}

  /** The table read the other way: who is in each risk class, and who needs each kind of evidence. */
  lemma {:induction false} TableByColumn(c: ActionClass)
    ensures PolicyFor(c).risk == RC1 <==> c in {RegistryRead, DocumentValidationRun}
    ensures PolicyFor(c).risk == RC3 <==> c in {RegistryEntityCreate, RegistryEntityUpdate}
    ensures PolicyFor(c).risk == RC4 <==> c in {SchemaMigration, BulkRegistryImport}
    ensures forall e | e in PolicyFor(c).mandatory ::
              e in {CanonicalDoc, SchemaEntity, TaxonomyTerm, RegistryOwnership, RegistryHost, EvidenceArtifact}
    ensures CanonicalDoc in PolicyFor(c).mandatory <==> c in {DocumentValidationRun, DocumentCreate, DocumentUpdate, SchemaMigration}
    ensures SchemaEntity in PolicyFor(c).mandatory <==> c in {DocumentCreate, DocumentUpdate, SchemaMigration}
    ensures TaxonomyTerm in PolicyFor(c).mandatory <==> c == DocumentCreate
    ensures RegistryOwnership in PolicyFor(c).mandatory <==> c in {RegistryEntityCreate, RegistryEntityUpdate, BulkRegistryImport}
    ensures RegistryHost in PolicyFor(c).mandatory <==> c == DiscoveryRun
    ensures EvidenceArtifact in PolicyFor(c).mandatory <==> c == BulkRegistryImport
  {}

  function Code(c: ActionClass): string {
    match c
    case RegistryRead => "AC-001"
    case DocumentValidationRun => "AC-002"
    case RegistryEntityCreate => "AC-003"
    case RegistryEntityUpdate => "AC-004"
    case DiscoveryRun => "AC-005"
    case DocumentCreate => "AC-006"
    case DocumentUpdate => "AC-007"
    case SchemaMigration => "AC-008"
    case AgentRunTrigger => "AC-009"
    case BulkRegistryImport => "AC-010"
  }

  /** `ActionClass(text)`. */
  function ClassOf(text: string): Option<ActionClass> {
    if text == "AC-001" then Some(RegistryRead)
    else if text == "AC-002" then Some(DocumentValidationRun)
    else if text == "AC-003" then Some(RegistryEntityCreate)
    else if text == "AC-004" then Some(RegistryEntityUpdate)
    else if text == "AC-005" then Some(DiscoveryRun)
    else if text == "AC-006" then Some(DocumentCreate)
    else if text == "AC-007" then Some(DocumentUpdate)
    else if text == "AC-008" then Some(SchemaMigration)
    else if text == "AC-009" then Some(AgentRunTrigger)
    else if text == "AC-010" then Some(BulkRegistryImport)
    else None
  }

  lemma {:induction false} CodeRoundTrip(c: ActionClass)
    ensures ClassOf(Code(c)) == Some(c)
  {
    assert Code(c)[3..] == match c
      case RegistryRead => "001" case DocumentValidationRun => "002" case RegistryEntityCreate => "003"
      case RegistryEntityUpdate => "004" case DiscoveryRun => "005" case DocumentCreate => "006"
      case DocumentUpdate => "007" case SchemaMigration => "008" case AgentRunTrigger => "009"
      case BulkRegistryImport => "010";
    assert Code(c)[4] == (if c.BulkRegistryImport? then '1' else '0');
    assert Code(c)[5] == match c
      case RegistryRead => '1' case DocumentValidationRun => '2' case RegistryEntityCreate => '3'
      case RegistryEntityUpdate => '4' case DiscoveryRun => '5' case DocumentCreate => '6'
      case DocumentUpdate => '7' case SchemaMigration => '8' case AgentRunTrigger => '9'
      case BulkRegistryImport => '0';
  }

  // ---- The check -------------------------------------------------------------------

  const MIN_QUORUM_APPROVERS := 2

  datatype ApprovalRecord =
    ApprovalRecord(id: string, approvers: set<string>, covers: ActionClass, scope: set<string>, expired: bool)

  /** The evidence contract looked up for the kind of task; None when there is none. */
  datatype EvidenceContract = EvidenceContract(mandatory: set<Evidence>, disallowed: set<Evidence>)

  datatype Context = Context(action: ActionClass, contract: Option<EvidenceContract>, present: set<Evidence>,
                             targets: seq<string>, record: Option<ApprovalRecord>, snapshotExists: bool)

  datatype Deny =
    | NoContract
    | MandatoryMissing(evidence: Evidence)
    | DisallowedPresent(evidence: Evidence)
    | PolicyEvidenceMissing(evidence: Evidence)
    | NoApproval
    | ApprovalExpired
    | ApprovalWrongClass(covers: ActionClass)
    | OutOfScope(targets: seq<string>)
    | QuorumWithoutRecord
    | QuorumShort(found: nat)
    | NoSnapshot

  function Outside(targets: seq<string>, scope: set<string>): (r: seq<string>)
    ensures forall t :: t in r <==> t in targets && t !in scope
  {
    if targets == [] then []
    else (if targets[0] in scope then [] else [targets[0]]) + Outside(targets[1..], scope)
  }

  predicate Covers(record: ApprovalRecord, targets: seq<string>) {
    record.scope == {} || targets == [] || forall t | t in targets :: t in record.scope
  }

  /** What it takes for each deny reason to be given. */
  predicate Violates(ctx: Context, d: Deny) {
    var policy := PolicyFor(ctx.action);
    var judged := policy.approval && ctx.record.Some?;
    match d
    case NoContract => ctx.contract.None?
    case MandatoryMissing(e) => ctx.contract.Some? && e in ctx.contract.value.mandatory && e !in ctx.present
    case DisallowedPresent(e) => ctx.contract.Some? && e in ctx.contract.value.disallowed && e in ctx.present
    case PolicyEvidenceMissing(e) => e in policy.mandatory && e !in ctx.present
    case NoApproval => policy.approval && ctx.record.None?
    case ApprovalExpired => judged && ctx.record.value.expired
    case ApprovalWrongClass(c) =>
      judged && !ctx.record.value.expired && ctx.record.value.covers == c && c != ctx.action
    case OutOfScope(ts) =>
      judged && !ctx.record.value.expired && ctx.record.value.covers == ctx.action
      && !Covers(ctx.record.value, ctx.targets) && ts == Outside(ctx.targets, ctx.record.value.scope)
    case QuorumWithoutRecord => policy.quorum && ctx.record.None?
    case QuorumShort(n) =>
      policy.quorum && ctx.record.Some? && n == |ctx.record.value.approvers| && n < MIN_QUORUM_APPROVERS
    case NoSnapshot => policy.snapshot && !ctx.snapshotExists
  }

  /** The context the policy lets through, in the terms of the risk classes. */
  predicate Admissible(ctx: Context) {
    var risk := PolicyFor(ctx.action).risk;
    && ctx.contract.Some?
    && ctx.contract.value.mandatory <= ctx.present && ctx.contract.value.disallowed !! ctx.present
    && PolicyFor(ctx.action).mandatory <= ctx.present
    && (risk != RC1 ==> ctx.record.Some? && !ctx.record.value.expired && ctx.record.value.covers == ctx.action
                        && (ctx.record.value.scope == {} || forall t | t in ctx.targets :: t in ctx.record.value.scope))
    && (risk == RC4 ==> |ctx.record.value.approvers| >= 2 && ctx.snapshotExists)
  }

  /** Main result: nothing is violated exactly when the context is admissible. */
  lemma {:induction false} AdmitsExactly(ctx: Context)
    ensures Admissible(ctx) <==> forall d :: !Violates(ctx, d)
  {
    FlagsFollowRisk(ctx.action);
    if forall d :: !Violates(ctx, d) {
      EvidenceInOrder(ctx);
      if PolicyFor(ctx.action).approval { ApprovalInOrder(ctx); }
      if PolicyFor(ctx.action).quorum { QuorumInOrder(ctx); }
    }
    if Admissible(ctx) {
      forall d ensures !Violates(ctx, d) { }
    }
  }

  lemma {:induction false} ApprovalInOrder(ctx: Context)
    requires PolicyFor(ctx.action).approval && forall d :: !Violates(ctx, d)
    ensures ctx.record.Some? && !ctx.record.value.expired && ctx.record.value.covers == ctx.action
    ensures Covers(ctx.record.value, ctx.targets)
  {
    assert !Violates(ctx, NoApproval) && !Violates(ctx, ApprovalExpired);
    var record := ctx.record.value;
    assert !Violates(ctx, ApprovalWrongClass(record.covers));
    assert !Violates(ctx, OutOfScope(Outside(ctx.targets, record.scope)));
  }

  lemma {:induction false} QuorumInOrder(ctx: Context)
    requires PolicyFor(ctx.action).quorum && PolicyFor(ctx.action).snapshot && forall d :: !Violates(ctx, d)
    ensures ctx.record.Some? && |ctx.record.value.approvers| >= MIN_QUORUM_APPROVERS && ctx.snapshotExists
  {
    assert !Violates(ctx, QuorumWithoutRecord) && !Violates(ctx, NoSnapshot);
    assert !Violates(ctx, QuorumShort(|ctx.record.value.approvers|));
  }

  lemma {:induction false} EvidenceInOrder(ctx: Context)
    requires forall d :: !Violates(ctx, d)
    ensures ctx.contract.Some?
    ensures ctx.contract.value.mandatory <= ctx.present && ctx.contract.value.disallowed !! ctx.present
    ensures PolicyFor(ctx.action).mandatory <= ctx.present
  {
    assert !Violates(ctx, NoContract);
    forall e | e in ctx.contract.value.mandatory ensures e in ctx.present { assert !Violates(ctx, MandatoryMissing(e)); }
    forall e | e in ctx.contract.value.disallowed ensures e !in ctx.present { assert !Violates(ctx, DisallowedPresent(e)); }
    forall e | e in PolicyFor(ctx.action).mandatory ensures e in ctx.present {
      assert !Violates(ctx, PolicyEvidenceMissing(e));
    }
  }

  method CheckApproval(ctx: Context) returns (reasons: seq<Deny>)
    requires PolicyFor(ctx.action).approval
    ensures forall d :: d in reasons <==> ApprovalRule(d) && Violates(ctx, d)
  {
    reasons := [];
    if ctx.record.None? { return [NoApproval]; }
    var record := ctx.record.value;
    if record.expired {
      reasons := reasons + [ApprovalExpired];
    } else if record.covers != ctx.action {
      reasons := reasons + [ApprovalWrongClass(record.covers)];
    } else if record.scope != {} && ctx.targets != [] && !forall t | t in ctx.targets :: t in record.scope {
      reasons := reasons + [OutOfScope(Outside(ctx.targets, record.scope))];
    }
  }

  predicate ApprovalRule(d: Deny) { d.NoApproval? || d.ApprovalExpired? || d.ApprovalWrongClass? || d.OutOfScope? }

  method CheckQuorum(ctx: Context) returns (reasons: seq<Deny>)
    ensures PolicyFor(ctx.action).quorum ==> forall d :: d in reasons <==> QuorumRule(d) && Violates(ctx, d)
    ensures ctx.record.Some? ==>
              reasons == if |ctx.record.value.approvers| >= MIN_QUORUM_APPROVERS then []
                         else [QuorumShort(|ctx.record.value.approvers|)]
  {
    reasons := [];
    if ctx.record.None? {
      reasons := [QuorumWithoutRecord];
    } else if |ctx.record.value.approvers| < MIN_QUORUM_APPROVERS {
      reasons := [QuorumShort(|ctx.record.value.approvers|)];
    }
  }

  predicate QuorumRule(d: Deny) { d.QuorumWithoutRecord? || d.QuorumShort? }

  /** One reason per member of `wanted` that is (or is not) present, in no particular order. */
  method EvidenceReasons(wanted: set<Evidence>, ctx: Context, deny: Evidence -> Deny, when: bool)
    returns (reasons: seq<Deny>)
    ensures forall d :: d in reasons <==> exists e :: e in wanted && (e in ctx.present) == when && d == deny(e)
  {
    reasons := [];
    var todo := wanted;
    while todo != {}
      invariant todo <= wanted
      invariant forall d :: d in reasons <==> exists e :: e in wanted - todo && (e in ctx.present) == when && d == deny(e)
      decreases |todo|
    {
      var e :| e in todo;
      ghost var before, left := reasons, todo;
      if (e in ctx.present) == when { reasons := reasons + [deny(e)]; }
      todo := todo - {e};
      assert wanted - todo == (wanted - left) + {e};
    }
  }

  /** The whole check: every violated rule is reported, and nothing else. */
  method Check(ctx: Context) returns (denied: bool, reasons: seq<Deny>)
    ensures forall d :: d in reasons <==> Violates(ctx, d)
    ensures denied <==> !Admissible(ctx)
  {
    var policy := PolicyFor(ctx.action);
    var contractual := [NoContract];
    if ctx.contract.Some? {
      var missing := EvidenceReasons(ctx.contract.value.mandatory, ctx, e => MandatoryMissing(e), false);
      var present := EvidenceReasons(ctx.contract.value.disallowed, ctx, e => DisallowedPresent(e), true);
      contractual := missing + present;
    }
    var evidence := EvidenceReasons(policy.mandatory, ctx, e => PolicyEvidenceMissing(e), false);
    var approval, quorum, snapshot := [], [], [];
    if policy.approval { approval := CheckApproval(ctx); }
    if policy.quorum { quorum := CheckQuorum(ctx); }
    if policy.snapshot && !ctx.snapshotExists { snapshot := [NoSnapshot]; }
    reasons := contractual + evidence + approval + quorum + snapshot;
    forall d ensures d in reasons <==> Violates(ctx, d) { }
    AdmitsExactly(ctx);
    denied := reasons != [];
    if !denied { forall d ensures !Violates(ctx, d) { assert d !in reasons; } }
    else { assert Violates(ctx, reasons[0]); }
  }
}
