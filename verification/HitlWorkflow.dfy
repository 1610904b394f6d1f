/** Human review items: submission, manual and periodic escalation, and decisions. Each UPDATE
    statement is one atomic step; any number of callers and sweeps interleave. */
module HitlWorkflow {

  import opened Common

  // ---- Rows -----------------------------------------------------------------------

  const MAX_ESCALATIONS := 3

  /** The risk_class column: one of the four classes, or any other text, stored as it comes. */
  datatype RiskText = Class(risk: RiskClass) | Other(text: string)

  /** How a submitted text is stored; none means RC-2. */
  function ColumnOf(text: Option<string>): RiskText {
    match text
    case None => Class(RC2)
    case Some(t) =>
      if t == "RC-1" then Class(RC1)
      else if t == "RC-2" then Class(RC2)
      else if t == "RC-3" then Class(RC3)
      else if t == "RC-4" then Class(RC4)
      else Other(t)
  }

  function TextOf(r: RiskText): string {
    match r
    case Class(RC1) => "RC-1"
    case Class(RC2) => "RC-2"
    case Class(RC3) => "RC-3"
    case Class(RC4) => "RC-4"
    case Other(t) => t
  }

  /** A column value for every text, and one text for every column value stored. */
  lemma {:induction false} ColumnKeepsText(text: string)
    ensures TextOf(ColumnOf(Some(text))) == text
    ensures ColumnOf(Some(text)).Other? <==> text !in {"RC-1", "RC-2", "RC-3", "RC-4"}
  {}

  /** Seconds before a sweep escalates an item of the class; None for a class never swept. */
  function Threshold(riskClass: RiskText): Option<int> {
    match riskClass
    case Class(RC4) => Some(900)
    case Class(RC3) => Some(3600)
    case Class(RC2) => Some(14400)
    case _ => None
  }

  function Priority(riskClass: RiskText): string {
    match riskClass
    case Class(RC4) => "critical"
    case Class(RC3) => "high"
    case Class(RC1) => "low"
    case _ => "medium"
  }

  datatype Decision = Approved | Rejected | ApprovedWithModifications | Unknown
  datatype Ruling = Ruling(decision: Decision, decidedBy: string, reason: string)
  datatype Status = Pending | Escalated | Blocked | Decided(decision: Decision)

  datatype Item = Item(riskClass: RiskText, priority: string, createdAt: int, expiresAt: Option<int>,
                       status: Status, escalations: nat, ruling: Option<Ruling>)

  predicate Open(item: Item) { item.status.Pending? || item.status.Escalated? }

  /** `SET escalation_count = escalation_count + 1, status = CASE ...`. */
  function Raise(item: Item): Item {
    item.(escalations := item.escalations + 1,
          status := if item.escalations + 1 >= MAX_ESCALATIONS then Blocked else Escalated)
  }

  /** The WHERE clause of a sweep's UPDATE. */
  predicate Due(item: Item, riskClass: RiskText, cutoff: int) {
    item.riskClass == riskClass && Open(item) && item.createdAt <= cutoff && item.escalations < MAX_ESCALATIONS
  }

  /** The classes with a threshold, in the order a sweep takes them. */
  const SWEPT := [Class(RC4), Class(RC3), Class(RC2)]

  type Table = map<nat, Item>

  function Sweep(items: Table, riskClass: RiskText, cutoff: int): Table {
    map id | id in items :: if Due(items[id], riskClass, cutoff) then Raise(items[id]) else items[id]
  }

  function DueIds(items: Table, riskClass: RiskText, cutoff: int): set<nat> {
    set id | id in items && Due(items[id], riskClass, cutoff)
  }

  // ---- Runs -----------------------------------------------------------------------

  /** `raised` counts every escalation ever reported, by sweeps and by hand. */
  datatype State = State(items: Table, next: nat, raised: nat)

  datatype Step =
    | Submit(risk: Option<string>, now: int)
    | Escalate(id: nat)
    | SweepClass(riskClass: RiskText, now: int)
    | Decide(id: nat, ruling: Ruling)

  function NewItem(riskClass: RiskText, now: int): Item {
    Item(riskClass, Priority(riskClass), now,
         if Threshold(riskClass).Some? then Some(now + Threshold(riskClass).value) else None, Pending, 0, None)
  }

  function Swept(s: State, riskClass: RiskText, now: int): State {
    match Threshold(riskClass)
    case None => s
    case Some(t) =>
      State(Sweep(s.items, riskClass, now - t), s.next, s.raised + |DueIds(s.items, riskClass, now - t)|)
  }

  function Next(s: State, step: Step): State {
    match step
    case Submit(risk, now) => State(s.items[s.next := NewItem(ColumnOf(risk), now)], s.next + 1, s.raised)
    case Escalate(id) =>
      if id in s.items && Open(s.items[id]) then State(s.items[id := Raise(s.items[id])], s.next, s.raised + 1) else s
    case SweepClass(riskClass, now) =>
      Swept(s, riskClass, now)
    case Decide(id, ruling) =>
      if id in s.items && Open(s.items[id]) && !ruling.decision.Unknown? then
        s.(items := s.items[id := s.items[id].(status := Decided(ruling.decision), ruling := Some(ruling))])
      else s
  }

  /** The first n statements of a sweep, each with its own clock reading. */
  function SweepAll(s: State, clock: seq<int>, n: nat): State
    requires n <= |SWEPT| == |clock|
  {
    if n == 0 then s else Next(SweepAll(s, clock, n - 1), SweepClass(SWEPT[n - 1], clock[n - 1]))
  }

  const START := State(map[], 0, 0)

  function After(steps: seq<Step>): State {
    if steps == [] then START else Next(After(steps[..|steps| - 1]), steps[|steps| - 1])
  }

  // ---- What every run keeps --------------------------------------------------------------

  /** Status, count and ruling agree. */
  predicate ItemOk(item: Item) {
    && item.escalations <= MAX_ESCALATIONS
    && (item.status.Pending? <==> item.escalations == 0 && item.ruling.None?)
    && (item.status.Escalated? <==> 1 <= item.escalations <= 2 && item.ruling.None?)
    && (item.status.Blocked? <==> item.escalations == 3)
    && (item.status.Decided? ==> item.ruling.Some? && item.ruling.value.decision == item.status.decision)
    && (item.ruling.Some? ==> item.status.Decided?)
    && item.expiresAt == (if Threshold(item.riskClass).Some?
                          then Some(item.createdAt + Threshold(item.riskClass).value) else None)
  }

  function Total(items: Table, n: nat): nat {
    if n == 0 then 0 else Total(items, n - 1) + if n - 1 in items then items[n - 1].escalations else 0
  }

  ghost predicate Numbered(items: Table, n: nat) { forall id: nat :: id in items <==> id < n }

  ghost predicate StateOk(s: State) {
    && Numbered(s.items, s.next)
    && (forall id | id in s.items :: ItemOk(s.items[id]))
    && s.raised == Total(s.items, s.next)
  }

  lemma {:induction false} TotalSame(before: Table, after: Table, n: nat)
    requires forall id | 0 <= id < n ::
               (id in before <==> id in after) && (id in before ==> before[id].escalations == after[id].escalations)
    ensures Total(before, n) == Total(after, n)
  {
    if n > 0 { TotalSame(before, after, n - 1); }
  }

  lemma {:induction false} TotalRaised(items: Table, id: nat, n: nat)
    requires id in items && id < n
    ensures Total(items[id := Raise(items[id])], n) == Total(items, n) + 1
  {
    if id == n - 1 {
      TotalSame(items, items[id := Raise(items[id])], n - 1);
    } else {
      TotalRaised(items, id, n - 1);
    }
  }

  /** The row count of a sweep is what it adds to the sum of the escalation counts. */
  lemma {:induction false} TotalSwept(items: Table, riskClass: RiskText, cutoff: int, n: nat)
    ensures Total(Sweep(items, riskClass, cutoff), n)
         == Total(items, n) + |set id | id in DueIds(items, riskClass, cutoff) && id < n|
  {
    var due := DueIds(items, riskClass, cutoff);
    if n == 0 {
      assert (set id | id in due && id < 0) == {};
    } else {
      TotalSwept(items, riskClass, cutoff, n - 1);
      var below := set id | id in due && id < n - 1;
      assert (set id | id in due && id < n) == if n - 1 in due then below + {n - 1} else below;
    }
  }

  lemma {:induction false} NewItemOk(riskClass: RiskText, now: int)
    ensures ItemOk(NewItem(riskClass, now))
  {}

  lemma {:induction false} SubmitOk(s: State, risk: Option<string>, now: int)
    requires StateOk(s)
    ensures StateOk(Next(s, Submit(risk, now)))
  {
    var s' := Next(s, Submit(risk, now));
    TotalSame(s.items, s'.items, s.next);
    NewItemOk(ColumnOf(risk), now);
    assert Numbered(s'.items, s'.next);
  }

  lemma {:induction false} EscalateOk(s: State, id: nat)
    requires StateOk(s)
    ensures StateOk(Next(s, Escalate(id)))
  {
    if id in s.items && Open(s.items[id]) { TotalRaised(s.items, id, s.next); }
  }

  lemma {:induction false} SweptRowsOk(items: Table, riskClass: RiskText, cutoff: int)
    requires forall id | id in items :: ItemOk(items[id])
    ensures var after := Sweep(items, riskClass, cutoff); forall id | id in after :: ItemOk(after[id])
  {
    var after := Sweep(items, riskClass, cutoff);
    forall id | id in after ensures ItemOk(after[id]) { assert ItemOk(items[id]); }
  }

  lemma {:induction false} SweepTotal(items: Table, riskClass: RiskText, cutoff: int, n: nat)
    requires forall id | id in items :: id < n
    ensures Total(Sweep(items, riskClass, cutoff), n) == Total(items, n) + |DueIds(items, riskClass, cutoff)|
  {
    TotalSwept(items, riskClass, cutoff, n);
    assert (set id | id in DueIds(items, riskClass, cutoff) && id < n) == DueIds(items, riskClass, cutoff);
  }

  lemma {:induction false} SweepOk(s: State, riskClass: RiskText, now: int)
    requires StateOk(s)
    ensures StateOk(Swept(s, riskClass, now))
  {
    match Threshold(riskClass)
    case None =>
    case Some(t) => SweptStateOk(s, riskClass, now - t, Sweep(s.items, riskClass, now - t));
  }

  lemma {:induction false} SweptStateOk(s: State, riskClass: RiskText, cutoff: int, after: Table)
    requires StateOk(s) && after == Sweep(s.items, riskClass, cutoff)
    ensures StateOk(State(after, s.next, s.raised + |DueIds(s.items, riskClass, cutoff)|))
  {
    SweepTotal(s.items, riskClass, cutoff, s.next);
    SweptRowsOk(s.items, riskClass, cutoff);
    assert after.Keys == s.items.Keys;
    assert Numbered(after, s.next);
  }

  lemma {:induction false} DecideOk(s: State, id: nat, ruling: Ruling)
    requires StateOk(s)
    ensures StateOk(Next(s, Decide(id, ruling)))
  {
    var s' := Next(s, Decide(id, ruling));
    TotalSame(s.items, s'.items, s.next);
    if id in s.items { assert ItemOk(s.items[id]) && ItemOk(s'.items[id]); }
  }

  lemma {:induction false} NextOk(s: State, step: Step)
    requires StateOk(s)
    ensures StateOk(Next(s, step))
  {
    match step
    case Submit(risk, now) => SubmitOk(s, risk, now);
    case Escalate(id) => EscalateOk(s, id);
    case SweepClass(riskClass, now) => SweepOk(s, riskClass, now);
    case Decide(id, ruling) => DecideOk(s, id, ruling);
  }

  lemma {:induction false} TotalBounded(items: Table, n: nat)
    requires forall id | id in items :: ItemOk(items[id])
    ensures Total(items, n) <= MAX_ESCALATIONS * n
  {
    if n > 0 { TotalBounded(items, n - 1); }
  }

  /** Main result: on every run status and count agree on every item, and all the escalations ever
      reported are the counts on the rows: three an item at most. */
  lemma {:induction false} AlwaysOk(steps: seq<Step>)
    ensures StateOk(After(steps))
    ensures After(steps).raised <= MAX_ESCALATIONS * After(steps).next
  {
    if steps != [] {
      AlwaysOk(steps[..|steps| - 1]);
      NextOk(After(steps[..|steps| - 1]), steps[|steps| - 1]);
      TotalBounded(After(steps).items, After(steps).next);
    }
  }

  lemma {:induction false} AfterMore(steps: seq<Step>, more: seq<Step>)
    requires more != []
    ensures After(steps + more) == Next(After(steps + more[..|more| - 1]), more[|more| - 1])
  {
    assert (steps + more)[..|steps + more| - 1] == steps + more[..|more| - 1];
  }

  lemma {:induction false} StaysClosed(s: State, step: Step, id: nat)
    requires StateOk(s) && id in s.items && !Open(s.items[id])
    ensures id in Next(s, step).items && Next(s, step).items[id] == s.items[id]
  {}

  /** Main result: an item is decided at most once, and never after it was blocked. */
  lemma {:induction false} ClosedForGood(steps: seq<Step>, more: seq<Step>, id: nat)
    requires id in After(steps).items && !Open(After(steps).items[id])
    ensures id in After(steps + more).items && After(steps + more).items[id] == After(steps).items[id]
    decreases |more|
  {
    if more == [] {
      assert steps + more == steps;
    } else {
      var rest := more[..|more| - 1];
      AfterMore(steps, more);
      ClosedForGood(steps, rest, id);
      AlwaysOk(steps + rest);
      StaysClosed(After(steps + rest), more[|more| - 1], id);
    }
  }

  // ---- Sweeps ------------------------------------------------------------------------------

  /** The item's threshold has run out by the time the sweep of its class reads its clock. */
  predicate PastThreshold(step: Step, item: Item) {
    step.SweepClass? && step.riskClass == item.riskClass && Threshold(item.riskClass).Some?
    && item.createdAt <= step.now - Threshold(item.riskClass).value
  }

  function Sweeps(steps: seq<Step>, item: Item): nat {
    if steps == [] then 0
    else Sweeps(steps[..|steps| - 1], item) + if PastThreshold(steps[|steps| - 1], item) then 1 else 0
  }

  /** A sweep raises an item exactly when the item is open and its `expires_at` has passed. */
  lemma {:induction false} SweptWhenExpired(steps: seq<Step>, id: nat, riskClass: RiskText, now: int)
    requires id in After(steps).items
    ensures var s := After(steps);
            var item, after := s.items[id], Next(s, SweepClass(riskClass, now)).items;
            && id in after
            && after[id] == if item.riskClass == riskClass && Open(item) && item.expiresAt.Some? && item.expiresAt.value <= now
                            then Raise(item) else item
  {
    AlwaysOk(steps);
    assert ItemOk(After(steps).items[id]);
  }

  /** Sweeps never touch an item of a class without a threshold, RC-1 among them. */
  lemma {:induction false} NeverSwept(steps: seq<Step>, id: nat, riskClass: RiskText, now: int)
    requires id in After(steps).items && Threshold(After(steps).items[id].riskClass).None?
    ensures var after := Next(After(steps), SweepClass(riskClass, now)).items;
            id in after && after[id] == After(steps).items[id]
    ensures Threshold(Class(RC1)).None?
  {}

  lemma {:induction false} StepRaises(s: State, step: Step, id: nat)
    requires StateOk(s) && id in s.items
    ensures id in Next(s, step).items
    ensures var item, after := s.items[id], Next(s, step).items[id];
            && after.riskClass == item.riskClass && after.createdAt == item.createdAt
            && (Open(after) ==> Open(item) && after.escalations >= item.escalations + if PastThreshold(step, item) then 1 else 0)
  {
    assert ItemOk(s.items[id]);
  }

  lemma {:induction false} SweepsRaise(steps: seq<Step>, more: seq<Step>, id: nat)
    requires id in After(steps).items
    ensures id in After(steps + more).items
    ensures var item, later := After(steps).items[id], After(steps + more).items[id];
            && later.riskClass == item.riskClass && later.createdAt == item.createdAt
            && (Open(later) ==> later.escalations >= item.escalations + Sweeps(more, item))
    decreases |more|
  {
    if more == [] {
      assert steps + more == steps;
    } else {
      var rest, step := more[..|more| - 1], more[|more| - 1];
      AfterMore(steps, more);
      SweepsRaise(steps, rest, id);
      AlwaysOk(steps + rest);
      StepRaises(After(steps + rest), step, id);
      assert PastThreshold(step, After(steps).items[id]) == PastThreshold(step, After(steps + rest).items[id]);
    }
  }

  /** Main result: an item that three sweeps of its class found past its threshold is not open any
      more, whatever was done to it in between: undecided, it is blocked. */
  lemma {:induction false} ThreeSweepsClose(steps: seq<Step>, more: seq<Step>, id: nat)
    requires id in After(steps).items && Sweeps(more, After(steps).items[id]) >= MAX_ESCALATIONS
    ensures id in After(steps + more).items && !Open(After(steps + more).items[id])
    ensures After(steps + more).items[id].ruling.None? ==> After(steps + more).items[id].status == Blocked
  {
    SweepsRaise(steps, more, id);
    AlwaysOk(steps + more);
    assert ItemOk(After(steps + more).items[id]);
  }

  // ---- Whole sweeps ------------------------------------------------------------------------

  /** The item is open and its `expires_at` is not later than the clock reading of its class's UPDATE:
      the first one for RC-4, the second for RC-3, the third for RC-2. */
  predicate Expired(item: Item, clock: seq<int>)
    requires |clock| == 3
  {
    && Open(item) && item.expiresAt.Some?
    && match item.riskClass
       case Class(RC4) => item.expiresAt.value <= clock[0]
       case Class(RC3) => item.expiresAt.value <= clock[1]
       case Class(RC2) => item.expiresAt.value <= clock[2]
       case _ => false
  }

  /** One more escalation; the third blocks the item. */
  function OnceMore(item: Item): Item {
    item.(escalations := item.escalations + 1, status := if item.escalations == 2 then Blocked else Escalated)
  }

  function ExpiredIds(items: Table, clock: seq<int>): set<nat>
    requires |clock| == 3
  {
    set id | id in items && Expired(items[id], clock)
  }

  function RaisedIn(items: Table, ids: set<nat>): Table {
    map id | id in items :: if id in ids then OnceMore(items[id]) else items[id]
  }

  /** The open items of a class that have expired at this moment. */
  function Hits(items: Table, riskClass: RiskText, now: int): set<nat> {
    set id | id in items && items[id].riskClass == riskClass
             && Open(items[id]) && items[id].expiresAt.Some? && items[id].expiresAt.value <= now
  }

  lemma {:induction false} ClassSwept(s: State, riskClass: RiskText, now: int)
    requires StateOk(s) && Threshold(riskClass).Some?
    ensures var hits := Hits(s.items, riskClass, now);
            && StateOk(Next(s, SweepClass(riskClass, now)))
            && Next(s, SweepClass(riskClass, now)) == State(RaisedIn(s.items, hits), s.next, s.raised + |hits|)
  {
    SweepOk(s, riskClass, now);
    RowsSwept(s.items, riskClass, now);
  }

  lemma {:induction false} RowsSwept(items: Table, riskClass: RiskText, now: int)
    requires (forall id | id in items :: ItemOk(items[id])) && Threshold(riskClass).Some?
    ensures var cutoff := now - Threshold(riskClass).value;
            && DueIds(items, riskClass, cutoff) == Hits(items, riskClass, now)
            && Sweep(items, riskClass, cutoff) == RaisedIn(items, Hits(items, riskClass, now))
  {
    forall id | id in items { RowSwept(items[id], riskClass, now); }
  }

  lemma {:induction false} RowSwept(item: Item, riskClass: RiskText, now: int)
    requires ItemOk(item) && Threshold(riskClass).Some?
    ensures Due(item, riskClass, now - Threshold(riskClass).value) <==>
              item.riskClass == riskClass && Open(item) && item.expiresAt.Some? && item.expiresAt.value <= now
    ensures Open(item) ==> Raise(item) == OnceMore(item)
  {}

  lemma {:induction false} HitsKept(items: Table, ids: set<nat>, riskClass: RiskText, now: int)
    requires forall id | id in ids && id in items :: items[id].riskClass != riskClass
    ensures Hits(RaisedIn(items, ids), riskClass, now) == Hits(items, riskClass, now)
  {}

  lemma {:induction false} RaisedTwice(items: Table, a: set<nat>, b: set<nat>)
    requires a !! b
    ensures RaisedIn(RaisedIn(items, a), b) == RaisedIn(items, a + b)
  {}

  lemma {:induction false} ExpiredParts(items: Table, clock: seq<int>, h4: set<nat>, h3: set<nat>, h2: set<nat>)
    requires |clock| == 3 && h4 == Hits(items, Class(RC4), clock[0])
    requires h3 == Hits(items, Class(RC3), clock[1]) && h2 == Hits(items, Class(RC2), clock[2])
    ensures h4 !! h3 && h4 + h3 !! h2 && ExpiredIds(items, clock) == h4 + h3 + h2
    ensures |ExpiredIds(items, clock)| == |h4| + |h3| + |h2|
  {
    forall id | id in items ensures id in h4 + h3 + h2 <==> Expired(items[id], clock) { }
    assert ExpiredIds(items, clock) == h4 + h3 + h2;
    ThreeSizes(h4, h3, h2);
  }

  lemma {:induction false} ThreeSizes(a: set<nat>, b: set<nat>, c: set<nat>)
    requires a !! b && a + b !! c
    ensures |a + b + c| == |a| + |b| + |c|
  {}

  lemma {:induction false} ThreeStatements(s: State, clock: seq<int>)
    requires |clock| == 3
    ensures |SWEPT| == 3
    ensures SweepAll(s, clock, 3) == Next(Next(Next(s, SweepClass(Class(RC4), clock[0])), SweepClass(Class(RC3), clock[1])),
                                          SweepClass(Class(RC2), clock[2]))
  {
    assert SweepAll(s, clock, 1) == Next(s, SweepClass(Class(RC4), clock[0]));
    assert SweepAll(s, clock, 2) == Next(SweepAll(s, clock, 1), SweepClass(Class(RC3), clock[1]));
  }

  /** Main result: a whole sweep raises each expired item exactly once, leaves every other row as it is,
      and counts what it raised. */
  lemma {:induction false} WholeSweep(s: State, clock: seq<int>)
    requires StateOk(s) && |clock| == 3
    ensures |SWEPT| == 3
    ensures var expired := ExpiredIds(s.items, clock);
            SweepAll(s, clock, 3) == State(RaisedIn(s.items, expired), s.next, s.raised + |expired|)
  {
    var h4, h3, h2 := Hits(s.items, Class(RC4), clock[0]), Hits(s.items, Class(RC3), clock[1]), Hits(s.items, Class(RC2), clock[2]);
    ExpiredParts(s.items, clock, h4, h3, h2);
    var s1 := Next(s, SweepClass(Class(RC4), clock[0]));
    ClassSwept(s, Class(RC4), clock[0]);
    HitsKept(s.items, h4, Class(RC3), clock[1]);
    ClassSwept(s1, Class(RC3), clock[1]);
    RaisedTwice(s.items, h4, h3);
    HitsKept(s.items, h4 + h3, Class(RC2), clock[2]);
    ClassSwept(Next(s1, SweepClass(Class(RC3), clock[1])), Class(RC2), clock[2]);
    RaisedTwice(s.items, h4 + h3, h2);
    ThreeStatements(s, clock);
  }

  /** A submitted item by the text of its class. */
  lemma {:induction false} SubmittedByText(risk: Option<string>, now: int)
    ensures var item := NewItem(ColumnOf(risk), now);
            && TextOf(item.riskClass) == (if risk.Some? then risk.value else "RC-2")
            && item.status == Pending && item.escalations == 0 && item.ruling == None && item.createdAt == now
            && (risk == Some("RC-4") ==> item.priority == "critical" && item.expiresAt == Some(now + 900))
            && (risk == Some("RC-3") ==> item.priority == "high" && item.expiresAt == Some(now + 3600))
            && (risk in {None, Some("RC-2")} ==> item.priority == "medium" && item.expiresAt == Some(now + 14400))
            && (risk == Some("RC-1") ==> item.priority == "low" && item.expiresAt == None)
            && (risk !in {None, Some("RC-1"), Some("RC-2"), Some("RC-3"), Some("RC-4")} ==>
                  item.priority == "medium" && item.expiresAt == None)
  {
    if risk.Some? { ColumnKeepsText(risk.value); }
  }

  /** A whole call of `check_escalations` with its three clock readings, or any other step. */
  datatype Act = Check(first: int, second: int, third: int) | One(step: Step)

  function AfterActs(acts: seq<Act>): State {
    if acts == [] then START
    else
      var s := AfterActs(acts[..|acts| - 1]);
      match acts[|acts| - 1]
      case Check(first, second, third) => if |SWEPT| == 3 then SweepAll(s, [first, second, third], 3) else s
      case One(step) => Next(s, step)
  }

  function StepsOf(act: Act): seq<Step> {
    match act
    case Check(first, second, third) =>
      [SweepClass(Class(RC4), first), SweepClass(Class(RC3), second), SweepClass(Class(RC2), third)]
    case One(step) => [step]
  }

  function Flat(acts: seq<Act>): seq<Step> {
    if acts == [] then [] else Flat(acts[..|acts| - 1]) + StepsOf(acts[|acts| - 1])
  }

  lemma {:induction false} FlatMore(acts: seq<Act>, more: seq<Act>)
    ensures Flat(acts + more) == Flat(acts) + Flat(more)
  {
    if more == [] {
      assert acts + more == acts;
    } else {
      var rest, last := more[..|more| - 1], StepsOf(more[|more| - 1]);
      FlatMore(acts, rest);
      assert (acts + more)[..|acts + more| - 1] == acts + rest;
      assert (Flat(acts) + Flat(rest)) + last == Flat(acts) + (Flat(rest) + last);
    }
  }

  lemma {:induction false} AfterOne(steps: seq<Step>, step: Step)
    ensures After(steps + [step]) == Next(After(steps), step)
  {
    assert (steps + [step])[..|steps|] == steps;
  }

  lemma {:induction false} ActsAreSteps(acts: seq<Act>)
    ensures AfterActs(acts) == After(Flat(acts))
  {
    if acts != [] {
      var rest, act := acts[..|acts| - 1], acts[|acts| - 1];
      ActsAreSteps(rest);
      match act
      case One(step) => AfterOne(Flat(rest), step);
      case Check(first, second, third) => CheckIsSteps(Flat(rest), act);
    }
  }

  lemma {:induction false} CheckIsSteps(steps: seq<Step>, act: Act)
    requires act.Check?
    ensures |SWEPT| == 3 && SweepAll(After(steps), [act.first, act.second, act.third], 3) == After(steps + StepsOf(act))
  {
    var more := StepsOf(act);
    ThreeStatements(After(steps), [act.first, act.second, act.third]);
    AfterOne(steps, more[0]);
    AfterOne(steps + [more[0]], more[1]);
    AfterOne(steps + [more[0]] + [more[1]], more[2]);
    assert steps + [more[0]] + [more[1]] + [more[2]] == steps + more;
  }

  /** The call reads its class's clock past the item's threshold. */
  predicate CallPast(act: Act, item: Item) {
    && act.Check?
    && match item.riskClass
       case Class(RC4) => item.createdAt + 900 <= act.first
       case Class(RC3) => item.createdAt + 3600 <= act.second
       case Class(RC2) => item.createdAt + 14400 <= act.third
       case _ => false
  }

  function CallsPast(acts: seq<Act>, item: Item): nat {
    if acts == [] then 0
    else CallsPast(acts[..|acts| - 1], item) + if CallPast(acts[|acts| - 1], item) then 1 else 0
  }

  lemma {:induction false} SweepsMore(steps: seq<Step>, more: seq<Step>, item: Item)
    ensures Sweeps(steps + more, item) == Sweeps(steps, item) + Sweeps(more, item)
  {
    if more == [] {
      assert steps + more == steps;
    } else {
      SweepsMore(steps, more[..|more| - 1], item);
      assert (steps + more)[..|steps + more| - 1] == steps + more[..|more| - 1];
    }
  }

  lemma {:induction false} CallSweeps(act: Act, item: Item)
    ensures CallPast(act, item) ==> Sweeps(StepsOf(act), item) >= 1
  {
    if act.Check? {
      var a, b, c := StepsOf(act)[0], StepsOf(act)[1], StepsOf(act)[2];
      SweepsMore([a], [b], item);
      SweepsMore([a] + [b], [c], item);
      assert StepsOf(act) == [a] + [b] + [c];
      assert [a][..0] == [] && [b][..0] == [] && [c][..0] == [];
    }
  }

  lemma {:induction false} CallsSweep(acts: seq<Act>, item: Item)
    ensures Sweeps(Flat(acts), item) >= CallsPast(acts, item)
  {
    if acts != [] {
      CallsSweep(acts[..|acts| - 1], item);
      CallSweeps(acts[|acts| - 1], item);
      SweepsMore(Flat(acts[..|acts| - 1]), StepsOf(acts[|acts| - 1]), item);
    }
  }

  /** Main result: three calls of `check_escalations` past an item's threshold close it, whatever else
      happens: undecided, it is blocked. */
  lemma {:induction false} ThreeCallsClose(acts: seq<Act>, more: seq<Act>, id: nat)
    requires id in AfterActs(acts).items && CallsPast(more, AfterActs(acts).items[id]) >= 3
    ensures id in AfterActs(acts + more).items
    ensures var item := AfterActs(acts + more).items[id];
            item.status.Blocked? || (item.status.Decided? && item.ruling.Some?)
  {
    ActsAreSteps(acts);
    ActsAreSteps(acts + more);
    FlatMore(acts, more);
    CallsSweep(more, AfterActs(acts).items[id]);
    ThreeSweepsClose(Flat(acts), Flat(more), id);
  }

  // ---- The workflow object --------------------------------------------------------------------

  class HITLWorkflow {
    var items: Table
    var next: nat
    ghost var raised: nat

    ghost function Contents(): State reads this { State(items, next, raised) }

    ghost predicate Valid() reads this { StateOk(Contents()) }

    constructor ()
      ensures Valid() && Contents() == START
    {
      items, next, raised := map[], 0, 0;
    }

    method Submit(risk: Option<string>, now: int) returns (id: nat)
      requires Valid()
      modifies this
      ensures Valid() && Contents() == Next(old(Contents()), Step.Submit(risk, now))
      ensures id == old(next) && id !in old(items)
    {
      NextOk(Contents(), Step.Submit(risk, now));
      var expires := None;
      var riskClass := ColumnOf(risk);
      if Threshold(riskClass).Some? { expires := Some(now + Threshold(riskClass).value); }
      id := next;
      items := items[id := Item(riskClass, Priority(riskClass), now, expires, Pending, 0, None)];
      next := next + 1;
    }

    method Escalate(id: nat) returns (ok: bool)
      requires Valid()
      modifies this
      ensures Valid() && Contents() == Next(old(Contents()), Step.Escalate(id))
      ensures ok <==> id in old(items) && Open(old(items)[id])
    {
      NextOk(Contents(), Step.Escalate(id));
      ok := id in items && Open(items[id]);
      if ok {
        items, raised := items[id := Raise(items[id])], raised + 1;
      }
    }

    /** One sweep: an UPDATE per swept class, each with its own clock reading. The number
        reported is what the sweep added to the rows' counts. */
    method CheckEscalations(clock: seq<int>) returns (total: nat)
      requires Valid() && |clock| == 3
      modifies this
      ensures Valid() && |SWEPT| == 3 && Contents() == SweepAll(old(Contents()), clock, 3)
      ensures next == old(next) && items == RaisedIn(old(items), ExpiredIds(old(items), clock))
      ensures total == |ExpiredIds(old(items), clock)| && Total(items, next) == old(Total(items, next)) + total
    {
      WholeSweep(Contents(), clock);
      total := 0;
      for i := 0 to |SWEPT|
        invariant Valid() && |SWEPT| == |clock| && Contents() == SweepAll(old(Contents()), clock, i)
        invariant raised == old(raised) + total
      {
        var count := UpdateClass(SWEPT[i], clock[i]);
        total := total + count;
      }
    }

    method UpdateClass(riskClass: RiskText, now: int) returns (count: nat)
      requires Valid() && Threshold(riskClass).Some?
      modifies this
      ensures Valid() && Contents() == Next(old(Contents()), SweepClass(riskClass, now))
      ensures raised == old(raised) + count
    {
      ghost var after := Next(Contents(), SweepClass(riskClass, now));
      SweepOk(Contents(), riskClass, now);
      var cutoff := now - Threshold(riskClass).value;
      count := |DueIds(items, riskClass, cutoff)|;
      items, raised := Sweep(items, riskClass, cutoff), raised + count;
      assert Contents() == after;
    }

    method Decide(id: nat, decision: Decision, decidedBy: string, reason: string) returns (ok: bool)
      requires Valid()
      modifies this
      ensures Valid() && Contents() == Next(old(Contents()), Step.Decide(id, Ruling(decision, decidedBy, reason)))
      ensures ok <==> id in old(items) && Open(old(items)[id]) && !decision.Unknown?
    {
      NextOk(Contents(), Step.Decide(id, Ruling(decision, decidedBy, reason)));
      if decision.Unknown? { return false; }
      ok := id in items && Open(items[id]);
      if ok {
        items := items[id := items[id].(status := Decided(decision), ruling := Some(Ruling(decision, decidedBy, reason)))];
      }
    }
  }
}
