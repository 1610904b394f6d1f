/** The three per-caller limiters: one lazily reset fixed-window counter each, and what it
    lets through in any stretch of time. */
module FixedWindow {

  // ---- One counter ---------------------------------------------------------------

  datatype Entry = Entry(used: int, start: real)

  /** The entry a call works on: the stored one, unless there is none or its window is over. */
  function Roll(entries: map<string, Entry>, caller: string, now: real, window: real): Entry {
    if caller !in entries || now - entries[caller].start > window then Entry(0, now) else entries[caller]
  }

  datatype Limiter = Limiter(window: real, limits: map<string, int>, standard: int)

  function LimitOf(l: Limiter, caller: string): int {
    if caller in l.limits then l.limits[caller] else l.standard
  }

  predicate Granted(l: Limiter, entries: map<string, Entry>, caller: string, now: real, amount: int) {
    Roll(entries, caller, now, l.window).used + amount <= LimitOf(l, caller)
  }

  function Charge(l: Limiter, entries: map<string, Entry>, caller: string, now: real, amount: int): map<string, Entry> {
    var entry := Roll(entries, caller, now, l.window);
    entries[caller := if Granted(l, entries, caller, now, amount) then Entry(entry.used + amount, entry.start) else entry]
  }

  const TOKEN_BUDGETS := Limiter(3600.0,
    map["agent-audit" := 200_000, "agent-capacity" := 150_000, "agent-security" := 100_000,
        "cognitive-query" := 50_000, "report-generator" := 300_000, "default" := 100_000], 100_000)

  const ACTIONS_PER_SESSION := Limiter(3600.0,
    map["agent-audit" := 50, "agent-capacity" := 30, "cognitive-query" := 20, "report-generator" := 10, "default" := 15], 15)

  const MODEL_ACCESS := Limiter(60.0, map[], 120)

  class LLMSecurityLayer {
    var usage: map<string, Entry>
    var actionCounts: map<string, Entry>
    var modelAccess: map<string, Entry>

    constructor ()
      ensures usage == map[] && actionCounts == map[] && modelAccess == map[]
    {
      usage, actionCounts, modelAccess := map[], map[], map[];
    }

    method CheckTokenBudget(caller: string, requested: int, now: real) returns (ok: bool)
      modifies this`usage
      ensures ok == Granted(TOKEN_BUDGETS, old(usage), caller, now, requested)
      ensures usage == Charge(TOKEN_BUDGETS, old(usage), caller, now, requested)
    {
      var limit := LimitOf(TOKEN_BUDGETS, caller);
      if caller !in usage || now - usage[caller].start > TOKEN_BUDGETS.window {
        usage := usage[caller := Entry(0, now)];
      }
      var entry := usage[caller];
      if entry.used + requested > limit { return false; }
      usage := usage[caller := Entry(entry.used + requested, entry.start)];
      ok := true;
    }

    method CheckActionScope(caller: string, now: real) returns (ok: bool)
      modifies this`actionCounts
      ensures ok == Granted(ACTIONS_PER_SESSION, old(actionCounts), caller, now, 1)
      ensures actionCounts == Charge(ACTIONS_PER_SESSION, old(actionCounts), caller, now, 1)
    {
      var limit := LimitOf(ACTIONS_PER_SESSION, caller);
      if caller !in actionCounts || now - actionCounts[caller].start > ACTIONS_PER_SESSION.window {
        actionCounts := actionCounts[caller := Entry(0, now)];
      }
      var entry := actionCounts[caller];
      if entry.used >= limit { return false; }
      actionCounts := actionCounts[caller := Entry(entry.used + 1, entry.start)];
      ok := true;
    }

    method CheckModelAccessRate(caller: string, now: real) returns (ok: bool)
      modifies this`modelAccess
      ensures ok == Granted(MODEL_ACCESS, old(modelAccess), caller, now, 1)
      ensures modelAccess == Charge(MODEL_ACCESS, old(modelAccess), caller, now, 1)
    {
      if caller !in modelAccess || now - modelAccess[caller].start > MODEL_ACCESS.window {
        modelAccess := modelAccess[caller := Entry(0, now)];
      }
      var entry := modelAccess[caller];
      if entry.used >= MODEL_ACCESS.standard { return false; }
      modelAccess := modelAccess[caller := Entry(entry.used + 1, entry.start)];
      ok := true;
    }
  }

  // ---- Runs -----------------------------------------------------------------------

  datatype Call = Call(caller: string, now: real, amount: int)

  /** A grant, with the start of the window it was charged to. */
  datatype Grant = Grant(caller: string, at: real, amount: int, start: real)

  datatype State = State(entries: map<string, Entry>, grants: seq<Grant>)

  function Next(l: Limiter, s: State, c: Call): State {
    State(Charge(l, s.entries, c.caller, c.now, c.amount),
          if Granted(l, s.entries, c.caller, c.now, c.amount) then
            s.grants + [Grant(c.caller, c.now, c.amount, Roll(s.entries, c.caller, c.now, l.window).start)]
          else s.grants)
  }

  function After(l: Limiter, calls: seq<Call>): State {
    if calls == [] then State(map[], []) else Next(l, After(l, calls[..|calls| - 1]), calls[|calls| - 1])
  }

  /** A monotonic clock, and requests for no less than the amount given. */
  predicate Clocked(calls: seq<Call>) {
    forall i, j | 0 <= i < j < |calls| :: calls[i].now <= calls[j].now
  }

  predicate AtLeast(calls: seq<Call>, amount: int) {
    forall i | 0 <= i < |calls| :: calls[i].amount >= amount
  }

  /** Requests for no negative amount. */
  predicate Proper(calls: seq<Call>) { Clocked(calls) && AtLeast(calls, 0) }

  /** Which of a caller's grants to add up. */
  datatype Pick =
    | Window(start: real)
    | Between(a: real, b: real)
    | UpTo(a: real, m: real)
    | Below(a: real, m: real)
    | Part(start: real, a: real, b: real)
    | Earlier(start: real, a: real, b: real)

  predicate Picks(p: Pick, g: Grant) {
    match p
    case Window(start) => g.start == start
    case Between(a, b) => a <= g.at <= b
    case UpTo(a, m) => a <= g.at && g.start <= m
    case Below(a, m) => a <= g.at && g.start < m
    case Part(start, a, b) => g.start == start && a <= g.at <= b
    case Earlier(start, a, b) => g.start < start && a <= g.at <= b
  }

  function Sum(grants: seq<Grant>, caller: string, p: Pick): int {
    if grants == [] then 0
    else
      var g := grants[|grants| - 1];
      Sum(grants[..|grants| - 1], caller, p) + if g.caller == caller && Picks(p, g) then g.amount else 0
  }

  // ---- What every run keeps ------------------------------------------------------------

  /** Grants of one caller fall into windows more than a window apart, each within its limit. */
  ghost predicate Windowed(grants: seq<Grant>, caller: string, window: real, limit: int) {
    && (forall i | 0 <= i < |grants| && grants[i].caller == caller ::
          grants[i].start <= grants[i].at <= grants[i].start + window)
    && (forall i, j | 0 <= i < j < |grants| && grants[i].caller == caller && grants[j].caller == caller ::
          Apart(grants[i].start, grants[j].start, window))
    && (forall i | 0 <= i < |grants| && grants[i].caller == caller ::
          Sum(grants, caller, Window(grants[i].start)) <= limit)
  }

  predicate Apart(earlier: real, later: real, window: real) {
    earlier == later || earlier + window < later
  }

  /** The stored entry is the caller's newest window, and knows what was granted in it. */
  ghost predicate EntryOk(s: State, caller: string, window: real, limit: int, clock: real) {
    if caller !in s.entries then forall i | 0 <= i < |s.grants| :: s.grants[i].caller != caller
    else
      var e := s.entries[caller];
      && e.start <= clock && e.used <= limit
      && e.used == Sum(s.grants, caller, Window(e.start))
      && (forall i | 0 <= i < |s.grants| && s.grants[i].caller == caller :: Apart(s.grants[i].start, e.start, window))
  }

  ghost predicate StateOk(s: State, caller: string, window: real, limit: int, clock: real) {
    Windowed(s.grants, caller, window, limit) && EntryOk(s, caller, window, limit, clock)
  }

  lemma {:induction false} SumNone(grants: seq<Grant>, caller: string, p: Pick)
    requires forall i | 0 <= i < |grants| && grants[i].caller == caller :: !Picks(p, grants[i])
    ensures Sum(grants, caller, p) == 0
  {
    if grants != [] { SumNone(grants[..|grants| - 1], caller, p); }
  }

  lemma {:induction false} SumAppend(grants: seq<Grant>, g: Grant, caller: string, p: Pick)
    ensures Sum(grants + [g], caller, p) == Sum(grants, caller, p) + if g.caller == caller && Picks(p, g) then g.amount else 0
  {
    assert (grants + [g])[..|grants|] == grants;
  }

  /** Opening a new window, or staying in the old one, keeps the books. */
  lemma {:induction false} RollOk(l: Limiter, s: State, c: Call, clock: real)
    requires l.window >= 0.0 && LimitOf(l, c.caller) >= 0 && clock <= c.now
    requires StateOk(s, c.caller, l.window, LimitOf(l, c.caller), clock)
    ensures var e := Roll(s.entries, c.caller, c.now, l.window);
            && StateOk(s.(entries := s.entries[c.caller := e]), c.caller, l.window, LimitOf(l, c.caller), c.now)
            && c.now <= e.start + l.window
  {
    var e := Roll(s.entries, c.caller, c.now, l.window);
    if e == Entry(0, c.now) && (c.caller !in s.entries || e != s.entries[c.caller]) {
      forall i | 0 <= i < |s.grants| && s.grants[i].caller == c.caller
        ensures s.grants[i].start + l.window < c.now
      {
        assert c.caller in s.entries && Apart(s.grants[i].start, s.entries[c.caller].start, l.window);
      }
      SumNone(s.grants, c.caller, Window(c.now));
    }
  }

  /** Charging a grant to the open window keeps them too. */
  lemma {:induction false} ChargeOk(s: State, caller: string, now: real, amount: int, window: real, limit: int)
    requires StateOk(s, caller, window, limit, now) && caller in s.entries
    requires now <= s.entries[caller].start + window && s.entries[caller].used + amount <= limit
    ensures StateOk(Charged(s, caller, now, amount), caller, window, limit, now)
  {
    var e := s.entries[caller];
    GrantWindowed(s.grants, Grant(caller, now, amount, e.start), window, limit);
    ChargeEntryOk(s, caller, now, amount, window, limit);
  }

  function Charged(s: State, caller: string, now: real, amount: int): State
    requires caller in s.entries
  {
    var e := s.entries[caller];
    State(s.entries[caller := Entry(e.used + amount, e.start)], s.grants + [Grant(caller, now, amount, e.start)])
  }

  lemma {:induction false} ChargeEntryOk(s: State, caller: string, now: real, amount: int, window: real, limit: int)
    requires EntryOk(s, caller, window, limit, now) && caller in s.entries && s.entries[caller].used + amount <= limit
    ensures EntryOk(Charged(s, caller, now, amount), caller, window, limit, now)
  {
    var e := s.entries[caller];
    SumAppend(s.grants, Grant(caller, now, amount, e.start), caller, Window(e.start));
  }

  lemma {:induction false} GrantWindowed(grants: seq<Grant>, g: Grant, window: real, limit: int)
    requires Windowed(grants, g.caller, window, limit) && g.start <= g.at <= g.start + window
    requires forall i | 0 <= i < |grants| && grants[i].caller == g.caller :: Apart(grants[i].start, g.start, window)
    requires Sum(grants, g.caller, Window(g.start)) + g.amount <= limit
    ensures Windowed(grants + [g], g.caller, window, limit)
  {
    var more := grants + [g];
    forall i | 0 <= i < |more| && more[i].caller == g.caller
      ensures Sum(more, g.caller, Window(more[i].start)) <= limit
    {
      SumAppend(grants, g, g.caller, Window(more[i].start));
      if i < |grants| { assert more[i] == grants[i]; }
    }
  }

  lemma {:induction false} OthersOk(l: Limiter, s: State, c: Call, caller: string, clock: real)
    requires caller != c.caller && clock <= c.now
    requires StateOk(s, caller, l.window, LimitOf(l, caller), clock)
    ensures StateOk(Next(l, s, c), caller, l.window, LimitOf(l, caller), c.now)
  {
    var s' := Next(l, s, c);
    if s'.grants != s.grants {
      var g := s'.grants[|s.grants|];
      forall i | 0 <= i < |s.grants| && s.grants[i].caller == caller
        ensures Sum(s'.grants, caller, Window(s.grants[i].start)) <= LimitOf(l, caller)
      {
        SumAppend(s.grants, g, caller, Window(s.grants[i].start));
      }
      if caller in s.entries { SumAppend(s.grants, g, caller, Window(s.entries[caller].start)); }
    }
  }

  lemma {:induction false} NextOk(l: Limiter, s: State, c: Call, caller: string, clock: real)
    requires l.window >= 0.0 && LimitOf(l, caller) >= 0 && clock <= c.now
    requires StateOk(s, caller, l.window, LimitOf(l, caller), clock)
    ensures StateOk(Next(l, s, c), caller, l.window, LimitOf(l, caller), c.now)
  {
    if caller != c.caller {
      OthersOk(l, s, c, caller, clock);
    } else {
      RollOk(l, s, c, clock);
      var e := Roll(s.entries, caller, c.now, l.window);
      var rolled := s.(entries := s.entries[caller := e]);
      if Granted(l, s.entries, caller, c.now, c.amount) {
        ChargeOk(rolled, caller, c.now, c.amount, l.window, LimitOf(l, caller));
        assert Next(l, s, c).entries == Charged(rolled, caller, c.now, c.amount).entries;
      } else {
        assert Next(l, s, c) == rolled;
      }
    }
  }

  lemma {:induction false} AlwaysOk(l: Limiter, calls: seq<Call>, caller: string, clock: real)
    requires l.window >= 0.0 && LimitOf(l, caller) >= 0 && Clocked(calls)
    requires calls != [] ==> calls[|calls| - 1].now <= clock
    ensures StateOk(After(l, calls), caller, l.window, LimitOf(l, caller), clock)
  {
    if calls != [] {
      var rest, c := calls[..|calls| - 1], calls[|calls| - 1];
      AlwaysOk(l, rest, caller, c.now);
      NextOk(l, After(l, rest), c, caller, c.now);
    }
  }

  /** Main result: whether a call is granted, by what was granted before. While the caller's window is
      open, what it grants adds up to the limit at most; a call after it needs only fit the limit. */
  lemma {:induction false} GrantedExactly(l: Limiter, calls: seq<Call>, c: Call)
    requires l.window >= 0.0 && LimitOf(l, c.caller) >= 0 && Clocked(calls + [c])
    ensures var s := After(l, calls);
            Next(l, s, c).grants != s.grants <==>
              if c.caller in s.entries && c.now <= s.entries[c.caller].start + l.window then
                Sum(s.grants, c.caller, Window(s.entries[c.caller].start)) + c.amount <= LimitOf(l, c.caller)
              else c.amount <= LimitOf(l, c.caller)
  {
    assert forall i | 0 <= i < |calls| :: (calls + [c])[i] == calls[i];
    assert (calls + [c])[|calls|] == c;
    AlwaysOk(l, calls, c.caller, c.now);
  }

  /** Granted or not, the first call after a window is over, or of a new caller, starts the next one. */
  lemma {:induction false} FirstCallRestarts(l: Limiter, s: State, c: Call)
    requires c.caller !in s.entries || s.entries[c.caller].start + l.window < c.now
    ensures c.caller in Next(l, s, c).entries && Next(l, s, c).entries[c.caller].start == c.now
    ensures c.amount > LimitOf(l, c.caller) ==> Next(l, s, c).entries[c.caller].used == 0
  {}

  /** What each caller may have, in how many seconds. */
  lemma {:induction false} LimitsAsConfigured(caller: string)
    ensures TOKEN_BUDGETS.window == ACTIONS_PER_SESSION.window == 3600.0 && MODEL_ACCESS.window == 60.0
    ensures var limit := LimitOf(TOKEN_BUDGETS, caller);
            && (limit == 200_000 <==> caller == "agent-audit") && (limit == 150_000 <==> caller == "agent-capacity")
            && (limit == 300_000 <==> caller == "report-generator") && (limit == 50_000 <==> caller == "cognitive-query")
            && (limit == 100_000 <==> caller !in {"agent-audit", "agent-capacity", "report-generator", "cognitive-query"})
    ensures var limit := LimitOf(ACTIONS_PER_SESSION, caller);
            && (limit == 50 <==> caller == "agent-audit") && (limit == 30 <==> caller == "agent-capacity")
            && (limit == 10 <==> caller == "report-generator") && (limit == 20 <==> caller == "cognitive-query")
            && (limit == 15 <==> caller !in {"agent-audit", "agent-capacity", "report-generator", "cognitive-query"})
    ensures LimitOf(MODEL_ACCESS, caller) == 120
  {
    assert "agent-audit"[6] == 'a' && "agent-capacity"[6] == 'c' && "agent-security"[6] == 's';
    assert "cognitive-query"[6] == 'i' && "report-generator"[6] == '-' && "default"[6] == 't';
  }

  ghost predicate NonNegative(grants: seq<Grant>) { forall i | 0 <= i < |grants| :: grants[i].amount >= 0 }

  lemma {:induction false} GrantsNonNegative(l: Limiter, calls: seq<Call>)
    requires AtLeast(calls, 0)
    ensures NonNegative(After(l, calls).grants)
  {
    if calls != [] { GrantsNonNegative(l, calls[..|calls| - 1]); }
  }

  // ---- Counting over any stretch of time ---------------------------------------------------

  /** What two picks cover between them adds up to at least as much. */
  lemma {:induction false} SumSplit(grants: seq<Grant>, caller: string, p: Pick, q: Pick, r: Pick)
    requires NonNegative(grants)
    requires forall i | 0 <= i < |grants| && grants[i].caller == caller && Picks(p, grants[i]) ::
               Picks(q, grants[i]) || Picks(r, grants[i])
    ensures Sum(grants, caller, p) <= Sum(grants, caller, q) + Sum(grants, caller, r)
  {
    if grants != [] { SumSplit(grants[..|grants| - 1], caller, p, q, r); }
  }

  lemma {:induction false} SumWithin(grants: seq<Grant>, caller: string, p: Pick, q: Pick)
    requires NonNegative(grants)
    requires forall i | 0 <= i < |grants| && grants[i].caller == caller && Picks(p, grants[i]) :: Picks(q, grants[i])
    ensures Sum(grants, caller, p) <= Sum(grants, caller, q)
  {
    if grants != [] { SumWithin(grants[..|grants| - 1], caller, p, q); }
  }

  lemma {:induction false} LastPick(grants: seq<Grant>, caller: string, p: Pick) returns (k: int)
    ensures -1 <= k < |grants|
    ensures k >= 0 ==> grants[k].caller == caller && Picks(p, grants[k])
    ensures forall i | k < i < |grants| && grants[i].caller == caller :: !Picks(p, grants[i])
  {
    k := |grants| - 1;
    while k >= 0 && !(grants[k].caller == caller && Picks(p, grants[k]))
      invariant -1 <= k < |grants|
      invariant forall i | k < i < |grants| && grants[i].caller == caller :: !Picks(p, grants[i])
    {
      k := k - 1;
    }
  }

  /** Of the windows opened up to m, the newest holds one limit; the rest opened before m - window. */
  lemma {:induction false} Peel(grants: seq<Grant>, caller: string, window: real, limit: int, a: real, m: real)
    requires Windowed(grants, caller, window, limit) && NonNegative(grants) && limit >= 0
    ensures Sum(grants, caller, UpTo(a, m)) <= limit + Sum(grants, caller, Below(a, m - window))
  {
    var p, q := UpTo(a, m), Below(a, m - window);
    var k := LastPick(grants, caller, p);
    if k < 0 {
      SumNone(grants, caller, p);
      SumWithin(grants, caller, p, q);
      NotNegative(grants, caller, q);
    } else {
      forall i | 0 <= i < |grants| && grants[i].caller == caller && Picks(p, grants[i])
        ensures Picks(Window(grants[k].start), grants[i]) || Picks(q, grants[i])
      {
        assert i < k ==> Apart(grants[i].start, grants[k].start, window);
      }
      SumSplit(grants, caller, p, Window(grants[k].start), q);
    }
  }

  lemma {:induction false} NotNegative(grants: seq<Grant>, caller: string, p: Pick)
    requires NonNegative(grants)
    ensures Sum(grants, caller, p) >= 0
  {
    if grants != [] { NotNegative(grants[..|grants| - 1], caller, p); }
  }

  /** n windows, one after the other. */
  function Spans(n: nat, window: real): real {
    if n == 0 then 0.0 else Spans(n - 1, window) + window
  }

  lemma {:induction false} SpansIsProduct(n: nat, window: real)
    ensures Spans(n, window) == n as real * window
  {
    if n > 0 {
      SpansIsProduct(n - 1, window);
      assert (n - 1) as real * window + window == n as real * window;
    }
  }

  lemma {:induction false} BelowBound(grants: seq<Grant>, caller: string, window: real, limit: int, a: real, k: nat)
    requires Windowed(grants, caller, window, limit) && NonNegative(grants) && limit >= 0
    ensures Sum(grants, caller, Below(a, a + Spans(k, window) - window)) <= k * limit
  {
    var m := a + Spans(k, window) - window;
    if k == 0 {
      SumNone(grants, caller, Below(a, m));
    } else {
      SumWithin(grants, caller, Below(a, m), UpTo(a, m));
      Peel(grants, caller, window, limit, a, m);
      BelowBound(grants, caller, window, limit, a, k - 1);
      assert m - window == a + Spans(k - 1, window) - window;
    }
  }

  lemma {:induction false} StretchBound(grants: seq<Grant>, caller: string, window: real, limit: int, a: real, b: real, n: nat)
    requires Windowed(grants, caller, window, limit) && NonNegative(grants) && limit >= 0 && b <= a + Spans(n, window)
    ensures Sum(grants, caller, Between(a, b)) <= limit + n * limit
  {
    SumWithin(grants, caller, Between(a, b), UpTo(a, b));
    Peel(grants, caller, window, limit, a, b);
    SumWithin(grants, caller, Below(a, b - window), Below(a, a + Spans(n, window) - window));
    BelowBound(grants, caller, window, limit, a, n);
  }

  /** Main result: over any stretch of at most n windows a caller is granted at most n + 1 times
      its limit; in any one window's length, at most twice the limit. */
  lemma {:induction false} SlidingBound(l: Limiter, calls: seq<Call>, caller: string, a: real, b: real, n: nat)
    requires l.window >= 0.0 && LimitOf(l, caller) >= 0 && Proper(calls)
    requires b - a <= n as real * l.window
    ensures Sum(After(l, calls).grants, caller, Between(a, b)) <= (n + 1) * LimitOf(l, caller)
  {
    var limit := LimitOf(l, caller);
    AlwaysOk(l, calls, caller, if calls == [] then 0.0 else calls[|calls| - 1].now);
    GrantsNonNegative(l, calls);
    SpansIsProduct(n, l.window);
    StretchBound(After(l, calls).grants, caller, l.window, limit, a, b, n);
    assert limit + n * limit == (n + 1) * limit;
  }

  /** Main result: no window of a caller ever grants more than its limit, net of what negative
      requests gave back. */
  lemma {:induction false} WindowBound(l: Limiter, calls: seq<Call>, caller: string, start: real)
    requires l.window >= 0.0 && LimitOf(l, caller) >= 0 && Clocked(calls)
    ensures Sum(After(l, calls).grants, caller, Window(start)) <= LimitOf(l, caller)
  {
    var grants := After(l, calls).grants;
    AlwaysOk(l, calls, caller, if calls == [] then 0.0 else calls[|calls| - 1].now);
    var k := LastPick(grants, caller, Window(start));
    if k < 0 { SumNone(grants, caller, Window(start)); }
  }

  // ---- When the limit holds over a rolling window ----------------------------------------------

  /** The caller's grants in the window's length from `a` on are within its limit. */
  predicate Rolls(l: Limiter, caller: string, calls: seq<Call>, a: real) {
    Sum(After(l, calls).grants, caller, Between(a, a + l.window)) <= LimitOf(l, caller)
  }

  lemma {:induction false} SumParts(grants: seq<Grant>, caller: string, older: real, newer: real, a: real, b: real)
    requires forall i | 0 <= i < |grants| && grants[i].caller == caller && a <= grants[i].at <= b ::
               grants[i].start == older || grants[i].start == newer
    ensures Sum(grants, caller, Between(a, b)) ==
            if older == newer then Sum(grants, caller, Part(older, a, b))
            else Sum(grants, caller, Part(older, a, b)) + Sum(grants, caller, Part(newer, a, b))
  {
    if grants != [] { SumParts(grants[..|grants| - 1], caller, older, newer, a, b); }
  }

  /** A stretch no longer than a window meets two windows at most. */
  lemma {:induction false} TwoWindowsMet(grants: seq<Grant>, caller: string, window: real, limit: int, a: real)
    returns (older: real, newer: real)
    requires Windowed(grants, caller, window, limit)
    ensures older == newer || older + window < newer
    ensures forall i | 0 <= i < |grants| && grants[i].caller == caller && a <= grants[i].at <= a + window ::
              grants[i].start == older || grants[i].start == newer
  {
    var b := a + window;
    var k := LastPick(grants, caller, Between(a, b));
    if k < 0 { return 0.0, 0.0; }
    newer := grants[k].start;
    var m := LastPick(grants, caller, Earlier(newer, a, b));
    older := if m < 0 then newer else grants[m].start;
    forall i | 0 <= i < |grants| && grants[i].caller == caller && a <= grants[i].at <= b
      ensures grants[i].start == older || grants[i].start == newer
    {
      assert Picks(Between(a, b), grants[i]) && i <= k;
      assert i < k ==> Apart(grants[i].start, newer, window);
      if grants[i].start != newer {
        assert Picks(Earlier(newer, a, b), grants[i]) && i <= m;
        assert i < m ==> Apart(grants[i].start, older, window);
        assert m < k && Apart(older, newer, window);
      }
    }
    if m >= 0 {
      assert m < k ==> Apart(older, newer, window);
      assert k < m ==> Apart(newer, older, window);
    }
  }

  /** Main result, for one run: any stretch of a window's length meets at most two windows, and it
      keeps the limit exactly when the tail of the older and the head of the newer do together; a
      stretch that meets one window always keeps it. */
  lemma {:induction false} RollsExactly(l: Limiter, calls: seq<Call>, caller: string, a: real)
    returns (older: real, newer: real)
    requires l.window >= 0.0 && LimitOf(l, caller) >= 0 && Proper(calls)
    ensures older == newer || older + l.window < newer
    ensures forall i | 0 <= i < |After(l, calls).grants| ::
              After(l, calls).grants[i].caller == caller && a <= After(l, calls).grants[i].at <= a + l.window ==>
                After(l, calls).grants[i].start in {older, newer}
    ensures var grants, b := After(l, calls).grants, a + l.window;
            Rolls(l, caller, calls, a) <==>
              (older == newer
               || Sum(grants, caller, Part(older, a, b)) + Sum(grants, caller, Part(newer, a, b)) <= LimitOf(l, caller))
  {
    var grants, b := After(l, calls).grants, a + l.window;
    AlwaysOk(l, calls, caller, if calls == [] then 0.0 else calls[|calls| - 1].now);
    GrantsNonNegative(l, calls);
    older, newer := TwoWindowsMet(grants, caller, l.window, LimitOf(l, caller), a);
    SumParts(grants, caller, older, newer, a, b);
    SumWithin(grants, caller, Part(older, a, b), Window(older));
    WindowBound(l, calls, caller, older);
  }

  lemma {:induction false} GrantsInOpenWindow(l: Limiter, s: State, c: Call)
    requires c.caller in s.entries && c.now - s.entries[c.caller].start <= l.window
    requires s.entries[c.caller].used + c.amount <= LimitOf(l, c.caller)
    ensures var e := s.entries[c.caller];
            Next(l, s, c) == State(s.entries[c.caller := Entry(e.used + c.amount, e.start)],
                                   s.grants + [Grant(c.caller, c.now, c.amount, e.start)])
  {}

  lemma {:induction false} GrantsInNewWindow(l: Limiter, s: State, c: Call)
    requires c.caller !in s.entries || c.now - s.entries[c.caller].start > l.window
    requires c.amount <= LimitOf(l, c.caller)
    ensures Next(l, s, c) == State(s.entries[c.caller := Entry(c.amount, c.now)],
                                   s.grants + [Grant(c.caller, c.now, c.amount, c.now)])
  {}

  lemma {:induction false} ThreeCalls(l: Limiter, x: Call, y: Call, z: Call)
    ensures After(l, [x, y, z]) == Next(l, Next(l, Next(l, State(map[], []), x), y), z)
  {
    assert [x, y, z][..2] == [x, y] && [x, y][..1] == [x] && [x][..0] == [];
    assert After(l, [x]) == Next(l, State(map[], []), x);
    assert After(l, [x, y]) == Next(l, After(l, [x]), y);
  }

  /** One call opens a window at 0, another is granted in it as it ends. */
  lemma {:induction false} OneWindow(l: Limiter, caller: string, first: int, second: int)
    requires l.window >= 0.0 && first <= LimitOf(l, caller) && first + second <= LimitOf(l, caller)
    ensures Next(l, Next(l, State(map[], []), Call(caller, 0.0, first)), Call(caller, l.window, second))
         == State(map[caller := Entry(first + second, 0.0)],
                  [Grant(caller, 0.0, first, 0.0)] + [Grant(caller, l.window, second, 0.0)])
  {
    var s0, x, y := State(map[], []), Call(caller, 0.0, first), Call(caller, l.window, second);
    var g := Grant(caller, 0.0, first, 0.0);
    GrantsInNewWindow(l, s0, x);
    assert [] + [g] == [g] && s0.entries[caller := Entry(first, 0.0)] == map[caller := Entry(first, 0.0)];
    GrantsInOpenWindow(l, State(map[caller := Entry(first, 0.0)], [g]), y);
    assert map[caller := Entry(first, 0.0)][caller := Entry(first + second, 0.0)] == map[caller := Entry(first + second, 0.0)];
  }

  /** The first call opens a window at 0, the second fills it as it ends, the third opens the next. */
  lemma {:induction false} TwoWindows(l: Limiter, caller: string, moment: real)
    requires l.window >= 0.0 && LimitOf(l, caller) >= 0 && moment > 0.0
    ensures var limit, w := LimitOf(l, caller), l.window;
            After(l, [Call(caller, 0.0, 0), Call(caller, w, limit), Call(caller, w + moment, limit)]).grants
            == [Grant(caller, 0.0, 0, 0.0)] + [Grant(caller, w, limit, 0.0)] + [Grant(caller, w + moment, limit, w + moment)]
  {
    var limit, w := LimitOf(l, caller), l.window;
    var x, y, z := Call(caller, 0.0, 0), Call(caller, w, limit), Call(caller, w + moment, limit);
    ThreeCalls(l, x, y, z);
    OneWindow(l, caller, 0, limit);
    GrantsInNewWindow(l, Next(l, Next(l, State(map[], []), x), y), z);
  }

  /** The bound is reached: the window does not roll, so twice the limit can go out in as short a
      time as one likes, around the moment a window ends. */
  lemma {:induction false} WindowDoesNotSlide(l: Limiter, caller: string, moment: real)
    requires l.window >= 0.0 && LimitOf(l, caller) >= 0 && moment > 0.0
    ensures var limit, w := LimitOf(l, caller), l.window;
            var calls := [Call(caller, 0.0, 0), Call(caller, w, limit), Call(caller, w + moment, limit)];
            Proper(calls) && Sum(After(l, calls).grants, caller, Between(w, w + moment)) == 2 * limit
  {
    var limit, w := LimitOf(l, caller), l.window;
    TwoWindows(l, caller, moment);
    var g0, g1, g2 := Grant(caller, 0.0, 0, 0.0), Grant(caller, w, limit, 0.0), Grant(caller, w + moment, limit, w + moment);
    var p := Between(w, w + moment);
    SumAppend([g0] + [g1], g2, caller, p);
    SumAppend([g0], g1, caller, p);
    SumAppend([], g0, caller, p);
    assert [] + [g0] == [g0];
  }

  /** A window opened at 0 and filled as it ends, and n more, each opened `gap` after the last one is
      over and filled at once. */
  function Staircase(l: Limiter, caller: string, gap: real, n: nat): seq<Call> {
    if n == 0 then [Call(caller, 0.0, 0), Call(caller, l.window, LimitOf(l, caller))]
    else Staircase(l, caller, gap, n - 1) + [Call(caller, Spans(n, l.window + gap), LimitOf(l, caller))]
  }

  lemma {:induction false} AfterOneMore(l: Limiter, calls: seq<Call>, c: Call)
    ensures After(l, calls + [c]) == Next(l, After(l, calls), c)
  {
    assert (calls + [c])[..|calls|] == calls;
  }

  lemma {:induction false} SpansAdd(n: nat, w: real, gap: real)
    ensures Spans(n, w + gap) == Spans(n, w) + Spans(n, gap)
  {
    if n > 0 { SpansAdd(n - 1, w, gap); }
  }

  lemma {:induction false} SpansGrow(n: nat, w: real)
    requires w >= 0.0
    ensures Spans(n, w) >= 0.0 && (n > 0 ==> Spans(n, w) >= w)
  {
    if n > 1 { SpansGrow(n - 1, w); }
  }

  lemma {:induction false} StaircaseProper(l: Limiter, caller: string, gap: real, n: nat)
    requires l.window >= 0.0 && gap > 0.0 && LimitOf(l, caller) >= 0
    ensures var calls := Staircase(l, caller, gap, n);
            && Proper(calls) && calls != []
            && calls[|calls| - 1].now == (if n == 0 then l.window else Spans(n, l.window + gap))
  {
    if n > 0 {
      StaircaseProper(l, caller, gap, n - 1);
      SpansGrow(n, l.window + gap);
    }
  }

  function Times(n: nat, x: int): int {
    if n == 0 then 0 else Times(n - 1, x) + x
  }

  lemma {:induction false} TimesIsProduct(n: nat, x: int)
    ensures Times(n, x) == n * x
  {
    if n > 0 {
      TimesIsProduct(n - 1, x);
      assert (n - 1) * x + x == n * x;
    }
  }

  /** Every step of the staircase is granted, in a window of its own. */
  lemma {:induction false} StaircaseGrants(l: Limiter, caller: string, gap: real, n: nat, b: real)
    requires l.window >= 0.0 && gap > 0.0 && LimitOf(l, caller) >= 0
    requires b >= l.window && b >= Spans(n, l.window + gap)
    ensures Filled(l, After(l, Staircase(l, caller, gap, n)), caller, Spans(n, l.window + gap), b, Times(n + 1, LimitOf(l, caller)))
  {
    if n == 0 {
      FirstStep(l, caller, b);
    } else {
      var rest, at := Staircase(l, caller, gap, n - 1), Spans(n, l.window + gap);
      StaircaseGrants(l, caller, gap, n - 1, b);
      SpansGrow(n, l.window + gap);
      NextStep(l, After(l, rest), caller, Spans(n - 1, l.window + gap), at, b, Times(n, LimitOf(l, caller)));
      AfterOneMore(l, rest, Call(caller, at, LimitOf(l, caller)));
    }
  }

  /** The window opened at `start` is full, and `total` was granted between the first window's end and b. */
  predicate Filled(l: Limiter, s: State, caller: string, start: real, b: real, total: int) {
    && caller in s.entries && s.entries[caller] == Entry(LimitOf(l, caller), start)
    && Sum(s.grants, caller, Between(l.window, b)) == total
  }

  lemma {:induction false} FirstStep(l: Limiter, caller: string, b: real)
    requires l.window >= 0.0 && LimitOf(l, caller) >= 0 && b >= l.window
    ensures Filled(l, After(l, [Call(caller, 0.0, 0), Call(caller, l.window, LimitOf(l, caller))]),
                   caller, 0.0, b, LimitOf(l, caller))
  {
    var limit, w := LimitOf(l, caller), l.window;
    TwoCalls(l, Call(caller, 0.0, 0), Call(caller, w, limit));
    OneWindow(l, caller, 0, limit);
    var g0, g1 := Grant(caller, 0.0, 0, 0.0), Grant(caller, w, limit, 0.0);
    SumAppend([g0], g1, caller, Between(w, b));
    SumAppend([], g0, caller, Between(w, b));
    assert [] + [g0] == [g0];
  }

  lemma {:induction false} NextStep(l: Limiter, s: State, caller: string, start: real, at: real, b: real, total: int)
    requires LimitOf(l, caller) >= 0 && Filled(l, s, caller, start, b, total)
    requires at - start > l.window && l.window <= at <= b
    ensures Filled(l, Next(l, s, Call(caller, at, LimitOf(l, caller))), caller, at, b, total + LimitOf(l, caller))
  {
    var limit := LimitOf(l, caller);
    GrantsInNewWindow(l, s, Call(caller, at, limit));
    SumAppend(s.grants, Grant(caller, at, limit, at), caller, Between(l.window, b));
  }

  /** n gaps that make up one window. */
  lemma {:induction false} GapFor(n: nat, w: real) returns (gap: real)
    requires w > 0.0 && n > 0
    ensures gap > 0.0 && Spans(n, gap) == w
  {
    gap := w / n as real;
    SpansIsProduct(n, gap);
  }

  /** The bound of `SlidingBound` is reached for every n: some run grants n + 1 times the limit in no
      more than n windows' length. */
  lemma {:induction false} SlidingBoundReached(l: Limiter, caller: string, n: nat)
    returns (calls: seq<Call>, a: real, b: real)
    requires l.window > 0.0 && LimitOf(l, caller) >= 0 && n > 0
    ensures Proper(calls) && b - a <= n as real * l.window
    ensures Sum(After(l, calls).grants, caller, Between(a, b)) == (n + 1) * LimitOf(l, caller)
  {
    var gap := GapFor(n, l.window);
    SpansIsProduct(n, l.window);
    SpansAdd(n, l.window, gap);
    SpansGrow(n, l.window + gap);
    calls, a, b := Staircase(l, caller, gap, n), l.window, Spans(n, l.window + gap);
    StaircaseProper(l, caller, gap, n);
    StaircaseGrants(l, caller, gap, n, b);
    TimesIsProduct(n + 1, LimitOf(l, caller));
  }

  /** Main result: the limit holds over every rolling window of every run exactly for a caller that
      is never granted anything. */
  lemma {:induction false} RollingExactly(l: Limiter, caller: string)
    requires l.window > 0.0 && LimitOf(l, caller) >= 0
    ensures (forall calls, a | Proper(calls) :: Rolls(l, caller, calls, a)) <==> LimitOf(l, caller) == 0
  {
    var limit, w := LimitOf(l, caller), l.window;
    if limit == 0 {
      forall calls, a | Proper(calls) ensures Rolls(l, caller, calls, a) {
        assert w == 1 as real * w;
        SlidingBound(l, calls, caller, a, a + w, 1);
      }
    } else {
      WindowDoesNotSlide(l, caller, w);
      var calls := [Call(caller, 0.0, 0), Call(caller, w, limit), Call(caller, w + w, limit)];
      assert Proper(calls) && !Rolls(l, caller, calls, w);
    }
  }

  // ---- Negative requests ------------------------------------------------------------------------

  lemma {:induction false} TwoCalls(l: Limiter, x: Call, y: Call)
    ensures After(l, [x, y]) == Next(l, Next(l, State(map[], []), x), y)
  {
    assert [x, y][..1] == [x] && [x][..0] == [];
    assert After(l, [x]) == Next(l, State(map[], []), x);
  }

  /** Asking for q less than nothing buys q above the limit: any amount at all in one instant. */
  lemma {:induction false} NegativeRequestBuysRoom(l: Limiter, caller: string, q: int)
    requires l.window > 0.0 && LimitOf(l, caller) >= 0 && q > 0
    ensures var calls := [Call(caller, 0.0, -q), Call(caller, l.window, LimitOf(l, caller) + q)];
            && Clocked(calls) && AtLeast(calls, -q)
            && Sum(After(l, calls).grants, caller, Between(l.window, l.window)) == LimitOf(l, caller) + q
  {
    var limit, w := LimitOf(l, caller), l.window;
    TwoCalls(l, Call(caller, 0.0, -q), Call(caller, w, limit + q));
    OneWindow(l, caller, -q, limit + q);
    var g0, g1 := Grant(caller, 0.0, -q, 0.0), Grant(caller, w, limit + q, 0.0);
    SumOfTwo(g0, g1, caller, Between(w, w));
  }

  lemma {:induction false} SumOfTwo(g0: Grant, g1: Grant, caller: string, p: Pick)
    requires g0.caller == caller == g1.caller && !Picks(p, g0) && Picks(p, g1)
    ensures Sum([g0] + [g1], caller, p) == g1.amount
  {
    SumAppend([g0], g1, caller, p);
    SumAppend([], g0, caller, p);
    assert [] + [g0] == [g0];
  }

  /** What one instant grants the caller is within its limit. */
  predicate InstantBound(l: Limiter, caller: string, calls: seq<Call>, at: real) {
    Sum(After(l, calls).grants, caller, Between(at, at)) <= LimitOf(l, caller)
  }

  /** Main result: with requests of at least m, the limit holds at every instant of every run exactly
      when m is not negative. */
  lemma {:induction false} InstantBoundExactly(l: Limiter, caller: string, m: int)
    requires l.window > 0.0 && LimitOf(l, caller) >= 0
    ensures (forall calls, at | Clocked(calls) && AtLeast(calls, m) :: InstantBound(l, caller, calls, at)) <==> m >= 0
  {
    if m >= 0 {
      forall calls, at | Clocked(calls) && AtLeast(calls, m) ensures InstantBound(l, caller, calls, at) {
        SlidingBound(l, calls, caller, at, at, 0);
      }
    } else {
      NegativeRequestBuysRoom(l, caller, -m);
      var calls := [Call(caller, 0.0, m), Call(caller, l.window, LimitOf(l, caller) - m)];
      assert Clocked(calls) && AtLeast(calls, m) && !InstantBound(l, caller, calls, l.window);
    }
  }

  /** With negative requests no multiple of the limit is a bound, twice the limit included. */
  lemma {:induction false} NegativeRequestsUnbounded(l: Limiter, caller: string, bound: nat)
    requires l.window > 0.0 && LimitOf(l, caller) >= 0
    ensures exists calls, at :: Clocked(calls) && Sum(After(l, calls).grants, caller, Between(at, at)) > bound
  {
    NegativeRequestBuysRoom(l, caller, bound + 1);
    var calls := [Call(caller, 0.0, -(bound + 1)), Call(caller, l.window, LimitOf(l, caller) + (bound + 1))];
    assert Clocked(calls);
  }

  /** What the three limiters let a caller do in any hour, or any minute. */
  lemma {:induction false} TwiceTheLimit(l: Limiter, calls: seq<Call>, caller: string, a: real)
    requires l in {TOKEN_BUDGETS, ACTIONS_PER_SESSION, MODEL_ACCESS} && Proper(calls)
    ensures Sum(After(l, calls).grants, caller, Between(a, a + l.window)) <= 2 * LimitOf(l, caller)
  {
    assert l.window >= 0.0 && LimitOf(l, caller) >= 0;
    SlidingBound(l, calls, caller, a, a + l.window, 1);
  }
}
