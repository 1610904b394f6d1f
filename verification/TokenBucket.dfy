/** A token bucket: a counter kept beside an asyncio semaphore, across waits, cancellations,
    releases and refill cycles. */
module TokenBucket {

  // ---- The semaphore, as CPython's asyncio (3.12 and later) has it ------------------------

  /** A waiter's future: not done; set by a wake-up; cancelled before one; or set, and then its
      task cancelled before it ran again. */
  datatype Waiter = Pending | Granted | Withdrawn | Spoilt

  datatype Semaphore = Semaphore(value: nat, waiters: seq<Waiter>)

  predicate Locked(s: Semaphore) {
    s.value == 0 || exists i | 0 <= i < |s.waiters| :: !s.waiters[i].Withdrawn?
  }

  function FirstPending(ws: seq<Waiter>): (i: nat)
    ensures i <= |ws|
    ensures forall j | 0 <= j < i :: !ws[j].Pending?
    ensures i < |ws| ==> ws[i].Pending?
  {
    if ws == [] || ws[0].Pending? then 0 else 1 + FirstPending(ws[1..])
  }

  /** `_wake_up_next`: hand one unit to the first waiter that is not done. */
  function WakeNext(s: Semaphore): Semaphore {
    var i := FirstPending(s.waiters);
    if s.value > 0 && i < |s.waiters| then Semaphore(s.value - 1, s.waiters[i := Granted]) else s
  }

  function WakeAll(s: Semaphore): Semaphore
    decreases s.value
  {
    if s.value > 0 && FirstPending(s.waiters) < |s.waiters| then WakeAll(WakeNext(s)) else s
  }

  function Released(s: Semaphore): Semaphore { WakeNext(s.(value := s.value + 1)) }

  function Without(ws: seq<Waiter>, k: nat): seq<Waiter>
    requires k < |ws|
  {
    ws[..k] + ws[k + 1..]
  }

  // ---- The bucket ----------------------------------------------------------------------

  /** `completed`, `returned` and `refilled` count the acquires that finished, the releases that
      gave a token back and the tokens the refill loop added, over `cycles` rounds. */
  datatype Bucket = Bucket(sem: Semaphore, tokens: int, completed: nat, returned: nat, refilled: nat, cycles: nat)

  datatype Config = Config(max: nat, rate: nat)

  /** Everything between two awaits is one event; `k` is a waiter's place in the queue. */
  datatype Event = Acquire | Resume(k: nat) | Cancel(k: nat) | Release | RefillCycle

  function New(c: Config): Bucket { Bucket(Semaphore(c.max, []), c.max, 0, 0, 0, 0) }

  function AddToken(c: Config, b: Bucket): Bucket {
    if b.tokens < c.max then b.(sem := Released(b.sem), tokens := b.tokens + 1) else b
  }

  function Refill(c: Config, b: Bucket, n: nat): Bucket
    decreases n
  {
    if n == 0 || b.tokens >= c.max then b
    else Refill(c, AddToken(c, b).(refilled := b.refilled + 1), n - 1)
  }

  function ResumeAt(b: Bucket, k: nat): Bucket
    requires k < |b.sem.waiters|
  {
    var rest := Without(b.sem.waiters, k);
    match b.sem.waiters[k]
    case Pending => b
    case Granted =>
      b.(sem := WakeAll(Semaphore(b.sem.value, rest)), tokens := b.tokens - 1, completed := b.completed + 1)
    case Withdrawn => b.(sem := WakeAll(Semaphore(b.sem.value, rest)))
    case Spoilt => b.(sem := WakeAll(Semaphore(b.sem.value + 1, rest)))
  }

  function CancelAt(b: Bucket, k: nat): Bucket
    requires k < |b.sem.waiters|
  {
    match b.sem.waiters[k]
    case Pending => b.(sem := b.sem.(waiters := b.sem.waiters[k := Withdrawn]))
    case Granted => b.(sem := b.sem.(waiters := b.sem.waiters[k := Spoilt]))
    case _ => b
  }

  function Next(c: Config, b: Bucket, e: Event): Bucket {
    match e
    case Acquire =>
      if Locked(b.sem) then b.(sem := b.sem.(waiters := b.sem.waiters + [Pending]))
      else b.(sem := b.sem.(value := b.sem.value - 1), tokens := b.tokens - 1, completed := b.completed + 1)
    case Resume(k) => if k < |b.sem.waiters| then ResumeAt(b, k) else b
    case Cancel(k) => if k < |b.sem.waiters| then CancelAt(b, k) else b
    case Release => if b.tokens < c.max then AddToken(c, b).(returned := b.returned + 1) else b
    case RefillCycle => Refill(c, b, c.rate).(cycles := b.cycles + 1)
  }

  function After(c: Config, es: seq<Event>): Bucket {
    if es == [] then New(c) else Next(c, After(c, es[..|es| - 1]), es[|es| - 1])
  }

  // ---- What every run keeps --------------------------------------------------------------

  predicate Owed(w: Waiter) { w.Granted? || w.Spoilt? }

  /** Grants whose waiter has not run again yet. */
  function Grants(ws: seq<Waiter>): nat {
    if ws == [] then 0 else Grants(ws[..|ws| - 1]) + if Owed(ws[|ws| - 1]) then 1 else 0
  }

  /** Nobody is granted a unit while someone ahead still waits. */
  ghost predicate InOrder(ws: seq<Waiter>) {
    forall i, j | 0 <= i < j < |ws| :: ws[i].Pending? ==> !Owed(ws[j])
  }

  /** Grants go out in the order of arrival, and no unit lies idle beside a waiter unless some
      granted waiter is about to run. */
  ghost predicate QueueOk(s: Semaphore) {
    && InOrder(s.waiters)
    && (s.value > 0 && FirstPending(s.waiters) < |s.waiters| ==> exists j | 0 <= j < |s.waiters| :: Owed(s.waiters[j]))
  }

  predicate Balanced(b: Bucket) { b.tokens == b.sem.value + Grants(b.sem.waiters) }

  ghost predicate BucketOk(c: Config, b: Bucket) {
    && Balanced(b) && b.tokens <= c.max && QueueOk(b.sem)
    && b.tokens == c.max - b.completed + b.returned + b.refilled
    && b.refilled <= c.rate * b.cycles
  }

  lemma {:induction false} GrantsUpdate(ws: seq<Waiter>, k: nat, w: Waiter)
    requires k < |ws|
    ensures Grants(ws[k := w]) == Grants(ws) - (if Owed(ws[k]) then 1 else 0) + (if Owed(w) then 1 else 0)
  {
    var n := |ws| - 1;
    if k == n {
      assert ws[k := w][..n] == ws[..n];
    } else {
      GrantsUpdate(ws[..n], k, w);
      assert ws[k := w][..n] == ws[..n][k := w];
    }
  }

  lemma {:induction false} GrantsWithout(ws: seq<Waiter>, k: nat)
    requires k < |ws|
    ensures Grants(ws) == Grants(Without(ws, k)) + if Owed(ws[k]) then 1 else 0
  {
    var n := |ws| - 1;
    if k == n {
      assert Without(ws, k) == ws[..n];
    } else {
      GrantsWithout(ws[..n], k);
      assert Without(ws, k)[..n - 1] == Without(ws[..n], k);
    }
  }

  /** A wake-up moves one unit from the value to a grant, and keeps the order of arrival. */
  lemma {:induction false} WakeNextKeeps(s: Semaphore)
    requires InOrder(s.waiters)
    ensures var s' := WakeNext(s);
            && s'.value + Grants(s'.waiters) == s.value + Grants(s.waiters) && |s'.waiters| == |s.waiters|
            && InOrder(s'.waiters)
  {
    var i := FirstPending(s.waiters);
    if s.value > 0 && i < |s.waiters| { GrantsUpdate(s.waiters, i, Granted); }
  }

  /** One wake-up is enough for QueueOk: the waiter woken is about to run. */
  lemma {:induction false} WakeNextReady(s: Semaphore)
    requires s.value > 0
    ensures FirstPending(WakeNext(s).waiters) < |WakeNext(s).waiters| ==>
              exists j | 0 <= j < |WakeNext(s).waiters| :: Owed(WakeNext(s).waiters[j])
  {
    var i := FirstPending(s.waiters);
    if i < |s.waiters| {
      assert Owed(WakeNext(s).waiters[i]);
    }
  }

  lemma {:induction false} WakeAllKeeps(s: Semaphore)
    requires InOrder(s.waiters)
    ensures QueueOk(WakeAll(s))
    ensures WakeAll(s).value + Grants(WakeAll(s).waiters) == s.value + Grants(s.waiters)
    ensures WakeAll(s).value == 0 || FirstPending(WakeAll(s).waiters) == |WakeAll(s).waiters|
    decreases s.value
  {
    if s.value > 0 && FirstPending(s.waiters) < |s.waiters| {
      WakeNextKeeps(s);
      WakeAllKeeps(WakeNext(s));
    }
  }

  lemma {:induction false} OrderWithout(ws: seq<Waiter>, k: nat)
    requires k < |ws| && InOrder(ws)
    ensures InOrder(Without(ws, k))
  {
    assert forall i | 0 <= i < |ws| - 1 :: Without(ws, k)[i] == ws[if i < k then i else i + 1];
  }

  lemma {:induction false} AcquireKeeps(c: Config, b: Bucket)
    requires BucketOk(c, b)
    ensures BucketOk(c, Next(c, b, Acquire))
  {
    var ws := b.sem.waiters;
    if Locked(b.sem) {
      assert (ws + [Pending])[..|ws|] == ws;
      if b.sem.value > 0 {
        var i :| 0 <= i < |ws| && !ws[i].Withdrawn?;
        assert Owed(ws[i]) || FirstPending(ws) < |ws|;
        var j :| 0 <= j < |ws| && Owed(ws[j]);
        assert Owed((ws + [Pending])[j]);
      }
    }
  }

  lemma {:induction false} ResumeKeeps(c: Config, b: Bucket, k: nat)
    requires BucketOk(c, b) && k < |b.sem.waiters|
    ensures BucketOk(c, Next(c, b, Resume(k)))
  {
    var ws := b.sem.waiters;
    var rest := Without(ws, k);
    GrantsWithout(ws, k);
    OrderWithout(ws, k);
    WakeAllKeeps(Semaphore(b.sem.value, rest));
    WakeAllKeeps(Semaphore(b.sem.value + 1, rest));
  }

  lemma {:induction false} CancelKeeps(c: Config, b: Bucket, k: nat)
    requires BucketOk(c, b) && k < |b.sem.waiters|
    ensures BucketOk(c, Next(c, b, Cancel(k)))
  {
    var ws, ws' := b.sem.waiters, CancelAt(b, k).sem.waiters;
    GrantsUpdate(ws, k, ws'[k]);
    if b.sem.value > 0 && FirstPending(ws') < |ws'| {
      assert ws[FirstPending(ws')].Pending?;
      var j :| 0 <= j < |ws| && Owed(ws[j]);
      assert Owed(ws'[j]);
    }
  }

  lemma {:induction false} AddTokenKeeps(c: Config, b: Bucket)
    requires Balanced(b) && QueueOk(b.sem) && b.tokens < c.max
    ensures Balanced(AddToken(c, b)) && QueueOk(AddToken(c, b).sem) && AddToken(c, b).tokens == b.tokens + 1
  {
    var s := b.sem.(value := b.sem.value + 1);
    WakeNextKeeps(s);
    WakeNextReady(s);
  }

  lemma {:induction false} RefillKeeps(c: Config, b: Bucket, n: nat)
    requires Balanced(b) && QueueOk(b.sem) && b.tokens <= c.max
    ensures var b' := Refill(c, b, n);
            && Balanced(b') && QueueOk(b'.sem) && b'.tokens <= c.max
            && b'.tokens - b.tokens == b'.refilled - b.refilled && b.refilled <= b'.refilled <= b.refilled + n
            && b'.completed == b.completed && b'.returned == b.returned && b'.cycles == b.cycles
    decreases n
  {
    if n > 0 && b.tokens < c.max {
      AddTokenKeeps(c, b);
      RefillKeeps(c, AddToken(c, b).(refilled := b.refilled + 1), n - 1);
    }
  }

  lemma {:induction false} NextKeeps(c: Config, b: Bucket, e: Event)
    requires BucketOk(c, b)
    ensures BucketOk(c, Next(c, b, e))
  {
    match e
    case Acquire => AcquireKeeps(c, b);
    case Resume(k) => if k < |b.sem.waiters| { ResumeKeeps(c, b, k); }
    case Cancel(k) => if k < |b.sem.waiters| { CancelKeeps(c, b, k); }
    case Release => if b.tokens < c.max { AddTokenKeeps(c, b); }
    case RefillCycle =>
      RefillKeeps(c, b, c.rate);
      assert c.rate * (b.cycles + 1) == c.rate * b.cycles + c.rate;
  }

  lemma {:induction false} AlwaysOk(c: Config, es: seq<Event>)
    ensures BucketOk(c, After(c, es))
  {
    if es != [] {
      AlwaysOk(c, es[..|es| - 1]);
      NextKeeps(c, After(c, es[..|es| - 1]), es[|es| - 1]);
    }
  }

  // ---- Main results -----------------------------------------------------------------------

  /** At every await point the counter is the semaphore's value and the grants not yet taken up,
      and lies between 0 and the maximum. */
  lemma {:induction false} CounterInStep(c: Config, es: seq<Event>)
    ensures var b := After(c, es);
            b.tokens == b.sem.value + Grants(b.sem.waiters) && 0 <= b.tokens <= c.max
  {
    AlwaysOk(c, es);
  }

  /** However many waiters are cancelled, no more acquires complete than the bucket held at first,
      the refill cycles could add and the releases gave back. */
  lemma {:induction false} CompletedBounded(c: Config, es: seq<Event>)
    ensures var b := After(c, es); b.completed <= c.max + c.rate * b.cycles + b.returned
  {
    AlwaysOk(c, es);
    CounterInStep(c, es);
  }

  /** Nobody waits in vain: once every waiter that was woken or cancelled has run, somebody still
      waits only if the bucket is empty. */
  lemma {:induction false} NoLostToken(c: Config, es: seq<Event>)
    requires AllWaiting(After(c, es).sem.waiters)
    ensures After(c, es).sem.waiters != [] ==> After(c, es).tokens == 0
  {
    AlwaysOk(c, es);
    var ws := After(c, es).sem.waiters;
    if ws != [] {
      assert ws[0].Pending?;
      NoGrants(ws);
    }
  }

  /** From s to s' one unit came in, and went to the first pending waiter or, failing one, to the value. */
  ghost predicate GivenTo(s: Semaphore, s': Semaphore) {
    || (s' == s.(value := s.value + 1) && forall w | w in s.waiters :: !w.Pending?)
    || exists i | 0 <= i < |s.waiters| ::
         && s.waiters[i].Pending? && (forall j | 0 <= j < i :: !s.waiters[j].Pending?)
         && s' == s.(waiters := s.waiters[i := Granted])
  }

  lemma {:induction false} ReleasedGoesOn(s: Semaphore)
    ensures GivenTo(s, Released(s))
  {
    var i := FirstPending(s.waiters);
    if i < |s.waiters| { assert s.waiters[i].Pending?; }
  }

  lemma {:induction false} WakeAllLength(s: Semaphore)
    ensures |WakeAll(s).waiters| == |s.waiters|
    decreases s.value
  {
    if s.value > 0 && FirstPending(s.waiters) < |s.waiters| { WakeAllLength(WakeNext(s)); }
  }

  /** A waiter that is cancelled leaves the queue without a token, granted one before or not; one that
      is granted a token and not cancelled takes it. */
  lemma {:induction false} CancelledTakesNothing(c: Config, b: Bucket, k: nat)
    requires k < |b.sem.waiters|
    ensures var b' := Next(c, Next(c, b, Cancel(k)), Resume(k));
            b'.completed == b.completed && b'.tokens == b.tokens && |b'.sem.waiters| == |b.sem.waiters| - 1
    ensures var b' := Next(c, b, Resume(k));
            b.sem.waiters[k].Granted? ==>
              b'.completed == b.completed + 1 && b'.tokens == b.tokens - 1 && |b'.sem.waiters| == |b.sem.waiters| - 1
  {
    var cancelled := Next(c, b, Cancel(k));
    var rest := Without(cancelled.sem.waiters, k);
    WakeAllLength(Semaphore(b.sem.value, rest));
    WakeAllLength(Semaphore(b.sem.value + 1, rest));
    WakeAllLength(Semaphore(b.sem.value, Without(b.sem.waiters, k)));
  }

  predicate AllWaiting(ws: seq<Waiter>) { forall i | 0 <= i < |ws| :: ws[i].Pending? }

  lemma {:induction false} NoGrants(ws: seq<Waiter>)
    requires forall i | 0 <= i < |ws| :: !Owed(ws[i])
    ensures Grants(ws) == 0
  {
    if ws != [] { NoGrants(ws[..|ws| - 1]); }
  }

  /** First come, first served: a waiter is granted a token only when nobody ahead of it is still
      waiting for one, and a caller that need not wait overtakes nobody. */
  lemma {:induction false} FirstComeFirstServed(c: Config, es: seq<Event>, i: nat, j: nat)
    requires i < j < |After(c, es).sem.waiters| && Owed(After(c, es).sem.waiters[j])
    ensures !After(c, es).sem.waiters[i].Pending?
    ensures Next(c, After(c, es), Acquire).completed == After(c, es).completed
  {
    AlwaysOk(c, es);
  }

  // ---- The bucket object ---------------------------------------------------------------------

  class TokenBucket {
    const maxTokens: nat
    const refillRate: nat
    var semaphore: Semaphore
    var currentTokens: int
    ghost var completed: nat
    ghost var returned: nat
    ghost var refilled: nat
    ghost var cycles: nat

    ghost function Contents(): Bucket reads this {
      Bucket(semaphore, currentTokens, completed, returned, refilled, cycles)
    }

    function Settings(): Config { Config(maxTokens, refillRate) }

    ghost predicate Valid() reads this { BucketOk(Settings(), Contents()) }

    constructor (maxTokens: nat, refillRate: nat)
      requires maxTokens >= 1 && refillRate >= 1
      ensures Valid() && Contents() == New(Settings())
      ensures this.maxTokens == maxTokens && this.refillRate == refillRate
    {
      this.maxTokens, this.refillRate := maxTokens, refillRate;
      semaphore, currentTokens := Semaphore(maxTokens, []), maxTokens;
      completed, returned, refilled, cycles := 0, 0, 0, 0;
    }

    /** `acquire` up to its await: either it is through, or it waits at the end of the queue. */
    method Acquire() returns (through: bool)
      requires Valid()
      modifies this
      ensures Valid() && Contents() == Next(Settings(), old(Contents()), Event.Acquire)
      ensures through <==> old(semaphore).value > 0 && forall w | w in old(semaphore).waiters :: w.Withdrawn?
      ensures through ==> currentTokens == old(currentTokens) - 1 && semaphore.waiters == old(semaphore).waiters
      ensures !through ==> currentTokens == old(currentTokens) && semaphore.waiters == old(semaphore).waiters + [Pending]
    {
      NextKeeps(Settings(), Contents(), Event.Acquire);
      if Locked(semaphore) {
        semaphore := semaphore.(waiters := semaphore.waiters + [Pending]);
        return false;
      }
      semaphore := semaphore.(value := semaphore.value - 1);
      currentTokens := currentTokens - 1;
      completed := completed + 1;
      through := true;
    }

    /** The rest of `acquire`, when a waiter whose future is done runs again. */
    method ResumeWaiter(k: nat) returns (through: bool)
      requires Valid() && k < |semaphore.waiters| && !semaphore.waiters[k].Pending?
      modifies this
      ensures Valid() && Contents() == Next(Settings(), old(Contents()), Resume(k))
      ensures through <==> old(semaphore).waiters[k].Granted?
      ensures currentTokens == old(currentTokens) - if through then 1 else 0
      ensures |semaphore.waiters| == |old(semaphore).waiters| - 1
      ensures semaphore.value > 0 ==> forall i | 0 <= i < |semaphore.waiters| :: !semaphore.waiters[i].Pending?
    {
      NextKeeps(Settings(), Contents(), Resume(k));
      ResumeWakes(Contents(), k);
      var was := semaphore.waiters[k];
      var rest := Without(semaphore.waiters, k);
      var value := semaphore.value + if was.Spoilt? then 1 else 0;
      WakeAllLength(Semaphore(value, rest));
      semaphore := WakeAll(Semaphore(value, rest));
      through := was.Granted?;
      if through {
        currentTokens := currentTokens - 1;
        completed := completed + 1;
      }
    }

    /** A token given back goes to the first waiter still waiting, if there is one. */
    method Release()
      requires Valid()
      modifies this
      ensures Valid() && Contents() == Next(Settings(), old(Contents()), Event.Release)
      ensures currentTokens == old(currentTokens) + if old(currentTokens) < maxTokens then 1 else 0
      ensures old(currentTokens) >= maxTokens ==> semaphore == old(semaphore)
      ensures old(currentTokens) < maxTokens ==> GivenTo(old(semaphore), semaphore)
    {
      NextKeeps(Settings(), Contents(), Event.Release);
      ReleasedGoesOn(semaphore);
      if currentTokens < maxTokens {
        semaphore := Released(semaphore);
        currentTokens := currentTokens + 1;
        returned := returned + 1;
      }
    }

    /** One round of the refill loop, after its sleep. */
    method RunRefillCycle() returns (added: nat)
      requires Valid()
      modifies this
      ensures Valid() && Contents() == Next(Settings(), old(Contents()), RefillCycle)
      ensures currentTokens == old(currentTokens) + added
      ensures added == if maxTokens - old(currentTokens) < refillRate then maxTokens - old(currentTokens) else refillRate
    {
      NextKeeps(Settings(), Contents(), RefillCycle);
      added := 0;
      var i := 0;
      while i < refillRate
        invariant 0 <= i <= refillRate && added == i && currentTokens == old(currentTokens) + i <= maxTokens
        invariant cycles == old(cycles)
        invariant Refill(Settings(), Contents(), refillRate - i) == Refill(Settings(), old(Contents()), refillRate)
      {
        if currentTokens >= maxTokens { break; }
        semaphore := Released(semaphore);
        currentTokens := currentTokens + 1;
        refilled := refilled + 1;
        added := added + 1;
        i := i + 1;
      }
      cycles := cycles + 1;
    }
  }

  lemma {:induction false} ResumeWakes(b: Bucket, k: nat)
    requires k < |b.sem.waiters| && !b.sem.waiters[k].Pending? && QueueOk(b.sem)
    ensures var s := ResumeAt(b, k).sem; s.value > 0 ==> forall i | 0 <= i < |s.waiters| :: !s.waiters[i].Pending?
  {
    var ws := b.sem.waiters;
    OrderWithout(ws, k);
    var left := Semaphore(b.sem.value + if ws[k].Spoilt? then 1 else 0, Without(ws, k));
    assert ResumeAt(b, k).sem == WakeAll(left);
    WakeAllKeeps(left);
  }
}
