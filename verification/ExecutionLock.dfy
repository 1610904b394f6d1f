/** The Redis execution lock: its key, its atomic commands, and what every interleaving of
    its callers keeps. */
module ExecutionLock {

  import opened Common

  // ---- The key -------------------------------------------------------------------

  const KEY_PREFIX := "infraq:execlock"

  function Sanitise(s: string): (r: string)
    ensures |r| == |s|
    ensures forall i | 0 <= i < |s| :: r[i] == if s[i] == ':' then '_' else s[i]
  {
    if s == "" then "" else [if s[0] == ':' then '_' else s[0]] + Sanitise(s[1..])
  }

  function LockKey(entity: string, action: string): string {
    KEY_PREFIX + ":" + Sanitise(entity) + ":" + Sanitise(action)
  }

  /** Two requests contend for one lock exactly when their sanitised parts are equal. */
  lemma {:induction false} LockKeyExact(entity: string, action: string, entity': string, action': string)
    ensures LockKey(entity, action) == LockKey(entity', action')
       <==> Sanitise(entity) == Sanitise(entity') && Sanitise(action) == Sanitise(action')
  {
    if LockKey(entity, action) == LockKey(entity', action') {
      AfterPrefix(entity, action);
      AfterPrefix(entity', action');
      FirstSplit(':', Sanitise(entity), Sanitise(action), Sanitise(entity'), Sanitise(action'));
    }
  }

  lemma {:induction false} AfterPrefix(entity: string, action: string)
    ensures |LockKey(entity, action)| > |KEY_PREFIX|
    ensures LockKey(entity, action)[|KEY_PREFIX| + 1..] == Sanitise(entity) + ":" + Sanitise(action)
    ensures ':' !in Sanitise(entity)
  {
    var p, q := KEY_PREFIX + ":", Sanitise(entity) + ":" + Sanitise(action);
    assert LockKey(entity, action) == p + q;
    assert (p + q)[|p|..] == q;
  }

  // ---- The atomic commands -----------------------------------------------------------

  type Token = nat

  /** An unexpired key: its ownership token and the time it vanishes. */
  datatype Entry = Entry(token: Token, expires: int)
  type Entries = map<string, Entry>

  predicate OwnedBy(entries: Entries, key: string, token: Token) {
    key in entries && entries[key].token == token
  }

  /** `SET key token NX EX window`; a window that is not positive is a Redis error. */
  function SetNxEx(entries: Entries, now: int, key: string, token: Token, window: int): (Entries, bool) {
    if window <= 0 || key in entries then (entries, false)
    else (entries[key := Entry(token, now + window)], true)
  }

  /** The release script: delete the key if it still holds the token. */
  function CompareDelete(entries: Entries, key: string, token: Token): (Entries, bool) {
    if OwnedBy(entries, key, token) then (entries - {key}, true) else (entries, false)
  }

  /** The extend script: EXPIRE sets the remaining time, and deletes the key if it is not positive. */
  function CompareExpire(entries: Entries, now: int, key: string, token: Token, extra: int): (Entries, bool) {
    if !OwnedBy(entries, key, token) then (entries, false)
    else if extra <= 0 then (entries - {key}, true)
    else (entries[key := Entry(token, now + extra)], true)
  }

  /** Keys vanish when their time comes. */
  function Expire(entries: Entries, now: int): Entries {
    map k | k in entries && now < entries[k].expires :: entries[k]
  }

  // ---- The lock service ----------------------------------------------------------------

  class LockService {
    var entries: Entries
    var now: int
    var nextToken: Token

    constructor ()
      ensures entries == map[] && now == 0 && nextToken == 0
    {
      entries, now, nextToken := map[], 0, 0;
    }

    method Acquire(entity: string, action: string, window: int, up: bool) returns (r: Option<Token>)
      modifies this
      ensures now == old(now)
      ensures nextToken == old(nextToken) + 1
      ensures var (after, ok) := SetNxEx(old(entries), now, LockKey(entity, action), old(nextToken), window);
              && (up ==> entries == after && r == if ok then Some(old(nextToken)) else None)
              && (!up ==> entries == old(entries) && r == None)
    {
      var token := nextToken;
      nextToken := nextToken + 1;
      if !up { return None; }
      var (after, ok) := SetNxEx(entries, now, LockKey(entity, action), token, window);
      entries := after;
      r := if ok then Some(token) else None;
    }

    method Release(entity: string, action: string, token: Token, up: bool) returns (ok: bool)
      modifies this`entries
      ensures up ==> (entries, ok) == CompareDelete(old(entries), LockKey(entity, action), token)
      ensures !up ==> entries == old(entries) && !ok
    {
      if !up { return false; }
      var (after, done) := CompareDelete(entries, LockKey(entity, action), token);
      entries, ok := after, done;
    }

    method Extend(token: Token, entity: string, action: string, extra: int, up: bool) returns (ok: bool)
      modifies this`entries
      ensures up ==> (entries, ok) == CompareExpire(old(entries), now, LockKey(entity, action), token, extra)
      ensures !up ==> entries == old(entries) && !ok
    {
      if !up { return false; }
      var (after, done) := CompareExpire(entries, now, LockKey(entity, action), token, extra);
      entries, ok := after, done;
    }

    /** Fails closed: without Redis everything counts as locked. With it, whatever commands led to
        the store's contents, the answer is whether somebody's claim on the key is still running. */
    method IsLocked(entity: string, action: string, up: bool, ghost steps: seq<Step>) returns (locked: bool)
      requires entries == After(steps).entries
      ensures !up ==> locked
      ensures up ==> (locked <==> Claimed(After(steps), LockKey(entity, action)))
    {
      PresentExactly(steps, LockKey(entity, action));
      locked := !up || LockKey(entity, action) in entries;
    }
  }

  // ---- Every interleaving of callers -----------------------------------------------------

  /** What the caller that was handed a token believes: its key and until when it holds it. */
  datatype Claim = Claim(key: string, deadline: int)

  datatype World = World(entries: Entries, now: int, next: Token, claims: map<Token, Claim>)

  datatype Step =
    | Acquire(entity: string, action: string, window: int)
    | Refused
    | Release(entity: string, action: string, token: Token)
    | Extend(token: Token, entity: string, action: string, extra: int)
    | Tick(seconds: nat)

  const START := World(map[], 0, 0, map[])

  /** `Refused` is an acquire that Redis failed: its token is never stored. */
  function Next(w: World, step: Step): World {
    match step
    case Refused => w.(next := w.next + 1)
    case Acquire(entity, action, window) =>
      var key := LockKey(entity, action);
      var (after, ok) := SetNxEx(w.entries, w.now, key, w.next, window);
      World(after, w.now, w.next + 1, if ok then w.claims[w.next := Claim(key, w.now + window)] else w.claims)
    case Release(entity, action, token) =>
      var (after, ok) := CompareDelete(w.entries, LockKey(entity, action), token);
      w.(entries := after, claims := if ok then w.claims - {token} else w.claims)
    case Extend(token, entity, action, extra) =>
      var key := LockKey(entity, action);
      var (after, ok) := CompareExpire(w.entries, w.now, key, token, extra);
      w.(entries := after, claims := if ok then w.claims[token := Claim(key, w.now + extra)] else w.claims)
    case Tick(seconds) =>
      w.(now := w.now + seconds, entries := Expire(w.entries, w.now + seconds))
  }

  function After(steps: seq<Step>): World {
    if steps == [] then START else Next(After(steps[..|steps| - 1]), steps[|steps| - 1])
  }

  /** The caller's claim is still running. */
  predicate Holds(w: World, t: Token) {
    t in w.claims && w.now < w.claims[t].deadline
  }

  /** Redis and the callers agree: the keys present are exactly the running claims. */
  ghost predicate Agrees(w: World) {
    && (forall k | k in w.entries :: Holds(w, w.entries[k].token)
                                     && w.claims[w.entries[k].token] == Claim(k, w.entries[k].expires))
    && (forall t | Holds(w, t) :: OwnedBy(w.entries, w.claims[t].key, t))
    && (forall t | t in w.claims :: t < w.next)
  }

  lemma {:induction false} NextAgrees(w: World, step: Step)
    requires Agrees(w)
    ensures Agrees(Next(w, step))
  {
    var w' := Next(w, step);
    match step
    case Refused =>
    case Acquire(entity, action, window) => AcquireAgrees(w, LockKey(entity, action), window, w');
    case Release(entity, action, token) =>
    case Extend(token, entity, action, extra) => ExtendAgrees(w, LockKey(entity, action), token, extra, w');
    case Tick(seconds) =>
  }

  lemma {:induction false} AcquireAgrees(w: World, key: string, window: int, w': World)
    requires Agrees(w)
    requires var (after, ok) := SetNxEx(w.entries, w.now, key, w.next, window);
             w' == World(after, w.now, w.next + 1, if ok then w.claims[w.next := Claim(key, w.now + window)] else w.claims)
    ensures Agrees(w')
  {
    assert w.next !in w.claims;
  }

  lemma {:induction false} ExtendAgrees(w: World, key: string, token: Token, extra: int, w': World)
    requires Agrees(w)
    requires var (after, ok) := CompareExpire(w.entries, w.now, key, token, extra);
             w' == w.(entries := after, claims := if ok then w.claims[token := Claim(key, w.now + extra)] else w.claims)
    ensures Agrees(w')
  {}

  lemma {:induction false} AlwaysAgrees(steps: seq<Step>)
    ensures Agrees(After(steps))
  {
    if steps != [] {
      AlwaysAgrees(steps[..|steps| - 1]);
      NextAgrees(After(steps[..|steps| - 1]), steps[|steps| - 1]);
    }
  }

  /** Main result: two callers never hold running claims on one key. */
  lemma {:induction false} MutualExclusion(steps: seq<Step>, t: Token, u: Token)
    requires Holds(After(steps), t) && Holds(After(steps), u)
    requires After(steps).claims[t].key == After(steps).claims[u].key
    ensures t == u
  {
    AlwaysAgrees(steps);
  }

  /** Somebody's claim on the key is running. */
  ghost predicate Claimed(w: World, key: string) {
    exists t :: Holds(w, t) && w.claims[t].key == key
  }

  /** On every interleaving a key is in the store exactly while somebody's claim on it runs. */
  lemma {:induction false} PresentExactly(steps: seq<Step>, key: string)
    ensures key in After(steps).entries <==> Claimed(After(steps), key)
  {
    AlwaysAgrees(steps);
    var w := After(steps);
    if key in w.entries { assert Holds(w, w.entries[key].token); }
  }

  /** A lock is granted exactly when nobody's claim on its key is running. */
  lemma {:induction false} GrantedExactly(steps: seq<Step>, entity: string, action: string, window: int)
    requires window > 0
    ensures (Next(After(steps), Acquire(entity, action, window)).claims != After(steps).claims)
       <==> !Claimed(After(steps), LockKey(entity, action))
  {
    var w, key := After(steps), LockKey(entity, action);
    AlwaysAgrees(steps);
    PresentExactly(steps, key);
    assert w.next !in w.claims;
    if key !in w.entries { assert w.next in Next(w, Acquire(entity, action, window)).claims; }
  }

  /** A lock granted and left alone is gone exactly when its window is over. */
  lemma {:induction false} LastsExactly(steps: seq<Step>, entity: string, action: string, window: int, seconds: nat)
    requires window > 0 && !Claimed(After(steps), LockKey(entity, action))
    ensures var w := Next(Next(After(steps), Acquire(entity, action, window)), Tick(seconds));
            LockKey(entity, action) in w.entries <==> seconds < window
  {
    PresentExactly(steps, LockKey(entity, action));
  }

  function TokenOf(step: Step): Option<Token> {
    match step
    case Release(_, _, t) => Some(t)
    case Extend(t, _, _, _) => Some(t)
    case _ => None
  }

  /** A release or extend touches no entry but one held under the very token presented; so a
      stale or foreign token changes nothing, and no other caller's claim is disturbed. */
  lemma {:induction false} ForeignTokenHarmless(steps: seq<Step>, step: Step, key: string)
    requires TokenOf(step).Some? && key in After(steps).entries
    requires After(steps).entries[key].token != TokenOf(step).value
    ensures var w, w' := After(steps), Next(After(steps), step);
            key in w'.entries && w'.entries[key] == w.entries[key]
    ensures var w, w' := After(steps), Next(After(steps), step);
            forall t | Holds(w, t) && t != TokenOf(step).value :: Holds(w', t) && w'.claims[t] == w.claims[t]
    ensures var w, w' := After(steps), Next(After(steps), step);
            !Holds(w, TokenOf(step).value) ==> w' == w
  {
    AlwaysAgrees(steps);
  }

  /** Extending sets the remaining time: a holder's deadline moves back exactly when it asks for
      less than it had left. */
  lemma {:induction false} ExtendSetsDeadline(steps: seq<Step>, t: Token, entity: string, action: string, extra: int)
    requires var w := After(steps); Holds(w, t) && w.claims[t].key == LockKey(entity, action)
    ensures var w, w' := After(steps), Next(After(steps), Extend(t, entity, action, extra));
            && w'.claims[t].deadline == w.now + extra
            && (w'.claims[t].deadline < w.claims[t].deadline <==> extra < w.claims[t].deadline - w.now)
            && (Holds(w', t) <==> extra > 0)
  {
    AlwaysAgrees(steps);
  }

  /** A 300-second lock extended by 1 second at once runs out 299 seconds early. */
  lemma {:induction false} ExtendCutsShort(entity: string, action: string)
    ensures var taken := After([Acquire(entity, action, 300)]);
            var w := After([Acquire(entity, action, 300), Extend(0, entity, action, 1)]);
            && Holds(taken, 0) && taken.claims[0].deadline == 300 && Holds(w, 0) && w.claims[0].deadline == 1
  {
    var key := LockKey(entity, action);
    var acquire, extend := Acquire(entity, action, 300), Extend(0, entity, action, 1);
    assert [acquire, extend][..1] == [acquire] && [acquire][..0] == [];
    assert After([acquire]) == Next(START, acquire);
    assert After([acquire]).claims == map[0 := Claim(key, 300)];
    ExtendSetsDeadline([acquire], 0, entity, action, 1);
    assert After([acquire, extend]) == Next(After([acquire]), extend);
  }
}
