/** Collecting the public keys of the cluster's nodes and containers: a result per host reached,
    filled in as the answers come, and one list of keys with distinct bodies. */
module KeyCollection {
  import opened Common
  import opened Lines
  import opened KeyMesh

  // ---- One host's answer ----------------------------------------------------------------

  /** What the collecting command gave on a host. */
  datatype Reply = Reply(rc: int, out: string)

  predicate IsKeyLine(line: string) { "ssh-" <= line || "ecdsa-" <= line }

  /** The key lines among some lines, stripped. */
  function KeyLines(raws: seq<string>): seq<string> {
    if raws == [] then []
    else KeyLines(raws[..|raws| - 1]) + if IsKeyLine(Strip(raws[|raws| - 1])) then [Strip(raws[|raws| - 1])] else []
  }

  /** A host that fails has no keys. */
  function Collected(reply: Reply): seq<string> {
    if reply.rc in {0, 1} then KeyLines(SplitLines(reply.out)) else []
  }

  lemma {:induction false} KeyLinesAreLines(raws: seq<string>)
    requires forall i | 0 <= i < |raws| :: forall c | c in raws[i] :: !Breaks(c)
    ensures forall i | 0 <= i < |KeyLines(raws)| :: OneLine(KeyLines(raws)[i])
  {
    if raws != [] {
      var n := |raws| - 1;
      KeyLinesAreLines(raws[..n]);
      StripTwice(raws[n]);
      assert forall c | c in raws[n] :: !Breaks(c);
    }
  }

  /** The keys are exactly the lines that begin like a key once stripped. */
  lemma {:induction false} KeyLinesExactly(raws: seq<string>, key: string)
    ensures key in KeyLines(raws) <==>
              ("ssh-" <= key || "ecdsa-" <= key) && exists i | 0 <= i < |raws| :: Strip(raws[i]) == key
  {
    if raws != [] {
      var init := raws[..|raws| - 1];
      KeyLinesExactly(init, key);
      if i :| 0 <= i < |raws| && Strip(raws[i]) == key {
        if i < |init| { assert Strip(init[i]) == key; }
      }
      if i :| 0 <= i < |init| && Strip(init[i]) == key { assert Strip(raws[i]) == key; }
    }
  }

  /** Every key collected is a single line, as the merge results of `KeyMesh` ask. A return code of 1 is
      no failure. */
  method CollectPubkeys(reply: Reply) returns (keys: seq<string>)
    ensures keys == Collected(reply)
    ensures keys == if reply.rc == 0 || reply.rc == 1 then KeyLines(SplitLines(reply.out)) else []
    ensures forall i | 0 <= i < |keys| :: OneLine(keys[i])
  {
    keys := [];
    if reply.rc == 124 || reply.rc !in {0, 1} { return; }
    var raws := SplitLines(reply.out);
    for i := 0 to |raws|
      invariant keys == KeyLines(raws[..i])
    {
      assert raws[..i + 1][..i] == raws[..i];
      if IsKeyLine(Strip(raws[i])) { keys := keys + [Strip(raws[i])]; }
    }
    assert raws[..|raws|] == raws;
    KeyLinesAreLines(raws);
  }

  // ---- All hosts --------------------------------------------------------------------------

  datatype Container = Container(alias: string, address: string, gateway: string)

  /** One collection: the host it is told to reach, and the gateway it goes through. */
  datatype Job = Job(host: string, gateway: Option<string>)

  /** The nodes are reached by alias, the containers by address. */
  function Jobs(aliases: seq<string>, proxied: seq<Container>): seq<Job> {
    seq(|aliases| + |proxied|, i requires 0 <= i < |aliases| + |proxied| =>
      if i < |aliases| then Job(aliases[i], None)
      else Job(proxied[i - |aliases|].address, Some(proxied[i - |aliases|].gateway)))
  }

  /** The names results are looked up under: aliases throughout. */
  function Names(aliases: seq<string>, proxied: seq<Container>): seq<string> {
    aliases + seq(|proxied|, i requires 0 <= i < |proxied| => proxied[i].alias)
  }

  /** A finished job, with what its host answered that time. */
  datatype Answer = Answer(job: Job, reply: Reply)

  function JobsIn(done: seq<Answer>): (r: seq<Job>)
    ensures |r| == |done| && forall i | 0 <= i < |done| :: r[i] == done[i].job
  {
    seq(|done|, i requires 0 <= i < |done| => done[i].job)
  }

  /** All jobs have finished, in some order, each with an answer of its own. */
  predicate Completes(aliases: seq<string>, proxied: seq<Container>, done: seq<Answer>) {
    multiset(JobsIn(done)) == multiset(Jobs(aliases, proxied))
  }

  /** The results by the host reached; a later answer replaces an earlier one. */
  function Results(done: seq<Answer>): map<string, seq<string>> {
    if done == [] then map[]
    else
      var last := done[|done| - 1];
      Results(done[..|done| - 1])[last.job.host := Collected(last.reply)]
  }

  /** The keys under the names in turn; a name without a result has none. */
  function KeysOf(names: seq<string>, results: map<string, seq<string>>): seq<string> {
    if names == [] then []
    else KeysOf(names[..|names| - 1], results) + KeysUnder(names[|names| - 1], results)
  }

  function KeysUnder(name: string, results: map<string, seq<string>>): seq<string> {
    if name in results then results[name] else []
  }

  const NOTHING := Merge([], {}, 0, 0)

  /** The distinct keys, the first of each body. */
  function AllKeys(aliases: seq<string>, proxied: seq<Container>, done: seq<Answer>): seq<string> {
    MergeAll(KeysOf(Names(aliases, proxied), Results(done)), NOTHING).lines
  }

  method CollectResults(done: seq<Answer>) returns (results: map<string, seq<string>>)
    ensures results == Results(done)
  {
    results := map[];
    for i := 0 to |done|
      invariant results == Results(done[..i])
    {
      assert done[..i + 1][..i] == done[..i];
      var keys := CollectPubkeys(done[i].reply);
      results := results[done[i].job.host := keys];
    }
    assert done[..|done|] == done;
  }

  lemma {:induction false} MergeInTurn(keys: seq<string>, more: seq<string>, m: Merge)
    ensures MergeAll(keys + more, m) == MergeAll(more, MergeAll(keys, m))
  {
    if more == [] {
      assert keys + more == keys;
    } else {
      MergeInTurn(keys, more[..|more| - 1], m);
      assert (keys + more)[..|keys + more| - 1] == keys + more[..|more| - 1];
    }
  }

  /** One host's keys, those with a new body only. */
  method AddDistinct(keys: seq<string>, before: seq<string>, known: set<string>, ghost m: Merge)
    returns (all: seq<string>, seen: set<string>)
    requires m.lines == before && m.bodies == known
    ensures MergeAll(keys, m).lines == all && MergeAll(keys, m).bodies == seen
  {
    all, seen := before, known;
    for k := 0 to |keys|
      invariant MergeAll(keys[..k], m).lines == all && MergeAll(keys[..k], m).bodies == seen
    {
      assert keys[..k + 1][..k] == keys[..k];
      var parts := Split(keys[k]);
      if |parts| >= SSH_KEY_MIN_PARTS && parts[1] !in seen {
        seen, all := seen + {parts[1]}, all + [keys[k]];
      }
    }
    assert keys[..|keys|] == keys;
  }

  lemma {:induction false} NextName(names: seq<string>, results: map<string, seq<string>>, h: nat, m: Merge)
    requires h < |names|
    ensures MergeAll(KeysOf(names[..h + 1], results), m)
         == MergeAll(KeysUnder(names[h], results), MergeAll(KeysOf(names[..h], results), m))
  {
    assert names[..h + 1][..h] == names[..h];
    MergeInTurn(KeysOf(names[..h], results), KeysUnder(names[h], results), m);
  }

  /** The distinct keys under the names. */
  method DistinctKeys(names: seq<string>, results: map<string, seq<string>>) returns (all: seq<string>)
    ensures all == MergeAll(KeysOf(names, results), NOTHING).lines
  {
    all := [];
    var seen: set<string> := {};
    ghost var m := NOTHING;
    for h := 0 to |names|
      invariant m == MergeAll(KeysOf(names[..h], results), NOTHING) && m.lines == all && m.bodies == seen
    {
      NextName(names, results, h, NOTHING);
      all, seen := AddDistinct(KeysUnder(names[h], results), all, seen, m);
      m := MergeAll(KeysUnder(names[h], results), m);
    }
    assert names[..|names|] == names;
  }

  /** The jobs finish in any order, with any answers. */
  method CollectAllKeys(aliases: seq<string>, proxied: seq<Container>, done: seq<Answer>) returns (all: seq<string>)
    requires Completes(aliases, proxied, done)
    ensures all == AllKeys(aliases, proxied, done)
  {
    var results := CollectResults(done);
    all := DistinctKeys(Names(aliases, proxied), results);
  }

  // ---- Whose keys are distributed ------------------------------------------------------------

  lemma {:induction false} BodiesConcat(a: seq<string>, b: seq<string>)
    ensures Bodies(a + b) == Bodies(a) + Bodies(b)
  {
    if b == [] {
      assert a + b == a;
    } else {
      BodiesConcat(a, b[..|b| - 1]);
      assert (a + b)[..|a + b| - 1] == a + b[..|b| - 1];
    }
  }

  lemma {:induction false} BodiesUnderNames(names: seq<string>, results: map<string, seq<string>>, b: string)
    ensures b in Bodies(KeysOf(names, results)) <==> exists name :: name in names && b in Bodies(KeysUnder(name, results))
  {
    if names != [] {
      var n := |names| - 1;
      BodiesUnderNames(names[..n], results, b);
      BodiesConcat(KeysOf(names[..n], results), KeysUnder(names[n], results));
      assert forall name :: name in names <==> name in names[..n] || name == names[n];
    }
  }

  lemma {:induction false} KeysComeFrom(names: seq<string>, results: map<string, seq<string>>, key: string)
    requires key in KeysOf(names, results)
    ensures exists name :: name in names && key in KeysUnder(name, results)
  {
    var n := |names| - 1;
    if key in KeysOf(names[..n], results) {
      KeysComeFrom(names[..n], results, key);
      var name :| name in names[..n] && key in KeysUnder(name, results);
      assert name in names;
    } else {
      assert names[n] in names;
    }
  }

  /** The list has each body once, no key that was not looked up, and it is exactly the bodies of
      the results looked up. */
  lemma {:induction false} DistinctAndComplete(aliases: seq<string>, proxied: seq<Container>, done: seq<Answer>, b: string)
    ensures var all, results := AllKeys(aliases, proxied, done), Results(done);
            && (forall i, j | 0 <= i < j < |all| :: BodyOf(all[i]) != BodyOf(all[j]))
            && (b in Bodies(all) <==> exists name :: name in Names(aliases, proxied) && b in Bodies(KeysUnder(name, results)))
            && (forall i | 0 <= i < |all| :: exists name :: name in Names(aliases, proxied) && all[i] in KeysUnder(name, results))
  {
    var results := Results(done);
    var keys := KeysOf(Names(aliases, proxied), results);
    MergeAddsFresh(keys, NOTHING);
    MergeKnows(keys, NOTHING);
    MergeCounts(keys, NOTHING);
    BodiesUnderNames(Names(aliases, proxied), results, b);
    forall key | key in keys ensures exists name :: name in Names(aliases, proxied) && key in KeysUnder(name, results) {
      KeysComeFrom(Names(aliases, proxied), results, key);
    }
  }

  /** Answer i was the last to be stored under its host. */
  predicate LastFor(done: seq<Answer>, i: nat)
    requires i < |done|
  {
    forall j | i < j < |done| :: done[j].job.host != done[i].job.host
  }

  lemma {:induction false} LastStays(done: seq<Answer>, i: nat)
    requires i < |done| && LastFor(done, i)
    ensures KeysUnder(done[i].job.host, Results(done)) == Collected(done[i].reply)
  {
    var n := |done| - 1;
    if i < n {
      LastStays(done[..n], i);
    }
  }

  lemma {:induction false} LastExists(done: seq<Answer>, host: string) returns (k: int)
    ensures -1 <= k < |done|
    ensures k >= 0 ==> done[k].job.host == host && LastFor(done, k)
    ensures k < 0 ==> forall i | 0 <= i < |done| :: done[i].job.host != host
  {
    k := |done| - 1;
    while k >= 0 && done[k].job.host != host
      invariant -1 <= k < |done|
      invariant forall i | k < i < |done| :: done[i].job.host != host
    {
      k := k - 1;
    }
  }

  lemma {:induction false} NothingUnder(done: seq<Answer>, host: string)
    requires forall i | 0 <= i < |done| :: done[i].job.host != host
    ensures host !in Results(done)
  {
    if done != [] {
      NothingUnder(done[..|done| - 1], host);
      assert done[|done| - 1].job.host != host;
    }
  }

  /** Answer i is looked up: its host is one of the names, and no later answer overwrote it. */
  predicate Heard(aliases: seq<string>, proxied: seq<Container>, done: seq<Answer>, i: nat)
    requires i < |done|
  {
    done[i].job.host in Names(aliases, proxied) && LastFor(done, i)
  }

  /** Main result: a key body is distributed exactly when an answer that is looked up brought it; a
      container's is looked up only if its address happens to be one of the names. */
  lemma {:induction false} DistributedExactly(aliases: seq<string>, proxied: seq<Container>, done: seq<Answer>, b: string)
    ensures b in Bodies(AllKeys(aliases, proxied, done)) <==>
              exists i | 0 <= i < |done| :: Heard(aliases, proxied, done, i) && b in Bodies(Collected(done[i].reply))
  {
    var results := Results(done);
    DistinctAndComplete(aliases, proxied, done, b);
    if name :| name in Names(aliases, proxied) && b in Bodies(KeysUnder(name, results)) {
      var k := LastExists(done, name);
      if k < 0 { NothingUnder(done, name); }
      LastStays(done, k);
      assert Heard(aliases, proxied, done, k);
    }
    if i :| 0 <= i < |done| && Heard(aliases, proxied, done, i) && b in Bodies(Collected(done[i].reply)) {
      LastStays(done, i);
    }
  }

  ghost predicate AllDistributed(aliases: seq<string>, proxied: seq<Container>, done: seq<Answer>) {
    forall i, b | 0 <= i < |done| && b in Bodies(Collected(done[i].reply)) :: b in Bodies(AllKeys(aliases, proxied, done))
  }

  /** Every host reached is a name looked up, and no two jobs reach one host. */
  predicate WellNamed(aliases: seq<string>, proxied: seq<Container>) {
    var jobs := Jobs(aliases, proxied);
    && (forall i | 0 <= i < |jobs| :: jobs[i].host in Names(aliases, proxied))
    && (forall i, j | 0 <= i < j < |jobs| :: jobs[i].host != jobs[j].host)
  }

  lemma {:induction false} OneLineOnly(s: string)
    requires s != "" && forall i | 0 <= i < |s| :: !Breaks(s[i])
    ensures BreakAt(s) == |s| && SplitLines(s) == [s]
  {
    if |s| > 1 { OneLineOnly(s[1..]); }
  }

  lemma {:induction false} KeyLinesOfOne(line: string)
    requires Strip(line) == line && IsKeyLine(line)
    ensures KeyLines([line]) == [line]
  {
    var raws: seq<string> := [line];
    assert raws[..0] == [];
    assert KeyLines(raws) == [] + [line];
  }

  lemma {:induction false} KeyLineStarts(kind: string, body: string)
    requires IsKeyLine(kind)
    ensures IsKeyLine(kind + " " + body)
  {
    var line := kind + " " + body;
    assert "ssh-" <= kind ==> line[..4] == kind[..4];
    assert "ecdsa-" <= kind ==> line[..6] == kind[..6];
  }

  /** A single well-formed key line is collected as it is. */
  lemma {:induction false} KeyOutput(kind: string, body: string)
    requires Solid(kind) && Solid(body) && IsKeyLine(kind)
    ensures Bodies(Collected(Reply(0, kind + " " + body))) == {body}
  {
    var line := kind + " " + body;
    KeyLine(kind, body);
    OneLineOnly(line);
    KeyLineStarts(kind, body);
    KeyLinesOfOne(line);
    BodiesOfOne(line);
  }

  lemma {:induction false} BodiesOfOne(line: string)
    ensures Bodies([line]) == BodySet(line)
  {
    BodiesAppend([], line);
    assert [] + [line] == [line];
  }

  /** The jobs finish in order, and all answer with nothing but job i, which has a key. */
  function OneKey(jobs: seq<Job>, i: nat): (done: seq<Answer>)
    ensures JobsIn(done) == jobs
  {
    seq(|jobs|, k requires 0 <= k < |jobs| => Answer(jobs[k], Reply(0, if k == i then "ssh-rsa" + " " + "B" else "")))
  }

  lemma {:induction false} OneKeyBodies(jobs: seq<Job>, i: nat, k: nat)
    requires k < |jobs|
    ensures Bodies(Collected(OneKey(jobs, i)[k].reply)) == if k == i then {"B"} else {}
  {
    if k == i {
      assert "ssh-" <= "ssh-rsa" by { assert "ssh-rsa"[..4] == "ssh-"; }
      KeyOutput("ssh-rsa", "B");
    }
  }

  /** A job that is not looked up can bring a key that is not distributed. */
  lemma {:induction false} UnheardLoses(aliases: seq<string>, proxied: seq<Container>, i: nat)
    requires var jobs := Jobs(aliases, proxied); i < |jobs| && !Heard(aliases, proxied, OneKey(jobs, i), i)
    ensures var done := OneKey(Jobs(aliases, proxied), i);
            && Completes(aliases, proxied, done) && !AllDistributed(aliases, proxied, done)
            && "B" in Bodies(Collected(done[i].reply)) && "B" !in Bodies(AllKeys(aliases, proxied, done))
  {
    var jobs := Jobs(aliases, proxied);
    var done := OneKey(jobs, i);
    DistributedExactly(aliases, proxied, done, "B");
    forall k | 0 <= k < |done| && k != i ensures "B" !in Bodies(Collected(done[k].reply)) {
      OneKeyBodies(jobs, i, k);
    }
    OneKeyBodies(jobs, i, i);
  }

  lemma {:induction false} CountDistinct(s: seq<Job>)
    ensures (forall i, j | 0 <= i < j < |s| :: s[i] != s[j]) <==> forall x :: multiset(s)[x] <= 1
  {
    if s != [] {
      var n := |s| - 1;
      CountDistinct(s[..n]);
      assert s == s[..n] + [s[n]];
      assert s[n] in s[..n] <==> multiset(s[..n])[s[n]] > 0;
      assert forall i | 0 <= i < n :: s[..n][i] == s[i];
      if forall i, j | 0 <= i < j < |s| :: s[i] != s[j] {
        assert s[n] !in s[..n];
      }
      if forall x :: multiset(s)[x] <= 1 {
        assert multiset(s)[s[n]] == multiset(s[..n])[s[n]] + 1;
        forall x ensures multiset(s[..n])[x] <= 1 { assert multiset(s[..n])[x] <= multiset(s)[x]; }
      }
    }
  }

  /** Where no two jobs reach one host, no answer is overwritten. */
  lemma {:induction false} NoneOverwritten(aliases: seq<string>, proxied: seq<Container>, done: seq<Answer>, i: nat)
    requires Completes(aliases, proxied, done) && i < |done|
    requires var jobs := Jobs(aliases, proxied); forall x, y | 0 <= x < y < |jobs| :: jobs[x].host != jobs[y].host
    ensures LastFor(done, i)
  {
    var jobs, finished := Jobs(aliases, proxied), JobsIn(done);
    CountDistinct(jobs);
    CountDistinct(finished);
    forall j | i < j < |done| ensures done[j].job.host != done[i].job.host {
      assert finished[i] in multiset(jobs) && finished[j] in multiset(jobs);
      var x :| 0 <= x < |jobs| && jobs[x] == finished[i];
      var y :| 0 <= y < |jobs| && jobs[y] == finished[j];
      assert finished[i] != finished[j];
    }
  }

  lemma {:induction false} WellNamedLoseNothing(aliases: seq<string>, proxied: seq<Container>, done: seq<Answer>)
    requires Completes(aliases, proxied, done) && WellNamed(aliases, proxied)
    ensures AllDistributed(aliases, proxied, done)
  {
    var jobs := Jobs(aliases, proxied);
    forall i, b | 0 <= i < |done| && b in Bodies(Collected(done[i].reply)) ensures b in Bodies(AllKeys(aliases, proxied, done)) {
      NoneOverwritten(aliases, proxied, done, i);
      assert JobsIn(done)[i] in multiset(jobs);
      assert Heard(aliases, proxied, done, i);
      DistributedExactly(aliases, proxied, done, b);
    }
  }

  /** Main result: all keys collected are distributed, however the jobs finish and whatever the hosts
      answer, exactly when every address a container is reached at is itself a name looked up, and
      no host is reached twice. */
  lemma {:induction false} EveryKeyDistributedExactly(aliases: seq<string>, proxied: seq<Container>)
    ensures (forall done | Completes(aliases, proxied, done) :: AllDistributed(aliases, proxied, done))
       <==> WellNamed(aliases, proxied)
  {
    if WellNamed(aliases, proxied) {
      forall done | Completes(aliases, proxied, done) ensures AllDistributed(aliases, proxied, done) {
        WellNamedLoseNothing(aliases, proxied, done);
      }
    } else {
      var jobs := Jobs(aliases, proxied);
      var i :| 0 <= i < |jobs| && (jobs[i].host !in Names(aliases, proxied)
                                   || exists j | i < j < |jobs| :: jobs[i].host == jobs[j].host);
      UnheardLoses(aliases, proxied, i);
    }
  }

  /** A node listed twice: the key of its first answer is lost when the second brings none. */
  lemma {:induction false} RepeatedNodeLoses(alias: string)
    ensures var jobs := Jobs([alias, alias], []);
            var done := OneKey(jobs, 0);
            && !WellNamed([alias, alias], []) && Completes([alias, alias], [], done)
            && "B" in Bodies(Collected(done[0].reply)) && "B" !in Bodies(AllKeys([alias, alias], [], done))
  {
    var jobs := Jobs([alias, alias], []);
    assert jobs[0].host == jobs[1].host && OneKey(jobs, 0)[1].job == jobs[1];
    UnheardLoses([alias, alias], [], 0);
  }

  lemma {:induction false} HeardIsNode(aliases: seq<string>, proxied: seq<Container>, job: Job)
    requires job in Jobs(aliases, proxied) && forall c | c in proxied :: c.address !in Names(aliases, proxied)
    ensures job.host in Names(aliases, proxied) <==> job.gateway == None
  {
    var jobs, n := Jobs(aliases, proxied), |aliases|;
    assert forall j | n <= j < |jobs| :: proxied[j - n] in proxied && jobs[j].host == proxied[j - n].address;
    assert forall j | 0 <= j < n :: jobs[j] == Job(aliases[j], None) && Names(aliases, proxied)[j] == aliases[j];
    var j :| 0 <= j < |jobs| && jobs[j] == job;
  }

  /** When no container's address is a name looked up, no container's keys are distributed: the
      list holds exactly the keys of each node's last answer. */
  lemma {:induction false} ContainersDropped(aliases: seq<string>, proxied: seq<Container>, done: seq<Answer>, b: string)
    requires Completes(aliases, proxied, done) && forall c | c in proxied :: c.address !in Names(aliases, proxied)
    ensures b in Bodies(AllKeys(aliases, proxied, done)) <==>
              exists i | 0 <= i < |done| ::
                done[i].job.gateway == None && LastFor(done, i) && b in Bodies(Collected(done[i].reply))
  {
    DistributedExactly(aliases, proxied, done, b);
    forall i | 0 <= i < |done| ensures Heard(aliases, proxied, done, i) <==> done[i].job.gateway == None && LastFor(done, i) {
      assert JobsIn(done)[i] in multiset(Jobs(aliases, proxied));
      HeardIsNode(aliases, proxied, done[i].job);
    }
  }

  // ---- The cluster itself ----------------------------------------------------------------------

  const CLUSTER := ["orchestrator", "hz.62", "hz.113", "hz.118", "hz.123", "hz.157", "hz.164", "hz.215", "hz.223", "hz.247"]

  const PROXIED_NODES := [
    Container("postgres-main", "10.0.1.107", "hz.247"), Container("neanelu-prod", "10.0.1.111", "hz.215"),
    Container("neanelu-staging", "10.0.1.112", "hz.215"), Container("neanelu-ci", "10.0.1.108", "hz.223"),
    Container("staging-cerniq", "10.0.1.110", "hz.223"), Container("prod-cerniq", "10.0.1.109", "hz.223"),
    Container("llm-guard", "10.0.1.115", "hz.215"), Container("wapp-pro-app", "10.0.1.105", "hz.215")]

  lemma {:induction false} AddressesAreNoNames()
    ensures forall c | c in PROXIED_NODES :: c.address !in Names(CLUSTER, PROXIED_NODES)
  {
    forall name | name in Names(CLUSTER, PROXIED_NODES) ensures !StartsWithOne(name) {
      AliasesStartOtherwise(name);
    }
    forall c | c in PROXIED_NODES ensures StartsWithOne(c.address) {
      var i :| 0 <= i < |PROXIED_NODES| && PROXIED_NODES[i] == c;
    }
  }

  predicate StartsWithOne(s: string) { s != "" && s[0] == '1' }

  lemma {:induction false} AliasesStartOtherwise(name: string)
    requires name in Names(CLUSTER, PROXIED_NODES)
    ensures !StartsWithOne(name)
  {
    var names := Names(CLUSTER, PROXIED_NODES);
    assert forall a | a in CLUSTER :: !StartsWithOne(a);
    assert forall c | c in PROXIED_NODES :: !StartsWithOne(c.alias);
    var i :| 0 <= i < |names| && names[i] == name;
    if i < |CLUSTER| {
      assert name in CLUSTER;
    } else {
      assert PROXIED_NODES[i - |CLUSTER|] in PROXIED_NODES;
    }
  }

  /** A number telling the cluster's hosts apart: length and last three characters. */
  function Mark(host: string): int
    requires |host| >= 3
  {
    var n := |host|;
    n * 1_000_000 + host[n - 3] as int * 10_000 + host[n - 2] as int * 100 + host[n - 1] as int
  }

  function PlaceOf(m: int): nat {
    if m == 13_171_214 then 0
    else if m == 5_465_450 then 1
    else if m == 6_494_951 then 2
    else if m == 6_494_956 then 3
    else if m == 6_495_051 then 4
    else if m == 6_495_355 then 5
    else if m == 6_495_452 then 6
    else if m == 6_504_953 then 7
    else if m == 6_505_051 then 8
    else if m == 6_505_255 then 9
    else if m == 10_494_855 then 10
    else if m == 10_494_949 then 11
    else if m == 10_494_950 then 12
    else if m == 10_494_856 then 13
    else if m == 10_494_948 then 14
    else if m == 10_494_857 then 15
    else if m == 10_494_953 then 16
    else if m == 10_494_853 then 17
    else 18
  }

  lemma {:induction false} NodePlaces(i: nat)
    requires i < |CLUSTER|
    ensures |CLUSTER[i]| >= 3 && PlaceOf(Mark(CLUSTER[i])) == i
  {}

  lemma {:induction false} ContainerPlaces(i: nat)
    requires i < |PROXIED_NODES|
    ensures |PROXIED_NODES[i].address| == 10 && PlaceOf(Mark(PROXIED_NODES[i].address)) == 10 + i
  {}

  lemma {:induction false} HostsDiffer()
    ensures var jobs := Jobs(CLUSTER, PROXIED_NODES); forall i, j | 0 <= i < j < |jobs| :: jobs[i].host != jobs[j].host
  {
    var jobs := Jobs(CLUSTER, PROXIED_NODES);
    forall i | 0 <= i < |jobs| ensures |jobs[i].host| >= 3 && PlaceOf(Mark(jobs[i].host)) == i {
      if i < |CLUSTER| { NodePlaces(i); } else { ContainerPlaces(i - |CLUSTER|); }
    }
  }

  /** In the cluster as configured no container's keys are ever distributed: the list holds exactly
      the keys the nodes answered with. */
  lemma {:induction false} ClusterDropsContainers(done: seq<Answer>, b: string)
    requires Completes(CLUSTER, PROXIED_NODES, done)
    ensures b in Bodies(AllKeys(CLUSTER, PROXIED_NODES, done)) <==>
              exists i | 0 <= i < |done| :: done[i].job.gateway == None && b in Bodies(Collected(done[i].reply))
  {
    AddressesAreNoNames();
    ContainersDropped(CLUSTER, PROXIED_NODES, done, b);
    forall i | 0 <= i < |done| && done[i].job.gateway == None ensures LastFor(done, i) {
      NodeAnswersOnce(done, i);
    }
  }

  lemma {:induction false} NodeAnswersOnce(done: seq<Answer>, i: nat)
    requires Completes(CLUSTER, PROXIED_NODES, done) && i < |done|
    ensures LastFor(done, i)
  {
    HostsDiffer();
    NoneOverwritten(CLUSTER, PROXIED_NODES, done, i);
  }

  /** The key of `postgres-main`, if it is the only host to answer with one, is not in the list. */
  lemma {:induction false} PostgresDropped()
    ensures var jobs := Jobs(CLUSTER, PROXIED_NODES);
            var done := OneKey(jobs, 10);
            && |jobs| == 18 && jobs[10] == Job("10.0.1.107", Some("hz.247")) && Completes(CLUSTER, PROXIED_NODES, done)
            && "B" in Bodies(Collected(done[10].reply)) && "B" !in Bodies(AllKeys(CLUSTER, PROXIED_NODES, done))
  {
    AddressesAreNoNames();
    assert PROXIED_NODES[0] in PROXIED_NODES;
    UnheardLoses(CLUSTER, PROXIED_NODES, 10);
  }
}
