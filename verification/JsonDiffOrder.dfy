/** The operations of one diff touch disjoint places, so their order does not matter. */
module JsonDiffOrder {
  import opened Common
  import opened JsonPatch
  import opened Ordering
  import opened JsonDiff
  import opened JsonDiffTheorems

  // ---- No emitted path is a prefix of another ---------------------------------------

  predicate Comparable(p: seq<string>, q: seq<string>) {
    p <= q || q <= p
  }

  ghost predicate Antichain(es: seq<Edit>) {
    forall i, j | 0 <= i < j < |es| :: !Comparable(es[i].path, es[j].path)
  }

  lemma {:induction false} EditsAntichain(before: Json, after: Json)
    ensures Antichain(Edits(before, after))
    decreases before, 0
  {
    if before.Obj? && after.Obj? {
      SortedKeysAscend(before.fields.Keys + after.fields.Keys);
      EditsOverAntichain(before, after, SortedKeys(before.fields.Keys + after.fields.Keys));
    }
  }

  lemma {:induction false} UnderAntichain(k: string, es: seq<Edit>)
    requires Antichain(es)
    ensures Antichain(Under(k, es))
  {
    forall i, j | 0 <= i < j < |es|
      ensures !Comparable(Under(k, es)[i].path, Under(k, es)[j].path)
    {
      var p, q := es[i].path, es[j].path;
      assert ([k] + p)[1..] == p && ([k] + q)[1..] == q;
    }
  }

  lemma {:induction false} EditsOverAntichain(before: Json, after: Json, ks: seq<string>)
    requires before.Obj? && after.Obj? && Distinct(ks)
    ensures Antichain(EditsOver(before, after, ks))
    decreases before, 0, |ks|
  {
    if ks != [] {
      var k := ks[0];
      var here, rest := EditsAt(before, after, k), EditsOver(before, after, ks[1..]);
      EditsOverAntichain(before, after, ks[1..]);
      EditsOverPaths(before, after, ks[1..]);
      if k in before.fields && k in after.fields {
        EditsAntichain(before.fields[k], after.fields[k]);
        UnderAntichain(k, Edits(before.fields[k], after.fields[k]));
      }
      forall i, j | 0 <= i < |here| && 0 <= j < |rest|
        ensures !Comparable(here[i].path, rest[j].path)
      {
        assert rest[j] in rest && rest[j].path[0] in ks[1..];
        assert here[i].path[0] == k;
      }
      assert EditsOver(before, after, ks) == here + rest;
    }
  }

  // ---- Every operation's parent is an object that is already there -------------------

  predicate ObjectRoute(doc: Json, path: seq<string>)
    decreases |path|
  {
    path == [] || (doc.Obj? && (|path| == 1 || (path[0] in doc.fields && ObjectRoute(doc.fields[path[0]], path[1..]))))
  }

  lemma {:induction false} EditsRoutes(before: Json, after: Json)
    ensures forall e | e in Edits(before, after) :: ObjectRoute(before, e.path)
    decreases before, 0
  {
    if before.Obj? && after.Obj? {
      EditsOverRoutes(before, after, SortedKeys(before.fields.Keys + after.fields.Keys));
    }
  }

  lemma {:induction false} EditsOverRoutes(before: Json, after: Json, ks: seq<string>)
    requires before.Obj? && after.Obj?
    ensures forall e | e in EditsOver(before, after, ks) :: ObjectRoute(before, e.path)
    decreases before, 0, |ks|
  {
    if ks != [] {
      var k := ks[0];
      EditsOverRoutes(before, after, ks[1..]);
      if k in before.fields && k in after.fields {
        EditsRoutes(before.fields[k], after.fields[k]);
        var inner := Edits(before.fields[k], after.fields[k]);
        forall e | e in Under(k, inner) ensures ObjectRoute(before, e.path) {
          var i :| 0 <= i < |inner| && e == Under(k, inner)[i];
          assert inner[i] in inner && e.path[1..] == inner[i].path;
        }
      }
    }
  }

  // ---- Two operations at incomparable places commute ---------------------------------

  function Then(doc: Option<Json>, path: seq<string>, action: Action): Option<Json> {
    match doc case None => None case Some(d) => ApplyAt(d, path, action)
  }

  lemma {:induction false} Commute(doc: Json, p: seq<string>, a: Action, q: seq<string>, b: Action)
    requires !Comparable(p, q) && ObjectRoute(doc, p) && ObjectRoute(doc, q)
    ensures Then(ApplyAt(doc, p, a), q, b) == Then(ApplyAt(doc, q, b), p, a)
    ensures ApplyAt(doc, p, a).Some? ==> ObjectRoute(ApplyAt(doc, p, a).value, q)
    decreases |p|
  {
    assert p != [] && q != [];
    var m, k := doc.fields, p[0];
    if k == q[0] {
      assert p == [k] + p[1..] && q == [k] + q[1..];
      assert !Comparable(p[1..], q[1..]);
      Commute(m[k], p[1..], a, q[1..], b);
      ThenBelow(m, k, p, a, q, b);
      ThenBelow(m, k, q, b, p, a);
    } else {
      CommuteApart(m, p, a, q, b);
      if ApplyAt(doc, p, a).Some? {
        RouteApart(m, p, a, q);
      }
    }
  }

  /** Two operations below the same key act on that key's value alone. */
  lemma {:induction false} ThenBelow(m: map<string, Json>, k: string, p: seq<string>, a: Action, q: seq<string>, b: Action)
    requires |p| > 1 && |q| > 1 && p[0] == k == q[0] && k in m
    ensures Then(ApplyAt(Obj(m), p, a), q, b) ==
            match Then(ApplyAt(m[k], p[1..], a), q[1..], b) case None => None case Some(d) => Some(Obj(m[k := d]))
    ensures ApplyAt(m[k], p[1..], a).Some? && ObjectRoute(ApplyAt(m[k], p[1..], a).value, q[1..]) ==>
              ApplyAt(Obj(m), p, a).Some? && ObjectRoute(ApplyAt(Obj(m), p, a).value, q)
  {
    match ApplyAt(m[k], p[1..], a)
    case None =>
    case Some(c) =>
      var m' := m[k := c];
      assert ApplyAt(Obj(m), p, a) == Some(Obj(m'));
      assert m'[k] == c && ApplyAt(Obj(m'), q, b) == ApplyInObject(m', q, b);
      match ApplyAt(c, q[1..], b)
      case None =>
      case Some(d) => assert m'[k := d] == m[k := d];
  }

  lemma {:induction false} SetKeyApart(m: map<string, Json>, k: string, v: Option<Json>, l: string, w: Option<Json>)
    requires k != l
    ensures SetKey(SetKey(m, k, v), l, w) == SetKey(SetKey(m, l, w), k, v)
  {}

  lemma {:induction false} CommuteApart(m: map<string, Json>, p: seq<string>, a: Action, q: seq<string>, b: Action)
    requires p != [] && q != [] && p[0] != q[0]
    ensures Then(ApplyAt(Obj(m), p, a), q, b) == Then(ApplyAt(Obj(m), q, b), p, a)
  {
    ThenApart(m, p, a, q, b);
    ThenApart(m, q, b, p, a);
    var ea, eb := ApplyEntry(Get(m, p[0]), p, a), ApplyEntry(Get(m, q[0]), q, b);
    if ea.Some? && eb.Some? {
      SetKeyApart(m, p[0], ea.value, q[0], eb.value);
    }
  }

  lemma {:induction false} ThenApart(m: map<string, Json>, p: seq<string>, a: Action, q: seq<string>, b: Action)
    requires p != [] && q != [] && p[0] != q[0]
    ensures Then(ApplyAt(Obj(m), p, a), q, b) ==
            match (ApplyEntry(Get(m, p[0]), p, a), ApplyEntry(Get(m, q[0]), q, b))
            case (Some(x), Some(y)) => Some(Obj(SetKey(SetKey(m, p[0], x), q[0], y)))
            case _ => None
  {
    OwnKeyOnly(m, p, a);
    var ea := ApplyEntry(Get(m, p[0]), p, a);
    if ea.Some? {
      OwnKeyOnly(SetKey(m, p[0], ea.value), q, b);
    }
  }

  lemma {:induction false} RouteApart(m: map<string, Json>, p: seq<string>, a: Action, q: seq<string>)
    requires p != [] && q != [] && p[0] != q[0] && ObjectRoute(Obj(m), q) && ApplyAt(Obj(m), p, a).Some?
    ensures ObjectRoute(ApplyAt(Obj(m), p, a).value, q)
  {
    ApplyAtFrame(m, p, a, q[0]);
  }

  /** An operation reads and writes only the entry its location starts at. */
  lemma {:induction false} OwnKeyOnly(m: map<string, Json>, p: seq<string>, a: Action)
    requires p != []
    ensures ApplyAt(Obj(m), p, a) ==
            match ApplyEntry(Get(m, p[0]), p, a) case None => None case Some(v) => Some(Obj(SetKey(m, p[0], v)))
  {}

  function ApplyEntry(entry: Option<Json>, p: seq<string>, a: Action): Option<Option<Json>>
    requires p != []
  {
    if |p| == 1 then
      match a
      case Add(v) => Some(Some(v))
      case Remove => if entry.Some? then Some(None) else None
      case Replace(v) => if entry.Some? then Some(Some(v)) else None
    else if entry.None? then None
    else
      match ApplyAt(entry.value, p[1..], a)
      case None => None
      case Some(c) => Some(Some(c))
  }

  // ---- Any permutation ------------------------------------------------------------------

  ghost predicate Replayable(doc: Json, es: seq<Edit>) {
    Antichain(es) && forall e | e in es :: ObjectRoute(doc, e.path) && CleanPath(e.path)
  }

  lemma {:induction false} ApplyCleanOp(doc: Json, e: Edit)
    requires CleanPath(e.path)
    ensures ApplyOp(doc, Op("" + Pointer(e.path), e.action)) == ApplyAt(doc, e.path, e.action)
  {
    DecodePointer(e.path);
    assert "" + Pointer(e.path) == Pointer(e.path);
  }

  function Without<T>(s: seq<T>, j: nat): seq<T>
    requires j < |s|
  {
    s[..j] + s[j + 1..]
  }

  lemma {:induction false} StepKeepsReplayable(doc: Json, es: seq<Edit>, j: nat, next: Json)
    requires j < |es| && Replayable(doc, es)
    requires ApplyAt(doc, es[j].path, es[j].action) == Some(next)
    ensures Replayable(next, Without(es, j))
  {
    forall e | e in Without(es, j) ensures ObjectRoute(next, e.path) && CleanPath(e.path) {
      var i :| 0 <= i < |es| && i != j && es[i] == e;
      assert es[j] in es;
      if i < j { assert !Comparable(es[i].path, es[j].path); } else { assert !Comparable(es[j].path, es[i].path); }
      Commute(doc, es[j].path, es[j].action, e.path, e.action);
    }
  }

  lemma {:induction false} ApplyHead(doc: Json, es: seq<Edit>)
    requires es != [] && CleanPath(es[0].path)
    ensures Apply(doc, Render("", es)) ==
            match ApplyAt(doc, es[0].path, es[0].action)
            case None => None
            case Some(next) => Apply(next, Render("", es[1..]))
  {
    assert Render("", es)[1..] == Render("", es[1..]);
    ApplyCleanOp(doc, es[0]);
  }

  /** What follows an operation that was done first. */
  function AfterFirst(first: Option<Json>, rest: seq<Edit>): Option<Json> {
    match first case None => None case Some(next) => Apply(next, Render("", rest))
  }

  /** Any operation of the patch can be done first. */
  lemma {:induction false} DoFirst(doc: Json, es: seq<Edit>, j: nat)
    requires j < |es| && Replayable(doc, es)
    ensures Apply(doc, Render("", es)) == AfterFirst(ApplyAt(doc, es[j].path, es[j].action), Without(es, j))
    decreases j
  {
    var head, tail, e := es[0], es[1..], es[j];
    assert head in es && e in es;
    ApplyHead(doc, es);
    if j == 0 {
      assert Without(es, 0) == tail;
    } else {
      assert !Comparable(head.path, e.path);
      Commute(doc, head.path, head.action, e.path, e.action);
      var rest := Without(tail, j - 1);
      HeadOfRest(es, j);
      AfterHead(ApplyAt(doc, e.path, e.action), Without(es, j));
      var first := ApplyAt(doc, head.path, head.action);
      if first.Some? {
        assert Without(es, 0) == tail;
        StepKeepsReplayable(doc, es, 0, first.value);
        DoFirst(first.value, tail, j - 1);
      }
    }
  }

  lemma {:induction false} HeadOfRest(es: seq<Edit>, j: nat)
    requires 0 < j < |es|
    ensures Without(es, j)[0] == es[0] && Without(es, j)[1..] == Without(es[1..], j - 1)
  {}

  lemma {:induction false} AfterHead(doc: Option<Json>, es: seq<Edit>)
    requires es != [] && CleanPath(es[0].path)
    ensures AfterFirst(doc, es) == AfterFirst(Then(doc, es[0].path, es[0].action), es[1..])
  {
    if doc.Some? {
      ApplyHead(doc.value, es);
    }
  }

  lemma {:induction false} AnyOrderOfEdits(doc: Json, es: seq<Edit>, ops: seq<Op>)
    requires Replayable(doc, es) && multiset(ops) == multiset(Render("", es))
    ensures Apply(doc, ops) == Apply(doc, Render("", es))
    decreases |ops|
  {
    if ops == [] {
      assert multiset(Render("", es)) == multiset{};
    } else {
      var j := PickFirst(es, ops);
      DoFirst(doc, es, j);
      assert es[j] in es;
      ApplyCleanOp(doc, es[j]);
      var first := ApplyAt(doc, es[j].path, es[j].action);
      if first.Some? {
        StepKeepsReplayable(doc, es, j, first.value);
        AnyOrderOfEdits(first.value, Without(es, j), ops[1..]);
      }
    }
  }

  lemma {:induction false} PickFirst(es: seq<Edit>, ops: seq<Op>) returns (j: nat)
    requires ops != [] && multiset(ops) == multiset(Render("", es))
    ensures j < |es| && ops[0] == Op("" + Pointer(es[j].path), es[j].action)
    ensures multiset(ops[1..]) == multiset(Render("", Without(es, j)))
  {
    var all := Render("", es);
    assert ops[0] in multiset(ops);
    assert ops[0] in multiset(all);
    j :| 0 <= j < |all| && all[j] == ops[0];
    RemoveFirst(ops, all, j);
    assert Render("", Without(es, j)) == Without(all, j);
  }

  lemma {:induction false} RemoveFirst<T>(ops: seq<T>, all: seq<T>, j: nat)
    requires ops != [] && j < |all| && all[j] == ops[0] && multiset(ops) == multiset(all)
    ensures multiset(ops[1..]) == multiset(Without(all, j))
  {
    assert ops == [ops[0]] + ops[1..];
    assert all == all[..j] + ([all[j]] + all[j + 1..]);
    calc {
      multiset(all);
      multiset(all[..j]) + multiset([all[j]]) + multiset(all[j + 1..]);
      multiset(Without(all, j)) + multiset([ops[0]]);
    }
    assert multiset(ops[1..]) == multiset(ops) - multiset([ops[0]]);
    assert multiset(Without(all, j)) == multiset(all) - multiset([ops[0]]);
  }

  lemma {:induction false} CleanDiffPaths(before: Json, after: Json)
    requires CleanDiff(before, after)
    ensures forall e | e in Edits(before, after) :: CleanPath(e.path)
    decreases before, 0
  {
    if before.Obj? && after.Obj? {
      CleanDiffPathsOver(before, after, SortedKeys(before.fields.Keys + after.fields.Keys));
    }
  }

  lemma {:induction false} CleanDiffPathsOver(before: Json, after: Json, ks: seq<string>)
    requires before.Obj? && after.Obj? && CleanDiff(before, after)
    requires forall k | k in ks :: k in before.fields.Keys + after.fields.Keys
    ensures forall e | e in EditsOver(before, after, ks) :: CleanPath(e.path)
    decreases before, 0, |ks|
  {
    if ks != [] {
      var k := ks[0];
      CleanDiffPathsOver(before, after, ks[1..]);
      if k in before.fields && k in after.fields {
        EditsEmpty(before.fields[k], after.fields[k]);
        if Differ(before, after, k) {
          CleanDiffPaths(before.fields[k], after.fields[k]);
        }
      }
    }
  }

  /** Main result: the operations of a diff may be applied in any order. */
  lemma {:induction false} DiffAppliesInAnyOrder(before: Json, after: Json, ops: seq<Op>)
    requires CleanDiff(before, after) && multiset(ops) == multiset(Diff(before, after))
    ensures Apply(before, ops) == Some(after)
  {
    EditsAntichain(before, after);
    EditsRoutes(before, after);
    CleanDiffPaths(before, after);
    AnyOrderOfEdits(before, Edits(before, after), ops);
    PatchReproduces(before, after);
  }
}
