/** When replaying a diff as a JSON Patch gives the document it was computed for. */
module JsonDiffTheorems {
  import opened Common
  import opened JsonPatch
  import opened Ordering
  import opened JsonDiff

  // ---- Which keys survive rendering -------------------------------------------

  /** The engine writes keys into pointers unescaped; only these read back as themselves. */
  predicate CleanKey(k: string) {
    '/' !in k && '~' !in k
  }

  predicate CleanPath(path: seq<string>) {
    forall k | k in path :: CleanKey(k)
  }

  predicate PointerTail(q: string) {
    q == "" || q[0] == '/'
  }

  lemma {:induction false} SplitHead(k: string, q: string)
    requires PointerTail(q)
    ensures Split(k + q)[0] == Split(k)[0]
    ensures '/' !in k ==> Split(k) == [k]
    ensures '/' !in k && q != "" ==> Split(k + q) == [k] + Split(q[1..])
    ensures '/' !in Split(k)[0] && |Split(k)[0]| <= |k|
  {
    if k == "" {
      assert k + q == q;
    } else {
      assert (k + q)[1..] == k[1..] + q;
      SplitHead(k[1..], q);
      if '/' !in k {
        assert [k[0]] + k[1..] == k;
        if q != "" {
          var rest := Split(k[1..] + q);
          assert rest == [k[1..]] + Split(q[1..]);
          assert [[k[0]] + rest[0]] + rest[1..] == [k] + Split(q[1..]);
        }
      }
    }
  }

  lemma {:induction false} UnescapeSize(seg: string)
    requires Unescape(seg).Some?
    ensures |Unescape(seg).value| <= |seg|
    ensures '~' in seg ==> |Unescape(seg).value| < |seg|
    ensures '~' !in seg ==> Unescape(seg).value == seg
    decreases |seg|
  {
    if seg != "" {
      if seg[0] != '~' {
        UnescapeSize(seg[1..]);
        assert [seg[0]] + seg[1..] == seg;
      } else {
        UnescapeSize(seg[2..]);
      }
    }
  }

  lemma {:induction false} UnescapeClean(seg: string)
    requires '~' !in seg
    ensures Unescape(seg) == Some(seg)
  {
    if seg != "" {
      UnescapeClean(seg[1..]);
      assert [seg[0]] + seg[1..] == seg;
    }
  }

  /** A first segment without a slash stands for the key it unescapes to, whatever follows it. */
  lemma {:induction false} DecodeToken(seg: string, k: string, q: string)
    requires '/' !in seg && Unescape(seg) == Some(k) && PointerTail(q)
    ensures Decode("/" + seg + q) ==
            match Decode(q) case None => None case Some(ts) => Some([k] + ts)
  {
    var s := "/" + seg + q;
    assert s[1..] == seg + q;
    SplitHead(seg, q);
    if q == "" {
      assert seg + q == seg;
      assert [seg][1..] == [] && UnescapeAll([seg]) == Some([k] + []);
    } else {
      var segs := [seg] + Split(q[1..]);
      assert segs[1..] == Split(q[1..]);
    }
  }

  lemma {:induction false} DecodeCons(k: string, q: string)
    requires CleanKey(k) && PointerTail(q)
    ensures Decode("/" + k + q) ==
            match Decode(q) case None => None case Some(ts) => Some([k] + ts)
  {
    UnescapeClean(k);
    DecodeToken(k, k, q);
  }

  /** A key as section 3 of RFC 6901 has it written. */
  function Escape(k: string): string {
    if k == "" then ""
    else (if k[0] == '~' then "~0" else if k[0] == '/' then "~1" else [k[0]]) + Escape(k[1..])
  }

  function EscapeAll(path: seq<string>): (r: seq<string>)
    ensures |r| == |path| && forall i | 0 <= i < |path| :: r[i] == Escape(path[i])
  {
    if path == [] then [] else [Escape(path[0])] + EscapeAll(path[1..])
  }

  lemma {:induction false} UnescapeEscape(k: string)
    ensures Unescape(Escape(k)) == Some(k) && '/' !in Escape(k)
  {
    if k != "" {
      UnescapeEscape(k[1..]);
      var rest := Escape(k[1..]);
      var head := if k[0] == '~' then "~0" else if k[0] == '/' then "~1" else [k[0]];
      assert Escape(k) == head + rest && (head + rest)[|head|..] == rest;
      assert [k[0]] + k[1..] == k;
    }
  }

  /** Had the engine escaped its keys, every pointer would read back as its path, whatever the keys. */
  lemma {:induction false} DecodeEscaped(path: seq<string>)
    ensures Decode(Pointer(EscapeAll(path))) == Some(path)
  {
    if path != [] {
      var segs := EscapeAll(path);
      assert segs[1..] == EscapeAll(path[1..]);
      DecodeEscaped(path[1..]);
      UnescapeEscape(path[0]);
      DecodeToken(segs[0], path[0], Pointer(segs[1..]));
      assert path == [path[0]] + path[1..];
    }
  }

  lemma {:induction false} DecodePointer(path: seq<string>)
    requires CleanPath(path)
    ensures Decode(Pointer(path)) == Some(path)
  {
    if path != [] {
      DecodePointer(path[1..]);
      DecodeCons(path[0], Pointer(path[1..]));
      assert path == [path[0]] + path[1..];
    }
  }

  /** Whatever the key, its pointer starts at the token its first segment decodes to. */
  lemma {:induction false} DecodeFirst(k: string, q: string)
    requires PointerTail(q) && Decode("/" + k + q).Some?
    ensures var tokens := Decode("/" + k + q).value;
            tokens != [] && Unescape(Split(k)[0]) == Some(tokens[0])
  {
    assert ("/" + k + q)[1..] == k + q;
    SplitHead(k, q);
  }

  // ---- Sequencing --------------------------------------------------------------

  lemma {:induction false} ApplyConcat(doc: Json, a: seq<Op>, b: seq<Op>)
    ensures Apply(doc, a + b) ==
            match Apply(doc, a) case None => None case Some(mid) => Apply(mid, b)
    decreases |a|
  {
    if a == [] {
      assert a + b == b;
    } else {
      assert (a + b)[1..] == a[1..] + b;
      match ApplyOp(doc, a[0])
      case None =>
      case Some(next) => ApplyConcat(next, a[1..], b);
    }
  }

  // ---- One key of an object ------------------------------------------------------

  predicate Differ(before: Json, after: Json, k: string)
    requires before.Obj? && after.Obj?
  {
    !(k in before.fields && k in after.fields && before.fields[k] == after.fields[k])
    && (k in before.fields || k in after.fields)
  }

  /** The documents differ only below keys that are free of '/' and '~'. */
  predicate CleanDiff(before: Json, after: Json)
    decreases before
  {
    before.Obj? && after.Obj? ==>
      forall k | k in before.fields.Keys + after.fields.Keys && Differ(before, after, k) ::
        CleanKey(k) && (k in before.fields && k in after.fields ==>
                        CleanDiff(before.fields[k], after.fields[k]))
  }

  lemma {:induction false} EditsEmpty(before: Json, after: Json)
    ensures Edits(before, after) == [] <==> before == after
    decreases before, 0
  {
    if before.Obj? && after.Obj? {
      var ks := SortedKeys(before.fields.Keys + after.fields.Keys);
      EditsOverEmpty(before, after, ks);
      if before != after {
        assert before.fields != after.fields;
        var k :| k in before.fields.Keys + after.fields.Keys && Differ(before, after, k);
        assert k in ks;
      }
    }
  }

  lemma {:induction false} EditsOverEmpty(before: Json, after: Json, ks: seq<string>)
    requires before.Obj? && after.Obj?
    ensures EditsOver(before, after, ks) == [] <==> forall k | k in ks :: !Differ(before, after, k)
    decreases before, 0, |ks|
  {
    if ks != [] {
      var k := ks[0];
      if k in before.fields && k in after.fields {
        EditsEmpty(before.fields[k], after.fields[k]);
      }
      EditsOverEmpty(before, after, ks[1..]);
      var here, rest := EditsAt(before, after, k), EditsOver(before, after, ks[1..]);
      assert here == [] <==> !Differ(before, after, k);
      assert EditsOver(before, after, ks) == here + rest;
      assert |here + rest| == |here| + |rest|;
      assert forall x :: x in ks <==> x == k || x in ks[1..];
    }
  }

  // ---- Replaying the edits of one key ---------------------------------------------

  function SetKey(m: map<string, Json>, k: string, v: Option<Json>): (r: map<string, Json>)
    ensures forall x | x != k :: (x in r <==> x in m) && (x in m ==> r[x] == m[x])
    ensures if v.Some? then k in r && r[k] == v.value else k !in r
  {
    if v.Some? then m[k := v.value] else m - {k}
  }

  function Get(m: map<string, Json>, k: string): Option<Json> {
    if k in m then Some(m[k]) else None
  }

  /** What the key holds after its own edits: None if they fail, Some(None) if it is gone. */
  function KeyOutcome(before: Json, after: Json, k: string): Option<Option<Json>>
    requires before.Obj? && after.Obj?
  {
    if k in before.fields && k in after.fields then
      match Apply(before.fields[k], Diff(before.fields[k], after.fields[k]))
      case None => None
      case Some(c) => Some(Some(c))
    else Some(Get(after.fields, k))
  }

  predicate OnlyReplacesRoot(es: seq<Edit>) {
    forall e | e in es :: e.path == [] ==> e.action.Replace?
  }

  lemma {:induction false} EditsOnlyReplaceRoot(before: Json, after: Json)
    ensures OnlyReplacesRoot(Edits(before, after))
  {
    if before.Obj? && after.Obj? {
      EditsOverPaths(before, after, SortedKeys(before.fields.Keys + after.fields.Keys));
    }
  }

  /** Every edit of an object starts at one of the keys that differ. */
  lemma {:induction false} EditsOverPaths(before: Json, after: Json, ks: seq<string>)
    requires before.Obj? && after.Obj?
    ensures forall e | e in EditsOver(before, after, ks) ::
              e.path != [] && e.path[0] in ks && Differ(before, after, e.path[0])
    decreases |ks|
  {
    if ks != [] {
      var k := ks[0];
      EditsOverPaths(before, after, ks[1..]);
      if k in before.fields && k in after.fields {
        EditsEmpty(before.fields[k], after.fields[k]);
      }
      forall e | e in EditsAt(before, after, k) ensures e.path != [] && e.path[0] == k && Differ(before, after, k) {}
    }
  }

  lemma {:induction false} ApplyAtCons(m: map<string, Json>, k: string, tokens: seq<string>, action: Action)
    requires k in m && (tokens == [] ==> action.Replace?)
    ensures ApplyAt(Obj(m), [k] + tokens, action) ==
            match ApplyAt(m[k], tokens, action) case None => None case Some(c) => Some(Obj(m[k := c]))
  {
    assert ([k] + tokens)[1..] == tokens;
  }

  lemma {:induction false} ApplyUnder(m: map<string, Json>, k: string, es: seq<Edit>)
    requires CleanKey(k) && k in m && OnlyReplacesRoot(es)
    ensures Apply(Obj(m), Render("/" + k, es)) ==
            match Apply(m[k], Render("", es)) case None => None case Some(c) => Some(Obj(m[k := c]))
    decreases |es|
  {
    if es == [] {
      assert m[k := m[k]] == m;
    } else {
      var outer, inner := Render("/" + k, es), Render("", es);
      assert outer[1..] == Render("/" + k, es[1..]);
      assert inner[1..] == Render("", es[1..]);
      assert es[0] in es;
      ApplyOpUnder(m, k, es[0]);
      match ApplyOp(m[k], inner[0])
      case None =>
      case Some(c) =>
        var m' := m[k := c];
        ApplyUnder(m', k, es[1..]);
        match Apply(c, inner[1..])
        case None =>
        case Some(c') => assert m'[k := c'] == m[k := c'];
    }
  }

  lemma {:induction false} ApplyOpUnder(m: map<string, Json>, k: string, e: Edit)
    requires CleanKey(k) && k in m && (e.path == [] ==> e.action.Replace?)
    ensures ApplyOp(Obj(m), Op("/" + k + Pointer(e.path), e.action)) ==
            match ApplyOp(m[k], Op("" + Pointer(e.path), e.action))
            case None => None
            case Some(c) => Some(Obj(m[k := c]))
  {
    assert "" + Pointer(e.path) == Pointer(e.path);
    DecodeCons(k, Pointer(e.path));
    match Decode(Pointer(e.path))
    case None =>
    case Some(tokens) => ApplyAtCons(m, k, tokens, e.action);
  }

  lemma {:induction false} ApplySingle(m: map<string, Json>, k: string, action: Action)
    requires CleanKey(k)
    ensures Apply(Obj(m), [Op("/" + k, action)]) == ApplyAt(Obj(m), [k], action)
    ensures ApplyAt(Obj(m), [k], action) ==
            match action
            case Add(v) => Some(Obj(SetKey(m, k, Some(v))))
            case Remove => if k in m then Some(Obj(SetKey(m, k, None))) else None
            case Replace(v) => if k in m then Some(Obj(SetKey(m, k, Some(v)))) else None
  {
    DecodeCons(k, "");
    assert [k] + [] == [k] && "/" + k + "" == "/" + k;
    assert ApplyOp(Obj(m), Op("/" + k, action)) == ApplyAt(Obj(m), [k], action);
    assert [Op("/" + k, action)][1..] == [];
  }

  lemma {:induction false} ApplyAtKey(m: map<string, Json>, before: Json, after: Json, k: string)
    requires before.Obj? && after.Obj?
    requires Get(m, k) == Get(before.fields, k)
    requires Differ(before, after, k) ==> CleanKey(k)
    ensures Apply(Obj(m), Render("", EditsAt(before, after, k))) ==
            match KeyOutcome(before, after, k) case None => None case Some(v) => Some(Obj(SetKey(m, k, v)))
  {
    if !Differ(before, after, k) {
      if k in before.fields {
        EditsEmpty(before.fields[k], after.fields[k]);
        assert EditsAt(before, after, k) == [];
      }
      assert SetKey(m, k, Get(m, k)) == m;
    } else {
      RenderAt(before, after, "", k);
      assert "" + "/" + k == "/" + k;
      if k in before.fields && k in after.fields {
        EditsOnlyReplaceRoot(before.fields[k], after.fields[k]);
        ApplyUnder(m, k, Edits(before.fields[k], after.fields[k]));
      } else {
        ApplySingle(m, k, if k in before.fields then Remove else Add(after.fields[k]));
      }
    }
  }

  // ---- Replaying the edits of a whole object ----------------------------------------

  ghost predicate DiffersOnCleanKeys(before: Json, after: Json, ks: seq<string>)
    requires before.Obj? && after.Obj?
  {
    forall k | k in ks && Differ(before, after, k) :: CleanKey(k)
  }

  ghost predicate Distinct(ks: seq<string>) {
    forall i, j | 0 <= i < j < |ks| :: ks[i] != ks[j]
  }

  /** Result `r` is what the keys' own outcomes say, and `m` elsewhere. */
  ghost predicate KeysDecide(r: Option<Json>, m: map<string, Json>, before: Json, after: Json, ks: seq<string>)
    requires before.Obj? && after.Obj?
  {
    && (r.Some? <==> forall k | k in ks :: KeyOutcome(before, after, k).Some?)
    && (r.Some? ==>
          && r.value.Obj?
          && (forall k | k in ks :: KeyOutcome(before, after, k) == Some(Get(r.value.fields, k)))
          && (forall k | k !in ks :: Get(r.value.fields, k) == Get(m, k)))
  }

  /** Replaying the edits of several keys replays the first key's, then the others'. */
  lemma {:induction false} ApplyFirstKey(m: map<string, Json>, before: Json, after: Json, ks: seq<string>)
    requires before.Obj? && after.Obj? && ks != [] && DiffersOnCleanKeys(before, after, ks)
    requires Get(m, ks[0]) == Get(before.fields, ks[0])
    ensures Apply(Obj(m), Render("", EditsOver(before, after, ks))) ==
            match KeyOutcome(before, after, ks[0])
            case None => None
            case Some(v) => Apply(Obj(SetKey(m, ks[0], v)), Render("", EditsOver(before, after, ks[1..])))
  {
    RenderStep(before, after, "", ks);
    ApplyAtKey(m, before, after, ks[0]);
    ApplyConcat(Obj(m), Render("", EditsAt(before, after, ks[0])), Render("", EditsOver(before, after, ks[1..])));
  }

  /** The keys are independent: a replay succeeds when each key's own replay does, and
      leaves each key with its own outcome. */
  lemma {:induction false} ApplyKeys(m: map<string, Json>, before: Json, after: Json, ks: seq<string>)
    requires before.Obj? && after.Obj? && Distinct(ks) && DiffersOnCleanKeys(before, after, ks)
    requires forall k | k in ks :: Get(m, k) == Get(before.fields, k)
    ensures KeysDecide(Apply(Obj(m), Render("", EditsOver(before, after, ks))), m, before, after, ks)
    decreases |ks|
  {
    if ks != [] {
      var k, rest := ks[0], ks[1..];
      assert forall x :: x in ks <==> x == k || x in rest;
      assert k !in rest;
      ApplyFirstKey(m, before, after, ks);
      if KeyOutcome(before, after, k).Some? {
        ApplyKeys(SetKey(m, k, KeyOutcome(before, after, k).value), before, after, rest);
      }
    }
  }

  // ---- A dirty key is never written -------------------------------------------------

  /** An operation leaves alone every top-level key but the one its pointer starts at. */
  lemma {:induction false} ApplyAtFrame(m: map<string, Json>, tokens: seq<string>, action: Action, k: string)
    requires tokens != [] && tokens[0] != k && ApplyAt(Obj(m), tokens, action).Some?
    ensures var r := ApplyAt(Obj(m), tokens, action).value;
            r.Obj? && Get(r.fields, k) == Get(m, k)
  {}

  /** Some operation's pointer decodes to a location starting at `k`. */
  ghost predicate Reaches(op: Op, k: string) {
    Decode(op.path).Some? && Decode(op.path).value != [] && Decode(op.path).value[0] == k
  }

  lemma {:induction false} ApplyFrame(m: map<string, Json>, ops: seq<Op>, k: string)
    requires Apply(Obj(m), ops).Some?
    requires forall op | op in ops :: op.path != "" && !Reaches(op, k)
    ensures var r := Apply(Obj(m), ops).value;
            r.Obj? && Get(r.fields, k) == Get(m, k)
    decreases |ops|
  {
    if ops != [] {
      assert ops[0] in ops;
      var tokens := Decode(ops[0].path).value;
      assert tokens != [];
      ApplyAtFrame(m, tokens, ops[0].action, k);
      ApplyFrame(ApplyAt(Obj(m), tokens, ops[0].action).value.fields, ops[1..], k);
    }
  }

  /** The pointer that starts at a dirty key was rendered from a longer dirty key. */
  lemma {:induction false} DirtyNeedsLonger(k: string, path: seq<string>)
    requires path != [] && !CleanKey(k)
    requires Decode(Pointer(path)).Some? && Decode(Pointer(path)).value != [] && Decode(Pointer(path)).value[0] == k
    ensures |path[0]| > |k| && !CleanKey(path[0])
  {
    var q := Pointer(path[1..]);
    DecodeFirst(path[0], q);
    SplitHead(path[0], q);
    UnescapeSize(Split(path[0])[0]);
  }

  /** So no dirty key can have its difference replayed: each would need a longer one. */
  lemma {:induction false} DirtyKeyIsLost(before: Json, after: Json, k: string, bound: nat)
    requires before.Obj? && after.Obj? && Differ(before, after, k) && !CleanKey(k)
    requires forall x | x in before.fields.Keys + after.fields.Keys :: |x| <= bound
    ensures Apply(before, Diff(before, after)) != Some(after)
    decreases bound - |k|
  {
    var ks := SortedKeys(before.fields.Keys + after.fields.Keys);
    var es, ops := Edits(before, after), Diff(before, after);
    EditsOverPaths(before, after, ks);
    forall e | e in es ensures "" + Pointer(e.path) == Pointer(e.path) != "" {}
    if i :| 0 <= i < |ops| && Reaches(ops[i], k) {
      assert es[i] in es;
      DirtyNeedsLonger(k, es[i].path);
      DirtyKeyIsLost(before, after, es[i].path[0], bound);
    } else if Apply(before, ops) == Some(after) {
      forall op | op in ops ensures op.path != "" && !Reaches(op, k) {
        var i :| 0 <= i < |ops| && ops[i] == op;
        assert es[i] in es;
      }
      ApplyFrame(before.fields, ops, k);
    }
  }

  // ---- The exact condition -----------------------------------------------------------

  lemma {:induction false} LengthBound(ks: set<string>) returns (bound: nat)
    ensures forall x | x in ks :: |x| <= bound
  {
    if ks == {} {
      bound := 0;
    } else {
      var k :| k in ks;
      bound := LengthBound(ks - {k});
      bound := if |k| > bound then |k| else bound;
    }
  }

  lemma {:induction false} LeafDiffApplies(before: Json, after: Json)
    requires !(before.Obj? && after.Obj?)
    ensures Apply(before, Diff(before, after)) == Some(after)
  {
    var ops := Diff(before, after);
    if before != after {
      assert "" + Pointer([]) == "";
      assert ops[1..] == [];
      assert ApplyOp(before, ops[0]) == Some(after);
      assert Apply(after, ops[1..]) == Some(after);
    }
  }

  /** Main result: the stored patch turns the first document into the second exactly when
      the two differ only below keys free of '/' and '~'. */
  lemma {:induction false} PatchReproduces(before: Json, after: Json)
    ensures Apply(before, Diff(before, after)) == Some(after) <==> CleanDiff(before, after)
    decreases before
  {
    if !(before.Obj? && after.Obj?) {
      LeafDiffApplies(before, after);
    } else if k :| k in before.fields.Keys + after.fields.Keys && Differ(before, after, k) && !CleanKey(k) {
      var bound := LengthBound(before.fields.Keys + after.fields.Keys);
      DirtyKeyIsLost(before, after, k, bound);
    } else {
      var ks := SortedKeys(before.fields.Keys + after.fields.Keys);
      SortedKeysAscend(before.fields.Keys + after.fields.Keys);
      ApplyKeys(before.fields, before, after, ks);
      forall k | k in before.fields && k in after.fields
        ensures KeyOutcome(before, after, k) == Some(Some(after.fields[k]))
            <==> CleanDiff(before.fields[k], after.fields[k])
      {
        PatchReproduces(before.fields[k], after.fields[k]);
      }
      ObjectReproduces(Apply(before, Diff(before, after)), before, after, ks);
    }
  }

  lemma {:induction false} ObjectReproduces(r: Option<Json>, before: Json, after: Json, ks: seq<string>)
    requires before.Obj? && after.Obj?
    requires forall k :: k in ks <==> k in before.fields.Keys + after.fields.Keys
    requires DiffersOnCleanKeys(before, after, ks)
    requires forall k | k in before.fields && k in after.fields ::
               KeyOutcome(before, after, k) == Some(Some(after.fields[k])) <==> CleanDiff(before.fields[k], after.fields[k])
    requires KeysDecide(r, before.fields, before, after, ks)
    ensures r == Some(after) <==> CleanDiff(before, after)
  {
    if CleanDiff(before, after) {
      forall k | k in ks ensures KeyOutcome(before, after, k) == Some(Get(after.fields, k)) {
        KeyReproduces(before, after, k);
      }
      forall k ensures Get(r.value.fields, k) == Get(after.fields, k) {}
      SameEntries(r.value.fields, after.fields);
    } else {
      var k :| k in before.fields && k in after.fields && Differ(before, after, k)
               && !CleanDiff(before.fields[k], after.fields[k]);
      assert k in ks && KeyOutcome(before, after, k) != Some(Get(after.fields, k));
    }
  }

  lemma {:induction false} KeyReproduces(before: Json, after: Json, k: string)
    requires before.Obj? && after.Obj? && CleanDiff(before, after)
    requires k in before.fields || k in after.fields
    requires k in before.fields && k in after.fields && CleanDiff(before.fields[k], after.fields[k]) ==>
               KeyOutcome(before, after, k) == Some(Some(after.fields[k]))
    ensures KeyOutcome(before, after, k) == Some(Get(after.fields, k))
  {
    if k in before.fields && k in after.fields && !Differ(before, after, k) {
      SameIsClean(before.fields[k]);
    }
  }

  lemma {:induction false} SameEntries(a: map<string, Json>, b: map<string, Json>)
    requires forall k :: Get(a, k) == Get(b, k)
    ensures a == b
  {
    forall k ensures k in a <==> k in b { assert Get(a, k) == Get(b, k); }
    forall k | k in a ensures a[k] == b[k] { assert Get(a, k) == Get(b, k); }
  }

  lemma {:induction false} SameIsClean(doc: Json)
    ensures CleanDiff(doc, doc)
  {}

  predicate AllKeysClean(doc: Json) {
    match doc
    case Obj(m) => forall k | k in m :: CleanKey(k) && AllKeysClean(m[k])
    case _ => true
  }

  lemma {:induction false} CleanDocumentsDiffCleanly(before: Json, after: Json)
    requires AllKeysClean(before) && AllKeysClean(after)
    ensures CleanDiff(before, after)
    decreases before
  {
    if before.Obj? && after.Obj? {
      forall k | k in before.fields && k in after.fields
        ensures CleanDiff(before.fields[k], after.fields[k])
      {
        CleanDocumentsDiffCleanly(before.fields[k], after.fields[k]);
      }
    }
  }

  /** A value behind a key with one '/' in it, such as an agent's version under "agent/version":
      its pointer reads as two keys, and the patch fails to apply. */
  lemma {:induction false} SlashKeyBreaksThePatch(a: string, b: string, x: Json, y: Json)
    requires CleanKey(a) && CleanKey(b) && x != y && !(x.Obj? && y.Obj?)
    ensures var k := a + "/" + b; Apply(Obj(map[k := x]), Diff(Obj(map[k := x]), Obj(map[k := y]))) == None
  {
    var k := a + "/" + b;
    var before, after := Obj(map[k := x]), Obj(map[k := y]);
    OneKeyDiff(k, x, y);
    assert Pointer([k]) == "/" + k == Pointer([a, b]) by {
      assert [a, b][1..] == [b] && [b][1..] == [] && [k][1..] == [];
      assert Pointer([b]) == "/" + b;
    }
    DecodePointer([a, b]);
    var tokens := [a, b];
    assert Decode("/" + k) == Some(tokens);
    assert |a| < |k| && tokens[0] !in before.fields;
    assert ApplyInObject(before.fields, tokens, Replace(y)) == None;
    assert ApplyAt(before, tokens, Replace(y)) == None;
    assert ApplyOp(before, Op("/" + k, Replace(y))) == None;
  }

  lemma {:induction false} OneKeyDiff(k: string, x: Json, y: Json)
    requires x != y && !(x.Obj? && y.Obj?)
    ensures Diff(Obj(map[k := x]), Obj(map[k := y])) == [Op("/" + k, Replace(y))]
  {
    var before, after := Obj(map[k := x]), Obj(map[k := y]);
    var keys := before.fields.Keys + after.fields.Keys;
    assert keys == {k} && keys - {k} == {};
    assert SortedKeys(keys) == [k];
    assert EditsAt(before, after, k) == [Edit([k], Replace(y))];
    assert [k][1..] == [] && EditsOver(before, after, [k]) == [Edit([k], Replace(y))];
    assert Pointer([k]) == "/" + k && "" + ("/" + k) == "/" + k;
  }

  // ---- A chain of snapshots ------------------------------------------------------------

  function Replay(doc: Json, patches: seq<seq<Op>>): Option<Json>
    decreases |patches|
  {
    if patches == [] then Some(doc)
    else
      match Apply(doc, patches[0])
      case None => None
      case Some(next) => Replay(next, patches[1..])
  }

  function ChainDiffs(snapshots: seq<Json>): seq<seq<Op>>
    requires snapshots != []
    decreases |snapshots|
  {
    if |snapshots| == 1 then []
    else [Diff(snapshots[0], snapshots[1])] + ChainDiffs(snapshots[1..])
  }

  /** The stored diffs of a collector rebuild its latest snapshot from its first. */
  lemma {:induction false} ChainReproduces(snapshots: seq<Json>)
    requires snapshots != []
    requires forall i | 0 <= i < |snapshots| - 1 :: CleanDiff(snapshots[i], snapshots[i + 1])
    ensures Replay(snapshots[0], ChainDiffs(snapshots)) == Some(snapshots[|snapshots| - 1])
    decreases |snapshots|
  {
    if |snapshots| > 1 {
      assert CleanDiff(snapshots[0], snapshots[0 + 1]);
      PatchReproduces(snapshots[0], snapshots[1]);
      ChainReproduces(snapshots[1..]);
    }
  }
}
