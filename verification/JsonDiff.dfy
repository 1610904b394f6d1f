/** The structural diff of the collector agents and what its output means when
    it is replayed as the JSON Patch it is stored as. */
module JsonDiff {
  import opened JsonPatch
  import opened Ordering

  // ---- The diff as edits at key paths ----------------------------------------

  /** An operation at the list of object keys leading to the place it changes. */
  datatype Edit = Edit(path: seq<string>, action: Action)

  function Under(k: string, es: seq<Edit>): (r: seq<Edit>)
    ensures |r| == |es|
    ensures forall i | 0 <= i < |es| :: r[i] == Edit([k] + es[i].path, es[i].action)
  {
    seq(|es|, i requires 0 <= i < |es| => Edit([k] + es[i].path, es[i].action))
  }

  function Edits(before: Json, after: Json): seq<Edit>
    decreases before, 0
  {
    if before.Obj? && after.Obj? then
      EditsOver(before, after, SortedKeys(before.fields.Keys + after.fields.Keys))
    else if before != after then [Edit([], Replace(after))]
    else []
  }

  function EditsOver(before: Json, after: Json, ks: seq<string>): seq<Edit>
    requires before.Obj? && after.Obj?
    decreases before, 0, |ks|
  {
    if ks == [] then []
    else EditsAt(before, after, ks[0]) + EditsOver(before, after, ks[1..])
  }

  function EditsAt(before: Json, after: Json, k: string): seq<Edit>
    requires before.Obj? && after.Obj?
    decreases before, 0, 0
  {
    if k !in before.fields then
      if k in after.fields then [Edit([k], Add(after.fields[k]))] else []
    else if k !in after.fields then [Edit([k], Remove)]
    else Under(k, Edits(before.fields[k], after.fields[k]))
  }

  // ---- Rendering: the path strings the engine writes -------------------------

  function Pointer(path: seq<string>): string {
    if path == [] then "" else "/" + path[0] + Pointer(path[1..])
  }

  function Render(prefix: string, es: seq<Edit>): (r: seq<Op>)
    ensures |r| == |es|
    ensures forall i | 0 <= i < |es| :: r[i] == Op(prefix + Pointer(es[i].path), es[i].action)
  {
    seq(|es|, i requires 0 <= i < |es| => Op(prefix + Pointer(es[i].path), es[i].action))
  }

  /** What `compute_json_diff` returns. */
  function Diff(before: Json, after: Json): seq<Op> {
    Render("", Edits(before, after))
  }

  lemma {:induction false} RenderConcat(prefix: string, a: seq<Edit>, b: seq<Edit>)
    ensures Render(prefix, a + b) == Render(prefix, a) + Render(prefix, b)
  {}

  lemma {:induction false} RenderUnder(prefix: string, k: string, es: seq<Edit>)
    ensures Render(prefix, Under(k, es)) == Render(prefix + "/" + k, es)
  {
    forall i | 0 <= i < |es|
      ensures Render(prefix, Under(k, es))[i] == Render(prefix + "/" + k, es)[i]
    {
      var p := es[i].path;
      assert ([k] + p)[1..] == p;
      assert Pointer([k] + p) == "/" + k + Pointer(p);
      assert prefix + ("/" + k + Pointer(p)) == prefix + "/" + k + Pointer(p);
    }
  }

  lemma {:induction false} RenderStep(before: Json, after: Json, path: string, ks: seq<string>)
    requires before.Obj? && after.Obj? && ks != []
    ensures Render(path, EditsOver(before, after, ks))
         == Render(path, EditsAt(before, after, ks[0])) + Render(path, EditsOver(before, after, ks[1..]))
  {
    RenderConcat(path, EditsAt(before, after, ks[0]), EditsOver(before, after, ks[1..]));
  }

  lemma {:induction false} RenderAt(before: Json, after: Json, path: string, k: string)
    requires before.Obj? && after.Obj?
    requires k in before.fields || k in after.fields
    ensures Render(path, EditsAt(before, after, k)) ==
            if k !in before.fields then [Op(path + "/" + k, Add(after.fields[k]))]
            else if k !in after.fields then [Op(path + "/" + k, Remove)]
            else Render(path + "/" + k, Edits(before.fields[k], after.fields[k]))
  {
    assert Pointer([k]) == "/" + k;
    assert path + ("/" + k) == path + "/" + k;
    if k in before.fields && k in after.fields {
      RenderUnder(path, k, Edits(before.fields[k], after.fields[k]));
    }
  }

  /** What one round of the engine's loop leaves to be done. */
  lemma {:induction false} RoundAdvances(before: Json, after: Json, path: string, ks: seq<string>, i: nat,
        sofar: seq<Op>, done: seq<Op>)
    requires before.Obj? && after.Obj? && i < |ks|
    requires done == sofar + Render(path, EditsAt(before, after, ks[i]))
    ensures sofar + Render(path, EditsOver(before, after, ks[i..]))
         == done + Render(path, EditsOver(before, after, ks[i + 1..]))
  {
    assert ks[i..][1..] == ks[i + 1..];
    RenderStep(before, after, path, ks[i..]);
  }

  // ---- The engine: one operation list, filled by the recursion ---------------

  class DiffEngine {
    var ops: seq<Op>

    constructor ()
      ensures ops == []
    {
      ops := [];
    }

    method DiffRecursive(before: Json, after: Json, path: string)
      modifies this
      ensures ops == old(ops) + Render(path, Edits(before, after))
      decreases before, 1
    {
      if before.Obj? && after.Obj? {
        DiffObjects(before, after, path);
      } else if before != after {
        ops := ops + [Op(path, Replace(after))];
        assert path + Pointer([]) == path;
      }
    }

    /** The branch of `_diff_recursive` for two dicts: its loop over the sorted keys. */
    method DiffObjects(before: Json, after: Json, path: string)
      requires before.Obj? && after.Obj?
      modifies this
      ensures ops == old(ops) + Render(path, Edits(before, after))
      decreases before, 0, 1
    {
      var keys := SortedKeys(before.fields.Keys + after.fields.Keys);
      ghost var goal := ops + Render(path, Edits(before, after));
      assert keys[0..] == keys;
      for i := 0 to |keys|
        invariant goal == ops + Render(path, EditsOver(before, after, keys[i..]))
      {
        ghost var sofar := ops;
        assert keys[i] in keys;
        DiffKey(before, after, keys[i], path);
        RoundAdvances(before, after, path, keys, i, sofar, ops);
      }
    }

    /** One round of that loop. */
    method DiffKey(before: Json, after: Json, key: string, path: string)
      requires before.Obj? && after.Obj?
      requires key in before.fields || key in after.fields
      modifies this
      ensures ops == old(ops) + Render(path, EditsAt(before, after, key))
      decreases before, 0, 0
    {
      var childPath := if path != "" then path + "/" + key else "/" + key;
      assert childPath == path + "/" + key;
      RenderAt(before, after, path, key);
      if key !in before.fields {
        ops := ops + [Op(childPath, Add(after.fields[key]))];
      } else if key !in after.fields {
        ops := ops + [Op(childPath, Remove)];
      } else {
        DiffRecursive(before.fields[key], after.fields[key], childPath);
      }
    }
  }

  method ComputeJsonDiff(before: Json, after: Json) returns (ops: seq<Op>)
    ensures ops == Diff(before, after)
  {
    var engine := new DiffEngine();
    engine.DiffRecursive(before, after, "");
    ops := engine.ops;
  }
}
