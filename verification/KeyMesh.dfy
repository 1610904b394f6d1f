/** Distributing SSH keys to storage boxes: collecting keys, parsing authorized_keys, merging by
    key body, writing the file back and reading it again. */
module KeyMesh {
  import opened Lines

  import opened Common

  const SSH_KEY_MIN_PARTS := 2

  /** The base64 part of a key line, by which keys are told apart. */
  function BodyOf(line: string): Option<string> {
    var parts := Split(line);
    if |parts| < SSH_KEY_MIN_PARTS then None else Some(parts[1])
  }

  function BodySet(line: string): set<string> {
    match BodyOf(line) case None => {} case Some(b) => {b}
  }

  function Bodies(lines: seq<string>): set<string> {
    if lines == [] then {} else Bodies(lines[..|lines| - 1]) + BodySet(lines[|lines| - 1])
  }

  lemma {:induction false} BodiesAppend(lines: seq<string>, line: string)
    ensures Bodies(lines + [line]) == Bodies(lines) + BodySet(line)
  {
    assert (lines + [line])[..|lines|] == lines;
  }

  lemma {:induction false} BodiesOfAll(lines: seq<string>, b: string)
    ensures b in Bodies(lines) <==> exists i | 0 <= i < |lines| :: BodyOf(lines[i]) == Some(b)
  {
    if lines != [] {
      var n := |lines| - 1;
      BodiesOfAll(lines[..n], b);
      if b in Bodies(lines[..n]) {
        var i :| 0 <= i < n && BodyOf(lines[..n][i]) == Some(b);
        assert BodyOf(lines[i]) == Some(b);
      } else {
        assert forall i | 0 <= i < n :: lines[..n][i] == lines[i];
      }
    }
  }

  // ---- Parsing ----------------------------------------------------------------------------

  datatype Parsed = Parsed(lines: seq<string>, bodies: set<string>)

  function ParseLines(raws: seq<string>): Parsed {
    if raws == [] then Parsed([], {})
    else
      var p, line := ParseLines(raws[..|raws| - 1]), Strip(raws[|raws| - 1]);
      if line == "" then p else Parsed(p.lines + [line], p.bodies + BodySet(line))
  }

  function Parse(text: string): Parsed { ParseLines(RawLines(text)) }

  method ParseAuthorizedKeys(text: string) returns (lines: seq<string>, bodies: set<string>)
    ensures Parsed(lines, bodies) == Parse(text)
  {
    lines, bodies := [], {};
    var raws := RawLines(text);
    for i := 0 to |raws|
      invariant Parsed(lines, bodies) == ParseLines(raws[..i])
    {
      assert raws[..i + 1][..i] == raws[..i];
      var line := Strip(raws[i]);
      if line != "" {
        lines := lines + [line];
        var parts := Split(line);
        if |parts| >= SSH_KEY_MIN_PARTS {
          bodies := bodies + {parts[1]};
        }
      }
    }
    assert raws[..|raws|] == raws;
  }

  /** A line as parsing leaves it: one line, stripped, not blank. */
  predicate Clean(line: string) { OneLine(line) && Strip(line) == line != "" }

  lemma {:induction false} ParseLinesClean(raws: seq<string>)
    requires forall i | 0 <= i < |raws| :: OneLine(raws[i])
    ensures var p := ParseLines(raws); p.bodies == Bodies(p.lines) && forall i | 0 <= i < |p.lines| :: Clean(p.lines[i])
  {
    if raws != [] {
      var n := |raws| - 1;
      ParseLinesClean(raws[..n]);
      var p, line := ParseLines(raws[..n]), Strip(raws[n]);
      StripTwice(raws[n]);
      assert OneLine(raws[n]);
      BodiesAppend(p.lines, line);
    }
  }

  lemma {:induction false} ParseClean(text: string)
    ensures var p := Parse(text); p.bodies == Bodies(p.lines) && forall i | 0 <= i < |p.lines| :: Clean(p.lines[i])
  {
    ParseLinesClean(RawLines(text));
  }

  function StripAll(lines: seq<string>): (r: seq<string>)
    ensures |r| == |lines| && forall i | 0 <= i < |lines| :: r[i] == Strip(lines[i])
  {
    if lines == [] then [] else StripAll(lines[..|lines| - 1]) + [Strip(lines[|lines| - 1])]
  }

  lemma {:induction false} ParseLinesBack(lines: seq<string>)
    requires forall i | 0 <= i < |lines| :: Strip(lines[i]) != ""
    ensures ParseLines(lines) == Parsed(StripAll(lines), Bodies(lines))
  {
    if lines != [] {
      var n := |lines| - 1;
      ParseLinesBack(lines[..n]);
      SplitStrip(lines[n]);
      assert Strip(lines[n]) != "";
    }
  }

  /** Main result: writing lines and parsing the file again gives the same lines, stripped, and the
      same key bodies, as long as no line is blank or holds a line break. */
  lemma {:induction false} WriteThenParse(lines: seq<string>)
    requires lines != [] && forall i | 0 <= i < |lines| :: OneLine(lines[i]) && Strip(lines[i]) != ""
    ensures Parse(Render(lines)) == Parsed(StripAll(lines), Bodies(lines))
  {
    RawLinesOfRender(lines);
    ParseLinesBack(lines);
  }

  // ---- Merging ----------------------------------------------------------------------------

  datatype Merge = Merge(lines: seq<string>, bodies: set<string>, added: nat, skipped: nat)

  function AddKey(m: Merge, key: string): Merge {
    match BodyOf(key)
    case None => m
    case Some(b) =>
      if b in m.bodies then m.(skipped := m.skipped + 1)
      else Merge(m.lines + [key], m.bodies + {b}, m.added + 1, m.skipped)
  }

  function MergeAll(keys: seq<string>, m: Merge): Merge {
    if keys == [] then m else AddKey(MergeAll(keys[..|keys| - 1], m), keys[|keys| - 1])
  }

  method MergeAuthorizedKeys(keys: seq<string>, lines: seq<string>, bodies: set<string>)
    returns (merged: seq<string>, added: nat, skipped: nat, known: set<string>)
    ensures Merge(merged, known, added, skipped) == MergeAll(keys, Merge(lines, bodies, 0, 0))
  {
    merged, added, skipped, known := lines, 0, 0, bodies;
    for i := 0 to |keys|
      invariant Merge(merged, known, added, skipped) == MergeAll(keys[..i], Merge(lines, bodies, 0, 0))
    {
      assert keys[..i + 1][..i] == keys[..i];
      var parts := Split(keys[i]);
      if |parts| < SSH_KEY_MIN_PARTS { continue; }
      if parts[1] !in known {
        merged, known, added := merged + [keys[i]], known + {parts[1]}, added + 1;
      } else {
        skipped := skipped + 1;
      }
    }
    assert keys[..|keys|] == keys;
  }

  function WellFormed(keys: seq<string>): nat {
    if keys == [] then 0
    else WellFormed(keys[..|keys| - 1]) + if BodyOf(keys[|keys| - 1]).Some? then 1 else 0
  }

  /** Main result: merging keeps the existing lines as they are, in front; counts every well-formed
      key exactly once; and ends up knowing every old and every new body. */
  lemma {:induction false} MergeCounts(keys: seq<string>, m: Merge)
    ensures var r := MergeAll(keys, m);
            && m.lines <= r.lines && |r.lines| - |m.lines| == r.added - m.added
            && r.added + r.skipped == m.added + m.skipped + WellFormed(keys)
            && r.bodies == m.bodies + Bodies(keys)
  {
    if keys != [] { MergeCounts(keys[..|keys| - 1], m); }
  }

  /** What is appended are keys of the list whose bodies were not known before, each body once. */
  ghost predicate Fresh(keys: seq<string>, m: Merge, r: Merge) {
    && m.lines <= r.lines
    && (forall i | |m.lines| <= i < |r.lines| ::
          r.lines[i] in keys && BodyOf(r.lines[i]).Some? && BodyOf(r.lines[i]).value !in m.bodies)
    && (forall i, j | |m.lines| <= i < j < |r.lines| :: BodyOf(r.lines[i]) != BodyOf(r.lines[j]))
    && (forall i | |m.lines| <= i < |r.lines| :: BodyOf(r.lines[i]).value in r.bodies)
  }

  lemma {:induction false} MergeAddsFresh(keys: seq<string>, m: Merge)
    ensures Fresh(keys, m, MergeAll(keys, m))
  {
    if keys != [] {
      var rest, key := keys[..|keys| - 1], keys[|keys| - 1];
      MergeAddsFresh(rest, m);
      MergeCounts(rest, m);
      var r, r' := MergeAll(rest, m), MergeAll(keys, m);
      forall i | |m.lines| <= i < |r'.lines| ensures r'.lines[i] in keys {
        assert i < |r.lines| ==> r'.lines[i] == r.lines[i] && r.lines[i] in rest;
      }
    }
  }

  lemma {:induction false} MergeKnows(keys: seq<string>, m: Merge)
    requires m.bodies == Bodies(m.lines)
    ensures MergeAll(keys, m).bodies == Bodies(MergeAll(keys, m).lines)
  {
    if keys != [] {
      MergeKnows(keys[..|keys| - 1], m);
      BodiesAppend(MergeAll(keys[..|keys| - 1], m).lines, keys[|keys| - 1]);
    }
  }

  /** A merge adds nothing exactly when every body of the keys is known. */
  lemma {:induction false} AddsNothingExactly(keys: seq<string>, m: Merge)
    ensures MergeAll(keys, m).added == m.added <==> Bodies(keys) <= m.bodies
    ensures Bodies(keys) <= m.bodies ==> MergeAll(keys, m).lines == m.lines
  {
    if keys != [] {
      var rest := keys[..|keys| - 1];
      AddsNothingExactly(rest, m);
      MergeCounts(rest, m);
    }
  }

  // ---- Writing the merged file ---------------------------------------------------------------

  function MergeInto(keys: seq<string>, p: Parsed): Merge { MergeAll(keys, Merge(p.lines, p.bodies, 0, 0)) }

  lemma {:induction false} MergedLinesFit(keys: seq<string>, p: Parsed)
    requires forall i | 0 <= i < |p.lines| :: Clean(p.lines[i])
    requires forall i | 0 <= i < |keys| :: OneLine(keys[i])
    ensures var lines := MergeInto(keys, p).lines; forall i | 0 <= i < |lines| :: OneLine(lines[i]) && Strip(lines[i]) != ""
  {
    var m := Merge(p.lines, p.bodies, 0, 0);
    MergeAddsFresh(keys, m);
    var lines := MergeInto(keys, p).lines;
    forall i | 0 <= i < |lines| ensures OneLine(lines[i]) && Strip(lines[i]) != "" {
      if i < |p.lines| {
        assert lines[i] == p.lines[i] && Clean(p.lines[i]);
      } else {
        assert lines[i] in keys;
        WordsNotBlank(lines[i]);
      }
    }
  }

  /** Main result: after the merged file is written and parsed again, the lines found before are
      still in front, and merging the same keys a second time adds nothing. */
  lemma {:induction false} SecondMergeAddsNothing(text: string, keys: seq<string>)
    requires (forall i | 0 <= i < |keys| :: OneLine(keys[i])) && MergeInto(keys, Parse(text)).added > 0
    ensures var again := Parse(Render(MergeInto(keys, Parse(text)).lines));
            && Parse(text).lines <= again.lines
            && again.bodies == Parse(text).bodies + Bodies(keys)
            && MergeInto(keys, again).added == 0 && MergeInto(keys, again).lines == again.lines
  {
    var p := Parse(text);
    ParseClean(text);
    MergedParsesBack(keys, p);
    var again := Parse(Render(MergeInto(keys, p).lines));
    AddsNothingExactly(keys, Merge(again.lines, again.bodies, 0, 0));
  }

  lemma {:induction false} MergedParsesBack(keys: seq<string>, p: Parsed)
    requires p.bodies == Bodies(p.lines) && forall i | 0 <= i < |p.lines| :: Clean(p.lines[i])
    requires (forall i | 0 <= i < |keys| :: OneLine(keys[i])) && MergeInto(keys, p).added > 0
    ensures var again := Parse(Render(MergeInto(keys, p).lines));
            p.lines <= again.lines && again.bodies == p.bodies + Bodies(keys)
  {
    var m := Merge(p.lines, p.bodies, 0, 0);
    var r := MergeInto(keys, p);
    MergedLinesFit(keys, p);
    MergeCounts(keys, m);
    WriteThenParse(r.lines);
    MergeKnows(keys, m);
    CleanFrontStays(p.lines, r.lines);
  }

  lemma {:induction false} CleanFrontStays(front: seq<string>, lines: seq<string>)
    requires front <= lines && forall i | 0 <= i < |front| :: Clean(front[i])
    ensures front <= StripAll(lines)
  {
    forall i | 0 <= i < |front| ensures StripAll(lines)[i] == front[i] {
      assert Clean(front[i]) && lines[i] == front[i];
    }
  }

  /** That takes keys without line breaks, as all collected keys are: a key broken between its type
      and its body would be written as two lines, and added again every time. */
  lemma {:induction false} BrokenKeyNeverSettles(kind: string, body: string)
    requires Solid(kind) && Solid(body)
    ensures var key := kind + "\n" + body;
            var first := MergeInto([key], Parsed([], {}));
            && first.lines == [key]
            && MergeInto([key], Parse(Render(first.lines))).added == 1
  {
    var key := kind + "\n" + body;
    BrokenKeyBody(kind, body);
    BrokenKeyParsed(kind, body);
    MergeOne(key, Parsed([], {}));
    MergeOne(key, Parse(Render([key])));
  }

  lemma {:induction false} MergeOne(key: string, p: Parsed)
    ensures MergeInto([key], p) == AddKey(Merge(p.lines, p.bodies, 0, 0), key)
  {
    var keys, m := [key], Merge(p.lines, p.bodies, 0, 0);
    assert keys[..|keys| - 1] == [];
    assert MergeAll([], m) == m;
    assert MergeAll(keys, m) == AddKey(MergeAll(keys[..|keys| - 1], m), keys[|keys| - 1]);
  }

  /** Two words with one space character between them. */
  lemma {:induction false} TwoWords(kind: string, gap: char, body: string)
    requires Solid(kind) && Solid(body) && IsSpace(gap)
    ensures Split(kind + [gap] + body) == [kind, body] && BodyOf(kind + [gap] + body) == Some(body)
  {
    assert kind + [gap] + body == kind + ([gap] + body);
    SplitWord(kind, [gap] + body);
    OneWord(body);
    assert SkipSpace([gap] + body) == body by {
      assert ([gap] + body)[1..] == body;
      assert SkipSpace(body) == body;
    }
    assert Split([gap] + body) == Split(body);
  }

  lemma {:induction false} OneWord(word: string)
    requires Solid(word)
    ensures Split(word) == [word] && BodyOf(word) == None
  {
    assert word + "" == word;
    SplitWord(word, "");
  }

  lemma {:induction false} BrokenKeyBody(kind: string, body: string)
    requires Solid(kind) && Solid(body)
    ensures BodyOf(kind + "\n" + body) == Some(body) && BodyOf(kind) == BodyOf(body) == None
  {
    TwoWords(kind, '\n', body);
    OneWord(kind);
    OneWord(body);
  }

  lemma {:induction false} BrokenKeyParsed(kind: string, body: string)
    requires Solid(kind) && Solid(body)
    ensures Parse(Render([kind + "\n" + body])).bodies == {}
  {
    assert Render([kind + "\n" + body]) == Render([kind, body]) by {
      assert [kind, body][1..] == [body];
      assert Join([body]) == body;
      assert Join([kind, body]) == kind + "\n" + body;
    }
    var lines := [kind, body];
    forall i | 0 <= i < 2 ensures OneLine(lines[i]) && Strip(lines[i]) != "" { SolidLine(lines[i]); }
    WriteThenParse(lines);
    BrokenKeyBody(kind, body);
    assert lines == [] + [kind] + [body];
    BodiesAppend([], kind);
    BodiesAppend([] + [kind], body);
  }

  lemma {:induction false} SolidLine(s: string)
    requires Solid(s)
    ensures OneLine(s) && Strip(s) != ""
  {
    assert forall c | c in s :: exists i | 0 <= i < |s| :: s[i] == c && !IsSpace(s[i]);
    assert SkipSpace(s) == s && TrimEnd(s) == s;
  }

  // ---- The storage box ------------------------------------------------------------------------

  class StorageBox {
    var file: Option<string>

    constructor (file: Option<string>)
      ensures this.file == file
    {
      this.file := file;
    }

    /** What a download brings home; a failed one is taken for a missing file. */
    ghost function Downloaded(ok: bool): Parsed
      reads this
    {
      if ok && file.Some? then Parse(file.value) else Parsed([], {})
    }

    method InstallKeys(keys: seq<string>, dryRun: bool, downloads: bool, uploads: bool)
      returns (added: nat, skipped: nat, failed: bool)
      modifies this
      ensures dryRun ==> file == old(file) && added == |keys| && skipped == 0 && !failed
      ensures !dryRun ==>
                var m := MergeInto(keys, old(Downloaded(downloads)));
                && added + skipped == WellFormed(keys)
                && failed == (m.added > 0 && !uploads)
                && added == (if failed then 0 else m.added)
                && file == if m.added > 0 && uploads then Some(Render(m.lines)) else old(file)
    {
      added, skipped, failed := 0, 0, false;
      if dryRun { return |keys|, 0, false; }
      var lines, bodies := [], {};
      if downloads && file.Some? {
        lines, bodies := ParseAuthorizedKeys(file.value);
      }
      MergeCounts(keys, Merge(lines, bodies, 0, 0));
      var merged, known;
      merged, added, skipped, known := MergeAuthorizedKeys(keys, lines, bodies);
      if added == 0 { return; }
      if uploads {
        file := Some(Render(merged));
      } else {
        skipped, added, failed := skipped + added, 0, true;
      }
    }
  }

  /** Two installations in a row: the second one adds nothing and leaves the file as it is. */
  method InstallTwice(box: StorageBox, keys: seq<string>) returns (added: nat)
    requires forall i | 0 <= i < |keys| :: OneLine(keys[i])
    modifies box
    ensures added == 0
    ensures box.file.Some? || Bodies(keys) == {}
    ensures var p := old(box.Downloaded(true)); p.lines <= box.Downloaded(true).lines
    ensures Bodies(keys) <= box.Downloaded(true).bodies
  {
    ghost var before := if box.file.Some? then box.file.value else "";
    assert Parse("") == Parsed([], {});
    ghost var p := box.Downloaded(true);
    assert p == Parse(before);
    if MergeInto(keys, p).added > 0 { SecondMergeAddsNothing(before, keys); }
    AddsNothingExactly(keys, Merge(p.lines, p.bodies, 0, 0));
    MergeCounts(keys, Merge(p.lines, p.bodies, 0, 0));
    var first, skipped, failed := box.InstallKeys(keys, false, true, true);
    added, skipped, failed := box.InstallKeys(keys, false, true, true);
  }

  /** Key i is the first of the list with its body. */
  predicate FirstOfBody(keys: seq<string>, i: nat)
    requires i < |keys|
  {
    BodyOf(keys[i]).Some? && forall j | 0 <= j < i :: BodyOf(keys[j]) != BodyOf(keys[i])
  }

  /** Merged into nothing, a list leaves the first key of each body. */
  lemma {:induction false} MergedFromNothing(keys: seq<string>, key: string)
    ensures key in MergeInto(keys, Parsed([], {})).lines <==>
              exists i | 0 <= i < |keys| :: FirstOfBody(keys, i) && keys[i] == key
  {
    if keys != [] {
      var n := |keys| - 1;
      var rest := keys[..n];
      MergedFromNothing(rest, key);
      MergeCounts(rest, Merge([], {}, 0, 0));
      LastIsFirst(keys);
      assert forall i | 0 <= i < n :: FirstOfBody(rest, i) == FirstOfBody(keys, i) && rest[i] == keys[i];
      if key in MergeInto(rest, Parsed([], {})).lines {
        var i :| 0 <= i < n && FirstOfBody(rest, i) && rest[i] == key;
        assert FirstOfBody(keys, i) && keys[i] == key;
      }
    }
  }

  lemma {:induction false} LastIsFirst(keys: seq<string>)
    requires keys != []
    ensures var n := |keys| - 1;
            FirstOfBody(keys, n) <==> BodyOf(keys[n]).Some? && BodyOf(keys[n]).value !in Bodies(keys[..n])
  {
    var n := |keys| - 1;
    if BodyOf(keys[n]).Some? {
      BodiesOfAll(keys[..n], BodyOf(keys[n]).value);
      assert forall j | 0 <= j < n :: keys[..n][j] == keys[j];
    }
  }

  /** When the download fails but the upload does not, the file is rebuilt from the keys alone: the
      lines in it afterwards are exactly the first key of each body, stripped. */
  lemma {:induction false} FailedDownloadClobbers(keys: seq<string>, line: string)
    requires (forall i | 0 <= i < |keys| :: OneLine(keys[i])) && MergeInto(keys, Parsed([], {})).added > 0
    ensures var after := Parse(Render(MergeInto(keys, Parsed([], {})).lines));
            && after.bodies == Bodies(keys)
            && (line in after.lines <==> exists i | 0 <= i < |keys| :: FirstOfBody(keys, i) && Strip(keys[i]) == line)
  {
    var lines := MergeInto(keys, Parsed([], {})).lines;
    RebuiltFromKeys(keys);
    if line in StripAll(lines) {
      var i :| 0 <= i < |lines| && StripAll(lines)[i] == line;
      MergedFromNothing(keys, lines[i]);
    }
    if i :| 0 <= i < |keys| && FirstOfBody(keys, i) && Strip(keys[i]) == line {
      MergedFromNothing(keys, keys[i]);
      var k :| 0 <= k < |lines| && lines[k] == keys[i];
      assert StripAll(lines)[k] == line;
    }
  }

  lemma {:induction false} RebuiltFromKeys(keys: seq<string>)
    requires (forall i | 0 <= i < |keys| :: OneLine(keys[i])) && MergeInto(keys, Parsed([], {})).added > 0
    ensures var lines := MergeInto(keys, Parsed([], {})).lines; Parse(Render(lines)) == Parsed(StripAll(lines), Bodies(keys))
  {
    var m := Merge([], {}, 0, 0);
    MergedLinesFit(keys, Parsed([], {}));
    MergeCounts(keys, m);
    MergeKnows(keys, m);
    WriteThenParse(MergeInto(keys, Parsed([], {})).lines);
  }

  /** So an authorized key that is not among those installed is gone. */
  lemma {:induction false} ClobberedKey(kind: string, kept: string, lost: string)
    requires Solid(kind) && Solid(kept) && Solid(lost) && kept != lost
    ensures var before, key := kind + " " + lost, kind + " " + kept;
            && before in Parse(Render([before])).lines
            && before !in Parse(Render(MergeInto([key], Parsed([], {})).lines)).lines
  {
    var before, key := kind + " " + lost, kind + " " + kept;
    KeyLine(kind, lost);
    KeyLine(kind, kept);
    WriteThenParse([before]);
    assert StripAll([before])[0] == before;
    MergeOne(key, Parsed([], {}));
    FailedDownloadClobbers([key], before);
  }

  /** A key type and a body, one blank between them. */
  lemma {:induction false} KeyLine(kind: string, body: string)
    requires Solid(kind) && Solid(body)
    ensures var line := kind + " " + body;
            BodyOf(line) == Some(body) && Clean(line) && forall i | 0 <= i < |line| :: !Breaks(line[i])
  {
    var line := kind + " " + body;
    TwoWords(kind, ' ', body);
    BlankOrSolid(kind, body);
    assert line[0] == kind[0] && line[|line| - 1] == body[|body| - 1];
    assert SkipSpace(line) == line && TrimEnd(line) == line;
  }

  lemma {:induction false} BlankOrSolid(kind: string, body: string)
    requires Solid(kind) && Solid(body)
    ensures var line := kind + " " + body; OneLine(line) && forall i | 0 <= i < |line| :: !Breaks(line[i])
  {
    var line := kind + " " + body;
    forall i | 0 <= i < |line| ensures line[i] == ' ' || !IsSpace(line[i]) {
      assert i < |kind| ==> line[i] == kind[i];
      assert i > |kind| ==> line[i] == body[i - |kind| - 1];
    }
  }
}
