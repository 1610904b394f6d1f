/** Python's string operations on lines: `strip`, `split`, text-mode line reading, `splitlines`
    and `"\n".join`. */
module Lines {

  /** `str.isspace` on one character. */
  predicate IsSpace(c: char) {
    var n := c as int;
    9 <= n <= 13 || 28 <= n <= 32 || n == 0x85 || n == 0xA0 || n == 0x1680 || 0x2000 <= n <= 0x200A
    || n == 0x2028 || n == 0x2029 || n == 0x202F || n == 0x205F || n == 0x3000
  }

  // ---- strip and split -----------------------------------------------------------------

  function SkipSpace(s: string): (r: string)
    ensures |r| <= |s| && (forall c | c in r :: c in s) && (r != "" ==> !IsSpace(r[0]))
  {
    if s != "" && IsSpace(s[0]) then SkipSpace(s[1..]) else s
  }

  function TrimEnd(s: string): (r: string)
    ensures r <= s && (r != "" ==> !IsSpace(r[|r| - 1]))
  {
    if s != "" && IsSpace(s[|s| - 1]) then TrimEnd(s[..|s| - 1]) else s
  }

  function Strip(s: string): string { TrimEnd(SkipSpace(s)) }

  function WordEnd(s: string): (n: nat)
    ensures n <= |s| && (s != "" && !IsSpace(s[0]) ==> n > 0)
  {
    if s == "" || IsSpace(s[0]) then 0 else 1 + WordEnd(s[1..])
  }

  /** `s.split()`: the words between white space. */
  function Split(s: string): seq<string>
    decreases |s|
  {
    var t := SkipSpace(s);
    if t == "" then [] else [t[..WordEnd(t)]] + Split(t[WordEnd(t)..])
  }

  lemma {:induction false} SkipAppend(s: string, c: char)
    requires IsSpace(c)
    ensures SkipSpace(s + [c]) == if SkipSpace(s) == "" then "" else SkipSpace(s) + [c]
  {
    if s == "" {
      assert (s + [c])[1..] == "";
    } else if IsSpace(s[0]) {
      SkipAppend(s[1..], c);
      assert (s + [c])[1..] == s[1..] + [c];
    }
  }

  lemma {:induction false} WordEndAppend(s: string, c: char)
    requires IsSpace(c)
    ensures WordEnd(s + [c]) == WordEnd(s)
  {
    if s != "" && !IsSpace(s[0]) {
      WordEndAppend(s[1..], c);
      assert (s + [c])[1..] == s[1..] + [c];
    }
  }

  lemma {:induction false} SplitAppend(s: string, c: char)
    requires IsSpace(c)
    ensures Split(s + [c]) == Split(s)
    decreases |s|
  {
    SkipAppend(s, c);
    var t := SkipSpace(s);
    if t != "" {
      var n := WordEnd(t);
      WordEndAppend(t, c);
      assert (t + [c])[..n] == t[..n] && (t + [c])[n..] == t[n..] + [c];
      SplitAppend(t[n..], c);
    }
  }

  lemma {:induction false} SplitTrimEnd(s: string)
    ensures Split(TrimEnd(s)) == Split(s)
  {
    if s != "" && IsSpace(s[|s| - 1]) {
      SplitTrimEnd(s[..|s| - 1]);
      SplitAppend(s[..|s| - 1], s[|s| - 1]);
      assert s == s[..|s| - 1] + [s[|s| - 1]];
    }
  }

  /** Stripping a line changes none of its words. */
  lemma {:induction false} SplitStrip(s: string)
    ensures Split(Strip(s)) == Split(s)
  {
    SplitTrimEnd(SkipSpace(s));
  }

  lemma {:induction false} StripTwice(s: string)
    ensures Strip(Strip(s)) == Strip(s) && forall c | c in Strip(s) :: c in s
  {
    var r := Strip(s);
    if r != "" { assert r[0] == SkipSpace(s)[0]; }
  }

  /** A text with a word in it is not blank. */
  lemma {:induction false} WordsNotBlank(s: string)
    requires Split(s) != []
    ensures Strip(s) != ""
  {
    SplitStrip(s);
  }

  predicate Solid(s: string) { s != "" && forall i | 0 <= i < |s| :: !IsSpace(s[i]) }

  lemma {:induction false} WordEndSolid(s: string, rest: string)
    requires forall i | 0 <= i < |s| :: !IsSpace(s[i])
    requires rest == "" || IsSpace(rest[0])
    ensures WordEnd(s + rest) == |s|
  {
    if s == "" {
      assert s + rest == rest;
    } else {
      WordEndSolid(s[1..], rest);
      assert (s + rest)[1..] == s[1..] + rest;
    }
  }

  lemma {:induction false} SplitWord(s: string, rest: string)
    requires Solid(s) && (rest == "" || IsSpace(rest[0]))
    ensures Split(s + rest) == [s] + Split(rest)
  {
    WordEndSolid(s, rest);
    assert (s + rest)[0] == s[0] && (s + rest)[..|s|] == s && (s + rest)[|s|..] == rest;
  }

  // ---- Reading and writing lines --------------------------------------------------------

  /** What a text-mode file makes of its line ends. */
  function Translate(s: string): (r: string)
    ensures '\r' !in r
    decreases |s|
  {
    if s == "" then ""
    else if s[0] == '\r' then "\n" + Translate(if |s| > 1 && s[1] == '\n' then s[2..] else s[1..])
    else [s[0]] + Translate(s[1..])
  }

  lemma {:induction false} TranslateNothing(s: string)
    requires '\r' !in s
    ensures Translate(s) == s
  {
    if s != "" { TranslateNothing(s[1..]); }
  }

  function LineEnd(s: string): (n: nat)
    ensures n <= |s| && (n < |s| ==> s[n] == '\n') && forall i | 0 <= i < n :: s[i] != '\n'
  {
    if s == "" || s[0] == '\n' then 0 else 1 + LineEnd(s[1..])
  }

  /** The lines of a text, without their ends. */
  function Pieces(s: string): (r: seq<string>)
    ensures forall i | 0 <= i < |r| :: '\n' !in r[i] && forall c | c in r[i] :: c in s
    decreases |s|
  {
    if s == "" then []
    else
      var n := LineEnd(s);
      [s[..n]] + if n < |s| then Pieces(s[n + 1..]) else []
  }

  /** Iterating over a file opened as text. */
  function RawLines(text: string): seq<string> { Pieces(Translate(text)) }

  function Join(lines: seq<string>): string {
    if lines == [] then ""
    else if |lines| == 1 then lines[0]
    else lines[0] + "\n" + Join(lines[1..])
  }

  /** What is written back: the lines joined, and a newline. */
  function Render(lines: seq<string>): string { Join(lines) + "\n" }

  predicate OneLine(s: string) { '\n' !in s && '\r' !in s }

  lemma {:induction false} PiecesFirst(line: string, rest: string)
    requires '\n' !in line
    ensures Pieces(line + "\n" + rest) == [line] + Pieces(rest)
  {
    var s := line + "\n" + rest;
    var n := LineEnd(s);
    assert s[|line|] == '\n';
    assert forall i | 0 <= i < |line| :: s[i] == line[i] && line[i] in line;
    assert n == |line|;
    assert s[..n] == line && s[n + 1..] == rest;
  }

  lemma {:induction false} RenderMore(lines: seq<string>)
    requires |lines| > 1
    ensures Render(lines) == lines[0] + "\n" + Render(lines[1..])
  {
    assert Render(lines) == (lines[0] + "\n" + Join(lines[1..])) + "\n";
  }

  lemma {:induction false} PiecesOfRender(lines: seq<string>)
    requires lines != [] && forall i | 0 <= i < |lines| :: OneLine(lines[i])
    ensures Pieces(Render(lines)) == lines
  {
    assert OneLine(lines[0]);
    if |lines| == 1 {
      PiecesOfOne(lines[0]);
      assert lines == [lines[0]];
    } else {
      var rest := lines[1..];
      RenderMore(lines);
      PiecesFirst(lines[0], Render(rest));
      RestIsLines(lines);
      PiecesOfRender(rest);
      assert lines == [lines[0]] + rest;
    }
  }

  lemma {:induction false} RestIsLines(lines: seq<string>)
    requires lines != [] && forall i | 0 <= i < |lines| :: OneLine(lines[i])
    ensures forall i | 0 <= i < |lines| - 1 :: OneLine(lines[1..][i])
  {}

  lemma {:induction false} PiecesOfOne(line: string)
    requires OneLine(line)
    ensures Pieces(Render([line])) == [line]
  {
    PiecesFirst(line, "");
    assert Render([line]) == line + "\n" + "";
  }

  lemma {:induction false} NoReturns(lines: seq<string>)
    requires forall i | 0 <= i < |lines| :: OneLine(lines[i])
    ensures '\r' !in Render(lines)
  {
    if |lines| == 1 {
      assert OneLine(lines[0]);
    } else if |lines| > 1 {
      RenderMore(lines);
      NoReturns(lines[1..]);
      assert OneLine(lines[0]);
    }
  }

  /** Main result: reading back what was written gives the lines, if none holds a line break. */
  lemma {:induction false} RawLinesOfRender(lines: seq<string>)
    requires lines != [] && forall i | 0 <= i < |lines| :: OneLine(lines[i])
    ensures RawLines(Render(lines)) == lines
  {
    NoReturns(lines);
    PiecesOfRender(lines);
    TranslateNothing(Render(lines));
  }

  /** The characters `str.splitlines` breaks at. */
  predicate Breaks(c: char) {
    var n := c as int;
    10 <= n <= 13 || 28 <= n <= 30 || n == 0x85 || n == 0x2028 || n == 0x2029
  }

  function BreakAt(s: string): (n: nat)
    ensures n <= |s| && (n < |s| ==> Breaks(s[n])) && forall i | 0 <= i < n :: !Breaks(s[i])
  {
    if s == "" || Breaks(s[0]) then 0 else 1 + BreakAt(s[1..])
  }

  function SplitLines(s: string): (r: seq<string>)
    ensures forall i | 0 <= i < |r| :: forall c | c in r[i] :: !Breaks(c)
    decreases |s|
  {
    if s == "" then []
    else
      var n := BreakAt(s);
      if n == |s| then [s]
      else [s[..n]] + SplitLines(if s[n] == '\r' && n + 1 < |s| && s[n + 1] == '\n' then s[n + 2..] else s[n + 1..])
  }

  /** A line up to its break, and the rest after it: a carriage return takes a newline with it. */
  lemma {:induction false} SplitLinesFirst(line: string, end: string, rest: string)
    requires (forall c | c in line :: !Breaks(c)) && |end| == 1 && Breaks(end[0])
    requires end == "\r" ==> rest == "" || rest[0] != '\n'
    ensures SplitLines(line + end + rest) == [line] + SplitLines(rest)
    ensures SplitLines(line + "\r\n" + rest) == [line] + SplitLines(rest)
  {
    BreakAfter(line, end, rest);
    BreakAfter(line, "\r", "\n" + rest);
    assert line + "\r\n" + rest == line + "\r" + ("\n" + rest);
  }

  lemma {:induction false} BreakAfter(line: string, end: string, rest: string)
    requires (forall c | c in line :: !Breaks(c)) && |end| == 1 && Breaks(end[0])
    ensures var s := line + end + rest;
            BreakAt(s) == |line| && s[..|line|] == line && s[|line|] == end[0] && s[|line| + 1..] == rest
            && (rest != "" ==> s[|line| + 1] == rest[0] && s[|line| + 2..] == rest[1..])
  {
    var s := line + end + rest;
    assert s[|line|] == end[0];
    assert forall i | 0 <= i < |line| :: s[i] == line[i] && line[i] in line;
  }

  /** The text with its newlines written as `end`. */
  function WithEnds(s: string, end: string): string {
    if s == "" then "" else (if s[0] == '\n' then end else [s[0]]) + WithEnds(s[1..], end)
  }

  /** A text-mode file reads the same whichever of the three line ends it has. */
  lemma {:induction false} AnyLineEnd(s: string, end: string)
    requires '\r' !in s && end in {"\n", "\r", "\r\n"}
    ensures Translate(WithEnds(s, end)) == s
  {
    if s != "" {
      AnyLineEnd(s[1..], end);
      NoNewlineFirst(s[1..], end);
      assert [s[0]] + s[1..] == s;
      if s[0] == '\n' { EndTranslated(end, WithEnds(s[1..], end)); } else { CharKept(s[0], WithEnds(s[1..], end)); }
    }
  }

  lemma {:induction false} EndTranslated(end: string, rest: string)
    requires end in {"\n", "\r", "\r\n"} && (end != "\n" && rest != "" ==> rest[0] != '\n')
    ensures Translate(end + rest) == "\n" + Translate(rest)
  {
    var s := end + rest;
    if end == "\r\n" {
      assert s[2..] == rest;
    } else {
      assert s[1..] == rest;
    }
  }

  lemma {:induction false} CharKept(c: char, rest: string)
    requires c != '\r'
    ensures Translate([c] + rest) == [c] + Translate(rest)
  {
    assert ([c] + rest)[1..] == rest;
  }

  lemma {:induction false} NoNewlineFirst(s: string, end: string)
    requires '\r' !in s && end in {"\n", "\r", "\r\n"}
    ensures var r := WithEnds(s, end); end != "\n" && r != "" ==> r[0] != '\n'
  {}
}
