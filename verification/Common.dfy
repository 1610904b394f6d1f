/** Types shared by the modules. */
module Common {
  datatype Option<+T> = None | Some(value: T)

  /** The four risk classes of governed actions, read-only first. */
  datatype RiskClass = RC1 | RC2 | RC3 | RC4

  /** Two texts split at their first separator. */
  lemma {:induction false} FirstSplit(sep: char, a: string, b: string, c: string, d: string)
    requires sep !in a && sep !in c && a + [sep] + b == c + [sep] + d
    ensures a == c && b == d
  {
    var s := a + [sep] + b;
    assert s[|a|] == sep && s[|c|] == sep;
    assert forall i | 0 <= i < |a| :: s[i] == a[i] && a[i] in a;
    assert forall i | 0 <= i < |c| :: s[i] == c[i] && c[i] in c;
    assert a == s[..|a|] && c == s[..|c|];
    assert b == s[|a| + 1..] && d == s[|c| + 1..];
  }
}
