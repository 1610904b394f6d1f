/** Code-point order on strings and the sorted listing of a finite set of them,
    as Python's `sorted` gives it. */
module Ordering {

  predicate Le(a: string, b: string) {
    a == [] || (b != [] && (a[0] < b[0] || (a[0] == b[0] && Le(a[1..], b[1..]))))
  }

  lemma {:induction false} LeTotal(a: string, b: string)
    ensures Le(a, b) || Le(b, a)
  {
    if a != [] && b != [] { LeTotal(a[1..], b[1..]); }
  }

  lemma {:induction false} LeAntisymmetric(a: string, b: string)
    requires Le(a, b) && Le(b, a)
    ensures a == b
  {
    if a != [] {
      LeAntisymmetric(a[1..], b[1..]);
      assert a == [a[0]] + a[1..] && b == [b[0]] + b[1..];
    }
  }

  lemma {:induction false} LeTransitive(a: string, b: string, c: string)
    requires Le(a, b) && Le(b, c)
    ensures Le(a, c)
  {
    if a != [] && a[0] == b[0] == c[0] { LeTransitive(a[1..], b[1..], c[1..]); }
  }

  predicate IsLeast(k: string, ks: set<string>) {
    k in ks && forall x | x in ks :: Le(k, x)
  }

  lemma {:induction false} LeastExists(ks: set<string>)
    requires ks != {}
    ensures exists k :: IsLeast(k, ks)
  {
    var k :| k in ks;
    var rest := ks - {k};
    LeTotal(k, k);
    if rest == {} {
      assert ks == {k};
      assert IsLeast(k, ks);
    } else {
      LeastExists(rest);
      var m :| IsLeast(m, rest);
      LeTotal(k, m);
      if Le(k, m) {
        forall x | x in ks ensures Le(k, x) {
          if x != k { LeTransitive(k, m, x); }
        }
        assert IsLeast(k, ks);
      } else {
        assert IsLeast(m, ks);
      }
    }
  }

  lemma {:induction false} LeastUnique(ks: set<string>)
    ensures forall k, k' | IsLeast(k, ks) && IsLeast(k', ks) :: k == k'
  {
    forall k, k' | IsLeast(k, ks) && IsLeast(k', ks) ensures k == k' {
      LeAntisymmetric(k, k');
    }
  }

  function Least(ks: set<string>): (k: string)
    requires ks != {}
    ensures IsLeast(k, ks)
  {
    LeastExists(ks);
    LeastUnique(ks);
    var k :| k in ks && IsLeast(k, ks);
    k
  }

  /** `sorted(ks)`: every member once, in ascending order. */
  function SortedKeys(ks: set<string>): (r: seq<string>)
    ensures forall k :: k in r <==> k in ks
  {
    if ks == {} then []
    else
      var k := Least(ks);
      [k] + SortedKeys(ks - {k})
  }

  lemma {:induction false} SortedKeysAscend(ks: set<string>)
    ensures forall i, j | 0 <= i < j < |SortedKeys(ks)| ::
              SortedKeys(ks)[i] != SortedKeys(ks)[j] && Le(SortedKeys(ks)[i], SortedKeys(ks)[j])
  {
    if ks != {} {
      var k := Least(ks);
      SortedKeysAscend(ks - {k});
      forall i, j | 0 <= i < j < |SortedKeys(ks)|
        ensures SortedKeys(ks)[i] != SortedKeys(ks)[j] && Le(SortedKeys(ks)[i], SortedKeys(ks)[j])
      {
        assert SortedKeys(ks)[j] in SortedKeys(ks - {k});
      }
    }
  }
}
