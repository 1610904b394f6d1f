/** The Luhn check on card-number candidates (ISO/IEC 7812-1, Annex B) and the errors it catches. */
module Luhn {

  type Digit = d: int | 0 <= d < 10

  predicate IsDigit(c: char) { '0' <= c <= '9' }

  /** The digits of a candidate; separators are skipped. */
  function Digits(s: string): seq<Digit> {
    if s == "" then []
    else (if IsDigit(s[0]) then [s[0] as int - '0' as int] else []) + Digits(s[1..])
  }

  /** What a digit adds, i places from the right: every second one is doubled, and nines cast out. */
  function Weight(i: nat, d: Digit): Digit {
    if i % 2 == 0 then d else if d * 2 > 9 then d * 2 - 9 else d * 2
  }

  function Checksum(ds: seq<Digit>): nat {
    if ds == [] then 0 else Weight(|ds| - 1, ds[0]) + Checksum(ds[1..])
  }

  const MIN_DIGITS := 13

  predicate Accepted(ds: seq<Digit>) { |ds| >= MIN_DIGITS && Checksum(ds) % 10 == 0 }

  method Collect(candidate: string) returns (digits: seq<Digit>)
    ensures digits == Digits(candidate)
  {
    digits := [];
    for k := 0 to |candidate|
      invariant digits == Digits(candidate[..k])
    {
      DigitsAppend(candidate[..k], [candidate[k]]);
      assert candidate[..k + 1] == candidate[..k] + [candidate[k]];
      if IsDigit(candidate[k]) { digits := digits + [candidate[k] as int - '0' as int]; }
    }
    assert candidate[..|candidate|] == candidate;
  }

  method LuhnCheck(candidate: string) returns (ok: bool)
    ensures ok <==> Accepted(Digits(candidate))
    ensures ok ==> |Digits(candidate)| >= 13
  {
    var digits := Collect(candidate);
    var n := |digits|;
    if n < MIN_DIGITS { return false; }
    var checksum := 0;
    for i := 0 to n
      invariant checksum == Checksum(digits[n - i..])
    {
      var d: int := digits[n - 1 - i];
      if i % 2 == 1 {
        d := d * 2;
        if d > 9 { d := d - 9; }
      }
      assert digits[n - 1 - i..][1..] == digits[n - i..];
      checksum := checksum + d;
    }
    assert digits[0..] == digits;
    ok := checksum % 10 == 0;
  }

  // ---- Sums over parts ---------------------------------------------------------------

  lemma {:induction false} DigitsAppend(s: string, t: string)
    ensures Digits(s + t) == Digits(s) + Digits(t)
  {
    if s == "" {
      assert s + t == t;
    } else {
      DigitsAppend(s[1..], t);
      assert (s + t)[1..] == s[1..] + t && (s + t)[0] == s[0];
      var head: seq<Digit> := if IsDigit(s[0]) then [s[0] as int - '0' as int] else [];
      assert head + (Digits(s[1..]) + Digits(t)) == (head + Digits(s[1..])) + Digits(t);
    }
  }

  /** A number as it is written. */
  function Written(ds: seq<Digit>): string {
    if ds == [] then "" else ["0123456789"[ds[0]]] + Written(ds[1..])
  }

  lemma {:induction false} DigitChar(d: Digit)
    ensures IsDigit("0123456789"[d]) && "0123456789"[d] as int - '0' as int == d
  {}

  lemma {:induction false} NotADigit(c: char)
    ensures IsDigit(c) ==> c in "0123456789"
  {
    if IsDigit(c) { DigitChar(c as int - '0' as int); }
  }

  /** The digits read are the digits written. */
  lemma {:induction false} DigitsOfWritten(ds: seq<Digit>)
    ensures Digits(Written(ds)) == ds
  {
    if ds != [] {
      DigitsOfWritten(ds[1..]);
      DigitChar(ds[0]);
      assert Written(ds)[1..] == Written(ds[1..]);
    }
  }

  /** Any other character is passed over. */
  lemma {:induction false} SeparatorSkipped(s: string, c: char, t: string)
    requires c !in "0123456789"
    ensures Digits(s + [c] + t) == Digits(s + t)
  {
    NotADigit(c);
    DigitsAppend(s, [c]);
    DigitsAppend(s + [c], t);
    DigitsAppend(s, t);
    assert [c][1..] == "";
  }

  /** What a digit adds is the digit sum of its single or its double, by place from the right. */
  lemma {:induction false} WeightIsDigitSum(i: nat, d: Digit)
    ensures Weight(i, d) == var v := if i % 2 == 0 then d else 2 * d; v / 10 + v % 10
  {}

  /** Leading zeros change nothing, and add nothing. */
  lemma {:induction false} LeadingZero(ds: seq<Digit>)
    ensures Checksum([0] + ds) == Checksum(ds) && Checksum([0]) == 0
  {
    assert ([0] + ds)[1..] == ds;
  }

  /** Replacing one digit changes the sum by the difference of the two weights. */
  lemma {:induction false} ChecksumUpdate(ds: seq<Digit>, k: nat, d: Digit)
    requires k < |ds|
    ensures Checksum(ds[k := d]) == Checksum(ds) - Weight(|ds| - 1 - k, ds[k]) + Weight(|ds| - 1 - k, d)
  {
    if k == 0 {
      assert ds[k := d][1..] == ds[1..];
    } else {
      ChecksumUpdate(ds[1..], k - 1, d);
      assert ds[k := d][1..] == ds[1..][k - 1 := d];
    }
  }

  lemma {:induction false} WeightGapSingle(i: nat, a: Digit, b: Digit)
    requires a != b
    ensures (Weight(i, b) - Weight(i, a)) % 10 != 0
  {}

  lemma {:induction false} StillTens(sum: int, gap: int)
    requires sum % 10 == 0
    ensures (sum + gap) % 10 == 0 <==> gap % 10 == 0
  {}

  /** No digit can be replaced by another and the number still pass. */
  lemma {:induction false} SingleChangeRejected(ds: seq<Digit>, k: nat, d: Digit)
    requires Accepted(ds) && k < |ds| && d != ds[k]
    ensures !Accepted(ds[k := d])
  {
    ChecksumUpdate(ds, k, d);
    var i := |ds| - 1 - k;
    WeightGapSingle(i, ds[k], d);
    StillTens(Checksum(ds), Weight(i, d) - Weight(i, ds[k]));
  }

  /** Replacing a digit character replaces one digit. */
  lemma {:induction false} DigitsReplaced(s: string, k: nat, c: char) returns (j: nat)
    requires k < |s| && IsDigit(s[k]) && IsDigit(c)
    ensures j < |Digits(s)| && Digits(s)[j] == s[k] as int - '0' as int
    ensures Digits(s[k := c]) == Digits(s)[j := c as int - '0' as int]
  {
    if k == 0 {
      j := 0;
      assert s[k := c][1..] == s[1..];
    } else {
      j := DigitsReplaced(s[1..], k - 1, c);
      assert s[k := c][1..] == s[1..][k - 1 := c];
      j := j + if IsDigit(s[0]) then 1 else 0;
    }
  }

  /** Main result: in a candidate that passes, no single mistyped digit goes unnoticed, wherever it
      stands and whatever separates the digits. */
  lemma {:induction false} MistypedDigitRejected(s: string, k: nat, c: char)
    requires Accepted(Digits(s)) && k < |s| && IsDigit(s[k]) && IsDigit(c) && c != s[k]
    ensures !Accepted(Digits(s[k := c]))
  {
    var j := DigitsReplaced(s, k, c);
    SingleChangeRejected(Digits(s), j, c as int - '0' as int);
  }

  function Swapped(ds: seq<Digit>, k: nat): seq<Digit>
    requires k + 1 < |ds|
  {
    ds[k := ds[k + 1]][k + 1 := ds[k]]
  }

  /** What swapping a and b, with b in place i, does to the sum. */
  function SwapGap(i: nat, a: Digit, b: Digit): int {
    Weight(i + 1, b) - Weight(i + 1, a) + Weight(i, a) - Weight(i, b)
  }

  function TwinGap(i: nat, a: Digit, b: Digit): int {
    Weight(i + 1, b) - Weight(i + 1, a) + Weight(i, b) - Weight(i, a)
  }

  lemma {:induction false} ChecksumSwapped(ds: seq<Digit>, k: nat)
    requires k + 1 < |ds|
    ensures var i := |ds| - 2 - k;
            Checksum(Swapped(ds, k)) == Checksum(ds) + SwapGap(i, ds[k], ds[k + 1])
  {
    ChecksumUpdate(ds, k, ds[k + 1]);
    ChecksumUpdate(ds[k := ds[k + 1]], k + 1, ds[k]);
  }

  /** Main result: swapping two neighbouring digits goes unnoticed exactly when they are equal or
      are a 0 and a 9. */
  lemma {:induction false} SwapUnnoticedExactly(ds: seq<Digit>, k: nat)
    requires Accepted(ds) && k + 1 < |ds|
    ensures Accepted(Swapped(ds, k)) <==> ds[k] == ds[k + 1] || ZeroAndNine(ds[k], ds[k + 1])
  {
    ChecksumSwapped(ds, k);
    var i := |ds| - 2 - k;
    StillTens(Checksum(ds), SwapGap(i, ds[k], ds[k + 1]));
    SwapGapTens(i, ds[k], ds[k + 1]);
  }

  lemma {:induction false} SwapGapTens(i: nat, a: Digit, b: Digit)
    ensures SwapGap(i, a, b) % 10 == 0 <==> a == b || ZeroAndNine(a, b)
  {}

  predicate ZeroAndNine(a: Digit, b: Digit) { (a == 0 && b == 9) || (a == 9 && b == 0) }

  function Twinned(ds: seq<Digit>, k: nat, d: Digit): seq<Digit>
    requires k + 1 < |ds|
  {
    ds[k := d][k + 1 := d]
  }

  /** Doubling one digit by mistake for another double goes unnoticed exactly for 22 and 55, 33 and
      66, 44 and 77. */
  lemma {:induction false} TwinUnnoticedExactly(ds: seq<Digit>, k: nat, d: Digit)
    requires Accepted(ds) && k + 1 < |ds| && ds[k] == ds[k + 1] != d
    ensures Accepted(Twinned(ds, k, d)) <==> (2 <= ds[k] <= 4 && d == ds[k] + 3) || (2 <= d <= 4 && ds[k] == d + 3)
  {
    ChecksumTwinned(ds, k, d);
    var i := |ds| - 2 - k;
    StillTens(Checksum(ds), TwinGap(i, ds[k], d));
    TwinGapTens(i, ds[k], d);
  }

  lemma {:induction false} ChecksumTwinned(ds: seq<Digit>, k: nat, d: Digit)
    requires k + 1 < |ds| && ds[k] == ds[k + 1]
    ensures Checksum(Twinned(ds, k, d)) == Checksum(ds) + TwinGap(|ds| - 2 - k, ds[k], d)
  {
    ChecksumUpdate(ds, k, d);
    ChecksumUpdate(ds[k := d], k + 1, d);
  }

  lemma {:induction false} TwinGapTens(i: nat, a: Digit, b: Digit)
    requires a != b
    ensures TwinGap(i, a, b) % 10 == 0 <==> (2 <= a <= 4 && b == a + 3) || (2 <= b <= 4 && a == b + 3)
  {}

  /** The digit that completes a payload. */
  function CheckDigit(payload: seq<Digit>): Digit {
    (10 - Checksum(payload + [0]) % 10) % 10
  }

  /** Main result: a payload of twelve or more digits is completed by exactly one check digit. */
  lemma {:induction false} OneCheckDigit(payload: seq<Digit>, d: Digit)
    requires |payload| >= 12
    ensures Accepted(payload + [d]) <==> d == CheckDigit(payload)
  {
    var zero := payload + [0];
    ChecksumUpdate(zero, |payload|, d);
    assert zero[|payload| := d] == payload + [d];
    CompletesExactly(Checksum(zero), d);
  }

  lemma {:induction false} CompletesExactly(sum: nat, d: Digit)
    ensures (sum + d) % 10 == 0 <==> d == (10 - sum % 10) % 10
  {
    var q, r := sum / 10, sum % 10;
    assert sum == 10 * q + r;
    if (sum + d) % 10 == 0 {
      assert (r + d) % 10 == 0;
    }
    if d == (10 - r) % 10 {
      assert r + d == 0 || r + d == 10;
    }
  }
}
