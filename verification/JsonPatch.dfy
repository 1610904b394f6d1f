/** JSON documents and the JSON Patch semantics that stored diffs claim:
    JSON Pointer evaluation (RFC 6901, sections 3 to 5) and the add, remove and
    replace operations (RFC 6902, sections 4.1 to 4.3).  Written from the
    standards, independently of the diff engine. */
module JsonPatch {

  import opened Common

  datatype Json =
    | Null
    | Bool(b: bool)
    | Num(n: real)
    | Str(s: string)
    | Arr(elems: seq<Json>)
    | Obj(fields: map<string, Json>)

  datatype Action = Add(value: Json) | Remove | Replace(value: Json)
  datatype Op = Op(path: string, action: Action)

  // ---- JSON Pointer ---------------------------------------------------------

  /** Splits at every '/'; always at least one segment. */
  function Split(s: string): (r: seq<string>)
    ensures |r| > 0
  {
    if s == [] then [""]
    else
      var rest := Split(s[1..]);
      if s[0] == '/' then [""] + rest
      else [[s[0]] + rest[0]] + rest[1..]
  }

  /** "~1" stands for '/', "~0" for '~'; any other use of '~' is malformed. */
  function Unescape(seg: string): Option<string> {
    if seg == [] then Some("")
    else if seg[0] != '~' then
      match Unescape(seg[1..])
      case None => None
      case Some(t) => Some([seg[0]] + t)
    else if |seg| >= 2 && (seg[1] == '0' || seg[1] == '1') then
      match Unescape(seg[2..])
      case None => None
      case Some(t) => Some([if seg[1] == '0' then '~' else '/'] + t)
    else None
  }

  function UnescapeAll(segs: seq<string>): (r: Option<seq<string>>)
    ensures r.Some? ==> |r.value| == |segs|
  {
    if segs == [] then Some([])
    else
      match (Unescape(segs[0]), UnescapeAll(segs[1..]))
      case (Some(t), Some(ts)) => Some([t] + ts)
      case _ => None
  }

  function Decode(pointer: string): Option<seq<string>> {
    if pointer == "" then Some([])
    else if pointer[0] != '/' then None
    else UnescapeAll(Split(pointer[1..]))
  }

  /** An array index token: "0", or digits without a leading zero. */
  function ParseIndex(token: string): Option<nat> {
    if token == "" || (|token| > 1 && token[0] == '0')
       || exists i | 0 <= i < |token| :: !('0' <= token[i] <= '9')
    then None
    else Some(DecimalValue(token))
  }

  function DecimalValue(digits: string): nat
    requires forall i | 0 <= i < |digits| :: '0' <= digits[i] <= '9'
  {
    if digits == "" then 0
    else 10 * DecimalValue(digits[..|digits| - 1]) + (digits[|digits| - 1] as int - '0' as int)
  }

  // ---- JSON Patch -----------------------------------------------------------

  /** One operation at a decoded location; None when RFC 6902 makes it an error. */
  function ApplyAt(doc: Json, tokens: seq<string>, action: Action): Option<Json>
    decreases |tokens|
  {
    if tokens == [] then
      if action.Remove? then None else Some(action.value)
    else
      match doc
      case Obj(m) => ApplyInObject(m, tokens, action)
      case Arr(es) => ApplyInArray(es, tokens, action)
      case _ => None
  }

  function ApplyInObject(m: map<string, Json>, tokens: seq<string>, action: Action): Option<Json>
    requires tokens != []
    decreases |tokens|, 0
  {
    var k := tokens[0];
    if |tokens| == 1 then
      match action
      case Add(v) => Some(Obj(m[k := v]))
      case Remove => if k in m then Some(Obj(m - {k})) else None
      case Replace(v) => if k in m then Some(Obj(m[k := v])) else None
    else if k !in m then None
    else
      match ApplyAt(m[k], tokens[1..], action)
      case None => None
      case Some(c) => Some(Obj(m[k := c]))
  }

  function ApplyInArray(es: seq<Json>, tokens: seq<string>, action: Action): Option<Json>
    requires tokens != []
    decreases |tokens|, 0
  {
    if |tokens| == 1 && tokens[0] == "-" then
      if action.Add? then Some(Arr(es + [action.value])) else None
    else
      match ParseIndex(tokens[0])
      case None => None
      case Some(i) =>
        if |tokens| == 1 && action.Add? then
          if i <= |es| then Some(Arr(es[..i] + [action.value] + es[i..])) else None
        else if i >= |es| then None
        else if |tokens| == 1 then
          match action
          case Remove => Some(Arr(es[..i] + es[i + 1..]))
          case Replace(v) => Some(Arr(es[i := v]))
        else
          match ApplyAt(es[i], tokens[1..], action)
          case None => None
          case Some(c) => Some(Arr(es[i := c]))
  }

  function ApplyOp(doc: Json, op: Op): Option<Json> {
    match Decode(op.path)
    case None => None
    case Some(tokens) => ApplyAt(doc, tokens, op.action)
  }

  /** A patch: its operations in order, failing as a whole when one fails. */
  function Apply(doc: Json, ops: seq<Op>): Option<Json>
    decreases |ops|
  {
    if ops == [] then Some(doc)
    else
      match ApplyOp(doc, ops[0])
      case None => None
      case Some(next) => Apply(next, ops[1..])
  }

  // ---- Arrays -----------------------------------------------------------------

  function DigitOf(d: nat): (c: char)
    requires d < 10
    ensures '0' <= c <= '9' && c as int - '0' as int == d
  {
    ('0' as int + d) as char
  }

  /** An index as section 4 of RFC 6901 has it written. */
  function Decimal(n: nat): string {
    if n < 10 then [DigitOf(n)] else Decimal(n / 10) + [DigitOf(n % 10)]
  }

  predicate AllDigits(t: string) { forall i | 0 <= i < |t| :: '0' <= t[i] <= '9' }

  lemma {:induction false} DecimalRead(n: nat)
    ensures var t := Decimal(n); t != "" && (|t| > 1 ==> t[0] != '0') && (n > 0 ==> t[0] != '0')
    ensures AllDigits(Decimal(n)) && DecimalValue(Decimal(n)) == n
  {
    if n < 10 {
      assert Decimal(n)[..0] == "";
    } else {
      DecimalRead(n / 10);
      DigitAdded(Decimal(n / 10), n % 10);
    }
  }

  lemma {:induction false} DigitAdded(t: string, d: nat)
    requires AllDigits(t) && d < 10
    ensures AllDigits(t + [DigitOf(d)]) && DecimalValue(t + [DigitOf(d)]) == 10 * DecimalValue(t) + d
  {
    assert (t + [DigitOf(d)])[..|t|] == t;
  }

  /** Every index reads back, and nothing with a leading zero does. */
  lemma {:induction false} IndexRoundTrip(n: nat, tail: string)
    ensures ParseIndex(Decimal(n)) == Some(n) && Decimal(n) != "-"
    ensures tail != "" ==> ParseIndex("0" + tail) == None
    ensures ParseIndex("") == None
  {
    DecimalRead(n);
    assert AllDigits(Decimal(n)) ==> Decimal(n) != "-";
  }

  /** Adding at an index and removing there again changes nothing; `-` is the index past the end. */
  lemma {:induction false} AddThenRemove(es: seq<Json>, n: nat, v: Json)
    requires n <= |es|
    ensures var added := ApplyAt(Arr(es), [Decimal(n)], Add(v));
            added.Some? && ApplyAt(added.value, [Decimal(n)], Remove) == Some(Arr(es))
    ensures ApplyAt(Arr(es), ["-"], Add(v)) == ApplyAt(Arr(es), [Decimal(|es|)], Add(v)) == Some(Arr(es + [v]))
    ensures ApplyAt(Arr(es), [Decimal(|es| + 1 + n)], Add(v)) == None == ApplyAt(Arr(es), ["-"], Remove)
  {
    IndexRoundTrip(n, "");
    IndexRoundTrip(|es|, "");
    IndexRoundTrip(|es| + 1 + n, "");
    var more := es[..n] + [v] + es[n..];
    assert more[..n] + more[n + 1..] == es;
    assert es[..|es|] + [v] + es[|es|..] == es + [v];
  }
}
