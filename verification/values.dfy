/**
 The record shapes of types.ts: a processed row and its flat record of
 primitive values, together with JavaScript's `String(val)` for those values.

 Numbers are modelled as integers; `String(n)` of an integer is its decimal
 text with a leading '-' when negative. That is what JavaScript writes for
 the safe integers, those of magnitude at most 2^53 - 1; larger numbers are
 doubles and are written differently.
 */
module Values {

  /** One of the four primitive kinds a flat record may hold. */
  datatype Value = Text(s: string) | Number(n: int) | Boolean(b: bool) | Null

  /** A flat record: string keys to primitive values, the record's own
      properties. A key that is not in the map reads as `undefined`; the
      properties every object inherits (`constructor`, `toString`, ...) are
      not modelled. */
  type FlatRecord = map<string, Value>

  /** One transformed webhook: opaque id, capture time, the payload text as
      submitted, and the record the transformation produced. */
  datatype ProcessedRow = ProcessedRow(id: string, timestamp: string, originalPayload: string, data: FlatRecord)

  predicate IsDigit(c: char) {
    '0' <= c <= '9'
  }

  function Digit(d: nat): (c: char)
    requires d < 10
    ensures IsDigit(c)
    ensures DigitValue(c) == d
  {
    ('0' as int + d) as char
  }

  function DigitValue(c: char): int {
    c as int - '0' as int
  }

  /** Decimal text of a natural number, most significant digit first. */
  function NatToText(n: nat): (r: string)
    ensures |r| > 0
    ensures forall i :: 0 <= i < |r| ==> IsDigit(r[i])
    ensures n == 0 <==> r == "0"
    ensures r[0] != '0' || r == "0"
  {
    if n < 10 then [Digit(n)] else NatToText(n / 10) + [Digit(n % 10)]
  }

  /** `String(n)` for an integer number. */
  function IntToText(n: int): (r: string)
    ensures |r| > 0
    ensures n < 0 <==> r[0] == '-'
    ensures forall i :: 0 < i < |r| ==> IsDigit(r[i])
    ensures n >= 0 ==> IsDigit(r[0])
    ensures n >= 0 ==> r[0] != '0' || r == "0"
    ensures n < 0 ==> |r| > 1 && r[1] != '0'
    ensures ParseInt(r) == n
  {
    if n < 0 then
      var t := NatToText(-n);
      NatTextRoundTrip(-n);
      assert ("-" + t)[1..] == t;
      "-" + t
    else
      NatTextRoundTrip(n);
      NatToText(n)
  }

  /** Reads decimal digits back into a number (the inverse of NatToText). */
  function ParseNat(s: string): int
  {
    if |s| == 0 then 0 else 10 * ParseNat(s[..|s| - 1]) + DigitValue(s[|s| - 1])
  }

  function ParseInt(s: string): int
  {
    if 0 < |s| && s[0] == '-' then -ParseNat(s[1..]) else ParseNat(s)
  }

  lemma {:induction false} NatTextRoundTrip(n: nat)
    ensures ParseNat(NatToText(n)) == n
  {
    if n >= 10 {
      var t := NatToText(n);
      assert t[..|t| - 1] == NatToText(n / 10);
      NatTextRoundTrip(n / 10);
    }
  }

  /** `String(val)` of a primitive value, as the CSV export writes it. */
  function ToText(v: Value): (r: string)
    ensures v.Text? ==> r == v.s
    ensures v.Number? ==> r == IntToText(v.n) && ParseInt(r) == v.n
    ensures v.Boolean? ==> r == (if v.b then "true" else "false")
    ensures v.Null? ==> r == "null"
  {
    match v
    case Text(s) => s
    case Number(n) => IntToText(n)
    case Boolean(b) => if b then "true" else "false"
    case Null => "null"
  }
}
