/** String helpers shared by the controllers: ASCII case mapping (String
    toLowerCase/toUpperCase and SQL LOWER on the characters this
    model covers), substring search (SQL LIKE '%q%' and String.includes),
    the split used on appointment time slots, and decimal rendering of
    numbers (Number.toString and the text form of DATEONLY columns). */
module Text {
  import opened Base

  function LowerChar(c: char): char {
    if 'A' <= c <= 'Z' then (c as int + 32) as char else c
  }

  function UpperChar(c: char): char {
    if 'a' <= c <= 'z' then (c as int - 32) as char else c
  }

  function Lower(s: string): (r: string)
    ensures |r| == |s|
  {
    seq(|s|, i requires 0 <= i < |s| => LowerChar(s[i]))
  }

  /** Lower-casing twice is lower-casing once. */
  lemma LowerTwice(s: string)
    ensures Lower(Lower(s)) == Lower(s)
  {
  }

  /** `sub` occurs in `s` starting at index k. */
  predicate OccursAt(s: string, sub: string, k: int) {
    0 <= k && k + |sub| <= |s| && s[k..k + |sub|] == sub
  }

  /** SQL `LIKE '%sub%'` without wildcards inside `sub`, and String.includes. */
  predicate Contains(s: string, sub: string) {
    exists k :: 0 <= k <= |s| - |sub| && OccursAt(s, sub, k)
  }

  /** LOWER(column) LIKE '%q%' with the query lower-cased, and Op.iLike. */
  predicate LikeQuery(column: string, q: string) {
    Contains(Lower(column), Lower(q))
  }

  /** Index of the first occurrence of `sep` in `s` at or after `from`. */
  function FirstIndex(s: string, sep: string, from: nat): (r: Option<nat>)
    requires |sep| > 0
    ensures r.Some? ==> from <= r.value && OccursAt(s, sep, r.value)
    ensures r.Some? ==> forall j :: from <= j < r.value ==> !OccursAt(s, sep, j)
    ensures r.None? ==> forall j :: from <= j ==> !OccursAt(s, sep, j)
    decreases |s| - from
  {
    if from + |sep| > |s| then None
    else if s[from..from + |sep|] == sep then Some(from)
    else FirstIndex(s, sep, from + 1)
  }

  /** `s.split(sep)[0]` in JavaScript: the text before the first `sep`, or
      all of `s` when `sep` does not occur. */
  function BeforeFirst(s: string, sep: string): (r: string)
    requires |sep| > 0
  {
    match FirstIndex(s, sep, 0)
    case Some(k) => s[..k]
    case None => s
  }

  lemma BeforeFirstSpec(s: string, sep: string)
    requires |sep| > 0
    ensures BeforeFirst(s, sep) <= s
    ensures Contains(s, sep) ==>
      OccursAt(s, sep, |BeforeFirst(s, sep)|) &&
      forall j :: 0 <= j < |BeforeFirst(s, sep)| ==> !OccursAt(s, sep, j)
    ensures !Contains(s, sep) ==> BeforeFirst(s, sep) == s
  {
    match FirstIndex(s, sep, 0)
    case Some(k) =>
      assert Contains(s, sep) by { assert OccursAt(s, sep, k); }
    case None =>
  }

  function DigitChar(d: nat): char
    requires d < 10
  {
    ('0' as int + d) as char
  }

  /** Number.prototype.toString for a natural number: no leading zero
      except in "0" itself. */
  function Decimal(n: nat): (r: string)
    ensures |r| >= 1
    ensures forall i :: 0 <= i < |r| ==> '0' <= r[i] <= '9'
    ensures n > 0 ==> r[0] != '0'
  {
    if n < 10 then [DigitChar(n)] else Decimal(n / 10) + [DigitChar(n % 10)]
  }

  /** parseInt(s, 10) for a string of decimal digits. */
  function DecimalValue(s: string): nat {
    if s == [] then 0
    else DecimalValue(s[..|s| - 1]) * 10 + (if '0' <= s[|s| - 1] <= '9' then s[|s| - 1] as int - '0' as int else 0)
  }

  /** Reading back the decimal form of a number gives the number. */
  lemma {:induction false} DecimalRoundTrip(n: nat)
    ensures DecimalValue(Decimal(n)) == n
  {
    if n >= 10 {
      var d := Decimal(n);
      assert d[..|d| - 1] == Decimal(n / 10);
      DecimalRoundTrip(n / 10);
    }
  }

  function Pow10(k: nat): (r: nat)
    ensures r >= 1
  {
    if k == 0 then 1 else 10 * Pow10(k - 1)
  }

  /** A number in [10^k, 10^(k+1)) is written with exactly k + 1 digits. */
  lemma {:induction false} DecimalLength(n: nat, k: nat)
    requires Pow10(k) <= n < Pow10(k + 1)
    ensures |Decimal(n)| == k + 1
  {
    if k > 0 {
      DecimalLength(n / 10, k - 1);
    }
  }

  /** Left-pads the decimal form of n with zeros to `width` characters. */
  function Padded(n: nat, width: nat): (r: string)
    ensures |r| >= width
    ensures |r| >= |Decimal(n)|
  {
    var d := Decimal(n);
    if |d| >= width then d else seq(width - |d|, _ => '0') + d
  }

  /** The text of a DATEONLY value, "YYYY-MM-DD". */
  function DateText(d: Date): (r: string)
    ensures |r| >= 10
  {
    Padded(d.year, 4) + "-" + Padded(d.month, 2) + "-" + Padded(d.day, 2)
  }
}
