/**
 * The two persisted entries of the timer page (timer/src/app/page.tsx:19-41,
 * 100-101) and the decimal text the count is stored as: `String(count)` when
 * written, `Number(text)` when read back.
 */
module Storage {

  const NameKey: string := "timer_name"
  const CountKey: string := "timer_completed_count"

  predicate IsDigit(c: char)
  {
    '0' <= c <= '9'
  }

  predicate IsDigits(s: string)
  {
    forall i :: 0 <= i < |s| ==> IsDigit(s[i])
  }

  function DigitChar(d: nat): (c: char)
    requires d < 10
    ensures IsDigit(c) && c as int - '0' as int == d
  {
    ('0' as int + d) as char
  }

  function DigitValue(c: char): (d: nat)
    requires IsDigit(c)
    ensures d < 10 && DigitChar(d) == c
  {
    c as int - '0' as int
  }

  /** `String(n)` for a non-negative integer: decimal digits without leading zeros. */
  function NatToString(n: nat): (s: string)
    ensures s != "" && IsDigits(s)
    ensures |s| > 1 ==> s[0] != '0'
    decreases n
  {
    if n < 10 then [DigitChar(n)] else NatToString(n / 10) + [DigitChar(n % 10)]
  }

  /** `Number(s)` for a string of decimal digits (leading zeros allowed). */
  function DecimalValue(s: string): nat
    requires IsDigits(s)
    decreases |s|
  {
    if s == [] then 0 else 10 * DecimalValue(s[..|s| - 1]) + DigitValue(s[|s| - 1])
  }

  /** Reading back what was written gives the number that was written. */
  lemma {:induction false} DecimalRoundTrip(n: nat)
    ensures DecimalValue(NatToString(n)) == n
    decreases n
  {
    var s := NatToString(n);
    if n >= 10 {
      var prefix := NatToString(n / 10);
      assert s[..|s| - 1] == prefix;
      DecimalRoundTrip(n / 10);
    }
  }

  /** Distinct counts are stored as distinct texts. */
  lemma NatToStringInjective(m: nat, n: nat)
    requires NatToString(m) == NatToString(n)
    ensures m == n
  {
    DecimalRoundTrip(m);
    DecimalRoundTrip(n);
  }

  /** The name the page reads back: `getItem` gives null for a missing key. */
  function StoredName(store: map<string, string>): string
  {
    if NameKey in store then store[NameKey] else ""
  }

  /** The stored count text is what `Number` is modelled on. */
  predicate CountReadable(store: map<string, string>)
  {
    CountKey in store ==> IsDigits(store[CountKey])
  }

  /** The count the page reads back: a missing or empty entry is skipped (falsy) and reads as 0. */
  function StoredCount(store: map<string, string>): nat
    requires CountReadable(store)
  {
    if CountKey in store && store[CountKey] != "" then DecimalValue(store[CountKey]) else 0
  }

  /** A count written with `String` is read back unchanged. */
  lemma StoredCountWritten(store: map<string, string>, n: nat)
    requires CountKey in store && store[CountKey] == NatToString(n)
    ensures CountReadable(store) && StoredCount(store) == n
  {
    DecimalRoundTrip(n);
  }
}
