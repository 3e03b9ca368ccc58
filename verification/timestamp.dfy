/** The wall-clock reading the frame builder formats for its `tsrc` field. */
module Timestamp {
  import opened ByteStrings
  import opened Decimal

  /** A local calendar time as Go's time.Time exposes it. */
  datatype DateTime = DateTime(year: nat, month: nat, day: nat, hour: nat, minute: nat, second: nat, nanosecond: nat)

  /** The field ranges every time.Time reading satisfies. */
  predicate Valid(t: DateTime) {
    1 <= t.month <= 12 && 1 <= t.day <= 31 && t.hour < 24 && t.minute < 60 && t.second < 60
    && t.nanosecond < 1_000_000_000
  }

  /** A zero-padded two-digit field. */
  function Pad2(n: nat): (r: Bytes)
    requires n < 100
    ensures |r| == 2 && AllDigits(r) && DigitsValue(r) == n
  {
    var r := [Digit(n / 10), Digit(n % 10)];
    assert r[..1] == [Digit(n / 10)] && r[..1][..0] == [];
    assert DigitsValue(r[..1]) == n / 10;
    assert DigitsValue(r) == 10 * (n / 10) + n % 10;
    r
  }

  /** A zero-padded three-digit field. */
  function Pad3(n: nat): (r: Bytes)
    requires n < 1000
    ensures |r| == 3 && AllDigits(r) && DigitsValue(r) == n
  {
    var r := [Digit(n / 100), Digit(n / 10 % 10), Digit(n % 10)];
    assert r[..2] == [Digit(n / 100), Digit(n / 10 % 10)];
    assert r[..2][..1] == [Digit(n / 100)] && r[..2][..1][..0] == [];
    assert r[..2][1] == Digit(n / 10 % 10);
    assert DigitsValue(r[..2][..1]) == n / 100;
    assert DigitsValue(r[..2]) == 10 * (n / 100) + n / 10 % 10;
    assert DigitsValue(r) == 10 * (10 * (n / 100) + n / 10 % 10) + n % 10;
    assert 10 * (n / 100) + n / 10 % 10 == n / 10;
    r
  }

  /** time.Time.Format with the layout "060201150405.000": two-digit year, day, month, hour,
      minute, second, a dot and the milliseconds, truncated. */
  function FormatTsrc(t: DateTime): (r: Bytes)
    requires Valid(t)
    ensures |r| == 16 && r[12] == DOT
    ensures forall i | 0 <= i < 16 && i != 12 :: IsDigit(r[i])
  {
    Pad2(t.year % 100) + Pad2(t.day) + Pad2(t.month) + Pad2(t.hour) + Pad2(t.minute) + Pad2(t.second)
    + [DOT] + Pad3(t.nanosecond / 1_000_000)
  }

  /** Reading the fields back: the day comes before the month, and the milliseconds are truncated. */
  lemma TsrcFields(t: DateTime)
    requires Valid(t)
    ensures var r := FormatTsrc(t);
      DigitsValue(r[0..2]) == t.year % 100 && DigitsValue(r[2..4]) == t.day && DigitsValue(r[4..6]) == t.month
      && DigitsValue(r[6..8]) == t.hour && DigitsValue(r[8..10]) == t.minute && DigitsValue(r[10..12]) == t.second
      && DigitsValue(r[13..16]) == t.nanosecond / 1_000_000
  {
    var r := FormatTsrc(t);
    assert r[0..2] == Pad2(t.year % 100);
    assert r[2..4] == Pad2(t.day);
    assert r[4..6] == Pad2(t.month);
    assert r[6..8] == Pad2(t.hour);
    assert r[8..10] == Pad2(t.minute);
    assert r[10..12] == Pad2(t.second);
    assert r[13..16] == Pad3(t.nanosecond / 1_000_000);
  }

  lemma TsrcNoNewline(t: DateTime)
    requires Valid(t)
    ensures NoNewline(FormatTsrc(t))
  {
  }
}
