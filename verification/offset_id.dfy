/**
 * The zone-offset text that `time(hour, minute, second, offset)` builds from a
 * `Duration` before handing it to the calendar library: a sign, then hours and
 * minutes (and, in some profiles, seconds) each printed with `%02d`.
 *
 * The `Duration` is given by its `getSign()` and its non-negative hour, minute
 * and second fields. A parser for the same text is the formatter's partner.
 */
module OffsetId {
  import opened Wrappers

  /** The fields of a `Duration` that the offset text uses. */
  datatype Offset = Offset(sign: int, hours: nat, minutes: nat, seconds: nat)

  /** What an offset text denotes: a direction and three fields. */
  datatype OffsetParts = OffsetParts(negative: bool, hours: nat, minutes: nat, seconds: nat)

  predicate IsDigit(c: char)
  {
    '0' <= c <= '9'
  }

  /** The decimal digit character for `d`. */
  function DigitChar(d: nat): (c: char)
    requires d < 10
    ensures IsDigit(c)
  {
    ['0', '1', '2', '3', '4', '5', '6', '7', '8', '9'][d]
  }

  /** The value of a digit character. */
  function DigitValue(c: char): (d: nat)
    requires IsDigit(c)
    ensures d < 10 && DigitChar(d) == c
  {
    if c == '0' then 0 else if c == '1' then 1 else if c == '2' then 2
    else if c == '3' then 3 else if c == '4' then 4 else if c == '5' then 5
    else if c == '6' then 6 else if c == '7' then 7 else if c == '8' then 8 else 9
  }

  /** `%d` of a non-negative number: its decimal digits, without leading zeros. */
  function Decimal(n: nat): (r: string)
    ensures |r| >= 1 && (forall c <- r :: IsDigit(c))
    ensures n < 10 <==> |r| == 1
    ensures r[0] != '0' || n == 0
  {
    if n < 10 then [DigitChar(n)] else Decimal(n / 10) + [DigitChar(n % 10)]
  }

  /** `%02d` of a non-negative number: its decimal digits, padded with zeros to width two. */
  function Pad2(n: nat): (r: string)
    ensures |r| >= 2 && (forall c <- r :: IsDigit(c))
    ensures n < 100 ==> |r| == 2
  {
    if n < 10 then "0" + Decimal(n) else Decimal(n)
  }

  /** The number a string of decimal digits denotes. */
  function DigitsValue(s: string): nat
    requires forall c <- s :: IsDigit(c)
  {
    if s == [] then 0
    else
      assert forall c <- s[..|s| - 1] :: c in s;
      DigitsValue(s[..|s| - 1]) * 10 + DigitValue(s[|s| - 1])
  }

  /** A field of the offset text: one or more digits. */
  function ParseNat(s: string): (r: Option<nat>)
    ensures r.Some? <==> s != [] && forall c <- s :: IsDigit(c)
  {
    if s != [] && forall c <- s :: IsDigit(c) then Some(DigitsValue(s)) else None
  }

  /** The `:`-separated fields of `s` (a text without `:` is one field). */
  function Fields(s: string): (r: seq<string>)
    ensures |r| >= 1
  {
    if s == [] then [""]
    else if s[0] == ':' then [""] + Fields(s[1..])
    else
      var f := Fields(s[1..]);
      [[s[0]] + f[0]] + f[1..]
  }

  /**
   * The offset text of DefaultFEELLib: `"%s%02d:%02d"` of sign, hours and
   * minutes when the seconds are 0, else `"%s%02d:%02d:%02d"` with the seconds too.
   */
  function DefaultOffsetId(offset: Offset): (id: string)
    ensures |id| >= 6 && id[0] == (if offset.sign < 0 then '-' else '+')
  {
    var sign := if offset.sign < 0 then "-" else "+";
    if offset.seconds == 0 then sign + Pad2(offset.hours) + ":" + Pad2(offset.minutes)
    else sign + Pad2(offset.hours) + ":" + Pad2(offset.minutes) + ":" + Pad2(offset.seconds)
  }

  /** The offset text of UniformJavaTimeFEELLib: always `"%s%02d:%02d"`, the seconds dropped. */
  function UniformOffsetId(offset: Offset): (id: string)
    ensures |id| >= 6 && id[0] == (if offset.sign < 0 then '-' else '+')
  {
    var sign := if offset.sign < 0 then "-" else "+";
    sign + Pad2(offset.hours) + ":" + Pad2(offset.minutes)
  }

  /** The offset text of DoubleMixedJavaTimeFEELLib: always `"%s%02d:%02d:%02d"`. */
  function DoubleOffsetId(offset: Offset): (id: string)
    ensures |id| >= 6 && id[0] == (if offset.sign < 0 then '-' else '+')
  {
    var sign := if offset.sign < 0 then "-" else "+";
    sign + Pad2(offset.hours) + ":" + Pad2(offset.minutes) + ":" + Pad2(offset.seconds)
  }

  /** Reads an offset text back: a sign, then two or three digit fields separated by `:`. */
  function ParseOffsetId(id: string): (r: Option<OffsetParts>)
    ensures r.Some? ==> |id| >= 1 && r.value.negative == (id[0] == '-')
  {
    if |id| < 1 || (id[0] != '+' && id[0] != '-') then None
    else
      var f := Fields(id[1..]);
      if |f| != 2 && |f| != 3 then None
      else
        var h, m := ParseNat(f[0]), ParseNat(f[1]);
        var s := if |f| == 3 then ParseNat(f[2]) else Some(0);
        if h.None? || m.None? || s.None? then None
        else Some(OffsetParts(id[0] == '-', h.value, m.value, s.value))
  }

  /** The digits of `n` read back as `n`. */
  lemma {:induction false} DecimalRoundTrip(n: nat)
    ensures DigitsValue(Decimal(n)) == n
  {
    if n >= 10 {
      DecimalRoundTrip(n / 10);
      var d := Decimal(n);
      assert d[..|d| - 1] == Decimal(n / 10);
    }
  }

  /** The padded digits of `n` read back as `n`. */
  lemma Pad2RoundTrip(n: nat)
    ensures ParseNat(Pad2(n)) == Some(n)
  {
    DecimalRoundTrip(n);
    if n < 10 {
      var p := Pad2(n);
      assert p[..|p| - 1] == "0";
      assert DigitsValue("0") == 0 by {
        assert "0"[..0] == [];
      }
    }
  }

  /** A field followed by `:` and more text splits there. */
  lemma {:induction false} FieldsJoin(a: string, b: string)
    requires ':' !in a
    ensures Fields(a + ":" + b) == [a] + Fields(b)
  {
    if a == [] {
      assert a + ":" + b == [':'] + b;
      assert ([':'] + b)[1..] == b;
    } else {
      assert (a + ":" + b)[1..] == a[1..] + ":" + b;
      assert a[1..] + [] == a[1..];
      FieldsJoin(a[1..], b);
      assert [a[0]] + a[1..] == a;
    }
  }

  /** A text without `:` is a single field. */
  lemma {:induction false} FieldsSingle(a: string)
    requires ':' !in a
    ensures Fields(a) == [a]
  {
    if a != [] {
      FieldsSingle(a[1..]);
      assert [a[0]] + a[1..] == a;
    }
  }

  /** Digits hold no `:`. */
  lemma Pad2NoColon(n: nat)
    ensures ':' !in Pad2(n)
  {
  }

  /** The fields of `x:y` and `x:y:z` for padded numbers. */
  lemma FieldsOfPadded(x: nat, y: nat, z: nat)
    ensures Fields(Pad2(x) + ":" + Pad2(y)) == [Pad2(x), Pad2(y)]
    ensures Fields(Pad2(x) + ":" + Pad2(y) + ":" + Pad2(z)) == [Pad2(x), Pad2(y), Pad2(z)]
  {
    Pad2NoColon(x);
    Pad2NoColon(y);
    Pad2NoColon(z);
    FieldsSingle(Pad2(y));
    FieldsJoin(Pad2(x), Pad2(y));
    FieldsSingle(Pad2(z));
    FieldsJoin(Pad2(y), Pad2(z));
    assert Pad2(x) + ":" + Pad2(y) + ":" + Pad2(z) == Pad2(x) + ":" + (Pad2(y) + ":" + Pad2(z));
    FieldsJoin(Pad2(x), Pad2(y) + ":" + Pad2(z));
  }

  /** DefaultFEELLib's offset text reads back as the sign and all three fields of the `Duration`. */
  lemma DefaultOffsetIdRoundTrip(offset: Offset)
    ensures ParseOffsetId(DefaultOffsetId(offset))
            == Some(OffsetParts(offset.sign < 0, offset.hours, offset.minutes, offset.seconds))
  {
    var id := DefaultOffsetId(offset);
    var sign := if offset.sign < 0 then "-" else "+";
    FieldsOfPadded(offset.hours, offset.minutes, offset.seconds);
    Pad2RoundTrip(offset.hours);
    Pad2RoundTrip(offset.minutes);
    Pad2RoundTrip(offset.seconds);
    if offset.seconds == 0 {
      assert id[1..] == Pad2(offset.hours) + ":" + Pad2(offset.minutes);
    } else {
      assert id[1..] == Pad2(offset.hours) + ":" + Pad2(offset.minutes) + ":" + Pad2(offset.seconds);
    }
  }

  /** UniformJavaTimeFEELLib's offset text reads back with the seconds lost. */
  lemma UniformOffsetIdRoundTrip(offset: Offset)
    ensures ParseOffsetId(UniformOffsetId(offset))
            == Some(OffsetParts(offset.sign < 0, offset.hours, offset.minutes, 0))
  {
    var id := UniformOffsetId(offset);
    FieldsOfPadded(offset.hours, offset.minutes, 0);
    Pad2RoundTrip(offset.hours);
    Pad2RoundTrip(offset.minutes);
    assert id[1..] == Pad2(offset.hours) + ":" + Pad2(offset.minutes);
  }

  /** DoubleMixedJavaTimeFEELLib's offset text reads back as all three fields, like DefaultFEELLib's. */
  lemma DoubleOffsetIdRoundTrip(offset: Offset)
    ensures ParseOffsetId(DoubleOffsetId(offset)) == ParseOffsetId(DefaultOffsetId(offset))
  {
    var id := DoubleOffsetId(offset);
    FieldsOfPadded(offset.hours, offset.minutes, offset.seconds);
    Pad2RoundTrip(offset.hours);
    Pad2RoundTrip(offset.minutes);
    Pad2RoundTrip(offset.seconds);
    assert id[1..] == Pad2(offset.hours) + ":" + Pad2(offset.minutes) + ":" + Pad2(offset.seconds);
    DefaultOffsetIdRoundTrip(offset);
  }

  /** Different offsets never share a text in DefaultFEELLib (up to the sign of a zero duration). */
  lemma DefaultOffsetIdInjective(a: Offset, b: Offset)
    requires DefaultOffsetId(a) == DefaultOffsetId(b)
    ensures (a.sign < 0) == (b.sign < 0)
    ensures a.hours == b.hours && a.minutes == b.minutes && a.seconds == b.seconds
  {
    DefaultOffsetIdRoundTrip(a);
    DefaultOffsetIdRoundTrip(b);
  }

  /** Five and a half hours east: `+05:30`, and with 15 seconds `+05:30:15`. */
  lemma OffsetIdExample()
    ensures DefaultOffsetId(Offset(1, 5, 30, 0)) == "+05:30"
    ensures DefaultOffsetId(Offset(-1, 5, 30, 15)) == "-05:30:15"
  {
    assert Decimal(30) == "30";
    assert Decimal(15) == "15";
  }
}
