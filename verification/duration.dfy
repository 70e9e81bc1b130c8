/**
 * `formatDuration` of the call page (frontend/src/pages/Call.jsx): a
 * non-negative number of seconds shown as `HH:MM:SS`, each field padded
 * to at least two digits (hours may take more).
 */
module Duration {
  import opened Wrappers
  import opened Text

  datatype Clock = Clock(hours: nat, minutes: nat, seconds: nat)

  /** `Math.floor(s / 3600)`, `Math.floor((s % 3600) / 60)` and `s % 60` for non-negative `s`. */
  function Fields(total: nat): (c: Clock)
    ensures c.hours * 3600 + c.minutes * 60 + c.seconds == total
    ensures c.minutes < 60 && c.seconds < 60
  {
    Clock(total / 3600, (total % 3600) / 60, total % 60)
  }

  /** `n.toString().padStart(2, '0')`. */
  function Field(n: nat): (s: string)
    ensures |s| >= 2 && IsDigits(s) && ':' !in s
    ensures n < 100 ==> |s| == 2
    ensures ParseDecimal(s) == n
  {
    PaddedDecimal(n);
    PadStart(Decimal(n), 2, '0')
  }

  lemma PaddedDecimal(n: nat)
    ensures var s := PadStart(Decimal(n), 2, '0');
            IsDigits(s) && ParseDecimal(s) == n && (n < 100 ==> |s| == 2)
  {
    var d := Decimal(n);
    DecimalRoundTrip(n);
    DecimalLength(n);
    var s := PadStart(d, 2, '0');
    if |d| < 2 {
      assert s == "0" + d;
      ParseLeadingZero(d);
    }
    assert forall i :: 0 <= i < |s| ==> IsDigit(s[i]);
  }

  lemma {:induction false} DecimalLength(n: nat)
    ensures n < 100 ==> |Decimal(n)| <= 2
  {
    if n >= 10 {
      DecimalLength(n / 10);
    }
  }

  /** The template string `${h}:${m}:${s}` of padded fields. */
  function Render(c: Clock): (r: string)
    ensures Split(r, ':') == [Field(c.hours), Field(c.minutes), Field(c.seconds)]
  {
    var h, m, s := Field(c.hours), Field(c.minutes), Field(c.seconds);
    SplitThree(h, m, s);
    h + [':'] + (m + [':'] + s)
  }

  lemma SplitThree(a: string, b: string, c: string)
    requires ':' !in a && ':' !in b && ':' !in c
    ensures Split(a + [':'] + (b + [':'] + c), ':') == [a, b, c]
  {
    SplitWhole(c, ':');
    SplitCons(b, ':', c);
    SplitCons(a, ':', b + [':'] + c);
  }

  function FormatDuration(total: nat): (r: string)
    ensures Split(r, ':') == [Field(Fields(total).hours), Field(Fields(total).minutes), Field(Fields(total).seconds)]
  {
    Render(Fields(total))
  }

  /** A clock field as the parser accepts it: one or more decimal digits. */
  predicate ValidField(f: string) {
    f != [] && IsDigits(f)
  }

  /** Three valid fields, minutes and seconds below 60, give hours * 3600 + minutes * 60 + seconds. */
  function FromFields(parts: seq<string>): (r: Option<nat>)
    ensures r.Some? <==> |parts| == 3 && ValidField(parts[0]) && ValidField(parts[1]) && ValidField(parts[2])
                         && ParseDecimal(parts[1]) < 60 && ParseDecimal(parts[2]) < 60
  {
    if |parts| == 3 && ValidField(parts[0]) && ValidField(parts[1]) && ValidField(parts[2])
       && ParseDecimal(parts[1]) < 60 && ParseDecimal(parts[2]) < 60
    then Some(ParseDecimal(parts[0]) * 3600 + ParseDecimal(parts[1]) * 60 + ParseDecimal(parts[2]))
    else None
  }

  /** Reads `H:M:S` back into seconds; the inverse used to state that the display loses nothing. */
  function ParseDuration(text: string): Option<nat>
  {
    FromFields(Split(text, ':'))
  }

  /** The display loses nothing: reading it back gives the original number of seconds. */
  lemma FormatDurationRoundTrip(total: nat)
    ensures ParseDuration(FormatDuration(total)) == Some(total)
  {
    var c := Fields(total);
    var r := ParseDuration(FormatDuration(total));
    assert r.Some? && r.value == total by {
      assert Split(FormatDuration(total), ':') == [Field(c.hours), Field(c.minutes), Field(c.seconds)];
      ReadClock(c);
    }
  }

  /** Padded fields of a clock whose minutes and seconds are below 60 read back as its seconds. */
  lemma ReadClock(c: Clock)
    requires c.minutes < 60 && c.seconds < 60
    ensures var r := FromFields([Field(c.hours), Field(c.minutes), Field(c.seconds)]);
            r.Some? && r.value == c.hours * 3600 + c.minutes * 60 + c.seconds
  {
    var parts := [Field(c.hours), Field(c.minutes), Field(c.seconds)];
    assert ValidField(parts[0]) && ValidField(parts[1]) && ValidField(parts[2]);
    FromFieldsValue(parts);
  }

  lemma FromFieldsValue(parts: seq<string>)
    requires FromFields(parts).Some?
    ensures FromFields(parts).value
            == ParseDecimal(parts[0]) * 3600 + ParseDecimal(parts[1]) * 60 + ParseDecimal(parts[2])
  {
  }

  /** Minutes and seconds are always exactly two digits, so a shorter display means a shorter call. */
  lemma FormatDurationShape(total: nat)
    ensures var parts := Split(FormatDuration(total), ':');
            |parts| == 3 && |parts[0]| >= 2 && |parts[1]| == 2 && |parts[2]| == 2
    ensures total < 360000 ==> |FormatDuration(total)| == 8
  {
    var c := Fields(total);
    var r := FormatDuration(total);
    SplitJoin(r, ':');
    assert r == Field(c.hours) + [':'] + (Field(c.minutes) + [':'] + Field(c.seconds));
    if total < 360000 {
      assert c.hours < 100;
    }
  }
}
