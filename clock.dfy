/**
 * Wall-clock times as the pages handle them: "HH:MM" strings of which only
 * the hour is read (`parseInt(t.split(':')[0])`), the hour-granular duration
 * rule that wraps past midnight, and the 24 hour-slot labels.
 */
module Clock {
  import opened Wrappers

  predicate IsDigit(c: char) { '0' <= c <= '9' }

  /** `s.split(':')[0]`: everything before the first colon, or all of `s`. */
  function HourPart(s: string): (r: string)
    ensures |r| <= |s| && r == s[..|r|]
    ensures forall i :: 0 <= i < |r| ==> r[i] != ':'
    ensures |r| < |s| ==> s[|r|] == ':'
  {
    if s == [] || s[0] == ':' then [] else [s[0]] + HourPart(s[1..])
  }

  /** The longest prefix of `s` made of decimal digits. */
  function LeadingDigits(s: string): (r: string)
    ensures |r| <= |s| && r == s[..|r|]
    ensures forall i :: 0 <= i < |r| ==> IsDigit(r[i])
    ensures |r| < |s| ==> !IsDigit(s[|r|])
  {
    if s == [] || !IsDigit(s[0]) then [] else [s[0]] + LeadingDigits(s[1..])
  }

  /** The number a string of decimal digits denotes. */
  function DigitsValue(d: string): nat
    requires forall i :: 0 <= i < |d| ==> IsDigit(d[i])
  {
    if d == [] then 0
    else
      assert IsDigit(d[|d| - 1]);
      10 * DigitsValue(d[..|d| - 1]) + (d[|d| - 1] as int - '0' as int)
  }

  /**
   * `parseInt(s)` for strings that start with a digit; `None` stands for NaN,
   * which parseInt yields when no digit comes first.
   */
  function ParseInt(s: string): (r: Option<nat>)
    ensures r.None? <==> (s == [] || !IsDigit(s[0]))
  {
    var d := LeadingDigits(s);
    if d == [] then None else Some(DigitsValue(d))
  }

  /** The hour of an "HH:MM" string: only the part before ':' is read, minutes are ignored. */
  function ParseHour(t: string): (r: Option<nat>)
    ensures r.None? <==> (t == [] || !IsDigit(t[0]))
  {
    assert t != [] && t[0] != ':' ==> HourPart(t)[0] == t[0];
    ParseInt(HourPart(t))
  }

  /**
   * Whole hours from `startHour` to `endHour`: the difference when the end is
   * later, otherwise the shift runs past midnight. Equal hours give a full day.
   */
  function HoursBetween(startHour: int, endHour: int): (h: int)
    ensures 0 <= startHour < 24 && 0 <= endHour < 24 ==>
              1 <= h <= 24 && (startHour + h) % 24 == endHour
  {
    if endHour > startHour then endHour - startHour else (24 - startHour) + endHour
  }

  /** On the clock, `HoursBetween` is the only duration in 1..24 that reaches the end hour. */
  lemma HoursBetweenUnique(startHour: int, endHour: int, k: int)
    requires 0 <= startHour < 24 && 0 <= endHour < 24
    requires 1 <= k <= 24 && (startHour + k) % 24 == endHour
    ensures k == HoursBetween(startHour, endHour)
  {
  }

  /** Equal hours count as 24, an earlier end wraps past midnight. */
  lemma HoursBetweenCases(startHour: int, endHour: int)
    requires 0 <= startHour < 24 && 0 <= endHour < 24
    ensures startHour == endHour ==> HoursBetween(startHour, endHour) == 24
    ensures endHour < startHour ==> HoursBetween(startHour, endHour) == 24 - startHour + endHour
    ensures endHour > startHour ==> HoursBetween(startHour, endHour) == endHour - startHour
  {
  }

  /**
   * The duration shown for a start and end time string; `None` (NaN) when
   * either hour does not parse, as NaN poisons the JavaScript arithmetic.
   */
  function ClockHours(startTime: string, endTime: string): (r: Option<int>)
    ensures r.Some? <==> ParseHour(startTime).Some? && ParseHour(endTime).Some?
    ensures r.Some? ==> r.value == HoursBetween(ParseHour(startTime).value, ParseHour(endTime).value)
    ensures r.Some? && ParseHour(startTime).value < 24 && ParseHour(endTime).value < 24 ==>
              1 <= r.value <= 24 && (ParseHour(startTime).value + r.value) % 24 == ParseHour(endTime).value
  {
    match (ParseHour(startTime), ParseHour(endTime))
    case (Some(s), Some(e)) => Some(HoursBetween(s, e))
    case _ => None
  }

  function DigitChar(n: nat): (c: char)
    requires n < 10
    ensures IsDigit(c) && c as int - '0' as int == n
  {
    ('0' as int + n) as char
  }

  /** `n.toString().padStart(2, '0')` for `n` below 100. */
  function Pad2(n: nat): (r: string)
    requires n < 100
  {
    [DigitChar(n / 10), DigitChar(n % 10)]
  }

  /** The label of hour slot `h`: two-digit hour followed by ":00". */
  function SlotLabel(h: nat): string
    requires h < 24
  {
    Pad2(h) + ":00"
  }

  /** `Array.from({ length: 24 }, (_, i) => `${pad(i)}:00`)`: the 24 hour slots. */
  function TimeSlots(): (r: seq<string>)
    ensures |r| == 24
    ensures forall i :: 0 <= i < 24 ==> r[i] == SlotLabel(i)
  {
    seq(24, i requires 0 <= i < 24 => SlotLabel(i))
  }

  /** `split(':')[0]` of a colon-free prefix, a colon and anything after is that prefix. */
  lemma {:induction false} HourPartOfPrefix(prefix: string, rest: string)
    requires forall i :: 0 <= i < |prefix| ==> prefix[i] != ':'
    ensures HourPart(prefix + ":" + rest) == prefix
  {
    if prefix != [] {
      assert (prefix + ":" + rest)[1..] == prefix[1..] + ":" + rest;
      HourPartOfPrefix(prefix[1..], rest);
    }
  }

  /** Two decimal digits read back as the number they were written from. */
  lemma Pad2RoundTrip(n: nat)
    requires n < 100
    ensures ParseInt(Pad2(n)) == Some(n)
  {
    var p := Pad2(n);
    assert LeadingDigits(p) == p;
    assert p[..1] == [DigitChar(n / 10)];
    assert DigitsValue(p[..1]) == n / 10 by {
      assert p[..1][..0] == [];
    }
  }

  /** Only the hour is read: whatever follows the colon, "HH:..." gives hour HH. */
  lemma MinutesIgnored(h: nat, minutes: string)
    requires h < 24
    ensures ParseHour(Pad2(h) + ":" + minutes) == Some(h)
  {
    HourPartOfPrefix(Pad2(h), minutes);
    Pad2RoundTrip(h);
  }

  /** The duration between two "HH:MM" times is the wrap-around count of their hours alone. */
  lemma ClockHoursOfHours(startHour: nat, startMinutes: string, endHour: nat, endMinutes: string)
    requires startHour < 24 && endHour < 24
    ensures ClockHours(Pad2(startHour) + ":" + startMinutes, Pad2(endHour) + ":" + endMinutes)
            == Some(HoursBetween(startHour, endHour))
  {
    MinutesIgnored(startHour, startMinutes);
    MinutesIgnored(endHour, endMinutes);
  }

  /** Reading back the hour of slot label `h` gives `h`. */
  lemma SlotLabelRoundTrip(h: nat)
    requires h < 24
    ensures ParseHour(SlotLabel(h)) == Some(h)
  {
    MinutesIgnored(h, "00");
    assert SlotLabel(h) == Pad2(h) + ":" + "00";
  }

  /** The slot labels are pairwise distinct, and each one is read back as its own index. */
  lemma {:induction false} TimeSlotsDistinct()
    ensures forall i :: 0 <= i < 24 ==> ParseHour(TimeSlots()[i]) == Some(i)
    ensures forall i, j :: 0 <= i < j < 24 ==> TimeSlots()[i] != TimeSlots()[j]
  {
    forall i | 0 <= i < 24 ensures ParseHour(TimeSlots()[i]) == Some(i) {
      SlotLabelRoundTrip(i);
    }
  }
}
