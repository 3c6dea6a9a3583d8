/**
 * The two text helpers of the core: `format_ms`, which renders a duration
 * for the player's embeds, and `truncate_string`, which shortens titles.
 */
module Utils {
  import opened PyText

  // ---------------------------------------------------------------- format_ms

  /** A duration split the way `format_ms` splits it. */
  datatype Clock = Clock(days: int, hours: nat, minutes: nat, seconds: nat)

  /** The fields `format_ms` computes, with Python's floor division (Dafny's `/` and `%` agree with it for a positive divisor). */
  function ClockOf(ms: int): (r: Clock)
    ensures r.hours < 24 && r.minutes < 60 && r.seconds < 60
    ensures ms / 1000 == ((r.days * 24 + r.hours) * 60 + r.minutes) * 60 + r.seconds
    ensures ms >= 0 ==> r.days >= 0
    ensures 0 <= ms < 86400000 <==> r.days == 0
  {
    Decompose(ms);
    Clock(ms / 86400000, (ms / 3600000) % 24, (ms / 60000) % 60, (ms / 1000) % 60)
  }

  /** Two-digit minutes and seconds: "MM:SS". */
  function MinSec(c: Clock): string
  {
    Pad2(c.minutes) + ":" + Pad2(c.seconds)
  }

  /** `format_ms(milliseconds)` for an integer number of milliseconds. */
  function FormatMs(ms: int): (r: string)
  {
    var c := ClockOf(ms);
    if c.days != 0 then IntString(c.days) + " days, " + Pad2(c.hours) + ":" + MinSec(c)
    else if c.hours != 0 then DecimalString(c.hours) + ":" + MinSec(c)
    else MinSec(c)
  }

  /** Reading the colon-separated fields of a clock back as base-60 digits. */
  function ClockValue(parts: seq<string>): nat
    requires forall k, i :: 0 <= k < |parts| && 0 <= i < |parts[k]| ==> IsDigit(parts[k][i])
  {
    if parts == [] then 0
    else ClockValue(parts[..|parts| - 1]) * 60 + DigitsValue(parts[|parts| - 1])
  }

  // ---------------------------------------------------------------- arithmetic

  /** The divisions by 60 000, 3 600 000 and 86 400 000 are repeated divisions of the whole seconds. */
  lemma Decompose(ms: int)
    ensures var t := ms / 1000;
      && ms / 60000 == t / 60
      && ms / 3600000 == t / 60 / 60
      && ms / 86400000 == t / 60 / 60 / 24
      && t == ((ms / 86400000 * 24 + (ms / 3600000) % 24) * 60 + (ms / 60000) % 60) * 60 + t % 60
      && (ms >= 0 ==> ms / 86400000 >= 0)
      && (0 <= ms < 86400000 <==> ms / 86400000 == 0)
  {
    var t := ms / 1000;
    var u := t / 60;
    var v := u / 60;
    var w := v / 24;
    assert ms == 1000 * t + ms % 1000;
    assert t == 60 * u + t % 60;
    assert ms == 60000 * u + (1000 * (t % 60) + ms % 1000);
    assert ms / 60000 == u;
    assert u == 60 * v + u % 60;
    assert ms == 3600000 * v + (60000 * (u % 60) + 1000 * (t % 60) + ms % 1000);
    assert ms / 3600000 == v;
    assert v == 24 * w + v % 24;
    assert ms == 86400000 * w + (3600000 * (v % 24) + 60000 * (u % 60) + 1000 * (t % 60) + ms % 1000);
    assert ms / 86400000 == w;
  }

  // ---------------------------------------------------------------- format_ms properties

  lemma {:induction false} ClockValueSnoc(parts: seq<string>, last: string)
    requires forall k, i :: 0 <= k < |parts| && 0 <= i < |parts[k]| ==> IsDigit(parts[k][i])
    requires forall i :: 0 <= i < |last| ==> IsDigit(last[i])
    ensures var ps := parts + [last];
      (forall k, i :: 0 <= k < |ps| && 0 <= i < |ps[k]| ==> IsDigit(ps[k][i]))
      && ClockValue(ps) == ClockValue(parts) * 60 + DigitsValue(last)
  {
    assert (parts + [last])[..|parts|] == parts;
  }

  lemma NoColonInDigits(s: string)
    requires forall i :: 0 <= i < |s| ==> IsDigit(s[i])
    ensures Split(s, ':') == [s]
  {
    SplitNoSeparator(s, ':');
  }

  lemma MinSecSplit(c: Clock)
    ensures Split(MinSec(c), ':') == [Pad2(c.minutes), Pad2(c.seconds)]
  {
    var m := Pad2(c.minutes);
    var s := Pad2(c.seconds);
    assert MinSec(c) == m + [':'] + s;
    SplitConcat(m, s, ':');
    NoColonInDigits(m);
    NoColonInDigits(s);
  }

  lemma TwoFieldValue(m: string, s: string)
    requires forall i :: 0 <= i < |m| ==> IsDigit(m[i])
    requires forall i :: 0 <= i < |s| ==> IsDigit(s[i])
    ensures ClockValue([m, s]) == DigitsValue(m) * 60 + DigitsValue(s)
  {
    assert [m, s][..1] == [m];
    assert [m][..0] == [];
    assert ClockValue([m]) == ClockValue([]) * 60 + DigitsValue(m);
    assert ClockValue([m, s]) == ClockValue([m]) * 60 + DigitsValue(s);
  }

  /** "MM:SS" splits into the two fields and reads back as minutes * 60 + seconds. */
  lemma MinSecFields(c: Clock)
    ensures Split(MinSec(c), ':') == [Pad2(c.minutes), Pad2(c.seconds)]
    ensures ClockValue([Pad2(c.minutes), Pad2(c.seconds)]) == c.minutes * 60 + c.seconds
  {
    MinSecSplit(c);
    Pad2RoundTrip(c.minutes);
    Pad2RoundTrip(c.seconds);
    TwoFieldValue(Pad2(c.minutes), Pad2(c.seconds));
  }

  lemma HourSplit(h: string, c: Clock)
    requires forall i :: 0 <= i < |h| ==> IsDigit(h[i])
    ensures Split(h + ":" + MinSec(c), ':') == [h, Pad2(c.minutes), Pad2(c.seconds)]
  {
    MinSecSplit(c);
    assert h + ":" + MinSec(c) == h + [':'] + MinSec(c);
    SplitConcat(h, MinSec(c), ':');
    NoColonInDigits(h);
    assert [h] + [Pad2(c.minutes), Pad2(c.seconds)] == [h, Pad2(c.minutes), Pad2(c.seconds)];
  }

  lemma ThreeFieldValue(h: string, m: string, s: string)
    requires forall i :: 0 <= i < |h| ==> IsDigit(h[i])
    requires forall i :: 0 <= i < |m| ==> IsDigit(m[i])
    requires forall i :: 0 <= i < |s| ==> IsDigit(s[i])
    ensures ClockValue([h, m, s]) == (DigitsValue(h) * 60 + DigitsValue(m)) * 60 + DigitsValue(s)
  {
    assert [h, m, s][..2] == [h, m];
    TwoFieldValue(h, m);
    assert ClockValue([h, m, s]) == ClockValue([h, m]) * 60 + DigitsValue(s);
  }

  /** "H:MM:SS" (the hours field as `h` renders it) splits into three fields reading back as hours, minutes, seconds. */
  lemma HourFields(h: string, hours: nat, c: Clock)
    requires forall i :: 0 <= i < |h| ==> IsDigit(h[i])
    requires DigitsValue(h) == hours
    ensures var ps := Split(h + ":" + MinSec(c), ':');
      (forall k, i :: 0 <= k < |ps| && 0 <= i < |ps[k]| ==> IsDigit(ps[k][i]))
      && |ps| == 3
      && ClockValue(ps) == (hours * 60 + c.minutes) * 60 + c.seconds
  {
    var m := Pad2(c.minutes);
    var s := Pad2(c.seconds);
    HourSplit(h, c);
    Pad2RoundTrip(c.minutes);
    Pad2RoundTrip(c.seconds);
    ThreeFieldValue(h, m, s);
  }

  /**
   * Under a day, `format_ms` is a clock that reads back: its colon-separated
   * fields, as base-60 digits, give the whole seconds of the duration; it has
   * an hours field exactly when the duration reaches an hour.
   */
  lemma FormatMsReadsBack(ms: int)
    requires 0 <= ms < 86400000
    ensures var ps := Split(FormatMs(ms), ':');
      (forall k, i :: 0 <= k < |ps| && 0 <= i < |ps[k]| ==> IsDigit(ps[k][i]))
      && (|ps| == 3 <==> ms >= 3600000)
      && (|ps| == 2 <==> ms < 3600000)
      && ClockValue(ps) == ms / 1000
  {
    var c := ClockOf(ms);
    Decompose(ms);
    MinSecFields(c);
    if c.hours != 0 {
      DecimalRoundTrip(c.hours);
      HourFields(DecimalString(c.hours), c.hours, c);
    }
  }

  /** From a day on, `format_ms` is the day count, then ", ", then a full "HH:MM:SS" clock of the rest of the day. */
  lemma FormatMsDays(ms: int)
    requires ms >= 86400000
    ensures FormatMs(ms) == DecimalString(ms / 86400000) + " days, " + Pad2(ClockOf(ms).hours) + ":" + MinSec(ClockOf(ms))
    ensures var ps := Split(Pad2(ClockOf(ms).hours) + ":" + MinSec(ClockOf(ms)), ':');
      (forall k, i :: 0 <= k < |ps| && 0 <= i < |ps[k]| ==> IsDigit(ps[k][i]))
      && |ps| == 3
      && ClockValue(ps) == (ms % 86400000) / 1000
  {
    var c := ClockOf(ms);
    Decompose(ms);
    Pad2RoundTrip(c.hours);
    HourFields(Pad2(c.hours), c.hours, c);
    var t := ms / 1000;
    assert ms == 86400000 * c.days + ms % 86400000;
    assert ms == 1000 * t + ms % 1000;
    assert ms % 86400000 == 1000 * (t - 86400 * c.days) + ms % 1000;
    assert (ms % 86400000) / 1000 == t - 86400 * c.days;
  }

  lemma SmallPads()
    ensures Pad2(1) == "01" && Pad2(2) == "02" && Pad2(3) == "03" && Pad2(5) == "05"
    ensures DecimalString(1) == "1" && IntString(1) == "1"
  {
  }

  /** The renderings the function's documentation gives: 65000 ms, 3723000 ms and 90061000 ms. */
  lemma FormatMsMinutesExample()
    ensures FormatMs(65000) == "01:05"
  {
    assert ClockOf(65000) == Clock(0, 0, 1, 5);
    SmallPads();
  }

  lemma FormatMsHoursExample()
    ensures FormatMs(3723000) == "1:02:03"
  {
    assert ClockOf(3723000) == Clock(0, 1, 2, 3);
    SmallPads();
  }

  lemma FormatMsDaysExample()
    ensures FormatMs(90061000) == "1 days, 01:01:01"
  {
    assert ClockOf(90061000) == Clock(1, 1, 1, 1);
    SmallPads();
  }

  // ---------------------------------------------------------------- truncate_string

  /** `truncate_string(text, length)`: `text[:length - 3] + "..."` when the text is longer than `length`. */
  function TruncateString(text: string, length: int): (r: string)
    ensures |text| <= length ==> r == text
    ensures |text| > length && length >= 3 ==> |r| == length && r == text[..length - 3] + "..."
    ensures |text| > length ==> |r| >= 3 && r[|r| - 3..] == "..." && r[..|r| - 3] <= text
  {
    if |text| > length then PySliceTo(text, length - 3) + "..." else text
  }

  /** The default cut of 40 characters. */
  function Truncate40(text: string): (r: string)
    ensures |r| <= 40
    ensures |text| <= 40 <==> r == text
  {
    TruncateString(text, 40)
  }

  /** With a cut of at least three characters, the result never exceeds it and truncating again changes nothing. */
  lemma TruncateIdempotent(text: string, length: int)
    requires length >= 3
    ensures |TruncateString(text, length)| <= length
    ensures TruncateString(TruncateString(text, length), length) == TruncateString(text, length)
  {
  }

  /** Below three characters the negative slice bound counts from the end, so the result is longer than the cut. */
  lemma TruncateShortCut(text: string, length: int)
    requires 0 <= length < 3 && |text| > length
    ensures |TruncateString(text, length)| > length
    ensures |TruncateString(text, length)| == (if |text| + length - 3 < 0 then 0 else |text| + length - 3) + 3
  {
  }
}
