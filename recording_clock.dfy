/**
 * The recording timer of the camera page (`update_recording_time`): the whole
 * seconds since recording started, split into minutes and seconds and shown
 * as `● 录制中... MM:SS` with `{:02d}` fields.
 */
module RecordingClock {
  import opened Wrappers
  import Naming

  const StatusPrefix: string := "● 录制中... "

  /** Python's `int(x)` on a float: truncation toward zero. */
  function Truncate(x: real): (n: int)
    ensures x >= 0.0 ==> n as real <= x < n as real + 1.0
    ensures x < 0.0 ==> n as real - 1.0 < x <= n as real
  {
    if x >= 0.0 then x.Floor else -((-x).Floor)
  }

  /** `elapsed // 60, elapsed % 60` (Python floors; for the divisor 60 Dafny's `/` and `%` agree). */
  function SplitElapsed(elapsed: int): (r: (int, int))
    ensures 60 * r.0 + r.1 == elapsed && 0 <= r.1 < 60
    ensures elapsed >= 0 ==> r.0 >= 0
  {
    (elapsed / 60, elapsed % 60)
  }

  /**
   * `f"{n:02d}"`: zero-padded to two characters, with no leading zero beyond
   * that; a negative number is a minus sign before the digits of its
   * magnitude, which are not padded.
   */
  function TwoDigits(n: int): (s: string)
    ensures n >= 0 ==> |s| >= 2 && Naming.AllDigits(s) && Naming.DigitsValue(s) == n
    ensures 0 <= n < 100 ==> |s| == 2
    ensures n >= 0 && |s| > 2 ==> s[0] != '0'
    ensures n < 0 ==> |s| >= 2 && s[0] == '-'
    ensures n < 0 ==> Naming.AllDigits(s[1..]) && Naming.DigitsValue(s[1..]) == -n && (|s| > 2 ==> s[1] != '0')
  {
    if n < 0 then
      Naming.DecimalRoundTrip(-n);
      assert ("-" + Naming.Decimal(-n))[1..] == Naming.Decimal(-n);
      "-" + Naming.Decimal(-n)
    else if n < 10 then ZeroPadded(n)
    else Naming.DecimalRoundTrip(n); DecimalWidth(n); Naming.Decimal(n)
  }

  function ZeroPadded(n: nat): (s: string)
    requires n < 10
    ensures |s| == 2 && Naming.AllDigits(s) && Naming.DigitsValue(s) == n
  {
    var s := "0" + Naming.Decimal(n);
    assert s[..1] == "0" && Naming.DigitsValue(s[..1]) == 0;
    s
  }

  /** A number between 10 and 99 has two decimal digits, one from 100 upward more. */
  lemma DecimalWidth(n: nat)
    requires n >= 10
    ensures |Naming.Decimal(n)| >= 2
    ensures n < 100 ==> |Naming.Decimal(n)| == 2
  {
  }

  /** The status text for `elapsed` whole seconds of recording. */
  function StatusText(elapsed: int): string {
    var (minutes, seconds) := SplitElapsed(elapsed);
    StatusPrefix + TwoDigits(minutes) + ":" + TwoDigits(seconds)
  }

  /**
   * `update_recording_time`: nothing changes while the page has no start of
   * recording; otherwise the text for `now - start` seconds, truncated as
   * `int(...)` does.
   */
  function RecordingStatus(start: Option<real>, now: real): Option<string> {
    if start.None? then None else Some(StatusText(Truncate(now - start.value)))
  }

  /**
   * Reads a status text back: the prefix, then a clock reading, giving the
   * number of seconds it stands for.
   */
  function ParseStatus(t: string): (r: Option<int>)
    ensures r.Some? ==> r.value >= 0
  {
    if |t| < |StatusPrefix| + 4 || t[..|StatusPrefix|] != StatusPrefix then None
    else ParseClock(t[|StatusPrefix|..])
  }

  /** Reads `mm:ss` back: the minutes digits, a colon and exactly two seconds digits. */
  function ParseClock(body: string): (r: Option<int>)
    ensures r.Some? ==> r.value >= 0
  {
    var colon := Naming.LastIndexOf(body, ':');
    if colon < 0 then None
    else
      var mm, ss := body[..colon], body[colon + 1..];
      if mm != [] && |ss| == 2 && Naming.AllDigits(mm) && Naming.AllDigits(ss)
      then Some(60 * Naming.DigitsValue(mm) + Naming.DigitsValue(ss))
      else None
  }

  /** Where the last colon sits decides what a clock reading parses to. */
  lemma ParseClockAt(body: string, mm: string, ss: string)
    requires Naming.LastIndexOf(body, ':') == |mm|
    requires body[..|mm|] == mm && body[|mm| + 1..] == ss
    requires mm != [] && |ss| == 2 && Naming.AllDigits(mm) && Naming.AllDigits(ss)
    ensures ParseClock(body) == Some(60 * Naming.DigitsValue(mm) + Naming.DigitsValue(ss))
  {
  }

  /** A clock reading of the shape `StatusText` produces parses to the seconds it encodes. */
  lemma ParseClockShape(mm: string, ss: string)
    requires mm != [] && |ss| == 2 && Naming.AllDigits(mm) && Naming.AllDigits(ss)
    ensures ParseClock(mm + [':'] + ss) == Some(60 * Naming.DigitsValue(mm) + Naming.DigitsValue(ss))
  {
    Naming.LastBeforeDigits(mm, ':', ss);
    ParseClockAt(mm + [':'] + ss, mm, ss);
  }

  /** A concatenation splits back at the length of its first part. */
  lemma PrefixThenRest(p: string, q: string)
    ensures (p + q)[..|p|] == p && (p + q)[|p|..] == q
  {
  }

  /** For every non-negative count of seconds the status text reads back as that count. */
  lemma StatusTextRoundTrip(elapsed: int)
    requires elapsed >= 0
    ensures ParseStatus(StatusText(elapsed)) == Some(elapsed)
  {
    var r := SplitElapsed(elapsed);
    var mm, ss := TwoDigits(r.0), TwoDigits(r.1);
    var body := mm + [':'] + ss;
    assert StatusText(elapsed) == StatusPrefix + body;
    PrefixThenRest(StatusPrefix, body);
    ParseClockShape(mm, ss);
  }

  /**
   * The timer changes the text exactly when recording has started, and, once
   * the clock has not gone backwards, the text reads back as the whole
   * seconds elapsed since the start.
   */
  lemma RecordingStatusReadsBack(start: Option<real>, now: real)
    ensures RecordingStatus(start, now).Some? <==> start.Some?
    ensures start.Some? && start.value <= now ==>
              var r := ParseStatus(RecordingStatus(start, now).value);
              && r.Some?
              && r.value as real <= now - start.value < r.value as real + 1.0
  {
    if start.Some? && start.value <= now {
      var elapsed := Truncate(now - start.value);
      assert RecordingStatus(start, now) == Some(StatusText(elapsed));
      StatusTextRoundTrip(elapsed);
    }
  }

  /** The seconds field never exceeds 59 and is always exactly two digits. */
  lemma SecondsFieldWidth(elapsed: int)
    ensures var s := TwoDigits(SplitElapsed(elapsed).1);
            |s| == 2 && Naming.DigitsValue(s) < 60
  {
  }
}
