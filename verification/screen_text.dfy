/** The two texts drawn over the pitch: the score and the game clock. Both
    are written into 10-byte buffers, so a text fits when it has at most
    nine characters and room is left for the terminating NUL. */
module ScreenText {
  import opened Wrappers
  import opened Decimal

  /** The size of the score and game-time buffers. */
  const TextBufferLen: nat := 10

  predicate FitsBuffer(t: string) {
    |t| < TextBufferLen
  }

  /** Scores from 100 on are not shown. */
  const ScoreLimit: nat := 100

  const ScoreSeparator: string := " - "

  /** convert_score_to_text: the two scores as `<a> - <b>`, or the empty
      text when either has three digits or more. */
  function ScoreText(a: nat, b: nat): (r: string)
    ensures a >= ScoreLimit || b >= ScoreLimit ==> r == ""
    ensures a < ScoreLimit && b < ScoreLimit ==> |r| >= 5 && ReadScore(r) == Some((a, b))
    ensures |r| <= 7 && FitsBuffer(r)
  {
    if a >= ScoreLimit || b >= ScoreLimit then ""
    else
      DigitsOfFits(a, 2);
      DigitsOfFits(b, 2);
      ReadScoreText(a, b);
      DigitsOf(a) + ScoreSeparator + DigitsOf(b)
  }

  /** The number a text starts with and the text after it; None when it
      does not start with a digit. */
  function ReadNumber(t: string): (r: Option<(nat, string)>)
    ensures r.Some? ==> |r.value.1| < |t|
  {
    var d := LeadingDigits(t);
    if |d| == 0 then None else Some((ValueOf(d), t[|d|..]))
  }

  /** A number's digits followed by a text that does not start with a digit
      read back as that number and that text. */
  lemma ReadNumberDigits(n: nat, rest: string)
    requires |rest| > 0 ==> !IsDigit(rest[0])
    ensures ReadNumber(DigitsOf(n) + rest) == Some((n, rest))
  {
    LeadingDigitsOf(DigitsOf(n), rest);
    ValueOfDigitsOf(n);
    assert (DigitsOf(n) + rest)[|DigitsOf(n)|..] == rest;
  }

  lemma {:induction false} LeadingDigitsOf(s: string, rest: string)
    requires AllDigits(s)
    requires |rest| > 0 ==> !IsDigit(rest[0])
    ensures LeadingDigits(s + rest) == s
  {
    if |s| > 0 {
      LeadingDigitsOf(s[1..], rest);
      assert (s + rest)[1..] == s[1..] + rest;
      assert [s[0]] + s[1..] == s;
    } else {
      assert s + rest == rest;
    }
  }

  /** The text after `sep`, when `t` starts with it. */
  function ReadSeparator(t: string, sep: string): (r: Option<string>)
    ensures r.Some? ==> |r.value| < |t| || sep == ""
  {
    if |sep| <= |t| && t[..|sep|] == sep then Some(t[|sep|..]) else None
  }

  lemma ReadSeparatorPrefix(sep: string, rest: string)
    ensures ReadSeparator(sep + rest, sep) == Some(rest)
  {
    assert (sep + rest)[..|sep|] == sep && (sep + rest)[|sep|..] == rest;
  }

  /** Reads a score text back into its two scores. */
  function ReadScore(t: string): Option<(nat, nat)> {
    match ReadNumber(t)
    case None => None
    case Some((a, r1)) =>
      match ReadSeparator(r1, ScoreSeparator)
      case None => None
      case Some(r2) =>
        match ReadNumber(r2)
        case None => None
        case Some((b, r3)) => if r3 == "" then Some((a, b)) else None
  }

  lemma ReadScoreText(a: nat, b: nat)
    ensures ReadScore(DigitsOf(a) + ScoreSeparator + DigitsOf(b)) == Some((a, b))
  {
    var r2 := DigitsOf(b);
    var r1 := ScoreSeparator + r2;
    assert DigitsOf(a) + ScoreSeparator + DigitsOf(b) == DigitsOf(a) + r1;
    ReadNumberDigits(a, r1);
    ReadSeparatorPrefix(ScoreSeparator, r2);
    assert r2 == DigitsOf(b) + "";
    ReadNumberDigits(b, "");
  }

  /** Scores that are shown are told apart by their texts. */
  lemma ScoreTextInjective(a: nat, b: nat, c: nat, d: nat)
    requires a < ScoreLimit && b < ScoreLimit && c < ScoreLimit && d < ScoreLimit
    ensures ScoreText(a, b) == ScoreText(c, d) <==> a == c && b == d
  {
  }

  const MillisecondsPerSecond: nat := 1000
  const SecondsPerMinute: nat := 60
  const MinutesPerHour: nat := 60

  /** The milliseconds since the timer started, as the unsigned 32-bit
      difference of the tick counts: it wraps when the tick counter has. */
  function ElapsedMs(nowMs: nat, startMs: nat): (r: nat)
    requires nowMs < 0x1_0000_0000 && startMs < 0x1_0000_0000
    ensures r < 0x1_0000_0000
    ensures startMs <= nowMs ==> r == nowMs - startMs
  {
    (nowMs - startMs) % 0x1_0000_0000
  }

  /** The clock's fields: whole hours, minutes and seconds since the start,
      each a total. */
  function Totals(ms: nat): (r: (nat, nat, nat))
    ensures r.2 == ms / MillisecondsPerSecond && r.1 == r.2 / SecondsPerMinute && r.0 == r.1 / MinutesPerHour
  {
    var s := ms / MillisecondsPerSecond;
    var m := s / SecondsPerMinute;
    (m / MinutesPerHour, m, s)
  }

  /** `h:m:s` with `%i` fields. */
  function ClockText(h: nat, m: nat, s: nat): string {
    DigitsOf(h) + ":" + DigitsOf(m) + ":" + DigitsOf(s)
  }

  /** Reads `h:m:s` back. */
  function ReadClock(t: string): Option<(nat, nat, nat)> {
    match ReadNumber(t)
    case None => None
    case Some((h, r1)) =>
      match ReadSeparator(r1, ":")
      case None => None
      case Some(r2) =>
        match ReadNumber(r2)
        case None => None
        case Some((m, r3)) =>
          match ReadSeparator(r3, ":")
          case None => None
          case Some(r4) =>
            match ReadNumber(r4)
            case None => None
            case Some((s, r5)) => if r5 == "" then Some((h, m, s)) else None
  }

  lemma ReadClockText(h: nat, m: nat, s: nat)
    ensures ReadClock(ClockText(h, m, s)) == Some((h, m, s))
  {
    var r4 := DigitsOf(s);
    var r3 := ":" + r4;
    var r2 := DigitsOf(m) + r3;
    var r1 := ":" + r2;
    assert ClockText(h, m, s) == DigitsOf(h) + r1;
    ReadNumberDigits(h, r1);
    ReadSeparatorPrefix(":", r2);
    ReadNumberDigits(m, r3);
    ReadSeparatorPrefix(":", r4);
    assert r4 == DigitsOf(s) + "";
    ReadNumberDigits(s, "");
  }

  /** convert_timer_to_text as written: the hour, minute and second fields
      are all totals, so the minutes and seconds keep growing past 59. The
      float divisions of the C are taken as exact integer divisions. */
  function TimerTextAsWritten(ms: nat): (r: string)
    ensures ReadClock(r) == Some(Totals(ms))
  {
    var (h, m, s) := Totals(ms);
    ReadClockText(h, m, s);
    ClockText(h, m, s)
  }

  /** The text as written fits its buffer for the first 100 minutes and not
      a millisecond longer: from 6000 seconds on it has ten characters or
      more, and the NUL lands outside the buffer. */
  lemma TimerTextAsWrittenOverflows(ms: nat)
    ensures FitsBuffer(TimerTextAsWritten(ms)) <==> ms < 6000 * MillisecondsPerSecond
  {
    var (h, m, s) := Totals(ms);
    DigitsOfFits(h, 1);
    DigitsOfFits(m, 2);
    DigitsOfFits(s, 4);
    DigitsOfFits(m, 3);
    DigitsOfFits(s, 5);
    if ms >= 6000 * MillisecondsPerSecond {
      assert s >= 6000 && m >= 100;
      DigitsOfFits(m, 2);
      DigitsOfFits(s, 3);
    }
  }

  /** 100 minutes on the clock, as written: the fields are 1, 100 and
      6000, ten characters with the colons, and the text does not fit. */
  lemma TimerAsWrittenAt100Minutes()
    ensures Totals(6000 * MillisecondsPerSecond) == (1, 100, 6000)
    ensures !FitsBuffer(TimerTextAsWritten(6000 * MillisecondsPerSecond))
  {
    assert 6000000 / 1000 == 6000 && 6000 / 60 == 100 && 100 / 60 == 1;
    TimerTextAsWrittenOverflows(6000 * MillisecondsPerSecond);
  }

  /** convert_timer_to_text as its format `hh:mm:ss` intends: hours, then
      the minutes and seconds within the hour and the minute. */
  function TimerText(ms: nat): (r: string)
    ensures var (h, m, s) := Totals(ms);
      ReadClock(r) == Some((h, m % MinutesPerHour, s % SecondsPerMinute))
  {
    var (h, m, s) := Totals(ms);
    ReadClockText(h, m % MinutesPerHour, s % SecondsPerMinute);
    ClockText(h, m % MinutesPerHour, s % SecondsPerMinute)
  }

  /** The fields of the intended clock add back up to the elapsed whole
      seconds, with minutes and seconds below 60. */
  lemma TimerFieldsAddUp(ms: nat)
    ensures var (h, m, s) := Totals(ms);
      && m % MinutesPerHour < 60 && s % SecondsPerMinute < 60
      && h * 3600 + (m % MinutesPerHour) * 60 + s % SecondsPerMinute == ms / MillisecondsPerSecond
  {
  }

  /** The intended clock fits its buffer for the first thousand hours. */
  lemma TimerTextFits(ms: nat)
    requires ms < 1000 * 3600 * MillisecondsPerSecond
    ensures FitsBuffer(TimerText(ms))
  {
    var (h, m, s) := Totals(ms);
    DigitsOfFits(h, 3);
    DigitsOfFits(m % MinutesPerHour, 2);
    DigitsOfFits(s % SecondsPerMinute, 2);
  }
}
