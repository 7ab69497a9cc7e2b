/** The race countdown: the time from now to a race start, rendered as
    "D days, H hours", "H hours, M minutes", "M minutes" or "Race completed".
    Times are whole seconds, so where the clock has a fraction of a second
    the countdown can differ from the backend's by one unit at a whole-second
    boundary: for a race at 05:00:00Z and a clock at 05:00:00.4 the backend
    shows "Race completed" while the model, with `now` at 05:00:00, shows
    "0 minutes". */
module Countdown {
  import opened Wrappers
  import opened Text
  import opened Records

  datatype Countdown =
    | Completed
    | DaysHours(days: nat, hours: nat)
    | HoursMinutes(hours: nat, minutes: nat)
    | Minutes(minutes: nat)

  /** The countdown for `delta` seconds to go: its shape is fixed by the size
      of `delta`, and its fields are the whole days, hours and minutes in it. */
  function CountdownOf(delta: int): (c: Countdown)
    ensures c.Completed? <==> delta < 0
    ensures c.DaysHours? <==> delta >= 86400
    ensures c.HoursMinutes? <==> 3600 <= delta < 86400
    ensures c.Minutes? <==> 0 <= delta < 3600
    ensures c.DaysHours? ==>
              && c.hours < 24
              && c.days * 86400 + c.hours * 3600 <= delta < c.days * 86400 + (c.hours + 1) * 3600
    ensures c.HoursMinutes? ==>
              && c.minutes < 60
              && c.hours * 3600 + c.minutes * 60 <= delta < c.hours * 3600 + (c.minutes + 1) * 60
    ensures c.Minutes? ==> c.minutes * 60 <= delta < (c.minutes + 1) * 60
  {
    if delta < 0 then Completed
    else
      var days := delta / 86400;
      var hours := (delta % 86400) / 3600;
      var minutes := (delta % 3600) / 60;
      if days > 0 then DaysHours(days, hours)
      else if hours > 0 then HoursMinutes(hours, minutes)
      else Minutes(minutes)
  }

  /** The countdown's display text. */
  function Render(c: Countdown): string {
    match c
    case Completed => "Race completed"
    case DaysHours(d, h) => NatToString(d) + " days, " + NatToString(h) + " hours"
    case HoursMinutes(h, m) => NatToString(h) + " hours, " + NatToString(m) + " minutes"
    case Minutes(m) => NatToString(m) + " minutes"
  }

  /** The text handed to `datetime.fromisoformat`: a trailing 'Z' is spelled
      out as "+00:00" (every 'Z' is replaced), and a bare date is taken as
      midnight UTC. */
  function RaceStampText(raw: string): string {
    if Contains(raw, 'T') then
      if EndsWith(raw, 'Z') then Replace(raw, 'Z', "+00:00") else raw
    else raw + "T00:00:00+00:00"
  }

  /** The UTC instant of a parsed time; a naive one is taken to be UTC. */
  function UtcInstant(s: Stamp): int {
    match s
    case Aware(instant, _) => instant
    case Naive(wall) => wall
  }

  /** `calculate_time_left(raw)` at time `now`: "Unknown" exactly when the
      text does not parse; otherwise a text that reads back as the countdown
      to the parsed instant. */
  function CalculateTimeLeft(raw: string, now: int, parse: Parser): (r: string)
    ensures r == "Unknown" <==> parse(RaceStampText(raw)).None?
    ensures parse(RaceStampText(raw)).Some? ==>
              ParseCountdown(r) == Some(CountdownOf(UtcInstant(parse(RaceStampText(raw)).value) - now))
  {
    match parse(RaceStampText(raw))
    case None => "Unknown"
    case Some(stamp) =>
      var c := CountdownOf(UtcInstant(stamp) - now);
      RenderParses(c);
      UnknownIsNoCountdown();
      Render(c)
  }

  /** The text shown for a parsed time is the rendered countdown to it. */
  lemma TimeLeftRendersCountdown(raw: string, now: int, parse: Parser)
    requires parse(RaceStampText(raw)).Some?
    ensures CalculateTimeLeft(raw, now, parse) == Render(CountdownOf(UtcInstant(parse(RaceStampText(raw)).value) - now))
  {
  }

  /** "Unknown" does not read as a countdown. */
  lemma UnknownIsNoCountdown()
    ensures ParseCountdown("Unknown") == None
  {
    assert !IsDigit("Unknown"[0]);
  }

  // ---------------------------------------------------------------------
  // Reading a countdown back
  // ---------------------------------------------------------------------

  /** Reads a countdown text back into its fields. */
  function ParseCountdown(s: string): Option<Countdown> {
    if s == "Race completed" then Some(Completed)
    else match LeadingNumber(s)
      case None => None
      case Some((a, rest)) => ParseAfterNumber(a, rest)
  }

  /** The rest of a countdown text after its first number `a`. */
  function ParseAfterNumber(a: nat, rest: string): Option<Countdown> {
    if rest == " minutes" then Some(Minutes(a))
    else if |rest| >= 7 && rest[..7] == " days, " then
      match LeadingNumber(rest[7..])
      case Some((b, tail)) => if tail == " hours" then Some(DaysHours(a, b)) else None
      case None => None
    else if |rest| >= 8 && rest[..8] == " hours, " then
      match LeadingNumber(rest[8..])
      case Some((b, tail)) => if tail == " minutes" then Some(HoursMinutes(a, b)) else None
      case None => None
    else None
  }

  /** The display text determines the countdown: reading it back gives the
      countdown it was made from. */
  lemma RenderParses(c: Countdown)
    ensures ParseCountdown(Render(c)) == Some(c)
  {
    match c
    case Completed =>
    case DaysHours(d, h) => DaysHoursParses(d, h);
    case HoursMinutes(h, m) => HoursMinutesParses(h, m);
    case Minutes(m) => MinutesParses(m);
  }

  lemma DaysHoursParses(d: nat, h: nat)
    ensures ParseCountdown(Render(DaysHours(d, h))) == Some(DaysHours(d, h))
  {
    var tail := " days, " + NatToString(h) + " hours";
    assert Render(DaysHours(d, h)) == NatToString(d) + tail;
    NumberThenTail(d, tail);
    DaysTailParses(d, h);
  }

  lemma HoursMinutesParses(h: nat, m: nat)
    ensures ParseCountdown(Render(HoursMinutes(h, m))) == Some(HoursMinutes(h, m))
  {
    var tail := " hours, " + NatToString(m) + " minutes";
    assert Render(HoursMinutes(h, m)) == NatToString(h) + tail;
    NumberThenTail(h, tail);
    HoursTailParses(h, m);
  }

  lemma MinutesParses(m: nat)
    ensures ParseCountdown(Render(Minutes(m))) == Some(Minutes(m))
  {
    NumberThenTail(m, " minutes");
  }

  lemma NumberThenTail(n: nat, tail: string)
    requires tail != [] && tail[0] == ' '
    ensures ParseCountdown(NatToString(n) + tail) == ParseAfterNumber(n, tail)
  {
    LeadingNumberOf(n, tail);
    DigitsAreNotRaceCompleted(NatToString(n) + tail);
  }

  lemma DaysTailParses(d: nat, h: nat)
    ensures ParseAfterNumber(d, " days, " + NatToString(h) + " hours") == Some(DaysHours(d, h))
  {
    var tail := " days, " + NatToString(h) + " hours";
    assert tail != " minutes" by { assert tail[1] == 'd'; }
    assert tail[..7] == " days, ";
    assert tail[7..] == NatToString(h) + " hours";
    LeadingNumberOf(h, " hours");
  }

  lemma HoursTailParses(h: nat, m: nat)
    ensures ParseAfterNumber(h, " hours, " + NatToString(m) + " minutes") == Some(HoursMinutes(h, m))
  {
    var tail := " hours, " + NatToString(m) + " minutes";
    assert tail != " minutes" by { assert tail[1] == 'h'; }
    assert tail[..7] != " days, " by { assert tail[1] == 'h'; }
    assert tail[..8] == " hours, ";
    assert tail[8..] == NatToString(m) + " minutes";
    LeadingNumberOf(m, " minutes");
  }

  lemma DigitsAreNotRaceCompleted(s: string)
    requires |s| > 0 && IsDigit(s[0])
    ensures s != "Race completed"
  {
  }

  /** A race that has started reads "Race completed"; one less than a minute
      away reads "0 minutes". */
  lemma CountdownEdges(delta: int)
    ensures delta < 0 ==> Render(CountdownOf(delta)) == "Race completed"
    ensures 0 <= delta < 60 ==> Render(CountdownOf(delta)) == "0 minutes"
  {
  }
}
