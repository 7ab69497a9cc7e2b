/** The next race, resolved through four tiers: the primary provider's season
    calendar, then OpenF1 meetings, then the first race of next season, then a
    fixed "Season Break" record. */
module NextRace {
  import opened Wrappers
  import opened Text
  import opened Sorting
  import opened Records
  import opened Countdown

  datatype NextRace = NextRace(raceName: string, location: string, country: string, date: string, timeLeft: string)

  /** The primary provider's season reply: `races` is `None` when the key is missing. */
  datatype SeasonDoc = SeasonDoc(races: Option<seq<Obj>>)

  /** The `datetime` services the resolver relies on: ISO parsing, `isoformat()`
      of a parsed time, and `strftime('%Y-%m-%d %H:%M')` of a wall-clock time. */
  datatype Calendar = Calendar(parse: Parser, isoformat: Stamp -> string, minuteText: int -> string)

  /** `isoformat()` of an aware time writes a 'T', ends in its UTC offset (not
      'Z'), and parses back to the same time. */
  ghost predicate IsoRoundTrips(cal: Calendar) {
    forall s: Stamp ::
      && Contains(cal.isoformat(s), 'T')
      && !EndsWith(cal.isoformat(s), 'Z')
      && cal.parse(cal.isoformat(s)) == Some(s)
  }

  /** An upcoming race or meeting: its record and its aware start time. */
  datatype Candidate = Candidate(item: Obj, instant: int, offset: int)

  function At(c: Candidate): int {
    c.instant
  }

  function StampOf(c: Candidate): Stamp {
    Aware(c.instant, c.offset)
  }

  /** The text parsed for a calendar race date: 'Z' spelled out as "+00:00",
      and a bare date taken as 15:00 UTC. */
  function RaceDateText(date: string): string {
    if Contains(date, 'T') then Replace(date, 'Z', "+00:00") else date + "T15:00:00+00:00"
  }

  /** The text parsed for a meeting's `date_start`: 'Z' spelled out, nothing else. */
  function MeetingDateText(date: string): string {
    Replace(date, 'Z', "+00:00")
  }

  /** A record is a candidate when its date field is non-empty and parses to
      an aware time strictly after `now`. A date that does not parse, or
      parses to a naive time (which cannot be compared with the aware `now`),
      drops the record. */
  function CandidateOf(item: Obj, key: string, toText: string -> string, now: int, parse: Parser): (r: Option<Candidate>)
    ensures r.Some? ==>
              && r.value.item == item && r.value.instant > now
              && Get(item, key, "") != ""
              && parse(toText(Get(item, key, ""))) == Some(Aware(r.value.instant, r.value.offset))
    ensures (Get(item, key, "") != "" && exists t, off :: t > now && parse(toText(Get(item, key, ""))) == Some(Aware(t, off)))
              ==> r.Some?
  {
    var date := Get(item, key, "");
    if date == "" then None
    else
      match parse(toText(date))
      case Some(Aware(t, off)) => if t > now then Some(Candidate(item, t, off)) else None
      case _ => None
  }

  /** The candidates among `items`, in list order. */
  function Upcoming(items: seq<Obj>, key: string, toText: string -> string, now: int, parse: Parser): (r: seq<Candidate>)
    ensures |r| <= |items|
    ensures forall i :: 0 <= i < |r| ==> r[i].instant > now
  {
    if items == [] then []
    else
      var c := CandidateOf(items[|items| - 1], key, toText, now, parse);
      Upcoming(items[..|items| - 1], key, toText, now, parse) + (if c.Some? then [c.value] else [])
  }

  /** The earliest candidate; the one listed first on equal start times. */
  function Earliest(up: seq<Candidate>): Candidate
    requires |up| > 0
  {
    SortBy(up, At)[0]
  }

  // ---------------------------------------------------------------------
  // The four tiers
  // ---------------------------------------------------------------------

  /** How the first two tiers present their pick: the start as a UTC-labelled
      wall time, and the countdown computed from its `isoformat()` text. */
  function Announce(name: string, location: string, country: string, c: Candidate, now: int, cal: Calendar): NextRace {
    NextRace(name, location, country,
             cal.minuteText(c.instant + c.offset) + " UTC",
             CalculateTimeLeft(cal.isoformat(StampOf(c)), now, cal.parse))
  }

  function AnnounceRace(c: Candidate, now: int, cal: Calendar): NextRace {
    Announce(FieldOr(c.item, "race_name", "name", "Unknown"),
             FieldOr(c.item, "location", "circuit", "Unknown"),
             Get(c.item, "country", "Unknown"), c, now, cal)
  }

  function AnnounceMeeting(c: Candidate, now: int, cal: Calendar): NextRace {
    Announce(Get(c.item, "meeting_name", "Unknown"),
             Get(c.item, "location", "Unknown"),
             Get(c.item, "country_name", "Unknown"), c, now, cal)
  }

  /** Tier 1: the earliest upcoming race of this season's calendar. */
  function FromCalendar(doc: Option<SeasonDoc>, now: int, cal: Calendar): Option<NextRace> {
    if doc.Some? && doc.value.races.Some? then
      var up := Upcoming(doc.value.races.value, "date", RaceDateText, now, cal.parse);
      if |up| == 0 then None else Some(AnnounceRace(Earliest(up), now, cal))
    else None
  }

  /** Tier 2: the earliest upcoming OpenF1 meeting. */
  function FromMeetings(meetings: Option<seq<Obj>>, now: int, cal: Calendar): Option<NextRace> {
    if NonEmpty(meetings) then
      var up := Upcoming(meetings.value, "date_start", MeetingDateText, now, cal.parse);
      if |up| == 0 then None else Some(AnnounceMeeting(Earliest(up), now, cal))
    else None
  }

  /** The date assumed for next season's opener when its record has none. */
  function OpenerDate(nextYear: int): string {
    IntToString(nextYear) + "-03-01" + "T" + "15:00:00" + "Z"
  }

  /** Tier 3: the first race of next season's calendar, whatever its date.
      An empty race list (IndexError in the source) falls through. */
  function FromNextSeason(doc: Option<SeasonDoc>, nextYear: int, now: int, cal: Calendar): Option<NextRace> {
    if doc.Some? && doc.value.races.Some? && |doc.value.races.value| > 0 then
      var first := doc.value.races.value[0];
      var date := Get(first, "date", OpenerDate(nextYear));
      Some(NextRace(
        Get(first, "race_name", IntToString(nextYear) + " Season Opener"),
        Get(first, "location", "TBD"),
        Get(first, "country", "TBD"),
        Replace(Replace(date, 'T', " "), 'Z', " UTC"),
        CalculateTimeLeft(date, now, cal.parse)))
    else None
  }

  /** Tier 4. */
  const SeasonBreak := NextRace("Season Break", "Checking for upcoming races...", "Unknown", "TBD", "Season break")

  /** What `fetch_next_race` returns: the first tier that yields a race. */
  function NextRaceOf(
    year: int, now: int, cal: Calendar,
    seasonFor: int -> Option<SeasonDoc>, meetingsFor: int -> Option<seq<Obj>>): NextRace
  {
    var t1 := FromCalendar(seasonFor(year), now, cal);
    if t1.Some? then t1.value
    else
      var t2 := FromMeetings(meetingsFor(year), now, cal);
      if t2.Some? then t2.value
      else
        var t3 := FromNextSeason(seasonFor(year + 1), year + 1, now, cal);
        if t3.Some? then t3.value else SeasonBreak
  }

  // ---------------------------------------------------------------------
  // The resolver, as the backend runs it
  // ---------------------------------------------------------------------

  /** Resolves the next race, trying the four tiers in order. */
  method FetchNextRace(
    year: int, now: int, cal: Calendar,
    seasonFor: int -> Option<SeasonDoc>, meetingsFor: int -> Option<seq<Obj>>)
    returns (r: NextRace)
    ensures r == NextRaceOf(year, now, cal, seasonFor, meetingsFor)
  {
    var data := seasonFor(year);
    if data.Some? && data.value.races.Some? {
      var upcoming := CollectUpcoming(data.value.races.value, "date", RaceDateText, now, cal.parse);
      if |upcoming| > 0 {
        upcoming := SortBy(upcoming, At);
        return AnnounceRace(upcoming[0], now, cal);
      }
    }
    var meetings := meetingsFor(year);
    if NonEmpty(meetings) {
      var upcoming := CollectUpcoming(meetings.value, "date_start", MeetingDateText, now, cal.parse);
      if |upcoming| > 0 {
        upcoming := SortBy(upcoming, At);
        return AnnounceMeeting(upcoming[0], now, cal);
      }
    }
    var nextYear := year + 1;
    var nextData := seasonFor(nextYear);
    if nextData.Some? && nextData.value.races.Some? && |nextData.value.races.value| > 0 {
      var first := nextData.value.races.value[0];
      var date := Get(first, "date", OpenerDate(nextYear));
      return NextRace(
        Get(first, "race_name", IntToString(nextYear) + " Season Opener"),
        Get(first, "location", "TBD"),
        Get(first, "country", "TBD"),
        Replace(Replace(date, 'T', " "), 'Z', " UTC"),
        CalculateTimeLeft(date, now, cal.parse));
    }
    return SeasonBreak;
  }

  /** The scan that collects the upcoming candidates, skipping each record
      whose date is empty, unparsable, naive or not after `now`. */
  method CollectUpcoming(items: seq<Obj>, key: string, toText: string -> string, now: int, parse: Parser)
    returns (upcoming: seq<Candidate>)
    ensures upcoming == Upcoming(items, key, toText, now, parse)
  {
    upcoming := [];
    for i := 0 to |items|
      invariant upcoming == Upcoming(items[..i], key, toText, now, parse)
    {
      assert items[..i + 1][..i] == items[..i];
      var date := Get(items[i], key, "");
      if date == "" {
        continue;
      }
      var stamp := parse(toText(date));
      if stamp.Some? && stamp.value.Aware? && stamp.value.instant > now {
        upcoming := upcoming + [Candidate(items[i], stamp.value.instant, stamp.value.offset)];
      }
    }
    assert items[..|items|] == items;
  }

  // ---------------------------------------------------------------------
  // Properties
  // ---------------------------------------------------------------------

  /** Scanning two lists one after the other finds the candidates of each, in order. */
  lemma {:induction false} UpcomingAppend(
    a: seq<Obj>, b: seq<Obj>, key: string, toText: string -> string, now: int, parse: Parser)
    ensures Upcoming(a + b, key, toText, now, parse)
         == Upcoming(a, key, toText, now, parse) + Upcoming(b, key, toText, now, parse)
  {
    if b == [] {
      assert a + b == a;
    } else {
      var b' := b[..|b| - 1];
      UpcomingAppend(a, b', key, toText, now, parse);
      assert (a + b)[..|a + b| - 1] == a + b';
      assert (a + b)[|a + b| - 1] == b[|b| - 1];
    }
  }

  /** A record whose date is missing, malformed, naive or past drops out on
      its own: the records around it keep exactly their candidates. */
  lemma DroppedRecordIsSkipped(
    before: seq<Obj>, item: Obj, after: seq<Obj>, key: string, toText: string -> string, now: int, parse: Parser)
    requires CandidateOf(item, key, toText, now, parse).None?
    ensures Upcoming(before + [item] + after, key, toText, now, parse)
         == Upcoming(before, key, toText, now, parse) + Upcoming(after, key, toText, now, parse)
  {
    UpcomingAppend(before + [item], after, key, toText, now, parse);
    assert (before + [item])[..|before|] == before;
  }

  /** The candidates are exactly the records whose date parses to an aware
      time after `now`. */
  lemma {:induction false} UpcomingMembers(
    items: seq<Obj>, key: string, toText: string -> string, now: int, parse: Parser, c: Candidate)
    ensures c in Upcoming(items, key, toText, now, parse)
        <==> exists i :: 0 <= i < |items| && CandidateOf(items[i], key, toText, now, parse) == Some(c)
  {
    if items != [] {
      var pre := items[..|items| - 1];
      UpcomingMembers(pre, key, toText, now, parse, c);
      if exists i :: 0 <= i < |pre| && CandidateOf(pre[i], key, toText, now, parse) == Some(c) {
        var i :| 0 <= i < |pre| && CandidateOf(pre[i], key, toText, now, parse) == Some(c);
        assert items[i] == pre[i];
      }
      if exists i :: 0 <= i < |items| && CandidateOf(items[i], key, toText, now, parse) == Some(c) {
        var i :| 0 <= i < |items| && CandidateOf(items[i], key, toText, now, parse) == Some(c);
        if i < |pre| { assert pre[i] == items[i]; }
      }
    }
  }

  /** The pick starts after `now`, no record starts earlier after `now`, and
      among records with the same start the first listed wins. */
  lemma EarliestIsFirstSoonest(
    items: seq<Obj>, key: string, toText: string -> string, now: int, parse: Parser)
    requires |Upcoming(items, key, toText, now, parse)| > 0
    ensures var up := Upcoming(items, key, toText, now, parse);
            var c := Earliest(up);
            && c.instant > now
            && c == up[FirstMinIndex(up, At)]
            && (forall i :: 0 <= i < |items| && CandidateOf(items[i], key, toText, now, parse).Some? ==>
                  c.instant <= CandidateOf(items[i], key, toText, now, parse).value.instant)
  {
    var up := Upcoming(items, key, toText, now, parse);
    SortByHead(up, At);
    var k := FirstMinIndex(up, At);
    forall i | 0 <= i < |items| && CandidateOf(items[i], key, toText, now, parse).Some?
      ensures up[k].instant <= CandidateOf(items[i], key, toText, now, parse).value.instant
    {
      var d := CandidateOf(items[i], key, toText, now, parse).value;
      UpcomingMembers(items, key, toText, now, parse, d);
      var j :| 0 <= j < |up| && up[j] == d;
    }
  }

  /** A later tier is consulted only when every earlier one came up empty,
      and "Season Break" only when all three did. */
  lemma TierOrder(
    year: int, now: int, cal: Calendar,
    seasonFor: int -> Option<SeasonDoc>, meetingsFor: int -> Option<seq<Obj>>,
    seasonFor': int -> Option<SeasonDoc>, meetingsFor': int -> Option<seq<Obj>>)
    requires seasonFor(year) == seasonFor'(year)
    ensures FromCalendar(seasonFor(year), now, cal).Some? ==>
              NextRaceOf(year, now, cal, seasonFor, meetingsFor) == NextRaceOf(year, now, cal, seasonFor', meetingsFor')
    ensures meetingsFor(year) == meetingsFor'(year) && FromMeetings(meetingsFor(year), now, cal).Some? ==>
              NextRaceOf(year, now, cal, seasonFor, meetingsFor) == NextRaceOf(year, now, cal, seasonFor', meetingsFor')
    ensures NextRaceOf(year, now, cal, seasonFor, meetingsFor) == SeasonBreak <==>
              && FromCalendar(seasonFor(year), now, cal).None?
              && FromMeetings(meetingsFor(year), now, cal).None?
              && FromNextSeason(seasonFor(year + 1), year + 1, now, cal).None?
  {
    var t3 := FromNextSeason(seasonFor(year + 1), year + 1, now, cal);
    if t3.Some? {
      NextSeasonIsNotSeasonBreak(seasonFor(year + 1), year + 1, now, cal);
    }
    if FromCalendar(seasonFor(year), now, cal).Some? {
      UpcomingIsNotSeasonBreak(seasonFor(year), now, cal);
    }
    if FromMeetings(meetingsFor(year), now, cal).Some? {
      MeetingIsNotSeasonBreak(meetingsFor(year), now, cal);
    }
  }

  lemma UpcomingIsNotSeasonBreak(doc: Option<SeasonDoc>, now: int, cal: Calendar)
    requires FromCalendar(doc, now, cal).Some?
    ensures FromCalendar(doc, now, cal).value != SeasonBreak
  {
    var r := FromCalendar(doc, now, cal).value;
    assert |r.date| >= 4 && r.date[|r.date| - 4..] == " UTC";
  }

  lemma MeetingIsNotSeasonBreak(meetings: Option<seq<Obj>>, now: int, cal: Calendar)
    requires FromMeetings(meetings, now, cal).Some?
    ensures FromMeetings(meetings, now, cal).value != SeasonBreak
  {
    var r := FromMeetings(meetings, now, cal).value;
    assert |r.date| >= 4 && r.date[|r.date| - 4..] == " UTC";
  }

  lemma NextSeasonIsNotSeasonBreak(doc: Option<SeasonDoc>, nextYear: int, now: int, cal: Calendar)
    requires FromNextSeason(doc, nextYear, now, cal).Some?
    ensures FromNextSeason(doc, nextYear, now, cal).value != SeasonBreak
  {
    var r := FromNextSeason(doc, nextYear, now, cal).value;
    var date := Get(doc.value.races.value[0], "date", OpenerDate(nextYear));
    CountdownIsNotSeasonBreak(date, now, cal.parse);
  }

  /** The countdown text is never the fixed "Season break". */
  lemma CountdownIsNotSeasonBreak(raw: string, now: int, parse: Parser)
    ensures CalculateTimeLeft(raw, now, parse) != "Season break"
  {
    var st := parse(RaceStampText(raw));
    if st.Some? {
      var c := CountdownOf(UtcInstant(st.value) - now);
      match c
      case Completed =>
      case DaysHours(d, h) => assert Render(c)[0] == NatToString(d)[0];
      case HoursMinutes(h, m) => assert Render(c)[0] == NatToString(h)[0];
      case Minutes(m) => assert Render(c)[0] == NatToString(m)[0];
    }
  }

  /** With a faithful `isoformat`, the first two tiers count down to the
      pick's start, which lies ahead: they never report "Race completed". */
  lemma AnnouncedCountdown(c: Candidate, now: int, cal: Calendar)
    requires IsoRoundTrips(cal) && c.instant > now
    ensures AnnounceRace(c, now, cal).timeLeft == Render(CountdownOf(c.instant - now))
    ensures AnnounceMeeting(c, now, cal).timeLeft == Render(CountdownOf(c.instant - now))
    ensures Render(CountdownOf(c.instant - now)) != "Race completed"
  {
    var race, meeting := AnnounceRace(c, now, cal), AnnounceMeeting(c, now, cal);
    AnnounceCountsDown(race.raceName, race.location, race.country, c, now, cal);
    AnnounceCountsDown(meeting.raceName, meeting.location, meeting.country, c, now, cal);
  }

  lemma AnnounceCountsDown(name: string, location: string, country: string, c: Candidate, now: int, cal: Calendar)
    requires IsoRoundTrips(cal) && c.instant > now
    ensures Announce(name, location, country, c, now, cal).timeLeft == Render(CountdownOf(c.instant - now))
    ensures Render(CountdownOf(c.instant - now)) != "Race completed"
  {
    var iso := cal.isoformat(StampOf(c));
    IsoTextParsesBack(cal, StampOf(c));
    TimeLeftRendersCountdown(iso, now, cal.parse);
    assert Announce(name, location, country, c, now, cal).timeLeft == CalculateTimeLeft(iso, now, cal.parse);
    AheadIsNotCompleted(c.instant - now);
  }

  /** An `isoformat()` text needs no normalising and parses back to its time. */
  lemma IsoTextParsesBack(cal: Calendar, s: Stamp)
    requires IsoRoundTrips(cal)
    ensures RaceStampText(cal.isoformat(s)) == cal.isoformat(s)
    ensures cal.parse(cal.isoformat(s)) == Some(s)
  {
    var iso := cal.isoformat(s);
    assert Contains(iso, 'T') && !EndsWith(iso, 'Z') && cal.parse(iso) == Some(s);
  }

  lemma AheadIsNotCompleted(delta: int)
    requires delta > 0
    ensures Render(CountdownOf(delta)) != "Race completed"
  {
    var c := CountdownOf(delta);
    RenderParses(c);
    assert ParseCountdown("Race completed") == Some(Completed);
  }

  /** When next season's opener has no date, the resolver shows 1 March at
      15:00 UTC of that year. */
  lemma OpenerDefaultDate(doc: Option<SeasonDoc>, nextYear: int, now: int, cal: Calendar)
    requires doc.Some? && doc.value.races.Some? && |doc.value.races.value| > 0
    requires "date" !in doc.value.races.value[0]
    ensures FromNextSeason(doc, nextYear, now, cal).value.date
         == IntToString(nextYear) + "-03-01" + " " + "15:00:00" + " UTC"
  {
    var y := IntToString(nextYear);
    var day, clock := "-03-01", "15:00:00";
    IntTextOmits(nextYear, 'T');
    IntTextOmits(nextYear, 'Z');
    assert !Contains(day, 'T') && !Contains(clock, 'T');
    assert !Contains(day, 'Z') && !Contains(clock, 'Z') && !Contains(" ", 'Z');
    assert Replace("T", 'T', " ") == " " && Replace("Z", 'T', " ") == "Z";
    assert Replace("Z", 'Z', " UTC") == " UTC";
    assert OpenerDate(nextYear) == y + day + "T" + clock + "Z";
    ReplaceAppend(y + day + "T" + clock, "Z", 'T', " ");
    ReplaceAppend(y + day + "T", clock, 'T', " ");
    ReplaceAppend(y + day, "T", 'T', " ");
    ReplaceAppend(y, day, 'T', " ");
    ReplaceAppend(y + day + " " + clock, "Z", 'Z', " UTC");
    ReplaceAppend(y + day + " ", clock, 'Z', " UTC");
    ReplaceAppend(y + day, " ", 'Z', " UTC");
    ReplaceAppend(y, day, 'Z', " UTC");
  }
}
