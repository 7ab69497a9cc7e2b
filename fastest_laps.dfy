/** Fastest laps of the most recent completed race: the single fastest lap,
    and the ten drivers' best laps. Lap durations are whole milliseconds. */
module FastestLaps {
  import opened Wrappers
  import opened Text
  import opened Sorting
  import opened Records
  import opened Standings

  datatype FastestLap = FastestLap(
    driverName: string, abbreviation: string, team: string,
    lapTime: string, raceName: string, date: string, sectorTimes: seq<nat>)

  /** Sector times of a lap, by session key, car number and lap number. */
  type SectorLookup = (int, int, int) -> seq<nat>

  /** The lap shown when no lap can be found: three sectors whose times add
      up to the lap time shown. */
  function FallbackLap(): (r: FastestLap)
    ensures |r.sectorTimes| == 3
    ensures r.lapTime == LapTime(r.sectorTimes[0] + r.sectorTimes[1] + r.sectorTimes[2])
  {
    LapTimeExample(25500 + 35200 + 19854);
    FastestLap("Max Verstappen", "VER", "Red Bull Racing", "1:20.554",
               "Abu Dhabi Grand Prix", "2024-12-08", [25500, 35200, 19854])
  }

  // ---------------------------------------------------------------------
  // Lap-time text
  // ---------------------------------------------------------------------

  /** `f"{minutes}:{seconds:06.3f}"`: whole minutes, then seconds with two
      integer digits and three decimals. */
  function LapTime(ms: nat): string {
    LapTimeText(ms / 60000, (ms % 60000) / 1000, ms % 1000)
  }

  function LapTimeText(minutes: nat, seconds: nat, millis: nat): string {
    NatToString(minutes) + ":" + PadDigits(seconds, 2) + "." + PadDigits(millis, 3)
  }

  /** Reads a lap-time text back into milliseconds. */
  function ParseLapTime(s: string): Option<nat> {
    match LeadingNumber(s)
    case None => None
    case Some((minutes, rest)) =>
      if |rest| == 7 && rest[0] == ':' && rest[3] == '.' && AllDigits(rest[1..3]) && AllDigits(rest[4..])
         && ValueOf(rest[1..3]) < 60
      then Some(minutes * 60000 + ValueOf(rest[1..3]) * 1000 + ValueOf(rest[4..]))
      else None
  }

  /** The lap-time text determines the duration: reading it back gives the
      milliseconds it was made from. */
  lemma LapTimeParses(ms: nat)
    ensures ParseLapTime(LapTime(ms)) == Some(ms)
  {
    var m, sec, milli := ms / 60000, (ms % 60000) / 1000, ms % 1000;
    LapTimeTextParses(m, sec, milli);
    assert m * 60000 + sec * 1000 + milli == ms;
  }

  lemma LapTimeTextParses(m: nat, sec: nat, milli: nat)
    requires sec < 60 && milli < 1000
    ensures ParseLapTime(LapTimeText(m, sec, milli)) == Some(m * 60000 + sec * 1000 + milli)
  {
    var rest := ":" + PadDigits(sec, 2) + "." + PadDigits(milli, 3);
    assert LapTimeText(m, sec, milli) == NatToString(m) + rest;
    LeadingNumberOf(m, rest);
    assert rest[1..3] == PadDigits(sec, 2);
    assert rest[4..] == PadDigits(milli, 3);
    PadDigitsValue(sec, 2);
    PadDigitsValue(milli, 3);
  }

  /** 80.554 s reads "1:20.554". */
  lemma LapTimeExample(ms: nat)
    requires ms == 80554
    ensures LapTime(ms) == "1:20.554"
  {
    assert ms / 60000 == 1 && (ms % 60000) / 1000 == 20 && ms % 1000 == 554;
    Digits20And554();
  }

  lemma Digits20And554()
    ensures LapTimeText(1, 20, 554) == "1:20.554"
  {
    assert PadDigits(554, 3) == "554" by {
      assert PadDigits(55, 2) == "55";
    }
    assert PadDigits(20, 2) == "20";
  }

  /** 59.001 s reads "0:59.001": seconds keep two digits and milliseconds three. */
  lemma LapTimeExamplePadded(ms: nat)
    requires ms == 59001
    ensures LapTime(ms) == "0:59.001"
  {
    assert ms / 60000 == 0 && (ms % 60000) / 1000 == 59 && ms % 1000 == 1;
    Digits59And001();
  }

  lemma Digits59And001()
    ensures LapTimeText(0, 59, 1) == "0:59.001"
  {
    assert PadDigits(1, 3) == "001" by {
      assert PadDigits(0, 2) == "00";
    }
    assert PadDigits(59, 2) == "59";
  }

  // ---------------------------------------------------------------------
  // The latest completed race
  // ---------------------------------------------------------------------

  /** `datetime.fromisoformat(date_end) < now` for a session that has a
      `date_end`: `None` where the comparison raises (unparsable text, or a
      naive time against the aware `now`). */
  function EndedBefore(end: string, now: int, parse: Parser): Option<bool> {
    match parse(Replace(end, 'Z', "+00:00"))
    case Some(Aware(t, _)) => Some(t < now)
    case _ => None
  }

  /** The sessions with a `date_end` before `now`, in list order; `None` when
      one of the `date_end` values cannot be compared. */
  function PastSessions(ss: seq<Session>, now: int, parse: Parser): (r: Option<seq<Session>>)
    ensures r.None? <==> exists s :: s in ss && s.dateEnd.Some? && EndedBefore(s.dateEnd.value, now, parse).None?
    ensures r.Some? ==> forall i :: 0 <= i < |r.value| ==>
              r.value[i] in ss && r.value[i].dateEnd.Some? && EndedBefore(r.value[i].dateEnd.value, now, parse) == Some(true)
    ensures r.Some? ==> forall s :: s in ss && s.dateEnd.Some? && EndedBefore(s.dateEnd.value, now, parse) == Some(true) ==>
              s in r.value
  {
    if ss == [] then Some([])
    else
      assert ss == ss[..|ss| - 1] + [ss[|ss| - 1]];
      var pre := PastSessions(ss[..|ss| - 1], now, parse);
      var s := ss[|ss| - 1];
      if pre.None? then None
      else if s.dateEnd.None? then pre
      else match EndedBefore(s.dateEnd.value, now, parse)
        case None => None
        case Some(ended) => if ended then Some(pre.value + [s]) else pre
  }

  function EndText(s: Session): string {
    s.dateEnd.GetOr("")
  }

  /** `max(past, key=date_end)`: the first session whose `date_end` text is
      not exceeded by any other. */
  function LatestIndex(past: seq<Session>): (i: nat)
    requires |past| > 0
    ensures i < |past|
    ensures forall j :: 0 <= j < |past| ==> !StrLess(EndText(past[i]), EndText(past[j]))
    ensures forall j :: 0 <= j < i ==> StrLess(EndText(past[j]), EndText(past[i]))
  {
    if |past| == 1 then StrLessIrreflexive(EndText(past[0])); 0
    else
      var pre := past[..|past| - 1];
      var i := LatestIndex(pre);
      var last := EndText(past[|past| - 1]);
      assert forall j :: 0 <= j < |pre| ==> past[j] == pre[j];
      assert forall j :: 0 <= j < |past| ==> j < |pre| || EndText(past[j]) == last;
      if StrLess(EndText(pre[i]), last) then
        LatestStep(pre, i, last);
        |past| - 1
      else
        StrLessIrreflexive(EndText(pre[i]));
        i
  }

  lemma LatestStep(pre: seq<Session>, i: nat, last: string)
    requires i < |pre|
    requires forall j :: 0 <= j < |pre| ==> !StrLess(EndText(pre[i]), EndText(pre[j]))
    requires StrLess(EndText(pre[i]), last)
    ensures forall j :: 0 <= j < |pre| ==> StrLess(EndText(pre[j]), last) && !StrLess(last, EndText(pre[j]))
    ensures !StrLess(last, last)
  {
    forall j | 0 <= j < |pre| ensures StrLess(EndText(pre[j]), last) && !StrLess(last, EndText(pre[j])) {
      StrNotLessThenLess(EndText(pre[j]), EndText(pre[i]), last);
      StrLessAsymmetric(EndText(pre[j]), last);
    }
    StrLessIrreflexive(last);
  }

  /** The race whose laps are read: the latest-ending past race of this
      year's sessions (last year's when this year has none); `None` stands
      for every path to the fallback lap before the laps are fetched. */
  function LatestRace(year: int, now: int, parse: Parser, sessionsFor: int -> Option<seq<Session>>): Option<Session> {
    var ss := SessionsOf(year, sessionsFor);
    if !NonEmpty(ss) then None
    else
      var past := PastSessions(ss.value, now, parse);
      if past.None? || past.value == [] then None
      else Some(past.value[LatestIndex(past.value)])
  }

  // ---------------------------------------------------------------------
  // Valid laps
  // ---------------------------------------------------------------------

  /** `lap.get('lap_duration') and lap['lap_duration'] > 0`. */
  predicate IsValid(l: Lap) {
    l.lapDuration.Some? && l.lapDuration.value > 0
  }

  /** The lap's duration, for a valid lap. */
  function Duration(l: Lap): nat {
    if IsValid(l) then l.lapDuration.value else 0
  }

  /** The duration as the `int` sort key the ordering helpers take. */
  function DurationKey(l: Lap): int {
    Duration(l)
  }

  function ValidLaps(laps: seq<Lap>): (r: seq<Lap>)
    ensures forall i :: 0 <= i < |r| ==> IsValid(r[i])
    ensures forall l :: l in r <==> l in laps && IsValid(l)
  {
    if laps == [] then []
    else
      var last := laps[|laps| - 1];
      ValidLaps(laps[..|laps| - 1]) + (if IsValid(last) then [last] else [])
  }

  /** `min(valid_laps, key=lap_duration)`. */
  function FastestValidLap(laps: seq<Lap>): Option<Lap> {
    var valid := ValidLaps(laps);
    if valid == [] then None else Some(valid[FirstMinIndex(valid, DurationKey)])
  }

  /** The row shown for a lap of `session`. */
  function LapRow(l: Lap, session: Session, table: Table, sectorTimes: SectorLookup): FastestLap {
    var id := IdentityOf(table, l.driverNumber);
    FastestLap(id.name, id.abbr, id.team, LapTime(Duration(l)),
               session.meetingName.GetOr("Unknown"),
               Take(session.dateStart.GetOr(""), 10),
               sectorTimes(session.sessionKey, l.driverNumber, l.lapNumber.GetOr(1)))
  }

  // ---------------------------------------------------------------------
  // The single fastest lap
  // ---------------------------------------------------------------------

  /** `fetch_fastest_lap` with the sector-time lookup in place: the fastest
      valid lap of the latest completed race, or the fallback lap. */
  function FastestLapOf(
    year: int, now: int, parse: Parser, sessionsFor: int -> Option<seq<Session>>,
    lapsOf: int -> Option<seq<Lap>>, table: Table, sectorTimes: SectorLookup): (r: FastestLap)
    ensures var race := LatestRace(year, now, parse, sessionsFor);
            var laps := if race.Some? then lapsOf(race.value.sessionKey) else None;
            if laps.Some? && exists i :: 0 <= i < |laps.value| && IsValid(laps.value[i]) then
              exists k :: IsFirstFastest(laps.value, k) && r == LapRow(laps.value[k], race.value, table, sectorTimes)
            else r == FallbackLap()
  {
    var race := LatestRace(year, now, parse, sessionsFor);
    if race.None? then FallbackLap()
    else
      var laps := lapsOf(race.value.sessionKey);
      if !NonEmpty(laps) then FallbackLap()
      else
        FastestValidLapIsMinimum(laps.value);
        match FastestValidLap(laps.value)
        case None => FallbackLap()
        case Some(l) => LapRow(l, race.value, table, sectorTimes)
  }

  /** `laps[k]` is the lap `min` picks: a valid lap, no valid lap is faster,
      and every valid lap before it is strictly slower. */
  ghost predicate IsFirstFastest(laps: seq<Lap>, k: int) {
    && 0 <= k < |laps| && IsValid(laps[k])
    && (forall j :: 0 <= j < |laps| && IsValid(laps[j]) ==> Duration(laps[k]) <= Duration(laps[j]))
    && (forall j :: 0 <= j < k && IsValid(laps[j]) ==> Duration(laps[k]) < Duration(laps[j]))
  }

  /** The lap picked is a valid lap of the list, no valid lap is faster, and
      among equally fast laps the first listed wins. */
  lemma {:induction false} FastestValidLapIsMinimum(laps: seq<Lap>)
    ensures FastestValidLap(laps).Some? <==> exists i :: 0 <= i < |laps| && IsValid(laps[i])
    ensures FastestValidLap(laps).Some? ==>
              exists k :: IsFirstFastest(laps, k) && laps[k] == FastestValidLap(laps).value
  {
    if laps != [] {
      var pre, x := laps[..|laps| - 1], laps[|laps| - 1];
      assert laps == pre + [x];
      FastestValidLapIsMinimum(pre);
      FastestValidLapStep(pre, x);
      var prev := FastestValidLap(pre);
      if prev.Some? {
        var k :| IsFirstFastest(pre, k) && pre[k] == prev.value;
        if IsValid(x) && Duration(x) < Duration(prev.value) {
          FirstFastestReplaced(pre, x, k);
        } else {
          FirstFastestKept(pre, x, k);
        }
      } else if IsValid(x) {
        FirstFastestFirst(pre, x);
      }
    }
  }

  lemma FirstFastestKept(pre: seq<Lap>, x: Lap, k: int)
    requires IsFirstFastest(pre, k)
    requires !IsValid(x) || Duration(pre[k]) <= Duration(x)
    ensures IsFirstFastest(pre + [x], k) && (pre + [x])[k] == pre[k]
  {
  }

  lemma FirstFastestReplaced(pre: seq<Lap>, x: Lap, k: int)
    requires IsFirstFastest(pre, k)
    requires IsValid(x) && Duration(x) < Duration(pre[k])
    ensures IsFirstFastest(pre + [x], |pre|)
  {
  }

  lemma FirstFastestFirst(pre: seq<Lap>, x: Lap)
    requires !exists i :: 0 <= i < |pre| && IsValid(pre[i])
    requires IsValid(x)
    ensures IsFirstFastest(pre + [x], |pre|)
  {
  }

  /** `min` over one more lap: a valid lap replaces the current pick only
      when it is strictly faster. */
  lemma FastestValidLapStep(pre: seq<Lap>, x: Lap)
    ensures FastestValidLap(pre + [x]) ==
              if !IsValid(x) then FastestValidLap(pre)
              else match FastestValidLap(pre)
                case None => Some(x)
                case Some(p) => if Duration(x) < Duration(p) then Some(x) else Some(p)
  {
    assert (pre + [x])[..|pre|] == pre;
    var v := ValidLaps(pre);
    if IsValid(x) {
      var v' := v + [x];
      assert ValidLaps(pre + [x]) == v';
      if v != [] {
        assert v'[..|v'| - 1] == v;
      }
    }
  }

  /** The race read is one of the sessions fetched and has ended: its
      `date_end` parses to an aware time before `now`. No session that has
      ended has a greater `date_end` text, and it sits at a position of the
      fetched list before which every ended session has a smaller text, so
      of two ended sessions with equal `date_end` text the one fetched
      first is read. */
  lemma LatestRaceIsLatestPast(year: int, now: int, parse: Parser, sessionsFor: int -> Option<seq<Session>>)
    requires LatestRace(year, now, parse, sessionsFor).Some?
    ensures var r := LatestRace(year, now, parse, sessionsFor).value;
            var ss := SessionsOf(year, sessionsFor).value;
            && r in ss
            && r.dateEnd.Some? && EndedBefore(r.dateEnd.value, now, parse) == Some(true)
            && (forall s :: s in ss && s.dateEnd.Some? && EndedBefore(s.dateEnd.value, now, parse) == Some(true) ==>
                  !StrLess(EndText(r), EndText(s)))
            && exists k :: 0 <= k < |ss| && ss[k] == r &&
                 forall j :: 0 <= j < k && ss[j].dateEnd.Some? && EndedBefore(ss[j].dateEnd.value, now, parse) == Some(true) ==>
                   StrLess(EndText(ss[j]), EndText(r))
  {
    var ss := SessionsOf(year, sessionsFor).value;
    var past := PastSessions(ss, now, parse).value;
    var i := LatestIndex(past);
    forall s | s in ss && s.dateEnd.Some? && EndedBefore(s.dateEnd.value, now, parse) == Some(true)
      ensures !StrLess(EndText(past[i]), EndText(s))
    {
      var j :| 0 <= j < |past| && past[j] == s;
    }
    var k := PastSessionsInOrder(ss, now, parse, i);
    forall j | 0 <= j < k && ss[j].dateEnd.Some? && EndedBefore(ss[j].dateEnd.value, now, parse) == Some(true)
      ensures StrLess(EndText(ss[j]), EndText(past[i]))
    {
      var m :| 0 <= m < i && past[..i][m] == ss[j];
      assert past[m] == ss[j];
    }
  }

  /** `PastSessions` keeps the fetched order: the `i`-th session kept is
      fetched at some position `k`, and every ended session fetched before
      `k` is kept before it. */
  lemma {:induction false} PastSessionsInOrder(ss: seq<Session>, now: int, parse: Parser, i: int) returns (k: nat)
    requires PastSessions(ss, now, parse).Some?
    requires 0 <= i < |PastSessions(ss, now, parse).value|
    ensures k < |ss| && ss[k] == PastSessions(ss, now, parse).value[i]
    ensures forall j :: 0 <= j < k && ss[j].dateEnd.Some? && EndedBefore(ss[j].dateEnd.value, now, parse) == Some(true) ==>
              ss[j] in PastSessions(ss, now, parse).value[..i]
  {
    var pre, s := ss[..|ss| - 1], ss[|ss| - 1];
    assert ss == pre + [s];
    var pp := PastSessions(pre, now, parse).value;
    var past := PastSessions(ss, now, parse).value;
    assert past == pp || past == pp + [s];
    if i < |pp| {
      k := PastSessionsInOrder(pre, now, parse, i);
      assert past[..i] == pp[..i];
      assert forall j :: 0 <= j < |pre| ==> ss[j] == pre[j];
    } else {
      k := |ss| - 1;
      assert past[..i] == pp;
      forall j | 0 <= j < k && ss[j].dateEnd.Some? && EndedBefore(ss[j].dateEnd.value, now, parse) == Some(true)
        ensures ss[j] in pp
      {
        assert ss[j] == pre[j] && pre[j] in pre;
      }
    }
  }

  /** No past race, or a `date_end` that cannot be compared with `now`,
      sends the resolvers to the fallback lap. */
  lemma NoPastRaceMeansFallback(year: int, now: int, parse: Parser, sessionsFor: int -> Option<seq<Session>>,
                                lapsOf: int -> Option<seq<Lap>>, table: Table, sectorTimes: SectorLookup)
    requires NonEmpty(SessionsOf(year, sessionsFor))
    requires var ss := SessionsOf(year, sessionsFor).value;
             || (exists s :: s in ss && s.dateEnd.Some? && EndedBefore(s.dateEnd.value, now, parse).None?)
             || (forall s :: s in ss && s.dateEnd.Some? ==> EndedBefore(s.dateEnd.value, now, parse) == Some(false))
    ensures FastestLapOf(year, now, parse, sessionsFor, lapsOf, table, sectorTimes) == FallbackLap()
    ensures FastestLapsOf(year, now, parse, sessionsFor, lapsOf, table, sectorTimes) == [FallbackLap()]
  {
    var ss := SessionsOf(year, sessionsFor).value;
    var past := PastSessions(ss, now, parse);
    if past.Some? && past.value != [] {
      var s := past.value[0];
      assert s in ss && s.dateEnd.Some? && EndedBefore(s.dateEnd.value, now, parse) == Some(true);
    }
  }

  // ---------------------------------------------------------------------
  // The ten best drivers' laps
  // ---------------------------------------------------------------------

  /** `driver_best_laps`: per car number, its best valid lap, in first-seen order. */
  datatype Bests = Bests(order: seq<int>, best: map<int, Lap>)

  /** One step of the scan: a car's first valid lap is kept, and a later one
      replaces it only when strictly faster. */
  function KeepFaster(b: Bests, l: Lap): Bests {
    var n := l.driverNumber;
    if !IsValid(l) then b
    else if n !in b.best then Bests(b.order + [n], b.best[n := l])
    else if Duration(l) < Duration(b.best[n]) then Bests(b.order, b.best[n := l])
    else b
  }

  function BestLaps(laps: seq<Lap>): (b: Bests)
    ensures OrderedDict(b.order, b.best)
    ensures forall n :: n in b.best ==> b.best[n].driverNumber == n && IsValid(b.best[n])
  {
    if laps == [] then Bests([], map[])
    else KeepFaster(BestLaps(laps[..|laps| - 1]), laps[|laps| - 1])
  }

  /** `driver_best_laps.values()`, in insertion order. */
  function BestValues(b: Bests): (r: seq<Lap>)
    requires forall i :: 0 <= i < |b.order| ==> b.order[i] in b.best
    ensures |r| == |b.order|
  {
    seq(|b.order|, i requires 0 <= i < |b.order| => b.best[b.order[i]])
  }

  /** `sorted(values, key=lap_duration)[:10]`. */
  function TopLaps(laps: seq<Lap>): seq<Lap> {
    var b := BestLaps(laps);
    Top10(SortBy(BestValues(b), DurationKey))
  }

  /** `fetch_fastest_laps` with the sector-time lookup in place. */
  function FastestLapsOf(
    year: int, now: int, parse: Parser, sessionsFor: int -> Option<seq<Session>>,
    lapsOf: int -> Option<seq<Lap>>, table: Table, sectorTimes: SectorLookup): seq<FastestLap>
  {
    var race := LatestRace(year, now, parse, sessionsFor);
    if race.None? then [FallbackLap()]
    else
      var laps := lapsOf(race.value.sessionKey);
      if !NonEmpty(laps) then [FallbackLap()]
      else
        LapRows(TopLaps(laps.value), race.value, table, sectorTimes)
  }

  function LapRows(top: seq<Lap>, session: Session, table: Table, sectorTimes: SectorLookup): seq<FastestLap> {
    seq(|top|, i requires 0 <= i < |top| => LapRow(top[i], session, table, sectorTimes))
  }

  /** Reads the ten best drivers' laps of the latest completed race. */
  method FetchFastestLaps(
    year: int, now: int, parse: Parser, sessionsFor: int -> Option<seq<Session>>,
    lapsOf: int -> Option<seq<Lap>>, table: Table, sectorTimes: SectorLookup)
    returns (results: seq<FastestLap>)
    ensures results == FastestLapsOf(year, now, parse, sessionsFor, lapsOf, table, sectorTimes)
  {
    var race := LatestRace(year, now, parse, sessionsFor);
    if race.None? {
      return [FallbackLap()];
    }
    var latest := race.value;
    var laps := lapsOf(latest.sessionKey);
    if !NonEmpty(laps) {
      return [FallbackLap()];
    }
    var order, best := ScanBestLaps(laps.value);
    var top := Top10(SortBy(BestValues(Bests(order, best)), DurationKey));
    results := NumberLaps(top, latest, table, sectorTimes);
  }

  /** The loop that turns the top laps into rows, in order. */
  method NumberLaps(top: seq<Lap>, latest: Session, table: Table, sectorTimes: SectorLookup)
    returns (results: seq<FastestLap>)
    ensures results == LapRows(top, latest, table, sectorTimes)
  {
    results := [];
    for i := 0 to |top|
      invariant results == LapRows(top[..i], latest, table, sectorTimes)
    {
      results := results + [LapRow(top[i], latest, table, sectorTimes)];
    }
    assert top[..|top|] == top;
  }

  /** The scan that keeps each car's fastest valid lap. */
  method ScanBestLaps(laps: seq<Lap>) returns (order: seq<int>, best: map<int, Lap>)
    ensures Bests(order, best) == BestLaps(laps)
  {
    order, best := [], map[];
    for i := 0 to |laps|
      invariant Bests(order, best) == BestLaps(laps[..i])
    {
      assert laps[..i + 1][..i] == laps[..i];
      var l := laps[i];
      if l.lapDuration.Some? && l.lapDuration.value > 0 {
        var n := l.driverNumber;
        if n !in best || l.lapDuration.value < best[n].lapDuration.value {
          if n !in best {
            order := order + [n];
          }
          best := best[n := l];
        }
      }
    }
    assert laps[..|laps|] == laps;
  }

  /** `laps[i]` is the lap the scan keeps for car `n`: a valid lap of `n`, no
      valid lap of `n` faster, every earlier valid lap of `n` strictly slower. */
  ghost predicate IsBestLap(laps: seq<Lap>, n: int, i: int) {
    && 0 <= i < |laps|
    && laps[i].driverNumber == n && IsValid(laps[i])
    && (forall j :: 0 <= j < |laps| && laps[j].driverNumber == n && IsValid(laps[j]) ==> Duration(laps[i]) <= Duration(laps[j]))
    && (forall j :: 0 <= j < i && laps[j].driverNumber == n && IsValid(laps[j]) ==> Duration(laps[i]) < Duration(laps[j]))
  }

  /** Exactly the cars with a valid lap get a best lap. */
  lemma {:induction false} BestLapsCoverCars(laps: seq<Lap>, n: int)
    ensures n in BestLaps(laps).best <==> exists j :: 0 <= j < |laps| && laps[j].driverNumber == n && IsValid(laps[j])
  {
    if laps != [] {
      var pre := laps[..|laps| - 1];
      BestLapsCoverCars(pre, n);
      if exists j :: 0 <= j < |pre| && pre[j].driverNumber == n && IsValid(pre[j]) {
        var j :| 0 <= j < |pre| && pre[j].driverNumber == n && IsValid(pre[j]);
        assert laps[j] == pre[j];
      }
      if exists j :: 0 <= j < |laps| && laps[j].driverNumber == n && IsValid(laps[j]) {
        var j :| 0 <= j < |laps| && laps[j].driverNumber == n && IsValid(laps[j]);
        if j < |pre| { assert pre[j] == laps[j]; }
      }
    }
  }

  /** Each car's kept lap is its fastest valid lap, the first of equally fast ones. */
  lemma {:induction false} BestLapIsFastest(laps: seq<Lap>, n: int) returns (i: int)
    requires n in BestLaps(laps).best
    ensures IsBestLap(laps, n, i) && BestLaps(laps).best[n] == laps[i]
  {
    var pre := laps[..|laps| - 1];
    var x := laps[|laps| - 1];
    assert laps == pre + [x];
    var b := BestLaps(pre);
    if x.driverNumber != n || !IsValid(x) {
      var i0 := BestLapIsFastest(pre, n);
      BestKept(pre, x, n, i0);
      i := i0;
    } else if n !in b.best {
      BestLapsCoverCars(pre, n);
      BestFirstLap(pre, x, n);
      i := |pre|;
    } else {
      var i0 := BestLapIsFastest(pre, n);
      if Duration(x) < Duration(pre[i0]) {
        BestReplaced(pre, x, n, i0);
        i := |pre|;
      } else {
        BestKept(pre, x, n, i0);
        i := i0;
      }
    }
  }

  lemma BestKept(pre: seq<Lap>, x: Lap, n: int, i0: int)
    requires IsBestLap(pre, n, i0)
    requires x.driverNumber != n || !IsValid(x) || Duration(pre[i0]) <= Duration(x)
    ensures IsBestLap(pre + [x], n, i0)
  {
    var laps := pre + [x];
    assert forall j :: 0 <= j < |pre| ==> laps[j] == pre[j];
  }

  lemma BestFirstLap(pre: seq<Lap>, x: Lap, n: int)
    requires x.driverNumber == n && IsValid(x)
    requires !exists j :: 0 <= j < |pre| && pre[j].driverNumber == n && IsValid(pre[j])
    ensures IsBestLap(pre + [x], n, |pre|)
  {
    var laps := pre + [x];
    assert forall j :: 0 <= j < |pre| ==> laps[j] == pre[j];
  }

  lemma BestReplaced(pre: seq<Lap>, x: Lap, n: int, i0: int)
    requires IsBestLap(pre, n, i0)
    requires x.driverNumber == n && IsValid(x) && Duration(x) < Duration(pre[i0])
    ensures IsBestLap(pre + [x], n, |pre|)
  {
    var laps := pre + [x];
    assert forall j :: 0 <= j < |pre| ==> laps[j] == pre[j];
  }

  /** The top list: at most ten laps, sorted fastest first, one per car,
      each its car's kept best lap; every car left out is no faster than
      the slowest lap listed. */
  lemma TopLapsShape(laps: seq<Lap>)
    ensures var top := TopLaps(laps); var b := BestLaps(laps);
            && |top| == (if |b.order| < 10 then |b.order| else 10)
            && (forall i, j :: 0 <= i < j < |top| ==> Duration(top[i]) <= Duration(top[j]))
            && (forall i, j :: 0 <= i < j < |top| ==> top[i].driverNumber != top[j].driverNumber)
            && (forall i :: 0 <= i < |top| ==> top[i].driverNumber in b.best && b.best[top[i].driverNumber] == top[i])
            && (|top| == 10 ==> forall n :: n in b.best && b.best[n] !in top ==> Duration(top[9]) <= Duration(b.best[n]))
  {
    var b := BestLaps(laps);
    var sorted := SortBy(BestValues(b), DurationKey);
    SortByAscending(BestValues(b), DurationKey);
    SortedBestsAreBests(b, sorted);
    SortedBestsDistinct(b, sorted);
    if |sorted| >= 10 {
      LeftOutAreSlower(b, sorted);
    }
  }

  /** Equal best laps keep the order in which their cars were first seen
      (the sort is stable): among listed laps, and at the ten-lap cut, where
      a car left out with the time of a listed lap was first seen after
      that lap's car. */
  lemma TopLapsTies(laps: seq<Lap>)
    ensures var top := TopLaps(laps); var b := BestLaps(laps);
            && (forall i, j :: 0 <= i < j < |top| && Duration(top[i]) == Duration(top[j]) ==>
                  Before(b.order, top[i].driverNumber, top[j].driverNumber))
            && (forall i, n :: 0 <= i < |top| && n in b.best && b.best[n] !in top && Duration(b.best[n]) == Duration(top[i]) ==>
                  Before(b.order, top[i].driverNumber, n))
  {
    var b := BestLaps(laps);
    var sorted := SortBy(BestValues(b), DurationKey);
    var top := Top10(sorted);
    forall i, j | 0 <= i < j < |top| && Duration(top[i]) == Duration(top[j])
      ensures Before(b.order, top[i].driverNumber, top[j].driverNumber)
    {
      SortedTieBefore(b, i, j);
    }
    forall i, n | 0 <= i < |top| && n in b.best && b.best[n] !in top && Duration(b.best[n]) == Duration(top[i])
      ensures Before(b.order, top[i].driverNumber, n)
    {
      var m := CutIndex(b, n);
      SortedTieBefore(b, i, m);
    }
  }

  /** A car's best lap left out of the top list sits at or after position
      ten of the sorted best laps. */
  lemma CutIndex(b: Bests, n: int) returns (m: int)
    requires OrderedDict(b.order, b.best)
    requires n in b.best && b.best[n] !in Top10(SortBy(BestValues(b), DurationKey))
    ensures var sorted := SortBy(BestValues(b), DurationKey);
            |Top10(sorted)| <= m < |sorted| && sorted[m] == b.best[n]
  {
    var sorted := SortBy(BestValues(b), DurationKey);
    var k :| 0 <= k < |b.order| && b.order[k] == n;
    assert BestValues(b)[k] == b.best[n];
    assert b.best[n] in multiset(sorted);
    m :| 0 <= m < |sorted| && sorted[m] == b.best[n];
  }

  /** In the sorted best laps, two laps with equal times are in the order
      their cars were first seen. */
  lemma SortedTieBefore(b: Bests, i: int, j: int)
    requires OrderedDict(b.order, b.best)
    requires forall n :: n in b.best ==> b.best[n].driverNumber == n
    requires var sorted := SortBy(BestValues(b), DurationKey);
             0 <= i < j < |sorted| && Duration(sorted[i]) == Duration(sorted[j])
    ensures var sorted := SortBy(BestValues(b), DurationKey);
            Before(b.order, sorted[i].driverNumber, sorted[j].driverNumber)
  {
    var values := BestValues(b);
    var sorted := SortBy(values, DurationKey);
    var v := DurationKey(sorted[i]);
    IndexBefore(sorted, DurationKey, i, j);
    SortByStable(values, DurationKey, v);
    SubseqBefore(values, DurationKey, v, sorted[i], sorted[j]);
    var p, q :| 0 <= p < q < |values| && values[p] == sorted[i] && values[q] == sorted[j];
    assert b.order[p] in b.best && b.order[q] in b.best;
  }

  lemma SortedBestsAreBests(b: Bests, sorted: seq<Lap>)
    requires OrderedDict(b.order, b.best)
    requires forall n :: n in b.best ==> b.best[n].driverNumber == n
    requires multiset(sorted) == multiset(BestValues(b))
    ensures forall i :: 0 <= i < |sorted| ==>
              sorted[i].driverNumber in b.best && b.best[sorted[i].driverNumber] == sorted[i]
  {
    forall i | 0 <= i < |sorted|
      ensures sorted[i].driverNumber in b.best && b.best[sorted[i].driverNumber] == sorted[i]
    {
      assert sorted[i] in multiset(BestValues(b));
      var k :| 0 <= k < |b.order| && BestValues(b)[k] == sorted[i];
      assert b.order[k] in b.best;
    }
  }

  lemma SortedBestsDistinct(b: Bests, sorted: seq<Lap>)
    requires OrderedDict(b.order, b.best)
    requires forall n :: n in b.best ==> b.best[n].driverNumber == n
    requires multiset(sorted) == multiset(BestValues(b))
    ensures forall i, j :: 0 <= i < j < |sorted| ==> sorted[i] != sorted[j]
  {
    forall i, j | 0 <= i < j < |sorted| ensures sorted[i] != sorted[j] {
      assert sorted[i] in multiset(BestValues(b));
      var k :| 0 <= k < |b.order| && BestValues(b)[k] == sorted[i];
      ValuesOnce(b, k);
      DistinctByCount(sorted, i, j);
    }
  }

  lemma DistinctByCount<T>(s: seq<T>, i: int, j: int)
    requires 0 <= i < j < |s|
    requires multiset(s)[s[i]] == 1
    ensures s[i] != s[j]
  {
    assert s == s[..i] + [s[i]] + s[i + 1..j] + [s[j]] + s[j + 1..];
  }

  lemma LeftOutAreSlower(b: Bests, sorted: seq<Lap>)
    requires OrderedDict(b.order, b.best)
    requires multiset(sorted) == multiset(BestValues(b))
    requires |sorted| >= 10
    requires forall i, j :: 0 <= i < j < |sorted| ==> DurationKey(sorted[i]) <= DurationKey(sorted[j])
    ensures forall n :: n in b.best && b.best[n] !in Top10(sorted) ==> Duration(sorted[9]) <= Duration(b.best[n])
  {
    forall n | n in b.best && b.best[n] !in Top10(sorted) ensures Duration(sorted[9]) <= Duration(b.best[n]) {
      var k :| 0 <= k < |b.order| && b.order[k] == n;
      assert BestValues(b)[k] == b.best[n];
      assert b.best[n] in multiset(sorted);
      var j :| 0 <= j < |sorted| && sorted[j] == b.best[n];
      assert forall i :: 0 <= i < 10 ==> sorted[i] == Top10(sorted)[i];
    }
  }

  lemma {:induction false} ValuesOnce(b: Bests, k: int)
    requires OrderedDict(b.order, b.best)
    requires forall n :: n in b.best ==> b.best[n].driverNumber == n
    requires 0 <= k < |b.order|
    ensures multiset(BestValues(b))[BestValues(b)[k]] == 1
  {
    var values := BestValues(b);
    assert values == values[..k] + [values[k]] + values[k + 1..];
    forall j | 0 <= j < |values| && j != k ensures values[j] != values[k] {
      assert values[j].driverNumber == b.order[j];
    }
    assert values[k] !in values[..k];
    assert values[k] !in values[k + 1..];
  }

  // ---------------------------------------------------------------------
  // The resolvers as written: the sector-time lookup is never defined
  // ---------------------------------------------------------------------

  /** `fetch_fastest_lap` as written: reaching the undefined sector-time
      lookup raises NameError, which the handler turns into the fallback lap,
      so every path ends in the fallback lap. */
  function FastestLapAsWritten(
    year: int, now: int, parse: Parser, sessionsFor: int -> Option<seq<Session>>,
    lapsOf: int -> Option<seq<Lap>>): (r: FastestLap)
    ensures r == FallbackLap()
  {
    var race := LatestRace(year, now, parse, sessionsFor);
    if race.None? then FallbackLap()
    else
      var laps := lapsOf(race.value.sessionKey);
      if !NonEmpty(laps) then FallbackLap()
      else match FastestValidLap(laps.value)
        case None => FallbackLap()
        case Some(_) => FallbackLap()
  }

  /** `fetch_fastest_laps` as written: the first row's lookup raises, so a
      race with a valid lap yields just the fallback lap, and the list is
      empty exactly when the race's laps hold no valid lap. */
  function FastestLapsAsWritten(
    year: int, now: int, parse: Parser, sessionsFor: int -> Option<seq<Session>>,
    lapsOf: int -> Option<seq<Lap>>): (r: seq<FastestLap>)
    ensures r == [] || r == [FallbackLap()]
    ensures var race := LatestRace(year, now, parse, sessionsFor);
            r == [] <==>
              && race.Some? && NonEmpty(lapsOf(race.value.sessionKey))
              && !exists i :: 0 <= i < |lapsOf(race.value.sessionKey).value| && IsValid(lapsOf(race.value.sessionKey).value[i])
  {
    var race := LatestRace(year, now, parse, sessionsFor);
    if race.None? then [FallbackLap()]
    else
      var laps := lapsOf(race.value.sessionKey);
      if !NonEmpty(laps) then [FallbackLap()]
      else
        TopLapsEmpty(laps.value);
        if TopLaps(laps.value) == [] then [] else [FallbackLap()]
  }

  /** The top list is empty exactly when no lap is valid. */
  lemma TopLapsEmpty(laps: seq<Lap>)
    ensures TopLaps(laps) == [] <==> !exists i :: 0 <= i < |laps| && IsValid(laps[i])
  {
    var b := BestLaps(laps);
    TopLapsShape(laps);
    if exists i :: 0 <= i < |laps| && IsValid(laps[i]) {
      var i :| 0 <= i < |laps| && IsValid(laps[i]);
      BestLapsCoverCars(laps, laps[i].driverNumber);
      assert laps[i].driverNumber in b.order;
    }
    if |b.order| > 0 {
      BestLapsCoverCars(laps, b.order[0]);
    }
  }

  const ExampleRace := Session(9662, Some("2024-12-08T13:00:00+00:00"), Some("2024-12-08T15:00:00+00:00"), Some("Abu Dhabi Grand Prix"))
  const ExampleLap := Lap(44, Some(83000), Some(5))

  function ExampleSessions(year: int): Option<seq<Session>> {
    Some([ExampleRace])
  }

  function ExampleLaps(sessionKey: int): Option<seq<Lap>> {
    Some([ExampleLap])
  }

  /** Every date parses to the epoch. */
  function EpochParse(s: string): Option<Stamp> {
    Some(Aware(0, 0))
  }

  function ExampleSectors(sessionKey: int, car: int, lap: int): seq<nat> {
    [20000, 40000, 23000]
  }

  lemma OnlyRaceIsLatest(race: Session, sessionsFor: int -> Option<seq<Session>>)
    requires race.dateEnd.Some? && sessionsFor(2025) == Some([race])
    ensures LatestRace(2025, 1, EpochParse, sessionsFor) == Some(race)
  {
    assert [race][..0] == [];
    assert EndedBefore(race.dateEnd.value, 1, EpochParse) == Some(true);
    assert [] + [race] == [race];
    assert PastSessions([race], 1, EpochParse) == Some([race]);
  }

  lemma OnlyLapIsFastest(lap: Lap)
    requires IsValid(lap)
    ensures FastestValidLap([lap]) == Some(lap)
    ensures TopLaps([lap]) == [lap]
  {
    assert [lap][..0] == [];
    assert ValidLaps([lap]) == [lap];
    var b := Bests([lap.driverNumber], map[lap.driverNumber := lap]);
    assert BestLaps([lap]) == b;
    assert BestValues(b) == [lap];
  }

  /** A latest completed race whose only lap is valid: as written, both
      resolvers return the fallback lap; with the lookup in place, they report
      that lap. */
  lemma OneLapRace(year: int, now: int, parse: Parser, race: Session, lap: Lap,
                   sessionsFor: int -> Option<seq<Session>>,
                   lapsOf: int -> Option<seq<Lap>>, table: Table, sectors: SectorLookup)
    requires LatestRace(year, now, parse, sessionsFor) == Some(race)
    requires lapsOf(race.sessionKey) == Some([lap]) && IsValid(lap)
    ensures FastestLapAsWritten(year, now, parse, sessionsFor, lapsOf) == FallbackLap()
    ensures FastestLapsAsWritten(year, now, parse, sessionsFor, lapsOf) == [FallbackLap()]
    ensures FastestLapOf(year, now, parse, sessionsFor, lapsOf, table, sectors) == LapRow(lap, race, table, sectors)
    ensures FastestLapsOf(year, now, parse, sessionsFor, lapsOf, table, sectors) == [LapRow(lap, race, table, sectors)]
  {
    OnlyLapIsFastest(lap);
    assert [lap][0] == lap;
  }

  /** Car 44's 1:23.000 lap: as written the resolvers show the canned
      Verstappen lap; with the lookup in place they show car 44's lap. */
  lemma SectorLookupDefect()
    ensures FastestLapAsWritten(2025, 1, EpochParse, ExampleSessions, ExampleLaps) == FallbackLap()
    ensures FastestLapsAsWritten(2025, 1, EpochParse, ExampleSessions, ExampleLaps) == [FallbackLap()]
    ensures FastestLapOf(2025, 1, EpochParse, ExampleSessions, ExampleLaps, map[], ExampleSectors) != FallbackLap()
    ensures FastestLapsOf(2025, 1, EpochParse, ExampleSessions, ExampleLaps, map[], ExampleSectors) != [FallbackLap()]
  {
    OnlyRaceIsLatest(ExampleRace, ExampleSessions);
    OneLapRace(2025, 1, EpochParse, ExampleRace, ExampleLap, ExampleSessions, ExampleLaps, map[], ExampleSectors);
    var row := LapRow(ExampleLap, ExampleRace, map[], ExampleSectors);
    assert row.driverName[0] == 'D';
  }
}
