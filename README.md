# ApexView F1 backend — a Dafny model of its data resolvers

ApexView's backend (`backend/main.py`) builds a Formula 1 dashboard from two
public providers: a "primary" one (f1api.dev) that publishes season calendars
and championship standings, and OpenF1, which publishes raw sessions, meetings,
position updates and laps. This project models the logic that turns their
replies into what the dashboard shows:

- the championship points table (`POINTS_SYSTEM`) and the derivation of driver
  and constructor standings from OpenF1 position records
  (`calculate_standings_from_results`), with its static fallback
  (`get_fallback_standings`);
- the two standings resolvers, which truncate and number the primary
  provider's list or fall back to the derivation (`fetch_driver_standings`,
  `fetch_constructor_standings`);
- the countdown text (`calculate_time_left`);
- the four-tier next-race resolver (`fetch_next_race`): this season's calendar,
  OpenF1 meetings, next season's opener, then a fixed "Season Break" record;
- the fastest-lap resolvers (`fetch_fastest_lap`, `fetch_fastest_laps`):
  selection of the latest completed race, of valid laps, of each car's best lap
  and of the ten fastest cars, the `M:SS.mmm` lap-time text, and the fallback lap
  (`get_fallback_fastest_lap`).

Every network fetch is a function parameter (`None` is a failed fetch), and so
are the current year and the current instant. Python dicts that the backend
fills in a loop are modelled as insertion-ordered dictionaries (a key order plus
a map), because the order of insertion decides how ties are ranked. Times are
whole seconds and lap durations whole milliseconds. ISO 8601 parsing is an
opaque `Parser` that yields an aware or a naive time, so the paths where a naive
time meets the aware `now` and raises are part of the model.

Modules, one per concern of `main.py`:

| file | module | models |
|---|---|---|
| `wrappers.dfy` | `Wrappers` | `Option`, JSON objects as string maps, `dict.get` with a nested default |
| `text.dfy` | `Text` | decimal rendering, zero padding, `str.replace`, string comparison |
| `sorting.dfy` | `Sorting` | Python's stable `sorted`/`list.sort` and `min` (first minimum) |
| `records.dfy` | `Records` | provider records, the reference table, the this-year/last-year session fetch |
| `standings.dfy` | `Standings` | points table, derived standings, fallback standings |
| `resolvers.dfy` | `Resolvers` | the two standings resolvers |
| `countdown.dfy` | `Countdown` | `calculate_time_left` |
| `next_race.dfy` | `NextRace` | `fetch_next_race` |
| `fastest_laps.dfy` | `FastestLaps` | `fetch_fastest_lap`, `fetch_fastest_laps`, the fallback lap |

Where the loops of the source update a dict or build a list step by step, the
model has a method with that loop (`CalculateStandingsFromResults`,
`ScanFinalPositions`, `AwardPoints`, `CollectUpcoming`, `ScanBestLaps`, ...),
proved equal to a specification function about which the properties are then
proved as lemmas.

The derivation keys a driver's running total by the pair (car number, name).
The name is looked up from the car number in a fixed table, so the pair and the
number identify the same drivers, and the model keys by number.

When sessions exist but none has position data, the derivation returns two
empty lists; it does not fall back to the static standings. When the primary
provider returns an empty `standings` list, the resolvers return an empty list;
they do not fall back either.

## Model

| member | source | states |
|---|---|---|
| Standings.PointsFor | backend/main.py:72-74 | a finishing position scores points exactly when it is 1..10, and never more than 25 |
| Standings.PointsForDecreasing | backend/main.py:72-74 | a better finish never scores fewer points, and inside the top ten strictly more |
| Standings.FinalPositions | backend/main.py:196-200 | the final positions form a duplicate-free insertion-ordered dict whose entries belong to their own car |
| Standings.FinalPositionsCoverCars | backend/main.py:196-200 | a car has a final position exactly when it has at least one position record |
| Standings.FinalPositionIsLatest | backend/main.py:196-200 | a car's final position is a record of it with the greatest `date` text, the first such one on ties |
| Standings.ScanFinalPositions | backend/main.py:196-200 | the scan over a session's records builds exactly the final-positions dict |
| Standings.AwardPoints | backend/main.py:203-226 | the award loop adds each car's table points to its driver and team totals, in first-seen order |
| Standings.AddPoints | backend/main.py:215-226 | `if key not in d: d[key] = 0; d[key] += p` on an insertion-ordered dict |
| Standings.DriverPointsAreSessionSums | backend/main.py:186-220 | a driver's total is the sum over the sessions of the table points of their final position there |
| Standings.PointsNeedTopTenFinish | backend/main.py:186-220 | a positive driver total comes from a top-ten final position in some session |
| Standings.TeamPointsAreDriverSums | backend/main.py:203-226 | every team's total equals the sum of its drivers' totals, and all team points equal all driver points |
| Standings.UnknownCarsCreditedToUnknownTeam | backend/main.py:205-209 | a car missing from the table shows as "Driver n"/"Dn" and its points count towards team "Unknown" |
| Standings.RankedIsStableDescending | backend/main.py:229-245 | the ranking is a permutation of the totals, by non-increasing points, keeping insertion order among equal points |
| Standings.DerivedStandingsShape | backend/main.py:167-256 | the derivation returns at most ten rows per table, numbered 1..k, with non-increasing points |
| Standings.CalculateStandingsFromResults | backend/main.py:167-256 | the derivation: this year's race sessions, else last year's, else the fallback standings; totals ranked and truncated |
| Standings.NumberDrivers | backend/main.py:232-239 | the driver rows are numbered from 1 in ranking order and show the table identity |
| Standings.NumberTeams | backend/main.py:245-250 | the team rows are numbered from 1 in ranking order |
| Resolvers.PrimaryDriverRows | backend/main.py:283-293 | the provider rows convert exactly when no `points` value is unreadable, one row each, positions from 1, points as given or 0 |
| Resolvers.PrimaryTeamRows | backend/main.py:312-319 | as for drivers, for the constructor rows |
| Resolvers.PrimaryDriverFields | backend/main.py:288-290 | name is `driver_name`, else `name`, else "Unknown"; code is `abbreviation`, else `code`, else "UNK"; team is `team`, else `constructor`, else "Unknown" |
| Resolvers.PrimaryTeamFields | backend/main.py:317 | team name is `team_name`, else `name`, else "Unknown" |
| Resolvers.FetchDriverStandings | backend/main.py:274-301 | the driver resolver returns the provider's first ten rows or, failing that, the derived drivers |
| Resolvers.ReadDriverRows | backend/main.py:285-293 | the loop over the provider's first ten driver rows stops with no result at the first unreadable `points`, and otherwise builds exactly the converted rows |
| Resolvers.ReadTeamRows | backend/main.py:314-319 | the same loop over the first ten constructor rows |
| Resolvers.FetchConstructorStandings | backend/main.py:303-328 | the constructor resolver returns the provider's first ten rows or, failing that, the derived teams |
| Resolvers.DriverStandingsSource | backend/main.py:280-301 | the derivation is used exactly when the reply or its `standings` is missing or a top-ten row is unreadable; otherwise OpenF1 data plays no part |
| Resolvers.TeamStandingsSource | backend/main.py:309-328 | the same choice of source for constructors |
| Resolvers.DriverStandingsShape | backend/main.py:285-293 | either way at most ten drivers, numbered 1..k in order |
| Resolvers.TeamStandingsShape | backend/main.py:314-319 | either way at most ten teams, numbered 1..k in order |
| Countdown.CountdownOf | backend/main.py:128-139 | "completed" exactly for a past start; days-and-hours from one day, hours-and-minutes from one hour, minutes below; each field is the whole count left |
| Countdown.CalculateTimeLeft | backend/main.py:110-143 | "Unknown" exactly when the normalised text does not parse; otherwise a text that reads back as the countdown to the parsed instant |
| Countdown.RenderParses | backend/main.py:128-139 | the countdown text determines the countdown: reading it back yields the same fields |
| Countdown.CountdownEdges | backend/main.py:128-139 | a started race reads "Race completed"; less than a minute to go reads "0 minutes" |
| NextRace.CandidateOf | backend/main.py:344-358 | a record is a candidate exactly when its date is non-empty and parses to an aware time after now, and the candidate carries that parsed time |
| NextRace.Upcoming | backend/main.py:343-358 | the candidates all start after now, at most one per record |
| NextRace.CollectUpcoming | backend/main.py:343-358 | the scan collects exactly the candidates, in list order |
| NextRace.UpcomingMembers | backend/main.py:343-358 | a record is collected exactly when it is a candidate |
| NextRace.DroppedRecordIsSkipped | backend/main.py:356-358 | a record with a missing, malformed, naive or past date drops out without affecting the others |
| NextRace.UpcomingAppend | backend/main.py:343-358 | the scan of two lists one after the other is the concatenation of their scans |
| NextRace.EarliestIsFirstSoonest | backend/main.py:360-363 | the pick starts after now, no candidate starts earlier, and it is the first listed among equal starts |
| NextRace.FetchNextRace | backend/main.py:330-433 | the resolver returns the first of the four tiers that yields a race |
| NextRace.TierOrder | backend/main.py:330-433 | a later tier is consulted only when the earlier ones yield nothing; "Season Break" exactly when all three do |
| NextRace.AnnouncedCountdown | backend/main.py:365-370 | the first two tiers count down to the pick's instant and never show "Race completed" |
| NextRace.OpenerDefaultDate | backend/main.py:413-419 | next season's opener without a date shows 1 March of that year, 15:00 UTC |
| FastestLaps.PastSessions | backend/main.py:450-453 | the filter keeps exactly the fetched sessions whose `date_end` parses to an aware time before now, and faults exactly when some `date_end` cannot be compared with now |
| FastestLaps.LatestIndex | backend/main.py:459 | the pick has the greatest `date_end` text, the first such one on ties |
| FastestLaps.LatestRaceIsLatestPast | backend/main.py:440-459 | the race read is a fetched session that has ended, and no fetched session that has ended has a greater `date_end`; of ended sessions with equal `date_end` text, the one fetched first is read, as `max` keeps its first maximum |
| FastestLaps.PastSessionsInOrder | backend/main.py:440-459 | the filter keeps the fetched order: every ended session fetched before a kept one is kept before it |
| FastestLaps.NoPastRaceMeansFallback | backend/main.py:450-456 | an uncomparable `date_end`, or no session that has ended, sends both resolvers to the fallback lap |
| FastestLaps.ValidLaps | backend/main.py:468 | exactly the laps with a positive duration are valid |
| FastestLaps.FastestValidLapIsMinimum | backend/main.py:468-473 | a fastest lap exists exactly when a valid lap does; it is valid, no valid lap is faster, and every valid lap listed before it is strictly slower |
| FastestLaps.FastestValidLapStep | backend/main.py:473 | `min` over one more lap: a valid lap replaces the pick only when strictly faster |
| FastestLaps.FastestLapOf | backend/main.py:435-503 | the single resolver, with the sector lookup in place, reports the first fastest valid lap of the latest completed race, or the fallback lap when there is none |
| FastestLaps.LapTimeParses | backend/main.py:482-486 | the `M:SS.mmm` text determines the duration: reading it back gives the milliseconds |
| FastestLaps.LapTimeExample | backend/main.py:482-486 | 80.554 s reads "1:20.554" |
| FastestLaps.LapTimeExamplePadded | backend/main.py:482-486 | 59.001 s reads "0:59.001": two-digit seconds, three-digit milliseconds |
| FastestLaps.BestLaps | backend/main.py:534-539 | the per-car dict is duplicate-free, in first-seen order, and each entry is a valid lap of its own car |
| FastestLaps.ScanBestLaps | backend/main.py:534-539 | the scan builds exactly the per-car best-lap dict |
| FastestLaps.BestLapsCoverCars | backend/main.py:534-539 | a car has a best lap exactly when it has a valid lap |
| FastestLaps.BestLapIsFastest | backend/main.py:534-539 | a car's kept lap is its fastest valid lap, the first of equally fast ones |
| FastestLaps.TopLapsShape | backend/main.py:542 | as many laps as cars with a valid lap, up to ten; fastest first, one per car, each its car's best; a car left out is no faster than the tenth |
| FastestLaps.TopLapsTies | backend/main.py:530-542 | equal best laps are listed in the order their cars were first seen, and a car cut at ten with the time of a listed lap was first seen after that lap's car, as the stable `sorted` gives |
| FastestLaps.SortedTieBefore | backend/main.py:542 | in the sorted best laps, two equal times are in their cars' first-seen order |
| FastestLaps.TopLapsEmpty | backend/main.py:534-542 | the top list is empty exactly when no lap is valid |
| FastestLaps.FetchFastestLaps | backend/main.py:505-576 | the top-ten resolver, with the sector lookup in place, returns one row per top lap, or the fallback lap |
| FastestLaps.NumberLaps | backend/main.py:545-570 | the rows follow the top laps in order, each with its identity, lap time, race name and date |
| FastestLaps.OneLapRace | backend/main.py:435-576 | when the latest completed race has a single lap and it is valid, the corrected resolvers report that lap and the code as written reports the fallback |
| FastestLaps.FastestLapAsWritten | backend/main.py:435-503 | as written, the single resolver returns the fallback lap on every input |
| FastestLaps.FastestLapsAsWritten | backend/main.py:505-576 | as written, the list resolver returns `[]` exactly when the latest race's laps hold no valid lap, and otherwise just the fallback lap |
| FastestLaps.FallbackLap | backend/main.py:578-588 | the fallback lap has three sectors whose times add up to its lap time |
| Standings.FallbackStandingsShape | backend/main.py:258-272 | the static standings have three drivers and three teams, numbered 1..3, with non-increasing points |
| FastestLaps.SectorLookupDefect | backend/main.py:489-560 | a concrete race where the code as written shows the canned lap and the corrected resolvers do not |

## Left out

- HTTP, FastAPI routes, CORS, logging and `asyncio`: every fetch is a function parameter whose `None` is a failed fetch (timeout, transport error, non-200 status).
- The clock: the current year and instant are parameters. `calculate_time_left` reads the clock again. The model uses the resolver's `now` for both readings.
- ISO 8601 parsing, `isoformat()` and `strftime` are parameters (`Parser`, `Calendar`). `AnnouncedCountdown` assumes that `isoformat()` reads back as the same instant.
- Sub-second precision: times are whole seconds, and lap durations and sector times whole milliseconds (the fallback lap's sectors 25.5, 35.2 and 19.854 s are 25500, 35200 and 19854 ms). Where the clock has a fraction of a second, the countdown can differ from the backend's by one unit at a whole-second boundary. For a race at "2025-03-16T05:00:00Z" and a clock at 05:00:00.4, the backend sees -0.4 seconds and shows "Race completed" (`backend/main.py:128`), while the model, with `now` at 05:00:00, shows "0 minutes". A race one day away gives "23 hours, 59 minutes" in the backend and "1 days, 0 hours" in the model. The strict `race_dt > now` tests of the next-race resolver agree with the backend's for start times on a whole second. They can differ only for a start time that carries a fraction of a second, which the model's whole-second `Parser` does not represent. The float rounding of `{seconds:06.3f}` is left out with it.
- Pydantic validation and JSON types: the model assumes text fields are strings and car numbers, positions and session keys are integers. A null or non-string field, and the faults it raises, are not modelled. An unreadable primary `points` value is modelled; it sends the resolver to the fallback.
- A missing required key (`session_key`, `driver_number`, `position`, `date`) raises `KeyError` and sends the resolver to its fallback. The model's records always carry these keys.
- The contents of `DRIVER_INFO` (backend/main.py:77-108): the table is a parameter. Only its lookup and the placeholder for unknown cars are modelled.
- `get_sector_times` is neither defined nor imported in `main.py`, so its result is a parameter of the corrected resolvers. The as-written members model the `NameError` it raises.
- The routes `/dashboard`, `/fastest-lap`, `/f1-data`, `/drivers`, `/teams` and `/next-race` (backend/main.py:590-656) only forward the resolvers' results. `/dashboard` and `/f1-data` gather several resolvers and turn an exception into HTTP 500. The root route `/` (backend/main.py:658-684) returns a fixed information payload. None of the seven routes is modelled.
- `strftime('%Y-%m-%d %H:%M UTC')` prints the wall time in the parsed offset and labels it "UTC". `Announce` models this by applying the offset before formatting; it is not claimed as a defect.

## Findings

| source | as written | input that shows it | evidently intended | confidence | as-written member | corrected member |
|---|---|---|---|---|---|---|
| backend/main.py:489-560 | both fastest-lap resolvers call `get_sector_times`, which is neither defined nor imported in `main.py`; the `NameError` lands in the catch-all handler, so real lap data is never reported | a completed race whose only lap is car 44's 83.000 s lap 5: the single resolver returns the canned Verstappen 1:20.554 lap and the list resolver `[that lap]` | report the fastest real lap (and the ten best cars' laps) with their sector times | not executed | FastestLaps.SectorLookupDefect | FastestLaps.FetchFastestLaps |
