/** The two standings resolvers: the primary provider's (f1api.dev) standings
    summary when it can be read, otherwise the standings derived from OpenF1
    position records. */
module Resolvers {
  import opened Wrappers
  import opened Text
  import opened Records
  import opened Standings

  /** A row's `points` field as `float(row.get('points', 0))` sees it: absent
      (read as 0), a number or numeric string, or something `float` rejects. */
  datatype PointsCell = Absent | Numeric(value: real) | Malformed

  /** One row of the provider's `standings` list: its text fields and its points. */
  datatype PrimaryRow = PrimaryRow(fields: Obj, points: PointsCell)

  /** The provider's reply: `standings` is `None` when the key is missing. */
  datatype StandingsDoc = StandingsDoc(standings: Option<seq<PrimaryRow>>)

  /** `float(row.get('points', 0))`, or `None` where `float` raises. */
  function PointsValue(c: PointsCell): Option<real> {
    match c
    case Absent => Some(0.0)
    case Numeric(v) => Some(v)
    case Malformed => None
  }

  // ---------------------------------------------------------------------
  // Driver standings
  // ---------------------------------------------------------------------

  function PrimaryDriverRow(i: nat, row: PrimaryRow): Option<DriverStanding> {
    match PointsValue(row.points)
    case None => None
    case Some(p) =>
      Some(DriverStanding(
        i + 1,
        FieldOr(row.fields, "driver_name", "name", "Unknown"),
        FieldOr(row.fields, "abbreviation", "code", "UNK"),
        FieldOr(row.fields, "team", "constructor", "Unknown"),
        p))
  }

  /** The provider rows turned into standings, numbered from 1 in provider
      order, or `None` when some row's points cannot be read. */
  function PrimaryDriverRows(rows: seq<PrimaryRow>): (r: Option<seq<DriverStanding>>)
    ensures r.Some? <==> forall i :: 0 <= i < |rows| ==> rows[i].points != Malformed
    ensures r.Some? ==> |r.value| == |rows|
    ensures r.Some? ==> forall i :: 0 <= i < |rows| ==>
              && r.value[i].position == i + 1
              && Some(r.value[i].points) == PointsValue(rows[i].points)
  {
    if rows == [] then Some([])
    else
      var pre := PrimaryDriverRows(rows[..|rows| - 1]);
      var last := PrimaryDriverRow(|rows| - 1, rows[|rows| - 1]);
      if pre.None? || last.None? then None else Some(pre.value + [last.value])
  }

  /** The rows the resolver reads from the primary provider, if it reads any:
      the first ten of a present `standings` list. */
  function PrimaryTop(doc: Option<StandingsDoc>): Option<seq<PrimaryRow>> {
    if doc.Some? && doc.value.standings.Some? then Some(Top10(doc.value.standings.value)) else None
  }

  /** What `fetch_driver_standings` returns, as a function of its inputs. */
  function DriverStandingsOf(
    year: int, driversDocFor: int -> Option<StandingsDoc>,
    sessionsFor: int -> Option<seq<Session>>,
    positionsOf: int -> Option<seq<PositionRecord>>, table: Table): seq<DriverStanding>
  {
    var top := PrimaryTop(driversDocFor(year));
    if top.Some? && PrimaryDriverRows(top.value).Some? then PrimaryDriverRows(top.value).value
    else Derived(year, sessionsFor, positionsOf, table).0
  }

  /** Reads the provider's driver standings; on a missing reply, a missing
      `standings` key or an unreadable row, derives them from OpenF1 instead. */
  method FetchDriverStandings(
    year: int, driversDocFor: int -> Option<StandingsDoc>,
    sessionsFor: int -> Option<seq<Session>>,
    positionsOf: int -> Option<seq<PositionRecord>>, table: Table)
    returns (drivers: seq<DriverStanding>)
    ensures drivers == DriverStandingsOf(year, driversDocFor, sessionsFor, positionsOf, table)
  {
    var data := driversDocFor(year);
    if data.Some? && data.value.standings.Some? {
      var rows := ReadDriverRows(Top10(data.value.standings.value));
      if rows.Some? {
        return rows.value;
      }
    }
    var derived, _ := CalculateStandingsFromResults(year, sessionsFor, positionsOf, table);
    drivers := derived;
  }

  /** The loop over the provider's first ten rows: `None` as soon as a row's
      points cannot be read. */
  method ReadDriverRows(top: seq<PrimaryRow>) returns (rows: Option<seq<DriverStanding>>)
    ensures rows == PrimaryDriverRows(top)
  {
    var drivers: seq<DriverStanding> := [];
    var i := 0;
    while i < |top|
      invariant 0 <= i <= |top|
      invariant PrimaryDriverRows(top[..i]) == Some(drivers)
    {
      assert top[..i + 1][..i] == top[..i];
      var row := PrimaryDriverRow(i, top[i]);
      if row.None? {
        return None;
      }
      drivers := drivers + [row.value];
      i := i + 1;
    }
    assert top[..i] == top;
    return Some(drivers);
  }

  // ---------------------------------------------------------------------
  // Constructor standings
  // ---------------------------------------------------------------------

  function PrimaryTeamRow(i: nat, row: PrimaryRow): Option<TeamStanding> {
    match PointsValue(row.points)
    case None => None
    case Some(p) => Some(TeamStanding(i + 1, FieldOr(row.fields, "team_name", "name", "Unknown"), p))
  }

  function PrimaryTeamRows(rows: seq<PrimaryRow>): (r: Option<seq<TeamStanding>>)
    ensures r.Some? <==> forall i :: 0 <= i < |rows| ==> rows[i].points != Malformed
    ensures r.Some? ==> |r.value| == |rows|
    ensures r.Some? ==> forall i :: 0 <= i < |rows| ==>
              && r.value[i].position == i + 1
              && Some(r.value[i].points) == PointsValue(rows[i].points)
  {
    if rows == [] then Some([])
    else
      var pre := PrimaryTeamRows(rows[..|rows| - 1]);
      var last := PrimaryTeamRow(|rows| - 1, rows[|rows| - 1]);
      if pre.None? || last.None? then None else Some(pre.value + [last.value])
  }

  /** What `fetch_constructor_standings` returns, as a function of its inputs. */
  function TeamStandingsOf(
    year: int, teamsDocFor: int -> Option<StandingsDoc>,
    sessionsFor: int -> Option<seq<Session>>,
    positionsOf: int -> Option<seq<PositionRecord>>, table: Table): seq<TeamStanding>
  {
    var top := PrimaryTop(teamsDocFor(year));
    if top.Some? && PrimaryTeamRows(top.value).Some? then PrimaryTeamRows(top.value).value
    else Derived(year, sessionsFor, positionsOf, table).1
  }

  /** Reads the provider's constructor standings, falling back to the
      derivation as the driver resolver does. */
  method FetchConstructorStandings(
    year: int, teamsDocFor: int -> Option<StandingsDoc>,
    sessionsFor: int -> Option<seq<Session>>,
    positionsOf: int -> Option<seq<PositionRecord>>, table: Table)
    returns (teams: seq<TeamStanding>)
    ensures teams == TeamStandingsOf(year, teamsDocFor, sessionsFor, positionsOf, table)
  {
    var data := teamsDocFor(year);
    if data.Some? && data.value.standings.Some? {
      var rows := ReadTeamRows(Top10(data.value.standings.value));
      if rows.Some? {
        return rows.value;
      }
    }
    var _, derived := CalculateStandingsFromResults(year, sessionsFor, positionsOf, table);
    teams := derived;
  }

  /** The loop over the provider's first ten rows: `None` as soon as a row's
      points cannot be read. */
  method ReadTeamRows(top: seq<PrimaryRow>) returns (rows: Option<seq<TeamStanding>>)
    ensures rows == PrimaryTeamRows(top)
  {
    var teams: seq<TeamStanding> := [];
    var i := 0;
    while i < |top|
      invariant 0 <= i <= |top|
      invariant PrimaryTeamRows(top[..i]) == Some(teams)
    {
      assert top[..i + 1][..i] == top[..i];
      var row := PrimaryTeamRow(i, top[i]);
      if row.None? {
        return None;
      }
      teams := teams + [row.value];
      i := i + 1;
    }
    assert top[..i] == top;
    return Some(teams);
  }

  // ---------------------------------------------------------------------
  // Properties
  // ---------------------------------------------------------------------

  /** Either way, at most ten drivers, numbered 1..k in order. */
  lemma DriverStandingsShape(
    year: int, driversDocFor: int -> Option<StandingsDoc>,
    sessionsFor: int -> Option<seq<Session>>,
    positionsOf: int -> Option<seq<PositionRecord>>, table: Table)
    ensures var r := DriverStandingsOf(year, driversDocFor, sessionsFor, positionsOf, table);
            |r| <= 10 && forall i :: 0 <= i < |r| ==> r[i].position == i + 1
  {
    DerivedStandingsShape(year, sessionsFor, positionsOf, table);
  }

  /** Either way, at most ten teams, numbered 1..k in order. */
  lemma TeamStandingsShape(
    year: int, teamsDocFor: int -> Option<StandingsDoc>,
    sessionsFor: int -> Option<seq<Session>>,
    positionsOf: int -> Option<seq<PositionRecord>>, table: Table)
    ensures var r := TeamStandingsOf(year, teamsDocFor, sessionsFor, positionsOf, table);
            |r| <= 10 && forall i :: 0 <= i < |r| ==> r[i].position == i + 1
  {
    DerivedStandingsShape(year, sessionsFor, positionsOf, table);
  }

  /** The derivation is used exactly when the provider's reply is missing,
      has no `standings`, or one of its first ten rows has unreadable points;
      otherwise the OpenF1 data plays no part. */
  lemma DriverStandingsSource(
    year: int, driversDocFor: int -> Option<StandingsDoc>,
    sessionsFor: int -> Option<seq<Session>>, sessionsFor': int -> Option<seq<Session>>,
    positionsOf: int -> Option<seq<PositionRecord>>, positionsOf': int -> Option<seq<PositionRecord>>,
    table: Table)
    ensures var top := PrimaryTop(driversDocFor(year));
            if top.Some? && forall i :: 0 <= i < |top.value| ==> top.value[i].points != Malformed then
              && |DriverStandingsOf(year, driversDocFor, sessionsFor, positionsOf, table)| == |top.value|
              && DriverStandingsOf(year, driversDocFor, sessionsFor, positionsOf, table)
                 == DriverStandingsOf(year, driversDocFor, sessionsFor', positionsOf', table)
            else
              DriverStandingsOf(year, driversDocFor, sessionsFor, positionsOf, table)
              == Derived(year, sessionsFor, positionsOf, table).0
  {
  }

  /** The constructor resolver's choice of source, as for drivers. */
  lemma TeamStandingsSource(
    year: int, teamsDocFor: int -> Option<StandingsDoc>,
    sessionsFor: int -> Option<seq<Session>>, sessionsFor': int -> Option<seq<Session>>,
    positionsOf: int -> Option<seq<PositionRecord>>, positionsOf': int -> Option<seq<PositionRecord>>,
    table: Table)
    ensures var top := PrimaryTop(teamsDocFor(year));
            if top.Some? && forall i :: 0 <= i < |top.value| ==> top.value[i].points != Malformed then
              && |TeamStandingsOf(year, teamsDocFor, sessionsFor, positionsOf, table)| == |top.value|
              && TeamStandingsOf(year, teamsDocFor, sessionsFor, positionsOf, table)
                 == TeamStandingsOf(year, teamsDocFor, sessionsFor', positionsOf', table)
            else
              TeamStandingsOf(year, teamsDocFor, sessionsFor, positionsOf, table)
              == Derived(year, sessionsFor, positionsOf, table).1
  {
  }

  /** A provider row names its driver by `driver_name`, else `name`, else
      "Unknown"; its code by `abbreviation`, else `code`, else "UNK"; its team
      by `team`, else `constructor`, else "Unknown". */
  lemma {:induction false} PrimaryDriverFields(rows: seq<PrimaryRow>, i: nat)
    requires PrimaryDriverRows(rows).Some? && i < |rows|
    ensures var d := PrimaryDriverRows(rows).value[i];
            && d.driverName == FieldOr(rows[i].fields, "driver_name", "name", "Unknown")
            && d.abbreviation == FieldOr(rows[i].fields, "abbreviation", "code", "UNK")
            && d.team == FieldOr(rows[i].fields, "team", "constructor", "Unknown")
  {
    if i < |rows| - 1 {
      var pre := rows[..|rows| - 1];
      assert pre[i] == rows[i];
      PrimaryDriverFields(pre, i);
    }
  }

  /** A provider row names its team by `team_name`, else `name`, else "Unknown". */
  lemma {:induction false} PrimaryTeamFields(rows: seq<PrimaryRow>, i: nat)
    requires PrimaryTeamRows(rows).Some? && i < |rows|
    ensures PrimaryTeamRows(rows).value[i].teamName == FieldOr(rows[i].fields, "team_name", "name", "Unknown")
  {
    if i < |rows| - 1 {
      var pre := rows[..|rows| - 1];
      assert pre[i] == rows[i];
      PrimaryTeamFields(pre, i);
    }
  }
}
