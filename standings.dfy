/** Championship standings: the points table, the derivation of driver and
    team standings from per-session position records, and the static
    fallback standings. */
module Standings {
  import opened Wrappers
  import opened Text
  import opened Sorting
  import opened Records

  // ---------------------------------------------------------------------
  // Output records
  // ---------------------------------------------------------------------

  datatype DriverStanding = DriverStanding(
    position: nat, driverName: string, abbreviation: string, team: string, points: real)

  datatype TeamStanding = TeamStanding(position: nat, teamName: string, points: real)

  // ---------------------------------------------------------------------
  // Points table
  // ---------------------------------------------------------------------

  /** Points for finishing positions 1 to 10. */
  const PointsTable: seq<nat> := [25, 18, 15, 12, 10, 8, 6, 4, 2, 1]

  /** `POINTS_SYSTEM.get(position, 0)`. */
  function PointsFor(position: int): (p: nat)
    ensures p > 0 <==> 1 <= position <= 10
    ensures p <= 25
  {
    if 1 <= position <= 10 then PointsTable[position - 1] else 0
  }

  /** A better finish never scores fewer points, and inside the top ten it scores strictly more. */
  lemma PointsForDecreasing(a: int, b: int)
    requires 1 <= a < b
    ensures PointsFor(a) >= PointsFor(b)
    ensures b <= 10 ==> PointsFor(a) > PointsFor(b)
  {
  }

  // ---------------------------------------------------------------------
  // Insertion-ordered dictionaries
  // ---------------------------------------------------------------------

  /** A Python dict as its keys in insertion order plus the key-value map. */
  ghost predicate OrderedDict<K(!new), V>(order: seq<K>, m: map<K, V>) {
    && (forall i, j :: 0 <= i < j < |order| ==> order[i] != order[j])
    && (forall k :: k in m <==> k in order)
  }

  /** `if k not in d: d[k] = 0` followed by `d[k] += p`. */
  function AddTo<K>(order: seq<K>, m: map<K, nat>, k: K, p: nat): (seq<K>, map<K, nat>) {
    if k in m then (order, m[k := m[k] + p]) else (order + [k], m[k := p])
  }

  function PointsOf<K>(m: map<K, nat>, k: K): nat {
    if k in m then m[k] else 0
  }

  lemma AddToOrdered<K(!new)>(order: seq<K>, m: map<K, nat>, k: K, p: nat)
    requires OrderedDict(order, m)
    ensures OrderedDict(AddTo(order, m, k, p).0, AddTo(order, m, k, p).1)
  {
  }

  /** The sum of the values of the keys that `keep` selects, in key order. */
  function SumWhere<K>(order: seq<K>, m: map<K, nat>, keep: K -> bool): nat
    requires forall k :: k in order ==> k in m
  {
    if order == [] then 0
    else
      var last := order[|order| - 1];
      SumWhere(order[..|order| - 1], m, keep) + (if keep(last) then m[last] else 0)
  }

  function Everyone<K>(k: K): bool {
    true
  }

  /** Selects the car numbers whose identity belongs to `team`. */
  function OnTeam(table: Table, team: string): int -> bool {
    n => IdentityOf(table, n).team == team
  }

  lemma {:induction false} SumWhereFrame<K>(order: seq<K>, m: map<K, nat>, k: K, v: nat, keep: K -> bool)
    requires forall x :: x in order ==> x in m
    requires k !in order
    ensures SumWhere(order, m[k := v], keep) == SumWhere(order, m, keep)
  {
    if order != [] {
      SumWhereFrame(order[..|order| - 1], m, k, v, keep);
    }
  }

  /** `SumWhere` grows by exactly what `AddTo` adds, when the key is selected. */
  lemma {:induction false} SumWhereAddTo<K(!new)>(order: seq<K>, m: map<K, nat>, k: K, p: nat, keep: K -> bool)
    requires OrderedDict(order, m)
    ensures SumWhere(AddTo(order, m, k, p).0, AddTo(order, m, k, p).1, keep)
         == SumWhere(order, m, keep) + (if keep(k) then p else 0)
  {
    if k in m {
      SumWhereBump(order, m, k, p, keep);
    } else {
      var order' := order + [k];
      assert order'[..|order'| - 1] == order;
      SumWhereFrame(order, m, k, p, keep);
    }
  }

  lemma {:induction false} SumWhereBump<K>(order: seq<K>, m: map<K, nat>, k: K, p: nat, keep: K -> bool)
    requires forall i, j :: 0 <= i < j < |order| ==> order[i] != order[j]
    requires forall x :: x in order ==> x in m
    requires k in order
    ensures SumWhere(order, m[k := m[k] + p], keep) == SumWhere(order, m, keep) + (if keep(k) then p else 0)
  {
    var pre := order[..|order| - 1];
    var last := order[|order| - 1];
    if last == k {
      assert k !in pre by {
        forall i | 0 <= i < |pre| ensures pre[i] != k {
          assert order[i] == pre[i];
        }
      }
      SumWhereFrame(pre, m, k, m[k] + p, keep);
    } else {
      assert k in pre by {
        var i :| 0 <= i < |order| && order[i] == k;
        assert pre[i] == k;
      }
      SumWhereBump(pre, m, k, p, keep);
    }
  }

  // ---------------------------------------------------------------------
  // Final positions of one session
  // ---------------------------------------------------------------------

  /** `final_positions`: per car number, the retained record, in first-seen order. */
  datatype Finals = Finals(order: seq<int>, latest: map<int, PositionRecord>)

  /** One step of the scan: a car's first record is kept, and a later record
      replaces the kept one only when its `date` string is strictly greater. */
  function Retain(f: Finals, pos: PositionRecord): Finals {
    var n := pos.driverNumber;
    if n !in f.latest then Finals(f.order + [n], f.latest[n := pos])
    else if StrLess(f.latest[n].date, pos.date) then Finals(f.order, f.latest[n := pos])
    else f
  }

  /** The scan over a session's position records, in list order. */
  function FinalPositions(ps: seq<PositionRecord>): (f: Finals)
    ensures OrderedDict(f.order, f.latest)
    ensures forall n :: n in f.latest ==> f.latest[n].driverNumber == n
  {
    if ps == [] then Finals([], map[])
    else Retain(FinalPositions(ps[..|ps| - 1]), ps[|ps| - 1])
  }

  /** `ps[i]` is the record a scan should retain for car `n`: no record of `n`
      has a later date, and every earlier record of `n` has a strictly earlier one. */
  ghost predicate IsLatestRecord(ps: seq<PositionRecord>, n: int, i: int) {
    && 0 <= i < |ps|
    && ps[i].driverNumber == n
    && (forall j :: 0 <= j < |ps| && ps[j].driverNumber == n ==> !StrLess(ps[i].date, ps[j].date))
    && (forall j :: 0 <= j < i && ps[j].driverNumber == n ==> StrLess(ps[j].date, ps[i].date))
  }

  /** Exactly the cars that have a position record get a final position. */
  lemma {:induction false} FinalPositionsCoverCars(ps: seq<PositionRecord>, n: int)
    ensures n in FinalPositions(ps).latest <==> exists j :: 0 <= j < |ps| && ps[j].driverNumber == n
  {
    if ps != [] {
      var pre := ps[..|ps| - 1];
      FinalPositionsCoverCars(pre, n);
      if exists j :: 0 <= j < |pre| && pre[j].driverNumber == n {
        var j :| 0 <= j < |pre| && pre[j].driverNumber == n;
        assert ps[j] == pre[j];
      }
      if exists j :: 0 <= j < |ps| && ps[j].driverNumber == n {
        var j :| 0 <= j < |ps| && ps[j].driverNumber == n;
        if j < |pre| { assert pre[j] == ps[j]; }
      }
    }
  }

  /** The retained record of each car is its latest-dated record, and on equal
      dates the first one seen. */
  lemma {:induction false} FinalPositionIsLatest(ps: seq<PositionRecord>, n: int) returns (i: int)
    requires n in FinalPositions(ps).latest
    ensures IsLatestRecord(ps, n, i) && FinalPositions(ps).latest[n] == ps[i]
  {
    var pre := ps[..|ps| - 1];
    var x := ps[|ps| - 1];
    assert ps == pre + [x];
    var f := FinalPositions(pre);
    if x.driverNumber != n {
      var i0 := FinalPositionIsLatest(pre, n);
      LatestKept(pre, x, n, i0);
      i := i0;
    } else if n !in f.latest {
      FinalPositionsCoverCars(pre, n);
      LatestFirstRecord(pre, x, n);
      i := |pre|;
    } else {
      var i0 := FinalPositionIsLatest(pre, n);
      if StrLess(pre[i0].date, x.date) {
        LatestReplaced(pre, x, n, i0);
        i := |pre|;
      } else {
        LatestKept(pre, x, n, i0);
        i := i0;
      }
    }
  }

  lemma LatestKept(pre: seq<PositionRecord>, x: PositionRecord, n: int, i0: int)
    requires IsLatestRecord(pre, n, i0)
    requires x.driverNumber != n || !StrLess(pre[i0].date, x.date)
    ensures IsLatestRecord(pre + [x], n, i0)
  {
    var ps := pre + [x];
    assert forall j :: 0 <= j < |pre| ==> ps[j] == pre[j];
  }

  lemma LatestFirstRecord(pre: seq<PositionRecord>, x: PositionRecord, n: int)
    requires x.driverNumber == n
    requires !exists j :: 0 <= j < |pre| && pre[j].driverNumber == n
    ensures IsLatestRecord(pre + [x], n, |pre|)
  {
    var ps := pre + [x];
    assert forall j :: 0 <= j < |pre| ==> ps[j] == pre[j];
    StrLessIrreflexive(x.date);
  }

  lemma LatestReplaced(pre: seq<PositionRecord>, x: PositionRecord, n: int, i0: int)
    requires IsLatestRecord(pre, n, i0)
    requires x.driverNumber == n && StrLess(pre[i0].date, x.date)
    ensures IsLatestRecord(pre + [x], n, |pre|)
  {
    var ps := pre + [x];
    var r0 := pre[i0];
    forall j | 0 <= j < |pre| && ps[j].driverNumber == n
      ensures StrLess(ps[j].date, x.date) && !StrLess(x.date, ps[j].date)
    {
      assert ps[j] == pre[j];
      StrNotLessThenLess(ps[j].date, r0.date, x.date);
      StrLessAsymmetric(ps[j].date, x.date);
    }
    StrLessIrreflexive(x.date);
  }

  // ---------------------------------------------------------------------
  // Accumulating points over sessions
  // ---------------------------------------------------------------------

  /** `driver_points` and `team_points`, each in insertion order. Drivers are
      keyed by car number: the source's key (number, name) takes the name from
      a fixed table, so it partitions records exactly as the number does. */
  datatype Tally = Tally(
    drivers: seq<int>, driverPoints: map<int, nat>,
    teams: seq<string>, teamPoints: map<string, nat>)
  {
    ghost predicate Valid() {
      OrderedDict(drivers, driverPoints) && OrderedDict(teams, teamPoints)
    }
  }

  const NoPoints := Tally([], map[], [], map[])

  /** Credits `points` to car `n` and to the team its identity names. */
  function Credit(t: Tally, n: int, points: nat, table: Table): Tally {
    var d := AddTo(t.drivers, t.driverPoints, n, points);
    var c := AddTo(t.teams, t.teamPoints, IdentityOf(table, n).team, points);
    Tally(d.0, d.1, c.0, c.1)
  }

  /** Credits the final positions of `keys`, in that order. */
  function AwardFinals(t: Tally, keys: seq<int>, latest: map<int, PositionRecord>, table: Table): (r: Tally)
    requires forall i :: 0 <= i < |keys| ==> keys[i] in latest
    requires t.Valid()
    ensures r.Valid()
  {
    if keys == [] then t
    else
      var n := keys[|keys| - 1];
      var before := AwardFinals(t, keys[..|keys| - 1], latest, table);
      AddToOrdered(before.drivers, before.driverPoints, n, PointsFor(latest[n].position));
      AddToOrdered(before.teams, before.teamPoints, IdentityOf(table, n).team, PointsFor(latest[n].position));
      Credit(before, n, PointsFor(latest[n].position), table)
  }

  lemma AwardFinalsStep(t: Tally, keys: seq<int>, k: nat, latest: map<int, PositionRecord>, table: Table)
    requires forall i :: 0 <= i < |keys| ==> keys[i] in latest
    requires t.Valid() && k < |keys|
    ensures AwardFinals(t, keys[..k + 1], latest, table)
         == Credit(AwardFinals(t, keys[..k], latest, table), keys[k], PointsFor(latest[keys[k]].position), table)
  {
    assert keys[..k + 1][..k] == keys[..k];
  }

  /** One session's contribution: nothing when its position fetch came back
      empty or failed, otherwise the points of every car's final position. */
  function AwardSession(t: Tally, positions: Option<seq<PositionRecord>>, table: Table): (r: Tally)
    requires t.Valid()
    ensures r.Valid()
  {
    if !NonEmpty(positions) then t
    else
      var f := FinalPositions(positions.value);
      AwardFinals(t, f.order, f.latest, table)
  }

  /** The points tally after the sessions, in list order. */
  function Tallied(sessions: seq<Session>, positionsOf: int -> Option<seq<PositionRecord>>, table: Table): (t: Tally)
    ensures t.Valid()
  {
    if sessions == [] then NoPoints
    else
      var last := sessions[|sessions| - 1];
      AwardSession(Tallied(sessions[..|sessions| - 1], positionsOf, table), positionsOf(last.sessionKey), table)
  }

  // ---------------------------------------------------------------------
  // Ranking
  // ---------------------------------------------------------------------

  datatype Scored<K> = Scored(key: K, points: nat)

  /** The dict's items in insertion order. */
  function Entries<K>(order: seq<K>, m: map<K, nat>): (r: seq<Scored<K>>)
    requires forall k :: k in order ==> k in m
    ensures |r| == |order|
  {
    seq(|order|, i requires 0 <= i < |order| => Scored(order[i], m[order[i]]))
  }

  /** The sort key of `sorted(..., key=points, reverse=True)`. */
  function ByPointsDesc<K>(e: Scored<K>): int {
    -(e.points as int)
  }

  /** Python's `s[:10]`. */
  function Top10<T>(s: seq<T>): (r: seq<T>)
    ensures |r| == if |s| < 10 then |s| else 10
    ensures forall i :: 0 <= i < |r| ==> r[i] == s[i]
  {
    if |s| <= 10 then s else s[..10]
  }

  /** The dict's items sorted by points, highest first, ties in insertion order. */
  function Ranked<K>(order: seq<K>, m: map<K, nat>): seq<Scored<K>>
    requires forall k :: k in order ==> k in m
  {
    SortBy(Entries(order, m), ByPointsDesc)
  }

  function DriverRow(i: nat, e: Scored<int>, table: Table): DriverStanding {
    var id := IdentityOf(table, e.key);
    DriverStanding(i + 1, id.name, id.abbr, id.team, e.points as real)
  }

  function TeamRow(i: nat, e: Scored<string>): TeamStanding {
    TeamStanding(i + 1, e.key, e.points as real)
  }

  function DriverRows(top: seq<Scored<int>>, table: Table): seq<DriverStanding> {
    seq(|top|, i requires 0 <= i < |top| => DriverRow(i, top[i], table))
  }

  function TeamRows(top: seq<Scored<string>>): seq<TeamStanding> {
    seq(|top|, i requires 0 <= i < |top| => TeamRow(i, top[i]))
  }

  /** Static standings returned when no session list can be fetched. */
  function FallbackStandings(): (seq<DriverStanding>, seq<TeamStanding>) {
    ([DriverStanding(1, "Max Verstappen", "VER", "Red Bull Racing", 393.0),
      DriverStanding(2, "Lando Norris", "NOR", "McLaren", 331.0),
      DriverStanding(3, "Charles Leclerc", "LEC", "Ferrari", 307.0)],
     [TeamStanding(1, "Red Bull Racing", 860.0),
      TeamStanding(2, "McLaren", 608.0),
      TeamStanding(3, "Ferrari", 584.0)])
  }

  /** What the derivation returns, as a function of its inputs. */
  function Derived(year: int, sessionsFor: int -> Option<seq<Session>>,
                   positionsOf: int -> Option<seq<PositionRecord>>, table: Table)
    : (seq<DriverStanding>, seq<TeamStanding>)
  {
    var sessions := SessionsOf(year, sessionsFor);
    if !NonEmpty(sessions) then FallbackStandings()
    else
      var t := Tallied(sessions.value, positionsOf, table);
      (DriverRows(Top10(Ranked(t.drivers, t.driverPoints)), table),
       TeamRows(Top10(Ranked(t.teams, t.teamPoints))))
  }

  // ---------------------------------------------------------------------
  // Properties of the derivation
  // ---------------------------------------------------------------------

  /** The points one session gives car `n`: the table value of its final position. */
  function SessionPoints(positions: Option<seq<PositionRecord>>, n: int): nat {
    if !NonEmpty(positions) then 0
    else
      var f := FinalPositions(positions.value);
      if n in f.latest then PointsFor(f.latest[n].position) else 0
  }

  /** Car `n`'s points summed over the sessions. */
  function DriverTotal(sessions: seq<Session>, positionsOf: int -> Option<seq<PositionRecord>>, n: int): nat {
    if sessions == [] then 0
    else
      DriverTotal(sessions[..|sessions| - 1], positionsOf, n)
      + SessionPoints(positionsOf(sessions[|sessions| - 1].sessionKey), n)
  }

  lemma PointsOfAddTo<K>(order: seq<K>, m: map<K, nat>, k: K, p: nat, x: K)
    ensures PointsOf(AddTo(order, m, k, p).1, x) == PointsOf(m, x) + (if x == k then p else 0)
  {
  }

  lemma {:induction false} AwardFinalsForDriver(
    t: Tally, keys: seq<int>, latest: map<int, PositionRecord>, table: Table, n: int)
    requires forall i :: 0 <= i < |keys| ==> keys[i] in latest
    requires forall i, j :: 0 <= i < j < |keys| ==> keys[i] != keys[j]
    requires t.Valid()
    ensures PointsOf(AwardFinals(t, keys, latest, table).driverPoints, n)
         == PointsOf(t.driverPoints, n) + (if n in keys then PointsFor(latest[n].position) else 0)
  {
    if keys != [] {
      var pre := keys[..|keys| - 1];
      var k := keys[|keys| - 1];
      var p := PointsFor(latest[k].position);
      var before := AwardFinals(t, pre, latest, table);
      assert AwardFinals(t, keys, latest, table).driverPoints == AddTo(before.drivers, before.driverPoints, k, p).1;
      AwardFinalsForDriver(t, pre, latest, table, n);
      PointsOfAddTo(before.drivers, before.driverPoints, k, p, n);
      LastKeyIsNew(keys, n);
    }
  }

  lemma LastKeyIsNew(keys: seq<int>, n: int)
    requires keys != []
    requires forall i, j :: 0 <= i < j < |keys| ==> keys[i] != keys[j]
    ensures n in keys <==> n in keys[..|keys| - 1] || n == keys[|keys| - 1]
    ensures n == keys[|keys| - 1] ==> n !in keys[..|keys| - 1]
  {
    var pre := keys[..|keys| - 1];
    assert keys == pre + [keys[|keys| - 1]];
    forall i | 0 <= i < |pre| ensures pre[i] != keys[|keys| - 1] {
      assert pre[i] == keys[i];
    }
  }

  /** A driver's total is the sum, over the sessions, of the table value of
      their final position in each (zero where they have none). */
  lemma {:induction false} DriverPointsAreSessionSums(
    sessions: seq<Session>, positionsOf: int -> Option<seq<PositionRecord>>, table: Table, n: int)
    ensures PointsOf(Tallied(sessions, positionsOf, table).driverPoints, n)
         == DriverTotal(sessions, positionsOf, n)
  {
    if sessions != [] {
      var pre := sessions[..|sessions| - 1];
      DriverPointsAreSessionSums(pre, positionsOf, table, n);
      var positions := positionsOf(sessions[|sessions| - 1].sessionKey);
      if NonEmpty(positions) {
        var f := FinalPositions(positions.value);
        AwardFinalsForDriver(Tallied(pre, positionsOf, table), f.order, f.latest, table, n);
      }
    }
  }

  /** Each team's points are the sum of the points of the drivers mapped to
      it, and all teams together hold exactly what all drivers hold. */
  ghost predicate Balanced(t: Tally, table: Table, team: string)
    requires t.Valid()
  {
    && PointsOf(t.teamPoints, team) == SumWhere(t.drivers, t.driverPoints, OnTeam(table, team))
    && SumWhere(t.teams, t.teamPoints, Everyone) == SumWhere(t.drivers, t.driverPoints, Everyone)
  }

  lemma CreditBalanced(t: Tally, n: int, points: nat, table: Table, team: string)
    requires t.Valid() && Balanced(t, table, team)
    ensures Credit(t, n, points, table).Valid() && Balanced(Credit(t, n, points, table), table, team)
  {
    var id := IdentityOf(table, n);
    AddToOrdered(t.drivers, t.driverPoints, n, points);
    AddToOrdered(t.teams, t.teamPoints, id.team, points);
    TeamSumStep(t, n, points, table, team);
    SumWhereAddTo(t.drivers, t.driverPoints, n, points, Everyone);
    SumWhereAddTo(t.teams, t.teamPoints, id.team, points, Everyone);
  }

  lemma TeamSumStep(t: Tally, n: int, points: nat, table: Table, team: string)
    requires t.Valid()
    requires PointsOf(t.teamPoints, team) == SumWhere(t.drivers, t.driverPoints, OnTeam(table, team))
    ensures var d := AddTo(t.drivers, t.driverPoints, n, points);
            var c := AddTo(t.teams, t.teamPoints, IdentityOf(table, n).team, points);
            OrderedDict(d.0, d.1) && PointsOf(c.1, team) == SumWhere(d.0, d.1, OnTeam(table, team))
  {
    var id := IdentityOf(table, n);
    AddToOrdered(t.drivers, t.driverPoints, n, points);
    PointsOfAddTo(t.teams, t.teamPoints, id.team, points, team);
    assert OnTeam(table, team)(n) <==> id.team == team;
    SumWhereAddTo(t.drivers, t.driverPoints, n, points, OnTeam(table, team));
  }

  lemma {:induction false} AwardFinalsBalanced(
    t: Tally, keys: seq<int>, latest: map<int, PositionRecord>, table: Table, team: string)
    requires forall i :: 0 <= i < |keys| ==> keys[i] in latest
    requires t.Valid() && Balanced(t, table, team)
    ensures Balanced(AwardFinals(t, keys, latest, table), table, team)
  {
    if keys != [] {
      var pre := keys[..|keys| - 1];
      var k := keys[|keys| - 1];
      AwardFinalsBalanced(t, pre, latest, table, team);
      CreditBalanced(AwardFinals(t, pre, latest, table), k, PointsFor(latest[k].position), table, team);
    }
  }

  /** Team totals are driver sums: every team's points equal the points of
      the drivers the table maps to it, and before truncation the team
      points add up to the driver points. */
  lemma {:induction false} TeamPointsAreDriverSums(
    sessions: seq<Session>, positionsOf: int -> Option<seq<PositionRecord>>, table: Table, team: string)
    ensures Balanced(Tallied(sessions, positionsOf, table), table, team)
  {
    if sessions != [] {
      var pre := sessions[..|sessions| - 1];
      TeamPointsAreDriverSums(pre, positionsOf, table, team);
      var positions := positionsOf(sessions[|sessions| - 1].sessionKey);
      if NonEmpty(positions) {
        var f := FinalPositions(positions.value);
        AwardFinalsBalanced(Tallied(pre, positionsOf, table), f.order, f.latest, table, team);
      }
    }
  }

  lemma {:induction false} SumWhereAtLeast<K>(order: seq<K>, m: map<K, nat>, keep: K -> bool, i: nat)
    requires forall x :: x in order ==> x in m
    requires i < |order| && keep(order[i])
    ensures SumWhere(order, m, keep) >= m[order[i]]
  {
    if i < |order| - 1 {
      var pre := order[..|order| - 1];
      assert pre[i] == order[i];
      SumWhereAtLeast(pre, m, keep, i);
    }
  }

  /** A car number missing from the table is shown as "Driver n" / "Dn", and
      its points are credited to the team "Unknown". */
  lemma UnknownCarsCreditedToUnknownTeam(
    sessions: seq<Session>, positionsOf: int -> Option<seq<PositionRecord>>, table: Table, n: int)
    requires n !in table
    ensures IdentityOf(table, n) == Identity("Driver " + IntToString(n), "D" + IntToString(n), "Unknown")
    ensures PointsOf(Tallied(sessions, positionsOf, table).teamPoints, "Unknown")
         >= DriverTotal(sessions, positionsOf, n)
  {
    var t := Tallied(sessions, positionsOf, table);
    DriverPointsAreSessionSums(sessions, positionsOf, table, n);
    TeamPointsAreDriverSums(sessions, positionsOf, table, "Unknown");
    if n in t.driverPoints {
      var i :| 0 <= i < |t.drivers| && t.drivers[i] == n;
      SumWhereAtLeast(t.drivers, t.driverPoints, OnTeam(table, "Unknown"), i);
    }
  }

  /** The ranking is a permutation of the dict's items, sorted by points from
      highest to lowest, and items with equal points keep their insertion
      (first-accumulation) order. */
  lemma RankedIsStableDescending<K>(order: seq<K>, m: map<K, nat>, v: int)
    requires forall k :: k in order ==> k in m
    ensures multiset(Ranked(order, m)) == multiset(Entries(order, m))
    ensures forall i, j :: 0 <= i < j < |Ranked(order, m)| ==> Ranked(order, m)[i].points >= Ranked(order, m)[j].points
    ensures WithKey(Ranked(order, m), ByPointsDesc, v) == WithKey(Entries(order, m), ByPointsDesc, v)
  {
    SortByAscending(Entries(order, m), ByPointsDesc);
    SortByStable(Entries(order, m), ByPointsDesc, v);
  }

  ghost predicate DriverTableShape(rows: seq<DriverStanding>) {
    && |rows| <= 10
    && (forall i :: 0 <= i < |rows| ==> rows[i].position == i + 1)
    && (forall i, j :: 0 <= i < j < |rows| ==> rows[i].points >= rows[j].points)
  }

  ghost predicate TeamTableShape(rows: seq<TeamStanding>) {
    && |rows| <= 10
    && (forall i :: 0 <= i < |rows| ==> rows[i].position == i + 1)
    && (forall i, j :: 0 <= i < j < |rows| ==> rows[i].points >= rows[j].points)
  }

  lemma DriverRowsShape(ranked: seq<Scored<int>>, table: Table)
    requires forall i, j :: 0 <= i < j < |ranked| ==> ranked[i].points >= ranked[j].points
    ensures DriverTableShape(DriverRows(Top10(ranked), table))
  {
  }

  lemma TeamRowsShape(ranked: seq<Scored<string>>)
    requires forall i, j :: 0 <= i < j < |ranked| ==> ranked[i].points >= ranked[j].points
    ensures TeamTableShape(TeamRows(Top10(ranked)))
  {
  }

  /** The static standings have the shape of derived ones: three rows each,
      numbered 1..3, points non-increasing. */
  lemma FallbackStandingsShape()
    ensures |FallbackStandings().0| == 3 && DriverTableShape(FallbackStandings().0)
    ensures |FallbackStandings().1| == 3 && TeamTableShape(FallbackStandings().1)
  {
  }

  /** Whatever path it takes, the derivation returns at most ten drivers and
      ten teams, numbered 1..k in order, with points never increasing. */
  lemma DerivedStandingsShape(
    year: int, sessionsFor: int -> Option<seq<Session>>,
    positionsOf: int -> Option<seq<PositionRecord>>, table: Table)
    ensures DriverTableShape(Derived(year, sessionsFor, positionsOf, table).0)
    ensures TeamTableShape(Derived(year, sessionsFor, positionsOf, table).1)
  {
    var sessions := SessionsOf(year, sessionsFor);
    if NonEmpty(sessions) {
      var t := Tallied(sessions.value, positionsOf, table);
      RankedIsStableDescending(t.drivers, t.driverPoints, 0);
      RankedIsStableDescending(t.teams, t.teamPoints, 0);
      DriverRowsShape(Ranked(t.drivers, t.driverPoints), table);
      TeamRowsShape(Ranked(t.teams, t.teamPoints));
    }
  }

  /** When a driver total is positive, it came from a top-ten finish somewhere. */
  lemma {:induction false} PointsNeedTopTenFinish(
    sessions: seq<Session>, positionsOf: int -> Option<seq<PositionRecord>>, n: int)
    requires DriverTotal(sessions, positionsOf, n) > 0
    ensures exists s :: 0 <= s < |sessions| && SessionPoints(positionsOf(sessions[s].sessionKey), n) > 0
  {
    var pre := sessions[..|sessions| - 1];
    if SessionPoints(positionsOf(sessions[|sessions| - 1].sessionKey), n) == 0 {
      PointsNeedTopTenFinish(pre, positionsOf, n);
      var s :| 0 <= s < |pre| && SessionPoints(positionsOf(pre[s].sessionKey), n) > 0;
      assert sessions[s] == pre[s];
    }
  }

  // ---------------------------------------------------------------------
  // The derivation, as the backend runs it
  // ---------------------------------------------------------------------

  /** Derives driver and team standings from OpenF1 position records. */
  method CalculateStandingsFromResults(
    year: int, sessionsFor: int -> Option<seq<Session>>,
    positionsOf: int -> Option<seq<PositionRecord>>, table: Table)
    returns (drivers: seq<DriverStanding>, teams: seq<TeamStanding>)
    ensures (drivers, teams) == Derived(year, sessionsFor, positionsOf, table)
  {
    var sessions := sessionsFor(year);
    if !NonEmpty(sessions) {
      sessions := sessionsFor(year - 1);
    }
    if !NonEmpty(sessions) {
      var fallback := FallbackStandings();
      return fallback.0, fallback.1;
    }
    var ss := sessions.value;
    var driverOrder: seq<int>, driverPoints: map<int, nat> := [], map[];
    var teamOrder: seq<string>, teamPoints: map<string, nat> := [], map[];
    for s := 0 to |ss|
      invariant Tally(driverOrder, driverPoints, teamOrder, teamPoints) == Tallied(ss[..s], positionsOf, table)
    {
      assert ss[..s + 1][..s] == ss[..s];
      var positions := positionsOf(ss[s].sessionKey);
      if !NonEmpty(positions) {
        continue;
      }
      var finalOrder, finalPositions := ScanFinalPositions(positions.value);
      driverOrder, driverPoints, teamOrder, teamPoints :=
        AwardPoints(driverOrder, driverPoints, teamOrder, teamPoints, finalOrder, finalPositions, table);
    }
    assert ss[..|ss|] == ss;
    drivers := NumberDrivers(Top10(Ranked(driverOrder, driverPoints)), table);
    teams := NumberTeams(Top10(Ranked(teamOrder, teamPoints)));
  }

  /** The inner scan for a session's final positions: a car's record replaces
      the kept one when its `date` is strictly greater. */
  method ScanFinalPositions(ps: seq<PositionRecord>)
    returns (finalOrder: seq<int>, finalPositions: map<int, PositionRecord>)
    ensures Finals(finalOrder, finalPositions) == FinalPositions(ps)
  {
    finalOrder, finalPositions := [], map[];
    for p := 0 to |ps|
      invariant Finals(finalOrder, finalPositions) == FinalPositions(ps[..p])
    {
      assert ps[..p + 1][..p] == ps[..p];
      var pos := ps[p];
      var n := pos.driverNumber;
      if n !in finalPositions || StrLess(finalPositions[n].date, pos.date) {
        if n !in finalPositions {
          finalOrder := finalOrder + [n];
        }
        finalPositions := finalPositions[n := pos];
      }
    }
    assert ps[..|ps|] == ps;
  }

  /** The award loop: each car, in first-seen order, gets the points of its
      final position, and so does its team. */
  method AwardPoints(
    driverOrder: seq<int>, driverPoints: map<int, nat>,
    teamOrder: seq<string>, teamPoints: map<string, nat>,
    finalOrder: seq<int>, finalPositions: map<int, PositionRecord>, table: Table)
    returns (driverOrder': seq<int>, driverPoints': map<int, nat>,
             teamOrder': seq<string>, teamPoints': map<string, nat>)
    requires Tally(driverOrder, driverPoints, teamOrder, teamPoints).Valid()
    requires forall i :: 0 <= i < |finalOrder| ==> finalOrder[i] in finalPositions
    ensures Tally(driverOrder', driverPoints', teamOrder', teamPoints')
         == AwardFinals(Tally(driverOrder, driverPoints, teamOrder, teamPoints), finalOrder, finalPositions, table)
  {
    driverOrder', driverPoints', teamOrder', teamPoints' := driverOrder, driverPoints, teamOrder, teamPoints;
    ghost var start := Tally(driverOrder, driverPoints, teamOrder, teamPoints);
    for k := 0 to |finalOrder|
      invariant Tally(driverOrder', driverPoints', teamOrder', teamPoints')
             == AwardFinals(start, finalOrder[..k], finalPositions, table)
    {
      AwardFinalsStep(start, finalOrder, k, finalPositions, table);
      var n := finalOrder[k];
      var info := IdentityOf(table, n);
      var points := PointsFor(finalPositions[n].position);
      driverOrder', driverPoints' := AddPoints(driverOrder', driverPoints', n, points);
      teamOrder', teamPoints' := AddPoints(teamOrder', teamPoints', info.team, points);
    }
    assert finalOrder[..|finalOrder|] == finalOrder;
  }

  /** `if key not in d: d[key] = 0` then `d[key] += points`, on an insertion-ordered dict. */
  method AddPoints<K>(order: seq<K>, m: map<K, nat>, k: K, points: nat)
    returns (order': seq<K>, m': map<K, nat>)
    ensures (order', m') == AddTo(order, m, k, points)
  {
    order', m' := order, m;
    if k !in m' {
      order', m' := order' + [k], m'[k := 0];
    }
    m' := m'[k := m'[k] + points];
    assert k !in m ==> m' == m[k := points];
  }

  /** `enumerate(sorted_drivers[:10])`: numbers the rows 1, 2, ... in order. */
  method NumberDrivers(top: seq<Scored<int>>, table: Table) returns (drivers: seq<DriverStanding>)
    ensures drivers == DriverRows(top, table)
  {
    drivers := [];
    for i := 0 to |top|
      invariant drivers == DriverRows(top[..i], table)
    {
      drivers := drivers + [DriverRow(i, top[i], table)];
    }
    assert top[..|top|] == top;
  }

  /** `enumerate(sorted_teams[:10])`: numbers the rows 1, 2, ... in order. */
  method NumberTeams(top: seq<Scored<string>>) returns (teams: seq<TeamStanding>)
    ensures teams == TeamRows(top)
  {
    teams := [];
    for i := 0 to |top|
      invariant teams == TeamRows(top[..i])
    {
      teams := teams + [TeamRow(i, top[i])];
    }
    assert top[..|top|] == top;
  }
}
