/**
 * The race ledger: the per-driver results of every race, joined with the race
 * calendar, renamed to the column names the rest of the system uses, and
 * given the `is_winner` target (src/data/process_data.py).
 */
module ProcessData {
  import opened Wrappers
  import Strings

  /** A 0/1 indicator column. */
  type Flag = x: int | 0 <= x <= 1

  /**
   * One row of the raw results table: a driver's result in one race. `raceId`,
   * `year` and `round` were attached when the race was fetched; `position` is
   * absent when the session has no numeric position for the driver.
   */
  datatype ResultRow = ResultRow(
    raceId: string, year: int, round: int, driverId: string, teamName: string,
    gridPosition: real, position: Option<real>, points: real)

  /** One row of the raw race calendar. */
  datatype RaceEvent = RaceEvent(
    year: int, roundNumber: int, eventName: string, eventDate: string, location: string)

  /**
   * One row of the processed ledger, under its renamed columns. `eventName` and
   * `location` are absent when no calendar row carries the result's race key.
   */
  datatype LedgerRow = LedgerRow(
    raceId: string, year: int, round: int, driverId: string, constructorId: string,
    grid: real, positionOrder: Option<real>, points: real, isWinner: Flag,
    eventName: Option<string>, location: Option<string>)

  /** The raw tables that were found on disk; a missing file leaves its table absent. */
  datatype RawData = RawData(results: Option<seq<ResultRow>>, races: Option<seq<RaceEvent>>)

  // ------------------------------------------------------------ race key

  /** `str(year) + "_" + str(round)`, the key both tables are joined on. */
  function RaceKey(year: int, round: int): string {
    Strings.IntToString(year) + "_" + Strings.IntToString(round)
  }

  function EventKey(race: RaceEvent): string {
    RaceKey(race.year, race.roundNumber)
  }

  /** The key names exactly one (year, round): two races share a key only if they are the same race. */
  lemma RaceKeyInjective(y1: int, r1: int, y2: int, r2: int)
    ensures RaceKey(y1, r1) == RaceKey(y2, r2) <==> y1 == y2 && r1 == r2
  {
    if RaceKey(y1, r1) == RaceKey(y2, r2) {
      Strings.SplitAtSeparator(Strings.IntToString(y1), Strings.IntToString(r1),
                               Strings.IntToString(y2), Strings.IntToString(r2), '_');
      Strings.IntToStringInjective(y1, y2);
      Strings.IntToStringInjective(r1, r2);
    }
  }

  predicate UniqueKeys(races: seq<RaceEvent>) {
    forall i, j :: 0 <= i < j < |races| ==> EventKey(races[i]) != EventKey(races[j])
  }

  /** A calendar with one row per (year, round) has one row per race key. */
  lemma DistinctRacesHaveUniqueKeys(races: seq<RaceEvent>)
    requires forall i, j :: 0 <= i < j < |races| ==>
               (races[i].year, races[i].roundNumber) != (races[j].year, races[j].roundNumber)
    ensures UniqueKeys(races)
  {
    forall i, j | 0 <= i < j < |races| ensures EventKey(races[i]) != EventKey(races[j]) {
      RaceKeyInjective(races[i].year, races[i].roundNumber, races[j].year, races[j].roundNumber);
    }
  }

  // ------------------------------------------------------------ left join

  /** `1 if positionOrder == 1.0 else 0`; a missing position compares unequal. */
  function IsWinner(position: Option<real>): (w: Flag)
    ensures w == 1 <==> position == Some(1.0)
  {
    if position == Some(1.0) then 1 else 0
  }

  /** A results row merged with a calendar row (or with none), columns renamed. */
  function JoinRow(r: ResultRow, race: Option<RaceEvent>): (row: LedgerRow)
    ensures row.driverId == r.driverId && row.constructorId == r.teamName && row.grid == r.gridPosition
    ensures row.positionOrder == r.position && row.points == r.points
    ensures row.isWinner == 1 <==> row.positionOrder == Some(1.0)
    ensures row.raceId == r.raceId && row.year == r.year && row.round == r.round
    ensures row.location.Some? <==> race.Some?
    ensures row.eventName.Some? <==> race.Some?
    ensures race.Some? ==> row.eventName == Some(race.value.eventName) && row.location == Some(race.value.location)
  {
    LedgerRow(
      r.raceId, r.year, r.round, r.driverId, r.teamName, r.gridPosition, r.position, r.points,
      IsWinner(r.position),
      if race.Some? then Some(race.value.eventName) else None,
      if race.Some? then Some(race.value.location) else None)
  }

  /** The calendar rows whose key equals `key`, in calendar order. */
  function Matches(key: string, races: seq<RaceEvent>): (m: seq<RaceEvent>)
    ensures forall race :: race in m <==> race in races && EventKey(race) == key
  {
    if races == [] then []
    else
      assert races == [races[0]] + races[1..];
      (if EventKey(races[0]) == key then [races[0]] else []) + Matches(key, races[1..])
  }

  /** What a left merge yields for one results row: one row per match, or one row with the race columns missing. */
  function JoinOne(r: ResultRow, races: seq<RaceEvent>): seq<LedgerRow> {
    var m := Matches(r.raceId, races);
    if m == [] then [JoinRow(r, None)] else seq(|m|, i requires 0 <= i < |m| => JoinRow(r, Some(m[i])))
  }

  /** `pd.merge(results, races, on='raceId', how='left')`, results order kept. */
  function LeftJoin(results: seq<ResultRow>, races: seq<RaceEvent>): (joined: seq<LedgerRow>)
    ensures |joined| >= |results|
    ensures |joined| == 0 <==> |results| == 0
  {
    if results == [] then [] else JoinOne(results[0], races) + LeftJoin(results[1..], races)
  }

  /**
   * What a ledger row keeps of the results row `r` it came from: the result's own
   * columns under their new names, `is_winner` set exactly for a first place, and
   * the race columns taken from a calendar row with the same key, or missing
   * exactly when the calendar has no such row.
   */
  predicate FromResult(row: LedgerRow, r: ResultRow, races: seq<RaceEvent>) {
    && row.raceId == r.raceId && row.year == r.year && row.round == r.round
    && row.driverId == r.driverId && row.constructorId == r.teamName
    && row.grid == r.gridPosition && row.positionOrder == r.position && row.points == r.points
    && (row.isWinner == 1 <==> r.position == Some(1.0))
    && (row.location.None? <==> Matches(r.raceId, races) == [])
    && row.eventName.Some? == row.location.Some?
    && (row.location.Some? ==>
          exists race :: race in races && EventKey(race) == r.raceId
            && row.eventName == Some(race.eventName) && row.location == Some(race.location))
  }

  lemma JoinOneFrom(r: ResultRow, races: seq<RaceEvent>)
    ensures |JoinOne(r, races)| >= 1
    ensures forall k :: 0 <= k < |JoinOne(r, races)| ==> FromResult(JoinOne(r, races)[k], r, races)
  {
    var m := Matches(r.raceId, races);
    forall k | 0 <= k < |JoinOne(r, races)| ensures FromResult(JoinOne(r, races)[k], r, races) {
      if m != [] {
        assert m[k] in m;
      }
    }
  }

  /** Every ledger row comes from some results row, as `FromResult` describes. */
  lemma {:induction false} LeftJoinProvenance(results: seq<ResultRow>, races: seq<RaceEvent>)
    ensures |LeftJoin(results, races)| >= |results|
    ensures forall k :: 0 <= k < |LeftJoin(results, races)| ==>
              exists i :: 0 <= i < |results| && FromResult(LeftJoin(results, races)[k], results[i], races)
  {
    if results != [] {
      var head, rest := JoinOne(results[0], races), LeftJoin(results[1..], races);
      JoinOneFrom(results[0], races);
      LeftJoinProvenance(results[1..], races);
      assert LeftJoin(results, races) == head + rest;
      forall k | 0 <= k < |head + rest|
        ensures exists i :: 0 <= i < |results| && FromResult((head + rest)[k], results[i], races)
      {
        if k < |head| {
          assert (head + rest)[k] == head[k];
          assert FromResult(head[k], results[0], races);
        } else {
          assert (head + rest)[k] == rest[k - |head|];
          var i :| 0 <= i < |results[1..]| && FromResult(rest[k - |head|], results[1..][i], races);
          assert results[1..][i] == results[i + 1];
        }
      }
    }
  }

  /** No results row is dropped: each has at least one ledger row. */
  lemma {:induction false} LeftJoinKeepsEveryResult(results: seq<ResultRow>, races: seq<RaceEvent>)
    ensures forall i :: 0 <= i < |results| ==>
              exists k :: 0 <= k < |LeftJoin(results, races)| && FromResult(LeftJoin(results, races)[k], results[i], races)
  {
    if results != [] {
      var head, rest := JoinOne(results[0], races), LeftJoin(results[1..], races);
      JoinOneFrom(results[0], races);
      LeftJoinKeepsEveryResult(results[1..], races);
      assert LeftJoin(results, races) == head + rest;
      forall i | 0 <= i < |results|
        ensures exists k :: 0 <= k < |head + rest| && FromResult((head + rest)[k], results[i], races)
      {
        if i == 0 {
          assert (head + rest)[0] == head[0];
          assert FromResult((head + rest)[0], results[0], races);
        } else {
          var k :| 0 <= k < |rest| && FromResult(rest[k], results[1..][i - 1], races);
          assert (head + rest)[|head| + k] == rest[k] && results[1..][i - 1] == results[i];
        }
      }
    }
  }

  /** One result joined with the calendar has a row for each matching calendar row. */
  lemma JoinOneRowPerMatch(r: ResultRow, races: seq<RaceEvent>, race: RaceEvent)
    requires race in Matches(r.raceId, races)
    ensures JoinRow(r, Some(race)) in JoinOne(r, races)
  {
    var m := Matches(r.raceId, races);
    var j :| 0 <= j < |m| && m[j] == race;
    assert JoinOne(r, races)[j] == JoinRow(r, Some(race));
  }

  /** Every row the merge yields for one result is a row of the whole merge. */
  lemma {:induction false} JoinOneInLeftJoin(results: seq<ResultRow>, races: seq<RaceEvent>, i: nat, x: LedgerRow)
    requires i < |results| && x in JoinOne(results[i], races)
    ensures x in LeftJoin(results, races)
  {
    var head, rest := JoinOne(results[0], races), LeftJoin(results[1..], races);
    if i > 0 {
      var tail := results[1..];
      assert tail[i - 1] == results[i];
      JoinOneInLeftJoin(tail, races, i - 1, x);
    }
    InConcat(x, head, rest);
    assert LeftJoin(results, races) == head + rest;
  }

  /** A result whose key several calendar rows carry appears once with each of them. */
  lemma LeftJoinRowPerMatch(results: seq<ResultRow>, races: seq<RaceEvent>, i: nat, race: RaceEvent)
    requires i < |results| && race in Matches(results[i].raceId, races)
    ensures JoinRow(results[i], Some(race)) in LeftJoin(results, races)
  {
    JoinOneRowPerMatch(results[i], races, race);
    JoinOneInLeftJoin(results, races, i, JoinRow(results[i], Some(race)));
  }

  lemma InConcat<T>(x: T, a: seq<T>, b: seq<T>)
    ensures x in a + b <==> x in a || x in b
  {
  }

  lemma {:induction false} NoMatches(key: string, races: seq<RaceEvent>)
    requires forall race :: race in races ==> EventKey(race) != key
    ensures Matches(key, races) == []
  {
    if races != [] {
      assert races[0] in races;
      NoMatches(key, races[1..]);
    }
  }

  lemma {:induction false} UniqueKeysMatchAtMostOnce(key: string, races: seq<RaceEvent>)
    requires UniqueKeys(races)
    ensures |Matches(key, races)| <= 1
  {
    if races != [] {
      assert UniqueKeys(races[1..]);
      UniqueKeysMatchAtMostOnce(key, races[1..]);
      if EventKey(races[0]) == key {
        forall race | race in races[1..] ensures EventKey(race) != key {
          var j :| 0 <= j < |races[1..]| && races[1..][j] == race;
          assert EventKey(races[0]) != EventKey(races[j + 1]);
        }
        NoMatches(key, races[1..]);
      }
    }
  }

  /**
   * With one calendar row per key, the ledger has exactly one row per results row,
   * in results order.
   */
  lemma {:induction false} LeftJoinPreservesRows(results: seq<ResultRow>, races: seq<RaceEvent>)
    requires UniqueKeys(races)
    ensures |LeftJoin(results, races)| == |results|
    ensures forall i :: 0 <= i < |results| ==> FromResult(LeftJoin(results, races)[i], results[i], races)
  {
    if results != [] {
      UniqueKeysMatchAtMostOnce(results[0].raceId, races);
      JoinOneFrom(results[0], races);
      LeftJoinPreservesRows(results[1..], races);
      var head, rest := JoinOne(results[0], races), LeftJoin(results[1..], races);
      assert |head| == 1;
      forall i | 0 <= i < |results| ensures FromResult((head + rest)[i], results[i], races) {
        if i > 0 { assert (head + rest)[i] == rest[i - 1]; }
      }
    }
  }

  /**
   * The facts `process_data` promises about its rows: no result is dropped, and
   * the target is 1 exactly on a first place. The provenance direction is used
   * only locally: together with `LeftJoinKeepsEveryResult` it makes a matching loop.
   */
  lemma LeftJoinRows(results: seq<ResultRow>, races: seq<RaceEvent>)
    ensures |LeftJoin(results, races)| >= |results|
    ensures forall i :: 0 <= i < |results| ==>
              exists k :: 0 <= k < |LeftJoin(results, races)| && FromResult(LeftJoin(results, races)[k], results[i], races)
    ensures forall k :: 0 <= k < |LeftJoin(results, races)| ==>
              (LeftJoin(results, races)[k].isWinner == 1 <==> LeftJoin(results, races)[k].positionOrder == Some(1.0))
  {
    var rows := LeftJoin(results, races);
    assert |rows| >= |results| && forall k :: 0 <= k < |rows| ==>
             (rows[k].isWinner == 1 <==> rows[k].positionOrder == Some(1.0)) by {
      LeftJoinProvenance(results, races);
      forall k | 0 <= k < |rows| ensures rows[k].isWinner == 1 <==> rows[k].positionOrder == Some(1.0) {
        var i :| 0 <= i < |results| && FromResult(rows[k], results[i], races);
      }
    }
    LeftJoinKeepsEveryResult(results, races);
  }

  // ------------------------------------------------------------ process_data

  /**
   * `process_data`: nothing when either table is missing, otherwise the left join
   * of results onto the calendar, renamed and with `is_winner` added.
   */
  function Process(data: RawData): (out: Option<seq<LedgerRow>>)
    ensures out.None? <==> data.results.None? || data.races.None?
    ensures out.Some? ==> |out.value| >= |data.results.value|
    ensures out.Some? ==> forall i :: 0 <= i < |data.results.value| ==>
              exists k :: 0 <= k < |out.value| && FromResult(out.value[k], data.results.value[i], data.races.value)
    ensures out.Some? ==> forall k :: 0 <= k < |out.value| ==>
              (out.value[k].isWinner == 1 <==> out.value[k].positionOrder == Some(1.0))
  {
    if data.results.None? || data.races.None? then None
    else
      var results, races := data.results.value, data.races.value;
      LeftJoinRows(results, races);
      Some(LeftJoin(results, races))
  }

  // ------------------------------------------------------------ columns

  /** The fixed renames applied to the merged table. */
  const Renames: map<string, string> := map[
    "DriverId" := "driverId", "TeamName" := "constructorId", "GridPosition" := "grid",
    "Position" := "positionOrder", "Points" := "points", "Status" := "status", "Time" := "time_str"]

  /** The columns the ledger keeps, in the order it keeps them. */
  const LedgerColumns: seq<string> := [
    "raceId", "year", "round", "driverId", "constructorId", "grid",
    "positionOrder", "points", "status", "is_winner", "EventName",
    "Location", "Abbreviation"]

  function Rename(c: string): string {
    if c in Renames then Renames[c] else c
  }

  /** The calendar columns the merge brings in besides the key `raceId`. */
  const CalendarColumns: seq<string> := ["EventName", "EventDate", "Location"]

  /**
   * A column's name after the merge: a non-key name that both tables carry gets
   * the suffix of its side (`_x` for results, `_y` for the calendar).
   */
  function Suffixed(c: string, other: seq<string>, suffix: string): string {
    if c != "raceId" && c in other then c + suffix else c
  }

  /** Columns present after the merge, the renames and the `is_winner` assignment. */
  function AvailableColumns(resultColumns: seq<string>): seq<string> {
    var left := seq(|resultColumns|, i requires 0 <= i < |resultColumns| =>
                      Suffixed(resultColumns[i], CalendarColumns, "_x"));
    var right := seq(|CalendarColumns|, j requires 0 <= j < |CalendarColumns| =>
                       Suffixed(CalendarColumns[j], resultColumns, "_y"));
    var merged := left + right;
    seq(|merged|, i requires 0 <= i < |merged| => Rename(merged[i])) + ["is_winner"]
  }

  /** `[c for c in keep if c in available]`. */
  function KeepPresent(keep: seq<string>, available: seq<string>): (r: seq<string>)
    ensures forall c :: c in r <==> c in keep && c in available
  {
    if keep == [] then []
    else
      assert keep == [keep[0]] + keep[1..];
      (if keep[0] in available then [keep[0]] else []) + KeepPresent(keep[1..], available)
  }

  predicate Distinct(s: seq<string>) {
    forall i, j :: 0 <= i < j < |s| ==> s[i] != s[j]
  }

  /** Filtering a duplicate-free list keeps its relative order. */
  lemma {:induction false} KeepPresentOrdered(keep: seq<string>, available: seq<string>)
    requires Distinct(keep)
    ensures Distinct(KeepPresent(keep, available))
    ensures forall i, j :: 0 <= i < j < |KeepPresent(keep, available)| ==>
              Strings.IndexOf(keep, KeepPresent(keep, available)[i]) <
              Strings.IndexOf(keep, KeepPresent(keep, available)[j])
  {
    if keep != [] {
      var rest := KeepPresent(keep[1..], available);
      KeepPresentOrdered(keep[1..], available);
      forall i | 0 <= i < |rest| ensures rest[i] != keep[0] && Strings.IndexOf(keep, rest[i]) == Strings.IndexOf(keep[1..], rest[i]) + 1 {
        assert rest[i] in keep[1..];
        var m :| 0 <= m < |keep[1..]| && keep[1..][m] == rest[i];
        assert keep[m + 1] == rest[i];
      }
    }
  }

  lemma LedgerColumnsDistinct()
    ensures Distinct(LedgerColumns)
  {
  }

  /**
   * `process_data`'s column list for a results table with the given columns, or
   * the column whose absence raises a KeyError: the merge key `raceId`, then the
   * `positionOrder` column the target is computed from.
   */
  function OutputColumns(resultColumns: seq<string>): Result<seq<string>, string> {
    if "raceId" !in resultColumns then Failure("raceId")
    else if "positionOrder" !in AvailableColumns(resultColumns) then Failure("positionOrder")
    else Success(KeepPresent(LedgerColumns, AvailableColumns(resultColumns)))
  }

  /** Only names ending in `_x` or `_y` come out of a suffixed clash. */
  lemma SuffixedName(c: string, other: seq<string>, suffix: string, name: string)
    requires |suffix| == 2 && suffix[0] == '_' && |name| >= 2 && name[|name| - 2] != '_'
    ensures Suffixed(c, other, suffix) == name ==> c == name && (c == "raceId" || c !in other)
  {
    if c != "raceId" && c in other {
      var r := c + suffix;
      assert r[|r| - 2] == '_';
    }
  }

  /** The renames produce neither calendar column. */
  lemma RenameCalendarColumn(c: string, name: string)
    requires name in CalendarColumns
    ensures Rename(c) == name ==> c == name
  {
    assert name !in Renames.Values;
  }

  /** Only `Position` is renamed to `positionOrder`. */
  lemma RenameToPositionOrder(c: string)
    ensures Rename(c) == "positionOrder" ==> c == "Position" || c == "positionOrder"
  {
    if c in Renames && c != "Position" {
      assert Renames[c] != "positionOrder";
    }
  }

  /**
   * After the merge and the renames there is a `positionOrder` column exactly when
   * the results table has a `Position` or a `positionOrder` column.
   */
  lemma PositionAvailable(resultColumns: seq<string>)
    ensures "positionOrder" in AvailableColumns(resultColumns) <==>
              "Position" in resultColumns || "positionOrder" in resultColumns
  {
    var available := AvailableColumns(resultColumns);
    var m := |resultColumns|;
    if k :| 0 <= k < m && resultColumns[k] in ["Position", "positionOrder"] {
      var c := resultColumns[k];
      assert c !in CalendarColumns;
      assert available[k] == Rename(c) == "positionOrder";
    }
    if "positionOrder" in available {
      var k :| 0 <= k < |available| && available[k] == "positionOrder";
      if k < m {
        var c := resultColumns[k];
        var x := Suffixed(c, CalendarColumns, "_x");
        assert available[k] == Rename(x);
        RenameToPositionOrder(x);
        SuffixedName(c, CalendarColumns, "_x", x);
        assert resultColumns[k] in resultColumns;
      } else if k < m + |CalendarColumns| {
        var c := CalendarColumns[k - m];
        var y := Suffixed(c, resultColumns, "_y");
        assert available[k] == Rename(y);
        RenameToPositionOrder(y);
        SuffixedName(c, resultColumns, "_y", y);
      } else {
        assert false;
      }
    }
  }

  /**
   * A calendar column reaches the merged table under its own name exactly when
   * the results table has no column of that name; otherwise pandas suffixes both
   * copies and neither survives the keep list.
   */
  lemma CalendarColumnAvailable(resultColumns: seq<string>, j: nat)
    requires j < |CalendarColumns|
    ensures CalendarColumns[j] in AvailableColumns(resultColumns) <==> CalendarColumns[j] !in resultColumns
  {
    var name := CalendarColumns[j];
    var available := AvailableColumns(resultColumns);
    var m := |resultColumns|;
    if name !in resultColumns {
      assert Suffixed(name, resultColumns, "_y") == name;
      assert available[m + j] == Rename(name) == name;
    } else {
      forall k | 0 <= k < |available| ensures available[k] != name {
        if k < m {
          var c := resultColumns[k];
          RenameCalendarColumn(Suffixed(c, CalendarColumns, "_x"), name);
          SuffixedName(c, CalendarColumns, "_x", name);
          assert available[k] == Rename(Suffixed(c, CalendarColumns, "_x"));
        } else if k < m + |CalendarColumns| {
          var c := CalendarColumns[k - m];
          RenameCalendarColumn(Suffixed(c, resultColumns, "_y"), name);
          SuffixedName(c, resultColumns, "_y", name);
          assert available[k] == Rename(Suffixed(c, resultColumns, "_y"));
        } else {
          assert available[k] == "is_winner";
        }
      }
    }
  }

  /**
   * `process_data` raises exactly when the results table lacks `raceId` or a
   * position column. Otherwise the ledger's columns are exactly the kept names
   * that exist after the merge and the renames: the target always supplies
   * `is_winner`, and `EventName` and `Location` survive exactly when the results
   * table does not carry them too.
   */
  lemma OutputColumnsPresent(resultColumns: seq<string>)
    ensures OutputColumns(resultColumns).Failure? <==>
              "raceId" !in resultColumns || ("Position" !in resultColumns && "positionOrder" !in resultColumns)
    ensures "raceId" !in resultColumns ==> OutputColumns(resultColumns) == Failure("raceId")
    ensures OutputColumns(resultColumns).Success? ==>
              var cols := OutputColumns(resultColumns).value;
              && (forall c :: c in cols <==> c in LedgerColumns && c in AvailableColumns(resultColumns))
              && "is_winner" in cols && "positionOrder" in cols && "raceId" in cols
              && ("EventName" in cols <==> "EventName" !in resultColumns)
              && ("Location" in cols <==> "Location" !in resultColumns)
  {
    PositionAvailable(resultColumns);
    if OutputColumns(resultColumns).Success? {
      KeptColumns(resultColumns);
    }
  }

  /** The kept columns when the merge and the target succeed. */
  lemma KeptColumns(resultColumns: seq<string>)
    requires "raceId" in resultColumns && "positionOrder" in AvailableColumns(resultColumns)
    ensures var cols := KeepPresent(LedgerColumns, AvailableColumns(resultColumns));
            && "is_winner" in cols && "positionOrder" in cols && "raceId" in cols
            && ("EventName" in cols <==> "EventName" !in resultColumns)
            && ("Location" in cols <==> "Location" !in resultColumns)
  {
    var available := AvailableColumns(resultColumns);
    assert available[|available| - 1] == "is_winner";
    var k :| 0 <= k < |resultColumns| && resultColumns[k] == "raceId";
    assert available[k] == Rename(Suffixed("raceId", CalendarColumns, "_x")) == "raceId";
    CalendarColumnAvailable(resultColumns, 0);
    CalendarColumnAvailable(resultColumns, 2);
  }

  /** Each ledger column appears once, in the order of the kept list. */
  lemma OutputColumnsOrdered(resultColumns: seq<string>)
    ensures OutputColumns(resultColumns).Success? ==>
              var cols := OutputColumns(resultColumns).value;
              && Distinct(cols)
              && forall i, j :: 0 <= i < j < |cols| ==>
                   Strings.IndexOf(LedgerColumns, cols[i]) < Strings.IndexOf(LedgerColumns, cols[j])
  {
    LedgerColumnsDistinct();
    KeepPresentOrdered(LedgerColumns, AvailableColumns(resultColumns));
  }
}
