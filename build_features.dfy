/**
 * The feature store builder (src/features/build_features.py): the ledger is put in
 * race order, every row gets its driver's and its constructor's statistics as of
 * before that row, the three categorical columns get integer codes, a constant
 * regulation column is added and the remaining gaps are filled with 0.
 */
module BuildFeatures {
  import opened Wrappers
  import Sorting
  import Strings
  import opened ProcessData

  // ------------------------------------------------------------ race order

  /** `sort_values(['year', 'round'])`: by year, then by round. */
  predicate YearRoundLe(a: LedgerRow, b: LedgerRow) {
    a.year < b.year || (a.year == b.year && a.round <= b.round)
  }

  /** Strictly earlier race: an earlier year, or the same year and an earlier round. */
  predicate YearRoundLt(a: LedgerRow, b: LedgerRow) {
    a.year < b.year || (a.year == b.year && a.round < b.round)
  }

  lemma YearRoundTotalPreorder()
    ensures Sorting.TotalPreorder(YearRoundLe)
  {
  }

  /** The ledger in race order; rows of the same race keep their ledger order. */
  function Chronological(df: seq<LedgerRow>): (sorted: seq<LedgerRow>)
    ensures multiset(sorted) == multiset(df)
    ensures Sorting.SortedBy(sorted, YearRoundLe)
  {
    YearRoundTotalPreorder();
    Sorting.SortSorted(df, YearRoundLe);
    Sorting.Sort(df, YearRoundLe)
  }

  // ------------------------------------------------------------ entities

  /** The two grouping keys: `driverId` and `constructorId`. */
  datatype Entity = Driver | Constructor

  function KeyOf(r: LedgerRow, e: Entity): string {
    match e
    case Driver => r.driverId
    case Constructor => r.constructorId
  }

  /** `position_numeric`: the numeric position, or 20 when there is none. */
  function PositionNumeric(r: LedgerRow): real {
    if r.positionOrder.Some? then r.positionOrder.value else 20.0
  }

  /** The value an entity's recent window averages: finishing position for a driver, points for a constructor. */
  function WindowValue(r: LedgerRow, e: Entity): real {
    match e
    case Driver => PositionNumeric(r)
    case Constructor => r.points
  }

  /** The rows of `rows` whose `e`-key is `k`, in order (the group `groupby` forms). */
  function Group(rows: seq<LedgerRow>, k: string, e: Entity): (g: seq<LedgerRow>)
    ensures |g| <= |rows|
  {
    if rows == [] then []
    else
      var last := rows[|rows| - 1];
      Group(rows[..|rows| - 1], k, e) + (if KeyOf(last, e) == k then [last] else [])
  }

  /** Number of winning rows. */
  function Wins(rows: seq<LedgerRow>): (w: nat)
    ensures w <= |rows|
  {
    if rows == [] then 0 else Wins(rows[..|rows| - 1]) + rows[|rows| - 1].isWinner
  }

  function Values(rows: seq<LedgerRow>, e: Entity): (v: seq<real>)
    ensures |v| == |rows|
    ensures forall i :: 0 <= i < |rows| ==> v[i] == WindowValue(rows[i], e)
  {
    seq(|rows|, i requires 0 <= i < |rows| => WindowValue(rows[i], e))
  }

  /** The window of `rolling(window=3)`: the last three values, or all of them when fewer. */
  function LastThree(xs: seq<real>): seq<real> {
    if |xs| <= 3 then xs else xs[|xs| - 3..]
  }

  function Sum(xs: seq<real>): real {
    if xs == [] then 0.0 else Sum(xs[..|xs| - 1]) + xs[|xs| - 1]
  }

  function Mean(xs: seq<real>): real
    requires |xs| > 0
  {
    Sum(xs) / (|xs| as real)
  }

  function MinOf(xs: seq<real>): real
    requires |xs| > 0
  {
    if |xs| == 1 then xs[0] else
      var m := MinOf(xs[..|xs| - 1]);
      if xs[|xs| - 1] < m then xs[|xs| - 1] else m
  }

  function MaxOf(xs: seq<real>): real
    requires |xs| > 0
  {
    if |xs| == 1 then xs[0] else
      var m := MaxOf(xs[..|xs| - 1]);
      if xs[|xs| - 1] > m then xs[|xs| - 1] else m
  }

  // ------------------------------------------------------------ statistics

  /**
   * One row's statistics for one entity: `*_wins_cum`, `*_races_cum`, `*_win_rate`
   * and the recent mean (`driver_recent_form` / `constructor_recent_points`),
   * absent when there is no earlier row to average.
   */
  datatype EntityStats = EntityStats(winsCum: nat, racesCum: nat, winRate: real, recent: Option<real>)

  /** The statistics that a list of earlier rows of one entity determines. */
  function StatsOf(prior: seq<LedgerRow>, e: Entity): EntityStats {
    var races := |prior|;
    var wins := Wins(prior);
    EntityStats(
      wins, races,
      (wins as real) / ((if races == 0 then 1 else races) as real),
      if prior == [] then None else Some(Mean(LastThree(Values(prior, e)))))
  }

  /** The earlier rows of row `i`'s entity: rows before `i` with the same key. */
  function Prior(rows: seq<LedgerRow>, i: nat, e: Entity): seq<LedgerRow>
    requires i < |rows|
  {
    Group(rows[..i], KeyOf(rows[i], e), e)
  }

  /** The statistics the source assigns to row `i` of the sorted table. */
  function StatsAt(rows: seq<LedgerRow>, i: nat, e: Entity): EntityStats
    requires i < |rows|
  {
    StatsOf(Prior(rows, i, e), e)
  }

  // ------------------------------------------------------------ the scan

  /** Running counters kept per entity during the scan. */
  datatype Counter = Counter(races: nat, wins: nat, window: seq<real>)

  const Fresh: Counter := Counter(0, 0, [])

  /** The counters after scanning `prior`. */
  function CounterOf(prior: seq<LedgerRow>, e: Entity): Counter {
    Counter(|prior|, Wins(prior), LastThree(Values(prior, e)))
  }

  function Advance(c: Counter, r: LedgerRow, e: Entity): Counter {
    Counter(c.races + 1, c.wins + r.isWinner, LastThree(c.window + [WindowValue(r, e)]))
  }

  function Snapshot(c: Counter): EntityStats {
    EntityStats(
      c.wins, c.races,
      (c.wins as real) / ((if c.races == 0 then 1 else c.races) as real),
      if c.races == 0 || c.window == [] then None else Some(Mean(c.window)))
  }

  function CounterFor(counters: map<string, Counter>, k: string): Counter {
    if k in counters then counters[k] else Fresh
  }

  lemma AdvanceCounter(prior: seq<LedgerRow>, r: LedgerRow, e: Entity)
    ensures CounterOf(prior + [r], e) == Advance(CounterOf(prior, e), r, e)
  {
    var xs := Values(prior, e);
    var v := WindowValue(r, e);
    assert (prior + [r])[..|prior|] == prior;
    assert Values(prior + [r], e) == xs + [v];
    if |xs| > 3 {
      assert LastThree(xs + [v]) == LastThree(xs[|xs| - 3..] + [v]);
    }
  }

  lemma SnapshotOfCounter(prior: seq<LedgerRow>, e: Entity)
    ensures Snapshot(CounterOf(prior, e)) == StatsOf(prior, e)
  {
  }

  lemma GroupStep(rows: seq<LedgerRow>, i: nat, k: string, e: Entity)
    requires i < |rows|
    ensures Group(rows[..i + 1], k, e) ==
              Group(rows[..i], k, e) + (if KeyOf(rows[i], e) == k then [rows[i]] else [])
  {
    assert rows[..i + 1][..i] == rows[..i];
  }

  /** Advancing the current row's counter keeps every entity's counter in step with its group. */
  lemma ScanStep(rows: seq<LedgerRow>, i: nat, e: Entity, counters: map<string, Counter>)
    requires i < |rows|
    requires forall k :: CounterFor(counters, k) == CounterOf(Group(rows[..i], k, e), e)
    ensures var key := KeyOf(rows[i], e);
            var next := counters[key := Advance(CounterFor(counters, key), rows[i], e)];
            forall k :: CounterFor(next, k) == CounterOf(Group(rows[..i + 1], k, e), e)
  {
    var key := KeyOf(rows[i], e);
    var next := counters[key := Advance(CounterFor(counters, key), rows[i], e)];
    forall k ensures CounterFor(next, k) == CounterOf(Group(rows[..i + 1], k, e), e) {
      GroupStep(rows, i, k, e);
      var g := Group(rows[..i], k, e);
      assert CounterFor(counters, k) == CounterOf(g, e);
      if k == key {
        AdvanceCounter(g, rows[i], e);
        assert Group(rows[..i + 1], k, e) == g + [rows[i]];
      } else {
        assert Group(rows[..i + 1], k, e) == g + [];
        assert g + [] == g;
      }
    }
  }

  /** What the scan has established after its first `i` rows. */
  ghost predicate Scanned(rows: seq<LedgerRow>, i: nat, e: Entity, counters: map<string, Counter>, stats: seq<EntityStats>)
    requires i <= |rows|
  {
    && |stats| == i
    && (forall j :: 0 <= j < i ==> stats[j] == StatsAt(rows, j, e))
    && (forall k :: CounterFor(counters, k) == CounterOf(Group(rows[..i], k, e), e))
  }

  lemma ScanRow(rows: seq<LedgerRow>, i: nat, e: Entity, counters: map<string, Counter>, stats: seq<EntityStats>)
    requires i < |rows| && Scanned(rows, i, e, counters, stats)
    ensures var c := CounterFor(counters, KeyOf(rows[i], e));
            Scanned(rows, i + 1, e, counters[KeyOf(rows[i], e) := Advance(c, rows[i], e)], stats + [Snapshot(c)])
  {
    var key := KeyOf(rows[i], e);
    var c := CounterFor(counters, key);
    StatsStep(rows, i, e, c, stats);
    ScanStep(rows, i, e, counters);
  }

  lemma StatsStep(rows: seq<LedgerRow>, i: nat, e: Entity, c: Counter, stats: seq<EntityStats>)
    requires i < |rows| && |stats| == i
    requires forall j :: 0 <= j < i ==> stats[j] == StatsAt(rows, j, e)
    requires c == CounterOf(Prior(rows, i, e), e)
    ensures forall j :: 0 <= j < i + 1 ==> (stats + [Snapshot(c)])[j] == StatsAt(rows, j, e)
  {
    SnapshotOfCounter(Prior(rows, i, e), e);
    var next := stats + [Snapshot(c)];
    assert forall j :: 0 <= j < i ==> next[j] == stats[j];
  }

  /**
   * The per-row scan of `groupby(key).cumsum()`, `cumcount()` and the shifted
   * rolling mean: one pass over the rows with a map from entity to running
   * counters. Row `i` receives the statistics of exactly the rows before it with
   * the same key.
   */
  method AccumulateStats(rows: seq<LedgerRow>, e: Entity) returns (stats: seq<EntityStats>)
    ensures |stats| == |rows|
    ensures forall i :: 0 <= i < |rows| ==> stats[i] == StatsAt(rows, i, e)
  {
    var counters: map<string, Counter> := map[];
    stats := [];
    var i := 0;
    while i < |rows|
      invariant 0 <= i <= |rows|
      invariant Scanned(rows, i, e, counters, stats)
    {
      var key := KeyOf(rows[i], e);
      var c := CounterFor(counters, key);
      ScanRow(rows, i, e, counters, stats);
      stats := stats + [Snapshot(c)];
      counters := counters[key := Advance(c, rows[i], e)];
      i := i + 1;
    }
  }

  // ------------------------------------------------------------ properties

  /** Win rate: wins never exceed races, and the rate lies in [0, 1]. */
  lemma WinRateBounded(rows: seq<LedgerRow>, i: nat, e: Entity)
    requires i < |rows|
    ensures StatsAt(rows, i, e).winsCum <= StatsAt(rows, i, e).racesCum
    ensures 0.0 <= StatsAt(rows, i, e).winRate <= 1.0
  {
    var prior := Prior(rows, i, e);
    RatioInUnitInterval(Wins(prior), |prior|);
  }

  lemma RatioInUnitInterval(w: nat, n: nat)
    requires w <= n
    ensures 0.0 <= (w as real) / ((if n == 0 then 1 else n) as real) <= 1.0
  {
    var d := (if n == 0 then 1 else n) as real;
    var q := (w as real) / d;
    assert q * d == w as real;
    assert (w as real) <= d;
  }

  lemma {:induction false} GroupEmpty(rows: seq<LedgerRow>, k: string, e: Entity)
    ensures Group(rows, k, e) == [] <==> forall j :: 0 <= j < |rows| ==> KeyOf(rows[j], e) != k
  {
    if rows != [] {
      var n := |rows| - 1;
      GroupEmpty(rows[..n], k, e);
      assert forall j :: 0 <= j < n ==> rows[..n][j] == rows[j];
    }
  }

  /**
   * A first appearance (no earlier row with the same key) has no races, no wins,
   * win rate 0 and no recent value; any other row has a recent value.
   */
  lemma FirstAppearance(rows: seq<LedgerRow>, i: nat, e: Entity)
    requires i < |rows|
    ensures var s := StatsAt(rows, i, e);
            (s.racesCum == 0 <==> forall j :: 0 <= j < i ==> KeyOf(rows[j], e) != KeyOf(rows[i], e))
            && (s.racesCum == 0 ==> s.winsCum == 0 && s.winRate == 0.0 && s.recent.None?)
            && (s.racesCum > 0 ==> s.recent.Some?)
  {
    GroupEmpty(rows[..i], KeyOf(rows[i], e), e);
    assert forall j :: 0 <= j < i ==> rows[..i][j] == rows[j];
  }

  /** Indices of `rows` whose `e`-key is `k`. */
  ghost function KeyIndices(rows: seq<LedgerRow>, k: string, e: Entity): set<int> {
    set j | 0 <= j < |rows| && KeyOf(rows[j], e) == k
  }

  lemma {:induction false} GroupCountsKeyIndices(rows: seq<LedgerRow>, k: string, e: Entity)
    ensures |Group(rows, k, e)| == |KeyIndices(rows, k, e)|
  {
    if rows != [] {
      var n := |rows| - 1;
      GroupCountsKeyIndices(rows[..n], k, e);
      var before := KeyIndices(rows[..n], k, e);
      if KeyOf(rows[n], e) == k {
        assert KeyIndices(rows, k, e) == before + {n};
      } else {
        assert KeyIndices(rows, k, e) == before;
      }
    }
  }

  /** Same race: equal year and equal round. */
  predicate SameRace(a: LedgerRow, b: LedgerRow) {
    a.year == b.year && a.round == b.round
  }

  /** Rows of the same entity from strictly earlier races. */
  ghost function EarlierRaces(rows: seq<LedgerRow>, i: nat, e: Entity): set<int>
    requires i < |rows|
  {
    set j | 0 <= j < |rows| && KeyOf(rows[j], e) == KeyOf(rows[i], e) && YearRoundLt(rows[j], rows[i])
  }

  /** Rows of the same entity from the same race that sort ahead of row `i`. */
  ghost function SameRaceAhead(rows: seq<LedgerRow>, i: nat, e: Entity): set<int>
    requires i < |rows|
  {
    set j | 0 <= j < i && KeyOf(rows[j], e) == KeyOf(rows[i], e) && SameRace(rows[j], rows[i])
  }

  /**
   * Causality in race order: on the sorted table, a row's race count is the number
   * of its entity's rows from strictly earlier races, plus the rows of the same
   * entity in the same race that sort ahead of it (a teammate's row, for a
   * constructor). No row from a later race is ever counted.
   */
  lemma RacesCumByRaceOrder(rows: seq<LedgerRow>, i: nat, e: Entity)
    requires i < |rows| && Sorting.SortedBy(rows, YearRoundLe)
    ensures StatsAt(rows, i, e).racesCum == |EarlierRaces(rows, i, e)| + |SameRaceAhead(rows, i, e)|
    ensures forall r :: r in Prior(rows, i, e) ==> YearRoundLe(r, rows[i])
  {
    var k := KeyOf(rows[i], e);
    GroupCountsKeyIndices(rows[..i], k, e);
    var counted := KeyIndices(rows[..i], k, e);
    var earlier, ahead := EarlierRaces(rows, i, e), SameRaceAhead(rows, i, e);
    forall j | j in earlier ensures j in counted {
      assert i <= j ==> YearRoundLe(rows[i], rows[j]);
      assert rows[..i][j] == rows[j];
    }
    forall j | j in counted ensures j in earlier + ahead {
      assert rows[..i][j] == rows[j];
      assert YearRoundLe(rows[j], rows[i]);
    }
    assert counted == earlier + ahead;
    assert earlier !! ahead;
    GroupMembers(rows[..i], k, e);
    forall r | r in Prior(rows, i, e) ensures YearRoundLe(r, rows[i]) {
      var j :| 0 <= j < i && rows[..i][j] == r;
      assert rows[j] == r;
    }
  }

  lemma {:induction false} GroupMembers(rows: seq<LedgerRow>, k: string, e: Entity)
    ensures forall r :: r in Group(rows, k, e) ==> r in rows && KeyOf(r, e) == k
  {
    if rows != [] {
      var n := |rows| - 1;
      GroupMembers(rows[..n], k, e);
      assert forall r :: r in rows[..n] ==> r in rows;
    }
  }

  /**
   * For drivers, who have one row per race: the race count is exactly the number of
   * the driver's rows from strictly earlier races.
   */
  lemma DriverRacesCumIsEarlierRaces(rows: seq<LedgerRow>, i: nat)
    requires i < |rows| && Sorting.SortedBy(rows, YearRoundLe)
    requires forall a, b :: 0 <= a < b < |rows| && rows[a].driverId == rows[b].driverId ==> !SameRace(rows[a], rows[b])
    ensures StatsAt(rows, i, Driver).racesCum == |EarlierRaces(rows, i, Driver)|
  {
    RacesCumByRaceOrder(rows, i, Driver);
    assert SameRaceAhead(rows, i, Driver) == {};
  }

  lemma {:induction false} GroupAppend(a: seq<LedgerRow>, b: seq<LedgerRow>, k: string, e: Entity)
    ensures Group(a + b, k, e) == Group(a, k, e) + Group(b, k, e)
    decreases |b|
  {
    if b != [] {
      var n := |b| - 1;
      GroupAppend(a, b[..n], k, e);
      assert (a + b)[..|a + b| - 1] == a + b[..n];
    } else {
      assert a + b == a;
    }
  }

  lemma {:induction false} GroupIdempotent(rows: seq<LedgerRow>, k: string, e: Entity)
    ensures Group(Group(rows, k, e), k, e) == Group(rows, k, e)
  {
    if rows != [] {
      var n := |rows| - 1;
      var tail := if KeyOf(rows[n], e) == k then [rows[n]] else [];
      GroupIdempotent(rows[..n], k, e);
      GroupAppend(Group(rows[..n], k, e), tail, k, e);
      if tail != [] {
        assert Group(tail, k, e) == Group([], k, e) + tail;
      }
    }
  }

  /**
   * Other entities' rows have no effect: row `i`'s statistics equal those the same
   * row gets in the table that holds only its own entity's rows.
   */
  lemma StatsIgnoreOtherEntities(rows: seq<LedgerRow>, i: nat, e: Entity)
    requires i < |rows|
    ensures var own := Group(rows, KeyOf(rows[i], e), e);
            var m := |Prior(rows, i, e)|;
            m < |own| && own[m] == rows[i] && StatsAt(own, m, e) == StatsAt(rows, i, e)
  {
    var k := KeyOf(rows[i], e);
    var own := Group(rows, k, e);
    var before := Prior(rows, i, e);
    var m := |before|;
    GroupSplitAt(rows, i, e);
    assert own[..m] == before;
    GroupIdempotent(rows[..i], k, e);
  }

  /** The group of row `i`'s key is its prior rows, row `i`, then its later rows. */
  lemma GroupSplitAt(rows: seq<LedgerRow>, i: nat, e: Entity)
    requires i < |rows|
    ensures var k := KeyOf(rows[i], e);
            Group(rows, k, e) == Prior(rows, i, e) + [rows[i]] + Group(rows[i + 1..], k, e)
  {
    var k := KeyOf(rows[i], e);
    var before, after := rows[..i], rows[i + 1..];
    var tail := [rows[i]] + after;
    assert rows == before + tail;
    GroupAppend(before, tail, k, e);
    GroupAppend([rows[i]], after, k, e);
    assert Group([rows[i]], k, e) == [rows[i]] by {
      assert [rows[i]][..0] == [];
    }
    assert Group(rows, k, e) == Group(before, k, e) + ([rows[i]] + Group(after, k, e));
  }

  lemma {:induction false} MinMaxBound(xs: seq<real>)
    requires |xs| > 0
    ensures forall x :: x in xs ==> MinOf(xs) <= x <= MaxOf(xs)
  {
    if |xs| > 1 {
      var n := |xs| - 1;
      MinMaxBound(xs[..n]);
      assert xs == xs[..n] + [xs[n]];
    }
  }

  lemma {:induction false} SumBounds(xs: seq<real>, lo: real, hi: real)
    requires forall x :: x in xs ==> lo <= x <= hi
    ensures (|xs| as real) * lo <= Sum(xs) <= (|xs| as real) * hi
  {
    if xs != [] {
      var n := |xs| - 1;
      assert forall x :: x in xs[..n] ==> x in xs;
      SumBounds(xs[..n], lo, hi);
      assert xs[n] in xs;
    }
  }

  /** A mean lies between the smallest and the largest averaged value. */
  lemma MeanBetween(xs: seq<real>)
    requires |xs| > 0
    ensures MinOf(xs) <= Mean(xs) <= MaxOf(xs)
  {
    MinMaxBound(xs);
    SumBounds(xs, MinOf(xs), MaxOf(xs));
    var n := |xs| as real;
    assert Mean(xs) * n == Sum(xs);
  }

  /**
   * The recent value averages the one to three values of the entity's rows just
   * before row `i` (never row `i` itself) and lies between their minimum and maximum.
   */
  lemma RecentWindow(rows: seq<LedgerRow>, i: nat, e: Entity)
    requires i < |rows|
    ensures var prior := Prior(rows, i, e);
            var s := StatsAt(rows, i, e);
            (s.recent.None? <==> prior == [])
            && (s.recent.Some? ==>
                  var w := LastThree(Values(prior, e));
                  && 1 <= |w| <= 3
                  && w == Values(prior, e)[|prior| - |w|..]
                  && MinOf(w) <= s.recent.value <= MaxOf(w))
  {
    var prior := Prior(rows, i, e);
    if prior != [] {
      MeanBetween(LastThree(Values(prior, e)));
    }
  }

  /**
   * A driver whose only earlier row is a win from first place arrives at the next
   * race with one race, one win, win rate 1 and recent form 1.
   */
  lemma OnePriorWin(a: LedgerRow, b: LedgerRow)
    requires a.driverId == b.driverId && a.positionOrder == Some(1.0) && a.isWinner == 1
    ensures StatsAt([a, b], 1, Driver) == EntityStats(1, 1, 1.0, Some(1.0))
  {
    assert [a, b][..1] == [a];
    assert Group([a], b.driverId, Driver) == Group([], b.driverId, Driver) + [a];
    SingleRowStats(a, Driver);
  }

  lemma SingleRowStats(a: LedgerRow, e: Entity)
    ensures StatsOf([a], e) == EntityStats(a.isWinner, 1, a.isWinner as real, Some(WindowValue(a, e)))
  {
    var v := WindowValue(a, e);
    assert [a][..0] == [];
    assert Wins([a]) == a.isWinner;
    assert Values([a], e) == [v];
    assert LastThree([v]) == [v];
    assert [v][..0] == [];
    assert Sum([v]) == v;
    assert Mean([v]) == v;
  }

  /**
   * Grouping is per row, not per race: of two rows of one constructor in one race,
   * the second counts the first as an earlier race and carries its win.
   */
  lemma TeammateCounted(a: LedgerRow, b: LedgerRow)
    requires a.constructorId == b.constructorId && SameRace(a, b)
    ensures Chronological([a, b]) == [a, b]
    ensures StatsAt([a, b], 1, Constructor).racesCum == 1
    ensures StatsAt([a, b], 1, Constructor).winsCum == a.isWinner
  {
    Sorting.SortOfSorted([a, b], YearRoundLe);
    assert [a, b][..1] == [a];
    assert Group([a], b.constructorId, Constructor) == Group([], b.constructorId, Constructor) + [a];
    assert Wins([a]) == Wins([]) + a.isWinner;
  }

  // ------------------------------------------------------------ metric stages

  /** A ledger row with the columns `calculate_driver_metrics` adds. */
  datatype DriverMetricRow = DriverMetricRow(base: LedgerRow, driver: EntityStats, positionNumeric: real)

  /** A ledger row with the columns both metric stages add. */
  datatype MetricRow = MetricRow(base: LedgerRow, driver: EntityStats, positionNumeric: real, team: EntityStats)

  /**
   * `calculate_driver_metrics`: the ledger in race order, each row with its driver
   * statistics over the rows ahead of it in that order.
   */
  function DriverMetrics(df: seq<LedgerRow>): (out: seq<DriverMetricRow>)
    ensures |out| == |df|
    ensures multiset(Bases(out)) == multiset(df)
    ensures Sorting.SortedBy(Bases(out), YearRoundLe)
    ensures forall i :: 0 <= i < |out| ==>
              out[i].driver == StatsAt(Bases(out), i, Driver) && out[i].positionNumeric == PositionNumeric(out[i].base)
  {
    var rows := Chronological(df);
    var out := seq(|rows|, i requires 0 <= i < |rows| =>
      DriverMetricRow(rows[i], StatsAt(rows, i, Driver), PositionNumeric(rows[i])));
    assert Bases(out) == rows;
    out
  }

  /** The race order of the second stage, on rows that already carry driver metrics. */
  predicate DriverRowLe(a: DriverMetricRow, b: DriverMetricRow) {
    YearRoundLe(a.base, b.base)
  }

  lemma DriverRowTotalPreorder()
    ensures Sorting.TotalPreorder(DriverRowLe)
  {
  }

  function Bases(rows: seq<DriverMetricRow>): (bases: seq<LedgerRow>)
    ensures |bases| == |rows|
    ensures forall i :: 0 <= i < |rows| ==> bases[i] == rows[i].base
  {
    seq(|rows|, i requires 0 <= i < |rows| => rows[i].base)
  }

  /** The driver-stage columns of a row that carries both stages' columns. */
  function DriverPart(m: MetricRow): DriverMetricRow {
    DriverMetricRow(m.base, m.driver, m.positionNumeric)
  }

  function DriverParts(rows: seq<MetricRow>): (parts: seq<DriverMetricRow>)
    ensures |parts| == |rows|
    ensures forall i :: 0 <= i < |rows| ==> parts[i] == DriverPart(rows[i])
  {
    seq(|rows|, i requires 0 <= i < |rows| => DriverPart(rows[i]))
  }

  /**
   * `calculate_constructor_metrics`: sorts again by race, keeps the driver-stage
   * columns, and adds the constructor statistics over the rows ahead in that order.
   */
  function ConstructorMetrics(df: seq<DriverMetricRow>): (out: seq<MetricRow>)
    ensures |out| == |df|
    ensures multiset(DriverParts(out)) == multiset(df)
    ensures Sorting.SortedBy(Bases(DriverParts(out)), YearRoundLe)
    ensures forall i :: 0 <= i < |out| ==> out[i].team == StatsAt(Bases(DriverParts(out)), i, Constructor)
  {
    var rows := Sorting.Sort(df, DriverRowLe);
    var bases := Bases(rows);
    var out := seq(|rows|, i requires 0 <= i < |rows| =>
      MetricRow(rows[i].base, rows[i].driver, rows[i].positionNumeric, StatsAt(bases, i, Constructor)));
    DriverRowTotalPreorder();
    Sorting.SortSorted(df, DriverRowLe);
    assert DriverParts(out) == rows;
    assert Bases(DriverParts(out)) == bases;
    out
  }

  /** The first stage leaves the rows in race order, so the second stage's sort changes nothing. */
  lemma SecondSortKeepsOrder(df: seq<LedgerRow>)
    ensures Sorting.Sort(DriverMetrics(df), DriverRowLe) == DriverMetrics(df)
    ensures Bases(DriverMetrics(df)) == Chronological(df)
  {
    var out := DriverMetrics(df);
    var rows := Chronological(df);
    assert forall i, j :: 0 <= i < j < |out| ==> YearRoundLe(rows[i], rows[j]);
    assert Sorting.SortedBy(out, DriverRowLe);
    DriverRowTotalPreorder();
    Sorting.SortOfSorted(out, DriverRowLe);
  }

  /** `calculate_driver_metrics` with the statistics taken from the scan. */
  method CalculateDriverMetrics(df: seq<LedgerRow>) returns (out: seq<DriverMetricRow>)
    ensures out == DriverMetrics(df)
  {
    var rows := Chronological(df);
    var stats := AccumulateStats(rows, Driver);
    out := seq(|rows|, i requires 0 <= i < |rows| => DriverMetricRow(rows[i], stats[i], PositionNumeric(rows[i])));
  }

  /** `calculate_constructor_metrics` with the statistics taken from the scan. */
  method CalculateConstructorMetrics(df: seq<DriverMetricRow>) returns (out: seq<MetricRow>)
    ensures out == ConstructorMetrics(df)
  {
    var rows := Sorting.Sort(df, DriverRowLe);
    var stats := AccumulateStats(Bases(rows), Constructor);
    out := seq(|rows|, i requires 0 <= i < |rows| =>
      MetricRow(rows[i].base, rows[i].driver, rows[i].positionNumeric, stats[i]));
  }

  // ------------------------------------------------------------ categorical codes

  /** The present values of a column, in column order. */
  function Present(col: seq<Option<string>>): (vals: seq<string>)
    ensures forall v :: v in vals <==> Some(v) in col
  {
    if col == [] then []
    else
      assert forall x :: x in col <==> x == col[0] || x in col[1..];
      (if col[0].Some? then [col[0].value] else []) + Present(col[1..])
  }

  /** The categories `astype('category')` forms: the distinct present values, ascending. */
  function Categories(col: seq<Option<string>>): (cats: seq<string>)
    ensures Strings.StrictlyAscending(cats)
    ensures forall v :: v in cats <==> Some(v) in col
  {
    Strings.SortedUnique(Present(col))
  }

  /** `cat.codes` for one cell: the value's index among the categories, -1 when missing. */
  function CodeOf(cats: seq<string>, v: Option<string>): int {
    if v.None? then -1 else Strings.IndexOf(cats, v.value)
  }

  /** The codes of a whole column. */
  function Codes(col: seq<Option<string>>): (codes: seq<int>)
    ensures |codes| == |col|
    ensures forall i :: 0 <= i < |col| ==> (codes[i] == -1 <==> col[i].None?)
    ensures forall i :: 0 <= i < |col| && col[i].Some? ==>
              0 <= codes[i] < |Categories(col)| && Categories(col)[codes[i]] == col[i].value
  {
    var cats := Categories(col);
    seq(|col|, i requires 0 <= i < |col| => CodeOf(cats, col[i]))
  }

  /**
   * Codes are injective and order-preserving on present values: two cells get the
   * same code exactly when they hold the same value, and a smaller code exactly
   * when they hold a smaller string.
   */
  lemma CodesFaithful(col: seq<Option<string>>, i: nat, j: nat)
    requires i < |col| && j < |col| && col[i].Some? && col[j].Some?
    ensures Codes(col)[i] == Codes(col)[j] <==> col[i] == col[j]
    ensures Codes(col)[i] < Codes(col)[j] <==> Strings.Less(col[i].value, col[j].value)
  {
    var codes, cats := Codes(col), Categories(col);
    var a, b := col[i].value, col[j].value;
    Strings.LessAsymmetric(a, b);
    Strings.LessIrreflexive(a);
    assert codes[j] < codes[i] ==> Strings.Less(b, a);
    assert codes[i] < codes[j] ==> Strings.Less(a, b);
  }

  /** Every code in [0, n) is the code of some cell: the categories are exactly the column's values. */
  lemma CodesDense(col: seq<Option<string>>, c: nat)
    requires c < |Categories(col)|
    ensures exists i :: 0 <= i < |col| && Codes(col)[i] == c
  {
    var cats := Categories(col);
    assert cats[c] in cats;
    var i :| 0 <= i < |col| && col[i] == Some(cats[c]);
    assert Codes(col)[i] == c by {
      assert Categories(col)[Codes(col)[i]] == cats[c];
      assert Strings.StrictlyAscending(cats);
      Strings.LessIrreflexive(cats[c]);
      assert forall p, q :: 0 <= p < q < |cats| ==> cats[p] != cats[q] by {
        forall p, q | 0 <= p < q < |cats| ensures cats[p] != cats[q] {
          Strings.LessIrreflexive(cats[p]);
        }
      }
    }
  }

  /** A ledger row with its three codes. */
  datatype EncodedRow = EncodedRow(metrics: MetricRow, locationId: int, constructorIdEnc: int, driverIdEnc: int)

  function LocationColumn(df: seq<MetricRow>): seq<Option<string>> {
    seq(|df|, i requires 0 <= i < |df| => df[i].base.location)
  }

  function ConstructorColumn(df: seq<MetricRow>): seq<Option<string>> {
    seq(|df|, i requires 0 <= i < |df| => Some(df[i].base.constructorId))
  }

  function DriverColumn(df: seq<MetricRow>): seq<Option<string>> {
    seq(|df|, i requires 0 <= i < |df| => Some(df[i].base.driverId))
  }

  /**
   * `encode_categorical`: every row keeps its columns and gains `location_id`,
   * `constructor_id_enc` and `driver_id_enc`, the codes of its Location,
   * constructorId and driverId within their columns.
   */
  function EncodeCategorical(df: seq<MetricRow>): (out: seq<EncodedRow>)
    ensures |out| == |df|
    ensures forall i :: 0 <= i < |df| ==> out[i].metrics == df[i]
    ensures forall i :: 0 <= i < |df| ==>
              && out[i].locationId == Codes(LocationColumn(df))[i]
              && out[i].constructorIdEnc == Codes(ConstructorColumn(df))[i]
              && out[i].driverIdEnc == Codes(DriverColumn(df))[i]
  {
    var loc, con, drv := Codes(LocationColumn(df)), Codes(ConstructorColumn(df)), Codes(DriverColumn(df));
    seq(|df|, i requires 0 <= i < |df| => EncodedRow(df[i], loc[i], con[i], drv[i]))
  }

  // ------------------------------------------------------------ regulation column and gaps

  /** A row with the `regulation_change` column. */
  datatype FeatureRow = FeatureRow(encoded: EncodedRow, regulationChange: int)

  /** `add_2026_regulation_dummy`: every row unchanged, plus `regulation_change` = 0. */
  function AddRegulationDummy(df: seq<EncodedRow>): (out: seq<FeatureRow>)
    ensures |out| == |df|
    ensures forall i :: 0 <= i < |df| ==> out[i].encoded == df[i] && out[i].regulationChange == 0
  {
    seq(|df|, i requires 0 <= i < |df| => FeatureRow(df[i], 0))
  }

  /**
   * What a text cell filled by `fillna(0)` reads back as once the table has been
   * written and loaded again.
   */
  const MissingText: string := "0"

  /**
   * One row of the stored feature table (`final_features.csv`), every cell present:
   * the ledger columns, the metric columns, the codes and the regulation column.
   */
  datatype StoreRow = StoreRow(
    raceId: string, year: int, round: int, driverId: string, constructorId: string,
    grid: real, positionOrder: real, points: real, isWinner: Flag,
    eventName: string, location: string,
    driverWinsCum: nat, driverRacesCum: nat, driverWinRate: real,
    positionNumeric: real, driverRecentForm: real,
    constructorWinsCum: nat, constructorRacesCum: nat, constructorWinRate: real,
    constructorRecentPoints: real,
    locationId: int, constructorIdEnc: int, driverIdEnc: int, regulationChange: int)

  function FillReal(v: Option<real>): real {
    if v.Some? then v.value else 0.0
  }

  function FillText(v: Option<string>): string {
    if v.Some? then v.value else MissingText
  }

  /** `fillna(0)` on one row. */
  function Fill(r: FeatureRow): StoreRow {
    var m := r.encoded.metrics;
    var b := m.base;
    StoreRow(
      b.raceId, b.year, b.round, b.driverId, b.constructorId,
      b.grid, FillReal(b.positionOrder), b.points, b.isWinner,
      FillText(b.eventName), FillText(b.location),
      m.driver.winsCum, m.driver.racesCum, m.driver.winRate,
      m.positionNumeric, FillReal(m.driver.recent),
      m.team.winsCum, m.team.racesCum, m.team.winRate,
      FillReal(m.team.recent),
      r.encoded.locationId, r.encoded.constructorIdEnc, r.encoded.driverIdEnc, r.regulationChange)
  }

  /** `fillna(0)` on the table. */
  function FillMissing(df: seq<FeatureRow>): (store: seq<StoreRow>)
    ensures |store| == |df|
    ensures forall i :: 0 <= i < |df| ==> store[i] == Fill(df[i])
  {
    seq(|df|, i requires 0 <= i < |df| => Fill(df[i]))
  }

  /** Filling changes only missing cells: present values are kept, missing ones become 0. */
  lemma FillKeepsPresentValues(r: FeatureRow)
    ensures var b := r.encoded.metrics.base;
            var s := Fill(r);
            && (b.positionOrder.Some? ==> s.positionOrder == b.positionOrder.value)
            && (b.positionOrder.None? ==> s.positionOrder == 0.0)
            && (b.location.Some? ==> s.location == b.location.value)
            && (b.location.None? ==> s.location == MissingText)
            && (b.eventName.Some? ==> s.eventName == b.eventName.value)
            && (b.eventName.None? ==> s.eventName == MissingText)
            && s.raceId == b.raceId && s.year == b.year && s.round == b.round
            && s.driverId == b.driverId && s.constructorId == b.constructorId
            && s.grid == b.grid && s.points == b.points && s.isWinner == b.isWinner
    ensures var m := r.encoded.metrics;
            var s := Fill(r);
            && (m.driver.recent.Some? ==> s.driverRecentForm == m.driver.recent.value)
            && (m.driver.recent.None? ==> s.driverRecentForm == 0.0)
            && (m.team.recent.Some? ==> s.constructorRecentPoints == m.team.recent.value)
            && (m.team.recent.None? ==> s.constructorRecentPoints == 0.0)
            && s.driverWinsCum == m.driver.winsCum && s.driverRacesCum == m.driver.racesCum
            && s.driverWinRate == m.driver.winRate && s.positionNumeric == m.positionNumeric
            && s.constructorWinsCum == m.team.winsCum && s.constructorRacesCum == m.team.racesCum
            && s.constructorWinRate == m.team.winRate
    ensures var s := Fill(r);
            && s.locationId == r.encoded.locationId && s.constructorIdEnc == r.encoded.constructorIdEnc
            && s.driverIdEnc == r.encoded.driverIdEnc && s.regulationChange == r.regulationChange
  {
  }

  /** The feature table the builder writes for a ledger. */
  function FeatureStoreOf(ledger: seq<LedgerRow>): (store: seq<StoreRow>)
    ensures |store| == |ledger|
  {
    FillMissing(AddRegulationDummy(EncodeCategorical(ConstructorMetrics(DriverMetrics(ledger)))))
  }

  /** The builder's main sequence: metrics, codes, regulation column, gaps filled. */
  method BuildFeatureStore(ledger: seq<LedgerRow>) returns (store: seq<StoreRow>)
    ensures store == FeatureStoreOf(ledger)
  {
    var df := CalculateDriverMetrics(ledger);
    var metrics := CalculateConstructorMetrics(df);
    var encoded := EncodeCategorical(metrics);
    var regulated := AddRegulationDummy(encoded);
    store := FillMissing(regulated);
  }

  // ------------------------------------------------------------ the stored table

  /**
   * Each stored row is the ledger row at the same place in race order, carrying
   * that row's driver and constructor statistics, with a missing recent value
   * filled with 0.
   */
  lemma StoreRowMeaning(ledger: seq<LedgerRow>, i: nat)
    requires i < |ledger|
    ensures var rows := Chronological(ledger);
            var r := FeatureStoreOf(ledger)[i];
            var d := StatsAt(rows, i, Driver);
            var c := StatsAt(rows, i, Constructor);
            && r.driverId == rows[i].driverId && r.constructorId == rows[i].constructorId
            && r.raceId == rows[i].raceId && r.year == rows[i].year && r.round == rows[i].round
            && r.grid == rows[i].grid && r.points == rows[i].points && r.isWinner == rows[i].isWinner
            && r.positionOrder == FillReal(rows[i].positionOrder)
            && r.eventName == FillText(rows[i].eventName) && r.location == FillText(rows[i].location)
            && r.driverWinsCum == d.winsCum && r.driverRacesCum == d.racesCum && r.driverWinRate == d.winRate
            && r.positionNumeric == PositionNumeric(rows[i]) && r.driverRecentForm == FillReal(d.recent)
            && r.constructorWinsCum == c.winsCum && r.constructorRacesCum == c.racesCum
            && r.constructorWinRate == c.winRate && r.constructorRecentPoints == FillReal(c.recent)
            && r.regulationChange == 0
  {
    SecondSortKeepsOrder(ledger);
  }

  /**
   * A driver's first row in the stored table has no races, win rate 0 and, after
   * the gap filling, recent form 0.
   */
  lemma StoreFirstAppearance(ledger: seq<LedgerRow>, i: nat)
    requires i < |ledger|
    requires var rows := Chronological(ledger);
             forall j :: 0 <= j < i ==> rows[j].driverId != rows[i].driverId
    ensures var r := FeatureStoreOf(ledger)[i];
            r.driverRacesCum == 0 && r.driverWinRate == 0.0 && r.driverRecentForm == 0.0
  {
    StoreRowMeaning(ledger, i);
    FirstAppearance(Chronological(ledger), i, Driver);
  }

  /** The three text columns the codes are taken from. */
  datatype TextColumn = LocationText | DriverText | ConstructorText

  function TextOf(r: StoreRow, c: TextColumn): string {
    match c
    case LocationText => r.location
    case DriverText => r.driverId
    case ConstructorText => r.constructorId
  }

  function CodeIn(r: StoreRow, c: TextColumn): int {
    match c
    case LocationText => r.locationId
    case DriverText => r.driverIdEnc
    case ConstructorText => r.constructorIdEnc
  }

  function ColumnValues(store: seq<StoreRow>, c: TextColumn): (vals: seq<string>)
    ensures |vals| == |store|
    ensures forall i :: 0 <= i < |store| ==> vals[i] == TextOf(store[i], c)
  {
    seq(|store|, i requires 0 <= i < |store| => TextOf(store[i], c))
  }

  /** The metric rows the stored table is built from, and how they line up with it. */
  lemma StoreFromMetrics(ledger: seq<LedgerRow>)
    ensures var metrics := ConstructorMetrics(DriverMetrics(ledger));
            var store := FeatureStoreOf(ledger);
            && |metrics| == |store|
            && (forall i :: 0 <= i < |store| ==> metrics[i].base == Chronological(ledger)[i])
            && (forall i :: 0 <= i < |store| ==>
                  store[i].driverId == metrics[i].base.driverId
                  && store[i].constructorId == metrics[i].base.constructorId
                  && store[i].location == FillText(metrics[i].base.location)
                  && store[i].driverIdEnc == Codes(DriverColumn(metrics))[i]
                  && store[i].constructorIdEnc == Codes(ConstructorColumn(metrics))[i]
                  && store[i].locationId == Codes(LocationColumn(metrics))[i])
  {
    var df := DriverMetrics(ledger);
    var metrics := ConstructorMetrics(df);
    var encoded := EncodeCategorical(metrics);
    var regulated := AddRegulationDummy(encoded);
    var store := FillMissing(regulated);
    assert store == FeatureStoreOf(ledger);
    SecondSortKeepsOrder(ledger);
    var sorted := Sorting.Sort(df, DriverRowLe);
    assert sorted == df;
    forall i | 0 <= i < |store| ensures metrics[i].base == Chronological(ledger)[i] {
      assert metrics[i].base == sorted[i].base;
      assert Bases(df)[i] == df[i].base;
    }
    forall i | 0 <= i < |store|
      ensures store[i].driverIdEnc == Codes(DriverColumn(metrics))[i]
      ensures store[i].constructorIdEnc == Codes(ConstructorColumn(metrics))[i]
      ensures store[i].locationId == Codes(LocationColumn(metrics))[i]
    {
      assert store[i] == Fill(regulated[i]);
      assert regulated[i].encoded == encoded[i];
    }
  }

  /**
   * `driver_id_enc` and `constructor_id_enc` in the stored table are the index of
   * the row's value in the ascending distinct values of its column.
   */
  lemma StoreCodeIsIndex(ledger: seq<LedgerRow>, i: nat, c: TextColumn)
    requires i < |ledger| && c != LocationText
    ensures var store := FeatureStoreOf(ledger);
            CodeIn(store[i], c) == Strings.IndexOf(Strings.SortedUnique(ColumnValues(store, c)), TextOf(store[i], c))
  {
    var metrics := ConstructorMetrics(DriverMetrics(ledger));
    var store := FeatureStoreOf(ledger);
    StoreFromMetrics(ledger);
    var col := if c == DriverText then DriverColumn(metrics) else ConstructorColumn(metrics);
    var vals := ColumnValues(store, c);
    assert forall j :: 0 <= j < |store| ==> col[j] == Some(vals[j]);
    assert CodeIn(store[i], c) == Codes(col)[i];
    CodeIsIndexInVocabulary(col, vals, i);
  }

  /** On a column without gaps, a code is the value's index in the ascending distinct values. */
  lemma CodeIsIndexInVocabulary(col: seq<Option<string>>, vals: seq<string>, i: nat)
    requires |col| == |vals| && i < |col|
    requires forall j :: 0 <= j < |col| ==> col[j] == Some(vals[j])
    ensures Codes(col)[i] == Strings.IndexOf(Strings.SortedUnique(vals), vals[i])
  {
    var cats := Categories(col);
    var vocab := Strings.SortedUnique(vals);
    forall w ensures w in cats <==> w in vocab {
      if w in cats {
        var j :| 0 <= j < |col| && col[j] == Some(w);
        assert vals[j] == w;
      }
      if w in vocab {
        var j :| 0 <= j < |vals| && vals[j] == w;
        assert col[j] == Some(w);
      }
    }
    Strings.AscendingDeterminedBySet(cats, vocab);
    Strings.IndexOfAscending(cats, Codes(col)[i]);
  }

  /** The Location column of the ledger. */
  function Locations(rows: seq<LedgerRow>): seq<Option<string>> {
    seq(|rows|, j requires 0 <= j < |rows| => rows[j].location)
  }

  /**
   * `location_id` in the stored table: -1 where the calendar had no Location (the
   * stored text is then the fill value), otherwise the index of the Location
   * among the distinct ledger Locations, in ascending order.
   */
  lemma StoreLocationCode(ledger: seq<LedgerRow>, i: nat)
    requires i < |ledger|
    ensures var rows := Chronological(ledger);
            var r := FeatureStoreOf(ledger)[i];
            var locs := Categories(Locations(rows));
            && r.location == FillText(rows[i].location)
            && (rows[i].location.None? ==> r.locationId == -1 && r.location == MissingText)
            && (rows[i].location.Some? ==>
                  0 <= r.locationId && r.locationId == Strings.IndexOf(locs, r.location))
  {
    var rows := Chronological(ledger);
    var metrics := ConstructorMetrics(DriverMetrics(ledger));
    StoreFromMetrics(ledger);
    var col := LocationColumn(metrics);
    assert col == Locations(rows);
    if rows[i].location.Some? {
      Strings.IndexOfAscending(Categories(col), Codes(col)[i]);
    }
  }

  /**
   * Within the stored table a code is a function of its text: two rows with the
   * same driverId, constructorId or (when no real Location is spelled like the
   * fill value) Location carry the same code.
   */
  lemma StoreCodeFunctional(ledger: seq<LedgerRow>, c: TextColumn, i: nat, j: nat)
    requires i < |ledger| && j < |ledger|
    requires c == LocationText ==> forall r :: r in ledger ==> r.location != Some(MissingText)
    requires TextOf(FeatureStoreOf(ledger)[i], c) == TextOf(FeatureStoreOf(ledger)[j], c)
    ensures CodeIn(FeatureStoreOf(ledger)[i], c) == CodeIn(FeatureStoreOf(ledger)[j], c)
  {
    if c == LocationText {
      LocationCodeFunctional(ledger, i, j);
    } else {
      StoreCodeIsIndex(ledger, i, c);
      StoreCodeIsIndex(ledger, j, c);
    }
  }

  lemma LocationCodeFunctional(ledger: seq<LedgerRow>, i: nat, j: nat)
    requires i < |ledger| && j < |ledger|
    requires forall r :: r in ledger ==> r.location != Some(MissingText)
    requires FeatureStoreOf(ledger)[i].location == FeatureStoreOf(ledger)[j].location
    ensures FeatureStoreOf(ledger)[i].locationId == FeatureStoreOf(ledger)[j].locationId
  {
    var rows := Chronological(ledger);
    assert rows[i] in multiset(rows) && rows[j] in multiset(rows);
    StoreLocationCode(ledger, i);
    StoreLocationCode(ledger, j);
    var ri, rj := FeatureStoreOf(ledger)[i], FeatureStoreOf(ledger)[j];
    FilledCodesAgree(rows[i].location, rows[j].location, ri.locationId, rj.locationId, Categories(Locations(rows)));
  }

  lemma FilledCodesAgree(a: Option<string>, b: Option<string>, ca: int, cb: int, locs: seq<string>)
    requires a != Some(MissingText) && b != Some(MissingText) && FillText(a) == FillText(b)
    requires a.None? ==> ca == -1
    requires a.Some? ==> ca == Strings.IndexOf(locs, a.value)
    requires b.None? ==> cb == -1
    requires b.Some? ==> cb == Strings.IndexOf(locs, b.value)
    ensures ca == cb
  {
  }
}
