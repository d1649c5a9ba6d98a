/**
 * Inference (src/pipeline/predict.py): a roster for a new race is turned into one
 * feature vector per entry by looking the driver and the constructor up in the
 * stored feature table, the classifier scores every vector, and the drivers are
 * ranked by their win probability.
 */
module Predict {
  import opened Wrappers
  import Sorting
  import Strings
  import opened BuildFeatures
  import opened ProcessData

  // ------------------------------------------------------------ inputs and outputs

  /** One roster entry of a request: driver, constructor, grid slot and circuit. */
  datatype RosterEntry = RosterEntry(driverId: string, constructorId: string, grid: int, location: string)

  /** The eight model inputs of one roster entry. */
  datatype FeatureVector = FeatureVector(
    grid: real, driverWinRate: real, driverRecentForm: real,
    constructorWinRate: real, constructorRecentPoints: real,
    locationId: int, driverIdEnc: int, constructorIdEnc: int)

  /** The feature columns in the order the classifier was trained on (src/models/train_model.py). */
  const FeatureColumns: seq<string> := [
    "grid", "driver_win_rate", "driver_recent_form",
    "constructor_win_rate", "constructor_recent_points",
    "location_id", "driver_id_enc", "constructor_id_enc"]

  /** The value of the named feature column. */
  function Column(v: FeatureVector, name: string): real
    requires name in FeatureColumns
  {
    if name == "grid" then v.grid
    else if name == "driver_win_rate" then v.driverWinRate
    else if name == "driver_recent_form" then v.driverRecentForm
    else if name == "constructor_win_rate" then v.constructorWinRate
    else if name == "constructor_recent_points" then v.constructorRecentPoints
    else if name == "location_id" then v.locationId as real
    else if name == "driver_id_enc" then v.driverIdEnc as real
    else v.constructorIdEnc as real
  }

  /** `input_df[features]` for one entry: the row the classifier sees, one cell per feature column. */
  function AsRow(v: FeatureVector): (row: seq<real>)
    ensures |row| == |FeatureColumns|
    ensures forall k :: 0 <= k < |row| ==> row[k] == Column(v, FeatureColumns[k])
  {
    [v.grid, v.driverWinRate, v.driverRecentForm, v.constructorWinRate, v.constructorRecentPoints,
     v.locationId as real, v.driverIdEnc as real, v.constructorIdEnc as real]
  }

  /** A probability. */
  type Probability = p: real | 0.0 <= p <= 1.0

  /** The trained classifier: the positive-class probability it gives one feature row. */
  type Classifier = seq<real> -> Probability

  /** One result: a driver and its win probability. */
  datatype Prediction = Prediction(driverId: string, winProbability: Probability)

  /** What a lookup in the roster fails with: the missing column's name. */
  datatype PredictError = KeyError(column: string)

  // ------------------------------------------------------------ latest history row

  /** The year order of `sort_values('year')`. */
  predicate YearLe(a: StoreRow, b: StoreRow) {
    a.year <= b.year
  }

  lemma YearTotalPreorder()
    ensures Sorting.TotalPreorder(YearLe)
  {
  }

  /** Index of the last row whose `c` text is `v`, or -1 when there is none. */
  function LastIndexOf(rows: seq<StoreRow>, c: TextColumn, v: string): (i: int)
    ensures -1 <= i < |rows|
    ensures i >= 0 ==> TextOf(rows[i], c) == v
    ensures forall j :: i < j < |rows| ==> TextOf(rows[j], c) != v
  {
    if rows == [] then -1
    else if TextOf(rows[|rows| - 1], c) == v then |rows| - 1
    else LastIndexOf(rows[..|rows| - 1], c, v)
  }

  /**
   * `history.sort_values('year').groupby(key).last()` for one key: the last row
   * carrying the key once the table is in year order (every cell of the stored
   * table is present, so the last present value of each column is that row's).
   */
  function LatestRow(history: seq<StoreRow>, c: TextColumn, k: string): (latest: Option<StoreRow>)
    ensures latest.Some? ==> latest.value in history && TextOf(latest.value, c) == k
  {
    var byYear := Sorting.Sort(history, YearLe);
    var i := LastIndexOf(byYear, c, k);
    if i < 0 then None
    else
      assert byYear[i] in multiset(history);
      Some(byYear[i])
  }

  /**
   * The latest row exists exactly when the key occurs in the history; it is a
   * history row with that key, from the key's latest year.
   */
  lemma LatestRowIsFromMaxYear(history: seq<StoreRow>, c: TextColumn, k: string)
    ensures LatestRow(history, c, k).None? <==> k !in ColumnValues(history, c)
    ensures LatestRow(history, c, k).Some? ==>
              var r := LatestRow(history, c, k).value;
              && r in history && TextOf(r, c) == k
              && forall q :: q in history && TextOf(q, c) == k ==> q.year <= r.year
  {
    var byYear := Sorting.Sort(history, YearLe);
    YearTotalPreorder();
    Sorting.SortSorted(history, YearLe);
    var i := LastIndexOf(byYear, c, k);
    SameRowsSameKeys(history, byYear, c, k);
    if i >= 0 {
      assert byYear[i] in multiset(history);
      LastIndexHasMaxYear(byYear, c, k);
      forall q | q in history && TextOf(q, c) == k ensures q.year <= byYear[i].year {
        assert q in multiset(byYear);
      }
    }
  }

  /** Two orderings of the same rows carry a key in the same way. */
  lemma SameRowsSameKeys(a: seq<StoreRow>, b: seq<StoreRow>, c: TextColumn, k: string)
    requires multiset(a) == multiset(b)
    ensures k in ColumnValues(a, c) <==> LastIndexOf(b, c, k) >= 0
  {
    var i := LastIndexOf(b, c, k);
    if k in ColumnValues(a, c) {
      var j :| 0 <= j < |a| && ColumnValues(a, c)[j] == k;
      assert a[j] in multiset(b);
    }
    if i >= 0 {
      assert b[i] in multiset(a);
      var j :| 0 <= j < |a| && a[j] == b[i];
      assert ColumnValues(a, c)[j] == k;
    }
  }

  /** In year order, the last row with a key has the largest year among the key's rows. */
  lemma LastIndexHasMaxYear(s: seq<StoreRow>, c: TextColumn, k: string)
    requires Sorting.SortedBy(s, YearLe) && LastIndexOf(s, c, k) >= 0
    ensures forall q :: q in s && TextOf(q, c) == k ==> q.year <= s[LastIndexOf(s, c, k)].year
  {
    var i := LastIndexOf(s, c, k);
    forall q | q in s && TextOf(q, c) == k ensures q.year <= s[i].year {
      var j :| 0 <= j < |s| && s[j] == q;
      assert j <= i;
      assert j < i ==> YearLe(s[j], s[i]);
    }
  }

  // ------------------------------------------------------------ code lookups

  /** `dict(zip(history[text], history[code]))`: later rows overwrite earlier ones. */
  function CodeMap(history: seq<StoreRow>, c: TextColumn): (m: map<string, int>)
    ensures forall v :: v in m <==> v in ColumnValues(history, c)
  {
    if history == [] then map[]
    else
      var n := |history| - 1;
      assert forall v :: v in ColumnValues(history, c) <==> v in ColumnValues(history[..n], c) || v == TextOf(history[n], c) by {
        assert ColumnValues(history, c) == ColumnValues(history[..n], c) + [TextOf(history[n], c)];
      }
      CodeMap(history[..n], c)[TextOf(history[n], c) := CodeIn(history[n], c)]
  }

  /** `.map(m).fillna(-1)` for one value. */
  function Lookup(m: map<string, int>, v: string): int {
    if v in m then m[v] else -1
  }

  /** A known value maps to the code on the last history row carrying it; an unseen value to -1. */
  lemma {:induction false} CodeMapLastWins(history: seq<StoreRow>, c: TextColumn, v: string)
    ensures var i := LastIndexOf(history, c, v);
            Lookup(CodeMap(history, c), v) == (if i < 0 then -1 else CodeIn(history[i], c))
  {
    if history != [] {
      var n := |history| - 1;
      CodeMapLastWins(history[..n], c, v);
    }
  }

  // ------------------------------------------------------------ preprocessing

  /**
   * The feature vector of one roster entry: grid passed through; the driver's and
   * the constructor's rates and recent values from their latest history rows, or
   * 0 / 20 / 0 / 0 when the entity is unknown; the three codes from the history's
   * code maps.
   */
  function FeatureVectorFor(history: seq<StoreRow>, entry: RosterEntry): (v: FeatureVector)
    ensures v.grid == entry.grid as real
  {
    var d := LatestRow(history, DriverText, entry.driverId);
    var c := LatestRow(history, ConstructorText, entry.constructorId);
    FeatureVector(
      entry.grid as real,
      if d.Some? then d.value.driverWinRate else 0.0,
      if d.Some? then d.value.driverRecentForm else 20.0,
      if c.Some? then c.value.constructorWinRate else 0.0,
      if c.Some? then c.value.constructorRecentPoints else 0.0,
      Lookup(CodeMap(history, LocationText), entry.location),
      Lookup(CodeMap(history, DriverText), entry.driverId),
      Lookup(CodeMap(history, ConstructorText), entry.constructorId))
  }

  /**
   * `preprocess_input`: one feature vector per roster entry, in roster order. An
   * empty roster gives a table without a driverId column, and the first lookup
   * fails with a KeyError naming it.
   */
  function Preprocess(history: seq<StoreRow>, roster: seq<RosterEntry>): (x: Result<seq<FeatureVector>, PredictError>)
    ensures x.Failure? <==> roster == []
    ensures x.Failure? ==> x.error == KeyError("driverId")
    ensures x.Success? ==> |x.value| == |roster|
    ensures x.Success? ==> forall i :: 0 <= i < |roster| ==> x.value[i].grid == roster[i].grid as real
    ensures x.Success? ==> forall i :: 0 <= i < |roster| ==> x.value[i] == FeatureVectorFor(history, roster[i])
  {
    if roster == [] then Failure(KeyError("driverId"))
    else Success(seq(|roster|, i requires 0 <= i < |roster| => FeatureVectorFor(history, roster[i])))
  }

  /** An unknown driver gets win rate 0, recent form 20 and code -1. */
  lemma UnknownDriverFallbacks(history: seq<StoreRow>, entry: RosterEntry)
    requires entry.driverId !in ColumnValues(history, DriverText)
    ensures var v := FeatureVectorFor(history, entry);
            v.driverWinRate == 0.0 && v.driverRecentForm == 20.0 && v.driverIdEnc == -1
  {
    LatestRowIsFromMaxYear(history, DriverText, entry.driverId);
  }

  /** An unknown constructor gets win rate 0, recent points 0 and code -1. */
  lemma UnknownConstructorFallbacks(history: seq<StoreRow>, entry: RosterEntry)
    requires entry.constructorId !in ColumnValues(history, ConstructorText)
    ensures var v := FeatureVectorFor(history, entry);
            v.constructorWinRate == 0.0 && v.constructorRecentPoints == 0.0 && v.constructorIdEnc == -1
  {
    LatestRowIsFromMaxYear(history, ConstructorText, entry.constructorId);
  }

  /**
   * A known driver's rate and recent form come from one history row of that driver
   * whose year is the driver's latest year.
   */
  lemma KnownDriverFromLatestYear(history: seq<StoreRow>, entry: RosterEntry)
    requires entry.driverId in ColumnValues(history, DriverText)
    ensures var v := FeatureVectorFor(history, entry);
            exists r :: r in history && r.driverId == entry.driverId
              && (forall q :: q in history && q.driverId == entry.driverId ==> q.year <= r.year)
              && v.driverWinRate == r.driverWinRate && v.driverRecentForm == r.driverRecentForm
  {
    LatestRowIsFromMaxYear(history, DriverText, entry.driverId);
    var r := LatestRow(history, DriverText, entry.driverId).value;
    assert forall q :: TextOf(q, DriverText) == q.driverId;
  }

  /**
   * A known constructor's rate and recent points come from one history row of that
   * constructor whose year is the constructor's latest year.
   */
  lemma KnownConstructorFromLatestYear(history: seq<StoreRow>, entry: RosterEntry)
    requires entry.constructorId in ColumnValues(history, ConstructorText)
    ensures var v := FeatureVectorFor(history, entry);
            exists r :: r in history && r.constructorId == entry.constructorId
              && (forall q :: q in history && q.constructorId == entry.constructorId ==> q.year <= r.year)
              && v.constructorWinRate == r.constructorWinRate
              && v.constructorRecentPoints == r.constructorRecentPoints
  {
    LatestRowIsFromMaxYear(history, ConstructorText, entry.constructorId);
    var r := LatestRow(history, ConstructorText, entry.constructorId).value;
    assert forall q :: TextOf(q, ConstructorText) == q.constructorId;
  }

  /**
   * On a table the feature builder wrote, the driver and constructor codes used at
   * inference are the training codes: the value's index in the ascending distinct
   * values of its column (the list the getters return), and -1 for an unseen value.
   */
  lemma InferenceCodesMatchTraining(ledger: seq<LedgerRow>, c: TextColumn, v: string)
    requires c != LocationText
    ensures var store := FeatureStoreOf(ledger);
            Lookup(CodeMap(store, c), v) == Strings.IndexOf(Strings.SortedUnique(ColumnValues(store, c)), v)
  {
    var store := FeatureStoreOf(ledger);
    var vocab := Strings.SortedUnique(ColumnValues(store, c));
    forall i | 0 <= i < |store| ensures CodeIn(store[i], c) == Strings.IndexOf(vocab, TextOf(store[i], c)) {
      StoreCodeIsIndex(ledger, i, c);
    }
    LookupIsVocabularyIndex(store, c, v);
  }

  /** On a table whose codes are vocabulary indices, the code map gives the index too. */
  lemma LookupIsVocabularyIndex(store: seq<StoreRow>, c: TextColumn, v: string)
    requires forall i :: 0 <= i < |store| ==>
               CodeIn(store[i], c) == Strings.IndexOf(Strings.SortedUnique(ColumnValues(store, c)), TextOf(store[i], c))
    ensures Lookup(CodeMap(store, c), v) == Strings.IndexOf(Strings.SortedUnique(ColumnValues(store, c)), v)
  {
    var i := LastIndexOf(store, c, v);
    CodeMapLastWins(store, c, v);
    if i < 0 {
      assert v !in ColumnValues(store, c);
    }
  }

  /**
   * On a table the feature builder wrote (no real Location spelled like the fill
   * value), a known Location's inference code is the code every training row with
   * that Location carries.
   */
  lemma InferenceLocationMatchesTraining(ledger: seq<LedgerRow>, v: string, j: nat)
    requires forall r :: r in ledger ==> r.location != Some(MissingText)
    requires j < |ledger| && FeatureStoreOf(ledger)[j].location == v
    ensures Lookup(CodeMap(FeatureStoreOf(ledger), LocationText), v) == FeatureStoreOf(ledger)[j].locationId
  {
    var store := FeatureStoreOf(ledger);
    var i := LastIndexOf(store, LocationText, v);
    CodeMapLastWins(store, LocationText, v);
    assert i >= 0;
    StoreCodeFunctional(ledger, LocationText, i, j);
  }

  /**
   * The newcomer inconsistency: a driver's first row in the stored table carries
   * recent form 0, while a driver unknown at inference is given recent form 20.
   */
  lemma NewcomerRecentFormDiffers(ledger: seq<LedgerRow>, i: nat, entry: RosterEntry)
    requires i < |ledger|
    requires var rows := Chronological(ledger);
             forall j :: 0 <= j < i ==> rows[j].driverId != rows[i].driverId
    requires entry.driverId !in ColumnValues(FeatureStoreOf(ledger), DriverText)
    ensures FeatureStoreOf(ledger)[i].driverRecentForm == 0.0
    ensures FeatureVectorFor(FeatureStoreOf(ledger), entry).driverRecentForm == 20.0
  {
    StoreFirstAppearance(ledger, i);
    UnknownDriverFallbacks(FeatureStoreOf(ledger), entry);
  }

  // ------------------------------------------------------------ ranking

  /** `results.sort(key=win_probability, reverse=True)`: higher probability first. */
  predicate ByProbabilityDesc(a: Prediction, b: Prediction) {
    a.winProbability >= b.winProbability
  }

  lemma ByProbabilityDescTotalPreorder()
    ensures Sorting.TotalPreorder(ByProbabilityDesc)
  {
  }

  /** The classifier's probability for each feature vector, by index. */
  function Probabilities(model: Classifier, x: seq<FeatureVector>): (probs: seq<Probability>)
    ensures |probs| == |x|
  {
    seq<Probability>(|x|, i requires 0 <= i < |x| => model(AsRow(x[i])))
  }

  /** The unsorted results: entry `i`'s driverId with probability `i`. */
  function Paired(roster: seq<RosterEntry>, probs: seq<Probability>): (results: seq<Prediction>)
    requires |probs| == |roster|
    ensures |results| == |roster|
    ensures forall i :: 0 <= i < |roster| ==> results[i] == Prediction(roster[i].driverId, probs[i])
  {
    seq(|roster|, i requires 0 <= i < |roster| => Prediction(roster[i].driverId, probs[i]))
  }

  /** The results in non-increasing probability order; a permutation of the input. */
  function Rank(results: seq<Prediction>): (ranked: seq<Prediction>)
    ensures multiset(ranked) == multiset(results)
    ensures forall i, j :: 0 <= i < j < |ranked| ==> ranked[i].winProbability >= ranked[j].winProbability
  {
    ByProbabilityDescTotalPreorder();
    Sorting.SortSorted(results, ByProbabilityDesc);
    Sorting.Sort(results, ByProbabilityDesc)
  }

  /** Equal probabilities keep their original relative order. */
  lemma RankStable(results: seq<Prediction>, p: Prediction)
    ensures Sorting.Ties(Rank(results), ByProbabilityDesc, p) == Sorting.Ties(results, ByProbabilityDesc, p)
  {
    ByProbabilityDescTotalPreorder();
    Sorting.SortStable(results, ByProbabilityDesc, p);
  }

  /** Each roster entry's driverId with the model's probability for its feature vector. */
  function Scored(model: Classifier, history: seq<StoreRow>, roster: seq<RosterEntry>): (results: seq<Prediction>)
    ensures |results| == |roster|
    ensures forall i :: 0 <= i < |roster| ==>
              results[i] == Prediction(roster[i].driverId, model(AsRow(FeatureVectorFor(history, roster[i]))))
  {
    seq(|roster|, i requires 0 <= i < |roster| =>
      Prediction(roster[i].driverId, model(AsRow(FeatureVectorFor(history, roster[i])))))
  }

  /**
   * `predict` as a value: the preprocessing error on an empty roster; otherwise
   * every entry scored by the model on its own feature vector, highest first.
   */
  function PredictionsFor(model: Classifier, history: seq<StoreRow>, roster: seq<RosterEntry>): (out: Result<seq<Prediction>, PredictError>)
    ensures out.Failure? <==> roster == []
    ensures out.Failure? ==> out.error == KeyError("driverId")
    ensures out.Success? ==> multiset(out.value) == multiset(Scored(model, history, roster))
    ensures out.Success? ==> forall i, j :: 0 <= i < j < |out.value| ==>
              out.value[i].winProbability >= out.value[j].winProbability
  {
    match Preprocess(history, roster)
    case Failure(err) => Failure(err)
    case Success(x) =>
      var paired := Paired(roster, Probabilities(model, x));
      assert paired == Scored(model, history, roster);
      Success(Rank(paired))
  }

  // ------------------------------------------------------------ the predictor

  /** Why loading failed: the missing file's path. */
  datatype LoadError = ModelNotFound(path: string) | FeaturesNotFound(path: string)

  /** The files on disk: the pickled classifiers and the feature tables, by path. */
  datatype Files = Files(models: map<string, Classifier>, tables: map<string, seq<StoreRow>>)

  class F1Predictor {
    const modelPath: string
    const featuresPath: string
    var model: Option<Classifier>
    var history: Option<seq<StoreRow>>

    /** Both resources are loaded. */
    predicate Ready()
      reads this
    {
      model.Some? && history.Some?
    }

    /** The fields `__init__` sets before loading. */
    constructor Init(modelPath: string, featuresPath: string)
      ensures this.modelPath == modelPath && this.featuresPath == featuresPath
      ensures model.None? && history.None?
    {
      this.modelPath := modelPath;
      this.featuresPath := featuresPath;
      model := None;
      history := None;
    }

    /**
     * `load_resources`: the model file is checked and loaded first, then the
     * features file; the first missing one is reported and stops the loading.
     */
    method LoadResources(fs: Files) returns (err: Option<LoadError>)
      modifies this
      ensures modelPath !in fs.models ==>
                err == Some(ModelNotFound(modelPath)) && model == old(model) && history == old(history)
      ensures modelPath in fs.models ==> model == Some(fs.models[modelPath])
      ensures modelPath in fs.models && featuresPath !in fs.tables ==>
                err == Some(FeaturesNotFound(featuresPath)) && history == old(history)
      ensures modelPath in fs.models && featuresPath in fs.tables ==>
                err.None? && history == Some(fs.tables[featuresPath])
    {
      if modelPath !in fs.models {
        return Some(ModelNotFound(modelPath));
      }
      model := Some(fs.models[modelPath]);
      if featuresPath !in fs.tables {
        return Some(FeaturesNotFound(featuresPath));
      }
      history := Some(fs.tables[featuresPath]);
      err := None;
    }

    /** `F1Predictor(model_path, features_path)`: a ready predictor, or the load error it raises. */
    static method Create(modelPath: string, featuresPath: string, fs: Files) returns (r: Result<F1Predictor, LoadError>)
      ensures r.Success? <==> modelPath in fs.models && featuresPath in fs.tables
      ensures r.Failure? ==>
                r.error == (if modelPath !in fs.models then ModelNotFound(modelPath) else FeaturesNotFound(featuresPath))
      ensures r.Success? ==>
                && fresh(r.value) && r.value.Ready()
                && r.value.modelPath == modelPath && r.value.featuresPath == featuresPath
                && r.value.model == Some(fs.models[modelPath])
                && r.value.history == Some(fs.tables[featuresPath])
    {
      var p := new F1Predictor.Init(modelPath, featuresPath);
      var err := p.LoadResources(fs);
      if err.Some? {
        return Failure(err.value);
      }
      r := Success(p);
    }

    /**
     * `predict`: preprocesses the roster, scores it, pairs each probability with
     * the driverId of the entry at the same index, then ranks the results.
     */
    method Predict(roster: seq<RosterEntry>) returns (out: Result<seq<Prediction>, PredictError>)
      requires Ready()
      ensures out == PredictionsFor(model.value, history.value, roster)
      ensures out.Success? <==> roster != []
      ensures out.Failure? ==> out.error == KeyError("driverId")
      ensures out.Success? ==>
                var probs := Probabilities(model.value, Preprocess(history.value, roster).value);
                && |out.value| == |roster|
                && multiset(out.value) == multiset(Paired(roster, probs))
                && (forall i, j :: 0 <= i < j < |out.value| ==> out.value[i].winProbability >= out.value[j].winProbability)
                && forall p :: Sorting.Ties(out.value, ByProbabilityDesc, p) == Sorting.Ties(Paired(roster, probs), ByProbabilityDesc, p)
    {
      var x := Preprocess(history.value, roster);
      if x.Failure? {
        return Failure(x.error);
      }
      var probs := Probabilities(model.value, x.value);
      var results: seq<Prediction> := [];
      var i := 0;
      while i < |probs|
        invariant 0 <= i <= |probs| == |roster|
        invariant results == Paired(roster[..i], probs[..i])
      {
        results := results + [Prediction(roster[i].driverId, probs[i])];
        i := i + 1;
      }
      assert roster[..i] == roster && probs[..i] == probs;
      out := Success(Rank(results));
      forall p ensures Sorting.Ties(Rank(results), ByProbabilityDesc, p) == Sorting.Ties(results, ByProbabilityDesc, p) {
        RankStable(results, p);
      }
    }

    /** `get_drivers`: the distinct driverIds of the history, ascending. */
    function GetDrivers(): (names: seq<string>)
      requires Ready()
      reads this
      ensures Strings.StrictlyAscending(names)
      ensures forall w :: w in names <==> w in ColumnValues(history.value, DriverText)
    {
      Strings.SortedUnique(ColumnValues(history.value, DriverText))
    }

    /** `get_constructors`: the distinct constructorIds of the history, ascending. */
    function GetConstructors(): (names: seq<string>)
      requires Ready()
      reads this
      ensures Strings.StrictlyAscending(names)
      ensures forall w :: w in names <==> w in ColumnValues(history.value, ConstructorText)
    {
      Strings.SortedUnique(ColumnValues(history.value, ConstructorText))
    }

    /** `get_locations`: the distinct Locations of the history, ascending. */
    function GetLocations(): (names: seq<string>)
      requires Ready()
      reads this
      ensures Strings.StrictlyAscending(names)
      ensures forall w :: w in names <==> w in ColumnValues(history.value, LocationText)
    {
      Strings.SortedUnique(ColumnValues(history.value, LocationText))
    }
  }
}
