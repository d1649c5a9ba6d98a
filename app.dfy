/**
 * The web service (app.py): its own copy of the predictor class, created once at
 * start-up, and the four data endpoints, which refuse every request while no
 * predictor exists (the page at `/` is served either way and is not modelled).
 */
module App {
  import opened Wrappers
  import Strings
  import opened BuildFeatures
  import opened Predict

  /**
   * The predictor class embedded in the service. Loading and the getters are those
   * of the pipeline predictor; `predict` does the preprocessing inline.
   */
  class F1Predictor {
    const modelPath: string
    const featuresPath: string
    var model: Option<Classifier>
    var history: Option<seq<StoreRow>>

    predicate Ready()
      reads this
    {
      model.Some? && history.Some?
    }

    constructor Init(modelPath: string, featuresPath: string)
      ensures this.modelPath == modelPath && this.featuresPath == featuresPath
      ensures model.None? && history.None?
    {
      this.modelPath := modelPath;
      this.featuresPath := featuresPath;
      model := None;
      history := None;
    }

    /** `load_resources`: the model file first, then the features file; the first missing one stops it. */
    method LoadResources(fs: Files) returns (err: Option<LoadError>)
      modifies this
      ensures modelPath !in fs.models ==>
                err == Some(ModelNotFound(modelPath)) && model == old(model) && history == old(history)
      ensures modelPath in fs.models ==> model == Some(fs.models[modelPath])
      ensures modelPath in fs.models && featuresPath !in fs.tables ==>
                err == Some(FeaturesNotFound(featuresPath)) && history == old(history)
      ensures modelPath in fs.models && featuresPath in fs.tables ==>
                err.None? && history == Some(fs.tables[featuresPath])
    {
      if modelPath !in fs.models {
        return Some(ModelNotFound(modelPath));
      }
      model := Some(fs.models[modelPath]);
      if featuresPath !in fs.tables {
        return Some(FeaturesNotFound(featuresPath));
      }
      history := Some(fs.tables[featuresPath]);
      err := None;
    }

    /** `F1Predictor(model_path, features_path)`: a ready predictor, or the load error it raises. */
    static method Create(modelPath: string, featuresPath: string, fs: Files) returns (r: Result<F1Predictor, LoadError>)
      ensures r.Success? <==> modelPath in fs.models && featuresPath in fs.tables
      ensures r.Failure? ==>
                r.error == (if modelPath !in fs.models then ModelNotFound(modelPath) else FeaturesNotFound(featuresPath))
      ensures r.Success? ==>
                && fresh(r.value) && r.value.Ready()
                && r.value.model == Some(fs.models[modelPath])
                && r.value.history == Some(fs.tables[featuresPath])
    {
      var p := new F1Predictor.Init(modelPath, featuresPath);
      var err := p.LoadResources(fs);
      if err.Some? {
        return Failure(err.value);
      }
      r := Success(p);
    }

    /**
     * The embedded `predict`: the same fallbacks, codes and column order as the
     * pipeline's preprocessing, then the same pairing by index and stable ranking,
     * so it returns exactly what the pipeline predictor returns.
     */
    method Predict(roster: seq<RosterEntry>) returns (out: Result<seq<Prediction>, PredictError>)
      requires Ready()
      ensures out == PredictionsFor(model.value, history.value, roster)
      ensures out.Success? <==> roster != []
      ensures out.Failure? ==> out.error == KeyError("driverId")
      ensures out.Success? ==>
                && |out.value| == |roster|
                && forall i, j :: 0 <= i < j < |out.value| ==> out.value[i].winProbability >= out.value[j].winProbability
    {
      if roster == [] {
        return Failure(KeyError("driverId"));
      }
      var h := history.value;
      var x := seq(|roster|, i requires 0 <= i < |roster| => FeatureVectorFor(h, roster[i]));
      assert Preprocess(h, roster) == Success(x);
      var probs := Probabilities(model.value, x);
      var results: seq<Prediction> := [];
      var i := 0;
      while i < |probs|
        invariant 0 <= i <= |probs| == |roster|
        invariant |results| == i
        invariant forall k :: 0 <= k < i ==> results[k] == Prediction(roster[k].driverId, probs[k])
      {
        results := results + [Prediction(roster[i].driverId, probs[i])];
        i := i + 1;
      }
      assert results == Paired(roster, probs);
      out := Success(Rank(results));
      assert |multiset(Rank(results))| == |multiset(results)|;
    }

    function GetDrivers(): (names: seq<string>)
      requires Ready()
      reads this
      ensures Strings.StrictlyAscending(names)
      ensures forall w :: w in names <==> w in ColumnValues(history.value, DriverText)
    {
      Strings.SortedUnique(ColumnValues(history.value, DriverText))
    }

    function GetConstructors(): (names: seq<string>)
      requires Ready()
      reads this
      ensures Strings.StrictlyAscending(names)
      ensures forall w :: w in names <==> w in ColumnValues(history.value, ConstructorText)
    {
      Strings.SortedUnique(ColumnValues(history.value, ConstructorText))
    }

    function GetLocations(): (names: seq<string>)
      requires Ready()
      reads this
      ensures Strings.StrictlyAscending(names)
      ensures forall w :: w in names <==> w in ColumnValues(history.value, LocationText)
    {
      Strings.SortedUnique(ColumnValues(history.value, LocationText))
    }
  }

  /** An HTTP error response: status code and detail text. */
  datatype HttpError = HttpError(status: int, detail: string)

  /** The refusal each data endpoint gives while no predictor exists. */
  const NotInitialized: HttpError := HttpError(500, "Model not initialized")

  /** `str(e)` of the exception a prediction raises: a KeyError shows its key in quotes. */
  function ErrorMessage(e: PredictError): string {
    "'" + e.column + "'"
  }

  /** The service: the module-level predictor, set once at start-up, and the data endpoints. */
  class Server {
    var predictor: F1Predictor?

    /** A predictor that exists is loaded. */
    predicate Valid()
      reads this, predictor
    {
      predictor != null ==> predictor.Ready()
    }

    /** Start-up: the predictor is created, or stays absent when its construction fails. */
    constructor Start(modelPath: string, featuresPath: string, fs: Files)
      ensures Valid()
      ensures predictor != null <==> modelPath in fs.models && featuresPath in fs.tables
      ensures predictor != null ==>
                fresh(predictor)
                && predictor.model == Some(fs.models[modelPath])
                && predictor.history == Some(fs.tables[featuresPath])
    {
      var r := F1Predictor.Create(modelPath, featuresPath, fs);
      predictor := if r.Success? then r.value else null;
    }

    /** `GET /drivers`. */
    method Drivers() returns (r: Result<seq<string>, HttpError>)
      requires Valid()
      ensures predictor == null ==> r == Failure(NotInitialized)
      ensures predictor != null ==> r == Success(predictor.GetDrivers())
    {
      if predictor == null {
        return Failure(NotInitialized);
      }
      r := Success(predictor.GetDrivers());
    }

    /** `GET /constructors`. */
    method Constructors() returns (r: Result<seq<string>, HttpError>)
      requires Valid()
      ensures predictor == null ==> r == Failure(NotInitialized)
      ensures predictor != null ==> r == Success(predictor.GetConstructors())
    {
      if predictor == null {
        return Failure(NotInitialized);
      }
      r := Success(predictor.GetConstructors());
    }

    /** `GET /locations`. */
    method Locations() returns (r: Result<seq<string>, HttpError>)
      requires Valid()
      ensures predictor == null ==> r == Failure(NotInitialized)
      ensures predictor != null ==> r == Success(predictor.GetLocations())
    {
      if predictor == null {
        return Failure(NotInitialized);
      }
      r := Success(predictor.GetLocations());
    }

    /**
     * `POST /predict`: refused without a predictor; otherwise the prediction, with
     * a raised error turned into a 500 response carrying its message.
     */
    method PredictRace(drivers: seq<RosterEntry>) returns (r: Result<seq<Prediction>, HttpError>)
      requires Valid()
      ensures predictor == null ==> r == Failure(NotInitialized)
      ensures predictor != null && drivers == [] ==> r == Failure(HttpError(500, "'driverId'"))
      ensures predictor != null && drivers != [] ==>
                r == Success(PredictionsFor(predictor.model.value, predictor.history.value, drivers).value)
    {
      if predictor == null {
        return Failure(NotInitialized);
      }
      var out := predictor.Predict(drivers);
      match out
      case Success(results) => r := Success(results);
      case Failure(e) =>
        assert ErrorMessage(e) == "'driverId'";
        r := Failure(HttpError(500, ErrorMessage(e)));
    }
  }
}
