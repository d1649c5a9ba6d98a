# F1-Preditor: the feature pipeline and the predictor, modelled in Dafny

F1-Preditor predicts race winners.

The processing step joins every driver's race result with the race calendar into a **ledger** (`process_data`). The ledger has one row per driver per race, and each row carries an `is_winner` target.

The feature builder then does four things:
- it puts the ledger in race order, by year and then round;
- it gives every row its driver's and its constructor's statistics as of before that row: earlier wins, earlier rows, win rate, and the mean of up to three preceding finishing positions or points;
- it encodes Location, driverId and constructorId as integer category codes;
- it adds a constant `regulation_change` column and fills the gaps with 0.

The result is written as the **feature store**.

The predictor loads a trained classifier and the feature store. For each roster entry of a new race, it looks up the latest statistics of the entry's driver and constructor. Unknown entities get the fallbacks 0 / 20 / 0 / 0. It also maps the three text values to the stored codes, with -1 for an unseen value. It scores the eight features, pairs each probability with the driverId at the same index, and ranks the drivers by probability with a stable, descending sort.

The web service embeds its own copy of the predictor. The copy is created once at start-up, and the four data endpoints refuse with "Model not initialized" while it is absent. The page at `/` is served either way.

Files:
- `wrappers.dfy`: `Option` and `Result`.
- `sorting.dfy`: a stable insertion sort over a comparator. It stands for pandas' `sort_values` and Python's `list.sort`. It comes with sortedness, permutation and stability lemmas.
- `strings.dfy`: Python's string order, `str(int)`, and the ascending distinct values of a column.
- `process_data.dfy`: the ledger join (`ProcessData`).
- `build_features.dfy`: the metric scan, the codes and the feature store (`BuildFeatures`).
- `predict.dfy`: the inference functions and the pipeline's `F1Predictor` class (`Predict`).
- `app.dfy`: the service's `F1Predictor` and the guarded endpoints (`App`).

A newcomer is treated inconsistently, and the model pins this down rather than fixing it. A driver's first stored row has recent form 0: the rolling mean is missing and the store fills it with 0. A driver unknown at inference gets recent form 20. `Predict.NewcomerRecentFormDiffers` states both halves.

## Model

| member | source | states |
|---|---|---|
| ProcessData.RaceKeyInjective | src/data/process_data.py:34 | The key `str(year) + "_" + str(round)` identifies the race: two keys are equal exactly when year and round are equal. |
| ProcessData.DistinctRacesHaveUniqueKeys | src/data/process_data.py:34 | A calendar without two rows for the same (year, round) has pairwise distinct race keys. |
| ProcessData.IsWinner | src/data/process_data.py:51 | The target is 1 exactly when the position is 1.0; a missing position gives 0. |
| ProcessData.JoinRow | src/data/process_data.py:37-51 | A merged row carries the result's raceId, year and round, its other columns under their new names (TeamName as constructorId, GridPosition as grid, Position as positionOrder), the target, and EventName and Location exactly when a calendar row is given. |
| ProcessData.Matches | src/data/process_data.py:37 | The calendar rows a result joins with are exactly those whose key equals the result's raceId. |
| ProcessData.JoinOneFrom | src/data/process_data.py:37 | Every row produced for one result carries that result's columns, plus the race columns of a matching calendar row or none. |
| ProcessData.LeftJoinProvenance | src/data/process_data.py:37 | The join has at least as many rows as there are results, and every joined row comes from some result. |
| ProcessData.LeftJoin | src/data/process_data.py:37 | The left merge is empty exactly when there are no results and never has fewer rows than results; its partner lemmas give provenance, every result kept and a row per match. |
| ProcessData.LeftJoinKeepsEveryResult | src/data/process_data.py:37 | Every result appears in the join, carrying a matching calendar row's columns or, when none matches, with the race columns missing. |
| ProcessData.LeftJoinRowPerMatch | src/data/process_data.py:37 | When several calendar rows carry a result's key, the join has a row of that result with each of them. |
| ProcessData.UniqueKeysMatchAtMostOnce | src/data/process_data.py:37 | With unique calendar keys, a result matches at most one calendar row. |
| ProcessData.LeftJoinPreservesRows | src/data/process_data.py:37 | With unique calendar keys, the join has exactly one row per result, in result order, each built from its own result. |
| ProcessData.Process | src/data/process_data.py:19-66 | Gives nothing exactly when results or races is missing. Otherwise every result has at least one row carrying its columns and its matching race's columns (or none), and `is_winner` is 1 exactly when positionOrder is 1.0 (a missing position gives 0). |
| ProcessData.KeepPresent | src/data/process_data.py:64-66 | The comprehension keeps exactly the listed columns that exist. |
| ProcessData.KeepPresentOrdered | src/data/process_data.py:64-66 | The kept columns appear in their listed order. |
| ProcessData.CalendarColumnAvailable | src/data/process_data.py:37 | A calendar column keeps its own name after the merge exactly when the results table has no column of that name. |
| ProcessData.PositionAvailable | src/data/process_data.py:40-51 | After the merge and the renames there is a positionOrder column exactly when the results table has Position or positionOrder. |
| ProcessData.OutputColumnsPresent | src/data/process_data.py:37-66 | The column list is a KeyError exactly when the results table lacks raceId (the merge key) or a position column (the target's input), and it names raceId first. Otherwise an output column is a listed name that exists after the merge and the fixed renames; raceId, positionOrder and `is_winner` are among them, and EventName and Location are among them exactly when the results table has no column of that name (a clash makes the merge rename both copies with `_x`/`_y`). |
| ProcessData.OutputColumnsOrdered | src/data/process_data.py:58-66 | When there is no KeyError, the output columns are distinct and follow the order of the fixed list. |
| Sorting.SortSorted | src/features/build_features.py:16 | The sort's output is ordered by its comparator. |
| Sorting.SortStable | src/pipeline/predict.py:106 | Elements that compare equal keep their original relative order. |
| Sorting.SortOfSorted | src/features/build_features.py:38 | Sorting an already sorted sequence returns it unchanged. |
| Strings.IntToStringInjective | src/data/process_data.py:34 | `str` on integers is injective. |
| Strings.SortedUnique | src/pipeline/predict.py:111 | `sorted(unique())` is strictly ascending and holds exactly the column's values. |
| Strings.AscendingDeterminedBySet | src/features/build_features.py:59-61 | A strictly ascending list is determined by its set of elements. |
| BuildFeatures.Chronological | src/features/build_features.py:16 | The ledger in race order is a permutation of the ledger, sorted by (year, round). |
| BuildFeatures.DriverMetrics | src/features/build_features.py:13-34 | The driver stage's rows are a permutation of the ledger, in (year, round) order, each carrying the driver statistics over the rows ahead of it and its `position_numeric`. |
| BuildFeatures.ConstructorMetrics | src/features/build_features.py:36-50 | The constructor stage keeps the driver-stage rows up to order, re-sorts them by (year, round), and gives each the constructor statistics over the rows ahead of it. |
| BuildFeatures.AccumulateStats | src/features/build_features.py:19-32 | A single scan with per-entity running counters gives every row exactly the statistics of the earlier rows with its key. |
| BuildFeatures.WinRateBounded | src/features/build_features.py:19-21 | Earlier wins never exceed earlier rows, and the win rate with its denominator floored at 1 lies in [0, 1]. |
| BuildFeatures.FirstAppearance | src/features/build_features.py:19-32 | Race count 0 happens exactly when no earlier row has the key. Wins and win rate are then 0 and the recent mean is missing; otherwise it is present. |
| BuildFeatures.GroupCountsKeyIndices | src/features/build_features.py:20 | `cumcount` counts the earlier rows that carry the key. |
| BuildFeatures.RacesCumByRaceOrder | src/features/build_features.py:16-42 | On the sorted table, the race count is the number of the entity's rows from strictly earlier races, plus its same-race rows that sort ahead. No later row is ever counted. |
| BuildFeatures.DriverRacesCumIsEarlierRaces | src/features/build_features.py:16-20 | With one row per driver per race, `driver_races_cum` is the number of the driver's rows from strictly earlier races. |
| BuildFeatures.StatsIgnoreOtherEntities | src/features/build_features.py:19-48 | A row's statistics equal those it gets in the table restricted to its own entity's rows. |
| BuildFeatures.MeanBetween | src/features/build_features.py:31 | A mean lies between the minimum and the maximum of the averaged values. |
| BuildFeatures.RecentWindow | src/features/build_features.py:28-48 | The recent value is missing exactly on a first appearance. Otherwise it is the mean of the last one to three values before the row, never the row's own, and it lies between their minimum and maximum. |
| BuildFeatures.OnePriorWin | src/features/build_features.py:19-32 | A driver whose only earlier row is a win from first place gets one race, one win, win rate 1 and recent form 1. |
| BuildFeatures.TeammateCounted | src/features/build_features.py:38-43 | Of two rows of one constructor in the same race, the second counts the first as an earlier row, including its win. |
| BuildFeatures.SecondSortKeepsOrder | src/features/build_features.py:38 | The constructor stage's sort leaves the driver stage's race-ordered rows unchanged. |
| BuildFeatures.CalculateDriverMetrics | src/features/build_features.py:13-34 | The driver stage, with statistics from the scan, equals the race-ordered ledger with each row's driver statistics and `position_numeric`. |
| BuildFeatures.CalculateConstructorMetrics | src/features/build_features.py:36-50 | The constructor stage, with statistics from the scan, equals the re-sorted rows with each row's constructor statistics. |
| BuildFeatures.Categories | src/features/build_features.py:59-61 | The categories are strictly ascending and are exactly the column's present values. |
| BuildFeatures.Codes | src/features/build_features.py:59-61 | A cell's code is -1 exactly when the cell is missing. Otherwise it is in [0, n) and indexes the category equal to the cell. |
| BuildFeatures.CodesFaithful | src/features/build_features.py:59-61 | On present cells, codes are equal exactly when values are equal, and a code is smaller exactly when the value is a smaller string. |
| BuildFeatures.CodesDense | src/features/build_features.py:59-61 | Every code in [0, n) is used by some cell. |
| BuildFeatures.EncodeCategorical | src/features/build_features.py:52-63 | Every row keeps its columns and gains its three codes. |
| BuildFeatures.AddRegulationDummy | src/features/build_features.py:65-69 | Every row is kept and gets `regulation_change` = 0. |
| BuildFeatures.FillMissing | src/features/build_features.py:93 | The fill keeps one row per row, each filled cell by cell. |
| BuildFeatures.FillKeepsPresentValues | src/features/build_features.py:93 | The fill changes only missing cells, column by column. A missing positionOrder, recent form or recent points becomes 0; a missing EventName or Location becomes the text that 0 reads back as. Every other column (keys, grid, points, target, the win and race counts, win rates, position_numeric, the three codes and regulation_change) is unchanged. |
| BuildFeatures.FeatureStoreOf | src/features/build_features.py:80-93 | The store has one row per ledger row. |
| BuildFeatures.BuildFeatureStore | src/features/build_features.py:80-93 | The builder's sequence of stages produces exactly the feature store of the ledger. |
| BuildFeatures.StoreRowMeaning | src/features/build_features.py:16-93 | Stored row i is the race-ordered ledger row i: the same raceId, year, round, driver, constructor, grid, points and is_winner; positionOrder, EventName and Location with a missing cell filled; its driver and constructor statistics with missing recent values filled with 0; and regulation 0. |
| BuildFeatures.StoreFirstAppearance | src/features/build_features.py:21-93 | A driver's first stored row has race count 0, win rate 0 and recent form 0. |
| BuildFeatures.StoreCodeIsIndex | src/features/build_features.py:60-61 | The stored driver and constructor codes are the value's index in the column's ascending distinct values. |
| BuildFeatures.CodeIsIndexInVocabulary | src/features/build_features.py:60-61 | On a column without gaps, the code is the value's index in `sorted(unique())` of the column. |
| BuildFeatures.StoreLocationCode | src/features/build_features.py:59-93 | The stored `location_id` is -1 exactly when the calendar had no Location, whose stored text is then the fill value. Otherwise it is the Location's index among the ledger's Locations. |
| BuildFeatures.StoreCodeFunctional | src/features/build_features.py:59-93 | Within the store, two rows with the same text carry the same code. For Location this holds when no real Location is spelled like the fill value. |
| Predict.AsRow | src/pipeline/predict.py:82-88 | The classifier's row has the eight features in the training column order, each cell being its named column. |
| Predict.LastIndexOf | src/pipeline/predict.py:56-57 | Finds the last row with the key, or -1 when no row has it. |
| Predict.LatestRow | src/pipeline/predict.py:56-57 | The latest row of a key, when there is one, is a history row carrying that key; LatestRowIsFromMaxYear adds that it exists exactly for known keys and has the key's maximum year. |
| Predict.LatestRowIsFromMaxYear | src/pipeline/predict.py:56-57 | The latest row exists exactly when the key occurs in the history. It is a history row with the key, from the key's maximum year. |
| Predict.CodeMap | src/pipeline/predict.py:73-75 | The code map's keys are exactly the column's values. |
| Predict.CodeMapLastWins | src/pipeline/predict.py:73-79 | A known value maps to the code on the last row carrying it, and an unseen value maps to -1. |
| Predict.FeatureVectorFor | src/pipeline/predict.py:59-88 | One roster entry's features, with grid passed through; the fallback lemmas (unknown driver 0/20/-1, unknown constructor 0/0/-1), the latest-year lemmas and the code lemmas below state the other seven. |
| Predict.Preprocess | src/pipeline/predict.py:28-88 | An empty roster fails with a KeyError on driverId. Otherwise there is one feature vector per entry, in roster order: entry i's vector is the latest-year lookup with the fallbacks and the training codes, with grid passed through. |
| Predict.UnknownDriverFallbacks | src/pipeline/predict.py:60-78 | An unknown driver gets win rate 0, recent form 20 and code -1. |
| Predict.UnknownConstructorFallbacks | src/pipeline/predict.py:63-79 | An unknown constructor gets win rate 0, recent points 0 and code -1. |
| Predict.KnownDriverFromLatestYear | src/pipeline/predict.py:56-61 | A known driver's rate and recent form come from one history row of that driver from the driver's maximum year. |
| Predict.KnownConstructorFromLatestYear | src/pipeline/predict.py:56-64 | A known constructor's rate and recent points come from one history row of that constructor from its maximum year. |
| Predict.InferenceCodesMatchTraining | src/pipeline/predict.py:74-79 | On a store the builder wrote, the driver and constructor codes used at inference are the training codes, i.e. the index in the getter's list, or -1. |
| Predict.InferenceLocationMatchesTraining | src/pipeline/predict.py:73-77 | On a store the builder wrote, when no real Location is spelled like the fill value "0", a known Location maps to the code its training rows carry. |
| Predict.NewcomerRecentFormDiffers | src/pipeline/predict.py:61 | A driver's first stored row has recent form 0, while a driver unknown at inference gets 20. |
| Predict.Rank | src/pipeline/predict.py:106 | The ranked results are a permutation of the results, in non-increasing probability order. |
| Predict.PredictionsFor | src/pipeline/predict.py:90-107 | An empty roster fails with a KeyError on driverId. Otherwise the result is a permutation of every entry's driverId paired with the model's probability for its own feature vector, in non-increasing probability order. |
| Predict.RankStable | src/pipeline/predict.py:106 | Results with equal probability keep their original order. |
| Predict.Paired | src/pipeline/predict.py:98-103 | Result i carries the driverId of roster entry i and probability i. |
| Predict.F1Predictor.LoadResources | src/pipeline/predict.py:15-26 | The model is checked and loaded first. A missing model stops loading with its error; a missing features file is reported after the model is set; with both present, both are loaded. |
| Predict.F1Predictor.Create | src/pipeline/predict.py:8-26 | A predictor exists exactly when both files exist, and then both are loaded. Otherwise the first missing file is the error. |
| Predict.F1Predictor.Predict | src/pipeline/predict.py:90-107 | Succeeds exactly when the roster is non-empty. Gives one result per entry, a permutation of the index-paired results, sorted non-increasingly and stably. |
| Predict.F1Predictor.GetDrivers | src/pipeline/predict.py:109-111 | Strictly ascending, holding exactly the history's driverIds. |
| Predict.F1Predictor.GetConstructors | src/pipeline/predict.py:113-115 | Strictly ascending, holding exactly the history's constructorIds. |
| Predict.F1Predictor.GetLocations | src/pipeline/predict.py:117-119 | Strictly ascending, holding exactly the history's Locations. |
| App.F1Predictor.LoadResources | app.py:42-56 | The model is checked first and then the features; the first missing file is the error. |
| App.F1Predictor.Create | app.py:35-56 | A predictor exists exactly when both files exist. |
| App.F1Predictor.Predict | app.py:67-105 | Returns exactly what the pipeline predictor returns: the same fallbacks, codes and column order, one result per entry, in non-increasing order. An empty roster gives a KeyError. |
| App.F1Predictor.GetDrivers | app.py:58-59 | Strictly ascending, holding exactly the history's driverIds. |
| App.F1Predictor.GetConstructors | app.py:61-62 | Strictly ascending, holding exactly the history's constructorIds. |
| App.F1Predictor.GetLocations | app.py:64-65 | Strictly ascending, holding exactly the history's Locations. |
| App.Server.Start | app.py:112-118 | The predictor exists exactly when construction succeeds, and stays absent otherwise. |
| App.Server.Drivers | app.py:308-311 | Refuses with 500 "Model not initialized" without a predictor, and otherwise returns the predictor's drivers. |
| App.Server.Constructors | app.py:313-316 | Refuses with 500 "Model not initialized" without a predictor, and otherwise returns its constructors. |
| App.Server.Locations | app.py:318-321 | Refuses with 500 "Model not initialized" without a predictor, and otherwise returns its locations. |
| App.Server.PredictRace | app.py:323-331 | Refuses without a predictor. An empty roster's KeyError becomes a 500 response with detail `'driverId'`; otherwise it returns the ranked predictions. |

## Left out

- Reading and writing files (`load_data`, `load_processed_data`, `to_csv`, `read_csv`, `pickle.load`): the files are a map from path to loaded content, and a file exists when its path is a key. A table's trip through CSV is modelled only where it shows: a filled text cell reads back as "0".
- Floating point: positions, points, rates and means are exact `real`s.
- Training and the classifier: the classifier is any function from a feature row to a probability in [0, 1], applied row by row.
- `sort_values('year')` in the latest-row lookup uses pandas' default sort, which is not stable. It is modelled as a stable sort. Only the facts that hold for any sort are claimed: the row has the entity's maximum year and comes from the history.
- `results.sort` sorts in place. It is modelled as a value-level stable sort of the result list.
- `process_data` also adds `raceId` to the caller's races table in place. That side effect on the caller's table is not modelled.
- The typed ledger rows assume the results table has no EventName, EventDate or Location column of its own, as the fetched results do. The column-list lemmas model the `_x`/`_y` suffixes a clash produces and the KeyError a missing raceId or position column raises; the typed rows always carry both. A results table with both Position and positionOrder, which the rename turns into two columns of one name, is not modelled. The `status`, `time_str`, `EventDate` and `Abbreviation` columns are likewise only in the column-list lemmas.
- `groupby().last()` takes the last non-missing value of each column. The store has no missing cells after the fill, so it is modelled as the last row.
- Request validation, CORS, logging, the HTML page and the HTTP server are not modelled. A raised error is a `Result` failure.
- Network download of the race data (src/data/fetch_fastf1.py, src/data/downloader.py) is not part of this model.
