# Keyboard layout search by simulated annealing

This project is a Dafny model of the core of a small Python repository that looks for a
low-cost keyboard layout by simulated annealing. The modelled parts are:

- **The cost model** (`annealing/clac_layout_cost.py`, module `LayoutCost`, file
  `layout_cost.dfy`). It normalises probability tables and takes the home point as the mean of
  the key positions. It precomputes a Fitts-law matrix of movement times, then adds up a weighted
  digraph cost and a single-letter cost. Every Python exception this code can raise is a
  `Result` failure, in the order the code would raise it: `ValueError` on a zero mass,
  `ZeroDivisionError` on a key width of 0, `ValueError` when `math.log2` gets an argument that
  is not positive (a negative key width), `KeyError` on a letter missing from the layout,
  `IndexError` on a digraph shorter than two characters, and `ZeroDivisionError` on an empty
  layout.
- **The annealing search** (`annealing/simulated_annealing_keyboard.py`, module `Annealing`,
  file `annealing.dfy`). It covers the random initial layout and the copy-on-write two-letter
  swap, the Metropolis acceptance rule, and the cooling loop. It also covers the move counters,
  the history lists and the snapshot file of the best layout.
  - The search is given twice. The pure functions `Step`, `Moves`, `Passes` and `Anneal` are
    the specification. The methods `AnnealStep`, `NextMove`, `AnnealAtTemperature`,
    `CoolingPass`, `CoolingPasses` and `SimulatedAnnealingOptimizeLayout` are the loops,
    written imperatively and proved equal to those functions.
  - `Invariant` is proved of the functions. It says the current and best layouts are priced
    rearrangements of the initial one, the best cost is the least seen, the snapshots decrease,
    and the histories have one entry per move.
- **The first script** (root `simulated_annealing_keyboard.py`, module `LegacyAnnealing`,
  file `legacy_annealing.dfy`). Its `swap_two_letters` changes the dict in place. Its
  `initial_layout`, `current_layout` and `best_layout` are one and the same dict, so the dict is
  a heap object (`LayoutDict`) shared by all three names.
- **The two CSV progress loggers** (`annealing/progress_logger.py` as `ProgressLog` and the
  root `progress_logger.py` as `LegacyProgressLog`). Each is a class whose file is its sequence
  of rows.
- **Digraph counting** (`data_analisis/digrafos_calc.py`, module `DigraphCount`). It counts
  one digraph per character index, sorts the table by count and divides by the total.
- **The dashboard's file handling** (`dashboard/app.py`, module `Dashboard`). This is the
  results-file counter probe, which the annealing script repeats. It also covers the choice of
  the latest `results<n>.txt`, the loading of the layout from the live snapshot or the results
  file, and the filter of the keyboard endpoint.

Shared pieces are in `common.dfy`:

- `Outcomes` holds Option and Result.
- `Dicts` is a Python dict: the keys in insertion order plus a map. A new key goes to the end,
  and an update keeps the key's place.
- `Sums` holds sums accumulated from the front.
- `Cadence` holds the integer facts behind `iteration % log_every`.

Randomness, the clock and the transcendental functions are parameters:

- `Environment` gives `random.sample`'s pick and `random.random()`'s draw for each move number.
- The clock is the `now` or `clock` argument.
- `Maths` supplies `log2`, `hypot` and `exp`. The facts the proofs use are that
  `log2(1) = 0`, `hypot(0, 0) = 0` and `hypot(-x, -y) = hypot(x, y)`, and, for
  `CostOutcomeDependsOnKeys` and the worked example only, that `hypot` is never negative.

Behaviours of the code worth stating:

- `generate_random_layout` fails only when there are fewer positions than letters, with
  `IndexError`. Extra positions are ignored; equal sizes are not required.
- The search checks none of its parameters. A missing letter raises `KeyError`.
- The logger's `log` returns the move counters, reset to 0 after writing a row. The search then
  writes the best layout to the snapshot file again.
- `calculate_keyboard_cost` repeats the body of `calculate_keyboard_cost_components` line for
  line. The model computes it once (`CalculateKeyboardCost` returns the total of
  `CostComponents`), which behaves identically.
- The first script proposes swaps of `best_layout` in place (lines 44-45 and 53). That behaviour
  is modelled as written; see Findings.
- The digraph script counts the carried `digrafo` again at the last index of each sentence. A
  one-character sentence counts whatever pair came before it. This is modelled as written
  (`ScanRecountsLast`).

## Model

| member | source | states |
|---|---|---|
| LayoutCost.NormalizeProbabilityDictionary | annealing/clac_layout_cost.py:15-22 | fails with ValueError exactly when the total mass is at most 0; otherwise the same keys in the same order, each value divided by the total |
| LayoutCost.NormalizedSumsToOne | annealing/clac_layout_cost.py:17-22 | a normalised table's values sum to 1 |
| LayoutCost.NormalizeIsIdempotent | annealing/clac_layout_cost.py:15-22 | normalising a normalised table gives it back unchanged |
| LayoutCost.NormalizeUnitMass | annealing/clac_layout_cost.py:19-22 | a table whose mass is already 1 normalises to itself |
| LayoutCost.NormalizeScaleInvariant | annealing/clac_layout_cost.py:17-22 | counts and probabilities normalise alike: any positive multiple of a table normalises to the same result |
| LayoutCost.NormalizedScaledEntry | annealing/clac_layout_cost.py:19-22 | each entry of a scaled, normalised table is the original entry over the original mass |
| LayoutCost.ComputeHomePoint | annealing/clac_layout_cost.py:25-32 | ZeroDivisionError exactly for an empty layout; otherwise the point's x (y) times the key count is the sum of the x (y) coordinates, i.e. the mean |
| LayoutCost.HomePointLayoutAgnostic | annealing/clac_layout_cost.py:25-32 | two layouts with the same multiset of positions have the same home point, whichever letter holds which key |
| LayoutCost.MovementTimeDiagonal | annealing/clac_layout_cost.py:35-70 | moving from a key to itself takes exactly the intercept `a` |
| LayoutCost.MovementTimeSymmetric | annealing/clac_layout_cost.py:62-70 | the movement time from s to t equals that from t to s |
| LayoutCost.LetterToIndex | annealing/clac_layout_cost.py:49-50 | a bijection between the layout's letters and 0..n-1 that follows key order, in both directions |
| LayoutCost.MatrixEntryIsMovementTime | annealing/clac_layout_cost.py:52-70 | matrix entry [i][j] is the movement time from letter i to letter j |
| LayoutCost.BuildFittsCostMatrixForLayout | annealing/clac_layout_cost.py:35-73 | raises exactly the exception `MatrixError` names (ZeroDivisionError for a width of 0, ValueError when `math.log2` leaves its domain); otherwise a fresh n×n matrix whose every entry [i][j] is the Fitts time from key i to key j, plus the letter-to-index map |
| LayoutCost.FillRow | annealing/clac_layout_cost.py:58-70 | one pass of the outer loop raises exactly when the width is 0 (ZeroDivisionError) or some entry of the row has a `log2` argument that is not positive (ValueError); otherwise it fills row `from_index` with the Fitts times; every other row is unchanged either way |
| LayoutCost.FillMatrix | annealing/clac_layout_cost.py:58-70 | the outer loop raises exactly `MatrixError`'s exception, and otherwise fills every entry with its Fitts time |
| LayoutCost.FittsTime | annealing/clac_layout_cost.py:35-37 | `a + b·log2(distance / width + 1)`, defined for a non-zero width |
| LayoutCost.Distance | annealing/clac_layout_cost.py:62-64 | the `math.hypot` of the coordinate differences, as the matrix and the letter loop take it |
| LayoutCost.MatrixError | annealing/clac_layout_cost.py:35-70 | no exception for an empty layout; ZeroDivisionError for a width of 0; ValueError when some pair of positions gives `math.log2` an argument that is not positive |
| LayoutCost.MatrixErrorOfRearrangement | annealing/clac_layout_cost.py:58-70 | two position lists with the same multiset raise the same matrix exception |
| LayoutCost.MatrixNeverRaises | annealing/clac_layout_cost.py:35-37 | with a positive width and a non-negative `hypot`, no argument of `math.log2` is out of its domain |
| LayoutCost.DigraphTerm | annealing/clac_layout_cost.py:110-117 | one digraph either raises (IndexError for fewer than two characters, KeyError for an unknown letter) or adds P(d) times the matrix entry of its two letters |
| LayoutCost.DigraphCostLoop | annealing/clac_layout_cost.py:107-117 | the loop returns the error of the first digraph, in iteration order, that raises, and otherwise the sum of P(d)·M[d0][d1] |
| LayoutCost.FirstDigraphErrorOfPrefix | annealing/clac_layout_cost.py:109-114 | an error among the first m digraphs is the loop's error, whatever follows |
| LayoutCost.DigraphCostFails | annealing/clac_layout_cost.py:109-117 | the first digraph that raises decides the outcome |
| LayoutCost.DigraphCostCompletes | annealing/clac_layout_cost.py:108-117 | a loop that raises nothing yields the accumulated sum |
| LayoutCost.FirstDigraphErrorNone | annealing/clac_layout_cost.py:109-114 | no error exactly when every digraph has two characters, both in the layout |
| LayoutCost.SingleLetterCostLoop | annealing/clac_layout_cost.py:119-127 | KeyError at the first letter absent from the layout; otherwise the sum of P(l) times the distance to the home point |
| LayoutCost.NormalizedInputs | annealing/clac_layout_cost.py:95-97 | with `normalize_inputs` false the tables pass through unchanged; a success yields valid tables |
| LayoutCost.CalculateKeyboardCostComponents | annealing/clac_layout_cost.py:133-173 | the digraph cost, the single-letter cost and the weighted total, or the first exception, as `CostComponents` defines them |
| LayoutCost.CostOfNormalizedLoops | annealing/clac_layout_cost.py:148-173 | the matrix, the two loops and the weighted total computed in place agree with `CostOfNormalized` |
| LayoutCost.CalculateKeyboardCost | annealing/clac_layout_cost.py:76-130 | fails when the components fail, and otherwise returns their total: the two functions agree |
| LayoutCost.CostScaleInvariant | annealing/clac_layout_cost.py:95-97 | with normalisation on, scaling either table by a positive factor does not change the outcome |
| LayoutCost.NormalizedInputsNeedNoNormalization | annealing/clac_layout_cost.py:85-97 | for tables that already sum to 1, `normalize_inputs` on and off give the same outcome |
| LayoutCost.MissingLetterFails | annealing/clac_layout_cost.py:122-124 | a layout lacking a letter of the letter table cannot be priced |
| LayoutCost.CostOutcomeDependsOnKeys | annealing/clac_layout_cost.py:35-37 | for a key width of at least 0 and a non-negative `hypot`, whether a layout can be priced depends only on its keys, not on their positions |
| LayoutCost.CostOutcomeOfRearrangement | annealing/clac_layout_cost.py:133-173 | for any parameters, layouts with the same keys and the same multiset of positions are both priced or both fail |
| LayoutCost.AfterMatrixDependsOnKeys | annealing/clac_layout_cost.py:157-173 | once the matrix raises the same for both, the two loops and the home point succeed or fail by the keys alone |
| LayoutCost.NegativeWidthOutcomeDependsOnPositions | annealing/clac_layout_cost.py:35-37 | with `key_width = -1`, two keys 1 apart raise ValueError (`log2(0)`) while the same keys on one spot are priced |
| LayoutCost.CostOfNormalized | annealing/clac_layout_cost.py:148-173 | the matrix's exception, then the digraph loop's, then the home point's, then the letter loop's; otherwise both costs and their weighted total |
| LayoutCost.CostComponents | annealing/clac_layout_cost.py:133-173 | a normalisation failure first, when asked to normalise; then `CostOfNormalized` of the tables it used |
| LayoutCost.ExampleDigraphCost | annealing/clac_layout_cost.py:107-117 | two keys one unit apart, digraph "ab" with weight 1: the digraph cost is log2(2) = 1 |
| LayoutCost.ExampleHomePoint | annealing/clac_layout_cost.py:25-32 | keys at (0,0) and (1,0) have home point (0.5, 0) |
| LayoutCost.ExampleLetterCost | annealing/clac_layout_cost.py:119-127 | letter "a" with weight 1 at distance 0.5 from home costs 0.5 |
| LayoutCost.TwoKeyExample | annealing/clac_layout_cost.py:133-173 | with a non-negative `hypot`, the worked example's components are 1, 0.5 and 1·1 + 0.1·0.5 = 1.05 |
| Annealing.GenerateLayout | annealing/simulated_annealing_keyboard.py:9-14 | IndexError exactly when there are fewer positions than letters; otherwise letter i is bound to position i, in order |
| Annealing.GenerateLayoutBijection | annealing/simulated_annealing_keyboard.py:9-14 | for distinct letters and as many positions, the layout's keys are the letters, letter i sits at position i, and the positions are used once each |
| Annealing.GenerateRandomLayout | annealing/simulated_annealing_keyboard.py:9-14 | the caller's list is shuffled in place into the generator's permutation, and the layout is built from it |
| Annealing.SwapTwoLetters | annealing/simulated_annealing_keyboard.py:17-22 | a new layout with the same keys: the two sampled letters exchange positions and every other letter keeps its own |
| Annealing.SwapIsArrangement | annealing/simulated_annealing_keyboard.py:17-22 | a swap keeps the multiset of positions |
| Annealing.SwapIsInvolution | annealing/simulated_annealing_keyboard.py:17-22 | swapping the same two letters again restores the layout |
| Annealing.ArrangementIsTransitive | annealing/simulated_annealing_keyboard.py:56-75 | a rearrangement of a rearrangement of the initial layout is one of it |
| Annealing.AcceptNeighbour | annealing/simulated_annealing_keyboard.py:25-33 | a neighbour that is no worse is always accepted, a worse one at temperature ≤ 0 never, and otherwise exactly when the draw is below exp(-Δ/T) |
| Annealing.AcceptMonotoneInDraw | annealing/simulated_annealing_keyboard.py:32-33 | a smaller draw accepts whatever a larger one accepts |
| Annealing.AcceptMonotoneInTemperature | annealing/simulated_annealing_keyboard.py:30-33 | with an increasing exp, a hotter temperature accepts whatever a colder one accepts |
| Annealing.Decide | annealing/simulated_annealing_keyboard.py:73-89 | each move appends the current cost and the temperature to the histories, one entry each |
| Annealing.Propose | annealing/simulated_annealing_keyboard.py:70-89 | a move that is priced keeps the current layout's keys |
| Annealing.Step | annealing/simulated_annealing_keyboard.py:70-112 | one inner iteration keeps the keys and adds one entry to each history, at this temperature |
| Annealing.KeyboardStepSucceeds | annealing/simulated_annealing_keyboard.py:70-73 | if the current layout can be priced, so can any swap of it |
| Annealing.DescendingIsPairwise | annealing/simulated_annealing_keyboard.py:78-81 | every snapshot written is no better than any later one |
| Annealing.StepPreservesInvariant | annealing/simulated_annealing_keyboard.py:70-112 | a move keeps the search invariant, resets the counters exactly when a row was logged, never raises the best cost and records its temperature |
| Annealing.ProposeMovesWithinArrangements | annealing/simulated_annealing_keyboard.py:70-81 | the decided layouts are priced rearrangements of the initial layout, the best gets no worse, and at most one snapshot, holding the new best, is written |
| Annealing.DecideWithinArrangements | annealing/simulated_annealing_keyboard.py:73-81 | the same for the decision on any priced rearrangement, accepted or not |
| Annealing.DecidedKeepsInvariant | annealing/simulated_annealing_keyboard.py:83-112 | the counters and logging after a decision keep the invariant; the counters are 0 exactly when a row was logged |
| Annealing.AfterLogKeeps | annealing/simulated_annealing_keyboard.py:102-112 | the snapshot written after a logged row keeps the snapshot file consistent, ending with the best |
| Annealing.DecidedSnapshotsAgree | annealing/simulated_annealing_keyboard.py:78-81 | after a decision every snapshot holds a priced rearrangement no better than the best, and the last one is the best |
| Annealing.InvariantCarriesOver | annealing/simulated_annealing_keyboard.py:56-89 | a successor that keeps priced rearrangements, a best no worse and one more history entry keeps the invariant |
| Annealing.SnapshotsLower | annealing/simulated_annealing_keyboard.py:78-79 | a lower best cost keeps the earlier snapshots valid |
| Annealing.SnapshotsAppend | annealing/simulated_annealing_keyboard.py:78-81 | writing a best no worse than the last snapshot keeps the sequence descending |
| Annealing.AnnealStep | annealing/simulated_annealing_keyboard.py:70-112 | the imperative move equals `Step` on the logger's cadence; the logger counts one call, and gains a row, with the components of the current layout, exactly on the cadence |
| Annealing.ProposeMove | annealing/simulated_annealing_keyboard.py:70-73 | the swapped copy, its true cost and the acceptance decision, as `Propose` has them |
| Annealing.RecordMove | annealing/simulated_annealing_keyboard.py:73-89 | the bookkeeping on the loop variables, as `Decide` has it |
| Annealing.LogMove | annealing/simulated_annealing_keyboard.py:94-112 | components only when a row is due, a row exactly then, the counters reset and the best rewritten after a row |
| Annealing.TemperatureSchedule | annealing/simulated_annealing_keyboard.py:68-69 | `steps` passes record `steps · iterations_per_temperature` temperatures |
| Annealing.ScheduleEntry | annealing/simulated_annealing_keyboard.py:68-114 | move j is recorded at the temperature of pass j / iterations_per_temperature |
| Annealing.CoolingPositive | annealing/simulated_annealing_keyboard.py:114 | cooling by a rate in (0, 1) keeps the temperature positive |
| Annealing.CoolingLowers | annealing/simulated_annealing_keyboard.py:114 | a later pass is never hotter than an earlier one |
| Annealing.ScheduleAboveFinal | annealing/simulated_annealing_keyboard.py:68-89 | every move is made above the final temperature |
| Annealing.ScheduleNonIncreasing | annealing/simulated_annealing_keyboard.py:88-114 | the temperature history never rises |
| Annealing.CoolingProgress | annealing/simulated_annealing_keyboard.py:68-114 | a pass strictly lowers a non-negative measure, so the outer loop terminates |
| Annealing.Moves | annealing/simulated_annealing_keyboard.py:69-112 | `count` moves keep the keys, record `count` costs, and record the pass temperature `count` times |
| Annealing.Passes | annealing/simulated_annealing_keyboard.py:68-114 | `steps` passes keep the keys and record the cooling schedule as the temperature history |
| Annealing.PassCount | annealing/simulated_annealing_keyboard.py:68-114 | the loop makes at least one pass exactly when the initial temperature is above the final one |
| Annealing.PassCountIsFirstBelow | annealing/simulated_annealing_keyboard.py:68-114 | every counted pass runs above the final temperature, and the temperature after the last is not |
| Annealing.RunCools | annealing/simulated_annealing_keyboard.py:68-114 | in a whole run every move is above the final temperature and the temperatures never rise |
| Annealing.MovesFailEarly | annealing/simulated_annealing_keyboard.py:17-22 | with fewer than two keys, `random.sample` raises ValueError at the first move |
| Annealing.MovesKeepInvariant | annealing/simulated_annealing_keyboard.py:69-112 | a pass keeps the invariant and raises (ValueError) exactly when it has moves to make and fewer than two keys to swap |
| Annealing.PassesKeepInvariant | annealing/simulated_annealing_keyboard.py:68-114 | every pass keeps the invariant; the run raises exactly when it has moves to make and fewer than two keys |
| Annealing.StartInvariant | annealing/simulated_annealing_keyboard.py:56-66 | the initial state (current = best = initial, no history) satisfies the invariant |
| Annealing.AnnealOutcome | annealing/simulated_annealing_keyboard.py:46-121 | failure exactly when the initial layout cannot be priced (that error) or fewer than two keys must be swapped (ValueError); otherwise the best layout is a priced rearrangement of the initial one, costs the least seen, and is the last snapshot, and the temperatures follow the cooling schedule |
| Annealing.Anneal | annealing/simulated_annealing_keyboard.py:46-121 | the initial pricing's failure, or the passes of `PassCount` from the start state, each at its cooled temperature |
| Annealing.Report | annealing/simulated_annealing_keyboard.py:116-121 | the returned dict: best layout, best cost and the two histories of the final state |
| Annealing.NextMove | annealing/simulated_annealing_keyboard.py:69-112 | one turn of the inner loop advances `Moves` by one move and the logger by one call |
| Annealing.AnnealAtTemperature | annealing/simulated_annealing_keyboard.py:69-112 | the inner loop computes `Moves` for `range(iterations_per_temperature)`; on failure the logger is untouched |
| Annealing.CoolingPass | annealing/simulated_annealing_keyboard.py:68-114 | one outer iteration advances `Passes` by one pass, then cools the temperature by the rate |
| Annealing.CoolingPasses | annealing/simulated_annealing_keyboard.py:68-114 | the outer loop computes `Passes` for exactly `PassCount` passes |
| Annealing.SimulatedAnnealingOptimizeLayout | annealing/simulated_annealing_keyboard.py:46-121 | returns the report of `Anneal`; the logger is closed after a run that completes, and it has counted one call per move |
| LegacyAnnealing.GenerateRandomLayout | simulated_annealing_keyboard.py:8-13 | shuffles the caller's list in place; IndexError exactly when there are fewer positions than letters; otherwise a fresh dict binding letter i to position i |
| LegacyAnnealing.ScriptLayoutRaises | simulated_annealing_keyboard.py:79-84 | the script's 28 letters (its last letter decodes to two characters) and 27 positions raise IndexError, however they are shuffled |
| LegacyAnnealing.SwapTwoLetters | simulated_annealing_keyboard.py:16-19 | changes the dict itself and returns that same dict; ValueError with the dict unchanged when it has fewer than two keys |
| LegacyAnnealing.Step | simulated_annealing_keyboard.py:53-68 | a move swaps the shared dict in place, keeps its keys and adds one entry to each history |
| LegacyAnnealing.Moves | simulated_annealing_keyboard.py:52-68 | `count` moves keep the keys, record `count` costs, and record the pass temperature `count` times |
| LegacyAnnealing.Passes | simulated_annealing_keyboard.py:51-70 | the passes record the cooling schedule as the temperature history |
| LegacyAnnealing.StartInvariant | simulated_annealing_keyboard.py:42-50 | the initial state satisfies the invariant |
| LegacyAnnealing.StepKeepsInvariant | simulated_annealing_keyboard.py:53-66 | a move keeps the shared dict a priced rearrangement of the initial layout, with the best cost at most the current cost and every recorded cost |
| LegacyAnnealing.MovesKeepInvariant | simulated_annealing_keyboard.py:52-68 | a pass keeps the invariant and never raises the best cost; fewer than two keys raise ValueError |
| LegacyAnnealing.PassesKeepInvariant | simulated_annealing_keyboard.py:51-70 | every pass keeps the invariant; with an objective that prices every rearrangement, only the sampling can raise |
| LegacyAnnealing.AnnealOutcome | simulated_annealing_keyboard.py:33-77 | the run's failures, and that when it returns the best cost is at most the initial and every recorded cost, the dict is a rearrangement, and the temperatures follow the schedule |
| LegacyAnnealing.Anneal | simulated_annealing_keyboard.py:33-77 | the initial pricing's failure, or the passes of `PassCount` over the shared dict |
| LegacyAnnealing.Report | simulated_annealing_keyboard.py:72-77 | the returned dict, whose `best_layout` is the shared dict |
| LegacyAnnealing.RejectedSwapMisreportsBest | simulated_annealing_keyboard.py:44-63 | a run with one rejected uphill swap returns `best_cost` 1.0 with a `best_layout` whose cost is 2.0 |
| LegacyAnnealing.AnnealStep | simulated_annealing_keyboard.py:53-68 | the in-place move equals `Step`; the logger counts one call and writes a row exactly on its cadence; when the move raises, no row is written and the dict holds the swap (or, below two keys, is untouched) |
| LegacyAnnealing.NextMove | simulated_annealing_keyboard.py:52-68 | one turn of the inner loop advances `Moves` by one move, on the shared dict; it always raises below two keys; when it raises, the logger is unchanged and the dict is untouched (below two keys) or holds that move's swap |
| LegacyAnnealing.AnnealAtTemperature | simulated_annealing_keyboard.py:52-68 | the inner loop computes `Moves` on the shared dict; below two keys the dict and the logger are left exactly as they were |
| LegacyAnnealing.SimulatedAnnealingOptimizeLayout | simulated_annealing_keyboard.py:33-77 | returns `Anneal`'s outcome, with `best_layout` the very dict passed in; the logger is closed after a completed run; when the initial pricing raises or there are fewer than two keys, the dict, the rows and the call count are unchanged, and so they are after any failure when every rearrangement can be priced |
| LegacyAnnealing.OnlySamplingFails | simulated_annealing_keyboard.py:44-55 | when every rearrangement can be priced, a run fails only with fewer than two keys |
| ProgressLog.AcceptanceRatio | annealing/progress_logger.py:39 | 0 when no move was made, otherwise accepted over total |
| ProgressLog.AcceptanceRatioIsFraction | annealing/progress_logger.py:39 | for 0 ≤ accepted ≤ total the ratio lies in [0, 1] |
| ProgressLog.OpenedRows | annealing/progress_logger.py:12-27 | a new file starts with the header row; an existing one keeps its rows |
| ProgressLog.ProgressLogger.constructor | annealing/progress_logger.py:6-27 | iteration 0, the given file name, cadence and start time, and the opened rows |
| ProgressLog.ProgressLogger.ShouldLog | annealing/progress_logger.py:29-30 | true exactly when the next `log` call completes a block of `log_every` calls |
| ProgressLog.ProgressLogger.Log | annealing/progress_logger.py:32-51 | counts the call; on every `log_every`-th call appends the row of that iteration and returns (0, 0), and otherwise leaves the rows alone and returns the counters unchanged; the row count stays ⌊iteration / log_every⌋ plus the opened rows |
| ProgressLog.ProgressLogger.Close | annealing/progress_logger.py:53-54 | closes the file, changing nothing else |
| LegacyProgressLog.AcceptedFlag | progress_logger.py:41 | `int(accepted)` is 0 or 1, and 1 exactly when accepted |
| LegacyProgressLog.OpenedRows | progress_logger.py:12-25 | a new file starts with the six-column header row; an existing one keeps its rows |
| LegacyProgressLog.ProgressLogger.constructor | progress_logger.py:6-25 | iteration 0, the given file name, cadence and start time, and the opened rows |
| LegacyProgressLog.ProgressLogger.Log | progress_logger.py:27-43 | counts the call; appends a row exactly on every `log_every`-th call; nothing else changes |
| LegacyProgressLog.ProgressLogger.Close | progress_logger.py:45-46 | closes the file, changing nothing else |
| DigraphCount.Scan | data_analisis/digrafos_calc.py:9-12 | a sentence counts one digraph per character index |
| DigraphCount.ScanAll | data_analisis/digrafos_calc.py:8-12 | the sentences scanned in order, the carried `digrafo` passed from each to the next |
| DigraphCount.Counted | data_analisis/digrafos_calc.py:6-12 | every digraph the script counts, in order, with `digrafo` starting empty |
| DigraphCount.CountedLength | data_analisis/digrafos_calc.py:8-18 | `total_digraphs` is the number of characters in all sentences |
| DigraphCount.ScanCountsPairs | data_analisis/digrafos_calc.py:10-12 | every index but the last counts the pair that starts there |
| DigraphCount.ScanRecountsLast | data_analisis/digrafos_calc.py:6-12 | the last index counts the carried pair again: a sentence's final pair twice, or, for a one-character sentence, the pair carried in |
| DigraphCount.ScanCarriesLastPair | data_analisis/digrafos_calc.py:10-12 | after index n the carried `digrafo` is the pair ending at n |
| DigraphCount.EmptySentenceCountsNothing | data_analisis/digrafos_calc.py:2-10 | an empty sentence, such as the one after the last `;`, counts nothing |
| DigraphCount.Bump | data_analisis/digrafos_calc.py:15-17 | counting a digraph keeps the table a valid dict |
| DigraphCount.Tally | data_analisis/digrafos_calc.py:4-18 | `frecuency_digrafos` after counting the digraphs in order, starting from the empty dict |
| DigraphCount.TallyCounts | data_analisis/digrafos_calc.py:15-17 | the table holds exactly the digraphs counted, each with its number of occurrences |
| DigraphCount.BumpTotal | data_analisis/digrafos_calc.py:15-18 | counting one more digraph adds one to the sum of the counts |
| DigraphCount.TallySum | data_analisis/digrafos_calc.py:15-18 | the counts sum to the number of digraphs counted, i.e. `total_digraphs` |
| DigraphCount.CountOne | data_analisis/digrafos_calc.py:15-17 | entering a new digraph with 0 and then adding one counts it once more |
| DigraphCount.CountSentence | data_analisis/digrafos_calc.py:9-18 | the inner loop extends the table, the total and the carry by one sentence's scan |
| DigraphCount.CountDigraphs | data_analisis/digrafos_calc.py:4-18 | the table is the tally of the counted digraphs, the total is their number, and `digrafo` is the final carry |
| DigraphCount.InsertByCount | data_analisis/digrafos_calc.py:20 | inserting adds exactly the one item |
| DigraphCount.InsertKeepsDescending | data_analisis/digrafos_calc.py:20 | inserting into a table ordered by count keeps it ordered |
| DigraphCount.SortByCount | data_analisis/digrafos_calc.py:20 | the sorted items are a permutation of the items, with counts that never increase |
| DigraphCount.SortedTableOrdersByCount | data_analisis/digrafos_calc.py:20 | `val_based` has the same entries, with its keys rearranged so that the counts never increase |
| DigraphCount.NormalizeCounts | data_analisis/digrafos_calc.py:22-23 | ZeroDivisionError exactly when the table is non-empty and the total is 0; otherwise the same keys, each count divided by the total |
| DigraphCount.FrequenciesSumToOne | data_analisis/digrafos_calc.py:22-23 | counts divided by their own positive total sum to 1 |
| DigraphCount.SortedOfCounted | data_analisis/digrafos_calc.py:20 | `val_based` holds each counted digraph with its number of occurrences, ordered by that number |
| DigraphCount.SharesSumToOne | data_analisis/digrafos_calc.py:20-23 | the shares of a non-empty count sum to 1, in any order of the keys |
| DigraphCount.TallyMatches | data_analisis/digrafos_calc.py:15-17 | in the table, a digraph is present iff it was counted, with value its number of occurrences |
| DigraphCount.SharesOfCounted | data_analisis/digrafos_calc.py:20-23 | the normalised sorted table holds each counted digraph with share occurrences / total, ordered by count |
| DigraphCount.DigraphFrequencies | data_analisis/digrafos_calc.py:4-23 | the final table holds exactly the digraphs counted, each with its share of all digraphs counted, ordered by count; the shares sum to 1 whenever anything was counted; no division by zero occurs |
| Dashboard.ResultsNameRoundTrip | dashboard/app.py:23-26 | the name `results{k}.txt` that the annealing script writes is read back as number k |
| Dashboard.MatchOfShape | dashboard/app.py:23-26 | `results<middle>.txt` matches exactly when the middle is one or more digits, and its number is theirs |
| Dashboard.MatchResults | dashboard/app.py:23-26 | the number of a name `results<digits>.txt`, and nothing for any other name |
| Dashboard.MatchHasShape | dashboard/app.py:23-26 | every matching name is `results`, one or more digits, then `.txt` |
| Dashboard.LeadingZeroSameNumber | dashboard/app.py:23-26 | `results01.txt` and `results1.txt` both read as 1 |
| Dashboard.DecimalRoundTrip | dashboard/app.py:26 | reading back the digits of `f"{k}"` with `int` gives k |
| Dashboard.ResultsPathInjective | dashboard/app.py:11 | different counters name different results files |
| Dashboard.NextFileCounter | dashboard/app.py:10-12 | the least counter from 1 up whose results file does not exist: every earlier one exists |
| Dashboard.CsvPath | dashboard/app.py:13 | the progress-log path for the counter the probe found |
| Dashboard.ProbeIsUnique | annealing/simulated_annealing_keyboard.py:133-135 | exactly one counter has the probe's two properties, so the script and the dashboard agree on it |
| Dashboard.LatestAmong | dashboard/app.py:20-29 | a name that is found matches and is numbered by its digits |
| Dashboard.LatestResultsPath | dashboard/app.py:17-30 | nothing without the directory; otherwise the path of the first listed name with the largest number, or nothing if no name matches |
| Dashboard.LatestIsFirstLargest | dashboard/app.py:20-30 | None exactly when no name matches; otherwise no matching name has a larger number, and among ties the first in listing order wins |
| Dashboard.GetLatestResultsPath | dashboard/app.py:17-30 | the loop over the listing returns `LatestResultsPath`: None without the directory, otherwise the path of the first largest-numbered match |
| Dashboard.Lookup | dashboard/app.py:82 | `get` finds a value exactly when some item has the key |
| Dashboard.StripKeepsMiddle | dashboard/app.py:93 | `strip()` removes only leading and trailing white space and keeps the rest |
| Dashboard.StripIsIdempotent | dashboard/app.py:93 | stripping twice strips nothing more |
| Dashboard.FirstLine | dashboard/app.py:93 | `readline()` returns the text up to the first line break |
| Dashboard.FirstLineOfResults | dashboard/app.py:93 | the first line of a results file is the layout text written before the first `\n` |
| Dashboard.SnapshotLayout | dashboard/app.py:78-86 | the snapshot's `layout` when the file reads, parses to a dict and its `layout` is a dict |
| Dashboard.ResultsLayout | dashboard/app.py:88-104 | the dict on the stripped, non-empty first line of the latest results file |
| Dashboard.LoadKeyboardLayout | dashboard/app.py:77-104 | the snapshot's layout if there is one, else the results file's |
| Dashboard.LoadKeyboardLayoutSources | dashboard/app.py:77-104 | a usable live snapshot wins; any layout returned is the snapshot's `layout` dict or the dict on the stripped first line of the latest results file; with no results file, only the snapshot can supply a layout |
| Dashboard.Positions | dashboard/app.py:183-185 | the kept entries all hold a list or tuple of length 2 |
| Dashboard.PositionsAreExactlyPairs | dashboard/app.py:183-185 | the filter keeps exactly the entries holding a list or tuple of length 2 |
| Dashboard.PositionsIdempotent | dashboard/app.py:183-185 | filtering the kept entries again keeps all of them, in order |
| Dashboard.KeysOfKeptEntries | dashboard/app.py:182-187 | the keys are the kept entries, one for one and in order, converted; the answer fails exactly when some kept coordinate does not convert with `float` |
| Dashboard.KeysOfFailureSticks | dashboard/app.py:183-187 | once a conversion has raised, the endpoint fails, whatever follows |
| Dashboard.ApiKeyboard | dashboard/app.py:176-189 | 404 when no layout loads; otherwise the converted kept entries, or a server error raised by `float` |
| Dashboard.KeyboardResponse | dashboard/app.py:176-189 | 404 without a layout, a server error when a kept coordinate does not convert, otherwise the converted kept entries |

## Left out

- File I/O is not modelled. This covers reading the probability tables
  (`load_probability_dictionary_from_txt`, annealing/clac_layout_cost.py:5-12), the CSV writer,
  `flush`, the snapshot JSON and the results file. A file is the value written to it: the rows,
  the sequence of snapshots, or a `FileSystem` map. `os.path.exists`, `isfile`, `isdir` and
  `listdir` are parts of that map.
- Floating point is modelled with real numbers. The model has no rounding, no `inf` and no
  `nan`, and `float(x)` of a number is that number.
- `math.log2`, `math.hypot` and `math.exp` are uninterpreted functions. Only the three facts in
  `LayoutCost.Lawful` are assumed of them. As a result, Fitts time increasing with distance is
  not proved.
- Randomness is the `Environment`. `random.shuffle` is any permutation the caller supplies, and
  `random.sample` is any pair of distinct indices. `random.random()` is any real number. Uniform
  distributions are not modelled.
- `time.time()` is the `now` or `clock` argument.
- Annealing.Moves: the model checks whether `random.sample` has two keys once per move, on the
  layout's key count. The keys never change, so in the source the ValueError comes at the first
  move or never. This is the same outcome.
- Annealing.SimulatedAnnealingOptimizeLayout: requires `0 < final_temperature` and
  `0 < cooling_rate < 1` whenever `initial_temperature > final_temperature`, which both drivers
  meet. Runs with other values are not modelled. Some of them never end in real arithmetic (a
  cooling rate of 1, say). Others do: a cooling rate of at most 0 with a positive final
  temperature stops after one pass.
- Annealing.Anneal: the same requirement, for the same reason.
- Annealing.PassCount: the same requirement, for the same reason.
- LegacyAnnealing.SimulatedAnnealingOptimizeLayout: the same requirement, for the same reason.
- LegacyAnnealing.Anneal: the same requirement, for the same reason.
- LegacyAnnealing.SimulatedAnnealingOptimizeLayout: when pricing a swapped dict raises part-way
  through a run, the contract does not state what the dict holds or which rows were written
  before the exception. It states both only for failures before the first move. The same holds
  for LegacyAnnealing.AnnealAtTemperature. `LegacyAnnealing.NextMove` and
  `LegacyAnnealing.AnnealStep` do state that state for the single move that raises.
- LegacyAnnealing.AnnealAtTemperature: see the line above.
- LayoutCost.CostOutcomeDependsOnKeys: requires a key width of at least 0 and a non-negative
  `hypot`. With a negative width, `math.log2` raises ValueError for some positions and not for
  others, so the positions matter (`NegativeWidthOutcomeDependsOnPositions`).
  `CostOutcomeOfRearrangement` holds for every width.
- ProgressLog.ProgressLogger.constructor (and LegacyProgressLog.ProgressLogger.constructor alike)
  requires `log_every > 0`. With 0, Python raises ZeroDivisionError at the first `log` call. With
  a negative value, Python's floored `%` would be needed. Neither case is modelled.
- ProgressLog.ProgressLogger.Log: a row holds the elapsed time and the acceptance ratio
  unrounded. `round(…, 2)` and `round(…, 6)` are floating-point formatting.
- The print of acceptance statistics at annealing/simulated_annealing_keyboard.py:91-93 is left
  out, as is the final print of both scripts.
- The driver code of both annealing scripts is left out: the letter and position constants, the
  loading, the logger construction, the call, and the writing of the results file
  (annealing/simulated_annealing_keyboard.py:123-156, simulated_annealing_keyboard.py:79-108).
  Two parts of it are kept:
  - The results-file counter probe of annealing/simulated_annealing_keyboard.py:133-135 is
    `Dashboard.NextFileCounter`. The first script probes `result_log/results{k}.txt` instead
    (simulated_annealing_keyboard.py:89-91), a path this model does not name.
  - The first script's letters and positions are kept for `LegacyAnnealing.ScriptLayoutRaises`.
- The root-level clac_layout_cost.py that the first script imports is not part of this model.
  The first script's pricing is an `Objective` parameter.
- The commented-out QWERTY example at annealing/clac_layout_cost.py:177-196 is left out.
- The digraph script's file reading, `split(";")` and writing of the output
  (data_analisis/digrafos_calc.py:1-2 and 25-32, including the merge-conflict lines) are left
  out. The sentences are the model's input.
- DigraphCount.SortByCount: the contract states only that the result is a permutation in
  non-increasing count order. The defining function keeps Python's stable order among equal
  counts, but no contract states it.
- The dashboard's Flask routes other than `/api/keyboard` are left out: `index`, `/api/data`,
  `/api/summary` and `load_data` with pandas. `jsonify` is the `Response` datatype.
- `json.load`, `ast.literal_eval` and `float` of a string are parameters. Any exception they
  raise is `None`. A parsed value is the `Value` datatype, and a dict is its items in order.
  Such a dict has only string keys, so a layout like `{1: (0, 0)}`, which `ast.literal_eval`
  can return and the endpoint would emit, is not represented. Nothing stops the items from
  repeating a key, which no Python dict does.
- The regular expression's `\d` is modelled as the ASCII digits. In Python it also matches other
  Unicode decimal digits.
- `os.path.join` is modelled only for the fixed relative directory, which has no trailing `/`.

## Findings

| source | as written | input that shows it | evidently intended | confidence | as-written member | corrected member |
|---|---|---|---|---|---|---|
| simulated_annealing_keyboard.py:44-63 | `best_layout`, `current_layout` and `initial_layout` are one dict. `swap_two_letters(best_layout)` swaps it in place, so a rejected proposal still changes the returned `best_layout`. | Two letters a, b on keys (0,0) and (1,0), with a cost of 1 when a is on the left key and 2 otherwise. An `exp` of 0 makes every uphill move rejected. One pass runs with one move. The function returns `best_cost` 1.0 and a `best_layout` whose cost is 2.0. | Propose from a copy of the current layout, so that the returned best layout has the returned best cost. The later annealing/simulated_annealing_keyboard.py does this. | not executed | LegacyAnnealing.RejectedSwapMisreportsBest | Annealing.AnnealOutcome |
