/**
 * The simulated-annealing search for a low-cost layout (the version under
 * annealing/): random initial layouts, copy-on-write two-letter swaps, the
 * Metropolis acceptance rule and the cooling loop. The random generator is
 * an `Environment` of draws indexed by move number; the clock likewise.
 */
module Annealing {
  import opened Outcomes
  import opened Dicts
  import opened LayoutCost
  import Cadence
  import ProgressLog

  // ---------------------------------------------------------------- layout construction

  /** The dict the `update` loop builds from `letters[i] -> positions[i]`. */
  function ZipLayout(letters: seq<Symbol>, positions: seq<Point>): (layout: Layout)
    requires |letters| <= |positions|
    ensures layout.Valid()
  {
    Zip(letters, positions)
  }

  /** Lines 10-14 after the shuffle: IndexError when the positions run out first. */
  function GenerateLayout(letters: seq<Symbol>, positions: seq<Point>): (r: Result<Layout, Exception>)
    ensures r.Failure? <==> |positions| < |letters|
    ensures r.Failure? ==> r.error == IndexError
    ensures r.Success? ==> r.value == ZipLayout(letters, positions)
  {
    if |positions| < |letters| then Failure(IndexError) else Success(ZipLayout(letters, positions))
  }

  /** With distinct letters and as many positions, letter `i` sits at position `i`: a bijection. */
  lemma GenerateLayoutBijection(letters: seq<Symbol>, positions: seq<Point>)
    requires Distinct(letters) && |letters| == |positions|
    ensures GenerateLayout(letters, positions).Success?
    ensures GenerateLayout(letters, positions).value.keys == letters
    ensures GenerateLayout(letters, positions).value.Values() == positions
    ensures multiset(GenerateLayout(letters, positions).value.Values()) == multiset(positions)
  {
    var layout := ZipLayout(letters, positions);
    ZipOfDistinct(letters, positions);
    forall i | 0 <= i < |letters|
      ensures layout.Values()[i] == positions[i]
    {
      ZipEntry(letters, positions, i);
    }
  }

  /**
   * `generate_random_layout`: `random.shuffle` rearranges the caller's list in place
   * into `shuffled` (the generator's choice), then the dict is built from it.
   */
  method GenerateRandomLayout(letters: array<Symbol>, shuffled: seq<Symbol>, positions: seq<Point>)
    returns (r: Result<Layout, Exception>)
    requires multiset(shuffled) == multiset(letters[..])
    modifies letters
    ensures letters[..] == shuffled
    ensures r == GenerateLayout(shuffled, positions)
  {
    assert |shuffled| == |multiset(shuffled)| == |multiset(letters[..])| == letters.Length;
    forall i | 0 <= i < letters.Length {
      letters[i] := shuffled[i];
    }
    var randomLayout := EmptyDict();
    for i := 0 to letters.Length
      invariant letters[..] == shuffled
      invariant i <= |positions|
      invariant randomLayout == ZipLayout(letters[..i], positions)
    {
      if i >= |positions| {
        return Failure(IndexError);
      }
      assert letters[..i + 1][..i] == letters[..i];
      randomLayout := Put(randomLayout, letters[i], positions[i]);
    }
    assert letters[..letters.Length] == shuffled;
    return Success(randomLayout);
  }

  // ---------------------------------------------------------------- neighbour moves

  /** Same keys, same multiset of positions: a rearrangement of `initial`. */
  ghost predicate IsArrangementOf(layout: Layout, initial: Layout)
    requires layout.Valid() && initial.Valid()
  {
    layout.keys == initial.keys && multiset(layout.Values()) == multiset(initial.Values())
  }

  /** The two distinct key indices `random.sample(list(layout.keys()), 2)` returned. */
  ghost predicate IsPick(i: nat, j: nat, n: nat) {
    i < n && j < n && i != j
  }

  /** `swap_two_letters` on a copy of `layout`, with the sampled keys at indices `i` and `j`. */
  function SwapTwoLetters(layout: Layout, i: nat, j: nat): (swapped: Layout)
    requires layout.Valid() && IsPick(i, j, |layout.keys|)
    ensures swapped.Valid() && swapped.keys == layout.keys
    ensures swapped.entries[layout.keys[i]] == layout.entries[layout.keys[j]]
    ensures swapped.entries[layout.keys[j]] == layout.entries[layout.keys[i]]
    ensures forall k | k in layout.entries && k != layout.keys[i] && k != layout.keys[j] ::
      k in swapped.entries && swapped.entries[k] == layout.entries[k]
  {
    var letter1, letter2 := layout.keys[i], layout.keys[j];
    var value1, value2 := layout.entries[letter2], layout.entries[letter1];
    Put(Put(layout, letter1, value1), letter2, value2)
  }

  /** A swap only rearranges the positions. */
  lemma SwapIsArrangement(layout: Layout, i: nat, j: nat)
    requires layout.Valid() && IsPick(i, j, |layout.keys|)
    ensures multiset(SwapTwoLetters(layout, i, j).Values()) == multiset(layout.Values())
  {
    var vs := layout.Values();
    var ws := SwapTwoLetters(layout, i, j).Values();
    assert ws == vs[i := vs[j]][j := vs[i]];
  }

  lemma ArrangementIsTransitive(a: Layout, b: Layout, c: Layout)
    requires a.Valid() && b.Valid() && c.Valid()
    requires IsArrangementOf(a, b) && IsArrangementOf(b, c)
    ensures IsArrangementOf(a, c)
  {
  }

  /** Swapping the same two letters again restores the layout. */
  lemma SwapIsInvolution(layout: Layout, i: nat, j: nat)
    requires layout.Valid() && IsPick(i, j, |layout.keys|)
    ensures SwapTwoLetters(SwapTwoLetters(layout, i, j), i, j) == layout
  {
    var back := SwapTwoLetters(SwapTwoLetters(layout, i, j), i, j);
    SameKeysSameDomain(back, layout);
    assert back.entries == layout.entries;
  }

  // ---------------------------------------------------------------- acceptance

  /** `accetpt_neighbour`, with `random.random()` as `draw` and `math.exp` as `exp`. */
  function AcceptNeighbour(currentCost: real, neighbourCost: real, temperature: real, draw: real, exp: real -> real)
    : (accept: bool)
    ensures neighbourCost <= currentCost ==> accept
    ensures neighbourCost > currentCost && temperature <= 0.0 ==> !accept
    ensures neighbourCost > currentCost && temperature > 0.0 ==>
      (accept <==> draw < exp(-(neighbourCost - currentCost) / temperature))
  {
    var costDifference := neighbourCost - currentCost;
    if costDifference <= 0.0 then true
    else if temperature <= 0.0 then false
    else
      var acceptanceProbability := exp(-costDifference / temperature);
      draw < acceptanceProbability
  }

  /** A smaller draw accepts whatever a larger draw accepts. */
  lemma AcceptMonotoneInDraw(currentCost: real, neighbourCost: real, temperature: real, draw: real, smaller: real, exp: real -> real)
    requires smaller <= draw
    requires AcceptNeighbour(currentCost, neighbourCost, temperature, draw, exp)
    ensures AcceptNeighbour(currentCost, neighbourCost, temperature, smaller, exp)
  {
  }

  /** With an increasing `exp`, a hotter search accepts whatever a colder one accepts. */
  lemma AcceptMonotoneInTemperature(currentCost: real, neighbourCost: real, temperature: real, hotter: real, draw: real,
                                    exp: real -> real)
    requires forall x: real, y: real :: x <= y ==> exp(x) <= exp(y)
    requires 0.0 < temperature <= hotter
    requires AcceptNeighbour(currentCost, neighbourCost, temperature, draw, exp)
    ensures AcceptNeighbour(currentCost, neighbourCost, hotter, draw, exp)
  {
    var delta := neighbourCost - currentCost;
    if delta > 0.0 {
      DivideByLarger(delta, temperature, hotter);
      assert exp(-delta / temperature) <= exp(-delta / hotter);
    }
  }

  lemma DivideByLarger(x: real, t: real, u: real)
    requires x > 0.0 && 0.0 < t <= u
    ensures -x / t <= -x / u
  {
    assert x / u * u == x;
    assert x / t * t == x;
    if x / u > x / t {
      assert x / u * t > x / t * t;
      assert x / u * u >= x / u * t;
    }
  }

  // ---------------------------------------------------------------- the search

  /** The random generator and the clock, indexed by move number. */
  datatype Environment = Environment(pick: nat -> (nat, nat), draw: nat -> real, clock: nat -> real)

  /** `random.sample(keys, 2)` returns two distinct keys whenever there are two to return. */
  ghost predicate SamplesTwoKeys(env: Environment, n: nat) {
    n >= 2 ==> forall k: nat :: IsPick(env.pick(k).0, env.pick(k).1, n)
  }

  /** One `write_best_layout_snapshot` call: the payload written to the snapshot file. */
  datatype Snapshot = Snapshot(layout: Layout, bestCost: real)

  /** The dict `simmulated_annealing_optimize_layout` returns. */
  datatype AnnealingResult = AnnealingResult(bestLayout: Layout, bestCost: real,
                                             costHistory: seq<real>, temperatureHistory: seq<real>)

  /** The local variables of the search loop, with the snapshot file's successive contents. */
  datatype Search = Search(current: Layout, currentCost: real, best: Layout, bestCost: real,
                           totalMoves: int, acceptedMoves: int,
                           costHistory: seq<real>, temperatureHistory: seq<real>, snapshots: seq<Snapshot>)

  /** An objective the search minimises: a layout's cost, or the exception computing it raises. */
  type Objective = Layout -> Result<real, Exception>

  /** `calculate_keyboard_cost(layout, digraph_probs, letter_probs)` with the default keywords. */
  function KeyboardCost(layout: Layout, digraphProbs: ProbabilityTable, letterProbs: ProbabilityTable, maths: Maths)
    : Result<real, Exception>
    requires layout.Valid() && digraphProbs.Valid() && letterProbs.Valid()
  {
    TotalCost(CostComponents(layout, digraphProbs, letterProbs, DefaultParameters, maths))
  }

  /** The search's objective; there is no Python dict that is not a valid `Dict`, so the last branch is never taken. */
  ghost function KeyboardObjective(digraphProbs: ProbabilityTable, letterProbs: ProbabilityTable, maths: Maths): (cost: Objective)
    requires digraphProbs.Valid() && letterProbs.Valid()
    ensures forall layout: Layout | layout.Valid() :: cost(layout) == KeyboardCost(layout, digraphProbs, letterProbs, maths)
  {
    (layout: Layout) => if layout.Valid() then KeyboardCost(layout, digraphProbs, letterProbs, maths) else Failure(KeyError)
  }

  /** `cost` prices every layout as `calculate_keyboard_cost` does. */
  ghost predicate PricesLayouts(cost: Objective, digraphProbs: ProbabilityTable, letterProbs: ProbabilityTable, maths: Maths)
    requires digraphProbs.Valid() && letterProbs.Valid()
  {
    forall layout: Layout {:trigger KeyboardCost(layout, digraphProbs, letterProbs, maths)} | layout.Valid() ::
      cost(layout) == KeyboardCost(layout, digraphProbs, letterProbs, maths)
  }

  ghost predicate IsCostOf(layout: Layout, value: real, cost: Objective) {
    layout.Valid() && cost(layout) == Success(value)
  }

  /** Lines 73-89: the decision on a priced neighbour applied to the search state, before logging. */
  function Decide(s: Search, temperature: real, neighbour: Layout, neighbourCost: real, accept: bool): (t: Search)
    ensures t.costHistory == s.costHistory + [t.currentCost]
    ensures t.temperatureHistory == s.temperatureHistory + [temperature]
  {
    var current := if accept then neighbour else s.current;
    var currentCost := if accept then neighbourCost else s.currentCost;
    var improved := accept && currentCost < s.bestCost;
    var best := if improved then current else s.best;
    var bestCost := if improved then currentCost else s.bestCost;
    Search(current, currentCost, best, bestCost, s.totalMoves + 1, s.acceptedMoves + (if accept then 1 else 0),
           s.costHistory + [currentCost], s.temperatureHistory + [temperature],
           s.snapshots + if improved then [Snapshot(best, bestCost)] else [])
  }

  /** Lines 70-89: swap two letters of the current layout, price the result, decide; pricing may raise. */
  function Propose(s: Search, temperature: real, pick: (nat, nat), draw: real, cost: Objective, exp: real -> real)
    : (r: Result<Search, Exception>)
    requires s.current.Valid() && IsPick(pick.0, pick.1, |s.current.keys|)
    ensures r.Success? ==> r.value.current.Valid() && r.value.current.keys == s.current.keys
  {
    var neighbour := SwapTwoLetters(s.current, pick.0, pick.1);
    var neighbourCost := cost(neighbour);
    if neighbourCost.Failure? then Failure(neighbourCost.error)
    else
      var accept := AcceptNeighbour(s.currentCost, neighbourCost.value, temperature, draw, exp);
      Success(Decide(s, temperature, neighbour, neighbourCost.value, accept))
  }

  /** Lines 102-112: once `logger.log` wrote a row the counters restart and the best is written out again. */
  function AfterLog(t: Search, logged: bool): Search {
    if logged then t.(totalMoves := 0, acceptedMoves := 0, snapshots := t.snapshots + [Snapshot(t.best, t.bestCost)])
    else t
  }

  /** One pass of the inner loop (lines 70-112); `logged` is what `logger.should_log()` answered. */
  function Step(s: Search, temperature: real, pick: (nat, nat), draw: real, logged: bool, cost: Objective, exp: real -> real)
    : (r: Result<Search, Exception>)
    requires s.current.Valid() && IsPick(pick.0, pick.1, |s.current.keys|)
    ensures r.Success? ==> r.value.current.Valid() && r.value.current.keys == s.current.keys
    ensures r.Success? ==> r.value.temperatureHistory == s.temperatureHistory + [temperature]
    ensures r.Success? ==> |r.value.costHistory| == |s.costHistory| + 1
  {
    var decided := Propose(s, temperature, pick, draw, cost, exp);
    if decided.Failure? then decided else Success(AfterLog(decided.value, logged))
  }

  /** Pricing a swap of a layout `calculate_keyboard_cost` can price never raises. */
  lemma KeyboardStepSucceeds(s: Search, temperature: real, pick: (nat, nat), draw: real,
                             digraphProbs: ProbabilityTable, letterProbs: ProbabilityTable, maths: Maths, cost: Objective)
    requires digraphProbs.Valid() && letterProbs.Valid() && PricesLayouts(cost, digraphProbs, letterProbs, maths)
    requires IsCostOf(s.current, s.currentCost, cost)
    requires IsPick(pick.0, pick.1, |s.current.keys|)
    ensures Propose(s, temperature, pick, draw, cost, maths.exp).Success?
  {
    var swapped := SwapTwoLetters(s.current, pick.0, pick.1);
    assert cost(s.current) == KeyboardCost(s.current, digraphProbs, letterProbs, maths);
    assert cost(swapped) == KeyboardCost(swapped, digraphProbs, letterProbs, maths);
    SwapIsArrangement(s.current, pick.0, pick.1);
    CostOutcomeOfRearrangement(s.current, swapped, digraphProbs, letterProbs, DefaultParameters, maths);
  }

  /** A snapshot holds a rearrangement of the initial layout and that layout's true cost. */
  ghost predicate SnapshotHolds(snapshot: Snapshot, initial: Layout, cost: Objective)
    requires initial.Valid()
  {
    IsCostOf(snapshot.layout, snapshot.bestCost, cost) && IsArrangementOf(snapshot.layout, initial)
  }

  /** Each snapshot is no worse than the one written after it. */
  ghost predicate Descending(snapshots: seq<Snapshot>)
    decreases |snapshots|
  {
    |snapshots| < 2
    || (&& snapshots[|snapshots| - 1].bestCost <= snapshots[|snapshots| - 2].bestCost
        && Descending(snapshots[..|snapshots| - 1]))
  }

  /** In a descending run of snapshots every later one is at most every earlier one. */
  lemma {:induction false} DescendingIsPairwise(snapshots: seq<Snapshot>, i: nat, j: nat)
    requires Descending(snapshots) && i < j < |snapshots|
    ensures snapshots[j].bestCost <= snapshots[i].bestCost
    decreases |snapshots|
  {
    var n := |snapshots| - 1;
    var front := snapshots[..n];
    if j < n {
      DescendingIsPairwise(front, i, j);
    } else if i < n - 1 {
      DescendingIsPairwise(front, i, n - 1);
    }
  }

  lemma DescendingAppend(snapshots: seq<Snapshot>, snapshot: Snapshot)
    requires Descending(snapshots)
    requires snapshots != [] ==> snapshot.bestCost <= snapshots[|snapshots| - 1].bestCost
    ensures Descending(snapshots + [snapshot])
  {
    assert (snapshots + [snapshot])[..|snapshots|] == snapshots;
  }

  /** Every snapshot written holds, none is better than the best so far, and each is no worse than the one after it. */
  ghost predicate SnapshotsAgree(snapshots: seq<Snapshot>, initial: Layout, bestCost: real, cost: Objective)
    requires initial.Valid()
  {
    && (forall i | 0 <= i < |snapshots| ::
          SnapshotHolds(snapshots[i], initial, cost) && bestCost <= snapshots[i].bestCost)
    && Descending(snapshots)
  }

  /** What the search keeps true from move to move. */
  ghost predicate Invariant(s: Search, initial: Layout, initialCost: real, cost: Objective)
    requires initial.Valid()
  {
    && IsCostOf(s.current, s.currentCost, cost) && IsArrangementOf(s.current, initial)
    && IsCostOf(s.best, s.bestCost, cost) && IsArrangementOf(s.best, initial)
    && s.bestCost <= s.currentCost && s.bestCost <= initialCost
    && (forall j | 0 <= j < |s.costHistory| :: s.bestCost <= s.costHistory[j])
    && (s.bestCost == initialCost || s.bestCost in s.costHistory)
    && 0 <= s.acceptedMoves <= s.totalMoves
    && |s.costHistory| == |s.temperatureHistory|
    && SnapshotsAgree(s.snapshots, initial, s.bestCost, cost)
    && (s.snapshots == [] ==> s.best == initial && s.bestCost == initialCost)
    && (s.snapshots != [] ==> s.snapshots[|s.snapshots| - 1] == Snapshot(s.best, s.bestCost))
  }

  /** A move that does not raise keeps the invariant, restarts the counters exactly when logged, and never loses the best. */
  lemma StepPreservesInvariant(s: Search, temperature: real, pick: (nat, nat), draw: real, logged: bool,
                               cost: Objective, exp: real -> real, initial: Layout, initialCost: real)
    requires initial.Valid() && Invariant(s, initial, initialCost, cost)
    requires IsPick(pick.0, pick.1, |s.current.keys|)
    requires Step(s, temperature, pick, draw, logged, cost, exp).Success?
    ensures Invariant(Step(s, temperature, pick, draw, logged, cost, exp).value, initial, initialCost, cost)
    ensures Step(s, temperature, pick, draw, logged, cost, exp).value.totalMoves == 0 <==> logged
    ensures Step(s, temperature, pick, draw, logged, cost, exp).value.bestCost <= s.bestCost
    ensures Step(s, temperature, pick, draw, logged, cost, exp).value.temperatureHistory
         == s.temperatureHistory + [temperature]
  {
    ProposeMovesWithinArrangements(s, temperature, pick, draw, cost, exp, initial);
    DecidedKeepsInvariant(s, Propose(s, temperature, pick, draw, cost, exp).value, logged, initial, initialCost, cost);
  }

  /** A decided move with the properties `ProposeMovesWithinArrangements` gives keeps the invariant once logged. */
  lemma DecidedKeepsInvariant(s: Search, decided: Search, logged: bool, initial: Layout, initialCost: real, cost: Objective)
    requires initial.Valid() && Invariant(s, initial, initialCost, cost)
    requires IsCostOf(decided.current, decided.currentCost, cost) && IsArrangementOf(decided.current, initial)
    requires IsCostOf(decided.best, decided.bestCost, cost) && IsArrangementOf(decided.best, initial)
    requires decided.bestCost <= decided.currentCost && decided.bestCost <= s.bestCost
    requires 0 < decided.totalMoves && 0 <= decided.acceptedMoves <= decided.totalMoves
    requires decided.costHistory == s.costHistory + [decided.currentCost]
    requires |decided.temperatureHistory| == |s.temperatureHistory| + 1
    requires decided.snapshots == s.snapshots || decided.snapshots == s.snapshots + [Snapshot(decided.best, decided.bestCost)]
    requires decided.snapshots == s.snapshots ==> decided.best == s.best && decided.bestCost == s.bestCost
    requires decided.snapshots != s.snapshots ==> decided.bestCost == decided.currentCost
    ensures Invariant(AfterLog(decided, logged), initial, initialCost, cost)
    ensures AfterLog(decided, logged).totalMoves == 0 <==> logged
  {
    AfterLogKeeps(s, decided, logged, initial, cost);
    InvariantCarriesOver(s, AfterLog(decided, logged), initial, initialCost, cost);
  }

  /** The decided state's layouts are priced rearrangements and at most one snapshot, of the new best, was written. */
  lemma ProposeMovesWithinArrangements(s: Search, temperature: real, pick: (nat, nat), draw: real,
                                       cost: Objective, exp: real -> real, initial: Layout)
    requires initial.Valid()
    requires IsCostOf(s.current, s.currentCost, cost) && IsArrangementOf(s.current, initial)
    requires IsCostOf(s.best, s.bestCost, cost) && IsArrangementOf(s.best, initial)
    requires s.bestCost <= s.currentCost && 0 <= s.acceptedMoves <= s.totalMoves
    requires IsPick(pick.0, pick.1, |s.current.keys|)
    requires Propose(s, temperature, pick, draw, cost, exp).Success?
    ensures DecidedWithinArrangements(s, Propose(s, temperature, pick, draw, cost, exp).value, temperature, cost, initial)
  {
    var neighbour := SwapTwoLetters(s.current, pick.0, pick.1);
    SwapIsArrangement(s.current, pick.0, pick.1);
    var neighbourCost := cost(neighbour).value;
    var accept := AcceptNeighbour(s.currentCost, neighbourCost, temperature, draw, exp);
    DecideWithinArrangements(s, temperature, neighbour, neighbourCost, accept, cost, initial);
  }

  /** What one decision keeps: priced rearrangements, the best no worse, and at most one snapshot, of the new best. */
  ghost predicate DecidedWithinArrangements(s: Search, t: Search, temperature: real, cost: Objective, initial: Layout)
    requires initial.Valid()
  {
    && IsCostOf(t.current, t.currentCost, cost) && IsArrangementOf(t.current, initial)
    && IsCostOf(t.best, t.bestCost, cost) && IsArrangementOf(t.best, initial)
    && t.bestCost <= t.currentCost && t.bestCost <= s.bestCost
    && 0 < t.totalMoves && 0 <= t.acceptedMoves <= t.totalMoves
    && t.costHistory == s.costHistory + [t.currentCost]
    && t.temperatureHistory == s.temperatureHistory + [temperature]
    && (t.snapshots == s.snapshots || t.snapshots == s.snapshots + [Snapshot(t.best, t.bestCost)])
    && (t.snapshots == s.snapshots ==> t.best == s.best && t.bestCost == s.bestCost)
    && (t.snapshots != s.snapshots ==> t.bestCost == t.currentCost)
  }

  /** Deciding on a priced rearrangement, whether it is accepted or not. */
  lemma DecideWithinArrangements(s: Search, temperature: real, neighbour: Layout, neighbourCost: real, accept: bool,
                                 cost: Objective, initial: Layout)
    requires initial.Valid()
    requires IsCostOf(s.current, s.currentCost, cost) && IsArrangementOf(s.current, initial)
    requires IsCostOf(s.best, s.bestCost, cost) && IsArrangementOf(s.best, initial)
    requires s.bestCost <= s.currentCost && 0 <= s.acceptedMoves <= s.totalMoves
    requires IsCostOf(neighbour, neighbourCost, cost) && IsArrangementOf(neighbour, initial)
    ensures DecidedWithinArrangements(s, Decide(s, temperature, neighbour, neighbourCost, accept), temperature, cost,
                                      initial)
  {
  }

  /** Logging plus the snapshot after a logged row keep the snapshot file in agreement. */
  lemma AfterLogKeeps(s: Search, t: Search, logged: bool, initial: Layout, cost: Objective)
    requires initial.Valid()
    requires SnapshotsAgree(s.snapshots, initial, s.bestCost, cost)
    requires s.snapshots == [] ==> s.best == initial
    requires s.snapshots != [] ==> s.snapshots[|s.snapshots| - 1] == Snapshot(s.best, s.bestCost)
    requires SnapshotHolds(Snapshot(t.best, t.bestCost), initial, cost) && t.bestCost <= s.bestCost
    requires t.snapshots == s.snapshots || t.snapshots == s.snapshots + [Snapshot(t.best, t.bestCost)]
    requires t.snapshots == s.snapshots ==> t.best == s.best && t.bestCost == s.bestCost
    ensures SnapshotsAgree(AfterLog(t, logged).snapshots, initial, t.bestCost, cost)
    ensures AfterLog(t, logged).snapshots == [] ==> t.best == initial && t.snapshots == s.snapshots
    ensures AfterLog(t, logged).snapshots != [] ==>
      AfterLog(t, logged).snapshots[|AfterLog(t, logged).snapshots| - 1] == Snapshot(t.best, t.bestCost)
  {
    DecidedSnapshotsAgree(s, t, initial, cost);
    if logged {
      SnapshotsAppend(t.snapshots, Snapshot(t.best, t.bestCost), initial, cost);
    }
  }

  /** The decision alone, before any logging, keeps the snapshot file in agreement. */
  lemma DecidedSnapshotsAgree(s: Search, t: Search, initial: Layout, cost: Objective)
    requires initial.Valid()
    requires SnapshotsAgree(s.snapshots, initial, s.bestCost, cost)
    requires s.snapshots == [] ==> s.best == initial
    requires s.snapshots != [] ==> s.snapshots[|s.snapshots| - 1] == Snapshot(s.best, s.bestCost)
    requires SnapshotHolds(Snapshot(t.best, t.bestCost), initial, cost) && t.bestCost <= s.bestCost
    requires t.snapshots == s.snapshots || t.snapshots == s.snapshots + [Snapshot(t.best, t.bestCost)]
    requires t.snapshots == s.snapshots ==> t.best == s.best && t.bestCost == s.bestCost
    ensures SnapshotsAgree(t.snapshots, initial, t.bestCost, cost)
    ensures t.snapshots == [] ==> t.best == initial && t.snapshots == s.snapshots
    ensures t.snapshots != [] ==> t.snapshots[|t.snapshots| - 1] == Snapshot(t.best, t.bestCost)
  {
    SnapshotsLower(s.snapshots, initial, s.bestCost, t.bestCost, cost);
    if t.snapshots != s.snapshots {
      SnapshotsAppend(s.snapshots, Snapshot(t.best, t.bestCost), initial, cost);
    }
  }

  /** The invariant holds of any successor state with the properties one step guarantees. */
  lemma InvariantCarriesOver(s: Search, t: Search, initial: Layout, initialCost: real, cost: Objective)
    requires initial.Valid()
    requires Invariant(s, initial, initialCost, cost)
    requires IsCostOf(t.current, t.currentCost, cost) && IsArrangementOf(t.current, initial)
    requires IsCostOf(t.best, t.bestCost, cost) && IsArrangementOf(t.best, initial)
    requires t.bestCost <= t.currentCost && t.bestCost <= s.bestCost
    requires 0 <= t.acceptedMoves <= t.totalMoves
    requires t.costHistory == s.costHistory + [t.currentCost]
    requires |t.temperatureHistory| == |s.temperatureHistory| + 1
    requires t.bestCost == s.bestCost || t.bestCost == t.currentCost
    requires SnapshotsAgree(t.snapshots, initial, t.bestCost, cost)
    requires t.snapshots == [] ==> t.best == initial && t.bestCost == initialCost
    requires t.snapshots != [] ==> t.snapshots[|t.snapshots| - 1] == Snapshot(t.best, t.bestCost)
    ensures Invariant(t, initial, initialCost, cost)
  {
    forall j | 0 <= j < |t.costHistory|
      ensures t.bestCost <= t.costHistory[j]
    {
      if j < |s.costHistory| {
        assert t.costHistory[j] == s.costHistory[j];
      }
    }
  }

  /** A better best keeps the snapshots no better than it. */
  lemma SnapshotsLower(snapshots: seq<Snapshot>, initial: Layout, bestCost: real, lower: real, cost: Objective)
    requires initial.Valid()
    requires SnapshotsAgree(snapshots, initial, bestCost, cost)
    requires lower <= bestCost
    ensures SnapshotsAgree(snapshots, initial, lower, cost)
  {
  }

  /** Writing the best (which is no worse than any earlier snapshot) keeps the snapshots in agreement. */
  lemma SnapshotsAppend(snapshots: seq<Snapshot>, snapshot: Snapshot, initial: Layout, cost: Objective)
    requires initial.Valid()
    requires SnapshotsAgree(snapshots, initial, snapshot.bestCost, cost)
    requires SnapshotHolds(snapshot, initial, cost)
    ensures SnapshotsAgree(snapshots + [snapshot], initial, snapshot.bestCost, cost)
  {
    var extended := snapshots + [snapshot];
    forall i | 0 <= i < |extended|
      ensures SnapshotHolds(extended[i], initial, cost)
      ensures snapshot.bestCost <= extended[i].bestCost
    {
      if i < |snapshots| {
        assert extended[i] == snapshots[i];
      }
    }
    DescendingAppend(snapshots, snapshot);
  }

  // ---------------------------------------------------------------- the proposal loop

  /**
   * Lines 70-112: propose a swap of `s.current`, price it, accept or reject it,
   * record the move and log it. `pick`, `draw` and `now` are the generator's and the clock's answers.
   */
  method AnnealStep(s: Search, temperature: real, pick: (nat, nat), draw: real,
                    digraphProbs: ProbabilityTable, letterProbs: ProbabilityTable, maths: Maths, ghost cost: Objective,
                    logger: ProgressLog.ProgressLogger, now: real, ghost iteration: nat, ghost move: nat)
    returns (t: Search)
    requires digraphProbs.Valid() && letterProbs.Valid() && PricesLayouts(cost, digraphProbs, letterProbs, maths)
    requires IsCostOf(s.current, s.currentCost, cost)
    requires IsPick(pick.0, pick.1, |s.current.keys|) && 0 <= s.totalMoves
    requires logger.Valid() && !logger.closed && logger.iteration == iteration + move
    modifies logger
    ensures Step(s, temperature, pick, draw, LogsMove(logger.logEvery, iteration, move), cost,
                 maths.exp) == Success(t)
    ensures IsCostOf(t.current, t.currentCost, cost) && 0 <= t.totalMoves
    ensures logger.Valid() && !logger.closed && logger.iteration == old(logger.iteration) + 1
    ensures !LogsMove(logger.logEvery, iteration, move) ==> logger.rows == old(logger.rows)
    ensures LogsMove(logger.logEvery, iteration, move) ==>
      var decided := Propose(s, temperature, pick, draw, cost, maths.exp);
      var components := CostComponents(t.current, digraphProbs, letterProbs, DefaultParameters, maths);
      && decided.Success? && components.Success?
      && logger.rows == old(logger.rows) + [ProgressLog.Record(
           logger.iteration, now - logger.startTime, temperature, t.currentCost, t.bestCost,
           ProgressLog.AcceptanceRatio(decided.value.acceptedMoves, decided.value.totalMoves),
           Some(components.value.digraphCost), Some(components.value.singleLetterCost))]
  {
    ghost var logged := logger.ShouldLog();
    Cadence.PhaseIsRemainder(iteration + move + 1, logger.logEvery);
    assert logged == LogsMove(logger.logEvery, iteration, move);
    var neighbourLayout, neighbourCost, accept := ProposeMove(s, temperature, pick, draw, digraphProbs, letterProbs, maths, cost);
    var decided := RecordMove(s, temperature, neighbourLayout, neighbourCost, accept);
    assert IsCostOf(decided.current, decided.currentCost, cost);
    t := LogMove(decided, temperature, digraphProbs, letterProbs, maths, cost, logger, now);
    assert t == AfterLog(decided, LogsMove(logger.logEvery, iteration, move));
  }

  /** Lines 70-73: a swapped copy of the current layout, its cost, and whether the search moves to it. */
  method ProposeMove(s: Search, temperature: real, pick: (nat, nat), draw: real,
                     digraphProbs: ProbabilityTable, letterProbs: ProbabilityTable, maths: Maths, ghost cost: Objective)
    returns (neighbourLayout: Layout, neighbourCost: real, accept: bool)
    requires digraphProbs.Valid() && letterProbs.Valid() && PricesLayouts(cost, digraphProbs, letterProbs, maths)
    requires IsCostOf(s.current, s.currentCost, cost)
    requires IsPick(pick.0, pick.1, |s.current.keys|)
    ensures IsCostOf(neighbourLayout, neighbourCost, cost)
    ensures Propose(s, temperature, pick, draw, cost, maths.exp)
         == Success(Decide(s, temperature, neighbourLayout, neighbourCost, accept))
  {
    KeyboardStepSucceeds(s, temperature, pick, draw, digraphProbs, letterProbs, maths, cost);
    neighbourLayout := SwapTwoLetters(s.current, pick.0, pick.1);
    var outcome := CalculateKeyboardCost(neighbourLayout, digraphProbs, letterProbs, DefaultParameters, maths);
    assert cost(neighbourLayout) == KeyboardCost(neighbourLayout, digraphProbs, letterProbs, maths);
    neighbourCost := outcome.value;
    accept := AcceptNeighbour(s.currentCost, neighbourCost, temperature, draw, maths.exp);
  }

  /** The bookkeeping of lines 73-89 on the loop's variables. */
  method RecordMove(s: Search, temperature: real, neighbourLayout: Layout, neighbourCost: real, accept: bool)
    returns (t: Search)
    ensures t == Decide(s, temperature, neighbourLayout, neighbourCost, accept)
  {
    var currentLayout, currentCost := s.current, s.currentCost;
    var bestLayout, bestCost := s.best, s.bestCost;
    var snapshots := s.snapshots;
    if accept {
      currentLayout, currentCost := neighbourLayout, neighbourCost;
      if currentCost < bestCost {
        bestCost, bestLayout := currentCost, currentLayout;
        snapshots := snapshots + [Snapshot(bestLayout, bestCost)];
      }
    }
    var totalMoves := s.totalMoves + 1;
    var acceptedMoves := if accept then s.acceptedMoves + 1 else s.acceptedMoves;
    t := Search(currentLayout, currentCost, bestLayout, bestCost, totalMoves, acceptedMoves,
                s.costHistory + [currentCost], s.temperatureHistory + [temperature], snapshots);
  }

  /** Lines 94-112: the components when a row is due, the logger call, and the snapshot after a logged row. */
  method LogMove(decided: Search, temperature: real,
                 digraphProbs: ProbabilityTable, letterProbs: ProbabilityTable, maths: Maths, ghost cost: Objective,
                 logger: ProgressLog.ProgressLogger, now: real)
    returns (t: Search)
    requires digraphProbs.Valid() && letterProbs.Valid() && PricesLayouts(cost, digraphProbs, letterProbs, maths)
    requires IsCostOf(decided.current, decided.currentCost, cost)
    requires 0 < decided.totalMoves
    requires logger.Valid() && !logger.closed
    modifies logger
    ensures t == AfterLog(decided, old(logger.ShouldLog()))
    ensures logger.Valid() && !logger.closed && logger.iteration == old(logger.iteration) + 1
    ensures !old(logger.ShouldLog()) ==> logger.rows == old(logger.rows)
    ensures old(logger.ShouldLog()) ==>
      var components := CostComponents(decided.current, digraphProbs, letterProbs, DefaultParameters, maths);
      && components.Success?
      && logger.rows == old(logger.rows) + [ProgressLog.Record(
           logger.iteration, now - logger.startTime, temperature, decided.currentCost, decided.bestCost,
           ProgressLog.AcceptanceRatio(decided.acceptedMoves, decided.totalMoves),
           Some(components.value.digraphCost), Some(components.value.singleLetterCost))]
  {
    var digraphCost, singleLetterCost := None, None;
    if logger.ShouldLog() {
      var components := CalculateKeyboardCostComponents(decided.current, digraphProbs, letterProbs, DefaultParameters, maths);
      assert cost(decided.current) == KeyboardCost(decided.current, digraphProbs, letterProbs, maths);
      assert TotalCost(components) == cost(decided.current);
      digraphCost, singleLetterCost := Some(components.value.digraphCost), Some(components.value.singleLetterCost);
    }
    var acceptedMoves, totalMoves := logger.Log(temperature, decided.currentCost, decided.bestCost,
                                                decided.acceptedMoves, decided.totalMoves,
                                                digraphCost, singleLetterCost, now);
    t := decided.(totalMoves := totalMoves, acceptedMoves := acceptedMoves);
    if totalMoves == 0 {
      t := t.(snapshots := t.snapshots + [Snapshot(t.best, t.bestCost)]);
    }
  }

  // ---------------------------------------------------------------- the cooling schedule

  /** The temperature of the `k`-th pass of the outer loop: `cooling_rate` applied `k` times. */
  function OuterTemperature(initialTemperature: real, coolingRate: real, k: nat): real {
    if k == 0 then initialTemperature else OuterTemperature(initialTemperature, coolingRate, k - 1) * coolingRate
  }

  /** The number of moves `range(iterations_per_temperature)` makes. */
  function Iterations(iterationsPerTemperature: int): nat {
    if iterationsPerTemperature > 0 then iterationsPerTemperature else 0
  }

  /** The temperature history of one pass: `count` moves at `value`. */
  function Repeat(value: real, count: nat): (s: seq<real>)
    ensures |s| == count && forall i | 0 <= i < count :: s[i] == value
  {
    if count == 0 then [] else Repeat(value, count - 1) + [value]
  }

  lemma AppendRepeat(prefix: seq<real>, value: real, count: nat)
    ensures prefix + Repeat(value, count) + [value] == prefix + Repeat(value, count + 1)
  {
    assert Repeat(value, count + 1) == Repeat(value, count) + [value];
  }

  /** The temperature history of `steps` full passes of the outer loop. */
  function TemperatureSchedule(initialTemperature: real, coolingRate: real, iterationsPerTemperature: int, steps: nat)
    : (schedule: seq<real>)
    ensures |schedule| == steps * Iterations(iterationsPerTemperature)
  {
    if steps == 0 then []
    else
      TemperatureSchedule(initialTemperature, coolingRate, iterationsPerTemperature, steps - 1)
      + Repeat(OuterTemperature(initialTemperature, coolingRate, steps - 1), Iterations(iterationsPerTemperature))
  }

  /** Move `j` is made during pass `j / iterations_per_temperature`, at that pass's temperature. */
  lemma {:induction false} ScheduleEntry(initialTemperature: real, coolingRate: real, iterationsPerTemperature: int,
                                         steps: nat, j: nat)
    requires j < steps * Iterations(iterationsPerTemperature)
    ensures TemperatureSchedule(initialTemperature, coolingRate, iterationsPerTemperature, steps)[j]
         == OuterTemperature(initialTemperature, coolingRate, j / Iterations(iterationsPerTemperature))
  {
    var n := Iterations(iterationsPerTemperature);
    var before := TemperatureSchedule(initialTemperature, coolingRate, iterationsPerTemperature, steps - 1);
    if j < |before| {
      ScheduleEntry(initialTemperature, coolingRate, iterationsPerTemperature, steps - 1, j);
    } else {
      Cadence.DivModUnique(j, n, steps - 1, j - (steps - 1) * n);
    }
  }

  lemma CoolOnce(temperature: real, coolingRate: real, cooled: real)
    requires 0.0 < temperature && 0.0 < coolingRate < 1.0 && cooled == temperature * coolingRate
    ensures 0.0 < cooled <= temperature
  {
  }

  /** Cooling by a rate in (0, 1) keeps a positive temperature positive. */
  lemma {:induction false} CoolingPositive(initialTemperature: real, coolingRate: real, m: nat)
    requires 0.0 < initialTemperature && 0.0 < coolingRate < 1.0
    ensures 0.0 < OuterTemperature(initialTemperature, coolingRate, m)
  {
    if m > 0 {
      CoolingPositive(initialTemperature, coolingRate, m - 1);
      CoolOnce(OuterTemperature(initialTemperature, coolingRate, m - 1), coolingRate,
               OuterTemperature(initialTemperature, coolingRate, m));
    }
  }

  lemma CoolingStep(initialTemperature: real, coolingRate: real, m: nat)
    requires 0.0 < initialTemperature && 0.0 < coolingRate < 1.0
    ensures OuterTemperature(initialTemperature, coolingRate, m + 1) <= OuterTemperature(initialTemperature, coolingRate, m)
  {
    CoolingPositive(initialTemperature, coolingRate, m);
    CoolOnce(OuterTemperature(initialTemperature, coolingRate, m), coolingRate,
             OuterTemperature(initialTemperature, coolingRate, m + 1));
  }

  /** Cooling by a rate in (0, 1) never raises a positive temperature. */
  lemma {:induction false} CoolingLowers(initialTemperature: real, coolingRate: real, k: nat, m: nat)
    requires 0.0 < initialTemperature && 0.0 < coolingRate < 1.0 && k <= m
    ensures OuterTemperature(initialTemperature, coolingRate, m) <= OuterTemperature(initialTemperature, coolingRate, k)
    decreases m
  {
    if k < m {
      CoolingLowers(initialTemperature, coolingRate, k, m - 1);
      CoolingStep(initialTemperature, coolingRate, m - 1);
    }
  }

  lemma MulMonotone(a: int, b: int, n: int)
    requires n >= 0
    ensures a >= b ==> a * n >= b * n
  {
  }

  lemma PositiveFactor(m: nat, n: nat)
    requires m * n > 0
    ensures n > 0
  {
  }

  lemma QuotientBelow(j: nat, n: nat, steps: nat)
    requires n > 0 && j < steps * n
    ensures j / n < steps
  {
    MulMonotone(j / n, steps, n);
  }

  lemma QuotientMonotone(i: nat, j: nat, n: nat)
    requires n > 0 && i <= j
    ensures i / n <= j / n
  {
    MulMonotone(i / n, j / n + 1, n);
  }

  /** Every move is made above the final temperature. */
  lemma ScheduleAboveFinal(initialTemperature: real, finalTemperature: real, coolingRate: real,
                           iterationsPerTemperature: int, steps: nat, j: nat)
    requires forall k: nat | k < steps :: OuterTemperature(initialTemperature, coolingRate, k) > finalTemperature
    requires j < |TemperatureSchedule(initialTemperature, coolingRate, iterationsPerTemperature, steps)|
    ensures TemperatureSchedule(initialTemperature, coolingRate, iterationsPerTemperature, steps)[j] > finalTemperature
  {
    ScheduleEntry(initialTemperature, coolingRate, iterationsPerTemperature, steps, j);
    QuotientBelow(j, Iterations(iterationsPerTemperature), steps);
  }

  /** A later move is made in the same pass or a later one, so at a temperature no higher. */
  lemma PassOrdered(initialTemperature: real, coolingRate: real, i: nat, j: nat, n: nat)
    requires 0.0 < initialTemperature && 0.0 < coolingRate < 1.0 && n > 0 && i <= j
    ensures OuterTemperature(initialTemperature, coolingRate, j / n) <= OuterTemperature(initialTemperature, coolingRate, i / n)
  {
    QuotientMonotone(i, j, n);
    CoolingLowers(initialTemperature, coolingRate, i / n, j / n);
  }

  /** The temperature history never rises. */
  lemma ScheduleNonIncreasing(initialTemperature: real, coolingRate: real, iterationsPerTemperature: int,
                              steps: nat, i: nat, j: nat)
    requires 0.0 < initialTemperature && 0.0 < coolingRate < 1.0
    requires i <= j < |TemperatureSchedule(initialTemperature, coolingRate, iterationsPerTemperature, steps)|
    ensures TemperatureSchedule(initialTemperature, coolingRate, iterationsPerTemperature, steps)[j]
         <= TemperatureSchedule(initialTemperature, coolingRate, iterationsPerTemperature, steps)[i]
  {
    var n := Iterations(iterationsPerTemperature);
    PositiveFactor(steps, n);
    ScheduleEntry(initialTemperature, coolingRate, iterationsPerTemperature, steps, i);
    ScheduleEntry(initialTemperature, coolingRate, iterationsPerTemperature, steps, j);
    PassOrdered(initialTemperature, coolingRate, i, j, n);
  }

  /**
   * A bound on the passes left: each pass lowers the temperature by more than
   * `final_temperature * (1 - cooling_rate)`, which is positive.
   */
  function CoolingMeasure(temperature: real, finalTemperature: real, coolingRate: real): int {
    if 0.0 < finalTemperature < temperature && 0.0 < coolingRate < 1.0
    then (temperature / (finalTemperature * (1.0 - coolingRate))).Floor
    else 0
  }

  /** The outer loop terminates: a pass strictly lowers the measure, which stays non-negative. */
  lemma CoolingProgress(temperature: real, finalTemperature: real, coolingRate: real)
    requires 0.0 < finalTemperature < temperature && 0.0 < coolingRate < 1.0
    ensures 0 <= CoolingMeasure(temperature * coolingRate, finalTemperature, coolingRate)
              < CoolingMeasure(temperature, finalTemperature, coolingRate)
  {
    var gap := finalTemperature * (1.0 - coolingRate);
    var cooled := temperature * coolingRate;
    CoolingGap(temperature, finalTemperature, coolingRate);
    DivideMonotone(gap, temperature, gap);
    assert gap / gap == 1.0;
    if cooled > finalTemperature {
      DivideMonotone(cooled, temperature - gap, gap);
      DivideLessOne(temperature, gap);
      DivideMonotone(0.0, cooled, gap);
      FloorLess(cooled / gap, temperature / gap);
    }
  }

  lemma CoolingGap(temperature: real, finalTemperature: real, coolingRate: real)
    requires 0.0 < finalTemperature < temperature && 0.0 < coolingRate < 1.0
    ensures 0.0 < finalTemperature * (1.0 - coolingRate) < finalTemperature
    ensures temperature * coolingRate <= temperature - finalTemperature * (1.0 - coolingRate)
  {
    var gap := finalTemperature * (1.0 - coolingRate);
    var cooled := temperature * coolingRate;
    var above, kept := temperature - finalTemperature, 1.0 - coolingRate;
    PositiveProduct(above, kept);
    var slack := above * kept;
    assert slack > 0.0;
    assert slack == temperature - cooled - gap;
    assert cooled <= temperature - gap;
  }

  lemma DivideMonotone(x: real, y: real, g: real)
    requires g > 0.0 && x <= y
    ensures x / g <= y / g
  {
  }

  lemma DivideLessOne(t: real, g: real)
    requires g > 0.0
    ensures (t - g) / g == t / g - 1.0
  {
    var p, q := (t - g) / g, t / g;
    assert p * g == t - g;
    assert q * g == t;
    assert (p - q + 1.0) * g == 0.0;
    ZeroProduct(p - q + 1.0, g);
  }

  lemma ZeroProduct(a: real, g: real)
    requires g != 0.0 && a * g == 0.0
    ensures a == 0.0
  {
  }

  lemma PositiveProduct(a: real, b: real)
    requires a > 0.0 && b > 0.0
    ensures a * b > 0.0
  {
  }

  lemma FloorLess(a: real, b: real)
    requires a <= b - 1.0
    ensures a.Floor < b.Floor
  {
  }

  // ---------------------------------------------------------------- the annealing run

  /** The search state before the first move: both layouts are the initial one, nothing recorded. */
  function Start(initial: Layout, initialCost: real): Search {
    Search(initial, initialCost, initial, initialCost, 0, 0, [], [], [])
  }

  /** Whether `logger.log` writes a row on move `move` of a run started after `iteration` calls. */
  function LogsMove(logEvery: int, iteration: nat, move: nat): bool
    requires logEvery > 0
  {
    Cadence.Phase(iteration + move + 1, logEvery) == 0
  }

  /**
   * The first `count` moves at one temperature (lines 69-112). Move `k` of the run
   * uses the generator's `k`-th answers; `random.sample` raises ValueError on fewer than two keys.
   */
  function Moves(s: Search, temperature: real, count: nat, env: Environment, logEvery: int, iteration: nat,
                 cost: Objective, exp: real -> real): (r: Result<Search, Exception>)
    requires s.current.Valid() && SamplesTwoKeys(env, |s.current.keys|) && logEvery > 0
    ensures r.Success? ==> r.value.current.Valid() && r.value.current.keys == s.current.keys
    ensures r.Success? ==> r.value.temperatureHistory == s.temperatureHistory + Repeat(temperature, count)
    ensures r.Success? ==> |r.value.costHistory| == |s.costHistory| + count
    decreases count
  {
    if count == 0 then Success(s)
    else
      var previous := Moves(s, temperature, count - 1, env, logEvery, iteration, cost, exp);
      if previous.Failure? then previous
      else if |previous.value.current.keys| < 2 then Failure(ValueError)
      else
        var t := previous.value;
        var k := |t.costHistory|;
        AppendRepeat(s.temperatureHistory, temperature, count - 1);
        Step(t, temperature, env.pick(k), env.draw(k), LogsMove(logEvery, iteration, k), cost, exp)
  }

  /** The first `steps` passes of the outer loop (lines 68-114), pass `p` at `OuterTemperature(.., p)`. */
  function Passes(start: Search, initialTemperature: real, coolingRate: real, iterationsPerTemperature: int, steps: nat,
                  env: Environment, logEvery: int, iteration: nat, cost: Objective, exp: real -> real)
    : (r: Result<Search, Exception>)
    requires start.current.Valid() && SamplesTwoKeys(env, |start.current.keys|) && logEvery > 0
    ensures r.Success? ==> r.value.current.Valid() && r.value.current.keys == start.current.keys
    ensures r.Success? ==>
      r.value.temperatureHistory
      == start.temperatureHistory + TemperatureSchedule(initialTemperature, coolingRate, iterationsPerTemperature, steps)
    ensures r.Success? ==>
      |r.value.costHistory| - |start.costHistory| == |r.value.temperatureHistory| - |start.temperatureHistory|
    decreases steps
  {
    if steps == 0 then Success(start)
    else
      var previous := Passes(start, initialTemperature, coolingRate, iterationsPerTemperature, steps - 1,
                             env, logEvery, iteration, cost, exp);
      if previous.Failure? then previous
      else
        var temperature := OuterTemperature(initialTemperature, coolingRate, steps - 1);
        var schedule := TemperatureSchedule(initialTemperature, coolingRate, iterationsPerTemperature, steps - 1);
        assert start.temperatureHistory + schedule + Repeat(temperature, Iterations(iterationsPerTemperature))
            == start.temperatureHistory + TemperatureSchedule(initialTemperature, coolingRate, iterationsPerTemperature, steps);
        Moves(previous.value, temperature, Iterations(iterationsPerTemperature), env, logEvery, iteration, cost, exp)
  }

  /** How many passes the outer loop makes: how often `cooling_rate` applies before reaching the final temperature. */
  function PassCount(temperature: real, finalTemperature: real, coolingRate: real): (count: nat)
    requires temperature > finalTemperature ==> 0.0 < finalTemperature && 0.0 < coolingRate < 1.0
    ensures count > 0 <==> temperature > finalTemperature
    decreases CoolingMeasure(temperature, finalTemperature, coolingRate)
  {
    if temperature <= finalTemperature then 0
    else
      CoolingProgress(temperature, finalTemperature, coolingRate);
      1 + PassCount(temperature * coolingRate, finalTemperature, coolingRate)
  }

  /** `simmulated_annealing_optimize_layout` on the generator `env` and a logger that had made `iteration` calls. */
  ghost function Anneal(initialLayout: Layout, digraphProbs: ProbabilityTable, letterProbs: ProbabilityTable,
                        initialTemperature: real, finalTemperature: real, coolingRate: real,
                        iterationsPerTemperature: int, env: Environment, logEvery: int, iteration: nat, maths: Maths)
    : Result<Search, Exception>
    requires initialLayout.Valid() && digraphProbs.Valid() && letterProbs.Valid()
    requires initialTemperature > finalTemperature ==> 0.0 < finalTemperature && 0.0 < coolingRate < 1.0
    requires SamplesTwoKeys(env, |initialLayout.keys|) && logEvery > 0
  {
    var initialCost := KeyboardCost(initialLayout, digraphProbs, letterProbs, maths);
    if initialCost.Failure? then Failure(initialCost.error)
    else
      Passes(Start(initialLayout, initialCost.value), initialTemperature, coolingRate, iterationsPerTemperature,
             PassCount(initialTemperature, finalTemperature, coolingRate), env, logEvery, iteration,
             KeyboardObjective(digraphProbs, letterProbs, maths), maths.exp)
  }

  /** The dict the function returns, built from the search's final state. */
  function Report(s: Search): AnnealingResult {
    AnnealingResult(s.best, s.bestCost, s.costHistory, s.temperatureHistory)
  }

  // ---------------------------------------------------------------- what the run guarantees

  /** The moves of one temperature keep the invariant and raise only when there are fewer than two keys to swap. */
  lemma {:induction false} MovesKeepInvariant(s: Search, temperature: real, count: nat, env: Environment,
                                              logEvery: int, iteration: nat, digraphProbs: ProbabilityTable,
                                              letterProbs: ProbabilityTable, maths: Maths, cost: Objective,
                                              initial: Layout, initialCost: real)
    requires digraphProbs.Valid() && letterProbs.Valid() && PricesLayouts(cost, digraphProbs, letterProbs, maths)
    requires initial.Valid()
    requires Invariant(s, initial, initialCost, cost)
    requires SamplesTwoKeys(env, |s.current.keys|) && logEvery > 0
    ensures var r := Moves(s, temperature, count, env, logEvery, iteration,
                           cost, maths.exp);
      && (r.Failure? <==> count > 0 && |s.current.keys| < 2)
      && (r.Failure? ==> r.error == ValueError)
      && (r.Success? ==> Invariant(r.value, initial, initialCost, cost))
    decreases count
  {
    if count > 0 {
      MovesKeepInvariant(s, temperature, count - 1, env, logEvery, iteration, digraphProbs, letterProbs, maths,
                         cost, initial, initialCost);
      var previous := Moves(s, temperature, count - 1, env, logEvery, iteration, cost, maths.exp);
      if previous.Success? && |previous.value.current.keys| >= 2 {
        var t := previous.value;
        var k := |t.costHistory|;
        KeyboardStepSucceeds(t, temperature, env.pick(k), env.draw(k), digraphProbs, letterProbs, maths, cost);
        var logged := LogsMove(logEvery, iteration, k);
        assert Moves(s, temperature, count, env, logEvery, iteration, cost, maths.exp)
            == Step(t, temperature, env.pick(k), env.draw(k), logged, cost, maths.exp);
        StepPreservesInvariant(t, temperature, env.pick(k), env.draw(k), logged, cost, maths.exp, initial, initialCost);
      }
    }
  }

  /** Every pass keeps the invariant; the run raises only when it would have to swap fewer than two keys. */
  lemma {:induction false} PassesKeepInvariant(start: Search, initialTemperature: real, coolingRate: real,
                                               iterationsPerTemperature: int, steps: nat, env: Environment,
                                               logEvery: int, iteration: nat, digraphProbs: ProbabilityTable,
                                               letterProbs: ProbabilityTable, maths: Maths, cost: Objective,
                                               initial: Layout, initialCost: real)
    requires digraphProbs.Valid() && letterProbs.Valid() && PricesLayouts(cost, digraphProbs, letterProbs, maths)
    requires initial.Valid()
    requires Invariant(start, initial, initialCost, cost)
    requires SamplesTwoKeys(env, |start.current.keys|) && logEvery > 0
    ensures var r := Passes(start, initialTemperature, coolingRate, iterationsPerTemperature, steps, env, logEvery,
                            iteration, cost, maths.exp);
      && (r.Failure? <==> steps > 0 && iterationsPerTemperature > 0 && |start.current.keys| < 2)
      && (r.Failure? ==> r.error == ValueError)
      && (r.Success? ==> Invariant(r.value, initial, initialCost, cost))
    decreases steps
  {
    if steps > 0 {
      PassesKeepInvariant(start, initialTemperature, coolingRate, iterationsPerTemperature, steps - 1, env, logEvery,
                          iteration, digraphProbs, letterProbs, maths, cost, initial, initialCost);
      var previous := Passes(start, initialTemperature, coolingRate, iterationsPerTemperature, steps - 1,
                             env, logEvery, iteration, cost, maths.exp);
      if previous.Success? {
        MovesKeepInvariant(previous.value, OuterTemperature(initialTemperature, coolingRate, steps - 1),
                           Iterations(iterationsPerTemperature), env, logEvery, iteration,
                           digraphProbs, letterProbs, maths, cost, initial, initialCost);
      }
    }
  }

  lemma StartInvariant(initial: Layout, initialCost: real, cost: Objective)
    requires initial.Valid() && IsCostOf(initial, initialCost, cost)
    ensures Invariant(Start(initial, initialCost), initial, initialCost, cost)
  {
  }

  /**
   * What a run delivers: it raises exactly when the initial layout cannot be priced
   * (that exception) or when it must swap fewer than two keys (ValueError); otherwise
   * the best layout is a priced rearrangement of the initial one whose cost is the least
   * seen, the snapshot file ends with it, and the temperatures follow the cooling schedule.
   */
  lemma AnnealOutcome(initialLayout: Layout, digraphProbs: ProbabilityTable, letterProbs: ProbabilityTable,
                      initialTemperature: real, finalTemperature: real, coolingRate: real,
                      iterationsPerTemperature: int, env: Environment, logEvery: int, iteration: nat, maths: Maths)
    requires initialLayout.Valid() && digraphProbs.Valid() && letterProbs.Valid()
    requires initialTemperature > finalTemperature ==> 0.0 < finalTemperature && 0.0 < coolingRate < 1.0
    requires SamplesTwoKeys(env, |initialLayout.keys|) && logEvery > 0
    ensures var initialCost := KeyboardCost(initialLayout, digraphProbs, letterProbs, maths);
      var run := Anneal(initialLayout, digraphProbs, letterProbs, initialTemperature, finalTemperature, coolingRate,
                        iterationsPerTemperature, env, logEvery, iteration, maths);
      && (run.Failure? <==> initialCost.Failure? || (|initialLayout.keys| < 2 && initialTemperature > finalTemperature
                                                     && iterationsPerTemperature > 0))
      && (run.Failure? ==> run.error == if initialCost.Failure? then initialCost.error else ValueError)
      && (run.Success? ==>
            Invariant(run.value, initialLayout, initialCost.value, KeyboardObjective(digraphProbs, letterProbs, maths)))
      && (run.Success? ==>
            (run.value.temperatureHistory
             == TemperatureSchedule(initialTemperature, coolingRate, iterationsPerTemperature,
                                    PassCount(initialTemperature, finalTemperature, coolingRate))))
  {
    var initialCost := KeyboardCost(initialLayout, digraphProbs, letterProbs, maths);
    if initialCost.Success? {
      ghost var cost := KeyboardObjective(digraphProbs, letterProbs, maths);
      var start := Start(initialLayout, initialCost.value);
      StartInvariant(initialLayout, initialCost.value, cost);
      PassesKeepInvariant(start, initialTemperature, coolingRate, iterationsPerTemperature,
                          PassCount(initialTemperature, finalTemperature, coolingRate), env, logEvery, iteration,
                          digraphProbs, letterProbs, maths, cost, initialLayout, initialCost.value);
      assert start.temperatureHistory == [];
    }
  }

  /** `OuterTemperature` counted from the second pass. */
  lemma {:induction false} OuterShift(initialTemperature: real, coolingRate: real, k: nat)
    ensures OuterTemperature(initialTemperature, coolingRate, k + 1)
         == OuterTemperature(initialTemperature * coolingRate, coolingRate, k)
  {
    if k > 0 {
      OuterShift(initialTemperature, coolingRate, k - 1);
    }
  }

  /** The run makes a pass for each temperature above the final one, and stops at the first that is not. */
  lemma PassCountIsFirstBelow(temperature: real, finalTemperature: real, coolingRate: real)
    requires temperature > finalTemperature ==> 0.0 < finalTemperature && 0.0 < coolingRate < 1.0
    ensures OuterTemperature(temperature, coolingRate, PassCount(temperature, finalTemperature, coolingRate))
         <= finalTemperature
    ensures forall k: nat | k < PassCount(temperature, finalTemperature, coolingRate) ::
      OuterTemperature(temperature, coolingRate, k) > finalTemperature
    decreases CoolingMeasure(temperature, finalTemperature, coolingRate)
  {
    if temperature > finalTemperature {
      var cooled := temperature * coolingRate;
      CoolingProgress(temperature, finalTemperature, coolingRate);
      PassCountIsFirstBelow(cooled, finalTemperature, coolingRate);
      var count := PassCount(cooled, finalTemperature, coolingRate);
      OuterShift(temperature, coolingRate, count);
      forall k: nat | k < count + 1
        ensures OuterTemperature(temperature, coolingRate, k) > finalTemperature
      {
        if k > 0 {
          OuterShift(temperature, coolingRate, k - 1);
        }
      }
    }
  }

  /** Every move of a run is made above the final temperature, and the temperature never rises. */
  lemma RunCools(initialTemperature: real, finalTemperature: real, coolingRate: real, iterationsPerTemperature: int)
    requires initialTemperature > finalTemperature ==> 0.0 < finalTemperature && 0.0 < coolingRate < 1.0
    ensures var schedule := TemperatureSchedule(initialTemperature, coolingRate, iterationsPerTemperature,
                                                PassCount(initialTemperature, finalTemperature, coolingRate));
      && (forall j | 0 <= j < |schedule| :: schedule[j] > finalTemperature)
      && (forall i, j | 0 <= i <= j < |schedule| :: schedule[j] <= schedule[i])
  {
    var steps := PassCount(initialTemperature, finalTemperature, coolingRate);
    var schedule := TemperatureSchedule(initialTemperature, coolingRate, iterationsPerTemperature, steps);
    if steps > 0 {
      PassCountIsFirstBelow(initialTemperature, finalTemperature, coolingRate);
      forall j | 0 <= j < |schedule|
        ensures schedule[j] > finalTemperature
      {
        ScheduleAboveFinal(initialTemperature, finalTemperature, coolingRate, iterationsPerTemperature, steps, j);
      }
      forall i, j | 0 <= i <= j < |schedule|
        ensures schedule[j] <= schedule[i]
      {
        ScheduleNonIncreasing(initialTemperature, coolingRate, iterationsPerTemperature, steps, i, j);
      }
    }
  }

  /** With fewer than two keys the first move raises, and so does every longer run of moves. */
  lemma {:induction false} MovesFailEarly(s: Search, temperature: real, count: nat, env: Environment,
                                          logEvery: int, iteration: nat, cost: Objective, exp: real -> real)
    requires s.current.Valid() && SamplesTwoKeys(env, |s.current.keys|) && logEvery > 0
    requires |s.current.keys| < 2 && count > 0
    ensures Moves(s, temperature, count, env, logEvery, iteration, cost, exp) == Failure(ValueError)
    decreases count
  {
    if count > 1 {
      MovesFailEarly(s, temperature, count - 1, env, logEvery, iteration, cost, exp);
    }
  }

  /** Once a pass raises, the run has raised. */
  lemma {:induction false} PassesFailureSticks(start: Search, initialTemperature: real, coolingRate: real,
                                               iterationsPerTemperature: int, m: nat, n: nat, env: Environment,
                                               logEvery: int, iteration: nat, cost: Objective, exp: real -> real)
    requires start.current.Valid() && SamplesTwoKeys(env, |start.current.keys|) && logEvery > 0
    requires m <= n
    requires Passes(start, initialTemperature, coolingRate, iterationsPerTemperature, m, env, logEvery, iteration,
                    cost, exp).Failure?
    ensures Passes(start, initialTemperature, coolingRate, iterationsPerTemperature, n, env, logEvery, iteration, cost, exp)
         == Passes(start, initialTemperature, coolingRate, iterationsPerTemperature, m, env, logEvery, iteration, cost, exp)
    decreases n
  {
    if m < n {
      PassesFailureSticks(start, initialTemperature, coolingRate, iterationsPerTemperature, m, n - 1, env, logEvery,
                          iteration, cost, exp);
    }
  }

  /** One more move: the loop's step from `i` moves to `i + 1`. */
  lemma MovesStep(s0: Search, temperature: real, count: nat, env: Environment, logEvery: int, iteration: nat,
                  cost: Objective, exp: real -> real, s: Search, t: Search)
    requires s0.current.Valid() && SamplesTwoKeys(env, |s0.current.keys|) && logEvery > 0
    requires Moves(s0, temperature, count, env, logEvery, iteration, cost, exp) == Success(s)
    requires |s.current.keys| >= 2
    requires Step(s, temperature, env.pick(|s.costHistory|), env.draw(|s.costHistory|),
                  LogsMove(logEvery, iteration, |s.costHistory|), cost, exp) == Success(t)
    ensures Moves(s0, temperature, count + 1, env, logEvery, iteration, cost, exp) == Success(t)
  {
  }

  /** One more pass: the outer loop's step from `done` passes to `done + 1`. */
  lemma PassesStep(start: Search, initialTemperature: real, coolingRate: real, iterationsPerTemperature: int,
                   done: nat, env: Environment, logEvery: int, iteration: nat,
                   cost: Objective, exp: real -> real, s: Search)
    requires start.current.Valid() && SamplesTwoKeys(env, |start.current.keys|) && logEvery > 0
    requires Passes(start, initialTemperature, coolingRate, iterationsPerTemperature, done, env, logEvery, iteration,
                    cost, exp) == Success(s)
    ensures s.current.Valid() && SamplesTwoKeys(env, |s.current.keys|)
    ensures Passes(start, initialTemperature, coolingRate, iterationsPerTemperature, done + 1, env, logEvery, iteration,
                   cost, exp)
         == Moves(s, OuterTemperature(initialTemperature, coolingRate, done), Iterations(iterationsPerTemperature),
                  env, logEvery, iteration, cost, exp)
  {
  }

  /** A run whose initial layout is priced is the passes `PassCount` counts, from the start state. */
  lemma AnnealUnfolds(initialLayout: Layout, digraphProbs: ProbabilityTable, letterProbs: ProbabilityTable,
                      initialTemperature: real, finalTemperature: real, coolingRate: real,
                      iterationsPerTemperature: int, env: Environment, logEvery: int, iteration: nat, maths: Maths,
                      initialCost: real, steps: nat)
    requires initialLayout.Valid() && digraphProbs.Valid() && letterProbs.Valid()
    requires initialTemperature > finalTemperature ==> 0.0 < finalTemperature && 0.0 < coolingRate < 1.0
    requires SamplesTwoKeys(env, |initialLayout.keys|) && logEvery > 0
    requires KeyboardCost(initialLayout, digraphProbs, letterProbs, maths) == Success(initialCost)
    requires steps == PassCount(initialTemperature, finalTemperature, coolingRate)
    ensures Anneal(initialLayout, digraphProbs, letterProbs, initialTemperature, finalTemperature, coolingRate,
                   iterationsPerTemperature, env, logEvery, iteration, maths)
         == Passes(Start(initialLayout, initialCost), initialTemperature, coolingRate, iterationsPerTemperature, steps,
                   env, logEvery, iteration, KeyboardObjective(digraphProbs, letterProbs, maths), maths.exp)
  {
  }

  /** The next pass's temperature is this one's, cooled. */
  lemma OuterNext(initialTemperature: real, coolingRate: real, done: nat, next: nat, temperature: real, cooled: real)
    requires next == done + 1
    requires temperature == OuterTemperature(initialTemperature, coolingRate, done) && cooled == temperature * coolingRate
    ensures cooled == OuterTemperature(initialTemperature, coolingRate, next)
  {
  }

  /** A pass above the final temperature is one of those `PassCount` counts. */
  lemma PassCountNext(temperature: real, cooled: real, finalTemperature: real, coolingRate: real)
    requires 0.0 < finalTemperature < temperature && 0.0 < coolingRate < 1.0 && cooled == temperature * coolingRate
    ensures PassCount(temperature, finalTemperature, coolingRate) == 1 + PassCount(cooled, finalTemperature, coolingRate)
  {
  }

  // ---------------------------------------------------------------- the annealing loops

  /** One turn of the loop of lines 69-112: move `i` of `s0`'s pass, on the generator's answers for that move. */
  method NextMove(s0: Search, s: Search, temperature: real, ghost i: nat, ghost next: nat,
                  digraphProbs: ProbabilityTable, letterProbs: ProbabilityTable, maths: Maths, ghost cost: Objective,
                  logger: ProgressLog.ProgressLogger, env: Environment, ghost iteration: nat)
    returns (t: Search)
    requires digraphProbs.Valid() && letterProbs.Valid() && PricesLayouts(cost, digraphProbs, letterProbs, maths)
    requires s0.current.Valid() && SamplesTwoKeys(env, |s0.current.keys|)
    requires logger.Valid() && !logger.closed
    requires Moves(s0, temperature, i, env, logger.logEvery, iteration,
                   cost, maths.exp) == Success(s)
    requires IsCostOf(s.current, s.currentCost, cost)
    requires 0 <= s.totalMoves && |s.current.keys| >= 2 && next == i + 1
    requires logger.iteration == iteration + |s.costHistory|
    modifies logger
    ensures Moves(s0, temperature, next, env, logger.logEvery, iteration,
                  cost, maths.exp) == Success(t)
    ensures IsCostOf(t.current, t.currentCost, cost) && 0 <= t.totalMoves
    ensures t.current.keys == s.current.keys
    ensures logger.Valid() && !logger.closed && old(logger.rows) <= logger.rows
    ensures logger.iteration == iteration + |t.costHistory|
  {
    var k := |s.costHistory|;
    t := AnnealStep(s, temperature, env.pick(k), env.draw(k), digraphProbs, letterProbs, maths, cost, logger, env.clock(k),
                    iteration, k);
    MovesStep(s0, temperature, i, env, logger.logEvery, iteration, cost,
              maths.exp, s, t);
  }

  /** Lines 69-112: the moves of one temperature, `Moves` computed in place on the loop's variables. */
  method AnnealAtTemperature(s0: Search, temperature: real, iterationsPerTemperature: int,
                             digraphProbs: ProbabilityTable, letterProbs: ProbabilityTable, maths: Maths, ghost cost: Objective,
                             logger: ProgressLog.ProgressLogger, env: Environment, ghost iteration: nat)
    returns (r: Result<Search, Exception>)
    requires digraphProbs.Valid() && letterProbs.Valid() && PricesLayouts(cost, digraphProbs, letterProbs, maths)
    requires IsCostOf(s0.current, s0.currentCost, cost)
    requires 0 <= s0.totalMoves && SamplesTwoKeys(env, |s0.current.keys|)
    requires logger.Valid() && !logger.closed && logger.iteration == iteration + |s0.costHistory|
    modifies logger
    ensures r == Moves(s0, temperature, Iterations(iterationsPerTemperature), env, logger.logEvery, iteration,
                       cost, maths.exp)
    ensures logger.Valid() && !logger.closed && old(logger.rows) <= logger.rows
    ensures r.Failure? ==> logger.rows == old(logger.rows) && logger.iteration == old(logger.iteration)
    ensures r.Failure? ==> |s0.current.keys| < 2 && iterationsPerTemperature > 0
    ensures r.Success? ==>
      && IsCostOf(r.value.current, r.value.currentCost, cost)
      && r.value.current.keys == s0.current.keys && 0 <= r.value.totalMoves
      && logger.iteration == iteration + |r.value.costHistory|
  {
    // The keys never change, so `random.sample` raises on the first move or on none.
    if |s0.current.keys| < 2 && iterationsPerTemperature > 0 {
      MovesFailEarly(s0, temperature, Iterations(iterationsPerTemperature), env, logger.logEvery, iteration,
                     cost, maths.exp);
      return Failure(ValueError);
    }
    var s := s0;
    var i := 0;
    while i < iterationsPerTemperature
      invariant 0 <= i <= Iterations(iterationsPerTemperature)
      invariant Moves(s0, temperature, i, env, logger.logEvery, iteration, cost, maths.exp) == Success(s)
      invariant IsCostOf(s.current, s.currentCost, cost) && 0 <= s.totalMoves
      invariant s.current.keys == s0.current.keys
      invariant iterationsPerTemperature > 0 ==> |s.current.keys| >= 2
      invariant logger.Valid() && !logger.closed && old(logger.rows) <= logger.rows
      invariant logger.iteration == iteration + |s.costHistory|
    {
      ghost var done := i;
      i := i + 1;
      s := NextMove(s0, s, temperature, done, i, digraphProbs, letterProbs, maths, cost, logger, env, iteration);
    }
    assert i == Iterations(iterationsPerTemperature);
    return Success(s);
  }

  /**
   * Where the outer loop of lines 68-114 stands after `steps` passes: at the
   * temperature those passes cooled to, with the search state `Passes` computes
   * and `PassCount` counting the passes still to come.
   */
  ghost predicate PassesReach(start: Search, s: Search, temperature: real, steps: nat, initialTemperature: real,
                              finalTemperature: real, coolingRate: real, iterationsPerTemperature: int,
                              env: Environment, logEvery: int, iteration: nat, cost: Objective, exp: real -> real)
    requires start.current.Valid() && SamplesTwoKeys(env, |start.current.keys|) && logEvery > 0
    requires initialTemperature > finalTemperature ==> 0.0 < finalTemperature && 0.0 < coolingRate < 1.0
  {
    && temperature == OuterTemperature(initialTemperature, coolingRate, steps)
    && (steps > 0 ==> initialTemperature > finalTemperature)
    && (steps == 0 ==> temperature == initialTemperature && s == start)
    && steps + PassCount(temperature, finalTemperature, coolingRate)
       == PassCount(initialTemperature, finalTemperature, coolingRate)
    && Passes(start, initialTemperature, coolingRate, iterationsPerTemperature, steps, env, logEvery, iteration,
              cost, exp) == Success(s)
    && IsCostOf(s.current, s.currentCost, cost) && 0 <= s.totalMoves
    && (|start.current.keys| < 2 && iterationsPerTemperature > 0 ==> steps == 0)
  }

  /** One turn of the loop of lines 68-114: the moves of pass `steps`, then the cooling of line 114. */
  method CoolingPass(start: Search, s: Search, temperature: real, ghost steps: nat, initialTemperature: real,
                     finalTemperature: real, coolingRate: real, iterationsPerTemperature: int,
                     digraphProbs: ProbabilityTable, letterProbs: ProbabilityTable, maths: Maths, ghost cost: Objective,
                     logger: ProgressLog.ProgressLogger, env: Environment, ghost iteration: nat)
    returns (pass: Result<Search, Exception>, cooled: real)
    requires digraphProbs.Valid() && letterProbs.Valid() && PricesLayouts(cost, digraphProbs, letterProbs, maths)
    requires start.current.Valid() && SamplesTwoKeys(env, |start.current.keys|)
    requires initialTemperature > finalTemperature ==> 0.0 < finalTemperature && 0.0 < coolingRate < 1.0
    requires logger.Valid() && !logger.closed
    requires PassesReach(start, s, temperature, steps, initialTemperature, finalTemperature, coolingRate,
                         iterationsPerTemperature, env, logger.logEvery, iteration,
                         cost, maths.exp)
    requires temperature > finalTemperature && logger.iteration == iteration + |s.costHistory|
    modifies logger
    ensures pass == Passes(start, initialTemperature, coolingRate, iterationsPerTemperature, steps + 1, env,
                           logger.logEvery, iteration, cost, maths.exp)
    ensures steps + 1 <= PassCount(initialTemperature, finalTemperature, coolingRate)
    ensures logger.Valid() && !logger.closed && old(logger.rows) <= logger.rows
    ensures pass.Failure? ==> steps == 0 && logger.rows == old(logger.rows) && logger.iteration == old(logger.iteration)
    ensures pass.Success? ==>
      && PassesReach(start, pass.value, cooled, steps + 1, initialTemperature, finalTemperature, coolingRate,
                     iterationsPerTemperature, env, logger.logEvery, iteration,
                     cost, maths.exp)
      && logger.iteration == iteration + |pass.value.costHistory|
    ensures 0 <= CoolingMeasure(cooled, finalTemperature, coolingRate)
              < CoolingMeasure(temperature, finalTemperature, coolingRate)
  {
    PassesStep(start, initialTemperature, coolingRate, iterationsPerTemperature, steps, env, logger.logEvery,
               iteration, cost, maths.exp, s);
    pass := AnnealAtTemperature(s, temperature, iterationsPerTemperature, digraphProbs, letterProbs, maths, cost,
                                logger, env, iteration);
    cooled := temperature * coolingRate;
    CoolingProgress(temperature, finalTemperature, coolingRate);
    PassCountNext(temperature, cooled, finalTemperature, coolingRate);
    OuterNext(initialTemperature, coolingRate, steps, steps + 1, temperature, cooled);
  }

  /** Lines 68-114: the passes from the initial temperature down to the final one, `Passes` computed in place. */
  method CoolingPasses(start: Search, initialTemperature: real, finalTemperature: real, coolingRate: real,
                       iterationsPerTemperature: int, digraphProbs: ProbabilityTable, letterProbs: ProbabilityTable,
                       maths: Maths, ghost cost: Objective, logger: ProgressLog.ProgressLogger, env: Environment, ghost iteration: nat)
    returns (r: Result<Search, Exception>)
    requires digraphProbs.Valid() && letterProbs.Valid() && PricesLayouts(cost, digraphProbs, letterProbs, maths)
    requires start.current.Valid() && SamplesTwoKeys(env, |start.current.keys|)
    requires initialTemperature > finalTemperature ==> 0.0 < finalTemperature && 0.0 < coolingRate < 1.0
    requires IsCostOf(start.current, start.currentCost, cost)
    requires 0 <= start.totalMoves
    requires logger.Valid() && !logger.closed && logger.iteration == iteration + |start.costHistory|
    modifies logger
    ensures r == Passes(start, initialTemperature, coolingRate, iterationsPerTemperature,
                        PassCount(initialTemperature, finalTemperature, coolingRate), env, logger.logEvery, iteration,
                        cost, maths.exp)
    ensures logger.Valid() && !logger.closed && old(logger.rows) <= logger.rows
    ensures r.Failure? ==> logger.rows == old(logger.rows) && logger.iteration == old(logger.iteration)
    ensures r.Success? ==> logger.iteration == iteration + |r.value.costHistory|
  {
    var s := start;
    var temperature := initialTemperature;
    ghost var steps: nat := 0;
    while temperature > finalTemperature
      invariant PassesReach(start, s, temperature, steps, initialTemperature, finalTemperature, coolingRate,
                            iterationsPerTemperature, env, logger.logEvery, iteration, cost, maths.exp)
      invariant logger.Valid() && !logger.closed && old(logger.rows) <= logger.rows
      invariant logger.iteration == iteration + |s.costHistory|
      invariant steps == 0 ==> logger.rows == old(logger.rows)
      decreases CoolingMeasure(temperature, finalTemperature, coolingRate)
    {
      var pass, cooled := CoolingPass(start, s, temperature, steps, initialTemperature, finalTemperature, coolingRate,
                                      iterationsPerTemperature, digraphProbs, letterProbs, maths, cost, logger, env,
                                      iteration);
      if pass.Failure? {
        PassesFailureSticks(start, initialTemperature, coolingRate, iterationsPerTemperature, steps + 1,
                            PassCount(initialTemperature, finalTemperature, coolingRate), env, logger.logEvery,
                            iteration, cost, maths.exp);
        return pass;
      }
      s := pass.value;
      temperature := cooled;
      steps := steps + 1;
    }
    assert steps == PassCount(initialTemperature, finalTemperature, coolingRate);
    return Success(s);
  }

  /**
   * `simmulated_annealing_optimize_layout` (lines 46-121): cool from the initial
   * temperature by `cooling_rate` while above the final one, making
   * `iterations_per_temperature` moves at each temperature, then close the log.
   * `snapshots` are the successive contents of the best-layout snapshot file.
   */
  method SimulatedAnnealingOptimizeLayout(initialLayout: Layout, letterProbs: ProbabilityTable,
                                          digraphProbs: ProbabilityTable, initialTemperature: real,
                                          finalTemperature: real, coolingRate: real, iterationsPerTemperature: int,
                                          logger: ProgressLog.ProgressLogger, env: Environment, maths: Maths)
    returns (r: Result<AnnealingResult, Exception>, snapshots: seq<Snapshot>)
    requires initialLayout.Valid() && letterProbs.Valid() && digraphProbs.Valid()
    requires initialTemperature > finalTemperature ==> 0.0 < finalTemperature && 0.0 < coolingRate < 1.0
    requires SamplesTwoKeys(env, |initialLayout.keys|)
    requires logger.Valid() && !logger.closed
    modifies logger
    ensures var run := Anneal(initialLayout, digraphProbs, letterProbs, initialTemperature, finalTemperature,
                              coolingRate, iterationsPerTemperature, env, logger.logEvery, old(logger.iteration), maths);
      && (r.Failure? <==> run.Failure?)
      && (r.Failure? ==> r.error == run.error && snapshots == [])
      && (r.Success? ==> r.value == Report(run.value) && snapshots == run.value.snapshots)
    ensures logger.Valid() && old(logger.rows) <= logger.rows
    ensures r.Failure? ==> !logger.closed && logger.rows == old(logger.rows) && logger.iteration == old(logger.iteration)
    ensures r.Success? ==> logger.closed && logger.iteration == old(logger.iteration) + |r.value.costHistory|
  {
    ghost var iteration: nat := logger.iteration;
    ghost var cost := KeyboardObjective(digraphProbs, letterProbs, maths);
    var initialCost := CalculateKeyboardCost(initialLayout, digraphProbs, letterProbs, DefaultParameters, maths);
    if initialCost.Failure? {
      return Failure(initialCost.error), [];
    }
    var run := CoolingPasses(Start(initialLayout, initialCost.value), initialTemperature, finalTemperature, coolingRate,
                             iterationsPerTemperature, digraphProbs, letterProbs, maths, cost, logger, env, iteration);
    AnnealUnfolds(initialLayout, digraphProbs, letterProbs, initialTemperature, finalTemperature, coolingRate,
                  iterationsPerTemperature, env, logger.logEvery, iteration, maths, initialCost.value,
                  PassCount(initialTemperature, finalTemperature, coolingRate));
    if run.Failure? {
      return Failure(run.error), [];
    }
    logger.Close();
    return Success(Report(run.value)), run.value.snapshots;
  }
}
