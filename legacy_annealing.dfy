/**
 * The first annealing script, at the repository's root. Its `swap_two_letters`
 * changes the layout dict in place, and `initial_layout`, `current_layout` and
 * `best_layout` are one and the same dict: every proposal rearranges the dict
 * the run returns, whether it is accepted or not. The dict is a heap object
 * here; the pricing function is the objective `cost` passed in.
 */
module LegacyAnnealing {
  import opened Outcomes
  import opened Dicts
  import opened LayoutCost
  import Annealing
  import LegacyProgressLog

  type Objective = Annealing.Objective

  /** A layout dict that every name bound to it shares. */
  class LayoutDict {
    var keys: seq<Symbol>
    var entries: map<Symbol, Point>

    /** The dict's current contents as a value. */
    function Contents(): Layout
      reads this
    {
      Dict(keys, entries)
    }

    constructor (layout: Layout)
      ensures Contents() == layout
    {
      keys := layout.keys;
      entries := layout.entries;
    }
  }

  // ---------------------------------------------------------------- layout construction

  /** `generate_random_layout` (lines 8-13): shuffles the caller's list in place, then builds a new dict. */
  method GenerateRandomLayout(letters: array<Symbol>, shuffled: seq<Symbol>, positions: seq<Point>)
    returns (r: Result<LayoutDict, Exception>)
    requires multiset(shuffled) == multiset(letters[..])
    modifies letters
    ensures letters[..] == shuffled
    ensures r.Failure? <==> |positions| < |shuffled|
    ensures r.Failure? ==> r.error == IndexError
    ensures r.Success? ==> fresh(r.value) && r.value.Contents() == Annealing.ZipLayout(shuffled, positions)
  {
    var built := Annealing.GenerateRandomLayout(letters, shuffled, positions);
    if built.Failure? {
      return Failure(built.error);
    }
    var layout := new LayoutDict(built.value);
    return Success(layout);
  }

  /** The script's letters: `list(...)` of its alphabet string, whose last two characters come apart. */
  const Alphabet: string := "abcdefghijklmnopqrstuvwxyzÃ±"

  const ScriptLetters: seq<Symbol> := seq(|Alphabet|, i requires 0 <= i < |Alphabet| => [Alphabet[i]])

  /** The script's 27 key positions. */
  const ScriptPositions: seq<Point> :=
    [Point(1.5, 0.0), Point(2.5, 0.0), Point(3.5, 0.0), Point(4.5, 0.0), Point(5.5, 0.0), Point(6.5, 0.0),
     Point(7.5, 0.0), Point(8.5, 0.0), Point(9.5, 0.0), Point(10.5, 0.0),
     Point(1.75, 1.0), Point(2.75, 1.0), Point(3.75, 1.0), Point(4.75, 1.0), Point(5.75, 1.0), Point(6.75, 1.0),
     Point(7.75, 1.0), Point(8.75, 1.0), Point(9.75, 1.0), Point(10.75, 1.0),
     Point(2.25, 2.0), Point(3.25, 2.0), Point(4.25, 2.0), Point(5.25, 2.0), Point(6.25, 2.0), Point(7.25, 2.0),
     Point(8.25, 2.0)]

  /** 28 letters and 27 positions: however the letters are shuffled, building the layout raises IndexError. */
  lemma ScriptLayoutRaises(shuffled: seq<Symbol>)
    requires multiset(shuffled) == multiset(ScriptLetters)
    ensures |shuffled| == 28 && |ScriptPositions| == 27
    ensures Annealing.GenerateLayout(shuffled, ScriptPositions) == Failure(IndexError)
  {
    assert |shuffled| == |multiset(shuffled)| == |multiset(ScriptLetters)| == |ScriptLetters|;
  }

  // ---------------------------------------------------------------- the in-place swap

  /**
   * `swap_two_letters` (lines 16-19): `random.sample` raises ValueError on fewer than two
   * keys; otherwise the values of the keys at `pick` are exchanged in place and the same dict is returned.
   */
  method SwapTwoLetters(layout: LayoutDict, pick: (nat, nat)) returns (r: Result<LayoutDict, Exception>)
    requires layout.Contents().Valid()
    requires |layout.keys| >= 2 ==> Annealing.IsPick(pick.0, pick.1, |layout.keys|)
    modifies layout
    ensures r.Failure? <==> |old(layout.keys)| < 2
    ensures r.Failure? ==> r.error == ValueError && layout.Contents() == old(layout.Contents())
    ensures r.Success? ==> r.value == layout
    ensures r.Success? ==> layout.Contents() == Annealing.SwapTwoLetters(old(layout.Contents()), pick.0, pick.1)
  {
    if |layout.keys| < 2 {
      return Failure(ValueError);
    }
    var letter1, letter2 := layout.keys[pick.0], layout.keys[pick.1];
    var value1, value2 := layout.entries[letter2], layout.entries[letter1];
    layout.entries := layout.entries[letter1 := value1][letter2 := value2];
    return Success(layout);
  }

  // ---------------------------------------------------------------- the search

  /** The loop's variables other than the shared dict. */
  datatype Costs = Costs(currentCost: real, bestCost: real, costHistory: seq<real>, temperatureHistory: seq<real>)

  /** The search state: what the shared dict holds, and the loop's variables. */
  datatype Search = Search(layout: Layout, costs: Costs)

  /** The dict the function returns; `best_layout` is the shared dict itself. */
  datatype AnnealingResult = AnnealingResult(bestLayout: LayoutDict, bestCost: real,
                                             costHistory: seq<real>, temperatureHistory: seq<real>)

  /** Lines 56-66: the decision on the priced dict applied to the loop's variables. */
  function Decide(c: Costs, temperature: real, neighbourCost: real, accept: bool): Costs {
    var currentCost := if accept then neighbourCost else c.currentCost;
    var bestCost := if accept && currentCost < c.bestCost then currentCost else c.bestCost;
    Costs(currentCost, bestCost, c.costHistory + [currentCost], c.temperatureHistory + [temperature])
  }

  /**
   * One turn of the inner loop (lines 53-66): the shared dict is swapped, priced and
   * decided on; the swap stays whether or not it is accepted. Sampling or pricing may raise.
   */
  function Step(s: Search, temperature: real, pick: (nat, nat), draw: real, cost: Objective, exp: real -> real)
    : (r: Result<Search, Exception>)
    requires s.layout.Valid() && (|s.layout.keys| >= 2 ==> Annealing.IsPick(pick.0, pick.1, |s.layout.keys|))
    ensures r.Success? ==> r.value.layout.Valid() && r.value.layout.keys == s.layout.keys
    ensures r.Success? ==> r.value.costs.temperatureHistory == s.costs.temperatureHistory + [temperature]
    ensures r.Success? ==> |r.value.costs.costHistory| == |s.costs.costHistory| + 1
  {
    if |s.layout.keys| < 2 then Failure(ValueError)
    else
      var neighbour := Annealing.SwapTwoLetters(s.layout, pick.0, pick.1);
      var neighbourCost := cost(neighbour);
      if neighbourCost.Failure? then Failure(neighbourCost.error)
      else
        var accept := Annealing.AcceptNeighbour(s.costs.currentCost, neighbourCost.value, temperature, draw, exp);
        Success(Search(neighbour, Decide(s.costs, temperature, neighbourCost.value, accept)))
  }

  /** The first `count` moves at one temperature (lines 52-68); move `k` of the run uses the generator's `k`-th answers. */
  function Moves(s: Search, temperature: real, count: nat, env: Annealing.Environment, cost: Objective, exp: real -> real)
    : (r: Result<Search, Exception>)
    requires s.layout.Valid() && Annealing.SamplesTwoKeys(env, |s.layout.keys|)
    ensures r.Success? ==> r.value.layout.Valid() && r.value.layout.keys == s.layout.keys
    ensures r.Success? ==> r.value.costs.temperatureHistory == s.costs.temperatureHistory + Annealing.Repeat(temperature, count)
    ensures r.Success? ==> |r.value.costs.costHistory| == |s.costs.costHistory| + count
    decreases count
  {
    if count == 0 then Success(s)
    else
      var previous := Moves(s, temperature, count - 1, env, cost, exp);
      if previous.Failure? then previous
      else
        var t := previous.value;
        var k := |t.costs.costHistory|;
        Annealing.AppendRepeat(s.costs.temperatureHistory, temperature, count - 1);
        Step(t, temperature, env.pick(k), env.draw(k), cost, exp)
  }

  /** The first `steps` passes of the outer loop (lines 51-70), pass `p` at `OuterTemperature(.., p)`. */
  function Passes(start: Search, initialTemperature: real, coolingRate: real, iterationsPerTemperature: int, steps: nat,
                  env: Annealing.Environment, cost: Objective, exp: real -> real)
    : (r: Result<Search, Exception>)
    requires start.layout.Valid() && Annealing.SamplesTwoKeys(env, |start.layout.keys|)
    ensures r.Success? ==> r.value.layout.Valid() && r.value.layout.keys == start.layout.keys
    ensures r.Success? ==>
      r.value.costs.temperatureHistory
      == start.costs.temperatureHistory
         + Annealing.TemperatureSchedule(initialTemperature, coolingRate, iterationsPerTemperature, steps)
    ensures r.Success? ==>
      (|r.value.costs.costHistory| - |start.costs.costHistory|
       == |r.value.costs.temperatureHistory| - |start.costs.temperatureHistory|)
    decreases steps
  {
    if steps == 0 then Success(start)
    else
      var previous := Passes(start, initialTemperature, coolingRate, iterationsPerTemperature, steps - 1, env, cost, exp);
      if previous.Failure? then previous
      else
        var temperature := Annealing.OuterTemperature(initialTemperature, coolingRate, steps - 1);
        var schedule := Annealing.TemperatureSchedule(initialTemperature, coolingRate, iterationsPerTemperature, steps - 1);
        assert start.costs.temperatureHistory + schedule
               + Annealing.Repeat(temperature, Annealing.Iterations(iterationsPerTemperature))
            == start.costs.temperatureHistory
               + Annealing.TemperatureSchedule(initialTemperature, coolingRate, iterationsPerTemperature, steps);
        Moves(previous.value, temperature, Annealing.Iterations(iterationsPerTemperature), env, cost, exp)
  }

  /** Before the first move: the dict is the initial layout and both costs are its cost. */
  function Start(initial: Layout, initialCost: real): Search {
    Search(initial, Costs(initialCost, initialCost, [], []))
  }

  /** `simmulated_annealing_optimize_layout` (lines 33-77) on the generator `env`. */
  function Anneal(initialLayout: Layout, initialTemperature: real, finalTemperature: real, coolingRate: real,
                  iterationsPerTemperature: int, env: Annealing.Environment, cost: Objective, exp: real -> real)
    : Result<Search, Exception>
    requires initialLayout.Valid() && Annealing.SamplesTwoKeys(env, |initialLayout.keys|)
    requires initialTemperature > finalTemperature ==> 0.0 < finalTemperature && 0.0 < coolingRate < 1.0
  {
    var initialCost := cost(initialLayout);
    if initialCost.Failure? then Failure(initialCost.error)
    else
      Passes(Start(initialLayout, initialCost.value), initialTemperature, coolingRate, iterationsPerTemperature,
             Annealing.PassCount(initialTemperature, finalTemperature, coolingRate), env, cost, exp)
  }

  /** The dict the function returns, for the final state and the shared dict holding its layout. */
  function Report(s: Search, shared: LayoutDict): AnnealingResult {
    AnnealingResult(shared, s.costs.bestCost, s.costs.costHistory, s.costs.temperatureHistory)
  }

  // ---------------------------------------------------------------- what the search keeps true

  /** The objective prices every rearrangement of `initial` (as `calculate_keyboard_cost` does once it prices `initial`). */
  ghost predicate PricesArrangements(cost: Objective, initial: Layout)
    requires initial.Valid()
  {
    forall layout: Layout | layout.Valid() && Annealing.IsArrangementOf(layout, initial) :: cost(layout).Success?
  }

  /**
   * The dict stays a priced rearrangement of the initial layout, priced at least at the current cost;
   * the best cost is at most the current cost and every recorded cost, and is the initial cost or a recorded one.
   */
  ghost predicate Invariant(s: Search, initial: Layout, initialCost: real, cost: Objective)
    requires initial.Valid()
  {
    && s.layout.Valid() && Annealing.IsArrangementOf(s.layout, initial)
    && cost(s.layout).Success? && s.costs.currentCost <= cost(s.layout).value
    && s.costs.bestCost <= s.costs.currentCost && s.costs.bestCost <= initialCost
    && (forall j | 0 <= j < |s.costs.costHistory| :: s.costs.bestCost <= s.costs.costHistory[j])
    && (s.costs.bestCost == initialCost || s.costs.bestCost in s.costs.costHistory)
    && |s.costs.costHistory| == |s.costs.temperatureHistory|
    && (s.costs.costHistory == [] ==> s.layout == initial && s.costs.currentCost == initialCost)
    && (s.costs.costHistory != [] ==> s.costs.currentCost == s.costs.costHistory[|s.costs.costHistory| - 1])
  }

  lemma StartInvariant(initial: Layout, initialCost: real, cost: Objective)
    requires initial.Valid() && cost(initial) == Success(initialCost)
    ensures Invariant(Start(initial, initialCost), initial, initialCost, cost)
  {
  }

  /**
   * A move that does not raise keeps the invariant and never raises the best cost. The dict is
   * always the swapped one, and it is priced at the current cost exactly when the swap was accepted.
   */
  lemma StepKeepsInvariant(s: Search, temperature: real, pick: (nat, nat), draw: real, cost: Objective, exp: real -> real,
                           initial: Layout, initialCost: real)
    requires initial.Valid() && Invariant(s, initial, initialCost, cost)
    requires |s.layout.keys| >= 2 && Annealing.IsPick(pick.0, pick.1, |s.layout.keys|)
    requires Step(s, temperature, pick, draw, cost, exp).Success?
    ensures var t := Step(s, temperature, pick, draw, cost, exp).value;
      && Invariant(t, initial, initialCost, cost)
      && t.costs.bestCost <= s.costs.bestCost
      && t.layout == Annealing.SwapTwoLetters(s.layout, pick.0, pick.1)
      && (cost(t.layout) == Success(t.costs.currentCost)
          <==> Annealing.AcceptNeighbour(s.costs.currentCost, cost(t.layout).value, temperature, draw, exp))
  {
    var t := Step(s, temperature, pick, draw, cost, exp).value;
    Annealing.SwapIsArrangement(s.layout, pick.0, pick.1);
    assert Annealing.IsArrangementOf(t.layout, initial);
    forall j | 0 <= j < |t.costs.costHistory|
      ensures t.costs.bestCost <= t.costs.costHistory[j]
    {
      if j < |s.costs.costHistory| {
        assert t.costs.costHistory[j] == s.costs.costHistory[j];
      }
    }
  }

  /** The moves of one temperature keep the invariant and never raise the best cost; none raises on fewer than two keys. */
  lemma {:induction false} MovesKeepInvariant(s: Search, temperature: real, count: nat, env: Annealing.Environment,
                                              cost: Objective, exp: real -> real, initial: Layout, initialCost: real)
    requires initial.Valid() && Invariant(s, initial, initialCost, cost)
    requires Annealing.SamplesTwoKeys(env, |s.layout.keys|)
    ensures var r := Moves(s, temperature, count, env, cost, exp);
      && (count > 0 && |s.layout.keys| < 2 ==> r == Failure(ValueError))
      && (PricesArrangements(cost, initial) ==> (r.Failure? <==> count > 0 && |s.layout.keys| < 2))
      && (r.Success? ==> Invariant(r.value, initial, initialCost, cost) && r.value.costs.bestCost <= s.costs.bestCost)
    decreases count
  {
    if count > 0 {
      MovesKeepInvariant(s, temperature, count - 1, env, cost, exp, initial, initialCost);
      var previous := Moves(s, temperature, count - 1, env, cost, exp);
      if previous.Success? && |s.layout.keys| >= 2 {
        var t := previous.value;
        var k := |t.costs.costHistory|;
        assert Moves(s, temperature, count, env, cost, exp) == Step(t, temperature, env.pick(k), env.draw(k), cost, exp);
        var neighbour := Annealing.SwapTwoLetters(t.layout, env.pick(k).0, env.pick(k).1);
        Annealing.SwapIsArrangement(t.layout, env.pick(k).0, env.pick(k).1);
        assert Annealing.IsArrangementOf(neighbour, initial);
        if Step(t, temperature, env.pick(k), env.draw(k), cost, exp).Success? {
          StepKeepsInvariant(t, temperature, env.pick(k), env.draw(k), cost, exp, initial, initialCost);
        }
      }
    }
  }

  /** Every pass keeps the invariant; with an objective that prices every rearrangement, only the sampling can raise. */
  lemma {:induction false} PassesKeepInvariant(start: Search, initialTemperature: real, coolingRate: real,
                                               iterationsPerTemperature: int, steps: nat, env: Annealing.Environment,
                                               cost: Objective, exp: real -> real, initial: Layout, initialCost: real)
    requires initial.Valid() && Invariant(start, initial, initialCost, cost)
    requires Annealing.SamplesTwoKeys(env, |start.layout.keys|)
    ensures var r := Passes(start, initialTemperature, coolingRate, iterationsPerTemperature, steps, env, cost, exp);
      && (steps > 0 && iterationsPerTemperature > 0 && |start.layout.keys| < 2 ==> r == Failure(ValueError))
      && (PricesArrangements(cost, initial) ==>
            (r.Failure? <==> steps > 0 && iterationsPerTemperature > 0 && |start.layout.keys| < 2))
      && (r.Success? ==> Invariant(r.value, initial, initialCost, cost))
    decreases steps
  {
    if steps > 0 {
      PassesKeepInvariant(start, initialTemperature, coolingRate, iterationsPerTemperature, steps - 1, env, cost, exp,
                          initial, initialCost);
      var previous := Passes(start, initialTemperature, coolingRate, iterationsPerTemperature, steps - 1, env, cost, exp);
      if previous.Success? {
        MovesKeepInvariant(previous.value, Annealing.OuterTemperature(initialTemperature, coolingRate, steps - 1),
                           Annealing.Iterations(iterationsPerTemperature), env, cost, exp, initial, initialCost);
      }
    }
  }

  /**
   * What a run delivers: it raises when the initial layout cannot be priced (that exception), and with
   * fewer than two keys (ValueError); when it returns, the best cost is at most the initial cost and
   * every recorded cost, the shared dict is a rearrangement of the initial layout, and the temperatures
   * follow the cooling schedule, one per move.
   */
  lemma AnnealOutcome(initialLayout: Layout, initialTemperature: real, finalTemperature: real, coolingRate: real,
                      iterationsPerTemperature: int, env: Annealing.Environment, cost: Objective, exp: real -> real)
    requires initialLayout.Valid() && Annealing.SamplesTwoKeys(env, |initialLayout.keys|)
    requires initialTemperature > finalTemperature ==> 0.0 < finalTemperature && 0.0 < coolingRate < 1.0
    ensures var run := Anneal(initialLayout, initialTemperature, finalTemperature, coolingRate, iterationsPerTemperature,
                              env, cost, exp);
      var steps := Annealing.PassCount(initialTemperature, finalTemperature, coolingRate);
      && (cost(initialLayout).Failure? ==> run == Failure(cost(initialLayout).error))
      && (cost(initialLayout).Success? && steps > 0 && iterationsPerTemperature > 0 && |initialLayout.keys| < 2
          ==> run == Failure(ValueError))
      && (cost(initialLayout).Success? && PricesArrangements(cost, initialLayout) ==>
            (run.Failure? <==> steps > 0 && iterationsPerTemperature > 0 && |initialLayout.keys| < 2))
      && (run.Success? ==>
            && Invariant(run.value, initialLayout, cost(initialLayout).value, cost)
            && run.value.costs.temperatureHistory
               == Annealing.TemperatureSchedule(initialTemperature, coolingRate, iterationsPerTemperature, steps))
  {
    var initialCost := cost(initialLayout);
    if initialCost.Success? {
      var start := Start(initialLayout, initialCost.value);
      StartInvariant(initialLayout, initialCost.value, cost);
      PassesKeepInvariant(start, initialTemperature, coolingRate, iterationsPerTemperature,
                          Annealing.PassCount(initialTemperature, finalTemperature, coolingRate), env, cost, exp,
                          initialLayout, initialCost.value);
      assert start.costs.temperatureHistory == [];
    }
  }

  // ---------------------------------------------------------------- the returned layout

  /** Two letters on two keys, and a cost that prefers `a` on the left key. */
  const TwoLetters: Layout := Dict(["a", "b"], map["a" := Point(0.0, 0.0), "b" := Point(1.0, 0.0)])

  function PreferLeftA(layout: Layout): Result<real, Exception> {
    if layout.Get("a") == Some(Point(0.0, 0.0)) then Success(1.0) else Success(2.0)
  }

  /** An `exp` so small that every uphill swap is rejected. */
  function Vanishing(x: real): real {
    0.0
  }

  /** A generator that always samples the two keys in order and draws 0.5. */
  const SampleInOrder := Annealing.Environment(k => (0, 1), k => 0.5, k => 0.0)

  /**
   * A run of one pass and one move, whose swap costs more and is rejected: the function
   * returns `best_cost` 1.0 with a `best_layout` whose cost is 2.0.
   */
  lemma RejectedSwapMisreportsBest()
    ensures var run := Anneal(TwoLetters, 2.0, 1.0, 0.5, 1, SampleInOrder, PreferLeftA, Vanishing);
      && run.Success?
      && run.value.costs.bestCost == 1.0
      && PreferLeftA(run.value.layout) == Success(2.0)
  {
    assert TwoLetters.Valid();
    assert Annealing.PassCount(1.0, 1.0, 0.5) == 0;
    assert Annealing.PassCount(2.0, 1.0, 0.5) == 1;
    var start := Start(TwoLetters, 1.0);
    var swapped := Annealing.SwapTwoLetters(TwoLetters, 0, 1);
    assert swapped.entries["a"] == Point(1.0, 0.0);
    assert PreferLeftA(swapped) == Success(2.0);
    assert !Annealing.AcceptNeighbour(1.0, 2.0, 2.0, 0.5, Vanishing);
    assert Decide(start.costs, 2.0, 2.0, false) == Costs(1.0, 1.0, [1.0], [2.0]);
    var moved := Search(swapped, Costs(1.0, 1.0, [1.0], [2.0]));
    assert Step(start, 2.0, (0, 1), 0.5, PreferLeftA, Vanishing) == Success(moved);
    assert SampleInOrder.pick(0) == (0, 1) && SampleInOrder.draw(0) == 0.5;
    assert Moves(start, 2.0, 0, SampleInOrder, PreferLeftA, Vanishing) == Success(start);
    assert Moves(start, 2.0, 1, SampleInOrder, PreferLeftA, Vanishing) == Success(moved);
    assert Passes(start, 2.0, 0.5, 1, 0, SampleInOrder, PreferLeftA, Vanishing) == Success(start);
    assert Passes(start, 2.0, 0.5, 1, 1, SampleInOrder, PreferLeftA, Vanishing) == Success(moved);
  }

  // ---------------------------------------------------------------- the loops

  /** One more move: the loop's step from `done` moves, move `k` of the run. */
  lemma MovesStep(s0: Search, temperature: real, done: nat, env: Annealing.Environment,
                  cost: Objective, exp: real -> real, s: Search, k: nat)
    requires s0.layout.Valid() && Annealing.SamplesTwoKeys(env, |s0.layout.keys|)
    requires k == |s.costs.costHistory|
    requires Moves(s0, temperature, done, env, cost, exp) == Success(s)
    ensures s.layout.Valid() && s.layout.keys == s0.layout.keys
    ensures |s.layout.keys| >= 2 ==> Annealing.IsPick(env.pick(k).0, env.pick(k).1, |s.layout.keys|)
    ensures Moves(s0, temperature, done + 1, env, cost, exp) == Step(s, temperature, env.pick(k), env.draw(k), cost, exp)
  {
  }

  /** Once a move raises, the pass has raised. */
  lemma {:induction false} MovesFailureSticks(s0: Search, temperature: real, m: nat, n: nat, env: Annealing.Environment,
                                              cost: Objective, exp: real -> real)
    requires s0.layout.Valid() && Annealing.SamplesTwoKeys(env, |s0.layout.keys|)
    requires m <= n && Moves(s0, temperature, m, env, cost, exp).Failure?
    ensures Moves(s0, temperature, n, env, cost, exp) == Moves(s0, temperature, m, env, cost, exp)
    decreases n
  {
    if m < n {
      MovesFailureSticks(s0, temperature, m, n - 1, env, cost, exp);
    }
  }

  /** Once a pass raises, the run has raised. */
  lemma {:induction false} PassesFailureSticks(start: Search, initialTemperature: real, coolingRate: real,
                                               iterationsPerTemperature: int, m: nat, n: nat, env: Annealing.Environment,
                                               cost: Objective, exp: real -> real)
    requires start.layout.Valid() && Annealing.SamplesTwoKeys(env, |start.layout.keys|)
    requires m <= n && Passes(start, initialTemperature, coolingRate, iterationsPerTemperature, m, env, cost, exp).Failure?
    ensures Passes(start, initialTemperature, coolingRate, iterationsPerTemperature, n, env, cost, exp)
         == Passes(start, initialTemperature, coolingRate, iterationsPerTemperature, m, env, cost, exp)
    decreases n
  {
    if m < n {
      PassesFailureSticks(start, initialTemperature, coolingRate, iterationsPerTemperature, m, n - 1, env, cost, exp);
    }
  }

  /** One more pass: the outer loop's step from `done` passes to `done + 1`. */
  lemma PassesStep(start: Search, initialTemperature: real, coolingRate: real, iterationsPerTemperature: int,
                   done: nat, env: Annealing.Environment, cost: Objective, exp: real -> real, s: Search)
    requires start.layout.Valid() && Annealing.SamplesTwoKeys(env, |start.layout.keys|)
    requires Passes(start, initialTemperature, coolingRate, iterationsPerTemperature, done, env, cost, exp) == Success(s)
    ensures s.layout.Valid() && Annealing.SamplesTwoKeys(env, |s.layout.keys|)
    ensures Passes(start, initialTemperature, coolingRate, iterationsPerTemperature, done + 1, env, cost, exp)
         == Moves(s, Annealing.OuterTemperature(initialTemperature, coolingRate, done),
                  Annealing.Iterations(iterationsPerTemperature), env, cost, exp)
  {
  }

  /**
   * Lines 53-68 on the shared dict: swap it in place, price it, decide, record, and
   * call `logger.log` with that move's accept flag. `now` is the clock's answer.
   */
  method AnnealStep(layout: LayoutDict, c: Costs, temperature: real, pick: (nat, nat), draw: real,
                    cost: Objective, exp: real -> real, logger: LegacyProgressLog.ProgressLogger, now: real)
    returns (r: Result<Costs, Exception>)
    requires layout.Contents().Valid() && (|layout.keys| >= 2 ==> Annealing.IsPick(pick.0, pick.1, |layout.keys|))
    requires logger.Valid() && !logger.closed
    modifies layout, logger
    ensures var step := Step(Search(old(layout.Contents()), c), temperature, pick, draw, cost, exp);
      && (r.Failure? <==> step.Failure?)
      && (r.Failure? ==> r.error == step.error)
      && (r.Success? ==> Search(layout.Contents(), r.value) == step.value)
    ensures layout.Contents().Valid() && layout.keys == old(layout.keys)
    ensures r.Failure? && |old(layout.keys)| >= 2 ==>
      layout.Contents() == Annealing.SwapTwoLetters(old(layout.Contents()), pick.0, pick.1)
    ensures r.Failure? && |old(layout.keys)| < 2 ==> layout.Contents() == old(layout.Contents())
    ensures logger.Valid() && !logger.closed
    ensures r.Failure? ==> logger.iteration == old(logger.iteration) && logger.rows == old(logger.rows)
    ensures r.Success? ==> logger.iteration == old(logger.iteration) + 1
    ensures r.Success? && logger.iteration % logger.logEvery != 0 ==> logger.rows == old(logger.rows)
    ensures r.Success? && logger.iteration % logger.logEvery == 0 ==>
      var accept := Annealing.AcceptNeighbour(c.currentCost, cost(layout.Contents()).value, temperature, draw, exp);
      && cost(layout.Contents()).Success?
      && logger.rows == old(logger.rows) + [LegacyProgressLog.Record(
           logger.iteration, now - logger.startTime, temperature, r.value.currentCost, r.value.bestCost,
           LegacyProgressLog.AcceptedFlag(accept))]
  {
    var swapped := SwapTwoLetters(layout, pick);
    if swapped.Failure? {
      return Failure(swapped.error);
    }
    var neighbourLayout := swapped.value;
    var neighbourCost := cost(neighbourLayout.Contents());
    if neighbourCost.Failure? {
      return Failure(neighbourCost.error);
    }
    var accept := Annealing.AcceptNeighbour(c.currentCost, neighbourCost.value, temperature, draw, exp);
    var currentCost, bestCost := c.currentCost, c.bestCost;
    if accept {
      currentCost := neighbourCost.value;
      if currentCost < bestCost {
        bestCost := currentCost;
      }
    }
    r := Success(Costs(currentCost, bestCost, c.costHistory + [currentCost], c.temperatureHistory + [temperature]));
    logger.Log(temperature, currentCost, bestCost, accept, now);
  }

  /** When every rearrangement can be priced, a failed run is one whose layout has fewer than two keys to sample. */
  lemma OnlySamplingFails(initialLayout: Layout, initialTemperature: real, finalTemperature: real, coolingRate: real,
                          iterationsPerTemperature: int, env: Annealing.Environment, cost: Objective, exp: real -> real)
    requires initialLayout.Valid() && Annealing.SamplesTwoKeys(env, |initialLayout.keys|)
    requires initialTemperature > finalTemperature ==> 0.0 < finalTemperature && 0.0 < coolingRate < 1.0
    requires PricesArrangements(cost, initialLayout)
    requires Anneal(initialLayout, initialTemperature, finalTemperature, coolingRate, iterationsPerTemperature,
                    env, cost, exp).Failure?
    ensures |initialLayout.keys| < 2
  {
    assert Annealing.IsArrangementOf(initialLayout, initialLayout);
    AnnealOutcome(initialLayout, initialTemperature, finalTemperature, coolingRate, iterationsPerTemperature, env, cost, exp);
  }

  /** One turn of the loop of lines 52-68: move `i` of `s0`'s pass, on the generator's answers for that move. */
  method NextMove(layout: LayoutDict, ghost s0: Search, c: Costs, temperature: real, ghost i: nat, ghost next: nat,
                  cost: Objective, exp: real -> real, logger: LegacyProgressLog.ProgressLogger, env: Annealing.Environment)
    returns (r: Result<Costs, Exception>)
    requires s0.layout.Valid() && Annealing.SamplesTwoKeys(env, |s0.layout.keys|) && next == i + 1
    requires Moves(s0, temperature, i, env, cost, exp) == Success(Search(layout.Contents(), c))
    requires logger.Valid() && !logger.closed
    modifies layout, logger
    ensures var run := Moves(s0, temperature, next, env, cost, exp);
      && (r.Failure? <==> run.Failure?)
      && (r.Failure? ==> r.error == run.error)
      && (r.Success? ==> Search(layout.Contents(), r.value) == run.value)
    ensures layout.Contents().Valid() && layout.keys == old(layout.keys)
    ensures logger.Valid() && !logger.closed && old(logger.rows) <= logger.rows
    ensures r.Success? ==> logger.iteration == old(logger.iteration) + |r.value.costHistory| - |c.costHistory|
    ensures |old(layout.keys)| < 2 ==> r.Failure?
    ensures r.Failure? ==> logger.iteration == old(logger.iteration) && logger.rows == old(logger.rows)
    ensures r.Failure? && |old(layout.keys)| < 2 ==> layout.Contents() == old(layout.Contents())
    ensures r.Failure? && |old(layout.keys)| >= 2 ==>
      && Annealing.IsPick(env.pick(|c.costHistory|).0, env.pick(|c.costHistory|).1, |old(layout.keys)|)
      && layout.Contents() == Annealing.SwapTwoLetters(old(layout.Contents()), env.pick(|c.costHistory|).0, env.pick(|c.costHistory|).1)
  {
    var k := |c.costHistory|;
    MovesStep(s0, temperature, i, env, cost, exp, Search(layout.Contents(), c), k);
    r := AnnealStep(layout, c, temperature, env.pick(k), env.draw(k), cost, exp, logger, env.clock(k));
  }

  /** Lines 52-68: the moves of one temperature, `Moves` computed in place on the shared dict. */
  method AnnealAtTemperature(layout: LayoutDict, c0: Costs, temperature: real, iterationsPerTemperature: int,
                             cost: Objective, exp: real -> real, logger: LegacyProgressLog.ProgressLogger,
                             env: Annealing.Environment)
    returns (r: Result<Costs, Exception>)
    requires layout.Contents().Valid() && Annealing.SamplesTwoKeys(env, |layout.keys|)
    requires logger.Valid() && !logger.closed
    modifies layout, logger
    ensures var run := Moves(Search(old(layout.Contents()), c0), temperature, Annealing.Iterations(iterationsPerTemperature),
                             env, cost, exp);
      && (r.Failure? <==> run.Failure?)
      && (r.Failure? ==> r.error == run.error)
      && (r.Success? ==> Search(layout.Contents(), r.value) == run.value)
    ensures layout.Contents().Valid() && layout.keys == old(layout.keys)
    ensures logger.Valid() && !logger.closed && old(logger.rows) <= logger.rows
    ensures r.Success? ==> logger.iteration == old(logger.iteration) + |r.value.costHistory| - |c0.costHistory|
    ensures |old(layout.keys)| < 2 ==>
      layout.Contents() == old(layout.Contents()) && logger.rows == old(logger.rows) && logger.iteration == old(logger.iteration)
  {
    ghost var s0 := Search(layout.Contents(), c0);
    var c := c0;
    var i := 0;
    while i < iterationsPerTemperature
      invariant 0 <= i <= Annealing.Iterations(iterationsPerTemperature)
      invariant layout.keys == s0.layout.keys
      invariant Moves(s0, temperature, i, env, cost, exp) == Success(Search(layout.Contents(), c))
      invariant logger.Valid() && !logger.closed && old(logger.rows) <= logger.rows
      invariant logger.iteration == old(logger.iteration) + |c.costHistory| - |c0.costHistory|
      invariant |s0.layout.keys| < 2 ==>
        i == 0 && layout.Contents() == s0.layout && logger.rows == old(logger.rows) && logger.iteration == old(logger.iteration)
    {
      ghost var done := i;
      i := i + 1;
      var step := NextMove(layout, s0, c, temperature, done, i, cost, exp, logger, env);
      if step.Failure? {
        MovesFailureSticks(s0, temperature, i, Annealing.Iterations(iterationsPerTemperature), env, cost, exp);
        return Failure(step.error);
      }
      c := step.value;
    }
    assert i == Annealing.Iterations(iterationsPerTemperature);
    return Success(c);
  }

  /**
   * `simmulated_annealing_optimize_layout` (lines 33-77): `initial_layout` is priced, then the
   * shared dict is annealed in place; `best_layout` in the returned dict is that same dict.
   */
  method SimulatedAnnealingOptimizeLayout(initialLayout: LayoutDict, cost: Objective, initialTemperature: real,
                                          finalTemperature: real, coolingRate: real, iterationsPerTemperature: int,
                                          logger: LegacyProgressLog.ProgressLogger, env: Annealing.Environment,
                                          exp: real -> real)
    returns (r: Result<AnnealingResult, Exception>)
    requires initialLayout.Contents().Valid() && Annealing.SamplesTwoKeys(env, |initialLayout.keys|)
    requires initialTemperature > finalTemperature ==> 0.0 < finalTemperature && 0.0 < coolingRate < 1.0
    requires logger.Valid() && !logger.closed
    modifies initialLayout, logger
    ensures var run := Anneal(old(initialLayout.Contents()), initialTemperature, finalTemperature, coolingRate,
                              iterationsPerTemperature, env, cost, exp);
      && (r.Failure? <==> run.Failure?)
      && (r.Failure? ==> r.error == run.error)
      && (r.Success? ==> r.value == Report(run.value, initialLayout) && initialLayout.Contents() == run.value.layout)
    ensures logger.Valid() && old(logger.rows) <= logger.rows
    ensures r.Failure? ==> !logger.closed
    ensures r.Success? ==> logger.closed && logger.iteration == old(logger.iteration) + |r.value.costHistory|
    ensures cost(old(initialLayout.Contents())).Failure? || |old(initialLayout.keys)| < 2 ==>
      && initialLayout.Contents() == old(initialLayout.Contents())
      && logger.rows == old(logger.rows) && logger.iteration == old(logger.iteration)
    ensures r.Failure? && PricesArrangements(cost, old(initialLayout.Contents())) ==>
      && initialLayout.Contents() == old(initialLayout.Contents())
      && logger.rows == old(logger.rows) && logger.iteration == old(logger.iteration)
  {
    ghost var initial := initialLayout.Contents();
    var initialCost := cost(initialLayout.Contents());
    if initialCost.Failure? {
      return Failure(initialCost.error);
    }
    var c := Costs(initialCost.value, initialCost.value, [], []);
    ghost var start := Start(initial, initialCost.value);
    var temperature := initialTemperature;
    ghost var steps: nat := 0;
    while temperature > finalTemperature
      invariant temperature == Annealing.OuterTemperature(initialTemperature, coolingRate, steps)
      invariant steps > 0 ==> initialTemperature > finalTemperature
      invariant steps + Annealing.PassCount(temperature, finalTemperature, coolingRate)
             == Annealing.PassCount(initialTemperature, finalTemperature, coolingRate)
      invariant initialLayout.Contents().Valid() && initialLayout.keys == initial.keys
      invariant Passes(start, initialTemperature, coolingRate, iterationsPerTemperature, steps, env, cost, exp)
             == Success(Search(initialLayout.Contents(), c))
      invariant logger.Valid() && !logger.closed && old(logger.rows) <= logger.rows
      invariant logger.iteration == old(logger.iteration) + |c.costHistory|
      invariant |initial.keys| < 2 ==>
        initialLayout.Contents() == initial && logger.rows == old(logger.rows) && logger.iteration == old(logger.iteration)
      decreases Annealing.CoolingMeasure(temperature, finalTemperature, coolingRate)
    {
      ghost var done := steps;
      ghost var before := Search(initialLayout.Contents(), c);
      steps := steps + 1;
      PassesStep(start, initialTemperature, coolingRate, iterationsPerTemperature, done, env, cost, exp, before);
      var pass := AnnealAtTemperature(initialLayout, c, temperature, iterationsPerTemperature, cost, exp, logger, env);
      if pass.Failure? {
        PassesFailureSticks(start, initialTemperature, coolingRate, iterationsPerTemperature, steps,
                            Annealing.PassCount(initialTemperature, finalTemperature, coolingRate), env, cost, exp);
        if PricesArrangements(cost, initial) {
          OnlySamplingFails(initial, initialTemperature, finalTemperature, coolingRate, iterationsPerTemperature, env, cost, exp);
        }
        return Failure(pass.error);
      }
      c := pass.value;
      var cooled := temperature * coolingRate;
      Annealing.CoolingProgress(temperature, finalTemperature, coolingRate);
      Annealing.PassCountNext(temperature, cooled, finalTemperature, coolingRate);
      Annealing.OuterNext(initialTemperature, coolingRate, done, steps, temperature, cooled);
      temperature := cooled;
    }
    assert steps == Annealing.PassCount(initialTemperature, finalTemperature, coolingRate);
    logger.Close();
    return Success(AnnealingResult(initialLayout, c.bestCost, c.costHistory, c.temperatureHistory));
  }
}
