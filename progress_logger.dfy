/**
 * The annealing run's CSV progress log: a row every `log_every` calls of `log`,
 * each row carrying the acceptance ratio of the moves since the previous row.
 * The file is its sequence of rows; the clock is the `now` argument.
 */
module ProgressLog {
  import opened Outcomes
  import opened Cadence

  datatype Row =
    | Header(columns: seq<string>)
    | Record(iteration: int, elapsedSeconds: real, temperature: real, currentCost: real, bestCost: real,
             acceptanceRatio: real, digraphCost: Option<real>, singleLetterCost: Option<real>)

  const Columns: seq<string> := ["iteration", "elapsed_seconds", "temperature", "current_cost", "best_cost",
                                 "acceptance_ratio", "digraph_cost", "single_letter_cost"]

  /** `accepted_moves / total_moves if total_moves else 0.0`. */
  function AcceptanceRatio(acceptedMoves: int, totalMoves: int): (ratio: real)
    ensures totalMoves == 0 ==> ratio == 0.0
    ensures totalMoves != 0 ==> ratio * (totalMoves as real) == acceptedMoves as real
  {
    if totalMoves != 0 then acceptedMoves as real / totalMoves as real else 0.0
  }

  /** The ratio of a count of accepted moves among the moves made is a fraction. */
  lemma AcceptanceRatioIsFraction(acceptedMoves: int, totalMoves: int)
    requires 0 <= acceptedMoves <= totalMoves
    ensures 0.0 <= AcceptanceRatio(acceptedMoves, totalMoves) <= 1.0
  {
  }

  /** The file's rows when the logger opens it: the old rows, or a header if there was no file. */
  function OpenedRows(existing: Option<seq<Row>>): (rows: seq<Row>)
    ensures existing.None? ==> rows == [Header(Columns)]
    ensures existing.Some? ==> rows == existing.value
  {
    match existing
    case None => [Header(Columns)]
    case Some(previous) => previous
  }

  class ProgressLogger {
    const filename: string
    const logEvery: int
    const startTime: real
    var iteration: int
    var closed: bool
    /** The rows of the CSV file, in the order they were written. */
    var rows: seq<Row>
    /** The rows the file held once opened (and the header written, if any). */
    ghost const openedRows: seq<Row>

    /** The `k`-th row written by `log` (counting from 1) holds iteration `k * log_every`. */
    ghost predicate Valid()
      reads this
    {
      && logEvery > 0
      && iteration >= 0
      && |rows| == |openedRows| + iteration / logEvery
      && rows[..|openedRows|] == openedRows
      && forall j | |openedRows| <= j < |rows| ::
           rows[j].Record? && rows[j].iteration == (j - |openedRows| + 1) * logEvery
    }

    /** `existing` is the file's rows, `None` when there is no file; `now` is `time.time()`. */
    constructor (filename: string, logEvery: int, existing: Option<seq<Row>>, now: real)
      requires logEvery > 0
      ensures Valid() && !closed
      ensures this.filename == filename && this.logEvery == logEvery && startTime == now
      ensures iteration == 0
      ensures rows == openedRows == OpenedRows(existing)
    {
      this.filename := filename;
      this.logEvery := logEvery;
      startTime := now;
      iteration := 0;
      closed := false;
      rows := OpenedRows(existing);
      openedRows := OpenedRows(existing);
    }

    /** Whether the next `log` call writes a row. */
    function ShouldLog(): (b: bool)
      reads this
      requires Valid()
      ensures b <==> (iteration + 1) / logEvery == iteration / logEvery + 1
      ensures !b ==> (iteration + 1) / logEvery == iteration / logEvery
    {
      NextCount(iteration, logEvery);
      (iteration + 1) % logEvery == 0
    }

    /** Returns the move counters, reset to 0 when a row is written. */
    method Log(temperature: real, currentCost: real, bestCost: real, acceptedMoves: int, totalMoves: int,
               digraphCost: Option<real>, singleLetterCost: Option<real>, now: real)
      returns (accepted: int, total: int)
      requires Valid() && !closed
      modifies this
      ensures Valid() && !closed
      ensures iteration == old(iteration) + 1
      ensures old(ShouldLog()) ==>
        && rows == old(rows) + [Record(iteration, now - startTime, temperature, currentCost, bestCost,
                                       AcceptanceRatio(acceptedMoves, totalMoves), digraphCost, singleLetterCost)]
        && accepted == 0 && total == 0
      ensures !old(ShouldLog()) ==> rows == old(rows) && accepted == acceptedMoves && total == totalMoves
    {
      NextCount(iteration, logEvery);
      iteration := iteration + 1;
      if iteration % logEvery != 0 {
        return acceptedMoves, totalMoves;
      }
      var elapsed := now - startTime;
      var acceptanceRatio := AcceptanceRatio(acceptedMoves, totalMoves);
      MultipleIsQuotientTimes(iteration, logEvery);
      ghost var before := rows;
      rows := rows + [Record(iteration, elapsed, temperature, currentCost, bestCost, acceptanceRatio,
                             digraphCost, singleLetterCost)];
      assert rows[..|openedRows|] == before[..|openedRows|];
      assert forall k | 0 <= k < |before| :: rows[k] == before[k];
      return 0, 0;
    }

    method Close()
      requires Valid()
      modifies this
      ensures Valid() && closed
      ensures iteration == old(iteration) && rows == old(rows)
    {
      closed := true;
    }
  }
}
