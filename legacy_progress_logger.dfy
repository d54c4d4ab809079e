/**
 * The older progress log, used by the first annealing script: a row every
 * `log_every` calls of `log`, each row carrying that call's accept flag.
 * The file is its sequence of rows; the clock is the `now` argument.
 */
module LegacyProgressLog {
  import opened Outcomes
  import opened Cadence

  datatype Row =
    | Header(columns: seq<string>)
    | Record(iteration: int, elapsedSeconds: real, temperature: real, currentCost: real, bestCost: real, accepted: int)

  const Columns: seq<string> := ["iteration", "elapsed_seconds", "temperature", "current_cost", "best_cost", "accepted"]

  /** `int(accepted)` for a bool. */
  function AcceptedFlag(accepted: bool): (flag: int)
    ensures flag == 0 || flag == 1
    ensures flag == 1 <==> accepted
  {
    if accepted then 1 else 0
  }

  /** The file's rows when the logger opens it: the old rows, or a header if there was no file. */
  function OpenedRows(existing: Option<seq<Row>>): (rows: seq<Row>)
    ensures existing.None? ==> rows == [Header(Columns)]
    ensures existing.Some? ==> rows == existing.value
  {
    match existing
    case None => [Header(Columns)]
    case Some(previous) => previous
  }

  class ProgressLogger {
    const filename: string
    const logEvery: int
    const startTime: real
    var iteration: int
    var closed: bool
    /** The rows of the CSV file, in the order they were written. */
    var rows: seq<Row>
    /** The rows the file held once opened (and the header written, if any). */
    ghost const openedRows: seq<Row>

    /** The `k`-th row written by `log` (counting from 1) holds iteration `k * log_every` and a 0/1 flag. */
    ghost predicate Valid()
      reads this
    {
      && logEvery > 0
      && iteration >= 0
      && |rows| == |openedRows| + iteration / logEvery
      && rows[..|openedRows|] == openedRows
      && forall j | |openedRows| <= j < |rows| ::
           && rows[j].Record?
           && rows[j].iteration == (j - |openedRows| + 1) * logEvery
           && (rows[j].accepted == 0 || rows[j].accepted == 1)
    }

    /** `existing` is the file's rows, `None` when there is no file; `now` is `time.time()`. */
    constructor (filename: string, logEvery: int, existing: Option<seq<Row>>, now: real)
      requires logEvery > 0
      ensures Valid() && !closed
      ensures this.filename == filename && this.logEvery == logEvery && startTime == now
      ensures iteration == 0
      ensures rows == openedRows == OpenedRows(existing)
    {
      this.filename := filename;
      this.logEvery := logEvery;
      startTime := now;
      iteration := 0;
      closed := false;
      rows := OpenedRows(existing);
      openedRows := OpenedRows(existing);
    }

    /** Counts the call; on every `log_every`-th call appends a row. Nothing else changes. */
    method Log(temperature: real, currentCost: real, bestCost: real, accepted: bool, now: real)
      requires Valid() && !closed
      modifies this
      ensures Valid() && !closed
      ensures iteration == old(iteration) + 1
      ensures iteration % logEvery == 0 ==>
        rows == old(rows) + [Record(iteration, now - startTime, temperature, currentCost, bestCost, AcceptedFlag(accepted))]
      ensures iteration % logEvery != 0 ==> rows == old(rows)
    {
      NextCount(iteration, logEvery);
      iteration := iteration + 1;
      if iteration % logEvery != 0 {
        return;
      }
      var elapsed := now - startTime;
      MultipleIsQuotientTimes(iteration, logEvery);
      ghost var before := rows;
      rows := rows + [Record(iteration, elapsed, temperature, currentCost, bestCost, AcceptedFlag(accepted))];
      assert rows[..|openedRows|] == before[..|openedRows|];
      assert forall k | 0 <= k < |before| :: rows[k] == before[k];
    }

    method Close()
      requires Valid()
      modifies this
      ensures Valid() && closed
      ensures iteration == old(iteration) && rows == old(rows)
    {
      closed := true;
    }
  }
}
