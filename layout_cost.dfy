/**
 * The typing-effort cost of a keyboard layout: the Fitts's-law movement time
 * of every digraph, weighted by its probability, plus every letter's distance
 * from the home point (the centroid of the keys), weighted by its probability.
 */
module LayoutCost {
  import opened Outcomes
  import opened Dicts
  import opened Sums

  /** A layout key: a one-character string such as "a". */
  type Symbol = string

  datatype Point = Point(x: real, y: real)

  function XOf(p: Point): real { p.x }
  function YOf(p: Point): real { p.y }

  /** Symbol -> key position, in the dict's insertion order. */
  type Layout = Dict<Symbol, Point>

  /** Digraph (or letter) -> weight: a probability or a raw count. */
  type ProbabilityTable = Dict<string, real>

  /** `math.log2`, `math.hypot` and `math.exp`, left uninterpreted. */
  datatype Maths = Maths(log2: real -> real, hypot: (real, real) -> real, exp: real -> real)

  /** The only facts about them that the model relies on. */
  ghost predicate Lawful(maths: Maths) {
    && maths.log2(1.0) == 0.0
    && maths.hypot(0.0, 0.0) == 0.0
    && forall p: Point, q: Point :: Distance(maths, p, q) == Distance(maths, q, p)
  }

  /** The Python exceptions the modelled code can raise. */
  datatype Exception = ValueError | IndexError | KeyError | ZeroDivisionError

  /** The keyword arguments of `calculate_keyboard_cost`. */
  datatype CostParameters = CostParameters(
    keyWidth: real, interceptA: real, slopeB: real,
    digraphWeight: real, singleLetterWeight: real, normalizeInputs: bool)

  const DefaultParameters := CostParameters(1.0, 0.0, 1.0, 1.0, 0.1, true)

  /** What `calculate_keyboard_cost_components` returns. */
  datatype CostRecord = CostRecord(digraphCost: real, singleLetterCost: real, totalCost: real)

  // ---------------------------------------------------------------- normalisation

  lemma DivSelf(x: real)
    requires x != 0.0
    ensures x / x == 1.0
  {
  }

  lemma MulOfDiv(x: real, y: real, c: real)
    requires c != 0.0 && y == x / c
    ensures x == c * y
  {
  }

  lemma DivCancel(x: real, y: real, c: real, v: real, t: real)
    requires c != 0.0 && t != 0.0 && x == c * v && y == c * t
    ensures x / y == v / t
  {
    assert (v / t) * (c * t) == c * v;
  }

  function Mass(table: ProbabilityTable): real
    requires table.Valid()
  {
    Sum(table.Values())
  }

  function NormalizeProbabilityDictionary(table: ProbabilityTable): (r: Result<ProbabilityTable, Exception>)
    requires table.Valid()
    ensures r.Failure? <==> Mass(table) <= 0.0
    ensures r.Failure? ==> r.error == ValueError
    ensures r.Success? ==> r.value.Valid() && r.value.keys == table.keys
    ensures r.Success? ==> forall k | k in table.entries :: r.value.entries[k] == table.entries[k] / Mass(table)
  {
    var total := Mass(table);
    if total <= 0.0 then Failure(ValueError)
    else Success(Dict(table.keys, map k | k in table.entries :: table.entries[k] / total))
  }

  lemma NormalizedSumsToOne(table: ProbabilityTable)
    requires table.Valid() && NormalizeProbabilityDictionary(table).Success?
    ensures Mass(NormalizeProbabilityDictionary(table).value) == 1.0
  {
    var normal := NormalizeProbabilityDictionary(table).value;
    var total := Mass(table);
    var vs, ns := table.Values(), normal.Values();
    forall i | 0 <= i < |vs|
      ensures ns[i] == vs[i] / total
    {
      assert ns[i] == normal.entries[table.keys[i]];
    }
    SumScaled(vs, ns, total);
    DivSelf(total);
  }

  /** A table whose mass is already 1 normalises to itself. */
  lemma NormalizeUnitMass(table: ProbabilityTable)
    requires table.Valid() && Mass(table) == 1.0
    ensures NormalizeProbabilityDictionary(table) == Success(table)
  {
    var normal := NormalizeProbabilityDictionary(table).value;
    assert normal.entries == table.entries;
  }

  lemma NormalizeIsIdempotent(table: ProbabilityTable)
    requires table.Valid() && NormalizeProbabilityDictionary(table).Success?
    ensures NormalizeProbabilityDictionary(NormalizeProbabilityDictionary(table).value)
         == NormalizeProbabilityDictionary(table)
  {
    NormalizedSumsToOne(table);
    NormalizeUnitMass(NormalizeProbabilityDictionary(table).value);
  }

  /** Every weight multiplied by `c`: the same table in other units. */
  function Scale(table: ProbabilityTable, c: real): (r: ProbabilityTable)
    requires table.Valid()
    ensures r.Valid() && r.keys == table.keys
    ensures forall k | k in table.entries :: r.entries[k] == c * table.entries[k]
  {
    Dict(table.keys, map k | k in table.entries :: c * table.entries[k])
  }

  /** Counts and probabilities normalise to the same table. */
  lemma NormalizeScaleInvariant(table: ProbabilityTable, c: real)
    requires table.Valid() && c > 0.0
    ensures NormalizeProbabilityDictionary(Scale(table, c)) == NormalizeProbabilityDictionary(table)
  {
    ScaleMass(table, c);
    if Mass(table) > 0.0 {
      var a := NormalizeProbabilityDictionary(Scale(table, c)).value;
      var b := NormalizeProbabilityDictionary(table).value;
      forall k | k in table.entries
        ensures a.entries[k] == b.entries[k]
      {
        NormalizedScaledEntry(table, c, k);
      }
      SameKeysSameDomain(a, b);
      SameKeysSameDomain(a, table);
      assert a.entries == b.entries;
    }
  }

  lemma NormalizedScaledEntry(table: ProbabilityTable, c: real, k: string)
    requires table.Valid() && c > 0.0 && Mass(table) > 0.0 && k in table.entries
    ensures NormalizeProbabilityDictionary(Scale(table, c)).Success?
    ensures NormalizeProbabilityDictionary(Scale(table, c)).value.entries[k] == table.entries[k] / Mass(table)
  {
    var scaled := Scale(table, c);
    ScaleMass(table, c);
    DivCancel(scaled.entries[k], Mass(scaled), c, table.entries[k], Mass(table));
  }

  /** Scaling every weight scales the mass. */
  lemma ScaleMass(table: ProbabilityTable, c: real)
    requires table.Valid() && c > 0.0
    ensures Mass(Scale(table, c)) == c * Mass(table)
  {
    var scaled := Scale(table, c);
    ScaledValues(table, c);
    SumScaled(scaled.Values(), table.Values(), c);
    MulOfDiv(Mass(scaled), Mass(table), c);
  }

  lemma ScaledValues(table: ProbabilityTable, c: real)
    requires table.Valid() && c > 0.0
    ensures |Scale(table, c).Values()| == |table.Values()|
    ensures forall i | 0 <= i < |table.keys| :: table.Values()[i] == Scale(table, c).Values()[i] / c
  {
    var scaled := Scale(table, c);
    var vs, ss := table.Values(), scaled.Values();
    forall i | 0 <= i < |vs|
      ensures vs[i] == ss[i] / c
    {
      var k := table.keys[i];
      assert ss[i] == scaled.entries[k];
      DivCancel(ss[i], c, c, vs[i], 1.0);
    }
  }

  // ---------------------------------------------------------------- home point

  /** `compute_home_point`: the mean of the x and of the y coordinates. */
  function ComputeHomePoint(layout: Layout): (r: Result<Point, Exception>)
    requires layout.Valid()
    ensures r.Failure? <==> |layout.keys| == 0
    ensures r.Failure? ==> r.error == ZeroDivisionError
    ensures r.Success? ==> r.value.x * (|layout.keys| as real) == SumOf(layout.Values(), XOf)
    ensures r.Success? ==> r.value.y * (|layout.keys| as real) == SumOf(layout.Values(), YOf)
  {
    var n := |layout.keys|;
    if n == 0 then Failure(ZeroDivisionError)
    else Success(Point(SumOf(layout.Values(), XOf) / n as real, SumOf(layout.Values(), YOf) / n as real))
  }

  /** The home point depends only on the positions, not on which letter holds which. */
  lemma HomePointLayoutAgnostic(layout: Layout, other: Layout)
    requires layout.Valid() && other.Valid()
    requires multiset(layout.Values()) == multiset(other.Values())
    ensures ComputeHomePoint(layout) == ComputeHomePoint(other)
  {
    assert |layout.keys| == |multiset(layout.Values())| == |multiset(other.Values())| == |other.keys|;
    SumOfPermutation(layout.Values(), other.Values(), XOf);
    SumOfPermutation(layout.Values(), other.Values(), YOf);
  }

  // ---------------------------------------------------------------- Fitts matrix

  function FittsTime(maths: Maths, distance: real, width: real, a: real, b: real): real
    requires width != 0.0
  {
    a + b * maths.log2(distance / width + 1.0)
  }

  /** The Euclidean distance from `p` to `q`, by `math.hypot`. */
  function Distance(maths: Maths, p: Point, q: Point): real {
    maths.hypot(p.x - q.x, p.y - q.y)
  }

  /** Entry [from][to] of the matrix: the Fitts time from key `from` to key `to`. */
  function MovementTime(layout: Layout, from: Symbol, to: Symbol, keyWidth: real, interceptA: real, slopeB: real, maths: Maths): real
    requires from in layout.entries && to in layout.entries && keyWidth != 0.0
  {
    FittsTime(maths, Distance(maths, layout.entries[from], layout.entries[to]), keyWidth, interceptA, slopeB)
  }

  /** Moving from a key to itself costs the intercept. */
  lemma MovementTimeDiagonal(layout: Layout, s: Symbol, keyWidth: real, interceptA: real, slopeB: real, maths: Maths)
    requires Lawful(maths) && s in layout.entries && keyWidth != 0.0
    ensures MovementTime(layout, s, s, keyWidth, interceptA, slopeB, maths) == interceptA
  {
    var p := layout.entries[s];
    assert p.x - p.x == 0.0 && p.y - p.y == 0.0;
  }

  lemma MovementTimeSymmetric(layout: Layout, s: Symbol, t: Symbol, keyWidth: real, interceptA: real, slopeB: real, maths: Maths)
    requires Lawful(maths) && s in layout.entries && t in layout.entries && keyWidth != 0.0
    ensures MovementTime(layout, s, t, keyWidth, interceptA, slopeB, maths)
         == MovementTime(layout, t, s, keyWidth, interceptA, slopeB, maths)
  {
    var p, q := layout.entries[s], layout.entries[t];
    assert Distance(maths, p, q) == Distance(maths, q, p);
  }

  /** `letter_to_index`: the position of each letter in the layout's key order. */
  function LetterToIndex(keys: seq<Symbol>): (index: map<Symbol, nat>)
    requires Distinct(keys)
    ensures forall i | 0 <= i < |keys| :: keys[i] in index && index[keys[i]] == i
    ensures forall s | s in index :: index[s] < |keys| && keys[index[s]] == s
  {
    map i | 0 <= i < |keys| :: keys[i] := i
  }

  /** Entry [i][j] of the matrix over the key positions in key order. */
  function MatrixEntry(positions: seq<Point>, i: nat, j: nat, keyWidth: real, interceptA: real, slopeB: real, maths: Maths): real
    requires i < |positions| && j < |positions| && keyWidth != 0.0
  {
    FittsTime(maths, Distance(maths, positions[i], positions[j]), keyWidth, interceptA, slopeB)
  }

  /** Row = from-letter, column = to-letter: the matrix entry is the movement time between the two letters. */
  lemma MatrixEntryIsMovementTime(layout: Layout, i: nat, j: nat, keyWidth: real, interceptA: real, slopeB: real, maths: Maths)
    requires layout.Valid() && i < |layout.keys| && j < |layout.keys| && keyWidth != 0.0
    ensures MatrixEntry(layout.Values(), i, j, keyWidth, interceptA, slopeB, maths)
         == MovementTime(layout, layout.keys[i], layout.keys[j], keyWidth, interceptA, slopeB, maths)
  {
  }

  /** `distance / width + 1`: the argument the Fitts time passes to `math.log2`. */
  function LogArgument(maths: Maths, p: Point, q: Point, keyWidth: real): real
    requires keyWidth != 0.0
  {
    Distance(maths, p, q) / keyWidth + 1.0
  }

  /** `math.log2` raises ValueError (a math domain error) for some pair of keys: its argument is not positive. */
  predicate MatrixRaises(positions: seq<Point>, keyWidth: real, maths: Maths)
    requires keyWidth != 0.0
  {
    exists p, q | p in positions && q in positions :: LogArgument(maths, p, q, keyWidth) <= 0.0
  }

  /**
   * The exception building the matrix raises, if any: `distance / width` divides by zero at the
   * first entry when the width is 0, and otherwise `math.log2` fails at the first pair out of its domain.
   */
  function MatrixError(positions: seq<Point>, keyWidth: real, maths: Maths): Option<Exception> {
    if positions == [] then None
    else if keyWidth == 0.0 then Some(ZeroDivisionError)
    else if MatrixRaises(positions, keyWidth, maths) then Some(ValueError)
    else None
  }

  /** Lines 40-73: `letter_to_index` and the matrix, or the exception a `fitts_time` call raises. */
  method BuildFittsCostMatrixForLayout(layout: Layout, keyWidth: real, interceptA: real, slopeB: real, maths: Maths)
    returns (r: Result<(map<Symbol, nat>, array2<real>), Exception>)
    requires layout.Valid()
    ensures r.Failure? <==> MatrixError(layout.Values(), keyWidth, maths).Some?
    ensures r.Failure? ==> r.error == MatrixError(layout.Values(), keyWidth, maths).value
    ensures r.Success? ==> r.value.0 == LetterToIndex(layout.keys)
    ensures r.Success? ==> fresh(r.value.1)
    ensures r.Success? ==> r.value.1.Length0 == |layout.keys| && r.value.1.Length1 == |layout.keys|
    ensures r.Success? ==> |layout.keys| > 0 ==> keyWidth != 0.0
    ensures r.Success? ==> forall i, j | 0 <= i < |layout.keys| && 0 <= j < |layout.keys| ::
      r.value.1[i, j] == MatrixEntry(layout.Values(), i, j, keyWidth, interceptA, slopeB, maths)
  {
    var lettersInLayout := layout.keys;
    var letterToIndex := LetterToIndex(lettersInLayout);
    var n := |lettersInLayout|;
    ghost var positions := layout.Values();
    var xByIndex := seq(n, i requires 0 <= i < n => layout.entries[lettersInLayout[i]].x);
    var yByIndex := seq(n, i requires 0 <= i < n => layout.entries[lettersInLayout[i]].y);
    forall i | 0 <= i < n
      ensures xByIndex[i] == positions[i].x && yByIndex[i] == positions[i].y
    {
      assert positions[i] == layout.entries[lettersInLayout[i]];
    }
    var matrix := new real[n, n]((i, j) => 0.0);
    var raised := FillMatrix(matrix, xByIndex, yByIndex, positions, keyWidth, interceptA, slopeB, maths);
    if raised.Some? {
      return Failure(raised.value);
    }
    return Success((letterToIndex, matrix));
  }

  /** The outer loop of the matrix: every row, or the exception of the first row that raises. */
  method FillMatrix(matrix: array2<real>, xByIndex: seq<real>, yByIndex: seq<real>, ghost positions: seq<Point>,
                    keyWidth: real, interceptA: real, slopeB: real, maths: Maths)
    returns (raised: Option<Exception>)
    requires matrix.Length0 == matrix.Length1 == |positions| == |xByIndex| == |yByIndex|
    requires forall i | 0 <= i < |positions| :: xByIndex[i] == positions[i].x && yByIndex[i] == positions[i].y
    modifies matrix
    ensures raised == MatrixError(positions, keyWidth, maths)
    ensures raised.None? ==> forall i, j | 0 <= i < |positions| && 0 <= j < |positions| ::
      keyWidth != 0.0 && matrix[i, j] == MatrixEntry(positions, i, j, keyWidth, interceptA, slopeB, maths)
  {
    var n := matrix.Length0;
    for fromIndex := 0 to n
      invariant fromIndex > 0 ==> keyWidth != 0.0
      invariant forall i, j | 0 <= i < fromIndex && 0 <= j < n ::
        keyWidth != 0.0 && LogArgument(maths, positions[i], positions[j], keyWidth) > 0.0
      invariant forall i, j | 0 <= i < fromIndex && 0 <= j < n ::
        keyWidth != 0.0 && matrix[i, j] == MatrixEntry(positions, i, j, keyWidth, interceptA, slopeB, maths)
    {
      raised := FillRow(matrix, fromIndex, xByIndex, yByIndex, positions, keyWidth, interceptA, slopeB, maths);
      if raised.Some? {
        if keyWidth != 0.0 {
          RowRaises(positions, fromIndex, keyWidth, maths);
        }
        return;
      }
    }
    if n > 0 {
      NoPairRaises(positions, keyWidth, maths);
    }
    return None;
  }

  /** A row with an entry out of `math.log2`'s domain makes the matrix raise. */
  lemma RowRaises(positions: seq<Point>, i: nat, keyWidth: real, maths: Maths)
    requires i < |positions| && keyWidth != 0.0
    requires !forall j | 0 <= j < |positions| :: LogArgument(maths, positions[i], positions[j], keyWidth) > 0.0
    ensures MatrixRaises(positions, keyWidth, maths)
  {
    var j :| 0 <= j < |positions| && LogArgument(maths, positions[i], positions[j], keyWidth) <= 0.0;
    assert positions[i] in positions && positions[j] in positions;
  }

  /** When every entry's argument is positive, the matrix does not raise. */
  lemma NoPairRaises(positions: seq<Point>, keyWidth: real, maths: Maths)
    requires keyWidth != 0.0
    requires forall i, j | 0 <= i < |positions| && 0 <= j < |positions| ::
      keyWidth != 0.0 && LogArgument(maths, positions[i], positions[j], keyWidth) > 0.0
    ensures !MatrixRaises(positions, keyWidth, maths)
  {
    forall p, q | p in positions && q in positions
      ensures LogArgument(maths, p, q, keyWidth) > 0.0
    {
      var i :| 0 <= i < |positions| && positions[i] == p;
      var j :| 0 <= j < |positions| && positions[j] == q;
    }
  }

  /** The inner loop of the matrix: row `fromIndex`, or the exception its first bad entry raises; every other row unchanged. */
  method FillRow(matrix: array2<real>, fromIndex: nat, xByIndex: seq<real>, yByIndex: seq<real>, ghost positions: seq<Point>,
                 keyWidth: real, interceptA: real, slopeB: real, maths: Maths)
    returns (raised: Option<Exception>)
    requires matrix.Length0 == matrix.Length1 == |positions| == |xByIndex| == |yByIndex| && fromIndex < |positions|
    requires forall i | 0 <= i < |positions| :: xByIndex[i] == positions[i].x && yByIndex[i] == positions[i].y
    modifies matrix
    ensures raised.None? <==>
      keyWidth != 0.0 && forall j | 0 <= j < |positions| :: LogArgument(maths, positions[fromIndex], positions[j], keyWidth) > 0.0
    ensures raised.Some? ==> raised.value == if keyWidth == 0.0 then ZeroDivisionError else ValueError
    ensures raised.None? ==> forall j | 0 <= j < |positions| ::
      matrix[fromIndex, j] == MatrixEntry(positions, fromIndex, j, keyWidth, interceptA, slopeB, maths)
    ensures forall i, j | 0 <= i < |positions| && i != fromIndex && 0 <= j < |positions| :: matrix[i, j] == old(matrix[i, j])
  {
    var n := matrix.Length1;
    var xFrom, yFrom := xByIndex[fromIndex], yByIndex[fromIndex];
    for toIndex := 0 to n
      invariant toIndex > 0 ==> keyWidth != 0.0
      invariant forall j | 0 <= j < toIndex ::
        keyWidth != 0.0 && LogArgument(maths, positions[fromIndex], positions[j], keyWidth) > 0.0
      invariant forall j | 0 <= j < toIndex ::
        keyWidth != 0.0 && matrix[fromIndex, j] == MatrixEntry(positions, fromIndex, j, keyWidth, interceptA, slopeB, maths)
      invariant forall i, j | 0 <= i < n && i != fromIndex && 0 <= j < n :: matrix[i, j] == old(matrix[i, j])
    {
      var dx := xFrom - xByIndex[toIndex];
      var dy := yFrom - yByIndex[toIndex];
      var distance := maths.hypot(dx, dy);
      if keyWidth == 0.0 {
        return Some(ZeroDivisionError);
      }
      if distance / keyWidth + 1.0 <= 0.0 {
        assert distance == Distance(maths, positions[fromIndex], positions[toIndex]);
        return Some(ValueError);
      }
      matrix[fromIndex, toIndex] := FittsTime(maths, distance, keyWidth, interceptA, slopeB);
    }
    return None;
  }

  // ---------------------------------------------------------------- digraph cost

  /** `float(probability) * amount`: one term of either cost sum. */
  function Weigh(probability: real, amount: real): real {
    probability * amount
  }

  /** The exception the digraph loop raises at `digraph`, if any. */
  function DigraphError(present: set<Symbol>, digraph: string): Option<Exception> {
    if |digraph| < 2 then Some(IndexError)
    else if digraph[..1] !in present || digraph[1..2] !in present then Some(KeyError)
    else None
  }

  /** The exception of the first digraph, in iteration order, that raises one. */
  function FirstDigraphError(present: set<Symbol>, digraphs: seq<string>): Option<Exception>
    decreases |digraphs|
  {
    if digraphs == [] then None
    else
      var earlier := FirstDigraphError(present, digraphs[..|digraphs| - 1]);
      if earlier.Some? then earlier else DigraphError(present, digraphs[|digraphs| - 1])
  }

  lemma {:induction false} FirstDigraphErrorOfPrefix(present: set<Symbol>, digraphs: seq<string>, m: nat)
    requires m <= |digraphs| && FirstDigraphError(present, digraphs[..m]).Some?
    ensures FirstDigraphError(present, digraphs) == FirstDigraphError(present, digraphs[..m])
    decreases |digraphs| - m
  {
    if m < |digraphs| {
      assert digraphs[..m + 1][..m] == digraphs[..m];
      FirstDigraphErrorOfPrefix(present, digraphs, m + 1);
    } else {
      assert digraphs[..m] == digraphs;
    }
  }

  /** Σ P(d)·M[d[0]][d[1]] over `digraphs`, accumulated in iteration order. */
  function DigraphCostOver(layout: Layout, probabilities: map<string, real>, digraphs: seq<string>,
                           keyWidth: real, interceptA: real, slopeB: real, maths: Maths): real
    requires digraphs != [] ==> keyWidth != 0.0
    requires FirstDigraphError(layout.entries.Keys, digraphs).None?
    requires forall j | 0 <= j < |digraphs| :: digraphs[j] in probabilities
    decreases |digraphs|
  {
    if digraphs == [] then 0.0
    else
      var d := digraphs[|digraphs| - 1];
      DigraphCostOver(layout, probabilities, digraphs[..|digraphs| - 1], keyWidth, interceptA, slopeB, maths)
      + Weigh(probabilities[d], MovementTime(layout, d[..1], d[1..2], keyWidth, interceptA, slopeB, maths))
  }

  /** One more iteration of the digraph loop adds the term of `digraphs[i]`. */
  lemma DigraphCostOverStep(layout: Layout, probabilities: map<string, real>, digraphs: seq<string>, i: nat, term: real,
                            keyWidth: real, interceptA: real, slopeB: real, maths: Maths)
    requires i < |digraphs| && keyWidth != 0.0
    requires FirstDigraphError(layout.entries.Keys, digraphs[..i]).None?
    requires DigraphError(layout.entries.Keys, digraphs[i]).None?
    requires forall j | 0 <= j < |digraphs| :: digraphs[j] in probabilities
    requires term == Weigh(probabilities[digraphs[i]], MovementTime(layout, digraphs[i][..1], digraphs[i][1..2], keyWidth, interceptA, slopeB, maths))
    ensures FirstDigraphError(layout.entries.Keys, digraphs[..i + 1]).None?
    ensures DigraphCostOver(layout, probabilities, digraphs[..i + 1], keyWidth, interceptA, slopeB, maths)
         == DigraphCostOver(layout, probabilities, digraphs[..i], keyWidth, interceptA, slopeB, maths) + term
  {
    assert digraphs[..i + 1][..i] == digraphs[..i];
  }

  /** Lines 108-117: the digraph cost, or the exception the loop raises. */
  function DigraphCost(layout: Layout, digraphs: ProbabilityTable, keyWidth: real, interceptA: real, slopeB: real, maths: Maths)
    : Result<real, Exception>
    requires layout.Valid() && digraphs.Valid()
    requires |layout.keys| > 0 ==> keyWidth != 0.0
  {
    var e := FirstDigraphError(layout.entries.Keys, digraphs.keys);
    if e.Some? then Failure(e.value)
    else if |layout.keys| == 0 then Success(0.0)  // no digraph can pass the membership test
    else Success(DigraphCostOver(layout, digraphs.entries, digraphs.keys, keyWidth, interceptA, slopeB, maths))
  }

  method DigraphCostLoop(layout: Layout, letterToIndex: map<Symbol, nat>, matrix: array2<real>, digraphs: ProbabilityTable,
                         keyWidth: real, interceptA: real, slopeB: real, maths: Maths)
    returns (r: Result<real, Exception>)
    requires layout.Valid() && digraphs.Valid()
    requires |layout.keys| > 0 ==> keyWidth != 0.0
    requires letterToIndex == LetterToIndex(layout.keys)
    requires matrix.Length0 == |layout.keys| && matrix.Length1 == |layout.keys|
    requires forall i, j | 0 <= i < |layout.keys| && 0 <= j < |layout.keys| ::
      matrix[i, j] == MatrixEntry(layout.Values(), i, j, keyWidth, interceptA, slopeB, maths)
    ensures r == DigraphCost(layout, digraphs, keyWidth, interceptA, slopeB, maths)
  {
    var ds := digraphs.keys;
    var digraphCost := 0.0;
    for i := 0 to |ds|
      invariant FirstDigraphError(layout.entries.Keys, ds[..i]).None?
      invariant |layout.keys| == 0 ==> i == 0
      invariant digraphCost == DigraphCostOver(layout, digraphs.entries, ds[..i], keyWidth, interceptA, slopeB, maths)
    {
      var term := DigraphTerm(layout, letterToIndex, matrix, ds[i], digraphs.entries[ds[i]], keyWidth, interceptA, slopeB, maths);
      if term.Failure? {
        DigraphCostFails(layout, digraphs, i, keyWidth, interceptA, slopeB, maths);
        return Failure(term.error);
      }
      DigraphCostOverStep(layout, digraphs.entries, ds, i, term.value, keyWidth, interceptA, slopeB, maths);
      digraphCost := digraphCost + term.value;
    }
    DigraphCostCompletes(layout, digraphs, digraphCost, keyWidth, interceptA, slopeB, maths);
    return Success(digraphCost);
  }

  /** The loop stops at the first digraph that raises, and that is the outcome. */
  lemma DigraphCostFails(layout: Layout, digraphs: ProbabilityTable, i: nat, keyWidth: real, interceptA: real, slopeB: real, maths: Maths)
    requires layout.Valid() && digraphs.Valid()
    requires |layout.keys| > 0 ==> keyWidth != 0.0
    requires i < |digraphs.keys|
    requires FirstDigraphError(layout.entries.Keys, digraphs.keys[..i]).None?
    requires DigraphError(layout.entries.Keys, digraphs.keys[i]).Some?
    ensures DigraphCost(layout, digraphs, keyWidth, interceptA, slopeB, maths)
         == Failure(DigraphError(layout.entries.Keys, digraphs.keys[i]).value)
  {
    assert digraphs.keys[..i + 1][..i] == digraphs.keys[..i];
    FirstDigraphErrorOfPrefix(layout.entries.Keys, digraphs.keys, i + 1);
  }

  /** A loop that raises nothing computes the digraph cost. */
  lemma DigraphCostCompletes(layout: Layout, digraphs: ProbabilityTable, acc: real, keyWidth: real, interceptA: real, slopeB: real, maths: Maths)
    requires layout.Valid() && digraphs.Valid()
    requires |layout.keys| > 0 ==> keyWidth != 0.0
    requires |layout.keys| == 0 ==> |digraphs.keys| == 0
    requires FirstDigraphError(layout.entries.Keys, digraphs.keys[..|digraphs.keys|]).None?
    requires acc == DigraphCostOver(layout, digraphs.entries, digraphs.keys[..|digraphs.keys|], keyWidth, interceptA, slopeB, maths)
    ensures DigraphCost(layout, digraphs, keyWidth, interceptA, slopeB, maths) == Success(acc)
  {
    assert digraphs.keys[..|digraphs.keys|] == digraphs.keys;
  }

  /** One pass of the digraph loop's body: the term `digraph` adds, or the exception it raises. */
  method DigraphTerm(layout: Layout, letterToIndex: map<Symbol, nat>, matrix: array2<real>, digraph: string, probability: real,
                     keyWidth: real, interceptA: real, slopeB: real, maths: Maths)
    returns (r: Result<real, Exception>)
    requires layout.Valid()
    requires |layout.keys| > 0 ==> keyWidth != 0.0
    requires letterToIndex == LetterToIndex(layout.keys)
    requires matrix.Length0 == |layout.keys| && matrix.Length1 == |layout.keys|
    requires forall i, j | 0 <= i < |layout.keys| && 0 <= j < |layout.keys| ::
      matrix[i, j] == MatrixEntry(layout.Values(), i, j, keyWidth, interceptA, slopeB, maths)
    ensures r.Failure? <==> DigraphError(layout.entries.Keys, digraph).Some?
    ensures r.Failure? ==> r.error == DigraphError(layout.entries.Keys, digraph).value
    ensures r.Success? ==> keyWidth != 0.0
    ensures r.Success? ==>
      r.value == Weigh(probability, MovementTime(layout, digraph[..1], digraph[1..2], keyWidth, interceptA, slopeB, maths))
  {
    if |digraph| < 2 {
      return Failure(IndexError);
    }
    var fromLetter, toLetter := digraph[..1], digraph[1..2];
    if fromLetter !in letterToIndex || toLetter !in letterToIndex {
      return Failure(KeyError);
    }
    var fromIndex, toIndex := letterToIndex[fromLetter], letterToIndex[toLetter];
    var movementTime := matrix[fromIndex, toIndex];
    MatrixEntryIsMovementTime(layout, fromIndex, toIndex, keyWidth, interceptA, slopeB, maths);
    return Success(Weigh(probability, movementTime));
  }

  // ---------------------------------------------------------------- single-letter cost

  /** Σ P(l)·dist(pos(l), home) over `letters`, accumulated in iteration order. */
  function SingleLetterCostOver(layout: Layout, probabilities: map<string, real>, letters: seq<string>, home: Point, maths: Maths): real
    requires forall j | 0 <= j < |letters| :: letters[j] in layout.entries && letters[j] in probabilities
    decreases |letters|
  {
    if letters == [] then 0.0
    else
      var l := letters[|letters| - 1];
      SingleLetterCostOver(layout, probabilities, letters[..|letters| - 1], home, maths)
      + Weigh(probabilities[l], Distance(maths, layout.entries[l], home))
  }

  /** Lines 122-127: the single-letter cost, or KeyError for a letter not in the layout. */
  function SingleLetterCost(layout: Layout, letters: ProbabilityTable, home: Point, maths: Maths): Result<real, Exception>
    requires letters.Valid()
  {
    if exists l | l in letters.keys :: l !in layout.entries then Failure(KeyError)
    else Success(SingleLetterCostOver(layout, letters.entries, letters.keys, home, maths))
  }

  method SingleLetterCostLoop(layout: Layout, letters: ProbabilityTable, home: Point, maths: Maths)
    returns (r: Result<real, Exception>)
    requires letters.Valid()
    ensures r == SingleLetterCost(layout, letters, home, maths)
  {
    var ls := letters.keys;
    var singleLetterCost := 0.0;
    for i := 0 to |ls|
      invariant forall j | 0 <= j < i :: ls[j] in layout.entries
      invariant singleLetterCost == SingleLetterCostOver(layout, letters.entries, ls[..i], home, maths)
    {
      var letter := ls[i];
      if letter !in layout.entries {
        return Failure(KeyError);
      }
      var position := layout.entries[letter];
      var distanceToHome := maths.hypot(position.x - home.x, position.y - home.y);
      assert ls[..i + 1][..i] == ls[..i];
      singleLetterCost := singleLetterCost + Weigh(letters.entries[letter], distanceToHome);
    }
    assert ls[..|ls|] == ls;
    return Success(singleLetterCost);
  }

  // ---------------------------------------------------------------- total cost

  /** Lines 95-97 and 144-146: both tables normalised when asked, the digraphs first. */
  function NormalizedInputs(digraphProbs: ProbabilityTable, letterProbs: ProbabilityTable, normalizeInputs: bool)
    : (r: Result<(ProbabilityTable, ProbabilityTable), Exception>)
    requires digraphProbs.Valid() && letterProbs.Valid()
    ensures r.Success? ==> r.value.0.Valid() && r.value.1.Valid()
    ensures !normalizeInputs ==> r == Success((digraphProbs, letterProbs))
  {
    if !normalizeInputs then Success((digraphProbs, letterProbs))
    else
      var digraphs := NormalizeProbabilityDictionary(digraphProbs);
      if digraphs.Failure? then Failure(digraphs.error)
      else
        var letters := NormalizeProbabilityDictionary(letterProbs);
        if letters.Failure? then Failure(letters.error)
        else Success((digraphs.value, letters.value))
  }

  /** Everything after normalisation, in the source's order: matrix, digraph loop, home point, letter loop. */
  function CostOfNormalized(layout: Layout, digraphs: ProbabilityTable, letters: ProbabilityTable,
                            params: CostParameters, maths: Maths): Result<CostRecord, Exception>
    requires layout.Valid() && digraphs.Valid() && letters.Valid()
  {
    var matrix := MatrixError(layout.Values(), params.keyWidth, maths);
    if matrix.Some? then Failure(matrix.value)
    else
      var dc := DigraphCost(layout, digraphs, params.keyWidth, params.interceptA, params.slopeB, maths);
      var home := ComputeHomePoint(layout);
      if dc.Failure? then Failure(dc.error)
      else if home.Failure? then Failure(home.error)
      else
        var sc := SingleLetterCost(layout, letters, home.value, maths);
        if sc.Failure? then Failure(sc.error)
        else Success(CostRecord(dc.value, sc.value, WeightedTotal(params, dc.value, sc.value)))
  }

  /** Line 172: `digraph_weight * digraph_cost + single_letter_weight * single_letter_cost`. */
  function WeightedTotal(params: CostParameters, digraphCost: real, singleLetterCost: real): real {
    params.digraphWeight * digraphCost + params.singleLetterWeight * singleLetterCost
  }

  /** The outcome of `calculate_keyboard_cost_components`. */
  function CostComponents(layout: Layout, digraphProbs: ProbabilityTable, letterProbs: ProbabilityTable,
                          params: CostParameters, maths: Maths): Result<CostRecord, Exception>
    requires layout.Valid() && digraphProbs.Valid() && letterProbs.Valid()
  {
    var inputs := NormalizedInputs(digraphProbs, letterProbs, params.normalizeInputs);
    if inputs.Failure? then Failure(inputs.error)
    else CostOfNormalized(layout, inputs.value.0, inputs.value.1, params, maths)
  }

  /** The outcome of `calculate_keyboard_cost`: the total of the same computation. */
  function TotalCost(components: Result<CostRecord, Exception>): Result<real, Exception> {
    match components
    case Success(c) => Success(c.totalCost)
    case Failure(e) => Failure(e)
  }

  method CalculateKeyboardCostComponents(layout: Layout, digraphProbs: ProbabilityTable, letterProbs: ProbabilityTable,
                                         params: CostParameters, maths: Maths)
    returns (r: Result<CostRecord, Exception>)
    requires layout.Valid() && digraphProbs.Valid() && letterProbs.Valid()
    ensures r == CostComponents(layout, digraphProbs, letterProbs, params, maths)
  {
    var digraphProbabilities, singleLetterProbabilities := digraphProbs, letterProbs;
    if params.normalizeInputs {
      var digraphs := NormalizeProbabilityDictionary(digraphProbs);
      if digraphs.Failure? {
        return Failure(digraphs.error);
      }
      var letters := NormalizeProbabilityDictionary(letterProbs);
      if letters.Failure? {
        return Failure(letters.error);
      }
      digraphProbabilities, singleLetterProbabilities := digraphs.value, letters.value;
    }
    assert NormalizedInputs(digraphProbs, letterProbs, params.normalizeInputs) == Success((digraphProbabilities, singleLetterProbabilities));
    r := CostOfNormalizedLoops(layout, digraphProbabilities, singleLetterProbabilities, params, maths);
  }

  /** Lines 148-173: the matrix, the two loops and the weighted total. */
  method CostOfNormalizedLoops(layout: Layout, digraphProbabilities: ProbabilityTable, singleLetterProbabilities: ProbabilityTable,
                               params: CostParameters, maths: Maths)
    returns (r: Result<CostRecord, Exception>)
    requires layout.Valid() && digraphProbabilities.Valid() && singleLetterProbabilities.Valid()
    ensures r == CostOfNormalized(layout, digraphProbabilities, singleLetterProbabilities, params, maths)
  {
    var built := BuildFittsCostMatrixForLayout(layout, params.keyWidth, params.interceptA, params.slopeB, maths);
    if built.Failure? {
      return Failure(built.error);
    }
    var (letterToIndex, matrix) := built.value;
    var digraphCost := DigraphCostLoop(layout, letterToIndex, matrix, digraphProbabilities,
                                       params.keyWidth, params.interceptA, params.slopeB, maths);
    if digraphCost.Failure? {
      return Failure(digraphCost.error);
    }
    var home := ComputeHomePoint(layout);
    if home.Failure? {
      return Failure(home.error);
    }
    var singleLetterCost := SingleLetterCostLoop(layout, singleLetterProbabilities, home.value, maths);
    if singleLetterCost.Failure? {
      return Failure(singleLetterCost.error);
    }
    var totalCost := WeightedTotal(params, digraphCost.value, singleLetterCost.value);
    return Success(CostRecord(digraphCost.value, singleLetterCost.value, totalCost));
  }

  /** `calculate_keyboard_cost` repeats the body of `calculate_keyboard_cost_components` and returns only the total. */
  method CalculateKeyboardCost(layout: Layout, digraphProbs: ProbabilityTable, letterProbs: ProbabilityTable,
                               params: CostParameters, maths: Maths)
    returns (r: Result<real, Exception>)
    requires layout.Valid() && digraphProbs.Valid() && letterProbs.Valid()
    ensures r == TotalCost(CostComponents(layout, digraphProbs, letterProbs, params, maths))
  {
    var components := CalculateKeyboardCostComponents(layout, digraphProbs, letterProbs, params, maths);
    if components.Failure? {
      return Failure(components.error);
    }
    return Success(components.value.totalCost);
  }

  // ---------------------------------------------------------------- properties of the whole cost

  /** Every digraph passes the loop's lookups exactly when none raises. */
  lemma {:induction false} FirstDigraphErrorNone(present: set<Symbol>, digraphs: seq<string>)
    ensures FirstDigraphError(present, digraphs).None?
        <==> forall i | 0 <= i < |digraphs| :: DigraphError(present, digraphs[i]).None?
    decreases |digraphs|
  {
    if digraphs != [] {
      var n := |digraphs| - 1;
      FirstDigraphErrorNone(present, digraphs[..n]);
      assert forall i | 0 <= i < n :: digraphs[..n][i] == digraphs[i];
    }
  }

  /** With normalisation on, counts and probabilities (any positive scale of either table) give the same cost. */
  lemma CostScaleInvariant(layout: Layout, digraphProbs: ProbabilityTable, letterProbs: ProbabilityTable,
                           c: real, d: real, params: CostParameters, maths: Maths)
    requires layout.Valid() && digraphProbs.Valid() && letterProbs.Valid()
    requires c > 0.0 && d > 0.0 && params.normalizeInputs
    ensures CostComponents(layout, Scale(digraphProbs, c), Scale(letterProbs, d), params, maths)
         == CostComponents(layout, digraphProbs, letterProbs, params, maths)
  {
    NormalizeScaleInvariant(digraphProbs, c);
    NormalizeScaleInvariant(letterProbs, d);
  }

  /** Tables that already sum to 1 cost the same whether or not `normalize_inputs` is set. */
  lemma NormalizedInputsNeedNoNormalization(layout: Layout, digraphProbs: ProbabilityTable, letterProbs: ProbabilityTable,
                                            params: CostParameters, maths: Maths)
    requires layout.Valid() && digraphProbs.Valid() && letterProbs.Valid()
    requires Mass(digraphProbs) == 1.0 && Mass(letterProbs) == 1.0
    ensures CostComponents(layout, digraphProbs, letterProbs, params, maths)
         == CostOfNormalized(layout, digraphProbs, letterProbs, params, maths)
  {
    NormalizeUnitMass(digraphProbs);
    NormalizeUnitMass(letterProbs);
  }

  /** The cost of a layout that lacks a letter of the letter table is a KeyError (or an earlier error). */
  lemma MissingLetterFails(layout: Layout, digraphProbs: ProbabilityTable, letterProbs: ProbabilityTable,
                           params: CostParameters, maths: Maths, l: string)
    requires layout.Valid() && digraphProbs.Valid() && letterProbs.Valid()
    requires l in letterProbs.keys && l !in layout.entries
    ensures CostComponents(layout, digraphProbs, letterProbs, params, maths).Failure?
  {
    var inputs := NormalizedInputs(digraphProbs, letterProbs, params.normalizeInputs);
    if inputs.Success? {
      var letters := inputs.value.1;
      assert letters.keys == letterProbs.keys;
      assert l in letters.keys;
    }
  }

  /** `math.hypot` is never negative. */
  ghost predicate NonNegativeHypot(maths: Maths) {
    forall x: real, y: real :: maths.hypot(x, y) >= 0.0
  }

  /** Rearranging the same positions over the same keys raises the same matrix exception. */
  lemma MatrixErrorOfRearrangement(positions: seq<Point>, other: seq<Point>, keyWidth: real, maths: Maths)
    requires multiset(positions) == multiset(other)
    ensures MatrixError(positions, keyWidth, maths) == MatrixError(other, keyWidth, maths)
  {
    forall p
      ensures p in positions <==> p in other
    {
      assert p in positions <==> p in multiset(positions);
      assert p in other <==> p in multiset(other);
    }
    assert |positions| == |multiset(positions)| == |multiset(other)| == |other|;
  }

  /** With a positive key width and a non-negative `math.hypot`, `math.log2` never leaves its domain. */
  lemma MatrixNeverRaises(positions: seq<Point>, keyWidth: real, maths: Maths)
    requires NonNegativeHypot(maths) && keyWidth > 0.0
    ensures !MatrixRaises(positions, keyWidth, maths)
  {
    forall p, q | p in positions && q in positions
      ensures LogArgument(maths, p, q, keyWidth) > 0.0
    {
      var d := Distance(maths, p, q);
      assert d >= 0.0;
      assert d / keyWidth >= 0.0 by {
        assert (d / keyWidth) * keyWidth == d;
      }
    }
  }

  /** Whether the cost can be computed does not depend on which letter holds which of the same positions. */
  lemma CostOutcomeOfRearrangement(layout: Layout, other: Layout, digraphProbs: ProbabilityTable, letterProbs: ProbabilityTable,
                                   params: CostParameters, maths: Maths)
    requires layout.Valid() && other.Valid() && layout.keys == other.keys
    requires multiset(layout.Values()) == multiset(other.Values())
    requires digraphProbs.Valid() && letterProbs.Valid()
    ensures CostComponents(layout, digraphProbs, letterProbs, params, maths).Success?
        <==> CostComponents(other, digraphProbs, letterProbs, params, maths).Success?
  {
    MatrixErrorOfRearrangement(layout.Values(), other.Values(), params.keyWidth, maths);
    AfterMatrixDependsOnKeys(layout, other, digraphProbs, letterProbs, params, maths);
  }

  /**
   * Whether the cost can be computed depends on the layout's keys only, not on their positions, when the
   * key width is not negative: then `math.log2` cannot raise.
   */
  lemma CostOutcomeDependsOnKeys(layout: Layout, other: Layout, digraphProbs: ProbabilityTable, letterProbs: ProbabilityTable,
                                 params: CostParameters, maths: Maths)
    requires layout.Valid() && other.Valid() && layout.keys == other.keys
    requires digraphProbs.Valid() && letterProbs.Valid()
    requires params.keyWidth >= 0.0 && NonNegativeHypot(maths)
    ensures CostComponents(layout, digraphProbs, letterProbs, params, maths).Success?
        <==> CostComponents(other, digraphProbs, letterProbs, params, maths).Success?
  {
    if params.keyWidth > 0.0 {
      MatrixNeverRaises(layout.Values(), params.keyWidth, maths);
      MatrixNeverRaises(other.Values(), params.keyWidth, maths);
    }
    AfterMatrixDependsOnKeys(layout, other, digraphProbs, letterProbs, params, maths);
  }

  /** Past the matrix, only the keys decide whether a cost comes out. */
  lemma AfterMatrixDependsOnKeys(layout: Layout, other: Layout, digraphProbs: ProbabilityTable, letterProbs: ProbabilityTable,
                                 params: CostParameters, maths: Maths)
    requires layout.Valid() && other.Valid() && layout.keys == other.keys
    requires digraphProbs.Valid() && letterProbs.Valid()
    requires MatrixError(layout.Values(), params.keyWidth, maths) == MatrixError(other.Values(), params.keyWidth, maths)
    ensures CostComponents(layout, digraphProbs, letterProbs, params, maths).Success?
        <==> CostComponents(other, digraphProbs, letterProbs, params, maths).Success?
  {
    SameKeysSameDomain(layout, other);
    var inputs := NormalizedInputs(digraphProbs, letterProbs, params.normalizeInputs);
    if inputs.Success? && MatrixError(layout.Values(), params.keyWidth, maths).None? {
      var digraphs, letters := inputs.value.0, inputs.value.1;
      var dc := DigraphCost(layout, digraphs, params.keyWidth, params.interceptA, params.slopeB, maths);
      var dc' := DigraphCost(other, digraphs, params.keyWidth, params.interceptA, params.slopeB, maths);
      assert dc.Success? <==> dc'.Success?;
      var home, home' := ComputeHomePoint(layout), ComputeHomePoint(other);
      if dc.Success? && home.Success? {
        var sc := SingleLetterCost(layout, letters, home.value, maths);
        var sc' := SingleLetterCost(other, letters, home'.value, maths);
        assert sc.Success? <==> sc'.Success?;
      }
    }
  }

  /**
   * With key_width = -1 the positions matter: keys 1 apart give `math.log2(0)`, a ValueError, while the
   * same keys on one spot price without error.
   */
  lemma NegativeWidthOutcomeDependsOnPositions(maths: Maths)
    requires maths.hypot(0.0, 0.0) == 0.0 && maths.hypot(-1.0, 0.0) == 1.0
    ensures ExampleLayout().Valid() && StackedLayout().Valid() && EmptyDict<string, real>().Valid()
    ensures CostComponents(ExampleLayout(), EmptyDict(), EmptyDict(), NegativeWidth(), maths) == Failure(ValueError)
    ensures CostComponents(StackedLayout(), EmptyDict(), EmptyDict(), NegativeWidth(), maths).Success?
  {
    SpreadKeysRaise(maths);
    StackedKeysPriced(maths);
  }

  lemma SpreadKeysRaise(maths: Maths)
    requires maths.hypot(-1.0, 0.0) == 1.0
    ensures ExampleLayout().Valid() && EmptyDict<string, real>().Valid()
    ensures CostComponents(ExampleLayout(), EmptyDict(), EmptyDict(), NegativeWidth(), maths) == Failure(ValueError)
  {
    ExampleTablesAreNormal();
    var positions := ExampleLayout().Values();
    assert positions == [Point(0.0, 0.0), Point(1.0, 0.0)];
    assert Point(0.0, 0.0) in positions && Point(1.0, 0.0) in positions;
    assert LogArgument(maths, Point(0.0, 0.0), Point(1.0, 0.0), -1.0) == 0.0;
    assert MatrixError(positions, -1.0, maths) == Some(ValueError);
  }

  lemma StackedKeysPriced(maths: Maths)
    requires maths.hypot(0.0, 0.0) == 0.0
    ensures StackedLayout().Valid() && EmptyDict<string, real>().Valid()
    ensures CostComponents(StackedLayout(), EmptyDict(), EmptyDict(), NegativeWidth(), maths).Success?
  {
    var stacked := StackedLayout();
    var positions := stacked.Values();
    assert positions == [Point(0.0, 0.0), Point(0.0, 0.0)];
    assert !MatrixRaises(positions, -1.0, maths) by {
      forall p, q | p in positions && q in positions
        ensures LogArgument(maths, p, q, -1.0) == 1.0
      {
        assert p == Point(0.0, 0.0) && q == Point(0.0, 0.0);
      }
    }
    assert EmptyDict<string, real>().keys[..0] == [];
    assert DigraphCost(stacked, EmptyDict(), -1.0, 0.0, 1.0, maths) == Success(0.0);
    assert ComputeHomePoint(stacked).Success?;
  }

  function NegativeWidth(): CostParameters {
    DefaultParameters.(keyWidth := -1.0, normalizeInputs := false)
  }

  function StackedLayout(): Layout {
    Dict(["a", "b"], map["a" := Point(0.0, 0.0), "b" := Point(0.0, 0.0)])
  }

  /**
   * Two keys a = (0, 0) and b = (1, 0), the digraph "ab" with weight 1 and the letter "a" with weight 1,
   * default parameters: the digraph cost is log2(2) = 1, the home point is (0.5, 0), and the total is
   * 1·1 + 0.1·0.5.
   */
  lemma TwoKeyExample(maths: Maths)
    requires maths.log2(2.0) == 1.0 && maths.hypot(-1.0, 0.0) == 1.0 && maths.hypot(-0.5, 0.0) == 0.5
    requires NonNegativeHypot(maths)
    ensures CostComponents(ExampleLayout(), ExampleDigraphs(), ExampleLetters(), DefaultParameters, maths)
         == Success(CostRecord(1.0, 0.5, 1.05))
  {
    var layout, digraphs, letters := ExampleLayout(), ExampleDigraphs(), ExampleLetters();
    ExampleTablesAreNormal();
    NormalizedInputsNeedNoNormalization(layout, digraphs, letters, DefaultParameters, maths);
    MatrixNeverRaises(layout.Values(), 1.0, maths);
    ExampleDigraphCost(maths);
    ExampleHomePoint();
    ExampleLetterCost(maths);
    assert WeightedTotal(DefaultParameters, 1.0, 0.5) == 1.05;
  }

  function ExampleLayout(): Layout {
    Dict(["a", "b"], map["a" := Point(0.0, 0.0), "b" := Point(1.0, 0.0)])
  }

  function ExampleDigraphs(): ProbabilityTable {
    Dict(["ab"], map["ab" := 1.0])
  }

  function ExampleLetters(): ProbabilityTable {
    Dict(["a"], map["a" := 1.0])
  }

  lemma ExampleTablesAreNormal()
    ensures ExampleLayout().Valid() && ExampleDigraphs().Valid() && ExampleLetters().Valid()
    ensures Mass(ExampleDigraphs()) == 1.0 && Mass(ExampleLetters()) == 1.0
  {
    assert ExampleDigraphs().Values() == [1.0];
    assert ExampleLetters().Values() == [1.0];
    assert Sum([1.0]) == Sum([]) + 1.0;
  }

  lemma ExampleDigraphCost(maths: Maths)
    requires maths.log2(2.0) == 1.0 && maths.hypot(-1.0, 0.0) == 1.0
    ensures ExampleLayout().Valid() && ExampleDigraphs().Valid()
    ensures DigraphCost(ExampleLayout(), ExampleDigraphs(), 1.0, 0.0, 1.0, maths) == Success(1.0)
  {
    ExampleTablesAreNormal();
    var layout, digraphs := ExampleLayout(), ExampleDigraphs();
    var present := layout.entries.Keys;
    assert "ab"[..1] == "a" && "ab"[1..2] == "b";
    assert digraphs.keys[..0] == [];
    assert FirstDigraphError(present, digraphs.keys) == DigraphError(present, "ab") == None;
    assert MovementTime(layout, "a", "b", 1.0, 0.0, 1.0, maths) == 1.0 by {
      assert Distance(maths, Point(0.0, 0.0), Point(1.0, 0.0)) == 1.0;
      assert 1.0 / 1.0 + 1.0 == 2.0;
    }
    assert Weigh(1.0, 1.0) == 1.0;
  }

  lemma ExampleHomePoint()
    ensures ExampleLayout().Valid()
    ensures ComputeHomePoint(ExampleLayout()) == Success(Point(0.5, 0.0))
  {
    ExampleTablesAreNormal();
    var positions := ExampleLayout().Values();
    assert positions == [Point(0.0, 0.0), Point(1.0, 0.0)];
    var first := positions[..1];
    assert first == [Point(0.0, 0.0)] && first[..0] == [];
    assert SumOf(first, XOf) == SumOf(first[..0], XOf) + XOf(Point(0.0, 0.0)) == 0.0;
    assert SumOf(first, YOf) == SumOf(first[..0], YOf) + YOf(Point(0.0, 0.0)) == 0.0;
    assert SumOf(positions, XOf) == SumOf(first, XOf) + XOf(Point(1.0, 0.0)) == 1.0;
    assert SumOf(positions, YOf) == SumOf(first, YOf) + YOf(Point(1.0, 0.0)) == 0.0;
  }

  lemma ExampleLetterCost(maths: Maths)
    requires maths.hypot(-0.5, 0.0) == 0.5
    ensures ExampleLetters().Valid()
    ensures SingleLetterCost(ExampleLayout(), ExampleLetters(), Point(0.5, 0.0), maths) == Success(0.5)
  {
    ExampleTablesAreNormal();
    var letters := ExampleLetters();
    assert letters.keys[..0] == [];
    assert Distance(maths, Point(0.0, 0.0), Point(0.5, 0.0)) == 0.5;
    assert Weigh(1.0, 0.5) == 0.5;
  }
}
