/**
 * The digraph frequency table built from the cleaned corpus: every character
 * index of every `;`-separated sentence counts one digraph, the pair starting
 * there, or at a sentence's last index the pair counted before it. The table is
 * then ordered by count and each count divided by the number of digraphs.
 * The sentences are the corpus file's contents after `split(";")`.
 */
module DigraphCount {
  import opened Outcomes
  import opened Dicts
  import opened Sums
  import LayoutCost

  // ---------------------------------------------------------------- what is counted

  /** The digraphs counted over the first `n` indices of `sentence`, and the carried `digrafo` after them. */
  datatype Scanned = Scanned(digraphs: seq<string>, carry: string)

  /** Lines 10-12: index `c` counts the pair starting at `c`, except the last index, which counts `carry` again. */
  function Scan(sentence: string, n: nat, carry: string): (r: Scanned)
    requires n <= |sentence|
    ensures |r.digraphs| == n
    decreases n
  {
    if n == 0 then Scanned([], carry)
    else
      var before := Scan(sentence, n - 1, carry);
      var c := n - 1;
      var digrafo := if c + 1 != |sentence| then [sentence[c], sentence[c + 1]] else before.carry;
      Scanned(before.digraphs + [digrafo], digrafo)
  }

  /** The digraphs counted over the first `m` sentences, starting from the carried `carry`. */
  function ScanAll(sentences: seq<string>, m: nat, carry: string): (r: Scanned)
    requires m <= |sentences|
    decreases m
  {
    if m == 0 then Scanned([], carry)
    else
      var before := ScanAll(sentences, m - 1, carry);
      var sentence := sentences[m - 1];
      var within := Scan(sentence, |sentence|, before.carry);
      Scanned(before.digraphs + within.digraphs, within.carry)
  }

  /** The digraphs the script counts, in order: `digrafo` starts as the empty string. */
  function Counted(sentences: seq<string>): seq<string> {
    ScanAll(sentences, |sentences|, "").digraphs
  }

  function TotalLength(sentences: seq<string>): nat
    decreases |sentences|
  {
    if sentences == [] then 0 else TotalLength(sentences[..|sentences| - 1]) + |sentences[|sentences| - 1]|
  }

  /** One digraph per character index: `total_digraphs` is the number of characters in all sentences. */
  lemma {:induction false} CountedLength(sentences: seq<string>, m: nat, carry: string)
    requires m <= |sentences|
    ensures |ScanAll(sentences, m, carry).digraphs| == TotalLength(sentences[..m])
  {
    if m > 0 {
      CountedLength(sentences, m - 1, carry);
      assert sentences[..m][..m - 1] == sentences[..m - 1];
    }
  }

  /** Every index but the last counts the pair starting there. */
  lemma {:induction false} ScanCountsPairs(sentence: string, n: nat, carry: string, c: nat)
    requires n <= |sentence| && c < n && c + 1 < |sentence|
    ensures Scan(sentence, n, carry).digraphs[c] == [sentence[c], sentence[c + 1]]
    decreases n
  {
    if c < n - 1 {
      ScanCountsPairs(sentence, n - 1, carry, c);
    }
  }

  /**
   * The last index counts the carried digraph once more: a sentence of two or more characters
   * counts its final pair twice, and a one-character sentence counts whatever was carried in.
   */
  lemma ScanRecountsLast(sentence: string, carry: string)
    requires |sentence| >= 1
    ensures var last := if |sentence| >= 2 then [sentence[|sentence| - 2], sentence[|sentence| - 1]] else carry;
      && Scan(sentence, |sentence|, carry).digraphs[|sentence| - 1] == last
      && Scan(sentence, |sentence|, carry).carry == last
      && (|sentence| >= 2 ==> Scan(sentence, |sentence|, carry).digraphs[|sentence| - 2] == last)
  {
    var n := |sentence|;
    if n >= 2 {
      ScanCountsPairs(sentence, n, carry, n - 2);
      assert Scan(sentence, n, carry).digraphs[n - 1] == Scan(sentence, n - 1, carry).carry;
      ScanCarriesLastPair(sentence, n - 1, carry);
    }
  }

  lemma ScanCarriesLastPair(sentence: string, n: nat, carry: string)
    requires 1 <= n < |sentence|
    ensures Scan(sentence, n, carry).carry == [sentence[n - 1], sentence[n]]
  {
  }

  /** An empty sentence, such as the one after the last `;`, counts nothing and carries `digrafo` through. */
  lemma EmptySentenceCountsNothing(sentences: seq<string>, carry: string)
    ensures ScanAll(sentences + [""], |sentences| + 1, carry) == ScanAll(sentences, |sentences|, carry)
  {
    var extended := sentences + [""];
    PrefixScan(extended, |sentences|, carry);
    assert extended[..|sentences|] == sentences;
  }

  /** The first `m` sentences are scanned alike in any longer list. */
  lemma {:induction false} PrefixScan(sentences: seq<string>, m: nat, carry: string)
    requires m <= |sentences|
    ensures ScanAll(sentences, m, carry) == ScanAll(sentences[..m], m, carry)
    decreases m
  {
    if m > 0 {
      PrefixScan(sentences, m - 1, carry);
      PrefixScan(sentences[..m], m - 1, carry);
      assert sentences[..m][..m - 1] == sentences[..m - 1];
    }
  }

  // ---------------------------------------------------------------- the tally

  /** How often `digrafo` has been counted so far: `frecuency_digrafos.get(digrafo, 0)`. */
  function CountOf(counts: Dict<string, int>, digrafo: string): int {
    if digrafo in counts.entries then counts.entries[digrafo] else 0
  }

  /** Lines 15-17: counting `digrafo` once more; a new digraph goes to the end of the table. */
  function Bump(counts: Dict<string, int>, digrafo: string): (r: Dict<string, int>)
    requires counts.Valid()
    ensures r.Valid()
  {
    Put(counts, digrafo, CountOf(counts, digrafo) + 1)
  }

  /** `frecuency_digrafos` after counting `digraphs` in order. */
  function Tally(digraphs: seq<string>): (counts: Dict<string, int>)
    ensures counts.Valid()
    decreases |digraphs|
  {
    if digraphs == [] then EmptyDict() else Bump(Tally(digraphs[..|digraphs| - 1]), digraphs[|digraphs| - 1])
  }

  lemma TallySnoc(digraphs: seq<string>, digrafo: string)
    ensures Tally(digraphs + [digrafo]) == Bump(Tally(digraphs), digrafo)
  {
    assert (digraphs + [digrafo])[..|digraphs|] == digraphs;
  }

  /** The table holds exactly the digraphs counted, each with the number of times it was counted. */
  lemma {:induction false} TallyCounts(digraphs: seq<string>, d: string)
    ensures d in Tally(digraphs).entries <==> d in digraphs
    ensures CountOf(Tally(digraphs), d) == multiset(digraphs)[d]
    decreases |digraphs|
  {
    if digraphs != [] {
      var n := |digraphs| - 1;
      TallyCounts(digraphs[..n], d);
      assert digraphs == digraphs[..n] + [digraphs[n]];
      assert multiset(digraphs) == multiset(digraphs[..n]) + multiset{digraphs[n]};
    }
  }

  /** The sum of a sequence of counts, from the front. */
  function Total(vs: seq<int>): int
    decreases |vs|
  {
    if vs == [] then 0 else Total(vs[..|vs| - 1]) + vs[|vs| - 1]
  }

  lemma {:induction false} TotalAppend(vs: seq<int>, v: int)
    ensures Total(vs + [v]) == Total(vs) + v
  {
    assert (vs + [v])[..|vs|] == vs;
  }

  /** Adding one to one count adds one to the total. */
  lemma {:induction false} TotalIncrement(vs: seq<int>, j: nat)
    requires j < |vs|
    ensures Total(vs[j := vs[j] + 1]) == Total(vs) + 1
    decreases |vs|
  {
    var n := |vs| - 1;
    var ws := vs[j := vs[j] + 1];
    if j < n {
      TotalIncrement(vs[..n], j);
      assert ws[..n] == vs[..n][j := vs[j] + 1];
    } else {
      assert ws[..n] == vs[..n];
    }
  }

  /** Counting one more digraph adds one to the sum of the counts. */
  lemma BumpTotal(counts: Dict<string, int>, digrafo: string)
    requires counts.Valid()
    ensures Total(Bump(counts, digrafo).Values()) == Total(counts.Values()) + 1
  {
    PutOneMore(counts, digrafo, CountOf(counts, digrafo));
  }

  /** The same for any key type: raising a key's count (0 when absent) by one. */
  lemma PutOneMore<K>(counts: Dict<K, int>, k: K, c: int)
    requires counts.Valid() && c == if k in counts.entries then counts.entries[k] else 0
    ensures Total(Put(counts, k, c + 1).Values()) == Total(counts.Values()) + 1
  {
    if k in counts.entries {
      var j :| 0 <= j < |counts.keys| && counts.keys[j] == k;
      PutOneMoreAt(counts, j);
    } else {
      PutNewValues(counts, k, c + 1);
      TotalAppend(counts.Values(), c + 1);
    }
  }

  lemma PutOneMoreAt<K>(counts: Dict<K, int>, j: nat)
    requires counts.Valid() && j < |counts.keys|
    ensures Total(Put(counts, counts.keys[j], counts.entries[counts.keys[j]] + 1).Values())
         == Total(counts.Values()) + 1
  {
    var vs := counts.Values();
    assert vs[j] == counts.entries[counts.keys[j]];
    PutExistingValues(counts, j, vs[j] + 1);
    TotalIncrement(vs, j);
  }

  /** The counts in the table add up to the number of digraphs counted. */
  lemma {:induction false} TallySum(digraphs: seq<string>)
    ensures Total(Tally(digraphs).Values()) == |digraphs|
    decreases |digraphs|
  {
    if digraphs != [] {
      var n := |digraphs| - 1;
      TallySum(digraphs[..n]);
      BumpTotal(Tally(digraphs[..n]), digraphs[n]);
    }
  }

  /** Lines 15-17 in place: a new digraph is entered with 0, then its count goes up by one. */
  method CountOne(counts: Dict<string, int>, digrafo: string) returns (updated: Dict<string, int>)
    requires counts.Valid()
    ensures updated == Bump(counts, digrafo)
  {
    updated := counts;
    if digrafo !in updated.entries {
      updated := Put(updated, digrafo, 0);
    }
    updated := Put(updated, digrafo, updated.entries[digrafo] + 1);
    assert updated.entries == counts.entries[digrafo := CountOf(counts, digrafo) + 1];
  }

  /** Lines 9-18: the inner loop over one sentence's character indices. */
  method CountSentence(counts0: Dict<string, int>, total0: int, digrafo0: string, sentence: string, ghost counted: seq<string>)
    returns (counts: Dict<string, int>, totalDigraphs: int, digrafo: string)
    requires counts0 == Tally(counted) && total0 == |counted|
    ensures var within := Scan(sentence, |sentence|, digrafo0);
      && counts == Tally(counted + within.digraphs)
      && totalDigraphs == |counted + within.digraphs|
      && digrafo == within.carry
  {
    counts, totalDigraphs, digrafo := counts0, total0, digrafo0;
    var numChars := |sentence|;
    ghost var within: seq<string> := [];
    assert counted + within == counted;
    for c := 0 to numChars
      invariant Scan(sentence, c, digrafo0) == Scanned(within, digrafo)
      invariant counts == Tally(counted + within) && totalDigraphs == |counted + within|
    {
      if c + 1 != numChars {
        digrafo := [sentence[c], sentence[c + 1]];
      }
      TallySnoc(counted + within, digrafo);
      counts := CountOne(counts, digrafo);
      totalDigraphs := totalDigraphs + 1;
      assert counted + within + [digrafo] == counted + (within + [digrafo]);
      within := within + [digrafo];
    }
  }

  /**
   * Lines 4-18: the nested loops over sentences and character indices, updating the table,
   * `total_digraphs` and the carried `digrafo` in place.
   */
  method CountDigraphs(sentences: seq<string>) returns (counts: Dict<string, int>, totalDigraphs: int, digrafo: string)
    ensures counts == Tally(Counted(sentences))
    ensures totalDigraphs == |Counted(sentences)| && digrafo == ScanAll(sentences, |sentences|, "").carry
  {
    counts := EmptyDict();
    totalDigraphs := 0;
    digrafo := "";
    ghost var counted: seq<string> := [];
    for i := 0 to |sentences|
      invariant ScanAll(sentences, i, "") == Scanned(counted, digrafo)
      invariant counts == Tally(counted) && totalDigraphs == |counted|
    {
      ghost var within := Scan(sentences[i], |sentences[i]|, digrafo).digraphs;
      counts, totalDigraphs, digrafo := CountSentence(counts, totalDigraphs, digrafo, sentences[i], counted);
      counted := counted + within;
    }
  }

  // ---------------------------------------------------------------- ordering by count

  /** Whether the counts along `items` never increase. */
  ghost predicate ByCountDescending(items: seq<(string, int)>) {
    forall i, j | 0 <= i < j < |items| :: items[j].1 <= items[i].1
  }

  /** Places `item` after every entry counted at least as often, as a stable sort in reverse order does. */
  function InsertByCount(sorted: seq<(string, int)>, item: (string, int)): (r: seq<(string, int)>)
    ensures multiset(r) == multiset(sorted) + multiset{item}
    decreases |sorted|
  {
    if sorted == [] then [item]
    else if sorted[0].1 >= item.1 then
      var rest := InsertByCount(sorted[1..], item);
      assert sorted == [sorted[0]] + sorted[1..];
      [sorted[0]] + rest
    else [item] + sorted
  }

  /** Inserting into a table ordered by count keeps it ordered by count. */
  lemma {:induction false} InsertKeepsDescending(sorted: seq<(string, int)>, item: (string, int))
    requires ByCountDescending(sorted)
    ensures ByCountDescending(InsertByCount(sorted, item))
    decreases |sorted|
  {
    if sorted != [] && sorted[0].1 >= item.1 {
      var rest := InsertByCount(sorted[1..], item);
      InsertKeepsDescending(sorted[1..], item);
      forall j | 0 <= j < |rest|
        ensures rest[j].1 <= sorted[0].1
      {
        assert rest[j] in multiset(rest);
        if rest[j] != item {
          assert rest[j] in multiset(sorted[1..]);
          var k :| 0 <= k < |sorted[1..]| && sorted[1..][k] == rest[j];
          assert sorted[k + 1] == rest[j];
        }
      }
    }
  }

  /** `sorted(items, key=lambda item: item[1], reverse=True)`. */
  function SortByCount(items: seq<(string, int)>): (r: seq<(string, int)>)
    ensures multiset(r) == multiset(items)
    ensures ByCountDescending(r)
    decreases |items|
  {
    if items == [] then []
    else
      var n := |items| - 1;
      assert items == items[..n] + [items[n]];
      InsertKeepsDescending(SortByCount(items[..n]), items[n]);
      InsertByCount(SortByCount(items[..n]), items[n])
  }

  /** `d.items()`. */
  function Items(d: Dict<string, int>): (items: seq<(string, int)>)
    requires d.Valid()
    ensures |items| == |d.keys| && forall i | 0 <= i < |d.keys| :: items[i] == (d.keys[i], d.entries[d.keys[i]])
  {
    seq(|d.keys|, i requires 0 <= i < |d.keys| => (d.keys[i], d.entries[d.keys[i]]))
  }

  /** Line 20: the dict built from the items in order of count. */
  function SortedTable(counts: Dict<string, int>): Dict<string, int>
    requires counts.Valid()
  {
    Dict(Firsts(SortByCount(Items(counts))), counts.entries)
  }

  /** `val_based` is the same table, its keys rearranged so that the counts never increase along them. */
  lemma SortedTableOrdersByCount(counts: Dict<string, int>)
    requires counts.Valid()
    ensures var sorted := SortedTable(counts);
      && sorted.Valid() && sorted.entries == counts.entries
      && multiset(sorted.keys) == multiset(counts.keys)
      && forall i, j | 0 <= i < j < |sorted.keys| :: sorted.entries[sorted.keys[j]] <= sorted.entries[sorted.keys[i]]
  {
    var items := Items(counts);
    var sorted := SortByCount(items);
    var table := SortedTable(counts);
    RearrangedItems(sorted, counts);
    KeysOfItems(sorted, items, counts);
    MultisetDistinct(counts.keys, table.keys);
    forall k | k in counts.entries
      ensures k in table.keys
    {
      assert k in multiset(counts.keys);
    }
    forall i, j | 0 <= i < j < |table.keys|
      ensures table.entries[table.keys[j]] <= table.entries[table.keys[i]]
    {
      assert sorted[j].1 <= sorted[i].1;
    }
  }

  /** A rearrangement of `d.items()` pairs each key with its own count. */
  lemma RearrangedItems(sorted: seq<(string, int)>, d: Dict<string, int>)
    requires d.Valid() && multiset(sorted) == multiset(Items(d))
    ensures forall i | 0 <= i < |sorted| :: sorted[i].0 in d.entries && sorted[i].1 == d.entries[sorted[i].0]
  {
    forall i | 0 <= i < |sorted|
      ensures sorted[i].0 in d.entries && sorted[i].1 == d.entries[sorted[i].0]
    {
      assert sorted[i] in multiset(Items(d));
      var j :| 0 <= j < |Items(d)| && Items(d)[j] == sorted[i];
    }
  }

  /** The keys of a sequence of items. */
  function Firsts<K, V>(items: seq<(K, V)>): (keys: seq<K>)
    ensures |keys| == |items| && forall i | 0 <= i < |items| :: keys[i] == items[i].0
  {
    seq(|items|, i requires 0 <= i < |items| => items[i].0)
  }

  /** The first components of a rearrangement of `d.items()` are a rearrangement of `d.keys`. */
  lemma KeysOfItems(sorted: seq<(string, int)>, items: seq<(string, int)>, d: Dict<string, int>)
    requires d.Valid() && items == Items(d) && multiset(sorted) == multiset(items)
    ensures multiset(Firsts(sorted)) == multiset(d.keys)
  {
    FirstsOfMultiset(sorted, items);
    assert Firsts(items) == d.keys;
  }

  lemma FirstsOfConcat<K, V>(a: seq<(K, V)>, b: seq<(K, V)>)
    ensures Firsts(a + b) == Firsts(a) + Firsts(b)
  {
  }

  lemma FirstsMultisetConcat<K, V>(a: seq<(K, V)>, b: seq<(K, V)>)
    ensures multiset(Firsts(a + b)) == multiset(Firsts(a)) + multiset(Firsts(b))
  {
    FirstsOfConcat(a, b);
  }

  lemma {:induction false} FirstsOfMultiset<K, V>(s: seq<(K, V)>, t: seq<(K, V)>)
    requires multiset(s) == multiset(t)
    ensures multiset(Firsts(s)) == multiset(Firsts(t))
    decreases |s|
  {
    if s == [] {
      assert |t| == |multiset(t)| == 0;
    } else {
      var n := |s| - 1;
      assert s[n] in multiset(t);
      var k :| 0 <= k < |t| && t[k] == s[n];
      RemoveMatching(s, t, k);
      FirstsOfMultiset(s[..n], t[..k] + t[k + 1..]);
      FirstsOfSplit(t, k);
      FirstsOfSplit(s, n);
      assert s[..n] + s[n + 1..] == s[..n];
    }
  }

  /** Taking the item at `k` out of a sequence takes its key out of the keys. */
  lemma FirstsOfSplit<K, V>(t: seq<(K, V)>, k: nat)
    requires k < |t|
    ensures multiset(Firsts(t)) == multiset(Firsts(t[..k] + t[k + 1..])) + multiset{t[k].0}
  {
    assert t == t[..k] + [t[k]] + t[k + 1..];
    FirstsMultisetConcat(t[..k] + [t[k]], t[k + 1..]);
    FirstsMultisetConcat(t[..k], [t[k]]);
    FirstsMultisetConcat(t[..k], t[k + 1..]);
  }

  /** Removing the same item from two rearrangements of each other leaves rearrangements. */
  lemma RemoveMatching<T>(s: seq<T>, t: seq<T>, k: nat)
    requires multiset(s) == multiset(t) && s != [] && k < |t| && t[k] == s[|s| - 1]
    ensures multiset(s[..|s| - 1]) == multiset(t[..k] + t[k + 1..])
  {
    var n := |s| - 1;
    MultisetRemove(s, n);
    MultisetRemove(t, k);
    assert s[..n] + s[n + 1..] == s[..n];
  }

  /** A rearrangement of distinct keys has distinct keys. */
  lemma MultisetDistinct(s: seq<string>, t: seq<string>)
    requires Distinct(s) && multiset(s) == multiset(t)
    ensures Distinct(t)
  {
    forall i, j | 0 <= i < j < |t|
      ensures t[i] != t[j]
    {
      if t[i] == t[j] {
        assert multiset(t)[t[i]] >= 2 by {
          assert t == t[..j] + [t[j]] + t[j + 1..];
          assert t[..j] == t[..i] + [t[i]] + t[i + 1..j];
        }
        DistinctCountsOnce(s, t[i]);
      }
    }
  }

  lemma {:induction false} DistinctCountsOnce(s: seq<string>, x: string)
    requires Distinct(s)
    ensures multiset(s)[x] <= 1
    decreases |s|
  {
    if s != [] {
      var n := |s| - 1;
      DistinctCountsOnce(s[..n], x);
      assert s == s[..n] + [s[n]];
      if s[n] == x {
        assert x !in s[..n];
      }
    }
  }

  // ---------------------------------------------------------------- normalisation

  /** Lines 22-23: each count divided by `total` in place; Python's `/` raises when `total` is 0. */
  method NormalizeCounts(table: Dict<string, int>, total: int) returns (r: Result<Dict<string, real>, LayoutCost.Exception>)
    requires table.Valid()
    ensures r.Failure? <==> table.keys != [] && total == 0
    ensures r.Failure? ==> r.error == LayoutCost.ZeroDivisionError
    ensures r.Success? ==>
      && r.value.Valid() && r.value.keys == table.keys
      && forall k | k in table.entries :: r.value.entries[k] == table.entries[k] as real / total as real
  {
    var values: map<string, real> := map k | k in table.entries :: table.entries[k] as real;
    for i := 0 to |table.keys|
      invariant values.Keys == table.entries.Keys
      invariant i > 0 ==> total != 0
      invariant forall j | 0 <= j < i :: values[table.keys[j]] == table.entries[table.keys[j]] as real / total as real
      invariant forall j | i <= j < |table.keys| :: values[table.keys[j]] == table.entries[table.keys[j]] as real
    {
      if total == 0 {
        return Failure(LayoutCost.ZeroDivisionError);
      }
      var key := table.keys[i];
      values := values[key := values[key] / total as real];
    }
    r := Success(Dict(table.keys, values));
    forall k | k in table.entries
      ensures values[k] == table.entries[k] as real / total as real
    {
      var j :| 0 <= j < |table.keys| && table.keys[j] == k;
    }
  }

  function AsReals(vs: seq<int>): (rs: seq<real>)
    ensures |rs| == |vs| && forall i | 0 <= i < |vs| :: rs[i] == vs[i] as real
  {
    seq(|vs|, i requires 0 <= i < |vs| => vs[i] as real)
  }

  lemma {:induction false} SumOfCounts(vs: seq<int>)
    ensures Sum(AsReals(vs)) == Total(vs) as real
    decreases |vs|
  {
    if vs != [] {
      var n := |vs| - 1;
      SumOfCounts(vs[..n]);
      assert AsReals(vs)[..n] == AsReals(vs[..n]);
    }
  }

  /** Counts divided by their own positive total sum to one. */
  lemma FrequenciesSumToOne(table: Dict<string, int>, frequencies: Dict<string, real>, total: int)
    requires table.Valid() && frequencies.Valid() && frequencies.keys == table.keys
    requires total > 0 && Total(table.Values()) == total
    requires forall k | k in table.entries :: frequencies.entries[k] == table.entries[k] as real / total as real
    ensures Sum(frequencies.Values()) == 1.0
  {
    var counts := AsReals(table.Values());
    var shares := frequencies.Values();
    var t := total as real;
    forall i | 0 <= i < |counts|
      ensures shares[i] == counts[i] / t
    {
      var k := table.keys[i];
      assert k in table.entries;
      assert shares[i] == frequencies.entries[k];
    }
    SumOfCounts(table.Values());
    SumScaled(counts, shares, t);
    assert Sum(counts) == t;
    DivideBySelf(t);
  }

  lemma DivideBySelf(t: real)
    requires t != 0.0
    ensures t / t == 1.0
  {
  }

  /**
   * Lines 4-23 as a whole: the table is ordered by count, holds each digraph counted with its
   * share of all digraphs counted, and its shares sum to one. No division by zero can happen,
   * since a table with an entry has counted something.
   */
  method DigraphFrequencies(sentences: seq<string>) returns (frequencies: Dict<string, real>)
    ensures frequencies.Valid()
    ensures forall d :: d in frequencies.entries <==> d in Counted(sentences)
    ensures forall d | d in frequencies.entries ::
      frequencies.entries[d] == multiset(Counted(sentences))[d] as real / |Counted(sentences)| as real
    ensures forall i, j | 0 <= i < j < |frequencies.keys| ::
      multiset(Counted(sentences))[frequencies.keys[j]] <= multiset(Counted(sentences))[frequencies.keys[i]]
    ensures Counted(sentences) != [] ==> Sum(frequencies.Values()) == 1.0
  {
    var counts, totalDigraphs, _ := CountDigraphs(sentences);
    ghost var counted := Counted(sentences);
    var valBased := SortedTable(counts);
    SortedOfCounted(counted);
    if counted == [] {
      EmptyTally(valBased);
    }
    var normalized := NormalizeCounts(valBased, totalDigraphs);
    frequencies := normalized.value;
    SharesOfCounted(counted, valBased, frequencies);
    if counted != [] {
      SharesSumToOne(counted, frequencies);
    }
  }

  /** `val_based`, read in terms of the digraphs counted. */
  lemma SortedOfCounted(counted: seq<string>)
    ensures var valBased := SortedTable(Tally(counted));
      && valBased.Valid()
      && valBased.entries == Tally(counted).entries
      && multiset(valBased.keys) == multiset(Tally(counted).keys)
      && (forall d :: d in valBased.entries <==> d in counted)
      && (forall d | d in valBased.entries :: valBased.entries[d] == multiset(counted)[d])
      && forall i, j | 0 <= i < j < |valBased.keys| :: valBased.entries[valBased.keys[j]] <= valBased.entries[valBased.keys[i]]
  {
    SortedTableOrdersByCount(Tally(counted));
    TallyMatches(counted);
  }

  /** The shares of a non-empty count, in any order of the keys, sum to one. */
  lemma SharesSumToOne(counted: seq<string>, frequencies: Dict<string, real>)
    requires counted != [] && frequencies.Valid()
    requires multiset(frequencies.keys) == multiset(Tally(counted).keys)
    requires forall k | k in Tally(counted).entries ::
      k in frequencies.entries && frequencies.entries[k] == Tally(counted).entries[k] as real / |counted| as real
    ensures Sum(frequencies.Values()) == 1.0
  {
    var counts := Tally(counted);
    TallySum(counted);
    var inCountOrder := Dict(counts.keys, frequencies.entries);
    Reordered(counts, frequencies);
    FrequenciesSumToOne(counts, inCountOrder, |counted|);
    ReorderedSum(frequencies, inCountOrder);
  }

  /** Every digraph in the table is one counted, with its number of occurrences. */
  lemma TallyMatches(counted: seq<string>)
    ensures forall d :: d in Tally(counted).entries <==> d in counted
    ensures forall d | d in Tally(counted).entries :: Tally(counted).entries[d] == multiset(counted)[d]
  {
    forall d
      ensures d in Tally(counted).entries <==> d in counted
      ensures d in Tally(counted).entries ==> Tally(counted).entries[d] == multiset(counted)[d]
    {
      TallyCounts(counted, d);
    }
  }

  /** Nothing counted leaves nothing to divide: the sorted table is empty. */
  lemma EmptyTally(valBased: Dict<string, int>)
    requires multiset(valBased.keys) == multiset(Tally([]).keys)
    ensures valBased.keys == []
  {
    assert |valBased.keys| == |multiset(valBased.keys)| == 0;
  }

  /** The normalised sorted table, read back in terms of the digraphs counted. */
  lemma SharesOfCounted(counted: seq<string>, valBased: Dict<string, int>, frequencies: Dict<string, real>)
    requires valBased.Valid()
    requires forall d :: d in valBased.entries <==> d in counted
    requires forall d | d in valBased.entries :: valBased.entries[d] == multiset(counted)[d]
    requires forall i, j | 0 <= i < j < |valBased.keys| :: valBased.entries[valBased.keys[j]] <= valBased.entries[valBased.keys[i]]
    requires frequencies.Valid() && frequencies.keys == valBased.keys
    requires forall k | k in valBased.entries :: k in frequencies.entries && frequencies.entries[k] == valBased.entries[k] as real / |counted| as real
    ensures forall d :: d in frequencies.entries <==> d in counted
    ensures forall d | d in frequencies.entries :: frequencies.entries[d] == multiset(counted)[d] as real / |counted| as real
    ensures forall i, j | 0 <= i < j < |frequencies.keys| ::
      multiset(counted)[frequencies.keys[j]] <= multiset(counted)[frequencies.keys[i]]
  {
    SameKeysSameDomain(frequencies, valBased);
    forall i, j | 0 <= i < j < |frequencies.keys|
      ensures multiset(counted)[frequencies.keys[j]] <= multiset(counted)[frequencies.keys[i]]
    {
      assert valBased.keys[i] in valBased.entries && valBased.keys[j] in valBased.entries;
    }
  }

  /** Rearranging a table's keys does not change the sum of its values. */
  lemma ReorderedSum<K>(d: Dict<K, real>, e: Dict<K, real>)
    requires d.Valid() && e.Valid() && d.entries == e.entries && multiset(d.keys) == multiset(e.keys)
    ensures Sum(d.Values()) == Sum(e.Values())
  {
    var f := (k: K) => if k in d.entries then d.entries[k] else 0.0;
    SumOfPermutation(d.keys, e.keys, f);
    SumOfLookups(d.keys, d.entries, f);
    SumOfLookups(e.keys, e.entries, f);
    assert d.Values() == Lookups(d.keys, d.entries);
    assert e.Values() == Lookups(e.keys, e.entries);
  }

  function Lookups<K>(keys: seq<K>, entries: map<K, real>): (vs: seq<real>)
    requires forall i | 0 <= i < |keys| :: keys[i] in entries
    ensures |vs| == |keys| && forall i | 0 <= i < |keys| :: vs[i] == entries[keys[i]]
  {
    seq(|keys|, i requires 0 <= i < |keys| => entries[keys[i]])
  }

  lemma {:induction false} SumOfLookups<K>(keys: seq<K>, entries: map<K, real>, f: K -> real)
    requires forall i | 0 <= i < |keys| :: keys[i] in entries && f(keys[i]) == entries[keys[i]]
    ensures SumOf(keys, f) == Sum(Lookups(keys, entries))
    decreases |keys|
  {
    if keys != [] {
      var n := |keys| - 1;
      SumOfLookups(keys[..n], entries, f);
      assert Lookups(keys, entries)[..n] == Lookups(keys[..n], entries);
    }
  }
}
