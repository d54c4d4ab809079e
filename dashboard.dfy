/**
 * The dashboard's file handling: the results-file counter probe shared with the
 * annealing script, the choice of the latest `results<n>.txt`, the loading of
 * the keyboard layout (live snapshot first, latest results file second) and the
 * filter that turns a layout into the keyboard endpoint's keys.
 *
 * The file system is a value: which paths are files and what reading them gives,
 * whether the results directory exists and the order `os.listdir` lists it in.
 * `json.load`, `ast.literal_eval` and `float` of a string are parameters.
 */
module Dashboard {
  import opened Outcomes

  const ResultsDir: string := "annealing/result_log"
  const LiveLayoutPath: string := "annealing/progress_logs/current_best_layout.json"
  const ResultsPrefix: string := "results"
  const ResultsSuffix: string := ".txt"

  // ---------------------------------------------------------------- decimal numbers

  predicate IsDigit(c: char) {
    '0' <= c <= '9'
  }

  predicate AllDigits(s: string) {
    forall i | 0 <= i < |s| :: IsDigit(s[i])
  }

  function DigitValue(c: char): nat
    requires IsDigit(c)
  {
    c as int - '0' as int
  }

  function DigitChar(d: nat): char
    requires d < 10
  {
    ('0' as int + d) as char
  }

  /** `int(digits)`: the number a string of decimal digits denotes, leading zeros allowed. */
  function ParseDecimal(s: string): nat
    requires AllDigits(s)
    decreases |s|
  {
    if s == [] then 0 else ParseDecimal(s[..|s| - 1]) * 10 + DigitValue(s[|s| - 1])
  }

  /** `f"{k}"` for a non-negative integer: its decimal digits, without leading zeros. */
  function Decimal(k: nat): (s: string)
    ensures s != [] && AllDigits(s)
    decreases k
  {
    if k < 10 then [DigitChar(k)] else Decimal(k / 10) + [DigitChar(k % 10)]
  }

  /** Reading back the digits `f"{k}"` writes gives `k`. */
  lemma {:induction false} DecimalRoundTrip(k: nat)
    ensures ParseDecimal(Decimal(k)) == k
    decreases k
  {
    if k >= 10 {
      DecimalRoundTrip(k / 10);
      var s := Decimal(k);
      assert s[..|s| - 1] == Decimal(k / 10);
    }
  }

  /** The digits `f"{k}"` writes have no leading zero, except for 0 itself. */
  lemma {:induction false} DecimalHasNoLeadingZero(k: nat)
    ensures Decimal(k)[0] == '0' <==> k == 0
    decreases k
  {
    if k >= 10 {
      DecimalHasNoLeadingZero(k / 10);
    }
  }

  // ---------------------------------------------------------------- results file names

  /** `re.fullmatch(r"results(\d+)\.txt", name)` and `int(match.group(1))`; `None` when the name does not match. */
  function MatchResults(name: string): Option<nat> {
    var p, q := |ResultsPrefix|, |ResultsSuffix|;
    if |name| >= p + 1 + q && name[..p] == ResultsPrefix && name[|name| - q..] == ResultsSuffix
      && AllDigits(name[p..|name| - q])
    then Some(ParseDecimal(name[p..|name| - q]))
    else None
  }

  /** A name of the form `results<middle>.txt` matches exactly when its middle is one or more digits. */
  lemma MatchOfShape(middle: string)
    ensures MatchResults(ResultsPrefix + middle + ResultsSuffix)
      == if middle != [] && AllDigits(middle) then Some(ParseDecimal(middle)) else None
  {
    var name := ResultsPrefix + middle + ResultsSuffix;
    assert name[..|ResultsPrefix|] == ResultsPrefix;
    assert name[|name| - |ResultsSuffix|..] == ResultsSuffix;
    assert name[|ResultsPrefix|..|name| - |ResultsSuffix|] == middle;
  }

  /** Every matching name is `results`, one or more digits, `.txt`. */
  lemma MatchHasShape(name: string)
    requires MatchResults(name).Some?
    ensures var middle := name[|ResultsPrefix|..|name| - |ResultsSuffix|];
      && middle != [] && AllDigits(middle)
      && name == ResultsPrefix + middle + ResultsSuffix
      && MatchResults(name) == Some(ParseDecimal(middle))
  {
    var p, q := |ResultsPrefix|, |ResultsSuffix|;
    assert name == name[..p] + name[p..|name| - q] + name[|name| - q..];
  }

  /** `results{k}.txt`, as the annealing script names its results. */
  function ResultsName(k: nat): string {
    ResultsPrefix + Decimal(k) + ResultsSuffix
  }

  /** `os.path.join(directory, name)` for a relative name and a directory without a trailing `/`. */
  function Join(directory: string, name: string): string {
    directory + "/" + name
  }

  /** `f"annealing/result_log/results{k}.txt"`. */
  function ResultsPath(k: nat): string {
    Join(ResultsDir, ResultsName(k))
  }

  /** The file the annealing script writes under counter `k` is read back by the dashboard as number `k`. */
  lemma ResultsNameRoundTrip(k: nat)
    ensures MatchResults(ResultsName(k)) == Some(k)
  {
    MatchOfShape(Decimal(k));
    DecimalRoundTrip(k);
  }

  /** Leading zeros make different names with the same number, such as `results01.txt` and `results1.txt`. */
  lemma LeadingZeroSameNumber()
    ensures MatchResults("results01.txt") == MatchResults("results1.txt") == Some(1)
  {
    MatchOfShape("01");
    MatchOfShape("1");
    assert ResultsPrefix + "01" + ResultsSuffix == "results01.txt";
    assert ResultsPrefix + "1" + ResultsSuffix == "results1.txt";
    assert "01"[..1] == "0" && "0"[..0] == "" && "1"[..0] == "";
    assert ParseDecimal("0") == 0;
    assert ParseDecimal("01") == 1;
    assert ParseDecimal("1") == 1;
  }

  /** Different counters name different files. */
  lemma ResultsPathInjective(j: nat, k: nat)
    requires ResultsPath(j) == ResultsPath(k)
    ensures j == k
  {
    var d := |ResultsDir + "/"|;
    assert ResultsName(j) == ResultsPath(j)[d..];
    assert ResultsName(k) == ResultsPath(k)[d..];
    ResultsNameRoundTrip(j);
    ResultsNameRoundTrip(k);
  }

  // ---------------------------------------------------------------- the counter probe

  /**
   * Lines 10-12 of the dashboard, and the same probe in the annealing script: the least
   * counter from 1 up whose results file does not exist. Every earlier counter's file exists.
   */
  method NextFileCounter(existing: set<string>) returns (counter: nat)
    ensures counter >= 1 && ResultsPath(counter) !in existing
    ensures forall j | 1 <= j < counter :: ResultsPath(j) in existing
  {
    counter := 1;
    ghost var unprobed := existing;
    while ResultsPath(counter) in existing
      invariant counter >= 1 && unprobed <= existing
      invariant forall j | 1 <= j < counter :: ResultsPath(j) in existing && ResultsPath(j) !in unprobed
      invariant forall p | p in existing && p !in unprobed :: exists j :: 1 <= j < counter && p == ResultsPath(j)
      decreases |unprobed|
    {
      if ResultsPath(counter) !in unprobed {
        var j :| 1 <= j < counter && ResultsPath(counter) == ResultsPath(j);
        ResultsPathInjective(counter, j);
        assert false;
      }
      unprobed := unprobed - {ResultsPath(counter)};
      counter := counter + 1;
    }
  }

  /** The counter the probe finds is the only one with its two properties. */
  lemma ProbeIsUnique(existing: set<string>, k: nat, m: nat)
    requires k >= 1 && ResultsPath(k) !in existing && forall j | 1 <= j < k :: ResultsPath(j) in existing
    requires m >= 1 && ResultsPath(m) !in existing && forall j | 1 <= j < m :: ResultsPath(j) in existing
    ensures k == m
  {
  }

  /** Line 13: `CSV_PATH`, the progress log of the run with that counter. */
  function CsvPath(counter: nat): string {
    "annealing/progress_logs/annealing_progress" + Decimal(counter) + ".csv"
  }

  // ---------------------------------------------------------------- the latest results file

  /**
   * `(latest_num, index of latest_path)` after the loop has seen the first `n` names;
   * `None` while `latest_num` is still -1.
   */
  function LatestAmong(names: seq<string>, n: nat): (r: Option<(nat, nat)>)
    requires n <= |names|
    ensures r.Some? ==> r.value.1 < n && MatchResults(names[r.value.1]) == Some(r.value.0)
    decreases n
  {
    if n == 0 then None
    else
      var before := LatestAmong(names, n - 1);
      match MatchResults(names[n - 1])
      case None => before
      case Some(num) => if before.None? || num > before.value.0 then Some((num, n - 1)) else before
  }

  /** `get_latest_results_path()`. */
  function LatestResultsPath(directoryExists: bool, names: seq<string>): Option<string> {
    if !directoryExists then None
    else match LatestAmong(names, |names|)
      case None => None
      case Some(latest) => Some(Join(ResultsDir, names[latest.1]))
  }

  /**
   * Nothing is found exactly when no name matches; otherwise the name found matches, no matching
   * name has a larger number, and every matching name before it has a smaller one (ties go to the
   * first in listing order).
   */
  lemma {:induction false} LatestIsFirstLargest(names: seq<string>, n: nat)
    requires n <= |names|
    ensures LatestAmong(names, n).None? <==> forall i | 0 <= i < n :: MatchResults(names[i]).None?
    ensures LatestAmong(names, n).Some? ==> var (num, i) := LatestAmong(names, n).value;
      && (forall j | 0 <= j < n && MatchResults(names[j]).Some? :: MatchResults(names[j]).value <= num)
      && (forall j | 0 <= j < i && MatchResults(names[j]).Some? :: MatchResults(names[j]).value < num)
    decreases n
  {
    if n > 0 {
      LatestIsFirstLargest(names, n - 1);
    }
  }

  /** Lines 17-30: the loop over the listing, updating `latest_num` and `latest_path`. */
  method GetLatestResultsPath(directoryExists: bool, names: seq<string>) returns (latestPath: Option<string>)
    ensures latestPath == LatestResultsPath(directoryExists, names)
  {
    if !directoryExists {
      return None;
    }
    var latestNum: int := -1;
    latestPath := None;
    ghost var latestIndex: nat := 0;
    for i := 0 to |names|
      invariant LatestAmong(names, i).None? ==> latestNum == -1 && latestPath.None?
      invariant LatestAmong(names, i).Some? ==>
        && latestNum >= 0
        && LatestAmong(names, i) == Some((latestNum as nat, latestIndex))
        && latestPath == Some(Join(ResultsDir, names[latestIndex]))
    {
      var name := names[i];
      var match_ := MatchResults(name);
      if match_.None? {
        continue;
      }
      var num := match_.value;
      if num > latestNum {
        latestNum := num;
        latestPath := Some(Join(ResultsDir, name));
        latestIndex := i;
      }
    }
  }

  // ---------------------------------------------------------------- Python values

  /** The values a parsed layout file can hold; a dict is its items in order. */
  datatype Value =
    | Number(number: real)
    | Text(text: string)
    | List(elements: seq<Value>)
    | Tuple(elements: seq<Value>)
    | Mapping(items: seq<(string, Value)>)
    | Other

  /** `d.get(key)` of a dict given by its items: the value stored last under `key`. */
  function Lookup(items: seq<(string, Value)>, key: string): (r: Option<Value>)
    ensures r.Some? <==> exists i :: 0 <= i < |items| && items[i].0 == key
    decreases |items|
  {
    if items == [] then None
    else if items[|items| - 1].0 == key then Some(items[|items| - 1].1)
    else Lookup(items[..|items| - 1], key)
  }

  /** `float(v)`: numbers convert, strings as `parseFloat` says, anything else raises. */
  function ToFloat(v: Value, parseFloat: string -> Option<real>): Option<real> {
    match v
    case Number(x) => Some(x)
    case Text(s) => parseFloat(s)
    case _ => None
  }

  // ---------------------------------------------------------------- first line of a file

  /** The characters `str.strip()` removes: those `str.isspace()` accepts. */
  predicate IsSpace(c: char) {
    || '\U{9}' <= c <= '\U{D}' || '\U{1C}' <= c <= ' ' || c == '\U{85}' || c == '\U{A0}'
    || c == '\U{1680}' || '\U{2000}' <= c <= '\U{200A}' || c == '\U{2028}' || c == '\U{2029}'
    || c == '\U{202F}' || c == '\U{205F}' || c == '\U{3000}'
  }

  function StripLeading(s: string): (r: string)
    ensures |r| <= |s| && r == s[|s| - |r|..]
    ensures forall i | 0 <= i < |s| - |r| :: IsSpace(s[i])
    ensures r != [] ==> !IsSpace(r[0])
    decreases |s|
  {
    if s != [] && IsSpace(s[0]) then StripLeading(s[1..]) else s
  }

  function StripTrailing(s: string): (r: string)
    ensures |r| <= |s| && r == s[..|r|]
    ensures forall i | |r| <= i < |s| :: IsSpace(s[i])
    ensures r != [] ==> !IsSpace(r[|r| - 1])
    decreases |s|
  {
    if s != [] && IsSpace(s[|s| - 1]) then StripTrailing(s[..|s| - 1]) else s
  }

  /** `s.strip()`. */
  function Strip(s: string): string {
    StripTrailing(StripLeading(s))
  }

  /** How many characters `strip()` removes from the front. */
  function LeadingSpaces(s: string): nat {
    |s| - |StripLeading(s)|
  }

  /**
   * `strip()` keeps a middle run of `s` that neither starts nor ends with whitespace, and removes
   * only whitespace around it; it leaves nothing exactly when `s` is all whitespace.
   */
  lemma StripKeepsMiddle(s: string)
    ensures var r, i := Strip(s), LeadingSpaces(s);
      && i + |r| <= |s| && r == s[i..i + |r|]
      && (forall j | 0 <= j < i :: IsSpace(s[j]))
      && (forall j | i + |r| <= j < |s| :: IsSpace(s[j]))
      && (r != [] ==> !IsSpace(r[0]) && !IsSpace(r[|r| - 1]))
      && (r == [] <==> forall j | 0 <= j < |s| :: IsSpace(s[j]))
  {
    var lead := StripLeading(s);
    var r := StripTrailing(lead);
    var i := |s| - |lead|;
    assert r == s[i..i + |r|];
    forall j | i + |r| <= j < |s|
      ensures IsSpace(s[j])
    {
      assert s[j] == lead[j - i];
    }
    if r != [] {
      assert r[0] == lead[0];
    }
  }

  /** Stripping twice strips nothing more. */
  lemma StripIsIdempotent(s: string)
    ensures Strip(Strip(s)) == Strip(s)
  {
    var r := Strip(s);
    if r != [] {
      assert StripLeading(r) == r;
      assert StripTrailing(r) == r;
    }
  }

  predicate IsLineBreak(c: char) {
    c == '\n' || c == '\r'
  }

  /** `f.readline()` in text mode, with the line break dropped (the strip that follows drops it anyway). */
  function FirstLine(content: string): (line: string)
    ensures |line| <= |content| && line == content[..|line|]
    ensures forall i | 0 <= i < |line| :: !IsLineBreak(line[i])
    ensures |line| < |content| ==> IsLineBreak(content[|line|])
    decreases |content|
  {
    if content == [] || IsLineBreak(content[0]) then [] else [content[0]] + FirstLine(content[1..])
  }

  /** The annealing script writes `f"{best_layout}\n..."`: the first line read back is the layout's text. */
  lemma FirstLineOfResults(layoutText: string, rest: string)
    requires forall i | 0 <= i < |layoutText| :: !IsLineBreak(layoutText[i])
    ensures FirstLine(layoutText + "\n" + rest) == layoutText
  {
    var content := layoutText + "\n" + rest;
    assert content[|layoutText|] == '\n';
    assert content[..|layoutText|] == layoutText;
  }

  // ---------------------------------------------------------------- loading the layout

  /**
   * The files the dashboard reads: `files[p]` exists when `os.path.isfile(p)`, and is `None`
   * when opening or reading it raises; the results directory and its listing order.
   */
  datatype FileSystem = FileSystem(files: map<string, Option<string>>, resultsDirExists: bool, resultsListing: seq<string>)

  /** `Some(text)` when `path` is a file that opens and reads as `text`. */
  function Read(fs: FileSystem, path: string): Option<string> {
    if path in fs.files then fs.files[path] else None
  }

  /** Lines 78-86: the live snapshot's `layout` when the file parses to a dict whose `layout` is a dict. */
  function SnapshotLayout(fs: FileSystem, jsonLoad: string -> Option<Value>): Option<seq<(string, Value)>> {
    match Read(fs, LiveLayoutPath)
    case None => None
    case Some(text) =>
      match jsonLoad(text)
      case Some(Mapping(payload)) =>
        (match Lookup(payload, "layout")
         case Some(Mapping(layout)) => Some(layout)
         case _ => None)
      case _ => None
  }

  /** Lines 88-104: the dict on the stripped first line of the latest results file. */
  function ResultsLayout(fs: FileSystem, literalEval: string -> Option<Value>): Option<seq<(string, Value)>> {
    match LatestResultsPath(fs.resultsDirExists, fs.resultsListing)
    case None => None
    case Some(path) =>
      match Read(fs, path)
      case None => None
      case Some(text) =>
        var firstLine := Strip(FirstLine(text));
        if firstLine == [] then None
        else match literalEval(firstLine)
          case Some(Mapping(layout)) => Some(layout)
          case _ => None
  }

  /** `load_keyboard_layout()`. */
  function LoadKeyboardLayout(fs: FileSystem, jsonLoad: string -> Option<Value>, literalEval: string -> Option<Value>)
    : Option<seq<(string, Value)>>
  {
    var live := SnapshotLayout(fs, jsonLoad);
    if live.Some? then live else ResultsLayout(fs, literalEval)
  }

  /**
   * A usable snapshot wins over the results files. Any layout returned is either the snapshot's
   * `layout` dict or the dict on the first non-blank line of the latest results file, and nothing
   * is returned when neither source gives a dict.
   */
  lemma LoadKeyboardLayoutSources(fs: FileSystem, jsonLoad: string -> Option<Value>, literalEval: string -> Option<Value>)
    ensures var r := LoadKeyboardLayout(fs, jsonLoad, literalEval);
      && (forall text, payload, layout ::
            (Read(fs, LiveLayoutPath) == Some(text) && jsonLoad(text) == Some(Mapping(payload))
             && Lookup(payload, "layout") == Some(Mapping(layout))) ==> r == Some(layout))
      && (r.Some? ==>
            || (exists text, payload :: Read(fs, LiveLayoutPath) == Some(text) && jsonLoad(text) == Some(Mapping(payload))
                  && Lookup(payload, "layout") == Some(Mapping(r.value)))
            || (exists path, text :: LatestResultsPath(fs.resultsDirExists, fs.resultsListing) == Some(path)
                  && Read(fs, path) == Some(text) && Strip(FirstLine(text)) != []
                  && literalEval(Strip(FirstLine(text))) == Some(Mapping(r.value))))
      && (LatestResultsPath(fs.resultsDirExists, fs.resultsListing).None? ==> r == SnapshotLayout(fs, jsonLoad))
  {
    var r := LoadKeyboardLayout(fs, jsonLoad, literalEval);
    if r.Some? {
      if SnapshotLayout(fs, jsonLoad).Some? {
        var text := Read(fs, LiveLayoutPath).value;
        var payload := jsonLoad(text).value.items;
      } else {
        var path := LatestResultsPath(fs.resultsDirExists, fs.resultsListing).value;
        var text := Read(fs, path).value;
      }
    }
  }

  // ---------------------------------------------------------------- the keyboard endpoint

  /** One key of the endpoint's answer: `{"letter": ..., "x": ..., "y": ...}`. */
  datatype Key = Key(letter: string, x: real, y: real)

  /** The endpoint's answer: the keys, a 404 when there is no layout, or a 500 when `float` raises. */
  datatype Response = Keys(keys: seq<Key>) | NotFound | ServerError

  /** Line 184: the entries kept are those holding a list or tuple of length 2. */
  predicate IsPosition(v: Value) {
    (v.List? || v.Tuple?) && |v.elements| == 2
  }

  /** The entries among the first `n` that hold a position, in order. */
  function Positions(items: seq<(string, Value)>, n: nat): (kept: seq<(string, Value)>)
    requires n <= |items|
    ensures |kept| <= n && forall m | 0 <= m < |kept| :: IsPosition(kept[m].1)
    decreases n
  {
    if n == 0 then []
    else Positions(items, n - 1) + (if IsPosition(items[n - 1].1) then [items[n - 1]] else [])
  }

  /** The filter keeps exactly the entries holding a position. */
  lemma {:induction false} PositionsAreExactlyPairs(items: seq<(string, Value)>, n: nat)
    requires n <= |items|
    ensures forall e :: e in Positions(items, n) <==> e in items[..n] && IsPosition(e.1)
    decreases n
  {
    if n > 0 {
      PositionsAreExactlyPairs(items, n - 1);
      assert items[..n] == items[..n - 1] + [items[n - 1]];
    }
  }

  /** Filtering the kept entries again keeps all of them, in the same order. */
  lemma {:induction false} PositionsIdempotent(items: seq<(string, Value)>, n: nat)
    requires n <= |items|
    ensures var kept := Positions(items, n); Positions(kept, |kept|) == kept
    decreases n
  {
    if n > 0 {
      PositionsIdempotent(items, n - 1);
      var before := Positions(items, n - 1);
      var kept := Positions(items, n);
      PrefixPositions(kept, |before|);
      assert kept[..|before|] == before;
    }
  }

  /** The filter of a sequence, read over a prefix of it, is the filter of that prefix. */
  lemma {:induction false} PrefixPositions(items: seq<(string, Value)>, n: nat)
    requires n <= |items|
    ensures Positions(items, n) == Positions(items[..n], n)
    decreases n
  {
    if n > 0 {
      PrefixPositions(items, n - 1);
      PrefixPositions(items[..n], n - 1);
      assert items[..n][..n - 1] == items[..n - 1];
    }
  }

  /** Lines 186-187 for one kept entry: unpack the pair and convert both coordinates. */
  function KeyOf(entry: (string, Value), parseFloat: string -> Option<real>): Option<Key>
    requires IsPosition(entry.1)
  {
    var x := ToFloat(entry.1.elements[0], parseFloat);
    var y := ToFloat(entry.1.elements[1], parseFloat);
    if x.Some? && y.Some? then Some(Key(entry.0, x.value, y.value)) else None
  }

  /** The keys built from the first `n` entries, or `None` once a conversion has raised. */
  function KeysOf(items: seq<(string, Value)>, n: nat, parseFloat: string -> Option<real>): Option<seq<Key>>
    requires n <= |items|
    decreases n
  {
    if n == 0 then Some([])
    else
      var before := KeysOf(items, n - 1, parseFloat);
      if before.None? || !IsPosition(items[n - 1].1) then before
      else
        var key := KeyOf(items[n - 1], parseFloat);
        if key.None? then None else Some(before.value + [key.value])
  }

  /** Every kept entry's coordinates convert. */
  predicate AllConvert(kept: seq<(string, Value)>, parseFloat: string -> Option<real>)
    requires forall m | 0 <= m < |kept| :: IsPosition(kept[m].1)
  {
    forall m | 0 <= m < |kept| :: KeyOf(kept[m], parseFloat).Some?
  }

  /** `keys` are the kept entries, one for one and in order, converted. */
  predicate ConvertedFrom(keys: seq<Key>, kept: seq<(string, Value)>, parseFloat: string -> Option<real>)
    requires forall m | 0 <= m < |kept| :: IsPosition(kept[m].1)
  {
    |keys| == |kept| && forall m | 0 <= m < |kept| :: KeyOf(kept[m], parseFloat) == Some(keys[m])
  }

  /**
   * The keys are the kept entries, in order, each converted; the endpoint fails exactly when some
   * kept entry has a coordinate `float` rejects.
   */
  lemma {:induction false} KeysOfKeptEntries(items: seq<(string, Value)>, n: nat, parseFloat: string -> Option<real>)
    requires n <= |items|
    ensures KeysOf(items, n, parseFloat).Some? <==> AllConvert(Positions(items, n), parseFloat)
    ensures KeysOf(items, n, parseFloat).Some? ==> ConvertedFrom(KeysOf(items, n, parseFloat).value, Positions(items, n), parseFloat)
    decreases n
  {
    if n > 0 {
      KeysOfKeptEntries(items, n - 1, parseFloat);
      var before := Positions(items, n - 1);
      var kept := Positions(items, n);
      if IsPosition(items[n - 1].1) {
        assert kept == before + [items[n - 1]];
        assert forall m | 0 <= m < |before| :: kept[m] == before[m];
        if KeysOf(items, n - 1, parseFloat).Some? && KeyOf(items[n - 1], parseFloat).Some? {
          var keys := KeysOf(items, n - 1, parseFloat).value + [KeyOf(items[n - 1], parseFloat).value];
          assert KeysOf(items, n, parseFloat) == Some(keys);
        } else if KeysOf(items, n - 1, parseFloat).Some? {
          assert !KeyOf(kept[|before|], parseFloat).Some?;
        } else {
          var m :| 0 <= m < |before| && !KeyOf(before[m], parseFloat).Some?;
          assert !KeyOf(kept[m], parseFloat).Some?;
        }
      } else {
        assert kept == before;
      }
    }
  }

  /** Once a conversion has raised, the endpoint has failed whatever follows. */
  lemma {:induction false} KeysOfFailureSticks(items: seq<(string, Value)>, i: nat, n: nat, parseFloat: string -> Option<real>)
    requires i <= n <= |items| && KeysOf(items, i, parseFloat).None?
    ensures KeysOf(items, n, parseFloat).None?
    decreases n
  {
    if n > i {
      KeysOfFailureSticks(items, i, n - 1, parseFloat);
    }
  }

  /** The answer for a loaded layout, or for none. */
  function KeyboardResponse(layout: Option<seq<(string, Value)>>, parseFloat: string -> Option<real>): Response {
    match layout
    case None => NotFound
    case Some(items) =>
      match KeysOf(items, |items|, parseFloat)
      case None => ServerError
      case Some(keys) => Keys(keys)
  }

  /** `api_keyboard()`: lines 178-189, the layout loaded and its entries filtered in one loop. */
  method ApiKeyboard(fs: FileSystem, jsonLoad: string -> Option<Value>, literalEval: string -> Option<Value>,
                     parseFloat: string -> Option<real>) returns (r: Response)
    ensures r == KeyboardResponse(LoadKeyboardLayout(fs, jsonLoad, literalEval), parseFloat)
  {
    var layout := LoadKeyboardLayout(fs, jsonLoad, literalEval);
    if layout.None? {
      return NotFound;
    }
    var items := layout.value;
    var keys: seq<Key> := [];
    for i := 0 to |items|
      invariant KeysOf(items, i, parseFloat) == Some(keys)
    {
      var (letter, pos) := items[i];
      if !((pos.List? || pos.Tuple?) && |pos.elements| == 2) {
        continue;
      }
      var x := ToFloat(pos.elements[0], parseFloat);
      if x.None? {
        KeysOfFailureSticks(items, i + 1, |items|, parseFloat);
        return ServerError;
      }
      var y := ToFloat(pos.elements[1], parseFloat);
      if y.None? {
        KeysOfFailureSticks(items, i + 1, |items|, parseFloat);
        return ServerError;
      }
      keys := keys + [Key(letter, x.value, y.value)];
    }
    r := Keys(keys);
  }
}
