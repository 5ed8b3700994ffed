/**
 * `DSAPerformanceAnalyzer`: four ways of finding a transaction by id in the
 * parsed snapshot (a linear scan, the id -> record dictionary, binary search
 * over an id-sorted copy, and linear probing from `id mod n`), and the
 * benchmark that runs all four over a list of test ids and turns the elapsed
 * times into a report. Elapsed times come from the caller: `elapsed(a, i)` is
 * what algorithm `a` took on the `i`-th test id.
 */
module Dsa {
  import opened Wrappers
  import opened Lookup
  import opened Extraction
  import opened Pipeline
  import opened Stats

  datatype Algorithm = Linear | Dictionary | Binary | Hash

  /** The order of the keys of the results dict. */
  const Declared: seq<Algorithm> := [Linear, Dictionary, Binary, Hash]

  function Rank(a: Algorithm): (i: nat)
    ensures i < |Declared| && Declared[i] == a
  {
    match a
    case Linear => 0
    case Dictionary => 1
    case Binary => 2
    case Hash => 3
  }

  /** Python's ZeroDivisionError. */
  datatype ZeroDivisionError = DivisionByZero

  // ---------------------------------------------------------------------------
  // Linear probing.

  /** The slot inspected by probe `i` when probing starts at `h` over `n` slots. */
  function Probe(h: int, i: int, n: int): (j: int)
    requires n > 0
    ensures 0 <= j < n
  {
    (h + i) % n
  }

  lemma ModOnce(x: int, n: int)
    requires -n <= x < 2 * n
    ensures x % n == if x < 0 then x + n else if x < n then x else x - n
  {
    if x < 0 {
      assert x == -1 * n + (x + n);
    } else if x < n {
      assert x == 0 * n + x;
    } else {
      assert x == 1 * n + (x - n);
    }
  }

  /** Probing from any start reaches every slot within `n` probes... */
  lemma ProbeReaches(h: int, n: int, j: int)
    requires 0 <= h < n && 0 <= j < n
    ensures 0 <= (j - h) % n < n && Probe(h, (j - h) % n, n) == j
  {
    ModOnce(j - h, n);
    var p := (j - h) % n;
    ModOnce(h + p, n);
  }

  /** ...and no slot twice. */
  lemma ProbesDistinct(h: int, n: int, a: int, b: int)
    requires 0 <= h < n && 0 <= a < b < n
    ensures Probe(h, a, n) != Probe(h, b, n)
  {
    ModOnce(h + a, n);
    ModOnce(h + b, n);
  }

  // ---------------------------------------------------------------------------
  // The benchmark's figures.

  /** The running figures kept per algorithm while the test ids are tried. */
  datatype Tally = Tally(times: seq<real>, totalTime: real, successCount: nat) {
    /** One more measurement: `times.append(t)`, `total_time += t`, and a success if found. */
    function Add(t: real, found: bool): Tally {
      Tally(times + [t], totalTime + t, successCount + if found then 1 else 0)
    }
  }

  /** The figures reported per algorithm. */
  datatype AlgorithmResults = AlgorithmResults(
    times: seq<real>,
    totalTime: real,
    successCount: nat,
    averageTime: real,
    minTime: real,
    maxTime: real)

  datatype Comparison = Comparison(
    linear: AlgorithmResults,
    dictionary: AlgorithmResults,
    binary: AlgorithmResults,
    hash: AlgorithmResults)
  {
    function Of(a: Algorithm): AlgorithmResults {
      match a
      case Linear => linear
      case Dictionary => dictionary
      case Binary => binary
      case Hash => hash
    }
  }

  /** The times `a` took on the first `n` test ids, in test-id order. */
  function Times(elapsed: (Algorithm, nat) -> real, a: Algorithm, n: nat): (r: seq<real>)
    ensures |r| == n && forall i :: 0 <= i < n ==> r[i] == elapsed(a, i)
  {
    if n == 0 then [] else Times(elapsed, a, n - 1) + [elapsed(a, n - 1)]
  }

  /** How many of `ids` name a transaction of `t`. */
  function CountFound(t: seq<Transaction>, ids: seq<int>): (r: nat)
    ensures r <= |ids|
  {
    if ids == [] then 0
    else CountFound(t, ids[..|ids| - 1]) + if FirstWith(t, TxId, ids[|ids| - 1]).Some? then 1 else 0
  }

  lemma {:induction false} CountFoundAll(t: seq<Transaction>, ids: seq<int>)
    requires forall i :: 0 <= i < |ids| ==> FirstWith(t, TxId, ids[i]).Some?
    ensures CountFound(t, ids) == |ids|
  {
    if ids != [] {
      var p := ids[..|ids| - 1];
      assert forall i :: 0 <= i < |p| ==> p[i] == ids[i];
      CountFoundAll(t, p);
    }
  }

  /** What the benchmark loop has gathered for `a` after trying `ids`. */
  function Gathered(t: seq<Transaction>, ids: seq<int>, elapsed: (Algorithm, nat) -> real, a: Algorithm): Tally {
    var times := Times(elapsed, a, |ids|);
    Tally(times, Sum(times), CountFound(t, ids))
  }

  /** Trying one more id appends its time, adds it to the total and counts it if found. */
  lemma GatheredStep(t: seq<Transaction>, ids: seq<int>, elapsed: (Algorithm, nat) -> real, a: Algorithm, i: nat)
    requires i < |ids|
    ensures Gathered(t, ids[..i + 1], elapsed, a) ==
      Gathered(t, ids[..i], elapsed, a).Add(elapsed(a, i), FirstWith(t, TxId, ids[i]).Some?)
  {
    assert ids[..i + 1][..i] == ids[..i];
    SumAppend(Times(elapsed, a, i), elapsed(a, i));
  }

  /** The average, minimum and maximum added to one algorithm's figures. */
  function Summarize(g: Tally): AlgorithmResults {
    if g.times == [] then AlgorithmResults(g.times, g.totalTime, g.successCount, 0.0, 0.0, 0.0)
    else AlgorithmResults(g.times, g.totalTime, g.successCount,
                          g.totalTime / |g.times| as real, Min(g.times), Max(g.times))
  }

  /**
   * The summary keeps the gathered figures; its average, minimum and maximum
   * are all 0 when no id was tried, and otherwise the average times the count
   * is the total, the minimum and the maximum are times that bound all the
   * others, and the mean of the times lies between them.
   */
  lemma SummarizeFigures(g: Tally)
    ensures Summarize(g).times == g.times && Summarize(g).totalTime == g.totalTime
    ensures Summarize(g).successCount == g.successCount
    ensures g.times == [] ==> Summarize(g).averageTime == 0.0 && Summarize(g).minTime == 0.0 && Summarize(g).maxTime == 0.0
    ensures g.times != [] ==> Summarize(g).averageTime * |g.times| as real == g.totalTime
    ensures g.times != [] ==> Summarize(g).minTime in g.times && Summarize(g).maxTime in g.times
    ensures g.times != [] ==> forall i :: 0 <= i < |g.times| ==> Summarize(g).minTime <= g.times[i] <= Summarize(g).maxTime
    ensures g.times != [] && g.totalTime == Sum(g.times) ==> Summarize(g).minTime <= Summarize(g).averageTime <= Summarize(g).maxTime
  {
    if g.times != [] {
      var r := Summarize(g);
      assert r.minTime == Min(g.times) && r.maxTime == Max(g.times);
      SummarizeAverage(g);
      if g.totalTime == Sum(g.times) {
        MeanBetweenMinAndMax(g.times);
      }
    }
  }

  lemma SummarizeAverage(g: Tally)
    requires g.times != []
    ensures Summarize(g).averageTime * |g.times| as real == g.totalTime
  {
    MeanTimesCount(g.totalTime, |g.times| as real, Summarize(g).averageTime);
  }

  lemma MeanTimesCount(t: real, n: real, mean: real)
    requires n > 0.0 && mean == t / n
    ensures mean * n == t
  {
  }

  /** The comparison for snapshot `t`, test ids `ids` and the measured times. */
  function Compared(t: seq<Transaction>, ids: seq<int>, elapsed: (Algorithm, nat) -> real): Comparison {
    Comparison(
      Summarize(Gathered(t, ids, elapsed, Linear)),
      Summarize(Gathered(t, ids, elapsed, Dictionary)),
      Summarize(Gathered(t, ids, elapsed, Binary)),
      Summarize(Gathered(t, ids, elapsed, Hash)))
  }

  /** The figures of every algorithm obey the rules the benchmark promises. */
  lemma ComparedFigures(t: seq<Transaction>, ids: seq<int>, elapsed: (Algorithm, nat) -> real, a: Algorithm)
    ensures var r := Compared(t, ids, elapsed).Of(a);
      && r.times == Times(elapsed, a, |ids|)
      && r.totalTime == Sum(r.times)
      && r.successCount == CountFound(t, ids) <= |ids|
      && (ids == [] ==> r.averageTime == 0.0 && r.minTime == 0.0 && r.maxTime == 0.0)
      && (ids != [] ==> r.minTime <= r.averageTime <= r.maxTime)
  {
    SummarizeFigures(Gathered(t, ids, elapsed, a));
  }

  // ---------------------------------------------------------------------------
  // The report.

  /**
   * The fastest algorithm, as `min(keys, key=average)` picks it: the keys are
   * visited in declaration order and a later one replaces the current choice
   * only when strictly faster. So it has a smallest average, and every
   * algorithm declared before it is strictly slower.
   */
  function Fastest(c: Comparison): (a: Algorithm)
    ensures forall b :: c.Of(a).averageTime <= c.Of(b).averageTime
    ensures forall b :: Rank(b) < Rank(a) ==> c.Of(b).averageTime > c.Of(a).averageTime
  {
    var a1 := Linear;
    var a2 := if c.dictionary.averageTime < c.Of(a1).averageTime then Dictionary else a1;
    var a3 := if c.binary.averageTime < c.Of(a2).averageTime then Binary else a2;
    if c.hash.averageTime < c.Of(a3).averageTime then Hash else a3
  }

  datatype Ratios = Ratios(linear: real, dictionary: real, binary: real, hash: real) {
    function Of(a: Algorithm): real {
      match a
      case Linear => linear
      case Dictionary => dictionary
      case Binary => binary
      case Hash => hash
    }
  }

  /**
   * The speedup of each algorithm over linear search. With a positive linear
   * average each ratio is that average divided by the algorithm's own, and a
   * zero average raises ZeroDivisionError; otherwise every ratio is 1.
   */
  function SpeedupRatios(c: Comparison): (r: Result<Ratios, ZeroDivisionError>)
    ensures var baseline := c.linear.averageTime;
      r.Success? <==> baseline <= 0.0 || forall a :: c.Of(a).averageTime != 0.0
    ensures r.Success? && c.linear.averageTime > 0.0 ==>
      forall a :: r.value.Of(a) * c.Of(a).averageTime == c.linear.averageTime
    ensures r.Success? && c.linear.averageTime <= 0.0 ==> forall a :: r.value.Of(a) == 1.0
    ensures r.Success? ==> r.value.linear == 1.0
  {
    var baseline := c.linear.averageTime;
    if baseline > 0.0 then
      if c.Of(Dictionary).averageTime == 0.0 || c.Of(Binary).averageTime == 0.0 || c.Of(Hash).averageTime == 0.0 then
        Failure(DivisionByZero)
      else
        Success(Ratios(1.0, baseline / c.dictionary.averageTime,
                       baseline / c.binary.averageTime, baseline / c.hash.averageTime))
    else Success(Ratios(1.0, 1.0, 1.0, 1.0))
  }

  /** The recommendation messages. */
  datatype Advice = DictionaryAdvice | BinaryAdvice | HashAdvice | LargeDataAdvice | SimilarAdvice {
    function Text(): string {
      match this
      case DictionaryAdvice =>
        "Dictionary lookup is significantly faster than linear search. Use for frequent lookups by ID."
      case BinaryAdvice =>
        "Binary search provides good performance for sorted data. Consider using when data is already sorted."
      case HashAdvice =>
        "Hash table search shows good performance. Consider for large datasets with frequent lookups."
      case LargeDataAdvice =>
        "For large datasets (>1000 records), avoid linear search. Use dictionary lookup or hash tables for better performance."
      case SimilarAdvice => "All algorithms perform similarly for small datasets."
    }

    /** Where the message stands among the rules, the default last. */
    function Position(): nat {
      match this
      case DictionaryAdvice => 0
      case BinaryAdvice => 1
      case HashAdvice => 2
      case LargeDataAdvice => 3
      case SimilarAdvice => 4
    }
  }

  /** The message of one advice rule, present when the rule fires. */
  function When(fires: bool, a: Advice): seq<Advice> {
    if fires then [a] else []
  }

  /** Messages in strictly increasing rule position. */
  predicate InRuleOrder(s: seq<Advice>) {
    forall i, j :: 0 <= i < j < |s| ==> s[i].Position() < s[j].Position()
  }

  /** Every message of `s` stands before rule position `p`. */
  predicate Below(s: seq<Advice>, p: nat) {
    forall i :: 0 <= i < |s| ==> s[i].Position() < p
  }

  /** Appending the message of a later rule, fired or not, keeps the rule order. */
  lemma AppendLater(a: seq<Advice>, fires: bool, x: Advice)
    requires InRuleOrder(a) && Below(a, x.Position())
    ensures InRuleOrder(a + When(fires, x)) && Below(a + When(fires, x), x.Position() + 1)
  {
    if fires {
      assert a + When(fires, x) == a + [x];
    } else {
      assert a + When(fires, x) == a;
    }
  }

  /** The messages of the rules that fire, checked in the order dictionary, binary, hash, dataset size. */
  function Fired(ratios: Ratios, total: nat): seq<Advice> {
    When(ratios.dictionary > 10.0, DictionaryAdvice) + When(ratios.binary > 2.0, BinaryAdvice)
      + When(ratios.hash > 5.0, HashAdvice) + When(total > 1000, LargeDataAdvice)
  }

  /** Which messages fire; the default is never among them. */
  lemma FiredMembers(ratios: Ratios, total: nat)
    ensures var f := Fired(ratios, total);
      && (DictionaryAdvice in f <==> ratios.dictionary > 10.0)
      && (BinaryAdvice in f <==> ratios.binary > 2.0)
      && (HashAdvice in f <==> ratios.hash > 5.0)
      && (LargeDataAdvice in f <==> total > 1000)
      && SimilarAdvice !in f
  {
  }

  /** The fired messages come in rule order. */
  lemma FiredInOrder(ratios: Ratios, total: nat)
    ensures InRuleOrder(Fired(ratios, total))
  {
    var d := [] + When(ratios.dictionary > 10.0, DictionaryAdvice);
    AppendLater([], ratios.dictionary > 10.0, DictionaryAdvice);
    assert d == When(ratios.dictionary > 10.0, DictionaryAdvice);
    AppendLater(d, ratios.binary > 2.0, BinaryAdvice);
    var db := d + When(ratios.binary > 2.0, BinaryAdvice);
    AppendLater(db, ratios.hash > 5.0, HashAdvice);
    var dbh := db + When(ratios.hash > 5.0, HashAdvice);
    AppendLater(dbh, total > 1000, LargeDataAdvice);
  }

  /**
   * The recommendations for the given ratios and number of transactions: the
   * message of each rule that fires, in rule order, or the single default
   * message when none does.
   */
  function Recommendations(ratios: Ratios, total: nat): (r: seq<Advice>)
    ensures r != []
    ensures r == [SimilarAdvice] <==>
      !(ratios.dictionary > 10.0) && !(ratios.binary > 2.0) && !(ratios.hash > 5.0) && !(total > 1000)
    ensures DictionaryAdvice in r <==> ratios.dictionary > 10.0
    ensures BinaryAdvice in r <==> ratios.binary > 2.0
    ensures HashAdvice in r <==> ratios.hash > 5.0
    ensures LargeDataAdvice in r <==> total > 1000
    ensures InRuleOrder(r)
    ensures SimilarAdvice in r ==> r == [SimilarAdvice]
  {
    var fired := Fired(ratios, total);
    FiredMembers(ratios, total);
    FiredInOrder(ratios, total);
    assert fired != [] ==> fired[0] in fired;
    if fired == [] then [SimilarAdvice] else fired
  }

  /** The performance report. */
  datatype Report = Report(
    totalTransactions: nat,
    testIds: seq<int>,
    testCount: nat,
    results: Comparison,
    fastest: Algorithm,
    speedupRatios: Ratios,
    recommendations: seq<Advice>)

  /** The ids of the first ten transactions (fewer if there are fewer), in list order. */
  function DefaultTestIds(t: seq<Transaction>): (ids: seq<int>)
    ensures |ids| == if |t| < 10 then |t| else 10
    ensures forall i :: 0 <= i < |ids| ==> ids[i] == t[i].id
  {
    var n := if |t| < 10 then |t| else 10;
    seq(n, i requires 0 <= i < n => t[i].id)
  }

  /** Every default test id names a transaction of the snapshot. */
  lemma DefaultIdsAllFound(t: seq<Transaction>)
    ensures CountFound(t, DefaultTestIds(t)) == |DefaultTestIds(t)|
  {
    var ids := DefaultTestIds(t);
    forall i | 0 <= i < |ids|
      ensures FirstWith(t, TxId, ids[i]).Some?
    {
      assert TxId(t[i]) == ids[i];
    }
    CountFoundAll(t, ids);
  }

  /** The transactions the analyzer holds after `load_data`: none when processing raised. */
  function Loaded(records: seq<SmsRecord>, m: Matchers, toIso: string -> Option<string>): seq<Transaction> {
    match Emit(records, Extract(m), toIso, 1)
    case Success(v) => v
    case Failure(_) => []
  }

  /** The loop of `load_data` that fills `transaction_dict` from the list, one record at a time. */
  method IndexById(txs: seq<Transaction>) returns (dict: map<int, Transaction>)
    ensures dict == IndexBy(txs, TxId)
  {
    dict := map[];
    for i := 0 to |txs|
      invariant dict == IndexBy(txs[..i], TxId)
    {
      assert txs[..i + 1] == txs[..i] + [txs[i]];
      IndexBySnoc(txs[..i], txs[i], TxId);
      dict := dict[TxId(txs[i]) := txs[i]];
    }
    assert txs[..|txs|] == txs;
  }

  class DSAPerformanceAnalyzer {
    var transactions: seq<Transaction>
    var transactionDict: map<int, Transaction>
    var sortedTransactions: seq<Transaction>

    /** Unique ids; the dictionary and the sorted copy built from the list. */
    predicate Valid()
      reads this
    {
      && UniqueKeys(transactions, TxId)
      && transactionDict == IndexBy(transactions, TxId)
      && sortedTransactions == SortBy(transactions, TxId)
    }

    /**
     * `DSAPerformanceAnalyzer(path)`: runs the parser over the ingested
     * records, fills the dictionary record by record and sorts a copy by id.
     */
    constructor (records: seq<SmsRecord>, m: Matchers, toIso: string -> Option<string>)
      ensures transactions == Loaded(records, m, toIso)
      ensures Valid()
    {
      var parser := new SMSTransactionParser(records);
      var r := parser.ProcessSmsToTransactions(m, toIso);
      ghost var emitted := Emit(records, Extract(m), toIso, 1);
      assert r == emitted;
      var txs: seq<Transaction> := [];
      if r.Success? {
        txs := r.value;
        EmittedIds(records, Extract(m), toIso);
      }
      var dict := IndexById(txs);
      transactions := txs;
      transactionDict := dict;
      sortedTransactions := SortBy(txs, TxId);
    }

    /** `linear_search`: the first transaction in list order with the id. */
    method LinearSearch(transactionId: int) returns (r: Option<Transaction>)
      ensures r == FirstWith(transactions, TxId, transactionId)
    {
      for i := 0 to |transactions|
        invariant forall j :: 0 <= j < i ==> transactions[j].id != transactionId
      {
        if transactions[i].id == transactionId {
          return Some(transactions[i]);
        }
      }
      return None;
    }

    /**
     * `dictionary_lookup`: finds something exactly when the id is a key of the
     * map; under the analyzer's invariant the map holds what the scan finds.
     */
    method DictionaryLookup(transactionId: int) returns (r: Option<Transaction>)
      ensures r.Some? <==> transactionId in transactionDict
      ensures Valid() ==> r == FirstWith(transactions, TxId, transactionId)
    {
      if transactionId in transactionDict {
        r := Some(transactionDict[transactionId]);
      } else {
        r := None;
      }
      if Valid() {
        IndexAgreesWithScan(transactions, TxId, transactionId);
      }
    }

    /**
     * `binary_search` over the sorted copy: what it returns carries the id, and
     * on a list sorted by id it reports None only when no record has the id.
     * Under the analyzer's invariant it finds what the scan finds.
     */
    method BinarySearch(transactionId: int) returns (r: Option<Transaction>)
      ensures r.Some? ==> r.value in sortedTransactions && r.value.id == transactionId
      ensures SortedBy(sortedTransactions, TxId) && r.None? ==>
        forall j :: 0 <= j < |sortedTransactions| ==> sortedTransactions[j].id != transactionId
      ensures Valid() ==> r == FirstWith(transactions, TxId, transactionId)
    {
      if Valid() {
        SortedCopyAgrees(transactions, TxId, transactionId);
        SortByCorrect(transactions, TxId);
      }
      var s := sortedTransactions;
      ghost var sorted := SortedBy(s, TxId);
      var left, right := 0, |s| - 1;
      while left <= right
        invariant 0 <= left <= right + 1 <= |s|
        invariant sorted ==> forall j :: 0 <= j < left ==> s[j].id < transactionId
        invariant sorted ==> forall j :: right < j < |s| ==> s[j].id > transactionId
        decreases right - left
      {
        var mid := (left + right) / 2;
        if s[mid].id == transactionId {
          return Some(s[mid]);
        } else if s[mid].id < transactionId {
          left := mid + 1;
        } else {
          right := mid - 1;
        }
      }
      return None;
    }

    /**
     * `hash_table_search`: probes `(id mod n + i) mod n` for `i` in `0..n-1`.
     * It returns None exactly when no record has the id (at once, without
     * dividing, on an empty list), and with unique ids it finds what the scan
     * finds.
     */
    method HashTableSearch(transactionId: int) returns (r: Option<Transaction>)
      ensures r.Some? ==> r.value in transactions && r.value.id == transactionId
      ensures r.None? <==> forall j :: 0 <= j < |transactions| ==> transactions[j].id != transactionId
      ensures UniqueKeys(transactions, TxId) ==> r == FirstWith(transactions, TxId, transactionId)
    {
      var n := |transactions|;
      var hashValue := if n > 0 then transactionId % n else 0;
      for i := 0 to n
        invariant forall p :: 0 <= p < i ==> transactions[Probe(hashValue, p, n)].id != transactionId
      {
        var index := (hashValue + i) % n;
        if transactions[index].id == transactionId {
          r := Some(transactions[index]);
          if UniqueKeys(transactions, TxId) {
            UniqueMemberIsFirst(transactions, TxId, transactions[index]);
          }
          return;
        }
      }
      forall j | 0 <= j < n
        ensures transactions[j].id != transactionId
      {
        ProbeReaches(hashValue, n, j);
      }
      return None;
    }

    /**
     * `compare_algorithms`: tries every test id with each algorithm in turn.
     * For each algorithm, `times` holds one entry per test id in test-id order,
     * `total_time` is their sum and `success_count` the number of ids found,
     * the same for all four; average, minimum and maximum are then added.
     */
    method CompareAlgorithms(testIds: seq<int>, elapsed: (Algorithm, nat) -> real) returns (c: Comparison)
      requires Valid()
      ensures c == Compared(transactions, testIds, elapsed)
    {
      var lin := Tally([], 0.0, 0);
      var dic := Tally([], 0.0, 0);
      var bin := Tally([], 0.0, 0);
      var hsh := Tally([], 0.0, 0);
      for i := 0 to |testIds|
        invariant lin == Gathered(transactions, testIds[..i], elapsed, Linear)
        invariant dic == Gathered(transactions, testIds[..i], elapsed, Dictionary)
        invariant bin == Gathered(transactions, testIds[..i], elapsed, Binary)
        invariant hsh == Gathered(transactions, testIds[..i], elapsed, Hash)
      {
        var txId := testIds[i];
        GatheredStep(transactions, testIds, elapsed, Linear, i);
        GatheredStep(transactions, testIds, elapsed, Dictionary, i);
        GatheredStep(transactions, testIds, elapsed, Binary, i);
        GatheredStep(transactions, testIds, elapsed, Hash, i);

        var result := LinearSearch(txId);
        var timeTaken := elapsed(Linear, i);
        lin := lin.Add(timeTaken, result.Some?);

        result := DictionaryLookup(txId);
        timeTaken := elapsed(Dictionary, i);
        dic := dic.Add(timeTaken, result.Some?);

        result := BinarySearch(txId);
        timeTaken := elapsed(Binary, i);
        bin := bin.Add(timeTaken, result.Some?);

        result := HashTableSearch(txId);
        timeTaken := elapsed(Hash, i);
        hsh := hsh.Add(timeTaken, result.Some?);
      }
      assert testIds[..|testIds|] == testIds;
      c := Comparison(Summarize(lin), Summarize(dic), Summarize(bin), Summarize(hsh));
    }

    /**
     * `_generate_recommendations`: appends the message of each rule that fires,
     * in rule order, and the default message when none did.
     */
    method GenerateRecommendations(ratios: Ratios) returns (recommendations: seq<Advice>)
      ensures recommendations == Recommendations(ratios, |transactions|)
    {
      recommendations := [];
      if ratios.dictionary > 10.0 {
        recommendations := recommendations + [DictionaryAdvice];
      }
      if ratios.binary > 2.0 {
        recommendations := recommendations + [BinaryAdvice];
      }
      if ratios.hash > 5.0 {
        recommendations := recommendations + [HashAdvice];
      }
      if |transactions| > 1000 {
        recommendations := recommendations + [LargeDataAdvice];
      }
      assert recommendations == Fired(ratios, |transactions|);
      if recommendations == [] {
        recommendations := recommendations + [SimilarAdvice];
      }
    }

    /**
     * `generate_performance_report`: the comparison, the fastest algorithm, the
     * speedup ratios and the recommendations; ZeroDivisionError when a speedup
     * ratio divides by a zero average.
     */
    method GeneratePerformanceReport(testIds: seq<int>, elapsed: (Algorithm, nat) -> real)
      returns (r: Result<Report, ZeroDivisionError>)
      requires Valid()
      ensures r.Failure? <==> SpeedupRatios(Compared(transactions, testIds, elapsed)).Failure?
      ensures r.Success? ==>
        var c := Compared(transactions, testIds, elapsed);
        r.value == Report(|transactions|, testIds, |testIds|, c, Fastest(c), SpeedupRatios(c).value,
                          Recommendations(SpeedupRatios(c).value, |transactions|))
    {
      var results := CompareAlgorithms(testIds, elapsed);
      var fastestAlgorithm := Fastest(results);
      var speedupRatios :- SpeedupRatios(results);
      var recommendations := GenerateRecommendations(speedupRatios);
      return Success(Report(|transactions|, testIds, |testIds|, results, fastestAlgorithm, speedupRatios,
                            recommendations));
    }
  }

  /**
   * `run_dsa_analysis`: loads the analyzer and reports on the given test ids,
   * or on the default ids when none (or an empty list) are given. With the
   * default ids every algorithm finds every id.
   */
  method RunDsaAnalysis(records: seq<SmsRecord>, m: Matchers, toIso: string -> Option<string>,
                        testIds: Option<seq<int>>, elapsed: (Algorithm, nat) -> real)
    returns (r: Result<Report, ZeroDivisionError>)
    ensures var t := Loaded(records, m, toIso);
      var ids := if testIds.None? || testIds.value == [] then DefaultTestIds(t) else testIds.value;
      && (r.Failure? <==> SpeedupRatios(Compared(t, ids, elapsed)).Failure?)
      && (r.Success? ==>
            var c := Compared(t, ids, elapsed);
            r.value == Report(|t|, ids, |ids|, c, Fastest(c), SpeedupRatios(c).value,
                              Recommendations(SpeedupRatios(c).value, |t|)))
    ensures r.Success? && (testIds.None? || testIds.value == []) ==>
      forall a :: r.value.results.Of(a).successCount == |r.value.testIds|
  {
    var analyzer := new DSAPerformanceAnalyzer(records, m, toIso);
    var ids := testIds.GetOr([]);
    if ids == [] {
      ids := DefaultTestIds(analyzer.transactions);
      DefaultIdsAllFound(analyzer.transactions);
      forall a
        ensures Compared(analyzer.transactions, ids, elapsed).Of(a).successCount == |ids|
      {
        ComparedFigures(analyzer.transactions, ids, elapsed, a);
      }
    }
    r := analyzer.GeneratePerformanceReport(ids, elapsed);
  }
}
