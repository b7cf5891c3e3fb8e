/**
  The statistics shown on the metrics page for one function: a summary of its
  execution records (count, success rate, avg/min/max of the three timings,
  docker/gvisor tally, warm/cold tally), and the conversion of the metrics the
  backend returns into those records.
*/
module ExecutionStats {
  import opened Wrappers

  /** An execution record as the aggregator reads it. Each field is a key of the
      record's dictionary; `None` means the key is absent, which is not the same
      as a key present with value 0. */
  datatype ExecutionRecord = ExecutionRecord(
    runtime: Option<string>,
    initializationTimeMs: Option<real>,
    executionTimeMs: Option<real>,
    totalTimeMs: Option<real>,
    coldStart: Option<bool>,
    success: Option<bool>)

  /** The three timings that are summarised separately. */
  datatype TimingField = Initialization | Execution | Total

  datatype TimingStats = TimingStats(avg: real, min: real, max: real)

  datatype RuntimeDistribution = RuntimeDistribution(docker: nat, gvisor: nat)

  datatype WarmVsCold = WarmVsCold(warm: nat, cold: nat)

  datatype FunctionStats = FunctionStats(
    totalExecutions: nat,
    successRate: real,
    initialization: TimingStats,
    execution: TimingStats,
    total: TimingStats,
    runtimeDistribution: RuntimeDistribution,
    warmVsCold: WarmVsCold)

  const ZeroTiming := TimingStats(0.0, 0.0, 0.0)

  /** The summary of no executions at all. */
  const EmptyStats := FunctionStats(0, 0.0, ZeroTiming, ZeroTiming, ZeroTiming,
                                    RuntimeDistribution(0, 0), WarmVsCold(0, 0))

  function Field(e: ExecutionRecord, f: TimingField): Option<real>
  {
    match f
    case Initialization => e.initializationTimeMs
    case Execution => e.executionTimeMs
    case Total => e.totalTimeMs
  }

  function Timing(s: FunctionStats, f: TimingField): TimingStats
  {
    match f
    case Initialization => s.initialization
    case Execution => s.execution
    case Total => s.total
  }

  /** `e.get("success", False)`: a missing key reads as unsuccessful. */
  predicate Succeeded(e: ExecutionRecord)
  {
    e.success == Some(true)
  }

  predicate OnDocker(e: ExecutionRecord)
  {
    e.runtime == Some("docker")
  }

  predicate OnGvisor(e: ExecutionRecord)
  {
    e.runtime == Some("gvisor")
  }

  /** `not e.get("cold_start", True)`: warm only when the key is there and false. */
  predicate IsWarm(e: ExecutionRecord)
  {
    match e.coldStart
    case Some(c) => !c
    case None => false
  }

  /** `e.get("cold_start", True)`: a missing key reads as a cold start. */
  predicate IsCold(e: ExecutionRecord)
  {
    match e.coldStart
    case Some(c) => c
    case None => true
  }

  /** `sum(1 for x in xs if p(x))` */
  function Count<T>(xs: seq<T>, p: T -> bool): (n: nat)
    ensures n <= |xs|
    ensures n == 0 <==> forall i :: 0 <= i < |xs| ==> !p(xs[i])
    ensures n == |xs| <==> forall i :: 0 <= i < |xs| ==> p(xs[i])
  {
    if xs == [] then 0
    else
      var rest := Count(xs[1..], p);
      assert forall i :: 1 <= i < |xs| ==> xs[i] == xs[1..][i - 1];
      (if p(xs[0]) then 1 else 0) + rest
  }

  /** The records that carry timing `f`: `k in e`. */
  function HasTiming(f: TimingField): ExecutionRecord -> bool
  {
    (e: ExecutionRecord) => Field(e, f).Some?
  }

  /** The records that carry timing `f` with value `x`. */
  function HasTimingValue(f: TimingField, x: real): ExecutionRecord -> bool
  {
    (e: ExecutionRecord) => Field(e, f) == Some(x)
  }

  /** The values of one timing, in record order, taken only from the records
      that carry it: `[e[k] for e in executions if k in e]`. Each carrying
      record contributes its value exactly once. */
  function Present(es: seq<ExecutionRecord>, f: TimingField): (xs: seq<real>)
    ensures |xs| == Count(es, HasTiming(f))
    ensures forall x :: multiset(xs)[x] == Count(es, HasTimingValue(f, x))
    ensures forall x :: x in xs <==> exists i :: 0 <= i < |es| && Field(es[i], f) == Some(x)
    ensures xs == [] <==> forall i :: 0 <= i < |es| ==> Field(es[i], f).None?
  {
    if es == [] then []
    else
      var rest := Present(es[1..], f);
      assert forall i :: 1 <= i < |es| ==> es[i] == es[1..][i - 1];
      match Field(es[0], f)
      case Some(v) => [v] + rest
      case None => rest
  }

  function Sum(xs: seq<real>): real
  {
    if xs == [] then 0.0 else xs[0] + Sum(xs[1..])
  }

  /** `min(xs)`: the smallest value, which is one of the values. */
  function Min(xs: seq<real>): (m: real)
    requires xs != []
    ensures m in xs
    ensures forall i :: 0 <= i < |xs| ==> m <= xs[i]
  {
    if |xs| == 1 then xs[0]
    else
      var rest := Min(xs[1..]);
      assert forall i :: 1 <= i < |xs| ==> xs[i] == xs[1..][i - 1];
      if xs[0] <= rest then xs[0] else rest
  }

  /** `max(xs)`: the largest value, which is one of the values. */
  function Max(xs: seq<real>): (m: real)
    requires xs != []
    ensures m in xs
    ensures forall i :: 0 <= i < |xs| ==> xs[i] <= m
  {
    if |xs| == 1 then xs[0]
    else
      var rest := Max(xs[1..]);
      assert forall i :: 1 <= i < |xs| ==> xs[i] == xs[1..][i - 1];
      if rest <= xs[0] then xs[0] else rest
  }

  function Mean(xs: seq<real>): real
    requires xs != []
  {
    Sum(xs) / (|xs| as real)
  }

  /** A sum of values that all lie in [lo, hi] lies in [n * lo, n * hi]. */
  lemma {:induction false} SumBounds(xs: seq<real>, lo: real, hi: real)
    requires forall i :: 0 <= i < |xs| ==> lo <= xs[i] <= hi
    ensures (|xs| as real) * lo <= Sum(xs) <= (|xs| as real) * hi
  {
    if xs != [] {
      var rest := xs[1..];
      assert forall i :: 0 <= i < |rest| ==> rest[i] == xs[i + 1];
      SumBounds(rest, lo, hi);
      var m := |rest| as real;
      assert Sum(xs) == xs[0] + Sum(rest);
      assert (|xs| as real) * lo == m * lo + lo;
      assert (|xs| as real) * hi == m * hi + hi;
    }
  }

  /** Dividing a total that lies in [n * lo, n * hi] by a count n > 0 gives a value in [lo, hi]. */
  lemma QuotientBetween(total: real, n: nat, lo: real, hi: real)
    requires n > 0 && (n as real) * lo <= total <= (n as real) * hi
    ensures lo <= total / (n as real) <= hi
  {
    assert (total / (n as real)) * (n as real) == total;
  }

  /** The mean of values that all lie in [lo, hi] lies in [lo, hi]. */
  lemma MeanWithin(xs: seq<real>, lo: real, hi: real)
    requires xs != []
    requires forall i :: 0 <= i < |xs| ==> lo <= xs[i] <= hi
    ensures lo <= Mean(xs) <= hi
  {
    SumBounds(xs, lo, hi);
    QuotientBetween(Sum(xs), |xs|, lo, hi);
  }

  /** The mean of a non-empty sequence lies between its minimum and maximum. */
  lemma MeanBetween(xs: seq<real>)
    requires xs != []
    ensures Min(xs) <= Mean(xs) <= Max(xs)
  {
    MeanWithin(xs, Min(xs), Max(xs));
  }

  /** avg/min/max of one timing, all 0 when no record carries it. */
  function Summarize(xs: seq<real>): (t: TimingStats)
    ensures xs == [] ==> t == ZeroTiming
    ensures xs != [] ==> t.min <= t.avg <= t.max && t.min in xs && t.max in xs
    ensures forall i :: 0 <= i < |xs| ==> t.min <= xs[i] <= t.max
    ensures |xs| == 1 ==> t == TimingStats(xs[0], xs[0], xs[0])
  {
    if xs == [] then ZeroTiming
    else
      MeanBetween(xs);
      TimingStats(Mean(xs), Min(xs), Max(xs))
  }

  /** `(successful / len(executions)) * 100`: the percentage of successful
      records, which scaled back by the record count gives the successes. */
  function SuccessRate(successful: nat, total: nat): (r: real)
    requires 0 < total && successful <= total
    ensures 0.0 <= r <= 100.0
    ensures r * (total as real) == 100.0 * (successful as real)
  {
    var fraction := successful as real / total as real;
    assert fraction * (total as real) == successful as real;
    QuotientBetween(successful as real, total, 0.0, 1.0);
    fraction * 100.0
  }

  /** calculate_function_stats */
  function CalculateFunctionStats(es: seq<ExecutionRecord>): (s: FunctionStats)
    ensures es == [] ==> s == EmptyStats
    ensures s.totalExecutions == |es|
    ensures 0.0 <= s.successRate <= 100.0
    ensures s.warmVsCold.warm + s.warmVsCold.cold == |es|
    ensures s.runtimeDistribution.docker + s.runtimeDistribution.gvisor <= |es|
  {
    if es == [] then EmptyStats
    else
      WarmColdPartition(es);
      RuntimeBuckets(es);
      FunctionStats(
        |es|,
        SuccessRate(Count(es, Succeeded), |es|),
        Summarize(Present(es, Initialization)),
        Summarize(Present(es, Execution)),
        Summarize(Present(es, Total)),
        RuntimeDistribution(Count(es, OnDocker), Count(es, OnGvisor)),
        WarmVsCold(Count(es, IsWarm), Count(es, IsCold)))
  }

  /** Every record is counted exactly once, as warm or as cold. */
  lemma {:induction false} WarmColdPartition(es: seq<ExecutionRecord>)
    ensures Count(es, IsWarm) + Count(es, IsCold) == |es|
  {
    if es != [] {
      WarmColdPartition(es[1..]);
    }
  }

  /** No record is in both runtime buckets; a record whose runtime is exactly
      "docker" or "gvisor" is in one of them, any other record in neither. */
  lemma {:induction false} RuntimeBuckets(es: seq<ExecutionRecord>)
    ensures Count(es, OnDocker) + Count(es, OnGvisor)
            == |es| - Count(es, (e: ExecutionRecord) => !OnDocker(e) && !OnGvisor(e))
  {
    if es != [] {
      RuntimeBuckets(es[1..]);
    }
  }

  /** Counting over a concatenation adds the counts of the parts. */
  lemma {:induction false} CountAppend<T>(a: seq<T>, b: seq<T>, p: T -> bool)
    ensures Count(a + b, p) == Count(a, p) + Count(b, p)
  {
    if a == [] {
      assert a + b == b;
    } else {
      assert (a + b)[1..] == a[1..] + b;
      CountAppend(a[1..], b, p);
    }
  }

  /** Filtering a concatenation keeps the order of the parts. */
  lemma {:induction false} PresentAppend(a: seq<ExecutionRecord>, b: seq<ExecutionRecord>, f: TimingField)
    ensures Present(a + b, f) == Present(a, f) + Present(b, f)
  {
    if a == [] {
      assert a + b == b;
    } else {
      assert (a + b)[1..] == a[1..] + b;
      PresentAppend(a[1..], b, f);
    }
  }

  /** The total of one timing, accumulated record by record over the records
      that carry it. */
  function CarriedSum(es: seq<ExecutionRecord>, f: TimingField): real
  {
    if es == [] then 0.0
    else
      (match Field(es[0], f) case Some(v) => v case None => 0.0) + CarriedSum(es[1..], f)
  }

  /** Summing the timing list adds up every carrying record's value once. */
  lemma {:induction false} SumPresent(es: seq<ExecutionRecord>, f: TimingField)
    ensures Sum(Present(es, f)) == CarriedSum(es, f)
  {
    if es != [] {
      SumPresent(es[1..], f);
      var rest := Present(es[1..], f);
      match Field(es[0], f)
      case Some(v) =>
        assert Present(es, f) == [v] + rest;
        assert ([v] + rest)[1..] == rest;
      case None =>
    }
  }

  /** A timing's average is the total of its values over the records carrying
      it, divided by the number of those records (0 when there are none). */
  lemma TimingAverage(es: seq<ExecutionRecord>, f: TimingField)
    ensures var n := Count(es, HasTiming(f));
            var t := Timing(CalculateFunctionStats(es), f);
            && (n == 0 ==> t.avg == 0.0)
            && (n > 0 ==> t.avg == CarriedSum(es, f) / (n as real))
  {
    SumPresent(es, f);
    TimingIsSummary(es, f);
  }

  /** Each timing's avg/min/max summarise the values of the records that carry it. */
  lemma TimingIsSummary(es: seq<ExecutionRecord>, f: TimingField)
    ensures Timing(CalculateFunctionStats(es), f) == Summarize(Present(es, f))
  {
  }

  /** A rate is 100 exactly when every record succeeded and 0 exactly when none did. */
  lemma SuccessRateExtremes(successful: nat, total: nat)
    requires 0 < total && successful <= total
    ensures SuccessRate(successful, total) == 100.0 <==> successful == total
    ensures SuccessRate(successful, total) == 0.0 <==> successful == 0
  {
    var r := SuccessRate(successful, total);
    var n := total as real;
    var c := successful as real;
    assert r * n == 100.0 * c;
    if r == 100.0 {
      assert 100.0 * n == 100.0 * c;
    }
    if successful == total {
      assert r * n == 100.0 * n;
    }
  }

  /** The success rate is the percentage of records whose `success` key is
      present and true (so, by SuccessRate, scaled back by the record count it
      gives their number); it is 100 exactly when every record's is, and 0
      exactly when no record's is. */
  lemma SuccessRateMeaning(es: seq<ExecutionRecord>)
    requires es != []
    ensures CalculateFunctionStats(es).successRate == SuccessRate(Count(es, Succeeded), |es|)
    ensures CalculateFunctionStats(es).successRate == 100.0 <==> forall i :: 0 <= i < |es| ==> Succeeded(es[i])
    ensures CalculateFunctionStats(es).successRate == 0.0 <==> forall i :: 0 <= i < |es| ==> !Succeeded(es[i])
  {
    var c := Count(es, Succeeded);
    assert CalculateFunctionStats(es).successRate == SuccessRate(c, |es|);
    SuccessRateExtremes(c, |es|);
  }

  /** The runtime tally covers every record exactly when each record's runtime
      is "docker" or "gvisor". */
  lemma RuntimeTallyComplete(es: seq<ExecutionRecord>)
    ensures var d := CalculateFunctionStats(es).runtimeDistribution;
            d.docker + d.gvisor == |es| <==> forall i :: 0 <= i < |es| ==> OnDocker(es[i]) || OnGvisor(es[i])
  {
    RuntimeBuckets(es);
  }

  /** A record without a `cold_start` key is tallied as cold, not warm. */
  lemma MissingColdStartIsCold(es: seq<ExecutionRecord>, e: ExecutionRecord)
    requires e.coldStart == None
    ensures var before := CalculateFunctionStats(es).warmVsCold;
            var after := CalculateFunctionStats(es + [e]).warmVsCold;
            after.cold == before.cold + 1 && after.warm == before.warm
  {
    CountAppend(es, [e], IsCold);
    CountAppend(es, [e], IsWarm);
  }

  /** For a timing that at least one record carries: min <= avg <= max, every
      carried value lies in [min, max], and both extremes are carried values. */
  lemma TimingBounds(es: seq<ExecutionRecord>, f: TimingField)
    requires exists k :: 0 <= k < |es| && Field(es[k], f).Some?
    ensures var t := Timing(CalculateFunctionStats(es), f);
            && t.min <= t.avg <= t.max
            && (forall i :: 0 <= i < |es| && Field(es[i], f).Some? ==> t.min <= Field(es[i], f).value <= t.max)
            && (exists i :: 0 <= i < |es| && Field(es[i], f) == Some(t.min))
            && (exists i :: 0 <= i < |es| && Field(es[i], f) == Some(t.max))
  {
    var xs := Present(es, f);
    var t := Timing(CalculateFunctionStats(es), f);
    assert t == Summarize(xs);
    forall i | 0 <= i < |es| && Field(es[i], f).Some?
      ensures t.min <= Field(es[i], f).value <= t.max
    {
      var v := Field(es[i], f).value;
      assert v in xs;
      var j :| 0 <= j < |xs| && xs[j] == v;
    }
  }

  /** A timing that no record carries is summarised as 0, 0, 0. */
  lemma AbsentTimingIsZero(es: seq<ExecutionRecord>, f: TimingField)
    requires forall i :: 0 <= i < |es| ==> Field(es[i], f).None?
    ensures Timing(CalculateFunctionStats(es), f) == ZeroTiming
  {
  }

  /** When exactly one record carries a timing, with value v, avg = min = max = v. */
  lemma SingleCarrier(es: seq<ExecutionRecord>, f: TimingField, k: nat, v: real)
    requires k < |es| && Field(es[k], f) == Some(v)
    requires forall i :: 0 <= i < |es| && i != k ==> Field(es[i], f).None?
    ensures Timing(CalculateFunctionStats(es), f) == TimingStats(v, v, v)
  {
    var before, after := es[..k], es[k + 1..];
    assert es == before + [es[k]] + after;
    assert forall i :: 0 <= i < |before| ==> before[i] == es[i];
    assert forall i :: 0 <= i < |after| ==> after[i] == es[k + 1 + i];
    assert Present(before, f) == [];
    assert Present(after, f) == [];
    assert Present([es[k]], f) == [v];
    PresentAppend(before, [es[k]], f);
    assert Present(before + [es[k]], f) == [] + [v] == [v];
    PresentAppend(before + [es[k]], after, f);
    assert Present(before + [es[k]] + after, f) == [v] + [] == [v];
    TimingIsSummary(es, f);
  }

  /** Adding a record that lacks a timing leaves that timing's avg/min/max as
      they were: a missing key is excluded, not read as 0. */
  lemma MissingTimingIgnored(es: seq<ExecutionRecord>, e: ExecutionRecord, f: TimingField)
    requires Field(e, f).None?
    ensures Timing(CalculateFunctionStats(es + [e]), f) == Timing(CalculateFunctionStats(es), f)
  {
    PresentAppend(es, [e], f);
    assert Present([e], f) == [];
    assert Present(es + [e], f) == Present(es, f) + [] == Present(es, f);
    TimingIsSummary(es, f);
    TimingIsSummary(es + [e], f);
  }

  /** By contrast, a timing present with value 0 does count: next to a 10 ms
      record it halves the average and becomes the minimum. */
  lemma PresentZeroCounts()
    ensures var one := ExecutionRecord(None, None, Some(10.0), None, None, None);
            var zero := ExecutionRecord(None, None, Some(0.0), None, None, None);
            CalculateFunctionStats([one, zero]).execution == TimingStats(5.0, 0.0, 10.0)
  {
    var one := ExecutionRecord(None, None, Some(10.0), None, None, None);
    var zero := ExecutionRecord(None, None, Some(0.0), None, None, None);
    var xs := Present([one, zero], Execution);
    assert Present([zero], Execution) == [0.0];
    assert [one, zero][1..] == [zero];
    assert xs == [10.0] + [0.0];
    assert xs[1..] == [0.0];
    assert Sum([0.0]) == 0.0 by {
      assert [0.0][1..] == [];
    }
    assert Sum(xs) == 10.0;
    assert Min(xs) == 0.0;
    assert Max(xs) == 10.0;
    assert Mean(xs) == 5.0;
    assert Summarize(xs) == TimingStats(5.0, 0.0, 10.0);
    TimingIsSummary([one, zero], Execution);
  }

  /** Two records, one successful warm docker run of 10 ms and one failed cold
      gvisor run of 50 ms. */
  lemma TwoRecordScenario()
    ensures var ok := ExecutionRecord(Some("docker"), None, Some(10.0), None, Some(false), Some(true));
            var failed := ExecutionRecord(Some("gvisor"), None, Some(50.0), None, Some(true), Some(false));
            var s := CalculateFunctionStats([ok, failed]);
            && s.totalExecutions == 2
            && s.successRate == 50.0
            && s.runtimeDistribution == RuntimeDistribution(1, 1)
            && s.warmVsCold == WarmVsCold(1, 1)
            && s.execution == TimingStats(30.0, 10.0, 50.0)
            && s.initialization == ZeroTiming
  {
    var ok := ExecutionRecord(Some("docker"), None, Some(10.0), None, Some(false), Some(true));
    var failed := ExecutionRecord(Some("gvisor"), None, Some(50.0), None, Some(true), Some(false));
    var es := [ok, failed];
    assert es[1..] == [failed];
    assert Count(es, Succeeded) == 1;
    assert Count(es, OnDocker) == 1;
    assert Count(es, OnGvisor) == 1;
    assert Count(es, IsWarm) == 1;
    assert SuccessRate(1, 2) == 50.0;
    var xs := Present(es, Execution);
    assert Present([failed], Execution) == [50.0];
    assert xs == [10.0] + [50.0];
    assert xs[1..] == [50.0];
    assert Sum([50.0]) == 50.0 by {
      assert [50.0][1..] == [];
    }
    assert Sum(xs) == 60.0;
    assert Min(xs) == 10.0;
    assert Max(xs) == 50.0;
    assert Mean(xs) == 30.0;
    assert Summarize(xs) == TimingStats(30.0, 10.0, 50.0);
    TimingIsSummary(es, Execution);
    AbsentTimingIsZero(es, Initialization);
  }

  /** A metric row as the backend returns it for one execution: every key is
      there, and the outcome is a status string. */
  datatype Metric = Metric(
    runtime: string,
    initializationTimeMs: real,
    executionTimeMs: real,
    totalTimeMs: real,
    coldStart: bool,
    status: string)

  function MetricTiming(m: Metric, f: TimingField): real
  {
    match f
    case Initialization => m.initializationTimeMs
    case Execution => m.executionTimeMs
    case Total => m.totalTimeMs
  }

  predicate ReportsSuccess(m: Metric)
  {
    m.status == "success"
  }

  predicate StartedWarm(m: Metric)
  {
    !m.coldStart
  }

  /** The record the metrics page builds from one metric row: every key is
      copied, and `success` is whether the status is exactly "success". */
  function Normalize(m: Metric): (e: ExecutionRecord)
    ensures e.runtime == Some(m.runtime)
    ensures forall f :: Field(e, f) == Some(MetricTiming(m, f))
    ensures Succeeded(e) <==> ReportsSuccess(m)
    ensures IsWarm(e) <==> StartedWarm(m)
    ensures IsCold(e) <==> !StartedWarm(m)
  {
    ExecutionRecord(Some(m.runtime), Some(m.initializationTimeMs), Some(m.executionTimeMs),
                    Some(m.totalTimeMs), Some(m.coldStart), Some(m.status == "success"))
  }

  /** The records of all metric rows, in the backend's order (the loop that
      appends one record per row). */
  function NormalizeAll(ms: seq<Metric>): (es: seq<ExecutionRecord>)
    ensures |es| == |ms|
    ensures forall i :: 0 <= i < |ms| ==> es[i] == Normalize(ms[i])
  {
    if ms == [] then [] else [Normalize(ms[0])] + NormalizeAll(ms[1..])
  }

  /** A normalised record counts as successful exactly when its row's status is "success". */
  lemma {:induction false} NormalizedSuccessCount(ms: seq<Metric>)
    ensures Count(NormalizeAll(ms), Succeeded) == Count(ms, ReportsSuccess)
  {
    if ms != [] {
      assert NormalizeAll(ms)[1..] == NormalizeAll(ms[1..]);
      NormalizedSuccessCount(ms[1..]);
    }
  }

  /** A normalised record is warm exactly when its row says it was not a cold start. */
  lemma {:induction false} NormalizedWarmCount(ms: seq<Metric>)
    ensures Count(NormalizeAll(ms), IsWarm) == Count(ms, StartedWarm)
  {
    if ms != [] {
      assert NormalizeAll(ms)[1..] == NormalizeAll(ms[1..]);
      NormalizedWarmCount(ms[1..]);
    }
  }

  /** The metric rows that ran on `runtime`. */
  function RunsOn(runtime: string): Metric -> bool
  {
    (m: Metric) => m.runtime == runtime
  }

  /** A normalised record is in a runtime bucket exactly when its row ran on that runtime. */
  lemma {:induction false} NormalizedRuntimeCounts(ms: seq<Metric>)
    ensures Count(NormalizeAll(ms), OnDocker) == Count(ms, RunsOn("docker"))
    ensures Count(NormalizeAll(ms), OnGvisor) == Count(ms, RunsOn("gvisor"))
  {
    if ms != [] {
      assert NormalizeAll(ms)[1..] == NormalizeAll(ms[1..]);
      NormalizedRuntimeCounts(ms[1..]);
    }
  }

  /** One timing of every metric row, in order. */
  function MetricTimings(ms: seq<Metric>, f: TimingField): (ts: seq<real>)
    ensures |ts| == |ms| && forall i :: 0 <= i < |ms| ==> ts[i] == MetricTiming(ms[i], f)
  {
    if ms == [] then [] else [MetricTiming(ms[0], f)] + MetricTimings(ms[1..], f)
  }

  /** Normalised records carry every timing, so none is excluded from avg/min/max. */
  lemma {:induction false} NormalizedTimings(ms: seq<Metric>, f: TimingField)
    ensures Present(NormalizeAll(ms), f) == MetricTimings(ms, f)
  {
    if ms != [] {
      var es := NormalizeAll(ms);
      assert es[1..] == NormalizeAll(ms[1..]);
      NormalizedTimings(ms[1..], f);
    }
  }

  /** The metrics page's summary of the backend's rows: the success rate is the
      share of rows with status "success", and the warm tally counts the rows
      that were not cold starts, the cold tally the others. */
  lemma NormalizedStats(ms: seq<Metric>)
    requires ms != []
    ensures var s := CalculateFunctionStats(NormalizeAll(ms));
            && s.successRate == SuccessRate(Count(ms, ReportsSuccess), |ms|)
            && s.warmVsCold == WarmVsCold(Count(ms, StartedWarm), |ms| - Count(ms, StartedWarm))
            && s.runtimeDistribution == RuntimeDistribution(Count(ms, RunsOn("docker")), Count(ms, RunsOn("gvisor")))
  {
    var es := NormalizeAll(ms);
    NormalizedSuccessCount(ms);
    NormalizedWarmCount(ms);
    NormalizedRuntimeCounts(ms);
    SuccessRateMeaning(es);
  }

  /** On the metrics page each timing's min and max bound every row's value. */
  lemma NormalizedTimingBounds(ms: seq<Metric>, f: TimingField)
    ensures var t := Timing(CalculateFunctionStats(NormalizeAll(ms)), f);
            forall i :: 0 <= i < |ms| ==> t.min <= MetricTiming(ms[i], f) <= t.max
  {
    var es := NormalizeAll(ms);
    NormalizedTimings(ms, f);
    TimingIsSummary(es, f);
  }
}
