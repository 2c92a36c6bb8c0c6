/**
 * The small stateful helpers beside the engine: the queue of pending
 * queries with its batch dispatcher, the preload map, the performance
 * monitor and the strategy registry.
 */
module Optimizer {
  import opened Wrappers
  import opened Errors
  import opened Strings

  /* ---------------- pending queries ---------------- */

  /** A callback is known only by its identity; invoking it is recorded as a Delivery. */
  type CallbackId = nat

  datatype PendingQuery = PendingQuery(key: string, callback: CallbackId)

  /** One invocation callback(value, err). */
  datatype Delivery = Delivery(callback: CallbackId, value: string, err: Option<Error>)

  /** The keys of the pending queries, in arrival order, duplicates kept. */
  function Keys(qs: seq<PendingQuery>): (ks: seq<string>)
    ensures |ks| == |qs| && forall i :: 0 <= i < |qs| ==> ks[i] == qs[i].key
  {
    if |qs| == 0 then [] else Keys(qs[..|qs| - 1]) + [qs[|qs| - 1].key]
  }

  /**
   * The callbacks' invocations, in order: all get the batch error, or each
   * gets its key's result, "" for a key the results lack.
   */
  function Deliver(qs: seq<PendingQuery>, res: Result<map<string, string>, Error>): (ds: seq<Delivery>)
    ensures |ds| == |qs|
    ensures forall i :: 0 <= i < |qs| ==> ds[i].callback == qs[i].callback
    ensures res.Failure? ==> forall i :: 0 <= i < |qs| ==> ds[i].value == "" && ds[i].err == Some(res.error)
    ensures res.Success? ==> forall i :: 0 <= i < |qs| ==>
      ds[i].err == None && ds[i].value == (if qs[i].key in res.value then res.value[qs[i].key] else "")
  {
    if |qs| == 0 then []
    else
      var q := qs[|qs| - 1];
      Deliver(qs[..|qs| - 1], res)
      + [if res.Failure? then Delivery(q.callback, "", Some(res.error))
         else Delivery(q.callback, if q.key in res.value then res.value[q.key] else "", None)]
  }

  class BatchQueryOptimizer {
    var pendingQueries: map<string, seq<PendingQuery>>

    constructor ()
      ensures pendingQueries == map[]
    {
      pendingQueries := map[];
    }

    function Pending(queryKey: string): seq<PendingQuery>
      reads this
    {
      if queryKey in pendingQueries then pendingQueries[queryKey] else []
    }

    /** AddQuery: appends to one queue, keeping arrival order; other queues are untouched. */
    method AddQuery(queryKey: string, key: string, callback: CallbackId)
      modifies this
      ensures pendingQueries == old(pendingQueries)[queryKey := old(Pending(queryKey)) + [PendingQuery(key, callback)]]
    {
      var qs := if queryKey in pendingQueries then pendingQueries[queryKey] else [];
      pendingQueries := pendingQueries[queryKey := qs + [PendingQuery(key, callback)]];
    }

    /**
     * ExecuteBatch: takes one queue away; when it was non-empty the batch
     * query is asked once for its keys and every callback is invoked.
     * `asked` is the key list the batch query received, if it was called.
     */
    method ExecuteBatch(queryKey: string, batchQuery: seq<string> -> Result<map<string, string>, Error>)
      returns (asked: Option<seq<string>>, deliveries: seq<Delivery>)
      modifies this
      ensures pendingQueries == old(pendingQueries) - {queryKey}
      ensures old(Pending(queryKey)) == [] ==> asked == None && deliveries == []
      ensures old(Pending(queryKey)) != [] ==>
        asked == Some(Keys(old(Pending(queryKey))))
        && deliveries == Deliver(old(Pending(queryKey)), batchQuery(Keys(old(Pending(queryKey)))))
    {
      var queries := Pending(queryKey);
      pendingQueries := pendingQueries - {queryKey};
      if |queries| == 0 {
        return None, [];
      }
      var keys: seq<string> := [];
      for i := 0 to |queries|
        invariant keys == Keys(queries[..i])
      {
        assert queries[..i + 1][..i] == queries[..i];
        keys := keys + [queries[i].key];
      }
      assert queries[..|queries|] == queries;
      var results := batchQuery(keys);
      asked := Some(keys);
      deliveries := [];
      for i := 0 to |queries|
        invariant deliveries == Deliver(queries[..i], results)
      {
        assert queries[..i + 1][..i] == queries[..i];
        if results.Failure? {
          deliveries := deliveries + [Delivery(queries[i].callback, "", Some(results.error))];
        } else if queries[i].key in results.value {
          deliveries := deliveries + [Delivery(queries[i].callback, results.value[queries[i].key], None)];
        } else {
          deliveries := deliveries + [Delivery(queries[i].callback, "", None)];
        }
      }
    }
  }

  /* ---------------- preloading ---------------- */

  class PreloadManager {
    var preloaded: map<string, Table>

    constructor ()
      ensures preloaded == map[]
    {
      preloaded := map[];
    }

    /** Preload: a failing loader changes nothing; otherwise the type's table is replaced. */
    method Preload(dictType: string, loader: () -> Result<Table, Error>) returns (err: Option<Error>)
      modifies this
      ensures loader().Failure? ==> err == Some(loader().error) && preloaded == old(preloaded)
      ensures loader().Success? ==> err == None && preloaded == old(preloaded)[dictType := loader().value]
      ensures loader().Success? ==>
        (forall key :: Get(dictType, key) == (if key in loader().value then (loader().value[key], true) else ("", false)))
    {
      var data := loader();
      if data.Failure? {
        return Some(data.error);
      }
      preloaded := preloaded[dictType := data.value];
      return None;
    }

    /** Get: found only when both the type and the key are present. */
    function Get(dictType: string, key: string): (r: (string, bool))
      reads this
      ensures r.1 <==> dictType in preloaded && key in preloaded[dictType]
      ensures r.1 ==> r.0 == preloaded[dictType][key]
      ensures !r.1 ==> r.0 == ""
    {
      Lookup(preloaded, dictType, key)
    }

    method Clear()
      modifies this
      ensures preloaded == map[]
    {
      preloaded := map[];
    }
  }

  /** The preloaded value of a key of a dictionary type, with whether it was found. */
  function Lookup(preloaded: map<string, Table>, dictType: string, key: string): (r: (string, bool))
    ensures r.1 <==> dictType in preloaded && key in preloaded[dictType]
    ensures r.1 ==> r.0 == preloaded[dictType][key]
    ensures !r.1 ==> r.0 == ""
  {
    if dictType in preloaded && key in preloaded[dictType] then (preloaded[dictType][key], true)
    else ("", false)
  }

  /**
   * A table preloaded and then read back gives its entries: each of its keys
   * with its value, every other key as not found; other types are unaffected.
   */
  lemma PreloadThenGet(preloaded: map<string, Table>, dictType: string, data: Table, key: string, other: string)
    requires other != dictType
    ensures Lookup(preloaded[dictType := data], dictType, key)
         == (if key in data then (data[key], true) else ("", false))
    ensures Lookup(preloaded[dictType := data], other, key) == Lookup(preloaded, other, key)
  {
  }

  /* ---------------- performance metrics ---------------- */

  datatype Metric = Metric(count: int, totalTime: int, minTime: int, maxTime: int, errorCount: int)

  /** What every recorded metric satisfies. */
  predicate MetricValid(m: Metric) {
    && m.count >= 1
    && m.minTime <= m.maxTime
    && 0 <= m.errorCount <= m.count
    && m.count * m.minTime <= m.totalTime <= m.count * m.maxTime
  }

  /** The metric a first record of an operation starts from. */
  function FreshMetric(duration: int): Metric {
    Metric(0, 0, duration, duration, 0)
  }

  /**
   * One Record on an operation's metric: the first record of an operation
   * yields a valid metric, and every further record keeps it valid.
   */
  function RecordOne(m: Metric, duration: int, failed: bool): (r: Metric)
    ensures MetricValid(m) || m == FreshMetric(duration) ==> MetricValid(r)
    ensures r.count == m.count + 1 && r.totalTime == m.totalTime + duration
    ensures r.minTime == (if duration < m.minTime then duration else m.minTime)
    ensures r.maxTime == (if duration > m.maxTime then duration else m.maxTime)
    ensures r.errorCount == m.errorCount + (if failed then 1 else 0)
  {
    var r := Metric(
      m.count + 1,
      m.totalTime + duration,
      if duration < m.minTime then duration else m.minTime,
      if duration > m.maxTime then duration else m.maxTime,
      m.errorCount + (if failed then 1 else 0));
    ExtendKeepsValid(m, r, duration);
    r
  }

  lemma MulMono(c: int, a: int, b: int)
    requires c >= 0 && a <= b
    ensures c * a <= c * b
  {
  }

  /**
   * Adding one duration to a metric, with min and max extended to cover it
   * and at most one more error, keeps the metric valid; a fresh metric
   * becomes valid.
   */
  lemma ExtendKeepsValid(m: Metric, r: Metric, duration: int)
    requires r.count == m.count + 1 && r.totalTime == m.totalTime + duration
    requires r.minTime == (if duration < m.minTime then duration else m.minTime)
    requires r.maxTime == (if duration > m.maxTime then duration else m.maxTime)
    requires m.errorCount <= r.errorCount <= m.errorCount + 1
    ensures MetricValid(m) || m == FreshMetric(duration) ==> MetricValid(r)
  {
    if m == FreshMetric(duration) {
      assert r.count == 1 && r.totalTime == duration && r.minTime == duration && r.maxTime == duration;
    } else if MetricValid(m) {
      MulMono(m.count, r.minTime, m.minTime);
      MulMono(m.count, m.maxTime, r.maxTime);
      assert r.count * r.minTime == m.count * r.minTime + r.minTime;
      assert r.count * r.maxTime == m.count * r.maxTime + r.maxTime;
    }
  }

  /** Go's integer division, which truncates toward zero. */
  function TruncDiv(a: int, b: int): (q: int)
    requires b != 0
    ensures b > 0 && a >= 0 ==> q == a / b
    ensures b > 0 && a < 0 ==> q == -((-a) / b)
  {
    var n := (if a < 0 then -a else a) / (if b < 0 then -b else b);
    if (a < 0) != (b < 0) then -n else n
  }

  /** GetAverageTime: the truncated mean, 0 for a metric with no records. */
  function AverageTime(m: Metric): int {
    if m.count == 0 then 0 else TruncDiv(m.totalTime, m.count)
  }

  /** Floor division by a positive divisor keeps bounds that hold for the dividend. */
  lemma DivWithin(t: int, c: int, lo: int, hi: int)
    requires c >= 1 && c * lo <= t <= c * hi
    ensures lo <= t / c <= hi
  {
    var q := t / c;
    assert t == c * q + t % c && 0 <= t % c < c;
    assert c * (q + 1) == c * q + c;
    assert c * (hi + 1) == c * hi + c;
    MulMonoIf(c, q + 1, lo);
    MulMonoIf(c, hi + 1, q);
  }

  /** Multiplying by a non-negative factor keeps the order, stated for any pair. */
  lemma MulMonoIf(c: int, a: int, b: int)
    requires c >= 0
    ensures a <= b ==> c * a <= c * b
  {
    if a <= b {
      MulMono(c, a, b);
    }
  }

  /** The mean of a valid metric lies between its minimum and its maximum. */
  lemma AverageWithinBounds(m: Metric)
    requires MetricValid(m)
    ensures m.minTime <= AverageTime(m) <= m.maxTime
  {
    var c, t := m.count, m.totalTime;
    if t >= 0 {
      DivWithin(t, c, m.minTime, m.maxTime);
    } else {
      assert c * (-m.maxTime) == -(c * m.maxTime) && c * (-m.minTime) == -(c * m.minTime);
      DivWithin(-t, c, -m.maxTime, -m.minTime);
    }
  }

  class PerformanceMonitor {
    var metrics: map<string, Metric>

    constructor ()
      ensures metrics == map[]
    {
      metrics := map[];
    }

    predicate Valid()
      reads this
    {
      forall op :: op in metrics ==> MetricValid(metrics[op])
    }

    /** Record: one more call of the operation, and one more error iff it failed. */
    method Record(operation: string, duration: int, failed: bool)
      requires Valid()
      modifies this
      ensures Valid()
      ensures operation !in old(metrics) ==>
        metrics == old(metrics)[operation := RecordOne(FreshMetric(duration), duration, failed)]
      ensures operation in old(metrics) ==>
        metrics == old(metrics)[operation := RecordOne(old(metrics)[operation], duration, failed)]
    {
      var m := if operation in metrics then metrics[operation] else FreshMetric(duration);
      metrics := metrics[operation := RecordOne(m, duration, failed)];
    }

    /** GetMetrics: a copy of every metric, entry by entry. */
    method GetMetrics() returns (result: map<string, Metric>)
      ensures result == metrics
    {
      result := map[];
      var todo := metrics.Keys;
      while todo != {}
        invariant todo <= metrics.Keys
        invariant result.Keys == metrics.Keys - todo
        invariant forall k :: k in result ==> result[k] == metrics[k]
        decreases |todo|
      {
        var k :| k in todo;
        result := result[k := metrics[k]];
        todo := todo - {k};
      }
    }
  }

  /* ---------------- strategies ---------------- */

  /** A strategy is known by its name and its identity. */
  datatype Strategy = Strategy(name: string, id: nat)

  /** DefaultTranslateStrategy, whose name is "default". */
  const DefaultTranslateStrategy := Strategy("default", 0)

  class StrategyManager {
    var strategies: map<string, Strategy>
    var defaultStrategy: Option<Strategy>

    constructor ()
      ensures strategies == map[] && defaultStrategy == None
    {
      strategies := map[];
      defaultStrategy := None;
    }

    /** RegisterStrategy: stored under its own name, replacing an earlier one. */
    method RegisterStrategy(s: Strategy)
      modifies this
      ensures strategies == old(strategies)[s.name := s] && defaultStrategy == old(defaultStrategy)
      ensures GetStrategy(s.name) == Some(s)
    {
      strategies := strategies[s.name := s];
    }

    method SetDefaultStrategy(s: Option<Strategy>)
      modifies this
      ensures defaultStrategy == s && strategies == old(strategies)
    {
      defaultStrategy := s;
    }

    /** GetStrategy: the strategy of that name, or else the default, which may be absent. */
    function GetStrategy(name: string): (r: Option<Strategy>)
      reads this
      ensures name in strategies ==> r == Some(strategies[name])
      ensures name !in strategies ==> r == defaultStrategy
    {
      Select(strategies, defaultStrategy, name)
    }
  }

  /** The strategy registered under a name, or else the default, which may be absent. */
  function Select(strategies: map<string, Strategy>, default: Option<Strategy>, name: string): (r: Option<Strategy>)
    ensures name in strategies ==> r == Some(strategies[name])
    ensures name !in strategies ==> r == default
  {
    if name in strategies then Some(strategies[name]) else default
  }

  /**
   * A registered strategy is found by its name, whatever the default; other
   * names resolve as before.
   */
  lemma RegisteredStrategyFound(strategies: map<string, Strategy>, default: Option<Strategy>, s: Strategy, name: string)
    ensures Select(strategies[s.name := s], default, s.name) == Some(s)
    ensures name != s.name ==> Select(strategies[s.name := s], default, name) == Select(strategies, default, name)
  {
  }
}
