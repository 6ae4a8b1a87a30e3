/**
  Turning mapped observations into metrics, all or nothing, with cached descriptors, while
  other collectors use the same cache.
 */
module Emitter {
  import opened Wrappers
  import opened Observations
  import opened Contract
  import opened DescKey
  import opened DescCache

  datatype ValueType = CounterValue | GaugeValue | UntypedValue

  /** A constant metric; `desc` is the position of its descriptor among those created. */
  datatype Metric = Metric(desc: nat, valueType: ValueType, value: real, labelVals: seq<string>)

  /** Whether `prometheus.NewConstMetric` accepts the label values. */
  type Validator = (Desc, seq<string>) -> bool

  function ValueTypeOf(t: MetricType): ValueType {
    match t
    case Counter => CounterValue
    case Gauge => GaugeValue
    case Untyped => UntypedValue
  }

  // ------------------------------------------------------------------------- stores

  /** The cache and the list of descriptors are inverses of one another. */
  ghost predicate Consistent(s: Store) {
    && (forall k :: k in s.cache ==> s.cache[k] < |s.created| && DescKeyOf(s.created[s.cache[k]]) == k)
    && (forall i :: 0 <= i < |s.created| ==> DescKeyOf(s.created[i]) in s.cache && s.cache[DescKeyOf(s.created[i])] == i)
  }

  /** What is cached stays cached, and descriptors are never replaced. */
  ghost predicate Grown(a: Store, b: Store) {
    (forall k :: k in a.cache ==> k in b.cache && b.cache[k] == a.cache[k]) && a.created <= b.created
  }

  lemma ServeKeeps(s: Store, def: MetricDef)
    requires Consistent(s)
    ensures Consistent(Serve(s, def)) && Grown(s, Serve(s, def))
  {
  }

  /** The store after calls with these definitions. */
  function ServeAll(s: Store, defs: seq<MetricDef>): Store {
    if defs == [] then s else Serve(ServeAll(s, defs[..|defs| - 1]), defs[|defs| - 1])
  }

  lemma ServeAllSnoc(s: Store, defs: seq<MetricDef>, def: MetricDef)
    ensures ServeAll(s, defs + [def]) == Serve(ServeAll(s, defs), def)
  {
    assert (defs + [def])[..|defs|] == defs;
  }

  lemma {:induction false} ServeAllConcat(s: Store, a: seq<MetricDef>, b: seq<MetricDef>)
    ensures ServeAll(s, a + b) == ServeAll(ServeAll(s, a), b)
    decreases |b|
  {
    if b == [] {
      assert a + b == a;
    } else {
      assert (a + b)[..|a + b| - 1] == a + b[..|b| - 1];
      ServeAllConcat(s, a, b[..|b| - 1]);
    }
  }

  lemma {:induction false} ServeAllKeeps(s: Store, defs: seq<MetricDef>)
    requires Consistent(s)
    ensures Consistent(ServeAll(s, defs)) && Grown(s, ServeAll(s, defs))
    decreases |defs|
  {
    if defs != [] {
      ServeAllKeeps(s, defs[..|defs| - 1]);
      ServeKeeps(ServeAll(s, defs[..|defs| - 1]), defs[|defs| - 1]);
    }
  }

  // ------------------------------------------------------------------------ metrics

  /** The metric of an observation, once its descriptor is cached. */
  ghost predicate IsMetricOf(s: Store, m: Metric, o: MappedObservation) {
    && KeyOf(o.def) in s.cache
    && m == Metric(s.cache[KeyOf(o.def)], m.valueType, o.value, o.labelVals)
    && IsValueOf(m.valueType, o.def.metricType)
  }

  /** Counters are emitted as counters, gauges as gauges, and only the others untyped. */
  predicate IsValueOf(v: ValueType, t: MetricType) {
    && (v == CounterValue <==> t == Counter)
    && (v == GaugeValue <==> t == Gauge)
  }

  ghost predicate Accepted(s: Store, valid: Validator, o: MappedObservation) {
    && KeyOf(o.def) in s.cache
    && s.cache[KeyOf(o.def)] < |s.created|
    && valid(s.created[s.cache[KeyOf(o.def)]], o.labelVals)
  }

  /** The metrics of these observations, all of them accepted. */
  ghost predicate Emitted(s: Store, valid: Validator, metrics: seq<Metric>, mapped: seq<MappedObservation>) {
    && |metrics| == |mapped|
    && forall i :: 0 <= i < |mapped| ==> IsMetricOf(s, metrics[i], mapped[i]) && Accepted(s, valid, mapped[i])
  }

  lemma StaysEmitted(a: Store, b: Store, valid: Validator, metrics: seq<Metric>, mapped: seq<MappedObservation>)
    requires Grown(a, b) && Emitted(a, valid, metrics, mapped)
    ensures Emitted(b, valid, metrics, mapped)
  {
    forall i | 0 <= i < |mapped|
      ensures IsMetricOf(b, metrics[i], mapped[i]) && Accepted(b, valid, mapped[i])
    {
      assert IsMetricOf(a, metrics[i], mapped[i]) && Accepted(a, valid, mapped[i]);
    }
  }

  lemma EmittedSnoc(s: Store, valid: Validator, metrics: seq<Metric>, mapped: seq<MappedObservation>, n: nat, m: Metric)
    requires n < |mapped| && Emitted(s, valid, metrics, mapped[..n])
    requires IsMetricOf(s, m, mapped[n]) && Accepted(s, valid, mapped[n])
    ensures Emitted(s, valid, metrics + [m], mapped[..n + 1])
  {
    forall i | 0 <= i < n + 1
      ensures IsMetricOf(s, (metrics + [m])[i], mapped[..n + 1][i]) && Accepted(s, valid, mapped[..n + 1][i])
    {
      if i < n {
        assert mapped[..n][i] == mapped[i];
      }
    }
  }

  /** One more metric, with the descriptor of its observation. */
  lemma OneMoreMetric(s: Store, valid: Validator, metrics: seq<Metric>, mapped: seq<MappedObservation>, n: nat, desc: nat)
    requires n < |mapped| && Emitted(s, valid, metrics, mapped[..n])
    requires KeyOf(mapped[n].def) in s.cache && desc == s.cache[KeyOf(mapped[n].def)] && desc < |s.created|
    requires valid(s.created[desc], mapped[n].labelVals)
    ensures var o := mapped[n];
            Emitted(s, valid, metrics + [Metric(desc, ValueTypeOf(o.def.metricType), o.value, o.labelVals)], mapped[..n + 1])
  {
    var o := mapped[n];
    EmittedSnoc(s, valid, metrics, mapped, n, Metric(desc, ValueTypeOf(o.def.metricType), o.value, o.labelVals));
  }

  /** Observation `i` is the first that cannot form a series. */
  ghost predicate FirstRejected(s: Store, valid: Validator, mapped: seq<MappedObservation>, i: nat) {
    && i < |mapped|
    && KeyOf(mapped[i].def) in s.cache
    && !Accepted(s, valid, mapped[i])
    && forall j :: 0 <= j < i ==> Accepted(s, valid, mapped[j])
  }

  lemma RejectedIsFirst(s: Store, valid: Validator, metrics: seq<Metric>, mapped: seq<MappedObservation>, n: nat)
    requires n < |mapped| && Emitted(s, valid, metrics, mapped[..n])
    requires KeyOf(mapped[n].def) in s.cache && !Accepted(s, valid, mapped[n])
    ensures FirstRejected(s, valid, mapped, n)
  {
    forall j | 0 <= j < n
      ensures Accepted(s, valid, mapped[j])
    {
      assert mapped[..n][j] == mapped[j];
    }
  }

  // -------------------------------------------------------------------- interference

  /** The calls during the first `n` turns: before each observation those of other collectors. */
  function CallsUpTo(mapped: seq<MappedObservation>, others: seq<seq<MetricDef>>, n: nat): seq<MetricDef>
    requires n <= |mapped| && |mapped| == |others|
  {
    if n == 0 then [] else CallsUpTo(mapped, others, n - 1) + others[n - 1] + [mapped[n - 1].def]
  }

  lemma TurnEnds(start: Store, mapped: seq<MappedObservation>, others: seq<seq<MetricDef>>, n: nat)
    requires n < |mapped| && |mapped| == |others|
    ensures ServeAll(start, CallsUpTo(mapped, others, n + 1))
         == ServeAll(ServeAll(start, CallsUpTo(mapped, others, n)), others[n] + [mapped[n].def])
  {
    assert CallsUpTo(mapped, others, n + 1) == CallsUpTo(mapped, others, n) + (others[n] + [mapped[n].def]);
    ServeAllConcat(start, CallsUpTo(mapped, others, n), others[n] + [mapped[n].def]);
  }

  /** The run that began with `start` stopped in turn `i`, on the first observation that is rejected. */
  ghost predicate StoppedAt(start: Store, s: Store, valid: Validator, mapped: seq<MappedObservation>, others: seq<seq<MetricDef>>, i: nat)
    requires |mapped| == |others|
  {
    FirstRejected(s, valid, mapped, i) && s == ServeAll(start, CallsUpTo(mapped, others, i + 1))
  }

  class Descriptors {
    var cache: map<string, nat>
    var created: seq<Desc>

    function View(): Store
      reads this
    {
      Store(cache, created)
    }

    constructor ()
      ensures View() == EMPTY_STORE
    {
      cache, created := map[], [];
    }

    /** One call, as the concurrent ones can be taken to happen. */
    method GetDesc(def: MetricDef) returns (desc: nat)
      modifies this
      ensures View() == Serve(old(View()), def)
      ensures desc == Answer(old(View()), def)
    {
      var key := KeyOf(def);
      if key in cache {
        return cache[key];
      }
      desc := |created|;
      created := created + [NewDesc(def)];
      cache := cache[key := desc];
    }

    /** Calls by other collectors. */
    method OtherCalls(defs: seq<MetricDef>)
      modifies this
      ensures View() == ServeAll(old(View()), defs)
    {
      for n := 0 to |defs|
        invariant View() == ServeAll(old(View()), defs[..n])
      {
        assert defs[..n + 1][..n] == defs[..n];
        var _ := GetDesc(defs[n]);
      }
      assert defs[..|defs|] == defs;
    }

    /** The calls of one turn, and what they leave. */
    method Turn(o: MappedObservation, others: seq<MetricDef>) returns (desc: nat)
      requires Consistent(View())
      modifies this
      ensures View() == ServeAll(old(View()), others + [o.def])
      ensures Consistent(View()) && Grown(old(View()), View())
      ensures KeyOf(o.def) in cache && desc == cache[KeyOf(o.def)]
    {
      ServeAllKeeps(View(), others + [o.def]);
      ServeAllSnoc(View(), others, o.def);
      OtherCalls(others);
      desc := GetDesc(o.def);
    }

    /**
      All or nothing, whatever other collectors add to the cache before each observation:
      either every observation becomes a metric with its descriptor, in order, or the call
      fails on the first one that cannot form a series and returns no metric.
     */
    method Emit(mapped: seq<MappedObservation>, valid: Validator, others: seq<seq<MetricDef>>) returns (r: Result<seq<Metric>, string>)
      requires Consistent(View()) && |others| == |mapped|
      modifies this
      ensures Consistent(View()) && Grown(old(View()), View())
      ensures r.Success? ==> Emitted(View(), valid, r.value, mapped)
      ensures r.Success? ==> View() == ServeAll(old(View()), CallsUpTo(mapped, others, |mapped|))
      ensures r.Failure? ==> exists i: nat :: StoppedAt(old(View()), View(), valid, mapped, others, i) && r.error == mapped[i].def.name
    {
      var metrics := [];
      ghost var start := View();
      for n := 0 to |mapped|
        invariant View() == ServeAll(start, CallsUpTo(mapped, others, n))
        invariant Consistent(View()) && Grown(start, View())
        invariant Emitted(View(), valid, metrics, mapped[..n])
      {
        ghost var before := View();
        var o := mapped[n];
        var desc := Turn(o, others[n]);
        TurnEnds(start, mapped, others, n);
        ServeAllKeeps(start, CallsUpTo(mapped, others, n + 1));
        StaysEmitted(before, View(), valid, metrics, mapped[..n]);
        if !valid(created[desc], o.labelVals) {
          RejectedIsFirst(View(), valid, metrics, mapped, n);
          assert StoppedAt(start, View(), valid, mapped, others, n);
          return Failure(o.def.name);
        }
        var metric := Metric(desc, ValueTypeOf(o.def.metricType), o.value, o.labelVals);
        OneMoreMetric(View(), valid, metrics, mapped, n, desc);
        metrics := metrics + [metric];
      }
      assert mapped[..|mapped|] == mapped;
      return Success(metrics);
    }
  }
}
