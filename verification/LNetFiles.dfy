/** The LNet statistics, counters and parameters, as observations. */
module LNetFiles {
  import opened Wrappers
  import opened GoStrings
  import opened Observations

  type ParseResult = Result<seq<Observation>, ParseError>

  /** The positional fields of the stats file: a metric ID and its type. */
  const STATS_FIELDS: seq<(string, MetricType)> := [
    ("allocated", Gauge),
    ("maximum", Gauge),
    ("errors_total", Counter),
    ("send_count_total", Counter),
    ("receive_count_total", Counter),
    ("route_count_total", Counter),
    ("drop_count_total", Counter),
    ("send_bytes_total", Counter),
    ("receive_bytes_total", Counter),
    ("route_bytes_total", Counter),
    ("drop_bytes_total", Counter)]

  const BASE_LABELS: Labels := map["component" := "lnet", "target" := "lnet"]

  function LNetObservation(source: string, metricID: string, t: MetricType, labels: Labels, value: real): Observation {
    Observation("lnet", source, metricID, t, labels, value)
  }

  function StatObservation(source: string, i: nat, value: real): Observation
    requires i < |STATS_FIELDS|
  {
    LNetObservation(source, STATS_FIELDS[i].0, STATS_FIELDS[i].1, BASE_LABELS, value)
  }

  /** The eleven statistics in order, from the values of the fields. */
  function StatsObservations(source: string, values: seq<real>): (obs: seq<Observation>)
    requires |values| <= |STATS_FIELDS|
    ensures |obs| == |values| && forall i :: 0 <= i < |obs| ==> obs[i] == StatObservation(source, i, values[i])
  {
    seq(|values|, i requires 0 <= i < |values| => StatObservation(source, i, values[i]))
  }

  /** All fields as numbers, or the first that is none. */
  function Numbers(pf: NumberParser, fields: seq<string>): (r: Result<seq<real>, ParseError>)
    ensures r.Success? ==> |r.value| == |fields|
  {
    if fields == [] then Success([])
    else
      match Numbers(pf, fields[..|fields| - 1])
      case Failure(e) => Failure(e)
      case Success(front) =>
        match pf(fields[|fields| - 1])
        case None => Failure(BadNumber("lnet stats", fields[|fields| - 1]))
        case Some(v) => Success(front + [v])
  }

  function ParseStats(pf: NumberParser, data: string, source: string): ParseResult {
    var line := TrimSpace(data);
    var fields := Fields(line);
    if line == "" then Success([])
    else if |fields| != |STATS_FIELDS| then Failure(TooFewFields("lnet stats", |fields|))
    else
      match Numbers(pf, fields)
      case Failure(e) => Failure(e)
      case Success(values) => Success(StatsObservations(source, values))
  }

  lemma {:induction false} NumbersFail(pf: NumberParser, fields: seq<string>, n: nat)
    requires n < |fields| && Numbers(pf, fields[..n]).Success? && pf(fields[n]).None?
    ensures Numbers(pf, fields) == Failure(BadNumber("lnet stats", fields[n]))
    decreases |fields|
  {
    if n + 1 < |fields| {
      assert fields[..|fields| - 1][..n] == fields[..n];
      NumbersFail(pf, fields[..|fields| - 1], n);
    }
  }

  method ParseLNetStats(pf: NumberParser, data: string, source: string) returns (r: ParseResult)
    ensures r == ParseStats(pf, data, source)
  {
    var line := TrimSpace(data);
    if line == "" {
      return Success([]);
    }
    var fields := Fields(line);
    if |fields| != |STATS_FIELDS| {
      return Failure(TooFewFields("lnet stats", |fields|));
    }
    var observations := [];
    for i := 0 to |fields|
      invariant Numbers(pf, fields[..i]).Success?
      invariant observations == StatsObservations(source, Numbers(pf, fields[..i]).value)
    {
      assert fields[..i + 1][..i] == fields[..i];
      var v := pf(fields[i]);
      if v.None? {
        NumbersFail(pf, fields, i);
        return Failure(BadNumber("lnet stats", fields[i]));
      }
      observations := observations + [StatObservation(source, i, v.value)];
    }
    assert fields[..|fields|] == fields;
    return Success(observations);
  }

  // ------------------------------------------------------------------ parameters

  function ParamMetric(name: string): Option<(string, MetricType)> {
    match name
    case "console_backoff" => Some(("console_backoff_enabled", Gauge))
    case "console_max_delay_centisecs" => Some(("console_max_delay_centiseconds", Gauge))
    case "console_min_delay_centisecs" => Some(("console_min_delay_centiseconds", Gauge))
    case "console_ratelimit" => Some(("console_ratelimit_enabled", Gauge))
    case "debug_mb" => Some(("debug_megabytes", Gauge))
    case "panic_on_lbug" => Some(("panic_on_lbug_enabled", Gauge))
    case "watchdog_ratelimit" => Some(("watchdog_ratelimit_enabled", Gauge))
    case "catastrophe" => Some(("catastrophe_enabled", Gauge))
    case "lnet_memused" => Some(("lnet_memory_used_bytes", Gauge))
    case "fail_err" => Some(("fail_error_total", Counter))
    case "fail_val" => Some(("fail_maximum", Gauge))
    case "fail_max" => Some(("fail_maximum", Gauge))
    case _ => None
  }

  function ParseParam(pf: NumberParser, data: string, source: string, name: string): ParseResult {
    match ParamMetric(name)
    case None => Success([])
    case Some(metric) =>
      match pf(TrimSpace(data))
      case None => Failure(BadNumber(name, TrimSpace(data)))
      case Some(v) => Success([LNetObservation(source, metric.0, metric.1, BASE_LABELS, v)])
  }

  // ----------------------------------------------------- lnetctl, already decoded

  /** The statistics of `lnetctl stats show`. */
  datatype CtlStats = CtlStats(
    msgsAlloc: real, msgsMax: real, errors: real,
    sendCount: real, recvCount: real, routeCount: real, dropCount: real,
    sendLength: real, recvLength: real, routeLength: real, dropLength: real)

  function CtlObservations(source: string, s: CtlStats): seq<Observation> {
    [LNetObservation(source, "allocated", Gauge, BASE_LABELS, s.msgsAlloc),
     LNetObservation(source, "maximum", Gauge, BASE_LABELS, s.msgsMax),
     LNetObservation(source, "errors_total", Counter, BASE_LABELS, s.errors),
     LNetObservation(source, "send_count_total", Counter, BASE_LABELS, s.sendCount),
     LNetObservation(source, "receive_count_total", Counter, BASE_LABELS, s.recvCount),
     LNetObservation(source, "route_count_total", Counter, BASE_LABELS, s.routeCount),
     LNetObservation(source, "drop_count_total", Counter, BASE_LABELS, s.dropCount),
     LNetObservation(source, "send_bytes_total", Counter, BASE_LABELS, s.sendLength),
     LNetObservation(source, "receive_bytes_total", Counter, BASE_LABELS, s.recvLength),
     LNetObservation(source, "route_bytes_total", Counter, BASE_LABELS, s.routeLength),
     LNetObservation(source, "drop_bytes_total", Counter, BASE_LABELS, s.dropLength)]
  }

  /** The numbers of `lnetctl stats show` in the order of the stats file. */
  function CtlValues(s: CtlStats): seq<real> {
    [s.msgsAlloc, s.msgsMax, s.errors, s.sendCount, s.recvCount, s.routeCount,
     s.dropCount, s.sendLength, s.recvLength, s.routeLength, s.dropLength]
  }

  lemma CtlAgreesWithFile(source: string, s: CtlStats)
    ensures CtlObservations(source, s) == StatsObservations(source, CtlValues(s))
  {
  }

  /** The counters of one local interface of `lnetctl net show`. */
  datatype NiCounts = NiCounts(nid: string, send: real, receive: real, drop: real)

  datatype HealthStats = HealthStats(
    health: real, interrupts: real, dropped: real, aborted: real, noRoute: real, timeouts: real, error: real)

  datatype NiHealth = NiHealth(nid: string, status: string, health: Option<HealthStats>)

  function NidLabels(nid: string): Labels {
    BASE_LABELS["nid" := nid]
  }

  function CountsOf(source: string, ni: NiCounts): seq<Observation> {
    if ni.nid == "" then []
    else
      [LNetObservation(source, "send_count_by_nid_total", Counter, NidLabels(ni.nid), ni.send),
       LNetObservation(source, "receive_count_by_nid_total", Counter, NidLabels(ni.nid), ni.receive),
       LNetObservation(source, "drop_count_by_nid_total", Counter, NidLabels(ni.nid), ni.drop)]
  }

  function UpOf(source: string, ni: NiHealth): seq<Observation> {
    if ni.status == "" then []
    else
      [LNetObservation(source, "lnet_ni_up", Gauge, NidLabels(ni.nid),
                       if ni.status == "up" || ni.status == "UP" then 1.0 else 0.0)]
  }

  /** The health series, in order. */
  const HEALTH_IDS := [
    "lnet_ni_health", "lnet_ni_health_interrupts_total", "lnet_ni_health_dropped_total", "lnet_ni_health_aborted_total",
    "lnet_ni_health_no_route_total", "lnet_ni_health_timeouts_total", "lnet_ni_health_errors_total"]

  function HealthValues(h: HealthStats): seq<real> {
    [h.health, h.interrupts, h.dropped, h.aborted, h.noRoute, h.timeouts, h.error]
  }

  function HealthOf(source: string, nid: string, h: HealthStats): (obs: seq<Observation>)
    ensures |obs| == |HEALTH_IDS|
    ensures forall i :: 0 <= i < |obs| ==> obs[i] == LNetObservation(source, HEALTH_IDS[i], if i == 0 then Gauge else Counter, NidLabels(nid), HealthValues(h)[i])
  {
    seq(|HEALTH_IDS|, i requires 0 <= i < |HEALTH_IDS| =>
      LNetObservation(source, HEALTH_IDS[i], if i == 0 then Gauge else Counter, NidLabels(nid), HealthValues(h)[i]))
  }

  function NiObservations(source: string, ni: NiHealth): seq<Observation> {
    if ni.nid == "" then []
    else UpOf(source, ni) + if ni.health.Some? then HealthOf(source, ni.nid, ni.health.value) else []
  }

  /** What `f` makes of every element, one after the other. */
  function Each<T>(f: T -> seq<Observation>, xs: seq<T>): seq<Observation> {
    if xs == [] then [] else Each(f, xs[..|xs| - 1]) + f(xs[|xs| - 1])
  }

  lemma EachSnoc<T>(f: T -> seq<Observation>, xs: seq<T>, x: T)
    ensures Each(f, xs + [x]) == Each(f, xs) + f(x)
  {
    assert (xs + [x])[..|xs|] == xs;
  }

  lemma {:induction false} EachConcat<T>(f: T -> seq<Observation>, a: seq<T>, b: seq<T>)
    ensures Each(f, a + b) == Each(f, a) + Each(f, b)
    decreases |b|
  {
    if b == [] {
      assert a + b == a;
    } else {
      assert (a + b)[..|a + b| - 1] == a + b[..|b| - 1];
      EachConcat(f, a, b[..|b| - 1]);
    }
  }

  /** The elements that satisfy `p`, in order. */
  function Filter<T>(p: T -> bool, xs: seq<T>): seq<T> {
    if xs == [] then []
    else Filter(p, xs[..|xs| - 1]) + if p(xs[|xs| - 1]) then [xs[|xs| - 1]] else []
  }

  lemma {:induction false} FilterConcat<T>(p: T -> bool, a: seq<T>, b: seq<T>)
    ensures Filter(p, a + b) == Filter(p, a) + Filter(p, b)
    decreases |b|
  {
    if b == [] {
      assert a + b == a;
    } else {
      assert (a + b)[..|a + b| - 1] == a + b[..|b| - 1];
      FilterConcat(p, a, b[..|b| - 1]);
    }
  }

  lemma {:induction false} FilterKeeps<T>(p: T -> bool, xs: seq<T>)
    requires forall i :: 0 <= i < |xs| ==> p(xs[i])
    ensures Filter(p, xs) == xs
    decreases |xs|
  {
    if xs != [] {
      FilterKeeps(p, xs[..|xs| - 1]);
    }
  }

  lemma {:induction false} FilterDrops<T>(p: T -> bool, xs: seq<T>)
    requires forall i :: 0 <= i < |xs| ==> !p(xs[i])
    ensures Filter(p, xs) == []
    decreases |xs|
  {
    if xs != [] {
      FilterDrops(p, xs[..|xs| - 1]);
    }
  }

  lemma FilterAfter<T>(p: T -> bool, kept: seq<T>, rest: seq<T>)
    requires forall i :: 0 <= i < |kept| ==> p(kept[i])
    ensures Filter(p, kept + rest) == kept + Filter(p, rest)
  {
    FilterConcat(p, kept, rest);
    FilterKeeps(p, kept);
  }

  lemma FilterSkips<T>(p: T -> bool, dropped: seq<T>, rest: seq<T>)
    requires forall i :: 0 <= i < |dropped| ==> !p(dropped[i])
    ensures Filter(p, dropped + rest) == Filter(p, rest)
  {
    FilterConcat(p, dropped, rest);
    FilterDrops(p, dropped);
  }

  lemma {:induction false} FilterWithin<T>(p: T -> bool, xs: seq<T>)
    ensures forall x :: x in Filter(p, xs) <==> x in xs && p(x)
    decreases |xs|
  {
    if xs != [] {
      FilterWithin(p, xs[..|xs| - 1]);
      assert xs == xs[..|xs| - 1] + [xs[|xs| - 1]];
    }
  }

  /** The interfaces of all networks, in order. */
  function Flatten<T>(nets: seq<seq<T>>): seq<T> {
    if nets == [] then [] else Flatten(nets[..|nets| - 1]) + nets[|nets| - 1]
  }

  lemma FlattenSnoc<T>(nets: seq<seq<T>>, n: nat)
    requires n < |nets|
    ensures Flatten(nets[..n + 1]) == Flatten(nets[..n]) + nets[n]
  {
    assert nets[..n + 1][..n] == nets[..n];
  }

  function AllCounts(source: string, nis: seq<NiCounts>): seq<Observation> {
    Each(ni => CountsOf(source, ni), nis)
  }

  function AllHealth(source: string, nis: seq<NiHealth>): seq<Observation> {
    Each(ni => NiObservations(source, ni), nis)
  }

  method NetCounts(source: string, net: seq<NiCounts>) returns (observations: seq<Observation>)
    ensures observations == AllCounts(source, net)
  {
    ghost var f := ni => CountsOf(source, ni);
    observations := [];
    for k := 0 to |net|
      invariant observations == Each(f, net[..k])
    {
      EachSnoc(f, net[..k], net[k]);
      assert net[..k + 1] == net[..k] + [net[k]];
      if net[k].nid == "" {
        continue;
      }
      observations := observations + CountsOf(source, net[k]);
    }
    assert net[..|net|] == net;
  }

  method ParseNetCounts(source: string, nets: seq<seq<NiCounts>>) returns (observations: seq<Observation>)
    ensures observations == AllCounts(source, Flatten(nets))
  {
    observations := [];
    for n := 0 to |nets|
      invariant observations == AllCounts(source, Flatten(nets[..n]))
    {
      FlattenSnoc(nets, n);
      EachConcat(ni => CountsOf(source, ni), Flatten(nets[..n]), nets[n]);
      var obs := NetCounts(source, nets[n]);
      observations := observations + obs;
    }
    assert nets[..|nets|] == nets;
  }

  /** The up gauge and the health series of one interface, which share one label map. */
  method LNetNIObservations(source: string, ni: NiHealth) returns (observations: seq<Observation>)
    requires ni.nid != ""
    ensures observations == NiObservations(source, ni)
  {
    var labels := BASE_LABELS;
    labels := labels["nid" := ni.nid];
    observations := [];
    if ni.status != "" {
      var up := 0.0;
      if ni.status == "up" || ni.status == "UP" {
        up := 1.0;
      }
      observations := observations + [LNetObservation(source, "lnet_ni_up", Gauge, labels, up)];
    }
    if ni.health.None? {
      return;
    }
    var h := ni.health.value;
    ghost var health := HealthOf(source, ni.nid, h);
    var more := [
      LNetObservation(source, "lnet_ni_health", Gauge, labels, h.health),
      LNetObservation(source, "lnet_ni_health_interrupts_total", Counter, labels, h.interrupts),
      LNetObservation(source, "lnet_ni_health_dropped_total", Counter, labels, h.dropped),
      LNetObservation(source, "lnet_ni_health_aborted_total", Counter, labels, h.aborted),
      LNetObservation(source, "lnet_ni_health_no_route_total", Counter, labels, h.noRoute),
      LNetObservation(source, "lnet_ni_health_timeouts_total", Counter, labels, h.timeouts),
      LNetObservation(source, "lnet_ni_health_errors_total", Counter, labels, h.error)];
    assert more == health;
    return observations + more;
  }

  method NetHealth(source: string, net: seq<NiHealth>) returns (observations: seq<Observation>)
    ensures observations == AllHealth(source, net)
  {
    ghost var f := ni => NiObservations(source, ni);
    observations := [];
    for k := 0 to |net|
      invariant observations == Each(f, net[..k])
    {
      EachSnoc(f, net[..k], net[k]);
      assert net[..k + 1] == net[..k] + [net[k]];
      if net[k].nid == "" {
        continue;
      }
      var obs := LNetNIObservations(source, net[k]);
      observations := observations + obs;
    }
    assert net[..|net|] == net;
  }

  method ParseNetHealth(source: string, nets: seq<seq<NiHealth>>) returns (observations: seq<Observation>)
    ensures observations == AllHealth(source, Flatten(nets))
  {
    observations := [];
    for n := 0 to |nets|
      invariant observations == AllHealth(source, Flatten(nets[..n]))
    {
      FlattenSnoc(nets, n);
      EachConcat(ni => NiObservations(source, ni), Flatten(nets[..n]), nets[n]);
      var obs := NetHealth(source, nets[n]);
      observations := observations + obs;
    }
    assert nets[..|nets|] == nets;
  }

  // ------------------------------------------------------ what interfaces report

  function HealthField(h: HealthStats, metricID: string): Option<real> {
    match metricID
    case "lnet_ni_health" => Some(h.health)
    case "lnet_ni_health_interrupts_total" => Some(h.interrupts)
    case "lnet_ni_health_dropped_total" => Some(h.dropped)
    case "lnet_ni_health_aborted_total" => Some(h.aborted)
    case "lnet_ni_health_no_route_total" => Some(h.noRoute)
    case "lnet_ni_health_timeouts_total" => Some(h.timeouts)
    case "lnet_ni_health_errors_total" => Some(h.error)
    case _ => None
  }

  /** The value that an interface has under a metric ID: none without a name, an up gauge with a status. */
  function NiValue(ni: NiHealth, metricID: string): Option<real> {
    if ni.nid == "" then None
    else if metricID == "lnet_ni_up" then
      if ni.status == "" then None else Some(if ni.status in ["up", "UP"] then 1.0 else 0.0)
    else if ni.health.None? then None
    else HealthField(ni.health.value, metricID)
  }

  function NiObservation(source: string, nid: string, metricID: string, value: real): Observation {
    Observation("lnet", source, metricID, if metricID == "lnet_ni_up" || metricID == "lnet_ni_health" then Gauge else Counter,
                map["component" := "lnet", "target" := "lnet", "nid" := nid], value)
  }

  /** The counters of an interface: none without a name. */
  function CountValue(ni: NiCounts, metricID: string): Option<real> {
    if ni.nid == "" then None
    else if metricID == "send_count_by_nid_total" then Some(ni.send)
    else if metricID == "receive_count_by_nid_total" then Some(ni.receive)
    else if metricID == "drop_count_by_nid_total" then Some(ni.drop)
    else None
  }

  /** An interface reports exactly its three counters, each under its own metric ID and its own labels. */
  lemma CountReports(source: string, ni: NiCounts, o: Observation)
    ensures o in CountsOf(source, ni) <==>
            CountValue(ni, o.metricID) == Some(o.value) && o == NiObservation(source, ni.nid, o.metricID, o.value)
    ensures ni.nid != "" ==>
      CountsOf(source, ni) == [
        NiObservation(source, ni.nid, "send_count_by_nid_total", ni.send),
        NiObservation(source, ni.nid, "receive_count_by_nid_total", ni.receive),
        NiObservation(source, ni.nid, "drop_count_by_nid_total", ni.drop)]
  {
    if ni.nid != "" {
      var obs := CountsOf(source, ni);
      assert obs[0] == NiObservation(source, ni.nid, "send_count_by_nid_total", ni.send);
      assert obs[1] == NiObservation(source, ni.nid, "receive_count_by_nid_total", ni.receive);
      assert obs[2] == NiObservation(source, ni.nid, "drop_count_by_nid_total", ni.drop);
    }
  }

  /** The counters as a whole: exactly those of the named interfaces. */
  lemma AllCountsReport(source: string, nis: seq<NiCounts>, o: Observation)
    ensures o in AllCounts(source, nis) <==>
            exists k :: 0 <= k < |nis| && CountValue(nis[k], o.metricID) == Some(o.value) && o == NiObservation(source, nis[k].nid, o.metricID, o.value)
  {
    var f := ni => CountsOf(source, ni);
    EachHas(f, nis, o);
    forall k | 0 <= k < |nis|
      ensures o in f(nis[k]) <==> CountValue(nis[k], o.metricID) == Some(o.value) && o == NiObservation(source, nis[k].nid, o.metricID, o.value)
    {
      CountReports(source, nis[k], o);
    }
  }

  /** An observation of the node itself. */
  function NodeObservation(source: string, metricID: string, t: MetricType, value: real): Observation {
    Observation("lnet", source, metricID, t, map["component" := "lnet", "target" := "lnet"], value)
  }

  /** The eleven statistics of `lnetctl`, in their order, each with its own number. */
  lemma CtlReports(source: string, s: CtlStats)
    ensures CtlObservations(source, s) ==
      [NodeObservation(source, "allocated", Gauge, s.msgsAlloc), NodeObservation(source, "maximum", Gauge, s.msgsMax),
       NodeObservation(source, "errors_total", Counter, s.errors),
       NodeObservation(source, "send_count_total", Counter, s.sendCount), NodeObservation(source, "receive_count_total", Counter, s.recvCount),
       NodeObservation(source, "route_count_total", Counter, s.routeCount), NodeObservation(source, "drop_count_total", Counter, s.dropCount),
       NodeObservation(source, "send_bytes_total", Counter, s.sendLength), NodeObservation(source, "receive_bytes_total", Counter, s.recvLength),
       NodeObservation(source, "route_bytes_total", Counter, s.routeLength), NodeObservation(source, "drop_bytes_total", Counter, s.dropLength)]
  {
  }

  lemma HealthFieldAt(h: HealthStats, i: nat)
    requires i < |HEALTH_IDS|
    ensures HealthField(h, HEALTH_IDS[i]) == Some(HealthValues(h)[i])
    ensures HEALTH_IDS[i] != "lnet_ni_up" && (HEALTH_IDS[i] == "lnet_ni_health" <==> i == 0)
  {
  }

  lemma HealthFieldHasIndex(h: HealthStats, metricID: string) returns (i: nat)
    requires HealthField(h, metricID).Some?
    ensures i < |HEALTH_IDS| && HEALTH_IDS[i] == metricID
  {
    i := match metricID
      case "lnet_ni_health" => 0
      case "lnet_ni_health_interrupts_total" => 1
      case "lnet_ni_health_dropped_total" => 2
      case "lnet_ni_health_aborted_total" => 3
      case "lnet_ni_health_no_route_total" => 4
      case "lnet_ni_health_timeouts_total" => 5
      case _ => 6;
  }

  lemma HealthReports(source: string, nid: string, h: HealthStats, o: Observation)
    ensures o in HealthOf(source, nid, h) <==>
            HealthField(h, o.metricID) == Some(o.value) && o.metricID != "lnet_ni_up" && o == NiObservation(source, nid, o.metricID, o.value)
  {
    var obs := HealthOf(source, nid, h);
    if o in obs {
      var i :| 0 <= i < |obs| && obs[i] == o;
      HealthFieldAt(h, i);
    }
    if HealthField(h, o.metricID) == Some(o.value) && o == NiObservation(source, nid, o.metricID, o.value) {
      var i := HealthFieldHasIndex(h, o.metricID);
      HealthFieldAt(h, i);
      assert obs[i] == o;
    }
  }

  /** An interface reports exactly what it has, each value under its own metric ID and its own labels. */
  lemma NiReports(source: string, ni: NiHealth, o: Observation)
    ensures o in NiObservations(source, ni) <==>
            NiValue(ni, o.metricID) == Some(o.value) && o == NiObservation(source, ni.nid, o.metricID, o.value)
  {
    if ni.nid != "" && ni.health.Some? {
      HealthReports(source, ni.nid, ni.health.value, o);
    }
  }

  lemma {:induction false} EachHas<T>(f: T -> seq<Observation>, xs: seq<T>, o: Observation)
    ensures o in Each(f, xs) <==> exists k :: 0 <= k < |xs| && o in f(xs[k])
    decreases |xs|
  {
    if xs != [] {
      var front := xs[..|xs| - 1];
      EachHas(f, front, o);
      if k :| 0 <= k < |xs| && o in f(xs[k]) {
        assert k < |front| ==> o in f(front[k]);
      }
      if k :| 0 <= k < |front| && o in f(front[k]) {
        assert o in f(xs[k]);
      }
    }
  }

  /** Interface health as a whole: exactly the values of the named interfaces. */
  lemma AllHealthReports(source: string, nis: seq<NiHealth>, o: Observation)
    ensures o in AllHealth(source, nis) <==>
            exists k :: 0 <= k < |nis| && NiValue(nis[k], o.metricID) == Some(o.value) && o == NiObservation(source, nis[k].nid, o.metricID, o.value)
  {
    var f := ni => NiObservations(source, ni);
    EachHas(f, nis, o);
    forall k | 0 <= k < |nis|
      ensures o in f(nis[k]) <==> NiValue(nis[k], o.metricID) == Some(o.value) && o == NiObservation(source, nis[k].nid, o.metricID, o.value)
    {
      NiReports(source, nis[k], o);
    }
  }
}
