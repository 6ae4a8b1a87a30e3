/**
  The sources of an LNet collection, spelled out: which file or command is tried when,
  and what it becomes.
 */
module LNetSources {
  import opened Wrappers
  import opened GoStrings
  import opened LineMachine
  import opened Observations
  import opened Readers
  import opened Discovery
  import opened LNetFiles
  import opened LNetCollector
  import opened LNetTheorems
  import Roots = DiscoveryRoots

  // ----------------------------------------------------------------------------- paths

  function DebugPath(env: Env, file: string): string {
    env.cfg.debugFS + "/lnet/" + file
  }

  function ProcPath(env: Env, file: string): string {
    env.cfg.procFS + "/sys/lnet/" + file
  }

  lemma JoinThree(root: string, a: string, file: string, between: string)
    requires between == "/" + a + "/"
    ensures JoinPath([root, a, file]) == root + between + file
  {
    Roots.JoinFirst(root, [a, file]);
    Roots.JoinFirst(a, [file]);
    assert [root] + [a, file] == [root, a, file] && [a] + [file] == [a, file];
    Roots.Regrouped(root, "/", a, "/", file);
  }

  lemma PathsSpelled(env: Env, file: string)
    ensures JoinPath([env.cfg.debugFS, "lnet", file]) == DebugPath(env, file)
    ensures JoinPath([env.cfg.procFS, "sys", "lnet", file]) == ProcPath(env, file)
  {
    assert "/" + "lnet" + "/" == "/lnet/";
    JoinThree(env.cfg.debugFS, "lnet", file, "/lnet/");
    JoinThree("sys", "lnet", file, "/lnet/");
    Roots.JoinFirst(env.cfg.procFS, ["sys", "lnet", file]);
    assert [env.cfg.procFS] + ["sys", "lnet", file] == [env.cfg.procFS, "sys", "lnet", file];
    Roots.Regrouped(env.cfg.procFS, "/", "sys", "/lnet/", file);
    assert "/" + "sys" + "/lnet/" == "/sys/lnet/";
  }

  // ------------------------------------------------------------------------ parameters

  /** The parameters in the order in which they are read, each with its metric. */
  const PARAMS: seq<(string, string, MetricType)> := [
    ("console_backoff", "console_backoff_enabled", Gauge),
    ("console_max_delay_centisecs", "console_max_delay_centiseconds", Gauge),
    ("console_min_delay_centisecs", "console_min_delay_centiseconds", Gauge),
    ("console_ratelimit", "console_ratelimit_enabled", Gauge),
    ("debug_mb", "debug_megabytes", Gauge),
    ("panic_on_lbug", "panic_on_lbug_enabled", Gauge),
    ("watchdog_ratelimit", "watchdog_ratelimit_enabled", Gauge),
    ("catastrophe", "catastrophe_enabled", Gauge),
    ("lnet_memused", "lnet_memory_used_bytes", Gauge),
    ("fail_err", "fail_error_total", Counter),
    ("fail_val", "fail_maximum", Gauge)]

  /** Where a parameter is looked for: debugfs before procfs, and `fail_max` where there is no `fail_val`. */
  function Places(env: Env, name: string): seq<string> {
    if name == "fail_val" then
      [DebugPath(env, "fail_val"), ProcPath(env, "fail_val"), DebugPath(env, "fail_max"), ProcPath(env, "fail_max")]
    else [DebugPath(env, name), ProcPath(env, name)]
  }

  /** What a parameter becomes: nothing where no file can be read, or the first that can holds no number. */
  function OneParam(env: Env, param: (string, string, MetricType)): seq<Observation> {
    var file := FirstAvailable(env.reader, Places(env, param.0));
    if file.Failure? || env.pf(TrimSpace(file.value.data)).None? then []
    else [NodeObservation(file.value.path, param.1, param.2, env.pf(TrimSpace(file.value.data)).value)]
  }

  function FirstParams(env: Env, n: nat): seq<Observation>
    requires n <= |PARAMS|
  {
    if n == 0 then [] else FirstParams(env, n - 1) + OneParam(env, PARAMS[n - 1])
  }

  lemma PlacesSpelled(env: Env, name: string)
    ensures ParamPaths(env.cfg, name) == Places(env, name)
  {
    PathsSpelled(env, name);
    PathsSpelled(env, "fail_max");
  }

  lemma ParamInOrder(i: nat)
    requires i < |PARAMS|
    ensures |PARAM_NAMES| == |PARAMS| && PARAM_NAMES[i] == PARAMS[i].0
    ensures ParamMetric(PARAMS[i].0) == Some((PARAMS[i].1, PARAMS[i].2))
  {
  }

  lemma ParamIsOne(env: Env, i: nat)
    requires i < |PARAMS|
    ensures ParamOf(env, PARAMS[i].0) == OneParam(env, PARAMS[i])
  {
    PlacesSpelled(env, PARAMS[i].0);
    ParamInOrder(i);
  }

  lemma {:induction false} FirstParamsInOrder(env: Env, names: seq<string>, n: nat)
    requires n <= |PARAMS| == |names| && forall i :: 0 <= i < |names| ==> names[i] == PARAMS[i].0
    ensures ParamsOf(env, names[..n]) == FirstParams(env, n)
  {
    if n > 0 {
      assert names[..n][..n - 1] == names[..n - 1];
      FirstParamsInOrder(env, names, n - 1);
      ParamIsOne(env, n - 1);
    }
  }

  /** The parameters are those of the eleven files, in order, each under its own metric and with its path. */
  lemma ParamsInOrder(env: Env)
    ensures ParamsOf(env, PARAM_NAMES) == FirstParams(env, |PARAMS|)
  {
    forall i: nat | i < |PARAMS| ensures |PARAM_NAMES| == |PARAMS| && PARAM_NAMES[i] == PARAMS[i].0 { ParamInOrder(i); }
    ParamInOrder(0);
    FirstParamsInOrder(env, PARAM_NAMES, |PARAMS|);
    assert PARAM_NAMES[..|PARAMS|] == PARAM_NAMES;
  }

  // ------------------------------------------------------------------------ statistics

  /** The result of reading the statistics from a text. */
  predicate Reads(r: CollectResult, parsed: Result<seq<Observation>, ParseError>) {
    if parsed.Success? then r == Success(parsed.value) else r == Failure(ParseFailed(parsed.error))
  }

  /** The statistics file of debugfs, or else of procfs; one that is there but malformed is an error. */
  lemma StatsFile(env: Env)
    ensures var r, debug, proc := FromDebugFS(env), DebugPath(env, "stats"), ProcPath(env, "stats");
            if env.reader.readFile(debug).Success? then Reads(r, ParseStats(env.pf, env.reader.readFile(debug).value, debug))
            else if env.reader.readFile(proc).Success? then Reads(r, ParseStats(env.pf, env.reader.readFile(proc).value, proc))
            else r == Failure(ReadFailed(env.reader.readFile(proc).error))
  {
    PathsSpelled(env, "stats");
    FirstOfTwo(env.reader, DebugPath(env, "stats"), ProcPath(env, "stats"));
  }

  /** A file of eleven numbers holds the statistics in this order; the source is its path. */
  lemma StatsAreInOrder(source: string, v: seq<real>)
    requires |v| == |STATS_FIELDS|
    ensures |v| == 11
    ensures StatsObservations(source, v) ==
      [NodeObservation(source, "allocated", Gauge, v[0]), NodeObservation(source, "maximum", Gauge, v[1]),
       NodeObservation(source, "errors_total", Counter, v[2]),
       NodeObservation(source, "send_count_total", Counter, v[3]), NodeObservation(source, "receive_count_total", Counter, v[4]),
       NodeObservation(source, "route_count_total", Counter, v[5]), NodeObservation(source, "drop_count_total", Counter, v[6]),
       NodeObservation(source, "send_bytes_total", Counter, v[7]), NodeObservation(source, "receive_bytes_total", Counter, v[8]),
       NodeObservation(source, "route_bytes_total", Counter, v[9]), NodeObservation(source, "drop_bytes_total", Counter, v[10])]
  {
  }

  // ------------------------------------------------------------------------ interfaces

  /** The listing of the interfaces: the verbose one, or the plain one where that fails. */
  ghost predicate Lists(env: Env, net: string) {
    var verbose, plain := env.reader.run([env.bin, "net", "show", "-v", "3"]), env.reader.run([env.bin, "net", "show"]);
    verbose == Success(net) || (verbose.Failure? && plain == Success(net))
  }

  /** Interface health is reported exactly as the listing tells it. */
  lemma HealthIsListed(env: Env, o: Observation)
    ensures o in SupplementalHealth(env) <==>
            exists net :: Lists(env, net) && env.decodeHealth(net).Success? && ReportsHealth(Flatten(env.decodeHealth(net).value), o)
  {
    if NetShow(env).Success? {
      var net := NetShow(env).value;
      assert Lists(env, net);
      if env.decodeHealth(net).Success? {
        AllHealthReports("lnetctl net show", Flatten(env.decodeHealth(net).value), o);
      }
    }
  }

  ghost predicate ReportsHealth(nis: seq<NiHealth>, o: Observation) {
    exists k :: 0 <= k < |nis| && NiValue(nis[k], o.metricID) == Some(o.value)
                && o == NiObservation("lnetctl net show", nis[k].nid, o.metricID, o.value)
  }

  /** The counters of the interfaces are had exactly as the listing tells them. */
  lemma CountsAreListed(env: Env, o: Observation)
    ensures NetCountsOf(env).Some? <==> exists net :: Lists(env, net) && env.decodeCounts(net).Success?
    ensures NetCountsOf(env).Some? ==> (o in NetCountsOf(env).value <==>
              exists net :: Lists(env, net) && env.decodeCounts(net).Success? && ReportsCounts(Flatten(env.decodeCounts(net).value), o))
  {
    if NetShow(env).Success? {
      var net := NetShow(env).value;
      assert Lists(env, net);
      if env.decodeCounts(net).Success? {
        AllCountsReport("lnetctl net show", Flatten(env.decodeCounts(net).value), o);
      }
    }
  }

  ghost predicate ReportsCounts(nis: seq<NiCounts>, o: Observation) {
    exists k :: 0 <= k < |nis| && CountValue(nis[k], o.metricID) == Some(o.value)
                && o == NiObservation("lnetctl net show", nis[k].nid, o.metricID, o.value)
  }

  // ----------------------------------------------------------------------------- modes

  /** Without the statistics of `lnetctl` there is nothing to collect from it. */
  lemma CtlNeedsStatistics(env: Env)
    ensures var out := env.reader.run([env.bin, "stats", "show"]);
            && (out.Failure? ==> FromLNetCtl(env) == Failure(ReadFailed(out.error)))
            && (out.Success? && env.decodeStats(out.value).Failure? ==>
                  FromLNetCtl(env) == Failure(ParseFailed(env.decodeStats(out.value).error)))
  {
  }

  /** The statistics of `lnetctl`, as they were decoded. */
  ghost predicate Shows(env: Env, s: CtlStats) {
    var out := env.reader.run([env.bin, "stats", "show"]);
    out.Success? && env.decodeStats(out.value) == Success(s)
  }

  /**
    With them: all eleven and nothing else where no listing can be had or its counters
    cannot be decoded; otherwise the counters and the health of the listing follow, and
    where there are counters the node's own three make room for them.
   */
  lemma CtlIsMerged(env: Env, s: CtlStats)
    requires Shows(env, s)
    ensures var source, r := "lnetctl stats show", FromLNetCtl(env);
            && (NetCountsOf(env).None? ==> r == Success(CtlObservations(source, s)))
            && (NetCountsOf(env) == Some([]) ==> r == Success(CtlObservations(source, s) + SupplementalHealth(env)))
            && (NetCountsOf(env).Some? && NetCountsOf(env).value != [] ==>
                  r == Success(OtherStats(source, s) + NetCountsOf(env).value + SupplementalHealth(env)))
  {
    OtherStatsStay("lnetctl stats show", s);
    assert CtlObservations("lnetctl stats show", s) + [] == CtlObservations("lnetctl stats show", s);
  }

  /**
    The automatic mode is that of the statistics file, with interface health put in before
    the parameters, where that mode succeeds, and that of `lnetctl` where it does not. Every
    mode ends with the parameters, and none fails because of them.
   */
  lemma AutoIsOneOrTheOther(env: Env)
    ensures var file, ctl, auto, params := Collected(env, DebugFS), Collected(env, LNetCtl), Collected(env, Auto), FirstParams(env, |PARAMS|);
            && (file.Success? <==> FromDebugFS(env).Success?)
            && (file.Failure? ==> file.error == FromDebugFS(env).error && auto == ctl)
            && (file.Success? ==> file.value == FromDebugFS(env).value + params)
            && (file.Success? ==> auto == Success(FromDebugFS(env).value + SupplementalHealth(env) + params))
            && (ctl.Failure? <==> FromLNetCtl(env).Failure?)
            && (ctl.Failure? ==> ctl.error == FromLNetCtl(env).error)
            && (ctl.Success? ==> ctl.value == FromLNetCtl(env).value + params)
  {
    ParamsInOrder(env);
  }
}
