/** Where the LNet collector takes its statistics from, and how it merges them. */
module LNetCollector {
  import opened Wrappers
  import opened GoStrings
  import opened LineMachine
  import opened Observations
  import opened Readers
  import opened Discovery
  import opened LNetFiles

  datatype Source = Auto | DebugFS | LNetCtl

  /** Everything a collection depends on besides its source; decoding YAML or JSON is a parameter. */
  datatype Env = Env(
    reader: Reader,
    cfg: PathConfig,
    bin: string,
    pf: NumberParser,
    decodeStats: string -> Result<CtlStats, ParseError>,
    decodeCounts: string -> Result<seq<seq<NiCounts>>, ParseError>,
    decodeHealth: string -> Result<seq<seq<NiHealth>>, ParseError>)

  const PARAM_NAMES := [
    "console_backoff", "console_max_delay_centisecs", "console_min_delay_centisecs", "console_ratelimit",
    "debug_mb", "panic_on_lbug", "watchdog_ratelimit", "catastrophe", "lnet_memused", "fail_err", "fail_val"]

  function StatsPaths(cfg: PathConfig): seq<string> {
    [JoinPath([cfg.debugFS, "lnet", "stats"]), JoinPath([cfg.procFS, "sys", "lnet", "stats"])]
  }

  function ParamPaths(cfg: PathConfig, name: string): seq<string> {
    var own := [JoinPath([cfg.debugFS, "lnet", name]), JoinPath([cfg.procFS, "sys", "lnet", name])];
    if name == "fail_val" then
      own + [JoinPath([cfg.debugFS, "lnet", "fail_max"]), JoinPath([cfg.procFS, "sys", "lnet", "fail_max"])]
    else own
  }

  predicate IsGlobalCount(metricID: string) {
    metricID == "send_count_total" || metricID == "receive_count_total" || metricID == "drop_count_total"
  }

  predicate OtherThanGlobalCount(o: Observation) {
    !IsGlobalCount(o.metricID)
  }

  function DropGlobalCounts(obs: seq<Observation>): seq<Observation> {
    Filter(OtherThanGlobalCount, obs)
  }

  // ------------------------------------------------------------ what is collected

  function FromDebugFS(env: Env): CollectResult {
    match FirstAvailable(env.reader, StatsPaths(env.cfg))
    case Failure(e) => Failure(ReadFailed(e))
    case Success(file) =>
      match ParseStats(env.pf, file.data, file.path)
      case Failure(e) => Failure(ParseFailed(e))
      case Success(obs) => Success(obs)
  }

  /** The output of the verbose interface listing, or of the plain one where that fails. */
  function NetShow(env: Env): Result<string, ReadError> {
    var verbose := env.reader.run([env.bin, "net", "show", "-v", "3"]);
    if verbose.Success? then verbose else env.reader.run([env.bin, "net", "show"])
  }

  function NetHealthOf(env: Env, net: string): seq<Observation> {
    match env.decodeHealth(net)
    case Failure(_) => []
    case Success(nets) => AllHealth("lnetctl net show", Flatten(nets))
  }

  function StatsShow(env: Env): CollectResult {
    match env.reader.run([env.bin, "stats", "show"])
    case Failure(e) => Failure(ReadFailed(e))
    case Success(data) =>
      match env.decodeStats(data)
      case Failure(e) => Failure(ParseFailed(e))
      case Success(stats) => Success(CtlObservations("lnetctl stats show", stats))
  }

  /** The interface counters, if the listing can be had and decoded. */
  function NetCountsOf(env: Env): Option<seq<Observation>> {
    match NetShow(env)
    case Failure(_) => None
    case Success(net) =>
      match env.decodeCounts(net)
      case Failure(_) => None
      case Success(nets) => Some(AllCounts("lnetctl net show", Flatten(nets)))
  }

  /** Per-interface counters replace the global ones; without any the global ones stay. */
  function Merge(stats: seq<Observation>, counts: seq<Observation>): seq<Observation> {
    if counts == [] then stats else DropGlobalCounts(stats) + counts
  }

  function FromLNetCtl(env: Env): CollectResult {
    match StatsShow(env)
    case Failure(e) => Failure(e)
    case Success(stats) =>
      match NetCountsOf(env)
      case None => Success(stats)
      case Some(counts) => Success(Merge(stats, counts) + NetHealthOf(env, NetShow(env).value))
  }

  function SupplementalHealth(env: Env): seq<Observation> {
    match NetShow(env)
    case Failure(_) => []
    case Success(net) => NetHealthOf(env, net)
  }

  function ParamOf(env: Env, name: string): seq<Observation> {
    match FirstAvailable(env.reader, ParamPaths(env.cfg, name))
    case Failure(_) => []
    case Success(file) =>
      match ParseParam(env.pf, file.data, file.path, name)
      case Failure(_) => []
      case Success(obs) => obs
  }

  function ParamsOf(env: Env, names: seq<string>): seq<Observation> {
    if names == [] then [] else ParamsOf(env, names[..|names| - 1]) + ParamOf(env, names[|names| - 1])
  }

  /** Whether the statistics come from `lnetctl`. */
  predicate UsesLNetCtl(env: Env, source: Source) {
    source.LNetCtl? || (source.Auto? && FromDebugFS(env).Failure?)
  }

  function StatsOf(env: Env, source: Source): CollectResult {
    if UsesLNetCtl(env, source) then FromLNetCtl(env)
    else
      match FromDebugFS(env)
      case Failure(e) => Failure(e)
      case Success(obs) => Success(if source.Auto? then obs + SupplementalHealth(env) else obs)
  }

  /** The whole collection, up to the mapper. */
  function Collected(env: Env, source: Source): CollectResult {
    Then(StatsOf(env, source), Success(ParamsOf(env, PARAM_NAMES)))
  }

  // ------------------------------------------------------------- the collector

  class Collector {
    const env: Env
    const source: Source
    var recorded: seq<string>

    constructor (env: Env, source: Source)
      ensures this.env == env && this.source == source && recorded == []
    {
      this.env := env;
      this.source := source;
      recorded := [];
    }

    method RecordScrapeSource(name: string)
      modifies this`recorded
      ensures recorded == old(recorded) + [name]
    {
      recorded := recorded + [name];
    }

    method DropGlobalLNetCountStats(obs: seq<Observation>) returns (filtered: seq<Observation>)
      ensures filtered == DropGlobalCounts(obs)
    {
      filtered := [];
      for i := 0 to |obs|
        invariant filtered == DropGlobalCounts(obs[..i])
      {
        assert obs[..i + 1][..i] == obs[..i];
        if IsGlobalCount(obs[i].metricID) {
          continue;
        }
        filtered := filtered + [obs[i]];
      }
      assert obs[..|obs|] == obs;
    }

    method CollectFromDebugFS() returns (r: CollectResult)
      ensures r == FromDebugFS(env)
    {
      var file := ReadFirstAvailable(env.reader, StatsPaths(env.cfg));
      if file.Failure? {
        return Failure(ReadFailed(file.error));
      }
      var obs := ParseLNetStats(env.pf, file.value.data, file.value.path);
      if obs.Failure? {
        return Failure(ParseFailed(obs.error));
      }
      return Success(obs.value);
    }

    method RunNetShow() returns (r: Result<string, ReadError>)
      ensures r == NetShow(env)
    {
      r := env.reader.run([env.bin, "net", "show", "-v", "3"]);
      if r.Failure? {
        r := env.reader.run([env.bin, "net", "show"]);
      }
    }

    method CollectFromLNetCtl() returns (r: CollectResult)
      ensures r == FromLNetCtl(env)
    {
      var data := env.reader.run([env.bin, "stats", "show"]);
      if data.Failure? {
        return Failure(ReadFailed(data.error));
      }
      var stats := env.decodeStats(data.value);
      if stats.Failure? {
        return Failure(ParseFailed(stats.error));
      }
      var obs := CtlObservations("lnetctl stats show", stats.value);
      var net := RunNetShow();
      if net.Failure? {
        return Success(obs);
      }
      var counts := env.decodeCounts(net.value);
      if counts.Failure? {
        return Success(obs);
      }
      var countObs := ParseNetCounts("lnetctl net show", counts.value);
      var niObs := [];
      var health := env.decodeHealth(net.value);
      if health.Success? {
        niObs := ParseNetHealth("lnetctl net show", health.value);
      }
      if |countObs| > 0 {
        obs := DropGlobalLNetCountStats(obs);
        obs := obs + countObs;
      }
      return Success(obs + niObs);
    }

    method CollectSupplementalNetNI() returns (obs: seq<Observation>)
      ensures obs == SupplementalHealth(env)
    {
      var net := RunNetShow();
      if net.Failure? {
        return [];
      }
      var health := env.decodeHealth(net.value);
      if health.Failure? {
        return [];
      }
      obs := ParseNetHealth("lnetctl net show", health.value);
    }

    method CollectParams() returns (allObs: seq<Observation>)
      ensures allObs == ParamsOf(env, PARAM_NAMES)
    {
      var names := PARAM_NAMES;
      allObs := [];
      for n := 0 to |names|
        invariant allObs == ParamsOf(env, names[..n])
      {
        assert names[..n + 1][..n] == names[..n];
        var file := ReadFirstAvailable(env.reader, ParamPaths(env.cfg, names[n]));
        if file.Failure? {
          continue;
        }
        var obs := ParseParam(env.pf, file.value.data, file.value.path, names[n]);
        if obs.Failure? {
          continue;
        }
        allObs := allObs + obs.value;
      }
      assert names[..|names|] == names;
    }

    /** The source recorded last is `lctl` exactly when the statistics come from `lnetctl`. */
    method Collect() returns (r: CollectResult)
      modifies this`recorded
      ensures r == Collected(env, source)
      ensures |recorded| > |old(recorded)|
      ensures recorded[|recorded| - 1] == if UsesLNetCtl(env, source) then "lctl" else "sys"
    {
      var obs: CollectResult;
      if source.LNetCtl? {
        RecordScrapeSource("lctl");
        obs := CollectFromLNetCtl();
      } else if source.DebugFS? {
        RecordScrapeSource("sys");
        obs := CollectFromDebugFS();
      } else {
        RecordScrapeSource("sys");
        obs := CollectFromDebugFS();
        if obs.Failure? {
          RecordScrapeSource("lctl");
          obs := CollectFromLNetCtl();
        } else {
          var ni := CollectSupplementalNetNI();
          obs := Success(obs.value + ni);
        }
      }
      if obs.Failure? {
        return obs;
      }
      var params := CollectParams();
      return Success(obs.value + params);
    }
  }
}
