/**
  The client collector's failure policy. Every source of a scrape has an outcome, which
  does not depend on the mode; strict mode stops at the first failure, non-strict mode
  logs it as a warning and goes on.
 */
module ClientCollector {
  import opened Wrappers
  import opened GoStrings
  import opened LineMachine
  import opened Observations
  import opened Readers
  import opened Discovery

  type ParseResult = Result<seq<Observation>, ParseError>

  /** The parsers of the client sources. */
  datatype Parsers = Parsers(
    ldlm: (string, string) -> ParseResult,
    lliteStats: (string, Context) -> ParseResult,
    lliteFile: (string, string, Context) -> ParseResult,
    obdStats: (string, Context) -> ParseResult,
    rpcStats: (string, Context) -> ParseResult,
    state: (string, Context) -> seq<Observation>,
    clientFile: (string, string, Context) -> ParseResult)

  const LLITE_FILES := [
    "blocksize", "filesfree", "filestotal", "kbytesavail", "kbytesfree", "kbytestotal", "checksum_pages",
    "default_easize", "lazystatfs", "max_easize", "max_read_ahead_mb", "max_read_ahead_per_file_mb",
    "max_read_ahead_whole_mb", "statahead_agl", "statahead_max", "xattr_cache"]

  const OSC_FILES := ["cur_dirty_bytes", "max_dirty_mb", "max_pages_per_rpc", "max_rpcs_in_flight", "active", "state"]

  const MDC_FILES := ["max_rpcs_in_flight", "max_mod_rpcs_in_flight", "max_pages_per_rpc", "active", "state"]

  function ParamFiles(component: string): seq<string> {
    if component == "mdc" then MDC_FILES else OSC_FILES
  }

  function LdlmPaths(cfg: PathConfig): seq<string> {
    [JoinPath([cfg.debugFS, "lustre", "ldlm", "services", "ldlm_cbd", "stats"]),
     JoinPath([cfg.procFS, "fs", "lustre", "ldlm", "services", "ldlm_cbd", "stats"])]
  }

  function PathsIn(roots: seq<string>, file: string): seq<string> {
    seq(|roots|, i requires 0 <= i < |roots| => JoinPath([roots[i], file]))
  }

  function ContextOf(t: ClientTarget, path: string): Context {
    Context(path, "client", t.name, t.component)
  }

  // ------------------------------------------------------------------- outcomes

  /** What a source comes to: some observations, perhaps none, or a failure. */
  datatype Outcome = Yields(obs: seq<Observation>) | Fails(error: CollectError)

  function Parsed(r: ParseResult): Outcome {
    match r
    case Success(obs) => Yields(obs)
    case Failure(e) => Fails(ParseFailed(e))
  }

  /** Everything a scrape depends on besides its mode. */
  datatype Inputs = Inputs(reader: Reader, parsers: Parsers, cfg: PathConfig)
  {
    /** The LDLM callback statistics; a missing file yields nothing. */
    function Ldlm(): Outcome {
      match FirstAvailable(reader, LdlmPaths(cfg))
      case Failure(_) => Yields([])
      case Success(file) => Parsed(parsers.ldlm(file.data, file.path))
    }

    function LliteStats(t: ClientTarget): Outcome {
      match reader.readFile(t.statsPath)
      case Failure(e) => Fails(ReadFailed(e))
      case Success(data) => Parsed(parsers.lliteStats(data, ContextOf(t, t.statsPath)))
    }

    /** One single-value file of a mount; a missing file yields nothing. */
    function LliteFile(t: ClientTarget, file: string): Outcome {
      match FirstAvailable(reader, PathsIn(t.paramRoots, file))
      case Failure(_) => Yields([])
      case Success(f) => Parsed(parsers.lliteFile(f.data, file, ContextOf(t, f.path)))
    }

    function ObdStats(t: ClientTarget): Outcome {
      if t.statsPath == "" then Yields([])
      else
        match reader.readFile(t.statsPath)
        case Failure(e) => Fails(ReadFailed(e))
        case Success(data) => Parsed(parsers.obdStats(data, ContextOf(t, t.statsPath)))
    }

    /** The rpc_stats file; one that has disappeared since discovery yields nothing. */
    function RpcStats(t: ClientTarget): Outcome {
      if t.rpcStatsPath == "" then Yields([])
      else
        match reader.readFile(t.rpcStatsPath)
        case Failure(e) => if e.notExist then Yields([]) else Fails(ReadFailed(e))
        case Success(data) => Parsed(parsers.rpcStats(data, ContextOf(t, t.rpcStatsPath)))
    }

    function ParseParam(data: string, file: string, ctx: Context): ParseResult {
      if file == "state" then Success(parsers.state(data, ctx)) else parsers.clientFile(data, file, ctx)
    }

    /** One optional param file of an mdc or osc target; a missing file yields nothing. */
    function Param(t: ClientTarget, file: string): Outcome {
      match FirstAvailable(reader, PathsIn(t.paramRoots, file))
      case Failure(_) => Yields([])
      case Success(f) => Parsed(ParseParam(f.data, file, ContextOf(t, f.path)))
    }

    function LliteFiles(t: ClientTarget, files: seq<string>): (outs: seq<Outcome>)
      ensures |outs| == |files| && forall i :: 0 <= i < |files| ==> outs[i] == LliteFile(t, files[i])
    {
      seq(|files|, i requires 0 <= i < |files| => LliteFile(t, files[i]))
    }

    function Params(t: ClientTarget, files: seq<string>): (outs: seq<Outcome>)
      ensures |outs| == |files| && forall i :: 0 <= i < |files| ==> outs[i] == Param(t, files[i])
    {
      seq(|files|, i requires 0 <= i < |files| => Param(t, files[i]))
    }

    /** The sources of one target, in collection order. A mount without its stats has no other source. */
    function Target(t: ClientTarget): seq<Outcome> {
      if t.component == "llite" then
        [LliteStats(t)] + if LliteStats(t).Fails? then [] else LliteFiles(t, LLITE_FILES)
      else if t.component == "mdc" || t.component == "osc" then
        [ObdStats(t), RpcStats(t)] + Params(t, ParamFiles(t.component))
      else []
    }

    function Targets(ts: seq<ClientTarget>): seq<Outcome> {
      if ts == [] then [] else Targets(ts[..|ts| - 1]) + Target(ts[|ts| - 1])
    }

    /** All sources of a scrape. */
    function All(): seq<Outcome> {
      [Ldlm()] + Targets(Discovered(cfg, StatsFinds(reader, cfg), RpcFinds(reader, cfg)))
    }
  }

  // --------------------------------------------------------- what outcomes add up to

  function ObsOf(out: Outcome): seq<Observation> {
    if out.Yields? then out.obs else []
  }

  function FailureOf(out: Outcome): seq<CollectError> {
    if out.Fails? then [out.error] else []
  }

  /** The observations of all sources that did not fail. */
  function Gathered(outs: seq<Outcome>): seq<Observation> {
    if outs == [] then [] else Gathered(outs[..|outs| - 1]) + ObsOf(outs[|outs| - 1])
  }

  /** The failures, in collection order. */
  function Failures(outs: seq<Outcome>): seq<CollectError> {
    if outs == [] then [] else Failures(outs[..|outs| - 1]) + FailureOf(outs[|outs| - 1])
  }

  lemma OutcomesSnoc(outs: seq<Outcome>, out: Outcome)
    ensures Gathered(outs + [out]) == Gathered(outs) + ObsOf(out)
    ensures Failures(outs + [out]) == Failures(outs) + FailureOf(out)
  {
    assert (outs + [out])[..|outs|] == outs;
  }

  lemma {:induction false} GatheredConcat(a: seq<Outcome>, b: seq<Outcome>)
    ensures Gathered(a + b) == Gathered(a) + Gathered(b)
    decreases |b|
  {
    if b == [] {
      assert a + b == a;
    } else {
      assert (a + b)[..|a + b| - 1] == a + b[..|b| - 1];
      GatheredConcat(a, b[..|b| - 1]);
    }
  }

  lemma {:induction false} FailuresConcat(a: seq<Outcome>, b: seq<Outcome>)
    ensures Failures(a + b) == Failures(a) + Failures(b)
    decreases |b|
  {
    if b == [] {
      assert a + b == a;
    } else {
      assert (a + b)[..|a + b| - 1] == a + b[..|b| - 1];
      FailuresConcat(a, b[..|b| - 1]);
    }
  }

  lemma OutcomesConcat(a: seq<Outcome>, b: seq<Outcome>)
    ensures Gathered(a + b) == Gathered(a) + Gathered(b)
    ensures Failures(a + b) == Failures(a) + Failures(b)
  {
    GatheredConcat(a, b);
    FailuresConcat(a, b);
  }

  lemma OneOutcome(out: Outcome)
    ensures Gathered([out]) == ObsOf(out)
    ensures Failures([out]) == FailureOf(out)
  {
    OutcomesSnoc([], out);
    assert [] + [out] == [out];
  }

  /**
    What a mode makes of some sources, with the log before and after: non-strict mode
    returns what all of them gather and logs every failure; strict mode logs nothing, and
    returns the same if there is no failure and the first failure otherwise.
   */
  ghost predicate Obeys(strict: bool, outs: seq<Outcome>, before: seq<CollectError>, after: seq<CollectError>, r: CollectResult) {
    if strict then
      after == before && r == if Failures(outs) == [] then Success(Gathered(outs)) else Failure(Failures(outs)[0])
    else
      after == before + Failures(outs) && r == Success(Gathered(outs))
  }

  lemma ObeysNothing(strict: bool, before: seq<CollectError>)
    ensures Obeys(strict, [], before, before, Success([]))
  {
  }

  /** A failure ends the run, whatever sources come later. */
  lemma ObeysStop(strict: bool, a: seq<Outcome>, b: seq<Outcome>,
                  w0: seq<CollectError>, w1: seq<CollectError>, r: CollectResult)
    requires Obeys(strict, a, w0, w1, r) && r.Failure?
    ensures Obeys(strict, a + b, w0, w1, r)
  {
    OutcomesConcat(a, b);
  }

  /** Going on with more sources after some that did not end the run. */
  lemma ObeysThen(strict: bool, a: seq<Outcome>, b: seq<Outcome>,
                  w0: seq<CollectError>, w1: seq<CollectError>, w2: seq<CollectError>,
                  obs: seq<Observation>, r: CollectResult)
    requires Obeys(strict, a, w0, w1, Success(obs)) && Obeys(strict, b, w1, w2, r)
    ensures Obeys(strict, a + b, w0, w2, Prepend(obs, r))
  {
    OutcomesConcat(a, b);
    assert w0 + Failures(a) + Failures(b) == w0 + (Failures(a) + Failures(b));
  }

  // ------------------------------------------------------------------- collector

  class Collector {
    const inputs: Inputs
    const strict: bool
    var warnings: seq<CollectError>

    constructor (inputs: Inputs, strict: bool)
      ensures this.inputs == inputs && this.strict == strict && warnings == []
    {
      this.inputs := inputs;
      this.strict := strict;
      warnings := [];
    }

    /** Returns the error in strict mode; otherwise logs it, so that the caller goes on. */
    method StrictError(error: CollectError) returns (r: CollectResult)
      modifies this`warnings
      ensures Obeys(strict, [Fails(error)], old(warnings), warnings, r)
    {
      OneOutcome(Fails(error));
      if strict {
        return Failure(error);
      }
      warnings := warnings + [error];
      return Success([]);
    }

    /** The observations of a parse, or its error handled according to the mode. */
    method Keep(parsed: ParseResult) returns (r: CollectResult)
      modifies this`warnings
      ensures Obeys(strict, [Parsed(parsed)], old(warnings), warnings, r)
    {
      if parsed.Failure? {
        r := StrictError(ParseFailed(parsed.error));
        return;
      }
      OneOutcome(Yields(parsed.value));
      return Success(parsed.value);
    }

    method CollectLDLMCBD() returns (r: CollectResult)
      ensures inputs.Ldlm().Yields? ==> r == Success(inputs.Ldlm().obs)
      ensures inputs.Ldlm().Fails? ==> r == Failure(inputs.Ldlm().error)
    {
      var file := ReadFirstAvailable(inputs.reader, LdlmPaths(inputs.cfg));
      if file.Failure? {
        return Success([]);
      }
      var obs := inputs.parsers.ldlm(file.value.data, file.value.path);
      if obs.Failure? {
        return Failure(ParseFailed(obs.error));
      }
      return Success(obs.value);
    }

    method CollectOBDStats(t: ClientTarget) returns (r: CollectResult)
      modifies this`warnings
      ensures Obeys(strict, [inputs.ObdStats(t)], old(warnings), warnings, r)
    {
      if t.statsPath == "" {
        OneOutcome(Yields([]));
        return Success([]);
      }
      var data := inputs.reader.readFile(t.statsPath);
      if data.Failure? {
        r := StrictError(ReadFailed(data.error));
      } else {
        r := Keep(inputs.parsers.obdStats(data.value, ContextOf(t, t.statsPath)));
      }
    }

    method CollectRPCStats(t: ClientTarget) returns (r: CollectResult)
      modifies this`warnings
      ensures Obeys(strict, [inputs.RpcStats(t)], old(warnings), warnings, r)
    {
      OneOutcome(Yields([]));
      if t.rpcStatsPath == "" {
        return Success([]);
      }
      var data := inputs.reader.readFile(t.rpcStatsPath);
      if data.Failure? {
        if data.error.notExist {
          return Success([]);
        }
        r := StrictError(ReadFailed(data.error));
      } else {
        r := Keep(inputs.parsers.rpcStats(data.value, ContextOf(t, t.rpcStatsPath)));
      }
    }

    method CollectParam(t: ClientTarget, name: string) returns (r: CollectResult)
      modifies this`warnings
      ensures Obeys(strict, [inputs.Param(t, name)], old(warnings), warnings, r)
    {
      var file := ReadFirstAvailable(inputs.reader, PathsIn(t.paramRoots, name));
      if file.Failure? {
        OneOutcome(Yields([]));
        return Success([]);
      }
      r := Keep(inputs.ParseParam(file.value.data, name, ContextOf(t, file.value.path)));
    }

    /** The optional param files of an mdc or osc target. */
    method CollectClientParams(t: ClientTarget) returns (r: CollectResult)
      modifies this`warnings
      ensures Obeys(strict, inputs.Params(t, ParamFiles(t.component)), old(warnings), warnings, r)
    {
      var files := ParamFiles(t.component);
      ghost var outs := inputs.Params(t, files);
      var allObs := [];
      ObeysNothing(strict, warnings);
      for n := 0 to |files|
        invariant Obeys(strict, outs[..n], old(warnings), warnings, Success(allObs))
      {
        ghost var before := warnings;
        var obs := CollectParam(t, files[n]);
        ObeysThen(strict, outs[..n], [outs[n]], old(warnings), before, warnings, allObs, obs);
        SplitAt(outs, n);
        if obs.Failure? {
          ObeysStop(strict, outs[..n + 1], outs[n + 1..], old(warnings), warnings, obs);
          return obs;
        }
        allObs := allObs + obs.value;
      }
      assert outs[..|files|] == outs;
      return Success(allObs);
    }

    method CollectLLiteFile(t: ClientTarget, name: string) returns (r: CollectResult)
      modifies this`warnings
      ensures Obeys(strict, [inputs.LliteFile(t, name)], old(warnings), warnings, r)
    {
      var file := ReadFirstAvailable(inputs.reader, PathsIn(t.paramRoots, name));
      if file.Failure? {
        OneOutcome(Yields([]));
        return Success([]);
      }
      r := Keep(inputs.parsers.lliteFile(file.value.data, name, ContextOf(t, file.value.path)));
    }

    /** The single-value files of a mount. */
    method CollectLLiteFiles(t: ClientTarget, files: seq<string>) returns (r: CollectResult)
      modifies this`warnings
      ensures Obeys(strict, inputs.LliteFiles(t, files), old(warnings), warnings, r)
    {
      ghost var outs := inputs.LliteFiles(t, files);
      var allObs := [];
      ObeysNothing(strict, warnings);
      for n := 0 to |files|
        invariant Obeys(strict, outs[..n], old(warnings), warnings, Success(allObs))
      {
        ghost var before := warnings;
        var obs := CollectLLiteFile(t, files[n]);
        ObeysThen(strict, outs[..n], [outs[n]], old(warnings), before, warnings, allObs, obs);
        SplitAt(outs, n);
        if obs.Failure? {
          ObeysStop(strict, outs[..n + 1], outs[n + 1..], old(warnings), warnings, obs);
          return obs;
        }
        allObs := allObs + obs.value;
      }
      assert outs[..|files|] == outs;
      return Success(allObs);
    }

    /** The stats file of a mount and then its single-value files. */
    method CollectLLite(t: ClientTarget) returns (r: CollectResult)
      modifies this`warnings
      ensures inputs.LliteStats(t).Fails? ==> warnings == old(warnings) && r == Failure(inputs.LliteStats(t).error)
      ensures inputs.LliteStats(t).Yields? ==>
                Obeys(strict, [inputs.LliteStats(t)] + inputs.LliteFiles(t, LLITE_FILES), old(warnings), warnings, r)
    {
      var data := inputs.reader.readFile(t.statsPath);
      if data.Failure? {
        return Failure(ReadFailed(data.error));
      }
      var stats := inputs.parsers.lliteStats(data.value, ContextOf(t, t.statsPath));
      if stats.Failure? {
        return Failure(ParseFailed(stats.error));
      }
      OneOutcome(inputs.LliteStats(t));
      assert Obeys(strict, [inputs.LliteStats(t)], old(warnings), warnings, Success(stats.value));
      var files := CollectLLiteFiles(t, LLITE_FILES);
      ObeysThen(strict, [inputs.LliteStats(t)], inputs.LliteFiles(t, LLITE_FILES),
                old(warnings), old(warnings), warnings, stats.value, files);
      if files.Failure? {
        return files;
      }
      return Success(stats.value + files.value);
    }

    /** An mdc or osc target: its stats, its rpc_stats and its param files, in that order. */
    method CollectRPC(t: ClientTarget) returns (r: CollectResult)
      modifies this`warnings
      ensures Obeys(strict, [inputs.ObdStats(t)] + [inputs.RpcStats(t)] + inputs.Params(t, ParamFiles(t.component)),
                    old(warnings), warnings, r)
    {
      ghost var a, b, c := [inputs.ObdStats(t)], [inputs.RpcStats(t)], inputs.Params(t, ParamFiles(t.component));
      ghost var w0 := warnings;
      var stats := CollectOBDStats(t);
      if stats.Failure? {
        ObeysStop(strict, a, b, w0, warnings, stats);
        ObeysStop(strict, a + b, c, w0, warnings, stats);
        return stats;
      }
      ghost var w1 := warnings;
      var rpc := CollectRPCStats(t);
      ObeysThen(strict, a, b, w0, w1, warnings, stats.value, rpc);
      if rpc.Failure? {
        ObeysStop(strict, a + b, c, w0, warnings, rpc);
        return rpc;
      }
      ghost var w2 := warnings;
      var params := CollectClientParams(t);
      ObeysThen(strict, a + b, c, w0, w2, warnings, stats.value + rpc.value, params);
      if params.Failure? {
        return params;
      }
      return Success(stats.value + rpc.value + params.value);
    }

    /** One target; a failed target fails a strict scrape and is skipped otherwise. */
    method CollectTarget(t: ClientTarget) returns (r: CollectResult)
      modifies this`warnings
      ensures Obeys(strict, inputs.Target(t), old(warnings), warnings, r)
    {
      ObeysNothing(strict, warnings);
      if t.component == "llite" {
        assert [inputs.LliteStats(t)] + [] == [inputs.LliteStats(t)];
        r := CollectLLite(t);
      } else if t.component == "mdc" || t.component == "osc" {
        assert inputs.Target(t)
            == [inputs.ObdStats(t)] + [inputs.RpcStats(t)] + inputs.Params(t, ParamFiles(t.component));
        r := CollectRPC(t);
      } else {
        return Success([]);
      }
      if r.Failure? {
        OneOutcome(Fails(r.error));
        OneOutcome(inputs.LliteStats(t));
        r := StrictError(r.error);
      }
    }

    /** The whole collection, up to the mapper. */
    method Collect() returns (r: CollectResult)
      modifies this`warnings
      ensures Obeys(strict, inputs.All(), old(warnings), warnings, r)
    {
      var targets := DiscoverClients(inputs.reader, inputs.cfg);
      ghost var a, b := [inputs.Ldlm()], inputs.Targets(targets);
      OneOutcome(inputs.Ldlm());
      var ldlm := CollectLDLMCBD();
      var allObs := [];
      if ldlm.Success? {
        allObs := ldlm.value;
      } else if strict {
        ObeysStop(strict, a, b, warnings, warnings, ldlm);
        return ldlm;
      } else {
        warnings := warnings + [ldlm.error];
      }
      ghost var w1 := warnings;
      assert Obeys(strict, a, old(warnings), w1, Success(allObs));
      var obs := CollectTargets(targets);
      ObeysThen(strict, a, b, old(warnings), w1, warnings, allObs, obs);
      if obs.Failure? {
        return obs;
      }
      return Success(allObs + obs.value);
    }

    /** The loop over the discovered targets. */
    method CollectTargets(targets: seq<ClientTarget>) returns (r: CollectResult)
      modifies this`warnings
      ensures Obeys(strict, inputs.Targets(targets), old(warnings), warnings, r)
    {
      var allObs := [];
      ObeysNothing(strict, warnings);
      for n := 0 to |targets|
        invariant Obeys(strict, inputs.Targets(targets[..n]), old(warnings), warnings, Success(allObs))
      {
        ghost var before := warnings;
        var obs := CollectTarget(targets[n]);
        ObeysThen(strict, inputs.Targets(targets[..n]), inputs.Target(targets[n]), old(warnings), before, warnings, allObs, obs);
        TargetsSnoc(inputs, targets, n);
        if obs.Failure? {
          var rest := TargetsPrefix(inputs, targets, n + 1);
          ObeysStop(strict, inputs.Targets(targets[..n + 1]), rest, old(warnings), warnings, obs);
          return obs;
        }
        allObs := allObs + obs.value;
      }
      assert targets[..|targets|] == targets;
      return Success(allObs);
    }
  }

  lemma SplitAt(outs: seq<Outcome>, n: nat)
    requires n < |outs|
    ensures outs[..n + 1] == outs[..n] + [outs[n]]
    ensures outs == outs[..n + 1] + outs[n + 1..]
  {
  }

  lemma Reassociate<T>(a: seq<T>, b: seq<T>, c: seq<T>)
    ensures a + b + c == a + (b + c)
  {
  }

  lemma TargetsSnoc(inputs: Inputs, targets: seq<ClientTarget>, n: nat)
    requires n < |targets|
    ensures inputs.Targets(targets[..n + 1]) == inputs.Targets(targets[..n]) + inputs.Target(targets[n])
  {
    assert targets[..n + 1][..n] == targets[..n];
  }

  lemma {:induction false} TargetsPrefix(inputs: Inputs, targets: seq<ClientTarget>, n: nat) returns (rest: seq<Outcome>)
    requires n <= |targets|
    ensures inputs.Targets(targets) == inputs.Targets(targets[..n]) + rest
    decreases |targets|
  {
    if n == |targets| {
      rest := [];
      assert targets[..n] == targets;
    } else {
      var k := |targets| - 1;
      var middle := TargetsPrefix(inputs, targets[..k], n);
      assert targets[..k][..n] == targets[..n];
      rest := middle + inputs.Target(targets[k]);
      Reassociate(inputs.Targets(targets[..n]), middle, inputs.Target(targets[k]));
    }
  }
}
