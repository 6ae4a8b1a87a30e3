/** The `stats` files of llite mounts, of mdc and osc targets, and of the LDLM callback service. */
module StatsFiles {
  import opened Wrappers
  import opened GoStrings
  import opened LineMachine
  import opened Observations

  type LineResult = Result<seq<Observation>, ParseError>

  /** A line parser without state. */
  function Lines(read: string -> LineResult): Machine<(), Observation, ParseError> {
    Machine((_, _) => (), (_, line) => read(line))
  }

  /** The loop shared by the parsers below: read every line, append, stop at the first error. */
  method ParseLines(read: string -> LineResult, lines: seq<string>) returns (r: LineResult)
    ensures r == Run(Lines(read), (), lines)
  {
    var observations: seq<Observation> := [];
    assert lines[0..] == lines;
    PrependNothing(Run(Lines(read), (), lines));
    for i := 0 to |lines|
      invariant Run(Lines(read), (), lines) == Then(Success(observations), Run(Lines(read), (), lines[i..]))
    {
      assert lines[i..][1..] == lines[i + 1..];
      var obs := read(lines[i]);
      if obs.Failure? {
        return Failure(obs.error);
      }
      ThenAssociative(Success(observations), obs, Run(Lines(read), (), lines[i + 1..]));
      observations := observations + obs.value;
    }
    assert observations + [] == observations;
    return Success(observations);
  }

  // -------------------------------------------------------------- shared entries

  function TargetLabels(ctx: Context): Labels {
    map["component" := ctx.component, "target" := ctx.target]
  }

  function ClientObservation(ctx: Context, metricID: string, t: MetricType, labels: Labels, value: real): Observation {
    Observation("client", ctx.source, metricID, t, labels, value)
  }

  function SizePrefix(name: string): string {
    if HasPrefix(name, "write") then "write" else "read"
  }

  function SizeObservations(ctx: Context, prefix: string, count: real, min: real, max: real, sum: real): seq<Observation> {
    var labels := TargetLabels(ctx);
    [ClientObservation(ctx, prefix + "_samples_total", Counter, labels, count),
     ClientObservation(ctx, prefix + "_minimum_size_bytes", Gauge, labels, min),
     ClientObservation(ctx, prefix + "_maximum_size_bytes", Gauge, labels, max),
     ClientObservation(ctx, prefix + "_bytes_total", Counter, labels, sum)]
  }

  /** `name count samples [unit] min max sum` of a read_bytes or write_bytes line. */
  function BytesStat(pf: NumberParser, ctx: Context, fields: seq<string>): LineResult
    requires |fields| >= 1
  {
    if |fields| < 7 then Failure(TooFewFields("bytes", |fields|))
    else if pf(fields[1]).None? then Failure(BadNumber("count", fields[1]))
    else if pf(fields[4]).None? then Failure(BadNumber("min", fields[4]))
    else if pf(fields[5]).None? then Failure(BadNumber("max", fields[5]))
    else if pf(fields[6]).None? then Failure(BadNumber("sum", fields[6]))
    else
      Success(SizeObservations(ctx, SizePrefix(fields[0]), pf(fields[1]).value, pf(fields[4]).value, pf(fields[5]).value, pf(fields[6]).value))
  }

  /** The metric IDs of the two kinds of lines. */
  lemma ReadNames()
    ensures "read" + "_samples_total" == "read_samples_total"
    ensures "read" + "_minimum_size_bytes" == "read_minimum_size_bytes"
    ensures "read" + "_maximum_size_bytes" == "read_maximum_size_bytes"
    ensures "read" + "_bytes_total" == "read_bytes_total"
  {
  }

  lemma WriteNames()
    ensures "write" + "_samples_total" == "write_samples_total"
    ensures "write" + "_minimum_size_bytes" == "write_minimum_size_bytes"
    ensures "write" + "_maximum_size_bytes" == "write_maximum_size_bytes"
    ensures "write" + "_bytes_total" == "write_bytes_total"
  {
  }

  function OperationTotal(ctx: Context, operation: string, count: real): Observation {
    ClientObservation(ctx, "stats_total", Counter, TargetLabels(ctx)["operation" := operation], count)
  }

  predicate IsBytesName(name: string) {
    name == "read_bytes" || name == "write_bytes"
  }

  /** A named line has at least a name and a count, and is not the snapshot line. */
  predicate IsNamed(fields: seq<string>) {
    |fields| >= 2 && fields[0] != "snapshot_time"
  }

  // -------------------------------------------------------------- mdc, osc stats

  /** The number of units of a time unit in one second. */
  function UnitsPerSecond(unit: string): Option<real> {
    match ToLower(unit)
    case "nsec" => Some(1000000000.0)
    case "nsecs" => Some(1000000000.0)
    case "usec" => Some(1000000.0)
    case "usecs" => Some(1000000.0)
    case "msec" => Some(1000.0)
    case "msecs" => Some(1000.0)
    case "sec" => Some(1.0)
    case "secs" => Some(1.0)
    case _ => None
  }

  /** The unit and the sum of a line, if it has them. */
  function StatsSum(pf: NumberParser, fields: seq<string>): Option<(string, real)> {
    if |fields| < 7 || fields[2] != "samples" || pf(fields[6]).None? then None
    else Some((Trim(fields[3], {'[', ']'}), pf(fields[6]).value))
  }

  function SecondsSum(pf: NumberParser, fields: seq<string>): Option<real> {
    match StatsSum(pf, fields)
    case None => None
    case Some((unit, sum)) =>
      match UnitsPerSecond(unit)
      case None => None
      case Some(units) => Some(if units == 1.0 then sum else sum / units)
  }

  function SecondsObservation(ctx: Context, operation: string, seconds: real): Observation {
    ClientObservation(ctx, "stats_seconds_sum", Counter,
                      TargetLabels(ctx)["operation" := operation]["type" := ctx.typ], seconds)
  }

  function ObdStatLine(pf: NumberParser, ctx: Context, fields: seq<string>): LineResult
    requires IsNamed(fields)
  {
    if IsBytesName(fields[0]) then BytesStat(pf, ctx, fields)
    else if pf(fields[1]).None? then Failure(BadNumber("count", fields[1]))
    else
      var total := OperationTotal(ctx, fields[0], pf(fields[1]).value);
      match SecondsSum(pf, fields)
      case None => Success([total])
      case Some(seconds) => Success([total, SecondsObservation(ctx, fields[0], seconds)])
  }

  function ObdLine(pf: NumberParser, ctx: Context, raw: string): LineResult {
    var line := TrimSpace(raw);
    var fields := Fields(line);
    if line == "" || !IsNamed(fields) then Success([]) else ObdStatLine(pf, ctx, fields)
  }

  function ParseObd(pf: NumberParser, data: string, ctx: Context): LineResult {
    Run(Lines(raw => ObdLine(pf, ctx, raw)), (), Split(data, '\n'))
  }

  method ParseOBDStats(pf: NumberParser, data: string, ctx: Context) returns (r: LineResult)
    ensures r == ParseObd(pf, data, ctx)
  {
    r := ParseLines(raw => ObdLine(pf, ctx, raw), Split(data, '\n'));
  }

  // ------------------------------------------------------------------ llite stats

  function LliteLine(pf: NumberParser, ctx: Context, raw: string): LineResult {
    var line := TrimSpace(raw);
    var fields := Fields(line);
    if line == "" || !IsNamed(fields) then Success([])
    else if IsBytesName(fields[0]) then BytesStat(pf, ctx, fields)
    else if pf(fields[1]).None? then Failure(BadNumber("count", fields[1]))
    else Success([OperationTotal(ctx, fields[0], pf(fields[1]).value)])
  }

  function ParseLlite(pf: NumberParser, data: string, ctx: Context): LineResult {
    Run(Lines(raw => LliteLine(pf, ctx, raw)), (), Split(TrimSpace(data), '\n'))
  }

  method ParseLLiteStats(pf: NumberParser, data: string, ctx: Context) returns (r: LineResult)
    ensures r == ParseLlite(pf, data, ctx)
  {
    r := ParseLines(raw => LliteLine(pf, ctx, raw), Split(TrimSpace(data), '\n'));
  }

  // --------------------------------------------------------- LDLM callback stats

  function LdlmLine(pf: NumberParser, source: string, raw: string): LineResult {
    var line := TrimSpace(raw);
    var fields := Fields(line);
    if line == "" || |fields| == 0 || fields[0] == "snapshot_time" || HasSuffix(fields[0], "=") then Success([])
    else if |fields| < 3 || fields[2] != "samples" then Success([])
    else if pf(fields[1]).None? then Failure(BadNumber(fields[0], fields[1]))
    else Success([Observation("client", source, "ldlm_cbd_stats", Counter, map["operation" := fields[0]], pf(fields[1]).value)])
  }

  function ParseLdlm(pf: NumberParser, data: string, source: string): LineResult {
    Run(Lines(raw => LdlmLine(pf, source, raw)), (), Split(data, '\n'))
  }

  method ParseLDLMCBDStats(pf: NumberParser, data: string, source: string) returns (r: LineResult)
    ensures r == ParseLdlm(pf, data, source)
  {
    r := ParseLines(raw => LdlmLine(pf, source, raw), Split(data, '\n'));
  }

  // ------------------------------------------------------------------- time units

  datatype TimeUnit = Nano | Micro | Milli | Whole

  /** The unit is spelled so, with or without a plural, in any mixture of small letters and capitals. */
  predicate UnitIs(unit: string, t: TimeUnit) {
    match t
    case Nano => Spells(unit, "nsec") || Spells(unit, "nsecs")
    case Micro => Spells(unit, "usec") || Spells(unit, "usecs")
    case Milli => Spells(unit, "msec") || Spells(unit, "msecs")
    case Whole => Spells(unit, "sec") || Spells(unit, "secs")
  }

  /** As many seconds as the sum in that unit. */
  predicate InSeconds(t: TimeUnit, sum: real, seconds: real) {
    match t
    case Nano => seconds * 1000000000.0 == sum
    case Micro => seconds * 1000000.0 == sum
    case Milli => seconds * 1000.0 == sum
    case Whole => seconds == sum
  }

  predicate IsTimeUnit(unit: string) {
    UnitIs(unit, Nano) || UnitIs(unit, Micro) || UnitIs(unit, Milli) || UnitIs(unit, Whole)
  }

  lemma UnitWords(unit: string)
    ensures UnitIs(unit, Nano) <==> ToLower(unit) == "nsec" || ToLower(unit) == "nsecs"
    ensures UnitIs(unit, Micro) <==> ToLower(unit) == "usec" || ToLower(unit) == "usecs"
    ensures UnitIs(unit, Milli) <==> ToLower(unit) == "msec" || ToLower(unit) == "msecs"
    ensures UnitIs(unit, Whole) <==> ToLower(unit) == "sec" || ToLower(unit) == "secs"
  {
    LowerSpells(unit, "nsec");
    LowerSpells(unit, "nsecs");
    LowerSpells(unit, "usec");
    LowerSpells(unit, "usecs");
    LowerSpells(unit, "msec");
    LowerSpells(unit, "msecs");
    LowerSpells(unit, "sec");
    LowerSpells(unit, "secs");
  }

  /** The units that are read are the time units, each by its own factor. */
  lemma UnitsAreTimeUnits(unit: string, t: TimeUnit)
    ensures UnitsPerSecond(unit).Some? <==> IsTimeUnit(unit)
    ensures UnitIs(unit, t) ==> UnitsPerSecond(unit) == Some(match t case Nano => 1000000000.0 case Micro => 1000000.0 case Milli => 1000.0 case Whole => 1.0)
  {
    UnitWords(unit);
  }

  /** A line that can be read as a timed one has as many seconds as its sum says. */
  lemma SecondsAreExact(pf: NumberParser, fields: seq<string>, t: TimeUnit)
    requires |fields| >= 7 && fields[2] == "samples" && pf(fields[6]).Some? && UnitIs(Trim(fields[3], {'[', ']'}), t)
    ensures SecondsSum(pf, fields).Some? && InSeconds(t, pf(fields[6]).value, SecondsSum(pf, fields).value)
  {
    UnitsAreTimeUnits(Trim(fields[3], {'[', ']'}), t);
  }

  // -------------------------------------------------------------- latency pairing

  /** A line that reports a latency: named, no byte counter, and with a sum in a time unit. */
  predicate IsTimed(pf: NumberParser, fields: seq<string>) {
    && IsNamed(fields) && !IsBytesName(fields[0])
    && |fields| >= 7 && fields[2] == "samples" && pf(fields[6]).Some?
    && IsTimeUnit(Trim(fields[3], {'[', ']'}))
  }

  lemma TimedHasSeconds(pf: NumberParser, fields: seq<string>)
    requires IsNamed(fields) && !IsBytesName(fields[0])
    ensures SecondsSum(pf, fields).Some? <==> IsTimed(pf, fields)
  {
    if |fields| >= 7 {
      UnitsAreTimeUnits(Trim(fields[3], {'[', ']'}), Whole);
    }
  }

  /** `total` and `seconds` are what one line reports: its count, and its sum in seconds. */
  ghost predicate PairOf(pf: NumberParser, ctx: Context, raw: string, total: Observation, seconds: Observation) {
    var fields := Fields(TrimSpace(raw));
    && IsTimed(pf, fields) && pf(fields[1]).Some?
    && total == Observation("client", ctx.source, "stats_total", Counter,
                            map["component" := ctx.component, "target" := ctx.target, "operation" := fields[0]], pf(fields[1]).value)
    && seconds == Observation("client", ctx.source, "stats_seconds_sum", Counter,
                              map["component" := ctx.component, "target" := ctx.target, "type" := ctx.typ, "operation" := fields[0]], seconds.value)
    && forall t :: UnitIs(Trim(fields[3], {'[', ']'}), t) ==> InSeconds(t, pf(fields[6]).value, seconds.value)
  }

  predicate IsSeconds(o: Observation) {
    o.metricID == "stats_seconds_sum"
  }

  ghost predicate PairAt(pf: NumberParser, ctx: Context, lines: seq<string>, obs: seq<Observation>, i: nat)
    requires i < |obs|
  {
    && i > 0
    && exists n :: 0 <= n < |lines| && PairOf(pf, ctx, lines[n], obs[i - 1], obs[i])
  }

  lemma BytesMetricIDs(name: string)
    ensures var prefix := SizePrefix(name);
            && prefix + "_samples_total" != "stats_seconds_sum"
            && prefix + "_minimum_size_bytes" != "stats_seconds_sum"
            && prefix + "_maximum_size_bytes" != "stats_seconds_sum"
            && prefix + "_bytes_total" != "stats_seconds_sum"
  {
    assert "stats_seconds_sum"[0] == 's';
  }

  /** A seconds observation comes second of two, and only from a time-unit line. */
  lemma LinePairs(pf: NumberParser, ctx: Context, raw: string, i: nat)
    requires ObdLine(pf, ctx, raw).Success? && i < |ObdLine(pf, ctx, raw).value|
    requires IsSeconds(ObdLine(pf, ctx, raw).value[i])
    ensures i == 1 && |ObdLine(pf, ctx, raw).value| == 2
    ensures PairOf(pf, ctx, raw, ObdLine(pf, ctx, raw).value[0], ObdLine(pf, ctx, raw).value[1])
  {
    var fields := Fields(TrimSpace(raw));
    BytesMetricIDs(fields[0]);
    assert "stats_total"[6] == 't' && "stats_seconds_sum"[6] == 's';
    TimedHasSeconds(pf, fields);
    forall t | UnitIs(Trim(fields[3], {'[', ']'}), t)
      ensures InSeconds(t, pf(fields[6]).value, SecondsSum(pf, fields).value)
    {
      SecondsAreExact(pf, fields, t);
    }
  }

  lemma PairLater(pf: NumberParser, ctx: Context, lines: seq<string>, first: seq<Observation>, rest: seq<Observation>, i: nat)
    requires lines != [] && i < |rest| && PairAt(pf, ctx, lines[1..], rest, i)
    ensures PairAt(pf, ctx, lines, first + rest, |first| + i)
  {
    var n :| 0 <= n < |lines[1..]| && PairOf(pf, ctx, lines[1..][n], rest[i - 1], rest[i]);
    assert lines[n + 1] == lines[1..][n];
    assert (first + rest)[|first| + i - 1] == rest[i - 1];
  }

  lemma PairFirst(pf: NumberParser, ctx: Context, lines: seq<string>, rest: seq<Observation>, i: nat)
    requires lines != [] && ObdLine(pf, ctx, lines[0]).Success? && i < |ObdLine(pf, ctx, lines[0]).value|
    requires IsSeconds(ObdLine(pf, ctx, lines[0]).value[i])
    ensures PairAt(pf, ctx, lines, ObdLine(pf, ctx, lines[0]).value + rest, i)
  {
    LinePairs(pf, ctx, lines[0], i);
  }

  lemma {:induction false} RunPairs(pf: NumberParser, ctx: Context, lines: seq<string>, i: nat)
    requires var r := Run(Lines(raw => ObdLine(pf, ctx, raw)), (), lines);
             r.Success? && i < |r.value| && IsSeconds(r.value[i])
    ensures PairAt(pf, ctx, lines, Run(Lines(raw => ObdLine(pf, ctx, raw)), (), lines).value, i)
    decreases |lines|
  {
    var m := Lines(raw => ObdLine(pf, ctx, raw));
    var first, rest := ObdLine(pf, ctx, lines[0]).value, Run(m, (), lines[1..]).value;
    assert Run(m, (), lines).value == first + rest;
    if i < |first| {
      PairFirst(pf, ctx, lines, rest, i);
    } else {
      RunPairs(pf, ctx, lines[1..], i - |first|);
      PairLater(pf, ctx, lines, first, rest, i - |first|);
    }
  }

  /**
    Latency pairing: every `stats_seconds_sum` stands right after the `stats_total` of
    the same line, with the same labels but for `type`, and is the line's sum in seconds.
   */
  lemma SecondsFollowTotals(pf: NumberParser, data: string, ctx: Context, i: nat)
    requires ParseObd(pf, data, ctx).Success? && i < |ParseObd(pf, data, ctx).value|
    requires IsSeconds(ParseObd(pf, data, ctx).value[i])
    ensures PairAt(pf, ctx, Split(data, '\n'), ParseObd(pf, data, ctx).value, i)
  {
    RunPairs(pf, ctx, Split(data, '\n'), i);
  }

  /** A line that is read reports a latency exactly when it is timed. */
  lemma TimedLinesReport(pf: NumberParser, ctx: Context, raw: string)
    requires ObdLine(pf, ctx, raw).Success?
    ensures var obs, fields := ObdLine(pf, ctx, raw).value, Fields(TrimSpace(raw));
            (exists i :: 0 <= i < |obs| && IsSeconds(obs[i])) <==> TrimSpace(raw) != "" && IsTimed(pf, fields)
  {
    var obs, fields := ObdLine(pf, ctx, raw).value, Fields(TrimSpace(raw));
    if i: nat :| i < |obs| && IsSeconds(obs[i]) {
      LinePairs(pf, ctx, raw, i);
    }
    if TrimSpace(raw) != "" && IsTimed(pf, fields) {
      TimedHasSeconds(pf, fields);
      assert IsSeconds(obs[1]);
    }
  }
}
