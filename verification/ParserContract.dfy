/** Every parser speaks the contract: its metric IDs are entries and its labels are theirs. */
module ParserContract {
  import opened Wrappers
  import opened GoStrings
  import opened LineMachine
  import opened Observations
  import opened Contract
  import opened StatsFiles
  import opened TargetFiles
  import R = RpcStats
  import S = RpcSeries

  // -------------------------------------------------- what each parser relies on

  predicate RpcEntries(reg: Registry) {
    && HasEntry(reg, "rpcs_current", TARGET_TYPE_OPERATION)
    && HasEntry(reg, "pending_pages", TARGET_TYPE_OPERATION)
    && HasEntry(reg, "pages_per_rpc_total", BUCKET)
    && HasEntry(reg, "rpcs_in_flight", TYPED_BUCKET)
    && HasEntry(reg, "rpcs_offset", BUCKET)
  }

  predicate OperationEntries(reg: Registry) {
    && HasEntry(reg, "stats_total", TARGET_OPERATION)
    && HasEntry(reg, "stats_seconds_sum", TARGET_TYPE_OPERATION)
    && HasEntry(reg, "ldlm_cbd_stats", OPERATION)
  }

  predicate SizeEntries(reg: Registry, prefix: string) {
    && HasEntry(reg, prefix + "_samples_total", TARGET)
    && HasEntry(reg, prefix + "_minimum_size_bytes", TARGET)
    && HasEntry(reg, prefix + "_maximum_size_bytes", TARGET)
    && HasEntry(reg, prefix + "_bytes_total", TARGET)
  }

  predicate StatsEntries(reg: Registry) {
    OperationEntries(reg) && SizeEntries(reg, "read") && SizeEntries(reg, "write")
  }

  ghost predicate FileEntries(reg: Registry) {
    && (forall file :: LliteFileMetric(file).Some? ==> HasEntry(reg, LliteFileMetric(file).value, TARGET))
    && (forall file :: ClientFileEntry(file).Some? ==>
          HasEntry(reg, ClientFileEntry(file).value.metricID, if ClientFileEntry(file).value.hasType then TARGET_TYPE else TARGET))
    && HasEntry(reg, "target_state", TARGET_TYPE_STATE)
  }

  lemma ContractHasRpcEntries()
    ensures RpcEntries(Lookup)
  {
  }

  lemma ContractHasOperationEntries()
    ensures OperationEntries(Lookup)
  {
  }

  lemma ContractHasReadEntries()
    ensures SizeEntries(Lookup, "read")
  {
    ReadNames();
  }

  lemma ContractHasWriteEntries()
    ensures SizeEntries(Lookup, "write")
  {
    WriteNames();
  }

  lemma ContractHasShortFile(file: string)
    requires LliteFileMetric(file).Some? && |file| <= 11
    ensures HasEntry(Lookup, LliteFileMetric(file).value, TARGET)
  {
  }

  lemma ContractHasLongFile(file: string)
    requires LliteFileMetric(file).Some? && |file| > 11
    ensures HasEntry(Lookup, LliteFileMetric(file).value, TARGET)
  {
  }

  lemma ContractHasLliteFile(file: string)
    requires LliteFileMetric(file).Some?
    ensures HasEntry(Lookup, LliteFileMetric(file).value, TARGET)
  {
    if |file| <= 11 {
      ContractHasShortFile(file);
    } else {
      ContractHasLongFile(file);
    }
  }

  lemma ContractHasClientFile(file: string)
    requires ClientFileEntry(file).Some?
    ensures var e := ClientFileEntry(file).value;
            HasEntry(Lookup, e.metricID, if e.hasType then TARGET_TYPE else TARGET)
  {
  }

  lemma ContractHasState()
    ensures HasEntry(Lookup, "target_state", TARGET_TYPE_STATE)
  {
  }

  /** A registry with all entries that the parsers of the clients rely on. */
  ghost predicate ServesClients(reg: Registry) {
    RpcEntries(reg) && StatsEntries(reg) && FileEntries(reg)
  }

  lemma ContractServesClients()
    ensures ServesClients(Lookup)
  {
    ContractHasRpcEntries();
    ContractHasOperationEntries();
    ContractHasReadEntries();
    ContractHasWriteEntries();
    ContractHasState();
    forall file | LliteFileMetric(file).Some?
      ensures HasEntry(Lookup, LliteFileMetric(file).value, TARGET)
    {
      ContractHasLliteFile(file);
    }
    forall file | ClientFileEntry(file).Some?
      ensures HasEntry(Lookup, ClientFileEntry(file).value.metricID, if ClientFileEntry(file).value.hasType then TARGET_TYPE else TARGET)
    {
      ContractHasClientFile(file);
    }
  }

  // ------------------------------------------------------------------ conformance

  lemma LabelKeySets()
    ensures KeySet(TARGET) == {"component", "target"}
    ensures KeySet(TARGET_TYPE) == {"component", "target", "type"}
    ensures KeySet(TARGET_OPERATION) == {"component", "target", "operation"}
    ensures KeySet(TARGET_TYPE_OPERATION) == {"component", "target", "type", "operation"}
    ensures KeySet(TARGET_TYPE_STATE) == {"component", "target", "type", "state"}
    ensures KeySet(BUCKET) == {"component", "target", "operation", "size"}
    ensures KeySet(TYPED_BUCKET) == {"component", "target", "operation", "size", "type"}
    ensures KeySet(OPERATION) == {"operation"}
  {
  }

  lemma ItemConforms(reg: Registry, ctx: Context, item: R.Item)
    requires RpcEntries(reg) && S.Proper(item)
    ensures AllConform(reg, R.ItemObservations(ctx, item))
  {
    LabelKeySets();
    match item
    case Scalar(metricID, operation, value) =>
      assert Conforms(reg, R.ScalarObservation(ctx, metricID, operation, value));
    case Bucket(section, size, ops) =>
      forall i | 0 <= i < |ops|
        ensures Conforms(reg, R.BucketObservation(ctx, section, size, ops[i]))
      {
        BucketConforms(reg, ctx, section, size, ops[i]);
      }
  }

  lemma BucketConforms(reg: Registry, ctx: Context, section: string, size: string, op: R.OpValue)
    requires RpcEntries(reg) && S.IsSection(section)
    ensures Conforms(reg, R.BucketObservation(ctx, section, size, op))
  {
    LabelKeySets();
  }

  lemma {:induction false} RenderConforms(reg: Registry, ctx: Context, items: seq<R.Item>)
    requires RpcEntries(reg) && forall item :: item in items ==> S.Proper(item)
    ensures AllConform(reg, R.Render(ctx, items))
    decreases |items|
  {
    if items != [] {
      ItemConforms(reg, ctx, items[0]);
      RenderConforms(reg, ctx, items[1..]);
    }
  }

  /** Every observation of an `rpc_stats` file is one of the contract. */
  lemma RpcStatsConform(reg: Registry, pf: NumberParser, data: string, ctx: Context)
    requires RpcEntries(reg) && R.Parse(pf, data, ctx).Success?
    ensures AllConform(reg, R.Parse(pf, data, ctx).value)
  {
    var lines := Split(data, '\n');
    S.RunIsProper(pf, R.NO_SECTION, lines);
    RenderConforms(reg, ctx, Run(R.RpcMachine(pf), R.NO_SECTION, lines).value);
  }

  /** Parser and contract agree on the type of a metric, except for two of the histograms. */
  predicate TypedAsDocumented(reg: Registry, o: Observation) {
    && reg(o.metricID).Some?
    && (o.metricType != reg(o.metricID).value.metricType <==> o.metricID == "rpcs_in_flight" || o.metricID == "rpcs_offset")
  }

  predicate HasType(reg: Registry, metricID: string, metricType: MetricType) {
    reg(metricID).Some? && reg(metricID).value.metricType == metricType
  }

  predicate RpcTypes(reg: Registry) {
    && HasType(reg, "rpcs_current", Gauge)
    && HasType(reg, "pending_pages", Gauge)
    && HasType(reg, "pages_per_rpc_total", Counter)
    && HasType(reg, "rpcs_in_flight", Counter)
    && HasType(reg, "rpcs_offset", Counter)
  }

  lemma ContractHasRpcTypes()
    ensures RpcTypes(Lookup)
  {
  }

  lemma ItemTypes(reg: Registry, ctx: Context, item: R.Item, i: nat)
    requires RpcTypes(reg) && S.Proper(item) && i < |R.ItemObservations(ctx, item)|
    ensures TypedAsDocumented(reg, R.ItemObservations(ctx, item)[i])
  {
  }

  lemma {:induction false} RenderTypes(reg: Registry, ctx: Context, items: seq<R.Item>, i: nat)
    requires RpcTypes(reg) && (forall item :: item in items ==> S.Proper(item)) && i < |R.Render(ctx, items)|
    ensures TypedAsDocumented(reg, R.Render(ctx, items)[i])
    decreases |items|
  {
    var first := R.ItemObservations(ctx, items[0]);
    if i < |first| {
      ItemTypes(reg, ctx, items[0], i);
    } else {
      RenderTypes(reg, ctx, items[1..], i - |first|);
    }
  }

  /** In every `rpc_stats` file, the parser's type differs from the contract's for exactly two metrics. */
  lemma RpcStatsTypes(pf: NumberParser, data: string, ctx: Context, i: nat)
    requires R.Parse(pf, data, ctx).Success? && i < |R.Parse(pf, data, ctx).value|
    ensures TypedAsDocumented(Lookup, R.Parse(pf, data, ctx).value[i])
  {
    var lines := Split(data, '\n');
    S.RunIsProper(pf, R.NO_SECTION, lines);
    ContractHasRpcTypes();
    RenderTypes(Lookup, ctx, Run(R.RpcMachine(pf), R.NO_SECTION, lines).value, i);
  }

  lemma SizesConform(reg: Registry, ctx: Context, prefix: string, count: real, min: real, max: real, sum: real)
    requires SizeEntries(reg, prefix)
    ensures AllConform(reg, SizeObservations(ctx, prefix, count, min, max, sum))
  {
    LabelKeySets();
  }

  lemma BytesConform(reg: Registry, pf: NumberParser, ctx: Context, fields: seq<string>)
    requires StatsEntries(reg) && |fields| >= 1 && BytesStat(pf, ctx, fields).Success?
    ensures AllConform(reg, BytesStat(pf, ctx, fields).value)
  {
    SizesConform(reg, ctx, SizePrefix(fields[0]), pf(fields[1]).value, pf(fields[4]).value, pf(fields[5]).value, pf(fields[6]).value);
  }

  lemma TotalConforms(reg: Registry, ctx: Context, operation: string, count: real, seconds: real)
    requires StatsEntries(reg)
    ensures Conforms(reg, OperationTotal(ctx, operation, count))
    ensures Conforms(reg, SecondsObservation(ctx, operation, seconds))
  {
    LabelKeySets();
  }

  lemma ObdLineConforms(reg: Registry, pf: NumberParser, ctx: Context, raw: string)
    requires StatsEntries(reg) && ObdLine(pf, ctx, raw).Success?
    ensures AllConform(reg, ObdLine(pf, ctx, raw).value)
  {
    var line := TrimSpace(raw);
    var fields := Fields(line);
    if line != "" && IsNamed(fields) {
      if IsBytesName(fields[0]) {
        BytesConform(reg, pf, ctx, fields);
      } else {
        var seconds := SecondsSum(pf, fields);
        TotalConforms(reg, ctx, fields[0], pf(fields[1]).value, if seconds.Some? then seconds.value else 0.0);
      }
    }
  }

  lemma LliteLineConforms(reg: Registry, pf: NumberParser, ctx: Context, raw: string)
    requires StatsEntries(reg) && LliteLine(pf, ctx, raw).Success?
    ensures AllConform(reg, LliteLine(pf, ctx, raw).value)
  {
    var line := TrimSpace(raw);
    var fields := Fields(line);
    if line != "" && IsNamed(fields) {
      if IsBytesName(fields[0]) {
        BytesConform(reg, pf, ctx, fields);
      } else {
        TotalConforms(reg, ctx, fields[0], pf(fields[1]).value, 0.0);
      }
    }
  }

  lemma LdlmLineConforms(reg: Registry, pf: NumberParser, source: string, raw: string)
    requires StatsEntries(reg) && LdlmLine(pf, source, raw).Success?
    ensures AllConform(reg, LdlmLine(pf, source, raw).value)
  {
    LabelKeySets();
  }

  /** If every line that is read conforms, the run does. */
  lemma {:induction false} LinesConform(reg: Registry, read: string -> LineResult, lines: seq<string>)
    requires forall line :: read(line).Success? ==> AllConform(reg, read(line).value)
    requires Run(Lines(read), (), lines).Success?
    ensures AllConform(reg, Run(Lines(read), (), lines).value)
    decreases |lines|
  {
    if lines != [] {
      LinesConform(reg, read, lines[1..]);
      assert read(lines[0]).Success?;
    }
  }

  lemma ObdConforms(reg: Registry, pf: NumberParser, data: string, ctx: Context)
    requires StatsEntries(reg) && ParseObd(pf, data, ctx).Success?
    ensures AllConform(reg, ParseObd(pf, data, ctx).value)
  {
    var read := raw => ObdLine(pf, ctx, raw);
    forall line | read(line).Success? ensures AllConform(reg, read(line).value) { ObdLineConforms(reg, pf, ctx, line); }
    LinesConform(reg, read, Split(data, '\n'));
  }

  lemma LliteConforms(reg: Registry, pf: NumberParser, data: string, ctx: Context)
    requires StatsEntries(reg) && ParseLlite(pf, data, ctx).Success?
    ensures AllConform(reg, ParseLlite(pf, data, ctx).value)
  {
    var read := raw => LliteLine(pf, ctx, raw);
    forall line | read(line).Success? ensures AllConform(reg, read(line).value) { LliteLineConforms(reg, pf, ctx, line); }
    LinesConform(reg, read, Split(TrimSpace(data), '\n'));
  }

  lemma LdlmConforms(reg: Registry, pf: NumberParser, data: string, source: string)
    requires StatsEntries(reg) && ParseLdlm(pf, data, source).Success?
    ensures AllConform(reg, ParseLdlm(pf, data, source).value)
  {
    var read := raw => LdlmLine(pf, source, raw);
    forall line | read(line).Success? ensures AllConform(reg, read(line).value) { LdlmLineConforms(reg, pf, source, line); }
    LinesConform(reg, read, Split(data, '\n'));
  }

  lemma LliteFileConforms(reg: Registry, pf: NumberParser, data: string, file: string, ctx: Context)
    requires FileEntries(reg)
    ensures ParseLliteFile(pf, data, file, ctx).Success? ==> AllConform(reg, ParseLliteFile(pf, data, file, ctx).value)
  {
    LabelKeySets();
    if LliteFileMetric(file).Some? {
      assert HasEntry(reg, LliteFileMetric(file).value, TARGET);
    }
  }

  lemma ClientFileConforms(reg: Registry, pf: NumberParser, data: string, file: string, ctx: Context)
    requires FileEntries(reg)
    ensures ParseClientFile(pf, data, file, ctx).Success? ==> AllConform(reg, ParseClientFile(pf, data, file, ctx).value)
  {
    LabelKeySets();
    if ClientFileEntry(file).Some? {
      var e := ClientFileEntry(file).value;
      assert HasEntry(reg, e.metricID, if e.hasType then TARGET_TYPE else TARGET);
    }
  }

  lemma StateConforms(reg: Registry, data: string, ctx: Context)
    requires FileEntries(reg)
    ensures AllConform(reg, ParseState(data, ctx))
  {
    LabelKeySets();
  }
}
