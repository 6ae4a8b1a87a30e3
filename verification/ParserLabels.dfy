/** Every observation of a client file carries the file's path and the labels of its target. */
module ParserLabels {
  import opened Wrappers
  import opened GoStrings
  import opened LineMachine
  import opened Observations
  import opened StatsFiles
  import opened TargetFiles
  import R = RpcStats

  /** The observation is one of this file and target; not every metric tells the type. */
  predicate Labelled(o: Observation, ctx: Context) {
    && o.collector == "client"
    && o.source == ctx.source
    && "component" in o.labels && o.labels["component"] == ctx.component
    && "target" in o.labels && o.labels["target"] == ctx.target
    && ("type" in o.labels ==> o.labels["type"] == ctx.typ)
  }

  predicate AllLabelled(obs: seq<Observation>, ctx: Context) {
    forall i :: 0 <= i < |obs| ==> Labelled(obs[i], ctx)
  }

  // -------------------------------------------------------------------- rpc_stats

  lemma ItemLabelled(ctx: Context, item: R.Item)
    ensures AllLabelled(R.ItemObservations(ctx, item), ctx)
  {
  }

  lemma {:induction false} RenderLabelled(ctx: Context, items: seq<R.Item>)
    ensures AllLabelled(R.Render(ctx, items), ctx)
    decreases |items|
  {
    if items != [] {
      ItemLabelled(ctx, items[0]);
      RenderLabelled(ctx, items[1..]);
    }
  }

  lemma RpcStatsLabelled(pf: NumberParser, data: string, ctx: Context)
    requires R.Parse(pf, data, ctx).Success?
    ensures AllLabelled(R.Parse(pf, data, ctx).value, ctx)
  {
    RenderLabelled(ctx, Run(R.RpcMachine(pf), R.NO_SECTION, Split(data, '\n')).value);
  }

  // ------------------------------------------------------------------ stats files

  lemma BytesLabelled(pf: NumberParser, ctx: Context, fields: seq<string>)
    requires |fields| >= 1 && BytesStat(pf, ctx, fields).Success?
    ensures AllLabelled(BytesStat(pf, ctx, fields).value, ctx)
  {
  }

  lemma ObdLineLabelled(pf: NumberParser, ctx: Context, raw: string)
    requires ObdLine(pf, ctx, raw).Success?
    ensures AllLabelled(ObdLine(pf, ctx, raw).value, ctx)
  {
    var fields := Fields(TrimSpace(raw));
    if TrimSpace(raw) != "" && IsNamed(fields) && IsBytesName(fields[0]) {
      BytesLabelled(pf, ctx, fields);
    }
  }

  lemma LliteLineLabelled(pf: NumberParser, ctx: Context, raw: string)
    requires LliteLine(pf, ctx, raw).Success?
    ensures AllLabelled(LliteLine(pf, ctx, raw).value, ctx)
  {
    var fields := Fields(TrimSpace(raw));
    if TrimSpace(raw) != "" && IsNamed(fields) && IsBytesName(fields[0]) {
      BytesLabelled(pf, ctx, fields);
    }
  }

  lemma {:induction false} LinesLabelled(ctx: Context, read: string -> LineResult, lines: seq<string>)
    requires forall line :: read(line).Success? ==> AllLabelled(read(line).value, ctx)
    requires Run(Lines(read), (), lines).Success?
    ensures AllLabelled(Run(Lines(read), (), lines).value, ctx)
    decreases |lines|
  {
    if lines != [] {
      LinesLabelled(ctx, read, lines[1..]);
      assert read(lines[0]).Success?;
    }
  }

  lemma ObdLabelled(pf: NumberParser, data: string, ctx: Context)
    requires ParseObd(pf, data, ctx).Success?
    ensures AllLabelled(ParseObd(pf, data, ctx).value, ctx)
  {
    var read := raw => ObdLine(pf, ctx, raw);
    forall line | read(line).Success? ensures AllLabelled(read(line).value, ctx) { ObdLineLabelled(pf, ctx, line); }
    LinesLabelled(ctx, read, Split(data, '\n'));
  }

  lemma LliteLabelled(pf: NumberParser, data: string, ctx: Context)
    requires ParseLlite(pf, data, ctx).Success?
    ensures AllLabelled(ParseLlite(pf, data, ctx).value, ctx)
  {
    var read := raw => LliteLine(pf, ctx, raw);
    forall line | read(line).Success? ensures AllLabelled(read(line).value, ctx) { LliteLineLabelled(pf, ctx, line); }
    LinesLabelled(ctx, read, Split(TrimSpace(data), '\n'));
  }

  // ------------------------------------------------------------ single-value files

  lemma FilesLabelled(pf: NumberParser, data: string, file: string, ctx: Context)
    ensures ParseLliteFile(pf, data, file, ctx).Success? ==> AllLabelled(ParseLliteFile(pf, data, file, ctx).value, ctx)
    ensures ParseClientFile(pf, data, file, ctx).Success? ==> AllLabelled(ParseClientFile(pf, data, file, ctx).value, ctx)
    ensures AllLabelled(ParseState(data, ctx), ctx)
  {
  }
}
