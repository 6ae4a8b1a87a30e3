/**
  The `rpc_stats` parser: a line-driven state machine over a mutable section record.

  The first half defines what one line means and what a sequence of lines means; the
  second half is the parser in its own form, a class with three fields and a loop that
  appends, proved to compute that meaning.
 */
module RpcStats {
  import opened Wrappers
  import opened GoStrings
  import opened LineMachine
  import opened Observations

  // ----------------------------------------------------------- section headers

  /** What a line does to the section record. */
  datatype Header =
    | LoneModify
    | InFlight
    | Opens(name: string, operation: string)
    | ColumnNames
    | NotHeader

  /** The value of the mutable section record. */
  datatype Section = Section(name: string, operation: string, pending: string)

  const NO_SECTION := Section("", "", "")

  /** The header rules, in the order in which they are tried. */
  function HeaderOf(line: string): Header {
    if line == "modify" then LoneModify
    else if HasPrefix(line, "pages per rpc") then Opens("pages_per_rpc", "")
    else if HasPrefix(line, "rpcs in flight") then InFlight
    else if HasPrefix(line, "dio read RPCs in flight:") then Opens("rpcs_in_flight", "dio_read")
    else if HasPrefix(line, "dio write RPCs in flight:") then Opens("rpcs_in_flight", "dio_write")
    else if HasPrefix(line, "read RPCs in flight:") then Opens("rpcs_in_flight", "read")
    else if HasPrefix(line, "write RPCs in flight:") then Opens("rpcs_in_flight", "write")
    else if HasPrefix(line, "offset") then Opens("rpcs_offset", "")
    else if Contains(line, "read") && Contains(line, "write") then ColumnNames
    else NotHeader
  }

  function AfterHeader(s: Section, header: Header): Section {
    match header
    case LoneModify => s.(pending := "modify")
    case InFlight => Section("rpcs_in_flight", s.pending, "")
    case Opens(name, operation) => Section(name, operation, "")
    case ColumnNames => s.(pending := "")
    case NotHeader => s
  }

  predicate Skipped(line: string) {
    line == "" || HasPrefix(line, "snapshot_time")
  }

  /** The header of a raw line; skipped lines are none. */
  function RawHeader(raw: string): Header {
    var line := TrimSpace(raw);
    if Skipped(line) then NotHeader else HeaderOf(line)
  }

  function AfterLine(s: Section, raw: string): Section {
    AfterHeader(s, RawHeader(raw))
  }

  // --------------------------------------------------------- scalars and buckets

  /** One value column of a bucket line. */
  datatype OpValue = OpValue(name: string, value: real)

  /** What a line reports, before the labels of the target are attached. */
  datatype Item =
    | Scalar(metricID: string, operation: string, value: real)
    | Bucket(section: string, size: string, ops: seq<OpValue>)

  function ScalarKind(what: string): Option<(string, string)> {
    match what
    case "modify_rpcs_in_flight" => Some(("rpcs_current", "modify"))
    case "dio read rpcs in flight" => Some(("rpcs_current", "dio_read"))
    case "dio write rpcs in flight" => Some(("rpcs_current", "dio_write"))
    case "read rpcs in flight" => Some(("rpcs_current", "read"))
    case "write rpcs in flight" => Some(("rpcs_current", "write"))
    case "pending read pages" => Some(("pending_pages", "read"))
    case "pending write pages" => Some(("pending_pages", "write"))
    case _ => None
  }

  function ParseScalar(pf: NumberParser, line: string): Option<Item> {
    match IndexOf(line, ':')
    case None => None
    case Some(colon) =>
      var what := ToLower(TrimSpace(line[..colon]));
      var fields := Fields(line[colon + 1..]);
      if |fields| == 0 then None
      else
        match pf(fields[0])
        case None => None
        case Some(v) =>
          match ScalarKind(what)
          case None => None
          case Some(kind) => Some(Scalar(kind.0, kind.1, v))
  }

  predicate IsBucketLine(line: string) {
    var fields := Fields(line);
    |fields| > 0 && HasSuffix(fields[0], ":")
  }

  /** The index of the write column, if the line has one. */
  function WriteIndex(fields: seq<string>): Option<nat> {
    var writeIndex := if |fields| > 4 && fields[4] == "|" then 5 else 4;
    if |fields| <= writeIndex then None else Some(writeIndex)
  }

  function LineOperations(read: real, write: Option<real>, single: string): seq<OpValue> {
    match write
    case Some(w) => [OpValue("read", read), OpValue("write", w)]
    case None => if single != "" then [OpValue(single, read)] else [OpValue("read", read)]
  }

  function ParseBucket(pf: NumberParser, line: string, s: Section): Result<Item, ParseError> {
    var fields := Fields(line);
    if |fields| < 2 then Failure(TooFewFields("rpc stats", |fields|))
    else
      match pf(fields[1])
      case None => Failure(BadNumber("read", fields[1]))
      case Some(read) =>
        var size := TrimSuffix(fields[0], ":");
        match WriteIndex(fields)
        case None => Success(Bucket(s.name, size, LineOperations(read, None, s.operation)))
        case Some(i) =>
          match pf(fields[i])
          case None => Failure(BadNumber("write", fields[i]))
          case Some(write) => Success(Bucket(s.name, size, LineOperations(read, Some(write), s.operation)))
  }

  /** A line whose columns are read as a bucket of the open section. */
  predicate IsDataLine(pf: NumberParser, s: Section, line: string) {
    && ParseScalar(pf, line).None?
    && HeaderOf(line).NotHeader?
    && s.name != ""
    && IsBucketLine(line)
  }

  /** What one raw line reports in section `s`. */
  function LineItems(pf: NumberParser, s: Section, raw: string): (r: Result<seq<Item>, ParseError>)
    ensures r.Success? ==> |r.value| <= 1
  {
    var line := TrimSpace(raw);
    if Skipped(line) then Success([])
    else
      var scalar := ParseScalar(pf, line);
      if scalar.Some? then Success([scalar.value])
      else if !IsDataLine(pf, s, line) then Success([])
      else
        match ParseBucket(pf, line, s)
        case Failure(e) => Failure(BadBucket(s.name, line, e))
        case Success(item) => Success([item])
  }

  // ----------------------------------------------------------------- documents

  /** The section record after some lines. */
  function SectionAfter(s: Section, lines: seq<string>): Section
    decreases |lines|
  {
    if lines == [] then s else SectionAfter(AfterLine(s, lines[0]), lines[1..])
  }

  function RpcMachine(pf: NumberParser): Machine<Section, Item, ParseError> {
    Machine((s, raw) => AfterLine(s, raw), (s, raw) => LineItems(pf, s, raw))
  }

  /** The section record never depends on how numbers are read. */
  lemma {:induction false} StateIsSection(pf: NumberParser, s: Section, lines: seq<string>)
    ensures StateAfter(RpcMachine(pf), s, lines) == SectionAfter(s, lines)
    decreases |lines|
  {
    if lines != [] {
      StateIsSection(pf, AfterLine(s, lines[0]), lines[1..]);
    }
  }

  function SectionMetric(section: string): (string, MetricType) {
    match section
    case "pages_per_rpc" => ("pages_per_rpc_total", Counter)
    case "rpcs_in_flight" => ("rpcs_in_flight", Gauge)
    case "rpcs_offset" => ("rpcs_offset", Gauge)
    case _ => ("", Counter)
  }

  function ScalarObservation(ctx: Context, metricID: string, operation: string, value: real): Observation {
    Observation("client", ctx.source, metricID, Gauge,
                map["component" := ctx.component, "target" := ctx.target, "type" := ctx.typ, "operation" := operation],
                value)
  }

  function BucketObservation(ctx: Context, section: string, size: string, op: OpValue): Observation {
    var labels := map["component" := ctx.component, "target" := ctx.target, "operation" := op.name, "size" := size];
    Observation("client", ctx.source, SectionMetric(section).0, SectionMetric(section).1,
                if section == "rpcs_in_flight" then labels["type" := ctx.typ] else labels,
                op.value)
  }

  function BucketObservations(ctx: Context, section: string, size: string, ops: seq<OpValue>): (r: seq<Observation>)
    ensures |r| == |ops| && forall i :: 0 <= i < |ops| ==> r[i] == BucketObservation(ctx, section, size, ops[i])
  {
    seq(|ops|, i requires 0 <= i < |ops| => BucketObservation(ctx, section, size, ops[i]))
  }

  function ItemObservations(ctx: Context, item: Item): seq<Observation> {
    match item
    case Scalar(metricID, operation, value) => [ScalarObservation(ctx, metricID, operation, value)]
    case Bucket(section, size, ops) => BucketObservations(ctx, section, size, ops)
  }

  function Render(ctx: Context, items: seq<Item>): seq<Observation> {
    if items == [] then [] else ItemObservations(ctx, items[0]) + Render(ctx, items[1..])
  }

  /** What one raw line adds to the observations. */
  function LineObservations(pf: NumberParser, ctx: Context, s: Section, raw: string): Result<seq<Observation>, ParseError> {
    RenderResult(ctx, LineItems(pf, s, raw))
  }

  function ObservationsFrom(pf: NumberParser, ctx: Context, s: Section, lines: seq<string>)
    : Result<seq<Observation>, ParseError>
  {
    RenderResult(ctx, Run(RpcMachine(pf), s, lines))
  }

  function RenderResult(ctx: Context, r: Result<seq<Item>, ParseError>): Result<seq<Observation>, ParseError> {
    match r
    case Failure(e) => Failure(e)
    case Success(items) => Success(Render(ctx, items))
  }

  /** The meaning of an `rpc_stats` file. */
  function Parse(pf: NumberParser, data: string, ctx: Context): Result<seq<Observation>, ParseError> {
    ObservationsFrom(pf, ctx, NO_SECTION, Split(data, '\n'))
  }

  // ------------------------------------------------------ the parser's own form

  /** What the loop remembers from one line to the next. */
  class RpcStatsSection {
    var name: string
    var operation: string
    var pendingOperation: string

    function View(): Section
      reads this
    {
      Section(name, operation, pendingOperation)
    }

    constructor ()
      ensures View() == NO_SECTION
    {
      name, operation, pendingOperation := "", "", "";
    }

    /** Starts a section and drops any pending operation. */
    method Enter(newName: string, newOperation: string)
      modifies this
      ensures View() == Section(newName, newOperation, "")
    {
      name := newName;
      operation := newOperation;
      pendingOperation := "";
    }

    /** Updates the record if the line is a header and reports whether it was one. */
    method ApplyHeader(line: string) returns (isHeader: bool)
      modifies this
      ensures View() == AfterHeader(old(View()), HeaderOf(line))
      ensures isHeader <==> !HeaderOf(line).NotHeader?
    {
      if line == "modify" {
        pendingOperation := "modify";
      } else if HasPrefix(line, "pages per rpc") {
        Enter("pages_per_rpc", "");
      } else if HasPrefix(line, "rpcs in flight") {
        Enter("rpcs_in_flight", pendingOperation);
      } else if HasPrefix(line, "dio read RPCs in flight:") {
        Enter("rpcs_in_flight", "dio_read");
      } else if HasPrefix(line, "dio write RPCs in flight:") {
        Enter("rpcs_in_flight", "dio_write");
      } else if HasPrefix(line, "read RPCs in flight:") {
        Enter("rpcs_in_flight", "read");
      } else if HasPrefix(line, "write RPCs in flight:") {
        Enter("rpcs_in_flight", "write");
      } else if HasPrefix(line, "offset") {
        Enter("rpcs_offset", "");
      } else if Contains(line, "read") && Contains(line, "write") {
        pendingOperation := "";
      } else {
        return false;
      }
      return true;
    }
  }

  /** Parses a data line such as `1:  10  50  50  20  40  40`. */
  method ParseRPCLine(pf: NumberParser, line: string, ctx: Context, section: string, singleOperation: string)
    returns (r: Result<seq<Observation>, ParseError>)
    ensures var bucket := ParseBucket(pf, line, Section(section, singleOperation, ""));
            r == if bucket.Failure? then Failure(bucket.error) else Success(ItemObservations(ctx, bucket.value))
  {
    var fields := Fields(line);
    if |fields| < 2 {
      return Failure(TooFewFields("rpc stats", |fields|));
    }
    var size := TrimSuffix(fields[0], ":");
    var read := pf(fields[1]);
    if read.None? {
      return Failure(BadNumber("read", fields[1]));
    }
    var write := None;
    var writeIndex := WriteIndex(fields);
    if writeIndex.Some? {
      write := pf(fields[writeIndex.value]);
      if write.None? {
        return Failure(BadNumber("write", fields[writeIndex.value]));
      }
    }
    var observations := [];
    var ops := LineOperations(read.value, write, singleOperation);
    for i := 0 to |ops|
      invariant observations == BucketObservations(ctx, section, size, ops)[..i]
    {
      var labels := map["component" := ctx.component, "target" := ctx.target, "operation" := ops[i].name, "size" := size];
      if section == "rpcs_in_flight" {
        labels := labels["type" := ctx.typ];
      }
      var metric := SectionMetric(section);
      observations := observations + [Observation("client", ctx.source, metric.0, metric.1, labels, ops[i].value)];
    }
    assert observations == BucketObservations(ctx, section, size, ops);
    return Success(observations);
  }

  /** The body of the parser's loop: one raw line, in the current section. */
  method ParseRawLine(pf: NumberParser, raw: string, ctx: Context, section: RpcStatsSection)
    returns (r: Result<seq<Observation>, ParseError>)
    modifies section
    ensures r == LineObservations(pf, ctx, old(section.View()), raw)
    ensures section.View() == AfterLine(old(section.View()), raw)
  {
    LineCases(pf, ctx, section.View(), raw);
    var line := TrimSpace(raw);
    if Skipped(line) {
      return Success([]);
    }
    var observations := [];
    var scalar := ParseScalar(pf, line);
    if scalar.Some? {
      observations := [ScalarObservation(ctx, scalar.value.metricID, scalar.value.operation, scalar.value.value)];
    }
    var isHeader := section.ApplyHeader(line);
    if isHeader || scalar.Some? || section.name == "" || !IsBucketLine(line) {
      return Success(observations);
    }
    var obs := ParseRPCLine(pf, line, ctx, section.name, section.operation);
    if obs.Failure? {
      return Failure(BadBucket(section.name, line, obs.error));
    }
    return Success(obs.value);
  }

  method ParseRPCStats(pf: NumberParser, data: string, ctx: Context) returns (r: Result<seq<Observation>, ParseError>)
    ensures r == Parse(pf, data, ctx)
  {
    var observations := [];
    var section := new RpcStatsSection();
    var lines := Split(data, '\n');
    var i := 0;
    assert lines[0..] == lines;
    PrependNothing(Parse(pf, data, ctx));
    while i < |lines|
      invariant 0 <= i <= |lines|
      invariant Parse(pf, data, ctx)
             == Then(Success(observations), ObservationsFrom(pf, ctx, section.View(), lines[i..]))
    {
      ObservationsStep(pf, ctx, section.View(), lines[i..]);
      var obs := ParseRawLine(pf, lines[i], ctx, section);
      if obs.Failure? {
        return Failure(obs.error);
      }
      ThenAssociative(Success(observations), obs, ObservationsFrom(pf, ctx, section.View(), lines[i + 1..]));
      observations := observations + obs.value;
      i := i + 1;
    }
    assert observations + [] == observations;
    return Success(observations);
  }

  lemma RenderOne(ctx: Context, item: Item)
    ensures Render(ctx, [item]) == ItemObservations(ctx, item)
  {
    assert ItemObservations(ctx, item) + [] == ItemObservations(ctx, item);
  }

  lemma RenderThen(ctx: Context, a: Result<seq<Item>, ParseError>, b: Result<seq<Item>, ParseError>)
    ensures RenderResult(ctx, Then(a, b)) == Then(RenderResult(ctx, a), RenderResult(ctx, b))
  {
    if a.Success? && b.Success? {
      RenderConcat(ctx, a.value, b.value);
    }
  }

  /** One turn of the parser's loop. */
  lemma ObservationsStep(pf: NumberParser, ctx: Context, s: Section, lines: seq<string>)
    requires lines != []
    ensures ObservationsFrom(pf, ctx, s, lines)
         == Then(LineObservations(pf, ctx, s, lines[0]), ObservationsFrom(pf, ctx, AfterLine(s, lines[0]), lines[1..]))
  {
    RenderThen(ctx, LineItems(pf, s, lines[0]), Run(RpcMachine(pf), AfterLine(s, lines[0]), lines[1..]));
  }

  /** The branches of the loop body, one by one. */
  lemma LineCases(pf: NumberParser, ctx: Context, s: Section, raw: string)
    ensures var line := TrimSpace(raw);
            var scalar := ParseScalar(pf, line);
            var bucket := ParseBucket(pf, line, s.(pending := ""));
            LineObservations(pf, ctx, s, raw)
            == if Skipped(line) then Success([])
               else if scalar.Some? then
                 Success([ScalarObservation(ctx, scalar.value.metricID, scalar.value.operation, scalar.value.value)])
               else if !IsDataLine(pf, s, line) then Success([])
               else if bucket.Failure? then Failure(BadBucket(s.name, line, bucket.error))
               else Success(ItemObservations(ctx, bucket.value))
  {
    var items := LineItems(pf, s, raw);
    if items.Success? && |items.value| == 1 {
      RenderOne(ctx, items.value[0]);
      assert items.value == [items.value[0]];
    }
  }

  lemma {:induction false} RenderConcat(ctx: Context, a: seq<Item>, b: seq<Item>)
    ensures Render(ctx, a + b) == Render(ctx, a) + Render(ctx, b)
  {
    if a == [] {
      assert a + b == b;
    } else {
      assert (a + b)[1..] == a[1..] + b;
      RenderConcat(ctx, a[1..], b);
    }
  }
}
