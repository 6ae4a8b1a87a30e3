/**
  What an `rpc_stats` document reports, spelled out: every line with its metric, its type,
  its labels and its value, from the lines of the document alone. The parser returns
  exactly that.
 */
module RpcReport {
  import opened Wrappers
  import opened GoStrings
  import opened Observations
  import opened RpcStats
  import opened RpcDocument

  /** Where a line stands: the open histogram, what its single columns count, and whether `modify` is pending. */
  datatype Place = Place(histogram: Option<Histogram>, single: string, modifying: bool)

  const TOP := Place(None, "read", false)

  function Past(p: Place, line: Line): Place {
    match line
    case ModifyLine => p.(modifying := true)
    case ColumnLine(_) => p.(modifying := false)
    case Heading(PagesPerRpc, _) => Place(Some(PagesPerRpc), "read", false)
    case Heading(RpcsInFlight, _) => Place(Some(RpcsInFlight), if p.modifying then "modify" else "read", false)
    case Heading(Offset, _) => Place(Some(Offset), "read", false)
    case Subheading(DioRead, _) => Place(Some(RpcsInFlight), "dio_read", false)
    case Subheading(DioWrite, _) => Place(Some(RpcsInFlight), "dio_write", false)
    case Subheading(Read, _) => Place(Some(RpcsInFlight), "read", false)
    case Subheading(Write, _) => Place(Some(RpcsInFlight), "write", false)
    case _ => p
  }

  /** One size of a histogram: pages are counted, the others gauged, and only RPCs in flight have a type label. */
  function SizeReport(ctx: Context, h: Histogram, operation: string, size: nat, value: nat): Observation {
    match h
    case PagesPerRpc =>
      Observation("client", ctx.source, "pages_per_rpc_total", Counter,
                  map["component" := ctx.component, "target" := ctx.target, "operation" := operation, "size" := Decimal(size)],
                  value as real)
    case RpcsInFlight =>
      Observation("client", ctx.source, "rpcs_in_flight", Gauge,
                  map["component" := ctx.component, "target" := ctx.target, "type" := ctx.typ, "operation" := operation, "size" := Decimal(size)],
                  value as real)
    case Offset =>
      Observation("client", ctx.source, "rpcs_offset", Gauge,
                  map["component" := ctx.component, "target" := ctx.target, "operation" := operation, "size" := Decimal(size)],
                  value as real)
  }

  function NowReport(ctx: Context, metricID: string, operation: string, value: nat): Observation {
    Observation("client", ctx.source, metricID, Gauge,
                map["component" := ctx.component, "target" := ctx.target, "type" := ctx.typ, "operation" := operation],
                value as real)
  }

  function LineReport(ctx: Context, p: Place, line: Line): seq<Observation> {
    match line
    case CounterLine(ModifyRpcs, count) => [NowReport(ctx, "rpcs_current", "modify", count)]
    case CounterLine(PendingReadPages, count) => [NowReport(ctx, "pending_pages", "read", count)]
    case CounterLine(PendingWritePages, count) => [NowReport(ctx, "pending_pages", "write", count)]
    case Subheading(DioRead, current) => [NowReport(ctx, "rpcs_current", "dio_read", current)]
    case Subheading(DioWrite, current) => [NowReport(ctx, "rpcs_current", "dio_write", current)]
    case Subheading(Read, current) => [NowReport(ctx, "rpcs_current", "read", current)]
    case Subheading(Write, current) => [NowReport(ctx, "rpcs_current", "write", current)]
    case RowLine(ReadOnly(size, value, _, _)) =>
      if p.histogram.None? then [] else [SizeReport(ctx, p.histogram.value, p.single, size, value)]
    case RowLine(ReadWrite(size, read, _, _, _, write, _)) =>
      if p.histogram.None? then []
      else [SizeReport(ctx, p.histogram.value, "read", size, read), SizeReport(ctx, p.histogram.value, "write", size, write)]
    case _ => []
  }

  function PlaceAt(doc: Document): Place {
    if doc == [] then TOP else Past(PlaceAt(doc[..|doc| - 1]), doc[|doc| - 1])
  }

  function Report(ctx: Context, doc: Document): seq<Observation> {
    if doc == [] then []
    else
      var front := doc[..|doc| - 1];
      Report(ctx, front) + LineReport(ctx, PlaceAt(front), doc[|doc| - 1])
  }

  // ----------------------------------------------------------- the report is what is read

  /** A place in a document and the parser's record of it. */
  predicate Records(s: Section, p: Place) {
    && (p.histogram.None? ==> s.name == "")
    && (p.histogram.Some? ==> s.name == HistogramSection(p.histogram.value))
    && p.single == (if s.operation == "" then "read" else s.operation)
    && s.pending == (if p.modifying then "modify" else "")
  }

  lemma RecordsStay(s: Section, p: Place, line: Line)
    requires Records(s, p)
    ensures Records(After(s, line), Past(p, line))
  {
  }

  lemma {:induction false} RecordsAt(doc: Document)
    ensures Records(SectionAt(NO_SECTION, doc), PlaceAt(doc))
    decreases |doc|
  {
    if doc != [] {
      RecordsAt(doc[..|doc| - 1]);
      RecordsStay(SectionAt(NO_SECTION, doc[..|doc| - 1]), PlaceAt(doc[..|doc| - 1]), doc[|doc| - 1]);
    }
  }

  /** A size of an open histogram is rendered as it is reported. */
  lemma SizeIsReported(ctx: Context, h: Histogram, operation: string, size: nat, value: nat)
    ensures BucketObservation(ctx, HistogramSection(h), Decimal(size), OpValue(operation, value as real))
         == SizeReport(ctx, h, operation, size, value)
  {
  }

  lemma RowIsReported(ctx: Context, s: Section, p: Place, row: Row)
    requires Records(s, p) && p.histogram.Some?
    ensures ItemObservations(ctx, RowItem(s.name, SingleOperation(s), row)) == LineReport(ctx, p, RowLine(row))
  {
    match row
    case ReadOnly(size, value, _, _) => SizeIsReported(ctx, p.histogram.value, p.single, size, value);
    case ReadWrite(size, read, _, _, _, write, _) =>
      SizeIsReported(ctx, p.histogram.value, "read", size, read);
      SizeIsReported(ctx, p.histogram.value, "write", size, write);
  }

  lemma RenderOne(ctx: Context, item: Item)
    ensures Render(ctx, [item]) == ItemObservations(ctx, item)
  {
    assert [item][1..] == [];
  }

  lemma LineIsReported(ctx: Context, s: Section, p: Place, line: Line)
    requires Records(s, p)
    ensures Render(ctx, ItemsOf(s, line)) == LineReport(ctx, p, line)
  {
    if ItemsOf(s, line) != [] {
      RenderOne(ctx, ItemsOf(s, line)[0]);
      if line.RowLine? {
        RowIsReported(ctx, s, p, line.row);
      }
    }
  }

  lemma {:induction false} DocumentIsReported(ctx: Context, doc: Document)
    ensures Render(ctx, Denote(NO_SECTION, doc)) == Report(ctx, doc)
    decreases |doc|
  {
    if doc != [] {
      var front, last := doc[..|doc| - 1], doc[|doc| - 1];
      DocumentIsReported(ctx, front);
      RecordsAt(front);
      LineIsReported(ctx, SectionAt(NO_SECTION, front), PlaceAt(front), last);
      RenderConcat(ctx, Denote(NO_SECTION, front), ItemsOf(SectionAt(NO_SECTION, front), last));
    }
  }

  /**
    The round trip: whatever the white space of its lines, the text of a document parses
    to exactly the observations that the document reports, in order.
   */
  lemma RoundTrip(pf: NumberParser, layout: Layout, doc: Document, ctx: Context)
    requires ReadsDecimals(pf) && ValidDocument(doc)
    ensures Parse(pf, Print(layout, doc), ctx) == Success(Report(ctx, doc))
  {
    ItemsRoundTrip(pf, layout, doc, ctx);
    DocumentIsReported(ctx, doc);
  }
}
