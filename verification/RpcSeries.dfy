/**
  When the observations of one `rpc_stats` file are distinct time series.

  It is not enough that every section is opened once and has distinct sizes: a
  single-column row of a plain section is a read, and a two-column row is a read and a
  write whatever section it stands in. The exact condition is about what rows report.
 */
module RpcSeries {
  import opened Wrappers
  import opened GoStrings
  import opened LineMachine
  import opened Observations
  import opened RpcStats
  import opened RpcDocument

  ghost predicate DistinctSeries(obs: seq<Observation>) {
    forall i, j :: 0 <= i < j < |obs| ==> obs[i].Id() != obs[j].Id()
  }

  /** Two items that report the same thing: the same scalar, or the same operation of the same size. */
  ghost predicate Clash(a: Item, b: Item) {
    match (a, b)
    case (Scalar(m1, o1, _), Scalar(m2, o2, _)) => m1 == m2 && o1 == o2
    case (Bucket(s1, z1, p1), Bucket(s2, z2, p2)) =>
      s1 == s2 && z1 == z2 && exists i, j :: 0 <= i < |p1| && 0 <= j < |p2| && p1[i].name == p2[j].name
    case _ => false
  }

  ghost predicate ClashFree(items: seq<Item>) {
    forall i, j :: 0 <= i < j < |items| ==> !Clash(items[i], items[j])
  }

  predicate IsSection(name: string) {
    name == "pages_per_rpc" || name == "rpcs_in_flight" || name == "rpcs_offset"
  }

  /** The items a parser run can report. */
  predicate Proper(item: Item) {
    match item
    case Scalar(metricID, _, _) => metricID == "rpcs_current" || metricID == "pending_pages"
    case Bucket(section, _, ops) =>
      IsSection(section) && (|ops| == 1 || (|ops| == 2 && ops[0].name == "read" && ops[1].name == "write"))
  }

  // ------------------------------------------------------- every run is proper

  predicate ProperSection(s: Section) {
    s.name == "" || IsSection(s.name)
  }

  lemma SectionStaysProper(s: Section, raw: string)
    requires ProperSection(s)
    ensures ProperSection(AfterLine(s, raw))
  {
    var header := RawHeader(raw);
    assert header.Opens? ==> IsSection(header.name);
  }

  lemma ScalarKindIsProper(what: string)
    ensures var kind := ScalarKind(what);
            kind.Some? ==> kind.value.0 == "rpcs_current" || kind.value.0 == "pending_pages"
  {
  }

  lemma LineIsProper(pf: NumberParser, s: Section, raw: string)
    requires ProperSection(s) && LineItems(pf, s, raw).Success?
    ensures forall item :: item in LineItems(pf, s, raw).value ==> Proper(item)
  {
    var line := TrimSpace(raw);
    var scalar := ParseScalar(pf, line);
    if !Skipped(line) && scalar.Some? {
      ScalarKindIsProper(ToLower(TrimSpace(line[..IndexOf(line, ':').value])));
    }
  }

  lemma {:induction false} RunIsProper(pf: NumberParser, s: Section, lines: seq<string>)
    requires ProperSection(s) && Run(RpcMachine(pf), s, lines).Success?
    ensures forall item :: item in Run(RpcMachine(pf), s, lines).value ==> Proper(item)
    decreases |lines|
  {
    if lines != [] {
      LineIsProper(pf, s, lines[0]);
      SectionStaysProper(s, lines[0]);
      RunIsProper(pf, AfterLine(s, lines[0]), lines[1..]);
    }
  }

  // ------------------------------------------------------------ items and series

  lemma ScalarSeries(ctx: Context, metricID: string, operation: string, value: real)
    ensures var labels := ScalarObservation(ctx, metricID, operation, value).labels;
            "size" !in labels && labels["operation"] == operation
  {
  }

  lemma BucketSeries(ctx: Context, section: string, size: string, op: OpValue)
    ensures var labels := BucketObservation(ctx, section, size, op).labels;
            labels["size"] == size && labels["operation"] == op.name
  {
  }

  lemma SectionMetricInjective(a: string, b: string)
    requires IsSection(a) && IsSection(b)
    ensures SectionMetric(a).0 == SectionMetric(b).0 <==> a == b
  {
  }

  /** The observations of two items share a series exactly when the items clash. */
  lemma SharedSeriesIsClash(ctx: Context, a: Item, b: Item)
    requires Proper(a) && Proper(b)
    ensures var x, y := ItemObservations(ctx, a), ItemObservations(ctx, b);
            (exists i, j :: 0 <= i < |x| && 0 <= j < |y| && x[i].Id() == y[j].Id()) <==> Clash(a, b)
  {
    var x, y := ItemObservations(ctx, a), ItemObservations(ctx, b);
    match (a, b)
    case (Scalar(m1, o1, v1), Scalar(m2, o2, v2)) =>
      ScalarSeries(ctx, m1, o1, v1);
      ScalarSeries(ctx, m2, o2, v2);
      assert x[0].Id() == y[0].Id() <==> Clash(a, b);
    case (Bucket(s1, z1, p1), Bucket(s2, z2, p2)) =>
      SectionMetricInjective(s1, s2);
      forall i, j | 0 <= i < |p1| && 0 <= j < |p2|
        ensures x[i].Id() == y[j].Id() <==> s1 == s2 && z1 == z2 && p1[i].name == p2[j].name
      {
        BucketSeries(ctx, s1, z1, p1[i]);
        BucketSeries(ctx, s2, z2, p2[j]);
      }
    case (Scalar(m, o, v), Bucket(s, z, p)) =>
      ScalarSeries(ctx, m, o, v);
      forall j | 0 <= j < |p| ensures x[0].Id() != y[j].Id() { BucketSeries(ctx, s, z, p[j]); }
    case (Bucket(s, z, p), Scalar(m, o, v)) =>
      ScalarSeries(ctx, m, o, v);
      forall i | 0 <= i < |p| ensures x[i].Id() != y[0].Id() { BucketSeries(ctx, s, z, p[i]); }
  }

  /** One item never reports the same series twice. */
  lemma ItemSeriesDistinct(ctx: Context, item: Item)
    requires Proper(item)
    ensures DistinctSeries(ItemObservations(ctx, item))
  {
    if item.Bucket? && |item.ops| == 2 {
      BucketSeries(ctx, item.section, item.size, item.ops[0]);
      BucketSeries(ctx, item.section, item.size, item.ops[1]);
    }
  }

  ghost predicate Shares(a: seq<Observation>, b: seq<Observation>) {
    exists i, j :: 0 <= i < |a| && 0 <= j < |b| && a[i].Id() == b[j].Id()
  }

  lemma DistinctConcat(a: seq<Observation>, b: seq<Observation>)
    ensures DistinctSeries(a + b) <==> DistinctSeries(a) && DistinctSeries(b) && !Shares(a, b)
  {
    var c := a + b;
    if DistinctSeries(c) {
      forall i, j | 0 <= i < j < |a| ensures a[i].Id() != a[j].Id() { assert c[i] == a[i] && c[j] == a[j]; }
      forall i, j | 0 <= i < j < |b| ensures b[i].Id() != b[j].Id() {
        assert c[|a| + i] == b[i] && c[|a| + j] == b[j];
      }
      forall i, j | 0 <= i < |a| && 0 <= j < |b| ensures a[i].Id() != b[j].Id() {
        assert c[i] == a[i] && c[|a| + j] == b[j];
      }
    }
  }

  lemma SharesConcat(a: seq<Observation>, b: seq<Observation>, c: seq<Observation>)
    ensures Shares(a, b + c) <==> Shares(a, b) || Shares(a, c)
  {
    var d := b + c;
    forall j | 0 <= j < |b| ensures d[j] == b[j] {}
    forall j | 0 <= j < |c| ensures d[|b| + j] == c[j] {}
    forall i, j | 0 <= i < |a| && 0 <= j < |d| && a[i].Id() == d[j].Id()
      ensures Shares(a, b) || Shares(a, c)
    {
      if j < |b| {
        assert a[i].Id() == b[j].Id();
      } else {
        assert a[i].Id() == c[j - |b|].Id();
      }
    }
    forall i, j | 0 <= i < |a| && 0 <= j < |c| && a[i].Id() == c[j].Id()
      ensures Shares(a, d)
    {
      assert a[i].Id() == d[|b| + j].Id();
    }
    forall i, j | 0 <= i < |a| && 0 <= j < |b| && a[i].Id() == b[j].Id()
      ensures Shares(a, d)
    {
      assert a[i].Id() == d[j].Id();
    }
  }

  lemma {:induction false} SharesWithRendered(ctx: Context, item: Item, items: seq<Item>)
    requires Proper(item) && forall x :: x in items ==> Proper(x)
    ensures Shares(ItemObservations(ctx, item), Render(ctx, items)) <==> exists k :: 0 <= k < |items| && Clash(item, items[k])
    decreases |items|
  {
    if items != [] {
      var first, rest := items[0], items[1..];
      SharesWithRendered(ctx, item, rest);
      SharedSeriesIsClash(ctx, item, first);
      SharesConcat(ItemObservations(ctx, item), ItemObservations(ctx, first), Render(ctx, rest));
      assert forall k :: 1 <= k < |items| ==> items[k] == rest[k - 1];
    }
  }

  lemma {:induction false} RenderedDistinct(ctx: Context, items: seq<Item>)
    requires forall x :: x in items ==> Proper(x)
    ensures DistinctSeries(Render(ctx, items)) <==> ClashFree(items)
    decreases |items|
  {
    if items != [] {
      var first, rest := items[0], items[1..];
      assert first in items;
      RenderedDistinct(ctx, rest);
      ItemSeriesDistinct(ctx, first);
      SharesWithRendered(ctx, first, rest);
      DistinctConcat(ItemObservations(ctx, first), Render(ctx, rest));
      ClashFreeCons(items);
    }
  }

  lemma ClashFreeCons(items: seq<Item>)
    requires items != []
    ensures ClashFree(items) <==>
            ClashFree(items[1..]) && forall k :: 0 <= k < |items[1..]| ==> !Clash(items[0], items[1..][k])
  {
    var rest := items[1..];
    assert forall k :: 1 <= k < |items| ==> items[k] == rest[k - 1];
    if ClashFree(items) {
      forall i, j | 0 <= i < j < |rest| ensures !Clash(rest[i], rest[j]) {
        assert rest[i] == items[i + 1] && rest[j] == items[j + 1];
      }
      forall k | 0 <= k < |rest| ensures !Clash(items[0], rest[k]) { assert rest[k] == items[k + 1]; }
    }
  }

  /**
    The observations of a file are pairwise distinct series exactly when no two of its
    lines report the same scalar or the same operation of one size of one section.
   */
  lemma SeriesDistinctExactly(pf: NumberParser, data: string, ctx: Context)
    requires Parse(pf, data, ctx).Success?
    ensures var items := Run(RpcMachine(pf), NO_SECTION, Split(data, '\n'));
            items.Success? && (DistinctSeries(Parse(pf, data, ctx).value) <==> ClashFree(items.value))
  {
    var lines := Split(data, '\n');
    RunIsProper(pf, NO_SECTION, lines);
    RenderedDistinct(ctx, Run(RpcMachine(pf), NO_SECTION, lines).value);
  }

  // ---------------------------------------------------- the condition on documents

  /** The scalar series that a line reports. */
  function ScalarOf(line: Line): Option<(string, string)> {
    match line
    case CounterLine(c, count) => Some((CounterItem(c, count).metricID, CounterItem(c, count).operation))
    case Subheading(op, _) => Some(("rpcs_current", OperationName(op)))
    case _ => None
  }

  /** The operations that a row reports in section `s`. */
  function RowOps(s: Section, row: Row): seq<string> {
    if row.ReadOnly? then [SingleOperation(s)] else ["read", "write"]
  }

  predicate SameOp(a: seq<string>, b: seq<string>) {
    exists i, j :: 0 <= i < |a| && 0 <= j < |b| && a[i] == b[j]
  }

  /** Two rows, each in its section, that report one operation of one size of one open section. */
  predicate RowsRepeat(s: Section, a: Row, t: Section, b: Row) {
    s.name == t.name && s.name != "" && a.size == b.size && SameOp(RowOps(s, a), RowOps(t, b))
  }

  /** Two lines, each in its section, that report the same thing. */
  predicate LinesRepeat(s: Section, a: Line, t: Section, b: Line) {
    || (ScalarOf(a).Some? && ScalarOf(a) == ScalarOf(b))
    || (a.RowLine? && b.RowLine? && RowsRepeat(s, a.row, t, b.row))
  }

  /** The section in which line `i` of a document stands. */
  function SectionOf(doc: Document, i: nat): Section
    requires i <= |doc|
  {
    SectionAt(NO_SECTION, doc[..i])
  }

  predicate RepeatsAt(doc: Document, i: nat, j: nat)
    requires i < |doc| && j < |doc|
  {
    LinesRepeat(SectionOf(doc, i), doc[i], SectionOf(doc, j), doc[j])
  }

  /** No two lines of the document report the same thing. */
  predicate RepeatsNothing(doc: Document) {
    forall i, j :: 0 <= i < j < |doc| ==> !RepeatsAt(doc, i, j)
  }

  // --------------------------------------------------------- lines and what they denote

  lemma SameOpIsSameName(p: seq<OpValue>, q: seq<OpValue>, a: seq<string>, b: seq<string>)
    requires |p| == |a| && forall i :: 0 <= i < |p| ==> p[i].name == a[i]
    requires |q| == |b| && forall j :: 0 <= j < |q| ==> q[j].name == b[j]
    ensures (exists i, j :: 0 <= i < |p| && 0 <= j < |q| && p[i].name == q[j].name) <==> SameOp(a, b)
  {
    if i, j :| 0 <= i < |a| && 0 <= j < |b| && a[i] == b[j] {
      assert p[i].name == q[j].name;
    }
    if i, j :| 0 <= i < |p| && 0 <= j < |q| && p[i].name == q[j].name {
      assert a[i] == b[j];
    }
  }

  lemma ItemOfRow(s: Section, row: Row)
    ensures var item := RowItem(s.name, SingleOperation(s), row);
            && item.Bucket? && item.section == s.name && item.size == Decimal(row.size)
            && |item.ops| == |RowOps(s, row)|
            && forall i :: 0 <= i < |item.ops| ==> item.ops[i].name == RowOps(s, row)[i]
  {
  }

  lemma RowsRepeatIsClash(s: Section, a: Row, t: Section, b: Row)
    requires s.name != ""
    ensures Clash(RowItem(s.name, SingleOperation(s), a), RowItem(t.name, SingleOperation(t), b)) <==> RowsRepeat(s, a, t, b)
  {
    var x, y := RowItem(s.name, SingleOperation(s), a), RowItem(t.name, SingleOperation(t), b);
    ItemOfRow(s, a);
    ItemOfRow(t, b);
    SameOpIsSameName(x.ops, y.ops, RowOps(s, a), RowOps(t, b));
    if x.size == y.size {
      DecimalInjective(a.size, b.size);
    }
  }

  /** Some items of two lists clash. */
  ghost predicate SomeClash(xs: seq<Item>, ys: seq<Item>) {
    exists x, y :: x in xs && y in ys && Clash(x, y)
  }

  lemma LinesRepeatIsClash(s: Section, a: Line, t: Section, b: Line)
    ensures SomeClash(ItemsOf(s, a), ItemsOf(t, b)) <==> LinesRepeat(s, a, t, b)
  {
    var xs, ys := ItemsOf(s, a), ItemsOf(t, b);
    if xs != [] && ys != [] {
      if a.RowLine? && b.RowLine? {
        RowsRepeatIsClash(s, a.row, t, b.row);
      }
      assert SomeClash(xs, ys) <==> Clash(xs[0], ys[0]);
    }
  }

  // ------------------------------------------------------------------- documents

  lemma ClashFreeConcat(a: seq<Item>, b: seq<Item>)
    ensures ClashFree(a + b) <==> ClashFree(a) && ClashFree(b) && !SomeClash(a, b)
  {
    var c := a + b;
    if ClashFree(c) {
      forall i, j | 0 <= i < j < |a| ensures !Clash(a[i], a[j]) { assert c[i] == a[i] && c[j] == a[j]; }
      forall i, j | 0 <= i < j < |b| ensures !Clash(b[i], b[j]) { assert c[|a| + i] == b[i] && c[|a| + j] == b[j]; }
      forall i, j | 0 <= i < |a| && 0 <= j < |b| ensures !Clash(a[i], b[j]) { assert c[i] == a[i] && c[|a| + j] == b[j]; }
    }
  }

  lemma SomeClashConcat(a: seq<Item>, b: seq<Item>, ys: seq<Item>)
    ensures SomeClash(a + b, ys) <==> SomeClash(a, ys) || SomeClash(b, ys)
  {
    assert forall x :: x in a + b <==> x in a || x in b;
  }

  /** What line `i` reports clashes with some of `ys`. */
  ghost predicate ClashAt(doc: Document, i: nat, ys: seq<Item>)
    requires i < |doc|
  {
    SomeClash(ItemsOf(SectionOf(doc, i), doc[i]), ys)
  }

  ghost predicate ClashSomewhere(doc: Document, ys: seq<Item>) {
    exists i: nat :: i < |doc| && ClashAt(doc, i, ys)
  }

  lemma ClashAtFront(doc: Document, n: nat, i: nat, ys: seq<Item>)
    requires i < n <= |doc|
    ensures ClashAt(doc[..n], i, ys) == ClashAt(doc, i, ys)
  {
    assert doc[..n][..i] == doc[..i];
  }

  lemma ClashSomewhereSnoc(doc: Document, ys: seq<Item>)
    requires doc != []
    ensures ClashSomewhere(doc, ys) <==> ClashSomewhere(doc[..|doc| - 1], ys) || ClashAt(doc, |doc| - 1, ys)
  {
    var n := |doc| - 1;
    if i: nat :| i < |doc| && ClashAt(doc, i, ys) {
      if i < n {
        ClashAtFront(doc, n, i, ys);
      }
    }
    if i: nat :| i < n && ClashAt(doc[..n], i, ys) {
      ClashAtFront(doc, n, i, ys);
    }
  }

  lemma {:induction false} ClashWithDocument(doc: Document, ys: seq<Item>)
    ensures SomeClash(Denote(NO_SECTION, doc), ys) <==> ClashSomewhere(doc, ys)
    decreases |doc|
  {
    if doc != [] {
      var n := |doc| - 1;
      ClashWithDocument(doc[..n], ys);
      SomeClashConcat(Denote(NO_SECTION, doc[..n]), ItemsOf(SectionOf(doc, n), doc[n]), ys);
      ClashSomewhereSnoc(doc, ys);
    }
  }

  lemma RepeatsAtFront(doc: Document, n: nat, i: nat, j: nat)
    requires i < n <= |doc| && j < n
    ensures RepeatsAt(doc[..n], i, j) == RepeatsAt(doc, i, j)
  {
    assert doc[..n][..i] == doc[..i] && doc[..n][..j] == doc[..j];
  }

  lemma RepeatsNothingSnoc(doc: Document)
    requires doc != []
    ensures var n := |doc| - 1;
            RepeatsNothing(doc) <==> RepeatsNothing(doc[..n]) && forall i :: 0 <= i < n ==> !RepeatsAt(doc, i, n)
  {
    var n := |doc| - 1;
    forall i, j | 0 <= i < j < n
      ensures RepeatsAt(doc[..n], i, j) == RepeatsAt(doc, i, j)
    {
      RepeatsAtFront(doc, n, i, j);
    }
    if i, j :| 0 <= i < j < |doc| && RepeatsAt(doc, i, j) {
      assert j < n ==> RepeatsAt(doc[..n], i, j);
    }
  }

  lemma {:induction false} RepeatsNothingIsClashFree(doc: Document)
    ensures ClashFree(Denote(NO_SECTION, doc)) <==> RepeatsNothing(doc)
    decreases |doc|
  {
    if doc != [] {
      var n := |doc| - 1;
      var last := ItemsOf(SectionOf(doc, n), doc[n]);
      RepeatsNothingIsClashFree(doc[..n]);
      RepeatsNothingSnoc(doc);
      ClashFreeConcat(Denote(NO_SECTION, doc[..n]), last);
      ClashWithDocument(doc[..n], last);
      forall i: nat | i < n
        ensures ClashAt(doc[..n], i, last) <==> RepeatsAt(doc, i, n)
      {
        ClashAtFront(doc, n, i, last);
        LinesRepeatIsClash(SectionOf(doc, i), doc[i], SectionOf(doc, n), doc[n]);
      }
    }
  }

  lemma {:induction false} DenotedIsProper(doc: Document)
    ensures ProperSection(SectionAt(NO_SECTION, doc))
    ensures forall item :: item in Denote(NO_SECTION, doc) ==> Proper(item)
    decreases |doc|
  {
    if doc != [] {
      DenotedIsProper(doc[..|doc| - 1]);
    }
  }

  /**
    The series of a printed document are pairwise distinct exactly when the document
    itself repeats nothing: no scalar twice, and no operation twice for one size of one
    section. A row without a write column reports the operation of the header it stands
    under, a row with one a read and a write.
   */
  lemma DocumentSeriesDistinctExactly(pf: NumberParser, layout: Layout, doc: Document, ctx: Context)
    requires ReadsDecimals(pf) && ValidDocument(doc)
    ensures var r := Parse(pf, Print(layout, doc), ctx);
            r.Success? && (DistinctSeries(r.value) <==> RepeatsNothing(doc))
  {
    ItemsRoundTrip(pf, layout, doc, ctx);
    RepeatsNothingIsClashFree(doc);
    DenotedIsProper(doc);
    RenderedDistinct(ctx, Denote(NO_SECTION, doc));
  }

  // ----------------------------------------------------------------- modify and plain

  function RowLines(rows: seq<Row>): (lines: Document)
    ensures |lines| == |rows| && forall i :: 0 <= i < |lines| ==> lines[i] == RowLine(rows[i])
  {
    seq(|rows|, i requires 0 <= i < |rows| => RowLine(rows[i]))
  }

  predicate DistinctSizes(rows: seq<Row>) {
    forall i, j :: 0 <= i < j < |rows| ==> rows[i].size != rows[j].size
  }

  /** A `modify` table above a plain one. */
  function ModifyAndPlain(modified: seq<Row>, plain: seq<Row>): Document {
    ModifyTable(modified) + PlainTable(plain)
  }

  function ModifyTable(rows: seq<Row>): Document {
    [ModifyLine, Heading(RpcsInFlight, [])] + RowLines(rows)
  }

  function PlainTable(rows: seq<Row>): Document {
    [Heading(RpcsInFlight, [])] + RowLines(rows)
  }

  lemma {:induction false} SectionAtConcat(s: Section, a: Document, b: Document)
    ensures SectionAt(s, a + b) == SectionAt(SectionAt(s, a), b)
    decreases |b|
  {
    if b == [] {
      assert a + b == a;
    } else {
      assert (a + b)[..|a + b| - 1] == a + b[..|b| - 1];
      SectionAtConcat(s, a, b[..|b| - 1]);
    }
  }

  lemma {:induction false} RowsKeepSection(s: Section, rows: seq<Row>)
    ensures SectionAt(s, RowLines(rows)) == s
    decreases |rows|
  {
    if rows != [] {
      assert RowLines(rows)[..|rows| - 1] == RowLines(rows[..|rows| - 1]);
      RowsKeepSection(s, rows[..|rows| - 1]);
    }
  }

  const MODIFY_SECTION := Section("rpcs_in_flight", "modify", "")
  const PLAIN_SECTION := Section("rpcs_in_flight", "", "")

  lemma TwoHeadings(s: Section)
    ensures SectionAt(s, [ModifyLine, Heading(RpcsInFlight, [])]) == MODIFY_SECTION
    ensures s.pending == "" ==> SectionAt(s, [Heading(RpcsInFlight, [])]) == PLAIN_SECTION
  {
    assert [ModifyLine, Heading(RpcsInFlight, [])][..1] == [ModifyLine];
    assert SectionAt(s, [ModifyLine]) == After(s, ModifyLine);
  }

  /** Where the rows of the two tables stand, and in which section. */
  lemma RowsStand(modified: seq<Row>, plain: seq<Row>, i: nat)
    requires i < |ModifyAndPlain(modified, plain)|
    ensures var doc := ModifyAndPlain(modified, plain);
            var m := 2 + |modified|;
            if i < 2 then !doc[i].RowLine?
            else if i < m then doc[i] == RowLine(modified[i - 2]) && SectionOf(doc, i) == MODIFY_SECTION
            else if i == m then !doc[i].RowLine?
            else doc[i] == RowLine(plain[i - m - 1]) && SectionOf(doc, i) == PLAIN_SECTION
  {
    var doc, m := ModifyAndPlain(modified, plain), 2 + |modified|;
    TwoHeadings(NO_SECTION);
    if 2 <= i < m {
      assert doc[..i] == [ModifyLine, Heading(RpcsInFlight, [])] + RowLines(modified[..i - 2]);
      SectionAtConcat(NO_SECTION, [ModifyLine, Heading(RpcsInFlight, [])], RowLines(modified[..i - 2]));
      RowsKeepSection(MODIFY_SECTION, modified[..i - 2]);
    } else if i > m {
      assert doc[..i] == ModifyTable(modified) + PlainTable(plain[..i - m - 1]);
      SectionAtConcat(NO_SECTION, ModifyTable(modified), PlainTable(plain[..i - m - 1]));
      SectionAtConcat(NO_SECTION, [ModifyLine, Heading(RpcsInFlight, [])], RowLines(modified));
      RowsKeepSection(MODIFY_SECTION, modified);
      TwoHeadings(MODIFY_SECTION);
      SectionAtConcat(MODIFY_SECTION, [Heading(RpcsInFlight, [])], RowLines(plain[..i - m - 1]));
      RowsKeepSection(PLAIN_SECTION, plain[..i - m - 1]);
    }
  }

  lemma ModifyAndPlainApart(modified: seq<Row>, plain: seq<Row>)
    requires DistinctSizes(modified) && forall i :: 0 <= i < |modified| ==> modified[i].ReadOnly?
    requires DistinctSizes(plain)
    ensures RepeatsNothing(ModifyAndPlain(modified, plain))
  {
    var doc, m := ModifyAndPlain(modified, plain), 2 + |modified|;
    assert "modify"[0] == 'm';
    forall i, j | 0 <= i < j < |doc|
      ensures !RepeatsAt(doc, i, j)
    {
      RowsStand(modified, plain, i);
      RowsStand(modified, plain, j);
      if 2 <= i < m && j > m {
        assert RowOps(MODIFY_SECTION, modified[i - 2]) == ["modify"];
      }
    }
  }

  /** Single-column modify rows never repeat what a plain table reports, of the same sizes or not. */
  lemma ModifyBesidePlainIsDistinct(pf: NumberParser, layout: Layout, modified: seq<Row>, plain: seq<Row>, ctx: Context)
    requires ReadsDecimals(pf) && ValidDocument(ModifyAndPlain(modified, plain))
    requires DistinctSizes(modified) && DistinctSizes(plain)
    requires forall i :: 0 <= i < |modified| ==> modified[i].ReadOnly?
    ensures var r := Parse(pf, Print(layout, ModifyAndPlain(modified, plain)), ctx);
            r.Success? && DistinctSeries(r.value)
  {
    ModifyAndPlainApart(modified, plain);
    DocumentSeriesDistinctExactly(pf, layout, ModifyAndPlain(modified, plain), ctx);
  }

  // ------------------------------------------------------- one block per group is not enough

  predicate IsOpeningLine(line: Line) {
    line.Heading? || line.Subheading?
  }

  /** The section and the operation that line `i` opens. */
  function Opened(doc: Document, i: nat): (string, string)
    requires i < |doc|
  {
    var s := SectionOf(doc, i + 1);
    (s.name, SingleOperation(s))
  }

  /** Every (section, operation) group is opened once, and its rows have distinct sizes. */
  predicate OneBlockPerGroup(doc: Document) {
    && (forall i, j :: 0 <= i < j < |doc| && IsOpeningLine(doc[i]) && IsOpeningLine(doc[j]) ==> Opened(doc, i) != Opened(doc, j))
    && (forall i, j :: 0 <= i < j < |doc| && doc[i].RowLine? && doc[j].RowLine? && doc[i].row.size == doc[j].row.size
          ==> exists k :: i < k < j && IsOpeningLine(doc[k]))
  }

  /** A `modify` table with a write column, above a plain table of the same size. */
  function TwoTables(size: nat): Document {
    ModifyAndPlain([ReadWrite(size, 4, 1, 1, true, 5, [])], [ReadOnly(size, 9, [], false)])
  }

  lemma TwoTablesRepeat(size: nat)
    ensures !RepeatsNothing(TwoTables(size))
  {
    var first, second := ReadWrite(size, 4, 1, 1, true, 5, []), ReadOnly(size, 9, [], false);
    RowsStand([first], [second], 2);
    RowsStand([first], [second], 4);
    assert RowOps(MODIFY_SECTION, first)[0] == RowOps(PLAIN_SECTION, second)[0];
    assert RowsRepeat(MODIFY_SECTION, first, PLAIN_SECTION, second);
    assert RepeatsAt(TwoTables(size), 2, 4);
  }

  lemma TwoTablesAreTwoGroups(size: nat)
    ensures ValidDocument(TwoTables(size)) && OneBlockPerGroup(TwoTables(size))
  {
    var doc := TwoTables(size);
    var first, second := ReadWrite(size, 4, 1, 1, true, 5, []), ReadOnly(size, 9, [], false);
    RowsStand([first], [second], 2);
    RowsStand([first], [second], 4);
    assert |doc| == 5 && doc[1] == Heading(RpcsInFlight, []) && doc[3] == Heading(RpcsInFlight, []);
    assert Opened(doc, 1).1 == "modify" && Opened(doc, 3).1 == "read";
    assert "modify"[0] == 'm';
    assert IsOpeningLine(doc[3]);
  }

  /**
    Opening every (section, operation) group once, with distinct sizes in each, is not
    enough: here the `modify` group also reports a read, which the `read` group repeats.
   */
  lemma OneBlockPerGroupIsNotEnough(pf: NumberParser, layout: Layout, size: nat, ctx: Context)
    requires ReadsDecimals(pf)
    ensures var doc := TwoTables(size);
            && ValidDocument(doc) && OneBlockPerGroup(doc)
            && Parse(pf, Print(layout, doc), ctx).Success?
            && !DistinctSeries(Parse(pf, Print(layout, doc), ctx).value)
  {
    TwoTablesAreTwoGroups(size);
    TwoTablesRepeat(size);
    DocumentSeriesDistinctExactly(pf, layout, TwoTables(size), ctx);
  }
}
