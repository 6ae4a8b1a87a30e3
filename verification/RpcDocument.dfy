/**
  Structured `rpc_stats` documents: what their lines denote, how they are printed, and the
  round trip from a document through its text back to its observations.
 */
module RpcDocument {
  import opened Wrappers
  import opened GoStrings
  import opened LineMachine
  import opened Observations
  import opened RpcStats
  import opened RpcHistory

  // ----------------------------------------------------------------- documents

  /** A histogram row: a size and either one value column or a read and a write one. */
  datatype Row =
    | ReadOnly(size: nat, value: nat, percents: seq<nat>, bar: bool)
    | ReadWrite(size: nat, read: nat, percent: nat, cumulative: nat, bar: bool, write: nat, rest: seq<nat>)
  {
    /** A single-column row has at most two percentages, and a bar only after both. */
    predicate Valid() {
      ReadOnly? ==> |percents| <= 2 && (bar ==> |percents| == 2)
    }
  }

  datatype Histogram = PagesPerRpc | RpcsInFlight | Offset

  datatype Operation = DioRead | DioWrite | Read | Write

  datatype Counter = ModifyRpcs | PendingReadPages | PendingWritePages

  datatype Line =
    | BlankLine
    | Snapshot(words: seq<string>)
    | CounterLine(counter: Counter, count: nat)
    | ModifyLine
    | ColumnLine(between: seq<string>)                        // read ... write
    | Heading(histogram: Histogram, titles: seq<string>)
    | Subheading(operation: Operation, current: nat)          // read RPCs in flight: 3
    | RowLine(row: Row)
  {
    predicate Valid() {
      match this
      case Snapshot(words) => AllWords(words)
      case ColumnLine(between) => Titles(between)
      case Heading(_, titles) => Titles(titles)
      case RowLine(row) => row.Valid()
      case _ => true
    }
  }

  predicate Titles(words: seq<string>) {
    AllWords(words) && forall i :: 0 <= i < |words| ==> ':' !in words[i]
  }

  type Document = seq<Line>

  ghost predicate ValidDocument(doc: Document) {
    forall i :: 0 <= i < |doc| ==> doc[i].Valid()
  }

  // ---------------------------------------------------------------- denotation

  function HistogramSection(h: Histogram): string {
    match h
    case PagesPerRpc => "pages_per_rpc"
    case RpcsInFlight => "rpcs_in_flight"
    case Offset => "rpcs_offset"
  }

  function OperationName(op: Operation): string {
    match op
    case DioRead => "dio_read"
    case DioWrite => "dio_write"
    case Read => "read"
    case Write => "write"
  }

  function CounterItem(c: Counter, count: nat): Item {
    match c
    case ModifyRpcs => Scalar("rpcs_current", "modify", count as real)
    case PendingReadPages => Scalar("pending_pages", "read", count as real)
    case PendingWritePages => Scalar("pending_pages", "write", count as real)
  }

  /** The operation of a single-column row in section `s`. */
  function SingleOperation(s: Section): string {
    if s.operation != "" then s.operation else "read"
  }

  /** A row in a section whose single-column rows belong to `operation`. */
  function RowItem(section: string, operation: string, row: Row): Item {
    Bucket(section, Decimal(row.size),
           match row
           case ReadOnly(_, value, _, _) => [OpValue(operation, value as real)]
           case ReadWrite(_, read, _, _, _, write, _) => [OpValue("read", read as real), OpValue("write", write as real)])
  }

  /** The open section and the pending operation after a line. */
  function After(s: Section, line: Line): Section {
    match line
    case ModifyLine => s.(pending := "modify")
    case ColumnLine(_) => s.(pending := "")
    case Heading(h, _) => Section(HistogramSection(h), if h.RpcsInFlight? then s.pending else "", "")
    case Subheading(op, _) => Section("rpcs_in_flight", OperationName(op), "")
    case _ => s
  }

  /** What a line denotes in section `s`; a row before any section denotes nothing. */
  function ItemsOf(s: Section, line: Line): (items: seq<Item>)
    ensures |items| <= 1
  {
    match line
    case CounterLine(counter, count) => [CounterItem(counter, count)]
    case Subheading(op, current) => [Scalar("rpcs_current", OperationName(op), current as real)]
    case RowLine(row) => if s.name == "" then [] else [RowItem(s.name, SingleOperation(s), row)]
    case _ => []
  }

  function SectionAt(s: Section, doc: Document): Section {
    if doc == [] then s else After(SectionAt(s, doc[..|doc| - 1]), doc[|doc| - 1])
  }

  /** What a document denotes that is read from section `s` on. */
  function Denote(s: Section, doc: Document): seq<Item> {
    if doc == [] then []
    else
      var front := doc[..|doc| - 1];
      Denote(s, front) + ItemsOf(SectionAt(s, front), doc[|doc| - 1])
  }

  // ------------------------------------------------------------------ printing

  /** The white space of a line: before it, between its columns, and after it. */
  datatype Style = Style(lead: Blank, gap: nat -> Gap, tail: Blank)

  /** The style of every line by its number. */
  type Layout = nat -> Style

  function Decimals(ns: seq<nat>): (words: seq<string>)
    ensures |words| == |ns| && forall i :: 0 <= i < |ns| ==> words[i] == Decimal(ns[i])
  {
    seq(|ns|, i requires 0 <= i < |ns| => Decimal(ns[i]))
  }

  function Bar(bar: bool): seq<string> {
    if bar then ["|"] else []
  }

  function RowWords(row: Row): seq<string> {
    match row
    case ReadOnly(size, value, percents, bar) =>
      [Decimal(size) + ":", Decimal(value)] + Decimals(percents) + Bar(bar)
    case ReadWrite(size, read, percent, cumulative, bar, write, rest) =>
      [Decimal(size) + ":", Decimal(read), Decimal(percent), Decimal(cumulative)]
      + Bar(bar) + [Decimal(write)] + Decimals(rest)
  }

  function HistogramTitle(h: Histogram): string {
    match h
    case PagesPerRpc => "pages per rpc"
    case RpcsInFlight => "rpcs in flight"
    case Offset => "offset"
  }

  function OperationTitle(op: Operation): string {
    match op
    case DioRead => "dio read RPCs in flight"
    case DioWrite => "dio write RPCs in flight"
    case Read => "read RPCs in flight"
    case Write => "write RPCs in flight"
  }

  function CounterTitle(c: Counter): string {
    match c
    case ModifyRpcs => "modify_RPCs_in_flight"
    case PendingReadPages => "pending read pages"
    case PendingWritePages => "pending write pages"
  }

  /** `title: count` */
  function CountText(gap: Gap, title: string, count: nat): string {
    title + [':'] + (gap + Decimal(count))
  }

  function HeadingText(gap: nat -> Gap, h: Histogram, titles: seq<string>): string {
    if titles == [] then HistogramTitle(h) else HistogramTitle(h) + (gap(0) + Columns(titles, gap, 1))
  }

  function Text(gap: nat -> Gap, line: Line): string {
    match line
    case BlankLine => ""
    case Snapshot(words) => Columns(["snapshot_time:"] + words, gap, 0)
    case CounterLine(counter, count) => CountText(gap(0), CounterTitle(counter), count)
    case ModifyLine => "modify"
    case ColumnLine(between) => Columns(["read"] + between + ["write"], gap, 0)
    case Heading(h, titles) => HeadingText(gap, h, titles)
    case Subheading(op, current) => CountText(gap(0), OperationTitle(op), current)
    case RowLine(row) => Columns(RowWords(row), gap, 0)
  }

  function PrintLine(style: Style, line: Line): string {
    style.lead + Text(style.gap, line) + style.tail
  }

  function PrintLines(layout: Layout, doc: Document): (lines: seq<string>)
    ensures |lines| == |doc| && forall i :: 0 <= i < |lines| ==> lines[i] == PrintLine(layout(i), doc[i])
  {
    seq(|doc|, i requires 0 <= i < |doc| => PrintLine(layout(i), doc[i]))
  }

  function Print(layout: Layout, doc: Document): string {
    Join(PrintLines(layout, doc), '\n')
  }

  // ----------------------------------------------------------------------- rows

  lemma DecimalIsWord(n: nat)
    ensures IsWord(Decimal(n))
    ensures ':' !in Decimal(n) && '|' !in Decimal(n)
  {
  }

  lemma RowWordsAreWords(row: Row)
    ensures AllWords(RowWords(row))
  {
    DecimalIsWord(row.size);
  }

  lemma RowBegins(row: Row)
    ensures |RowWords(row)| >= 2 && RowWords(row)[0] == Decimal(row.size) + [':']
  {
  }

  /** The characters of a printed row. */
  predicate RowChar(c: char) {
    IsDigit(c) || IsSpace(c) || c == ':' || c == '|'
  }

  lemma {:induction false} ColumnsOfRowChars(words: seq<string>, gap: nat -> Gap, k: nat)
    requires forall i :: 0 <= i < |words| ==> forall c :: c in words[i] ==> RowChar(c)
    ensures forall c :: c in Columns(words, gap, k) ==> RowChar(c)
  {
    if |words| > 1 {
      ColumnsOfRowChars(words[1..], gap, k + 1);
      assert forall c :: c in gap(k) ==> IsSpace(c);
    }
  }

  lemma RowTextChars(gap: nat -> Gap, row: Row)
    ensures forall c :: c in Columns(RowWords(row), gap, 0) ==> RowChar(c)
  {
    var words := RowWords(row);
    forall i, c | 0 <= i < |words| && c in words[i]
      ensures RowChar(c)
    {
      if c != ':' && c != '|' {
        assert IsDigit(c);
      }
    }
    ColumnsOfRowChars(words, gap, 0);
  }

  /** A printed row is no header and is not skipped. */
  lemma RowIsNoHeader(text: string)
    requires text != "" && IsDigit(text[0])
    requires forall c :: c in text ==> RowChar(c)
    ensures HeaderOf(text).NotHeader? && !Skipped(text)
  {
    FirstLetterOpensNothing(text);
    assert RowChar('r') == false;
    ContainsNeedsFirst(text, "read");
    Excludes(text, "snapshot_time", 0);
  }

  lemma DigitIsNoKind(what: string)
    requires what != "" && IsDigit(what[0])
    ensures ScalarKind(what).None?
  {
  }

  lemma TitleParts(title: string, rest: string)
    requires ':' !in title && Trimmed(title)
    ensures var text := title + [':'] + rest;
            && IndexOf(text, ':') == Some(|title|)
            && TrimSpace(text[..|title|]) == title
            && text[|title| + 1..] == rest
  {
    var text := title + [':'] + rest;
    IndexOfFirst(title, rest, ':');
    assert text[..|title|] == title && text[|title| + 1..] == rest;
    TrimPadded("", title, "");
    assert "" + title + "" == title;
  }

  /** What `ParseScalar` makes of `title: rest`. */
  lemma ScalarOfTitle(pf: NumberParser, title: string, rest: string)
    requires ':' !in title && Trimmed(title)
    ensures var fields, kind := Fields(rest), ScalarKind(ToLower(title));
            ParseScalar(pf, title + [':'] + rest)
            == if |fields| == 0 || pf(fields[0]).None? || kind.None? then None
               else Some(Scalar(kind.value.0, kind.value.1, pf(fields[0]).value))
  {
    TitleParts(title, rest);
  }

  lemma SizeOfWord(size: nat)
    ensures HasSuffix(Decimal(size) + ":", ":")
    ensures TrimSuffix(Decimal(size) + ":", ":") == Decimal(size)
  {
    var w := Decimal(size) + ":";
    assert w[|w| - 1..] == ":" && w[..|w| - 1] == Decimal(size);
  }

  lemma ReadOnlyColumns(pf: NumberParser, s: Section, row: Row, text: string)
    requires ReadsDecimals(pf) && row.Valid() && row.ReadOnly? && Fields(text) == RowWords(row)
    ensures ParseBucket(pf, text, s) == Success(RowItem(s.name, SingleOperation(s), row))
  {
    SizeOfWord(row.size);
    assert RowWords(row)[1] == Decimal(row.value);
    assert WriteIndex(RowWords(row)).None?;
  }

  lemma ReadWriteColumns(pf: NumberParser, s: Section, row: Row, text: string)
    requires ReadsDecimals(pf) && row.ReadWrite? && Fields(text) == RowWords(row)
    ensures ParseBucket(pf, text, s) == Success(RowItem(s.name, SingleOperation(s), row))
  {
    var words := RowWords(row);
    SizeOfWord(row.size);
    assert words[1] == Decimal(row.read);
    WriteColumn(row);
  }

  lemma WriteColumn(row: Row)
    requires row.ReadWrite?
    ensures var words := RowWords(row);
            WriteIndex(words).Some? && words[WriteIndex(words).value] == Decimal(row.write)
  {
    DecimalIsWord(row.write);
    var words := RowWords(row);
    if row.bar {
      assert words[4] == "|" && words[5] == Decimal(row.write);
    } else {
      assert words[4] == Decimal(row.write) && words[4] != "|";
    }
  }

  /** The columns of a printed row are read back as its item. */
  lemma RowColumns(pf: NumberParser, s: Section, row: Row, text: string)
    requires ReadsDecimals(pf) && row.Valid() && Fields(text) == RowWords(row)
    ensures ParseBucket(pf, text, s) == Success(RowItem(s.name, SingleOperation(s), row))
    ensures IsBucketLine(text)
  {
    RowBegins(row);
    SizeOfWord(row.size);
    if row.ReadOnly? {
      ReadOnlyColumns(pf, s, row, text);
    } else {
      ReadWriteColumns(pf, s, row, text);
    }
  }

  /** A data line reports its bucket if a section is open, and leaves the section alone. */
  lemma ReadData(pf: NumberParser, s: Section, raw: string, item: Item)
    requires DataText(pf, s, TrimSpace(raw), item)
    ensures LineItems(pf, s, raw) == Success(if s.name == "" then [] else [item])
    ensures AfterLine(s, raw) == s
  {
  }

  predicate DataText(pf: NumberParser, s: Section, text: string, item: Item) {
    && !Skipped(text) && HeaderOf(text).NotHeader? && ParseScalar(pf, text).None?
    && IsBucketLine(text) && ParseBucket(pf, text, s) == Success(item)
  }

  lemma RowIsNoScalar(pf: NumberParser, gap: nat -> Gap, row: Row)
    ensures ParseScalar(pf, Columns(RowWords(row), gap, 0)).None?
  {
    var words := RowWords(row);
    var rest := gap(0) + Columns(words[1..], gap, 1);
    RowBegins(row);
    DecimalIsWord(row.size);
    assert Columns(words, gap, 0) == Decimal(row.size) + [':'] + rest;
    ScalarOfTitle(pf, Decimal(row.size), rest);
    DigitIsNoKind(ToLower(Decimal(row.size)));
  }

  lemma RowTextShape(gap: nat -> Gap, row: Row)
    ensures var text := Columns(RowWords(row), gap, 0);
            && Trimmed(text) && '\n' !in text && Fields(text) == RowWords(row)
            && IsDigit(text[0]) && HeaderOf(text).NotHeader? && !Skipped(text)
  {
    var words, text := RowWords(row), Columns(RowWords(row), gap, 0);
    RowBegins(row);
    RowWordsAreWords(row);
    FieldsColumns(words, gap, 0);
    ColumnsTrimmed(words, gap, 0);
    assert text[0] == text[..|words[0]|][0] == Decimal(row.size)[0];
    RowTextChars(gap, row);
    RowIsNoHeader(text);
  }

  lemma RowIsNoHeaderText(gap: nat -> Gap, row: Row)
    ensures HeaderOf(Columns(RowWords(row), gap, 0)).NotHeader? && !Skipped(Columns(RowWords(row), gap, 0))
  {
    RowTextShape(gap, row);
  }

  lemma RowReads(pf: NumberParser, s: Section, gap: nat -> Gap, row: Row)
    requires ReadsDecimals(pf) && row.Valid()
    ensures var text := Columns(RowWords(row), gap, 0);
            ParseBucket(pf, text, s) == Success(RowItem(s.name, SingleOperation(s), row)) && IsBucketLine(text)
  {
    RowTextShape(gap, row);
    RowColumns(pf, s, row, Columns(RowWords(row), gap, 0));
  }

  lemma RowIsData(pf: NumberParser, s: Section, gap: nat -> Gap, row: Row)
    requires ReadsDecimals(pf) && row.Valid()
    ensures DataText(pf, s, Columns(RowWords(row), gap, 0), RowItem(s.name, SingleOperation(s), row))
  {
    RowIsNoHeaderText(gap, row);
    RowIsNoScalar(pf, gap, row);
    RowReads(pf, s, gap, row);
  }

  lemma ReadRow(pf: NumberParser, s: Section, row: Row, raw: string)
    requires DataText(pf, s, TrimSpace(raw), RowItem(s.name, SingleOperation(s), row))
    ensures LineItems(pf, s, raw) == Success(ItemsOf(s, RowLine(row))) && AfterLine(s, raw) == s
  {
    ReadData(pf, s, raw, RowItem(s.name, SingleOperation(s), row));
  }

  // -------------------------------------------------------------------- headers

  /** A header line that is no scalar reports nothing. */
  lemma ReadHeader(pf: NumberParser, s: Section, raw: string)
    requires !Skipped(TrimSpace(raw)) && !HeaderOf(TrimSpace(raw)).NotHeader? && ':' !in TrimSpace(raw)
    ensures LineItems(pf, s, raw) == Success([])
    ensures AfterLine(s, raw) == AfterHeader(s, HeaderOf(TrimSpace(raw)))
  {
  }

  function HistogramOpening(h: Histogram): nat {
    match h
    case PagesPerRpc => 0
    case RpcsInFlight => 1
    case Offset => 6
  }

  function OperationOpening(op: Operation): nat {
    match op
    case DioRead => 2
    case DioWrite => 3
    case Read => 4
    case Write => 5
  }

  lemma NotSkippedByFirst(text: string)
    requires text != "" && text[0] != 's'
    ensures !Skipped(text)
  {
    Excludes(text, "snapshot_time", 0);
  }

  lemma {:induction false} NoColonInColumns(words: seq<string>, gap: nat -> Gap, k: nat)
    requires forall i :: 0 <= i < |words| ==> ':' !in words[i]
    ensures ':' !in Columns(words, gap, k)
  {
    if |words| > 1 {
      NoColonInColumns(words[1..], gap, k + 1);
      assert forall c :: c in gap(k) ==> IsSpace(c);
    }
  }

  lemma TitledText(title: string, tail: string)
    requires Trimmed(title) && ':' !in title && '\n' !in title
    requires tail == "" || !IsSpace(tail[|tail| - 1])
    requires ':' !in tail && '\n' !in tail
    ensures var text := title + tail;
            Trimmed(text) && ':' !in text && '\n' !in text && HasPrefix(text, title) && text[0] == title[0]
  {
    assert (title + tail)[..|title|] == title;
  }

  lemma HistogramTitleShape(h: Histogram)
    ensures var title := HistogramTitle(h);
            Trimmed(title) && ':' !in title && '\n' !in title && title[0] != 's'
  {
  }

  lemma HeadingShape(gap: nat -> Gap, h: Histogram, titles: seq<string>)
    requires Titles(titles)
    ensures var text := HeadingText(gap, h, titles);
            && Trimmed(text) && ':' !in text && '\n' !in text
            && HasPrefix(text, HistogramTitle(h)) && text[0] == HistogramTitle(h)[0]
  {
    HistogramTitleShape(h);
    if titles == [] {
      TitledText(HistogramTitle(h), "");
      assert HistogramTitle(h) + "" == HistogramTitle(h);
    } else {
      ColumnsTrimmed(titles, gap, 1);
      NoColonInColumns(titles, gap, 1);
      assert forall c :: c in gap(0) ==> IsSpace(c) && c != '\n';
      TitledText(HistogramTitle(h), gap(0) + Columns(titles, gap, 1));
    }
  }

  lemma ReadHeading(pf: NumberParser, s: Section, gap: nat -> Gap, h: Histogram, titles: seq<string>, raw: string)
    requires Titles(titles) && TrimSpace(raw) == HeadingText(gap, h, titles)
    ensures LineItems(pf, s, raw) == Success([])
    ensures AfterLine(s, raw) == After(s, Heading(h, titles))
  {
    HistogramTitleShape(h);
    HeadingShape(gap, h, titles);
    assert OPENINGS[HistogramOpening(h)].0 == HistogramTitle(h);
    OpeningDecides(TrimSpace(raw), HistogramOpening(h));
    NotSkippedByFirst(TrimSpace(raw));
    ReadHeader(pf, s, raw);
  }

  lemma ColonNeeded(text: string, p: string)
    requires ':' !in text && ':' in p
    ensures !HasPrefix(text, p)
  {
    var k: nat :| k < |p| && p[k] == ':';
    if HasPrefix(text, p) {
      PrefixAt(text, p, k);
    }
  }

  lemma OpeningsHaveColons(i: nat)
    requires 2 <= i <= 5
    ensures ':' in OPENINGS[i].0
  {
    var p := OPENINGS[i].0;
    assert p[|p| - 1] == ':';
  }

  lemma NamesOpenNothing(text: string)
    requires |text| > 1 && text[0] == 'r' && text[1] == 'e' && ':' !in text
    ensures forall i: nat :: i < |OPENINGS| ==> !HasPrefix(text, OPENINGS[i].0)
    ensures !Skipped(text)
  {
    Excludes(text, OPENINGS[0].0, 0);
    Excludes(text, OPENINGS[1].0, 1);
    Excludes(text, OPENINGS[6].0, 0);
    Excludes(text, "snapshot_time", 0);
    forall i: nat | 2 <= i <= 5
      ensures !HasPrefix(text, OPENINGS[i].0)
    {
      OpeningsHaveColons(i);
      ColonNeeded(text, OPENINGS[i].0);
    }
  }

  lemma NamesBothOperations(text: string)
    requires HasPrefix(text, "read") && HasSuffix(text, "write")
    ensures Contains(text, "read") && Contains(text, "write")
  {
    assert text[0..][..4] == "read";
    assert text[|text| - 5..][..5] == "write";
  }

  lemma ColumnWords(between: seq<string>)
    requires Titles(between)
    ensures var words := ["read"] + between + ["write"];
            Titles(words) && words[0] == "read" && words[|words| - 1] == "write"
  {
  }

  lemma ReadColumnLine(pf: NumberParser, s: Section, gap: nat -> Gap, between: seq<string>, raw: string)
    requires Titles(between) && TrimSpace(raw) == Columns(["read"] + between + ["write"], gap, 0)
    ensures LineItems(pf, s, raw) == Success([])
    ensures AfterLine(s, raw) == s.(pending := "")
  {
    var words, text := ["read"] + between + ["write"], TrimSpace(raw);
    ColumnWords(between);
    ColumnsTrimmed(words, gap, 0);
    NoColonInColumns(words, gap, 0);
    assert text[..4] == "read";
    assert text[0] == text[..4][0] && text[1] == text[..4][1];
    NamesOpenNothing(text);
    NamesBothOperations(text);
    assert text != "modify";
    HeaderRulesAreOrderFree(text);
    ReadHeader(pf, s, raw);
  }

  lemma ReadModify(pf: NumberParser, s: Section, raw: string)
    requires TrimSpace(raw) == "modify"
    ensures LineItems(pf, s, raw) == Success([])
    ensures AfterLine(s, raw) == s.(pending := "modify")
  {
    NotSkippedByFirst("modify");
    ReadHeader(pf, s, raw);
  }

  // --------------------------------------------------------------------- counts

  lemma CountTextShape(gap: Gap, title: string, count: nat)
    requires Trimmed(title) && ':' !in title && '\n' !in title
    ensures var text := CountText(gap, title, count);
            && Trimmed(text) && text[0] == title[0] && '\n' !in text
            && HasPrefix(text, title + ":")
            && Fields(gap + Decimal(count)) == [Decimal(count)]
  {
    var text := CountText(gap, title, count);
    DecimalIsWord(count);
    assert IsSpace('\n');
    assert text[..|title| + 1] == title + ":";
    FieldsSkipSpaces(gap, Decimal(count));
    FieldsWord(Decimal(count), "");
    assert Decimal(count) + "" == Decimal(count);
  }

  /** A `title: count` line whose title names a scalar is read as that scalar. */
  lemma ReadCount(pf: NumberParser, s: Section, gap: Gap, title: string, count: nat, what: string, raw: string)
    requires ReadsDecimals(pf) && TrimSpace(raw) == CountText(gap, title, count)
    requires Trimmed(title) && ':' !in title && '\n' !in title && title[0] != 's'
    requires ToLower(title) == what && ScalarKind(what).Some?
    ensures var kind := ScalarKind(what).value;
            LineItems(pf, s, raw) == Success([Scalar(kind.0, kind.1, count as real)])
    ensures AfterLine(s, raw) == AfterHeader(s, HeaderOf(CountText(gap, title, count)))
  {
    var text := CountText(gap, title, count);
    CountTextShape(gap, title, count);
    NotSkippedByFirst(text);
    ScalarOfTitle(pf, title, gap + Decimal(count));
    assert ParseScalar(pf, text) == Some(Scalar(ScalarKind(what).value.0, ScalarKind(what).value.1, count as real));
  }

  /** What the title of a subsection is, in lower case. */
  function OperationKind(op: Operation): string {
    match op
    case DioRead => "dio read rpcs in flight"
    case DioWrite => "dio write rpcs in flight"
    case Read => "read rpcs in flight"
    case Write => "write rpcs in flight"
  }

  lemma OperationTitleLine(op: Operation)
    ensures '\n' !in OperationTitle(op)
  {
  }

  lemma OperationTitleShape(op: Operation)
    ensures var title := OperationTitle(op);
            Trimmed(title) && ':' !in title && '\n' !in title && title[0] != 's'
  {
    OperationTitleLine(op);
  }

  lemma OperationTitleLower(op: Operation)
    ensures ToLower(OperationTitle(op)) == OperationKind(op)
  {
    match op
    case DioRead => assert ToLower("dio read RPCs in flight") == "dio read rpcs in flight";
    case DioWrite => assert ToLower("dio write RPCs in flight") == "dio write rpcs in flight";
    case Read => assert ToLower("read RPCs in flight") == "read rpcs in flight";
    case Write => assert ToLower("write RPCs in flight") == "write rpcs in flight";
  }

  lemma OperationIsScalar(op: Operation)
    ensures ScalarKind(OperationKind(op)) == Some(("rpcs_current", OperationName(op)))
  {
  }

  lemma OperationOpens(gap: Gap, op: Operation, current: nat)
    ensures HeaderOf(CountText(gap, OperationTitle(op), current)) == Opens("rpcs_in_flight", OperationName(op))
  {
    OperationTitleShape(op);
    CountTextShape(gap, OperationTitle(op), current);
    assert OPENINGS[OperationOpening(op)].0 == OperationTitle(op) + ":";
    OpeningDecides(CountText(gap, OperationTitle(op), current), OperationOpening(op));
  }

  lemma ReadSubheading(pf: NumberParser, s: Section, gap: Gap, op: Operation, current: nat, raw: string)
    requires ReadsDecimals(pf) && TrimSpace(raw) == CountText(gap, OperationTitle(op), current)
    ensures LineItems(pf, s, raw) == Success([Scalar("rpcs_current", OperationName(op), current as real)])
    ensures AfterLine(s, raw) == Section("rpcs_in_flight", OperationName(op), "")
  {
    OperationTitleShape(op);
    OperationTitleLower(op);
    OperationIsScalar(op);
    ReadCount(pf, s, gap, OperationTitle(op), current, OperationKind(op), raw);
    OperationOpens(gap, op, current);
  }

  function CounterKind(c: Counter): string {
    match c
    case ModifyRpcs => "modify_rpcs_in_flight"
    case PendingReadPages => "pending read pages"
    case PendingWritePages => "pending write pages"
  }

  lemma CounterTitleLine(c: Counter)
    ensures '\n' !in CounterTitle(c)
  {
  }

  lemma CounterTitleShape(c: Counter)
    ensures var title := CounterTitle(c);
            && Trimmed(title) && ':' !in title && '\n' !in title
            && title[0] == (if c.ModifyRpcs? then 'm' else 'p')
            && title[1] == (if c.ModifyRpcs? then 'o' else 'e')
  {
    CounterTitleLine(c);
  }

  lemma CounterTitleLower(c: Counter)
    ensures ToLower(CounterTitle(c)) == CounterKind(c)
  {
    match c
    case ModifyRpcs => assert ToLower("modify_RPCs_in_flight") == "modify_rpcs_in_flight";
    case PendingReadPages => assert ToLower("pending read pages") == "pending read pages";
    case PendingWritePages => assert ToLower("pending write pages") == "pending write pages";
  }

  lemma CounterIsScalar(c: Counter, count: nat)
    ensures ScalarKind(CounterKind(c)).Some?
    ensures var kind := ScalarKind(CounterKind(c)).value;
            Scalar(kind.0, kind.1, count as real) == CounterItem(c, count)
  {
  }

  /** No counter title names both operations. */
  lemma CounterNamesOneOperation(gap: Gap, c: Counter, count: nat)
    ensures var text := CountText(gap, CounterTitle(c), count);
            !Contains(text, "read") || !Contains(text, "write")
  {
    var text := CountText(gap, CounterTitle(c), count);
    var tail := [':'] + (gap + Decimal(count));
    assert text == CounterTitle(c) + tail;
    forall ch | ch in tail
      ensures ch != 'r' && ch != 'w'
    {
      if ch in Decimal(count) {
        assert IsDigit(ch);
      } else if ch in gap {
        assert IsSpace(ch);
      }
    }
    match c
    case ModifyRpcs =>
      assert 'r' !in "modify_RPCs_in_flight";
      ContainsNeedsFirst(text, "read");
    case PendingReadPages =>
      assert 'w' !in "pending read pages";
      ContainsNeedsFirst(text, "write");
    case PendingWritePages =>
      forall i | 0 <= i <= |text| - 4
        ensures text[i..][..4] != "read"
      {
        assert text[i..][..4][0] == text[i] && text[i..][..4][1] == text[i + 1];
        if i < 19 {
          assert text[i] == "pending write pages"[i];
          assert i == 9 ==> text[i + 1] == 'i';
        } else {
          assert text[i] == tail[i - 19];
        }
      }
  }

  lemma CounterIsNoHeader(gap: Gap, c: Counter, count: nat)
    ensures HeaderOf(CountText(gap, CounterTitle(c), count)).NotHeader?
  {
    var title := CounterTitle(c);
    var text := CountText(gap, title, count);
    CounterTitleShape(c);
    assert |text| > |title| && text[0] == title[0] && text[1] == title[1];
    CounterNamesOneOperation(gap, c, count);
    if c.ModifyRpcs? {
      FirstLetterOpensNothing(text);
      assert |text| > 6;
    } else {
      PendingOpensNothing(text);
    }
  }

  lemma PendingOpensNothing(text: string)
    requires |text| > 1 && text[0] == 'p' && text[1] == 'e'
    ensures HeaderOf(text).NotHeader? || (Contains(text, "read") && Contains(text, "write"))
  {
    Excludes(text, "pages per rpc", 1);
    Excludes(text, "rpcs in flight", 0);
    Excludes(text, "dio read RPCs in flight:", 0);
    Excludes(text, "dio write RPCs in flight:", 0);
    Excludes(text, "read RPCs in flight:", 0);
    Excludes(text, "write RPCs in flight:", 0);
    Excludes(text, "offset", 0);
  }

  lemma ReadCounter(pf: NumberParser, s: Section, gap: Gap, c: Counter, count: nat, raw: string)
    requires ReadsDecimals(pf) && TrimSpace(raw) == CountText(gap, CounterTitle(c), count)
    ensures LineItems(pf, s, raw) == Success([CounterItem(c, count)]) && AfterLine(s, raw) == s
  {
    CounterTitleShape(c);
    CounterTitleLower(c);
    CounterIsScalar(c, count);
    ReadCount(pf, s, gap, CounterTitle(c), count, CounterKind(c), raw);
    CounterIsNoHeader(gap, c, count);
  }

  // ---------------------------------------------------------------- skipped lines

  lemma SnapshotShape(words: seq<string>, gap: nat -> Gap)
    requires AllWords(words)
    ensures var text := Columns(["snapshot_time:"] + words, gap, 0);
            Trimmed(text) && '\n' !in text && Skipped(text)
  {
    var all := ["snapshot_time:"] + words;
    assert IsWord("snapshot_time:") && "snapshot_time:"[..13] == "snapshot_time";
    ColumnsTrimmed(all, gap, 0);
    var text := Columns(all, gap, 0);
    assert text[..13] == text[..14][..13];
  }

  // ------------------------------------------------------------ lines and documents

  lemma TextShape(gap: nat -> Gap, line: Line)
    requires line.Valid() && !line.BlankLine?
    ensures Trimmed(Text(gap, line)) && '\n' !in Text(gap, line)
  {
    match line
    case Snapshot(words) => SnapshotShape(words, gap);
    case CounterLine(c, count) =>
      CounterTitleShape(c);
      CountTextShape(gap(0), CounterTitle(c), count);
    case ModifyLine =>
    case ColumnLine(between) =>
      ColumnWords(between);
      ColumnsTrimmed(["read"] + between + ["write"], gap, 0);
    case Heading(h, titles) => HeadingShape(gap, h, titles);
    case Subheading(op, current) =>
      OperationTitleShape(op);
      CountTextShape(gap(0), OperationTitle(op), current);
    case RowLine(row) =>
      RowTextShape(gap, row);
  }

  lemma LineTrims(style: Style, line: Line)
    requires line.Valid()
    ensures TrimSpace(PrintLine(style, line)) == Text(style.gap, line)
    ensures '\n' !in PrintLine(style, line)
  {
    if line.BlankLine? {
      TrimNothing(PrintLine(style, line));
    } else {
      TextShape(style.gap, line);
      TrimPadded(style.lead, Text(style.gap, line), style.tail);
    }
  }

  /** Every printed line is read as what it denotes, in every section, with any operation pending. */
  lemma ReadLine(pf: NumberParser, style: Style, s: Section, line: Line)
    requires ReadsDecimals(pf) && line.Valid()
    ensures LineItems(pf, s, PrintLine(style, line)) == Success(ItemsOf(s, line))
    ensures AfterLine(s, PrintLine(style, line)) == After(s, line)
  {
    var raw := PrintLine(style, line);
    LineTrims(style, line);
    match line
    case BlankLine =>
    case Snapshot(words) => SnapshotShape(words, style.gap);
    case CounterLine(c, count) => ReadCounter(pf, s, style.gap(0), c, count, raw);
    case ModifyLine => ReadModify(pf, s, raw);
    case ColumnLine(between) => ReadColumnLine(pf, s, style.gap, between, raw);
    case Heading(h, titles) => ReadHeading(pf, s, style.gap, h, titles, raw);
    case Subheading(op, current) => ReadSubheading(pf, s, style.gap(0), op, current, raw);
    case RowLine(row) =>
      RowIsData(pf, s, style.gap, row);
      ReadRow(pf, s, row, raw);
  }

  lemma RunOne<S, I, E>(m: Machine<S, I, E>, s: S, line: string)
    ensures Run(m, s, [line]) == m.read(s, line)
    ensures StateAfter(m, s, [line]) == m.next(s, line)
  {
    RunSnoc(m, s, [], line);
    StateAfterSnoc(m, s, [], line);
    assert [] + [line] == [line];
    PrependNothing(m.read(s, line));
  }

  /** A printed document is read as what it denotes, from every section, with any operation pending. */
  lemma {:induction false} ReadDocument(pf: NumberParser, layout: Layout, s: Section, doc: Document)
    requires ReadsDecimals(pf) && ValidDocument(doc)
    ensures Run(RpcMachine(pf), s, PrintLines(layout, doc)) == Success(Denote(s, doc))
    ensures StateAfter(RpcMachine(pf), s, PrintLines(layout, doc)) == SectionAt(s, doc)
    decreases |doc|
  {
    if doc != [] {
      var n := |doc| - 1;
      var front, last := PrintLines(layout, doc[..n]), PrintLine(layout(n), doc[n]);
      assert PrintLines(layout, doc) == front + [last];
      ReadDocument(pf, layout, s, doc[..n]);
      ReadLine(pf, layout(n), SectionAt(s, doc[..n]), doc[n]);
      RunSnoc(RpcMachine(pf), s, front, last);
      StateAfterSnoc(RpcMachine(pf), s, front, last);
    }
  }

  /**
    Whatever the white space of its lines, the text of a document parses to exactly the
    items that the document denotes, in order.
   */
  lemma ItemsRoundTrip(pf: NumberParser, layout: Layout, doc: Document, ctx: Context)
    requires ReadsDecimals(pf) && ValidDocument(doc)
    ensures Parse(pf, Print(layout, doc), ctx) == Success(Render(ctx, Denote(NO_SECTION, doc)))
  {
    ReadDocument(pf, layout, NO_SECTION, doc);
    if doc == [] {
      RunOne(RpcMachine(pf), NO_SECTION, "");
      assert Split("", '\n') == [""];
    } else {
      forall i | 0 <= i < |doc|
        ensures '\n' !in PrintLines(layout, doc)[i]
      {
        LineTrims(layout(i), doc[i]);
      }
      SplitJoin(PrintLines(layout, doc), '\n');
    }
  }
}
