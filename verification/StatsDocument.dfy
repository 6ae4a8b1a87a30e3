/**
  Printed statistics files: what their lines denote, and the round trip from a document
  through its text back to its observations, for mdc and osc targets and llite mounts.
 */
module StatsDocument {
  import opened Wrappers
  import opened GoStrings
  import opened LineMachine
  import opened Observations
  import opened StatsFiles
  import D = RpcDocument
  import L = LNetFiles

  // ----------------------------------------------------------------- documents

  datatype Line =
    | BlankLine
    | Snapshot(words: seq<string>)
    | Bytes(write: bool, count: nat, min: nat, max: nat, sum: nat, rest: seq<nat>)
    | Counted(name: string, count: nat, unit: string)
    | Summed(name: string, count: nat, unit: string, min: nat, max: nat, sum: nat, rest: seq<nat>)
    | Bare(name: string, count: nat, words: seq<string>)      // a count that tells no samples
    | Alone(word: string)
  {
    predicate Valid() {
      match this
      case Snapshot(words) => AllWords(words)
      case Counted(name, _, unit) => IsOperation(name) && IsUnit(unit)
      case Summed(name, _, unit, _, _, _, _) => IsOperation(name) && IsUnit(unit)
      case Bare(name, _, words) => IsOperation(name) && AllWords(words) && (words != [] ==> words[0] != "samples")
      case Alone(word) => IsWord(word)
      case _ => true
    }
  }

  predicate IsOperation(name: string) {
    IsWord(name) && name != "snapshot_time" && !IsBytesName(name)
  }

  predicate IsUnit(unit: string) {
    IsWord(unit) && unit[0] !in {'[', ']'} && unit[|unit| - 1] !in {'[', ']'}
  }

  ghost predicate ValidDocument(doc: seq<Line>) {
    forall i :: 0 <= i < |doc| ==> doc[i].Valid()
  }

  function Sample(name: string, count: nat, unit: string): seq<string> {
    [name, Decimal(count), "samples", "[" + unit + "]"]
  }

  function SumColumns(min: nat, max: nat, sum: nat, rest: seq<nat>): seq<string> {
    [Decimal(min), Decimal(max), Decimal(sum)] + D.Decimals(rest)
  }

  function SizeName(write: bool): string {
    if write then "write_bytes" else "read_bytes"
  }

  function Words(line: Line): seq<string> {
    match line
    case BlankLine => []
    case Snapshot(words) => ["snapshot_time"] + words
    case Bytes(write, count, min, max, sum, rest) =>
      Sample(SizeName(write), count, "bytes") + SumColumns(min, max, sum, rest)
    case Counted(name, count, unit) => Sample(name, count, unit)
    case Summed(name, count, unit, min, max, sum, rest) => Sample(name, count, unit) + SumColumns(min, max, sum, rest)
    case Bare(name, count, words) => [name, Decimal(count)] + words
    case Alone(word) => [word]
  }

  function PrintLine(style: D.Style, line: Line): string {
    style.lead + Columns(Words(line), style.gap, 0) + style.tail
  }

  function PrintLines(layout: D.Layout, doc: seq<Line>): (lines: seq<string>)
    ensures |lines| == |doc| && forall i :: 0 <= i < |lines| ==> lines[i] == PrintLine(layout(i), doc[i])
  {
    seq(|doc|, i requires 0 <= i < |doc| => PrintLine(layout(i), doc[i]))
  }

  function Print(layout: D.Layout, doc: seq<Line>): string {
    Join(PrintLines(layout, doc), '\n')
  }

  // ---------------------------------------------------------------- denotation

  function OfTarget(ctx: Context, metricID: string, t: MetricType, value: nat): Observation {
    Observation("client", ctx.source, metricID, t, map["component" := ctx.component, "target" := ctx.target], value as real)
  }

  function Sizes(ctx: Context, write: bool, count: nat, min: nat, max: nat, sum: nat): seq<Observation> {
    if write then
      [OfTarget(ctx, "write_samples_total", Counter, count),
       OfTarget(ctx, "write_minimum_size_bytes", Gauge, min),
       OfTarget(ctx, "write_maximum_size_bytes", Gauge, max),
       OfTarget(ctx, "write_bytes_total", Counter, sum)]
    else
      [OfTarget(ctx, "read_samples_total", Counter, count),
       OfTarget(ctx, "read_minimum_size_bytes", Gauge, min),
       OfTarget(ctx, "read_maximum_size_bytes", Gauge, max),
       OfTarget(ctx, "read_bytes_total", Counter, sum)]
  }

  function Total(ctx: Context, name: string, count: nat): Observation {
    Observation("client", ctx.source, "stats_total", Counter,
                map["component" := ctx.component, "target" := ctx.target, "operation" := name], count as real)
  }

  /** The latency of a line in seconds, if its unit is one of time. */
  function Latency(ctx: Context, name: string, unit: string, sum: nat): seq<Observation> {
    if UnitIs(unit, Nano) then [Seconds(ctx, name, sum as real / 1000000000.0)]
    else if UnitIs(unit, Micro) then [Seconds(ctx, name, sum as real / 1000000.0)]
    else if UnitIs(unit, Milli) then [Seconds(ctx, name, sum as real / 1000.0)]
    else if UnitIs(unit, Whole) then [Seconds(ctx, name, sum as real)]
    else []
  }

  function Seconds(ctx: Context, name: string, seconds: real): Observation {
    Observation("client", ctx.source, "stats_seconds_sum", Counter,
                map["component" := ctx.component, "target" := ctx.target, "type" := ctx.typ, "operation" := name], seconds)
  }

  /** What a line reports of an mdc or osc target. */
  function ObdDenoted(ctx: Context, line: Line): seq<Observation> {
    match line
    case Bytes(write, count, min, max, sum, _) => Sizes(ctx, write, count, min, max, sum)
    case Counted(name, count, _) => [Total(ctx, name, count)]
    case Summed(name, count, unit, _, _, sum, _) => [Total(ctx, name, count)] + Latency(ctx, name, unit, sum)
    case Bare(name, count, _) => [Total(ctx, name, count)]
    case _ => []
  }

  /** What a line reports of an llite mount: no latencies. */
  function LliteDenoted(ctx: Context, line: Line): seq<Observation> {
    match line
    case Bytes(write, count, min, max, sum, _) => Sizes(ctx, write, count, min, max, sum)
    case Counted(name, count, _) => [Total(ctx, name, count)]
    case Summed(name, count, _, _, _, _, _) => [Total(ctx, name, count)]
    case Bare(name, count, _) => [Total(ctx, name, count)]
    case _ => []
  }

  /**
    What a line reports of the LDLM callback service: the count of every operation. A name
    that ends like an assignment is none.
   */
  function LdlmDenoted(source: string, line: Line): seq<Observation> {
    match line
    case Bytes(write, count, _, _, _, _) => LdlmCount(source, SizeName(write), count)
    case Counted(name, count, _) => LdlmCount(source, name, count)
    case Summed(name, count, _, _, _, _, _) => LdlmCount(source, name, count)
    case _ => []
  }

  function LdlmCount(source: string, name: string, count: nat): seq<Observation> {
    if HasSuffix(name, "=") then []
    else [Observation("client", source, "ldlm_cbd_stats", Counter, map["operation" := name], count as real)]
  }

  function Denote(denoted: Line -> seq<Observation>, doc: seq<Line>): seq<Observation> {
    if doc == [] then [] else Denote(denoted, doc[..|doc| - 1]) + denoted(doc[|doc| - 1])
  }

  // ------------------------------------------------------------- reading one line

  lemma SampleWords(name: string, count: nat, unit: string)
    requires IsWord(name) && IsWord(unit)
    ensures AllWords(Sample(name, count, unit))
  {
    assert IsWord("samples");
  }

  lemma WordsConcat(a: seq<string>, b: seq<string>)
    requires AllWords(a) && AllWords(b)
    ensures AllWords(a + b)
  {
  }

  lemma SumWords(min: nat, max: nat, sum: nat, rest: seq<nat>)
    ensures AllWords(SumColumns(min, max, sum, rest))
  {
    forall n: nat ensures IsWord(Decimal(n)) { D.DecimalIsWord(n); }
  }

  lemma KeyWords()
    ensures IsWord("snapshot_time") && IsWord("read_bytes") && IsWord("write_bytes") && IsWord("bytes")
  {
  }

  lemma WordsAreWords(line: Line)
    requires line.Valid()
    ensures AllWords(Words(line)) && (Words(line) == [] <==> line.BlankLine?)
  {
    KeyWords();
    match line
    case Bytes(write, count, min, max, sum, rest) =>
      SampleWords(SizeName(write), count, "bytes");
      SumWords(min, max, sum, rest);
      WordsConcat(Sample(SizeName(write), count, "bytes"), SumColumns(min, max, sum, rest));
    case Counted(name, count, unit) => SampleWords(name, count, unit);
    case Summed(name, count, unit, min, max, sum, rest) =>
      SampleWords(name, count, unit);
      SumWords(min, max, sum, rest);
      WordsConcat(Sample(name, count, unit), SumColumns(min, max, sum, rest));
    case Bare(name, count, words) =>
      D.DecimalIsWord(count);
      WordsConcat([name, Decimal(count)], words);
    case _ =>
  }

  lemma UnitUnwrapped(unit: string)
    requires IsUnit(unit)
    ensures Trim("[" + unit + "]", {'[', ']'}) == unit
  {
    var s, tail, cut := "[" + unit + "]", unit + "]", {'[', ']'};
    assert s[0] == '[' && s[1..] == tail && tail[0] == unit[0];
    assert TrimLeft(s, cut) == TrimLeft(tail, cut) == tail;
    assert tail[|tail| - 1] == ']' && tail[..|tail| - 1] == unit;
    assert TrimRight(tail, cut) == TrimRight(unit, cut) == unit;
  }

  lemma PrintedFields(style: D.Style, line: Line)
    requires line.Valid()
    ensures var text := TrimSpace(PrintLine(style, line));
            (text == "" <==> line.BlankLine?) && Fields(text) == Words(line)
    ensures '\n' !in PrintLine(style, line)
  {
    WordsAreWords(line);
    if line.BlankLine? {
      TrimNothing(PrintLine(style, line));
    } else {
      ColumnsTrimmed(Words(line), style.gap, 0);
      TrimPadded(style.lead, Columns(Words(line), style.gap, 0), style.tail);
      FieldsColumns(Words(line), style.gap, 0);
    }
  }

  lemma SizeNames()
    ensures SizePrefix("write_bytes") == "write" && SizePrefix("read_bytes") == "read"
  {
    assert "write_bytes"[..5] == "write";
    assert "read_bytes"[..5][0] == 'r';
  }

  lemma ReadSizes(pf: NumberParser, ctx: Context, line: Line)
    requires ReadsDecimals(pf) && line.Bytes?
    ensures BytesStat(pf, ctx, Words(line)) == Success(Sizes(ctx, line.write, line.count, line.min, line.max, line.sum))
  {
    SizeNames();
    if line.write {
      WriteNames();
    } else {
      ReadNames();
    }
  }

  lemma LatencyOfUnit(ctx: Context, name: string, unit: string, sum: nat)
    ensures Latency(ctx, name, unit, sum)
         == match UnitsPerSecond(unit)
            case None => []
            case Some(units) => [Seconds(ctx, name, if units == 1.0 then sum as real else sum as real / units)]
  {
    UnitWords(unit);
  }

  lemma SecondsIsObservation(ctx: Context, name: string, seconds: real)
    ensures SecondsObservation(ctx, name, seconds) == Seconds(ctx, name, seconds)
  {
  }

  lemma ReadSum(pf: NumberParser, ctx: Context, line: Line)
    requires ReadsDecimals(pf) && line.Valid() && line.Summed?
    ensures Latency(ctx, line.name, line.unit, line.sum)
         == match SecondsSum(pf, Words(line)) case None => [] case Some(seconds) => [SecondsObservation(ctx, line.name, seconds)]
  {
    UnitUnwrapped(line.unit);
    assert Words(line)[3] == "[" + line.unit + "]" && Words(line)[6] == Decimal(line.sum);
    LatencyOfUnit(ctx, line.name, line.unit, line.sum);
    if SecondsSum(pf, Words(line)).Some? {
      SecondsIsObservation(ctx, line.name, SecondsSum(pf, Words(line)).value);
    }
  }

  /** What the columns of a printed line are taken for. */
  lemma KindOfWords(line: Line)
    requires line.Valid()
    ensures IsNamed(Words(line)) <==> !line.Snapshot? && !line.BlankLine? && !line.Alone?
    ensures IsNamed(Words(line)) ==> (IsBytesName(Words(line)[0]) <==> line.Bytes?)
    ensures line.Counted? || line.Summed? || line.Bare? ==> Words(line)[0] == line.name && Words(line)[1] == Decimal(line.count)
  {
  }

  lemma ReadSummed(pf: NumberParser, ctx: Context, raw: string, line: Line)
    requires ReadsDecimals(pf) && line.Valid() && line.Summed?
    requires TrimSpace(raw) != "" && Fields(TrimSpace(raw)) == Words(line)
    ensures ObdLine(pf, ctx, raw) == Success(ObdDenoted(ctx, line))
    ensures LliteLine(pf, ctx, raw) == Success(LliteDenoted(ctx, line))
  {
    KindOfWords(line);
    ReadSum(pf, ctx, line);
    var total := Total(ctx, line.name, line.count);
    assert pf(Words(line)[1]) == Some(line.count as real);
    assert OperationTotal(ctx, line.name, line.count as real) == total;
    if SecondsSum(pf, Words(line)).Some? {
      var seconds := SecondsObservation(ctx, line.name, SecondsSum(pf, Words(line)).value);
      assert [total] + [seconds] == [total, seconds];
    } else {
      assert [total] + [] == [total];
    }
  }

  /** A printed line is read as what it denotes, whatever its white space. */
  lemma ReadLine(pf: NumberParser, ctx: Context, style: D.Style, line: Line)
    requires ReadsDecimals(pf) && line.Valid()
    ensures ObdLine(pf, ctx, PrintLine(style, line)) == Success(ObdDenoted(ctx, line))
    ensures LliteLine(pf, ctx, PrintLine(style, line)) == Success(LliteDenoted(ctx, line))
  {
    PrintedFields(style, line);
    ReadWords(pf, ctx, PrintLine(style, line), line);
  }

  /**
    A printed line with a sum in a time unit reports its count and as many seconds as its
    sum says, in that order; with any other unit it reports its count alone.
   */
  lemma LatencyIsInSeconds(pf: NumberParser, ctx: Context, style: D.Style, line: Line, t: TimeUnit)
    requires ReadsDecimals(pf) && line.Valid() && line.Summed?
    ensures UnitIs(line.unit, t) ==>
      exists seconds :: InSeconds(t, line.sum as real, seconds) &&
        ObdLine(pf, ctx, PrintLine(style, line)) == Success([Total(ctx, line.name, line.count), Seconds(ctx, line.name, seconds)])
    ensures !IsTimeUnit(line.unit) ==> ObdLine(pf, ctx, PrintLine(style, line)) == Success([Total(ctx, line.name, line.count)])
  {
    ReadLine(pf, ctx, style, line);
    var total := [Total(ctx, line.name, line.count)];
    if UnitIs(line.unit, t) {
      OneTimeUnit(line.unit, t);
      var seconds := Latency(ctx, line.name, line.unit, line.sum)[0].value;
      assert InSeconds(t, line.sum as real, seconds);
      assert total + [Seconds(ctx, line.name, seconds)] == [total[0], Seconds(ctx, line.name, seconds)];
    } else if !IsTimeUnit(line.unit) {
      assert total + [] == total;
    }
  }

  lemma OneTimeUnit(unit: string, t: TimeUnit)
    requires UnitIs(unit, t)
    ensures forall u :: UnitIs(unit, u) <==> u == t
  {
    UnitWords(unit);
  }

  lemma ReadWords(pf: NumberParser, ctx: Context, raw: string, line: Line)
    requires ReadsDecimals(pf) && line.Valid()
    requires (TrimSpace(raw) == "" <==> line.BlankLine?) && Fields(TrimSpace(raw)) == Words(line)
    ensures ObdLine(pf, ctx, raw) == Success(ObdDenoted(ctx, line))
    ensures LliteLine(pf, ctx, raw) == Success(LliteDenoted(ctx, line))
  {
    KindOfWords(line);
    match line
    case Bytes(_, _, _, _, _, _) => ReadSizes(pf, ctx, line);
    case Counted(name, count, _) =>
      assert pf(Words(line)[1]) == Some(count as real);
      assert SecondsSum(pf, Words(line)).None?;
    case Bare(name, count, words) =>
      assert pf(Words(line)[1]) == Some(count as real);
      assert words != [] ==> Words(line)[2] == words[0];
      assert SecondsSum(pf, Words(line)).None?;
    case Summed(_, _, _, _, _, _, _) => ReadSummed(pf, ctx, raw, line);
    case _ =>
  }

  lemma ReadLdlmLine(pf: NumberParser, source: string, style: D.Style, line: Line)
    requires ReadsDecimals(pf) && line.Valid()
    ensures LdlmLine(pf, source, PrintLine(style, line)) == Success(LdlmDenoted(source, line))
  {
    PrintedFields(style, line);
    KindOfWords(line);
    assert "read_bytes"[9..] == "s" && "write_bytes"[10..] == "s";
    assert line.Bytes? || line.Counted? || line.Summed? ==> Words(line)[2] == "samples" && Words(line)[1] == Decimal(line.count);
    assert line.Bare? && line.words != [] ==> Words(line)[2] == line.words[0];
  }

  // ------------------------------------------------------------------------- failure

  /** Some of these columns is no number. */
  predicate NoNumber(pf: NumberParser, fields: seq<string>, columns: seq<nat>)
    requires forall k :: 0 <= k < |columns| ==> columns[k] < |fields|
  {
    exists k :: 0 <= k < |columns| && pf(fields[columns[k]]).None?
  }

  /**
    A line of any of the three files fails exactly if it has a name and a count and that is
    no number, or if it counts bytes and has too few columns or one that is no number. The
    LDLM callback statistics only read the counts of samples.
   */
  lemma LineFailsExactly(pf: NumberParser, ctx: Context, raw: string)
    ensures var fields := Fields(TrimSpace(raw));
            var named := TrimSpace(raw) != "" && |fields| >= 2 && fields[0] != "snapshot_time";
            var bytes := named && (fields[0] == "read_bytes" || fields[0] == "write_bytes");
            && (ObdLine(pf, ctx, raw).Failure? <==>
                  || (named && !bytes && NoNumber(pf, fields, [1]))
                  || (bytes && (|fields| < 7 || NoNumber(pf, fields, [1, 4, 5, 6]))))
            && (LliteLine(pf, ctx, raw).Failure? <==> ObdLine(pf, ctx, raw).Failure?)
            && (LdlmLine(pf, ctx.source, raw).Failure? <==>
                  named && !HasSuffix(fields[0], "=") && |fields| >= 3 && fields[2] == "samples" && NoNumber(pf, fields, [1]))
  {
    var fields := Fields(TrimSpace(raw));
    if |fields| >= 2 {
      assert [1][0] == 1;
      assert pf(fields[1]).None? ==> NoNumber(pf, fields, [1]);
    }
    if |fields| >= 7 {
      var columns := [1, 4, 5, 6];
      assert columns[0] == 1 && columns[1] == 4 && columns[2] == 5 && columns[3] == 6;
      assert NoNumber(pf, fields, columns) <==>
             pf(fields[1]).None? || pf(fields[4]).None? || pf(fields[5]).None? || pf(fields[6]).None?;
    }
  }

  // -------------------------------------------------------------------- documents

  /** If every printed line is read as what it denotes, so is the document. */
  lemma {:induction false} ReadLines(read: string -> LineResult, denoted: Line -> seq<Observation>, layout: D.Layout, doc: seq<Line>)
    requires forall i :: 0 <= i < |doc| ==> read(PrintLine(layout(i), doc[i])) == Success(denoted(doc[i]))
    ensures Run(Lines(read), (), PrintLines(layout, doc)) == Success(Denote(denoted, doc))
    decreases |doc|
  {
    if doc != [] {
      var n := |doc| - 1;
      assert PrintLines(layout, doc) == PrintLines(layout, doc[..n]) + [PrintLine(layout(n), doc[n])];
      ReadLines(read, denoted, layout, doc[..n]);
      RunSnoc(Lines(read), (), PrintLines(layout, doc[..n]), PrintLine(layout(n), doc[n]));
    }
  }

  lemma ReadPrinted(read: string -> LineResult, denoted: Line -> seq<Observation>, layout: D.Layout, doc: seq<Line>)
    requires ValidDocument(doc) && read("") == Success([])
    requires forall i :: 0 <= i < |doc| ==> read(PrintLine(layout(i), doc[i])) == Success(denoted(doc[i]))
    ensures Run(Lines(read), (), Split(Print(layout, doc), '\n')) == Success(Denote(denoted, doc))
  {
    if doc == [] {
      assert Split("", '\n') == [""];
      D.RunOne(Lines(read), (), "");
    } else {
      forall i | 0 <= i < |doc|
        ensures '\n' !in PrintLines(layout, doc)[i]
      {
        PrintedFields(layout(i), doc[i]);
      }
      SplitJoin(PrintLines(layout, doc), '\n');
      ReadLines(read, denoted, layout, doc);
    }
  }

  /** Parsing the text of an mdc or osc stats file returns exactly what its lines denote, in order. */
  lemma ObdRoundTrip(pf: NumberParser, layout: D.Layout, doc: seq<Line>, ctx: Context)
    requires ReadsDecimals(pf) && ValidDocument(doc)
    ensures ParseObd(pf, Print(layout, doc), ctx) == Success(Denote(line => ObdDenoted(ctx, line), doc))
  {
    forall i | 0 <= i < |doc|
      ensures ObdLine(pf, ctx, PrintLine(layout(i), doc[i])) == Success(ObdDenoted(ctx, doc[i]))
    {
      ReadLine(pf, ctx, layout(i), doc[i]);
    }
    TrimNothing("");
    ReadPrinted(raw => ObdLine(pf, ctx, raw), line => ObdDenoted(ctx, line), layout, doc);
  }

  /** The same for the stats file of a mount, which reports no latencies and is trimmed as a whole first. */
  lemma LliteRoundTrip(pf: NumberParser, layout: D.Layout, doc: seq<Line>, ctx: Context)
    requires ReadsDecimals(pf) && ValidDocument(doc)
    ensures ParseLlite(pf, Print(layout, doc), ctx) == Success(Denote(line => LliteDenoted(ctx, line), doc))
  {
    forall i | 0 <= i < |doc|
      ensures LliteLine(pf, ctx, PrintLine(layout(i), doc[i])) == Success(LliteDenoted(ctx, doc[i]))
    {
      ReadLine(pf, ctx, layout(i), doc[i]);
    }
    TrimNothing("");
    ReadPrinted(raw => LliteLine(pf, ctx, raw), line => LliteDenoted(ctx, line), layout, doc);
    LliteTrimIsRedundant(pf, Print(layout, doc), ctx);
  }

  /** The same for the LDLM callback statistics: the count of every operation that has samples. */
  lemma LdlmRoundTrip(pf: NumberParser, layout: D.Layout, doc: seq<Line>, source: string)
    requires ReadsDecimals(pf) && ValidDocument(doc)
    ensures ParseLdlm(pf, Print(layout, doc), source) == Success(Denote(line => LdlmDenoted(source, line), doc))
  {
    forall i | 0 <= i < |doc|
      ensures LdlmLine(pf, source, PrintLine(layout(i), doc[i])) == Success(LdlmDenoted(source, doc[i]))
    {
      ReadLdlmLine(pf, source, layout(i), doc[i]);
    }
    TrimNothing("");
    ReadPrinted(raw => LdlmLine(pf, source, raw), line => LdlmDenoted(source, line), layout, doc);
  }

  // ----------------------------------------------------- trimming the text as a whole

  lemma TrimLeftKeeps(s: string, c: char)
    requires IsSpace(c)
    ensures TrimSpace([c] + s) == TrimSpace(s)
  {
    TrimLeftSpaces([c], s);
  }

  lemma {:induction false} TrimLeftSnoc(s: string, c: char)
    ensures TrimLeft(s, WHITESPACE) != "" ==> TrimLeft(s + [c], WHITESPACE) == TrimLeft(s, WHITESPACE) + [c]
    ensures TrimLeft(s, WHITESPACE) == "" ==> AllSpace(s)
  {
    if s != "" {
      assert (s + [c])[1..] == s[1..] + [c];
      TrimLeftSnoc(s[1..], c);
    }
  }

  lemma TrimRightKeeps(s: string, c: char)
    requires IsSpace(c)
    ensures TrimSpace(s + [c]) == TrimSpace(s)
  {
    TrimLeftSnoc(s, c);
    if TrimLeft(s, WHITESPACE) == "" {
      TrimNothing(s);
      TrimNothing(s + [c]);
    } else {
      TrimRightSpaces(TrimLeft(s, WHITESPACE), [c]);
    }
  }

  /** The last part, one character longer. */
  function Longer(parts: seq<string>, c: char): seq<string>
    requires |parts| > 0
  {
    parts[..|parts| - 1] + [parts[|parts| - 1] + [c]]
  }

  /** The first part, one character longer. */
  function Wider(parts: seq<string>, c: char): seq<string>
    requires |parts| > 0
  {
    [[c] + parts[0]] + parts[1..]
  }

  lemma WiderAndLonger(parts: seq<string>, b: char, c: char)
    requires |parts| > 0
    ensures Longer(Wider(parts, b), c) == Wider(Longer(parts, c), b)
  {
    if |parts| == 1 {
      assert [b] + (parts[0] + [c]) == [b] + parts[0] + [c];
    }
  }

  lemma {:induction false} SplitSnoc(s: string, c: char, sep: char)
    requires c != sep
    ensures Split(s + [c], sep) == Longer(Split(s, sep), c)
  {
    if s == "" {
      assert s + [c] == [c] && [c][1..] == "";
      assert Split("", sep) == [""];
      assert [c] + "" == "" + [c];
    } else {
      assert (s + [c])[1..] == s[1..] + [c];
      SplitSnoc(s[1..], c, sep);
      if s[0] == sep {
        assert Longer([""] + Split(s[1..], sep), c) == [""] + Longer(Split(s[1..], sep), c);
      } else {
        WiderAndLonger(Split(s[1..], sep), s[0], c);
      }
    }
  }

  /** A line parser that trims its line and reads nothing from a blank one. */
  ghost predicate Trims(read: string -> LineResult) {
    read("") == Success([]) && forall raw :: read(raw) == read(TrimSpace(raw))
  }

  lemma FirstSpaceIsRedundant(read: string -> LineResult, data: string)
    requires Trims(read) && data != "" && IsSpace(data[0])
    ensures Run(Lines(read), (), Split(data, '\n')) == Run(Lines(read), (), Split(data[1..], '\n'))
  {
    var rest := Split(data[1..], '\n');
    if data[0] == '\n' {
      assert ([""] + rest)[1..] == rest;
      PrependNothing(Run(Lines(read), (), rest));
    } else {
      TrimLeftKeeps(rest[0], data[0]);
      assert ([[data[0]] + rest[0]] + rest[1..])[1..] == rest[1..];
    }
  }

  lemma LastSpaceIsRedundant(read: string -> LineResult, s: string, c: char)
    requires Trims(read) && IsSpace(c)
    ensures Run(Lines(read), (), Split(s + [c], '\n')) == Run(Lines(read), (), Split(s, '\n'))
  {
    var parts, n := Split(s, '\n'), |Split(s, '\n')| - 1;
    if c == '\n' {
      SplitConcat(s, "", '\n');
      assert s + [c] + "" == s + [c];
      RunSnoc(Lines(read), (), parts, "");
      var r := Run(Lines(read), (), parts);
      if r.Success? {
        assert r.value + [] == r.value;
      }
    } else {
      SplitSnoc(s, c, '\n');
      TrimRightKeeps(parts[n], c);
      assert parts == parts[..n] + [parts[n]];
      RunSnoc(Lines(read), (), parts[..n], parts[n]);
      RunSnoc(Lines(read), (), parts[..n], parts[n] + [c]);
    }
  }

  lemma {:induction false} LeftTrimIsRedundant(read: string -> LineResult, data: string)
    requires Trims(read)
    ensures Run(Lines(read), (), Split(TrimLeft(data, WHITESPACE), '\n')) == Run(Lines(read), (), Split(data, '\n'))
  {
    if data != "" && IsSpace(data[0]) {
      FirstSpaceIsRedundant(read, data);
      LeftTrimIsRedundant(read, data[1..]);
    }
  }

  lemma {:induction false} RightTrimIsRedundant(read: string -> LineResult, data: string)
    requires Trims(read)
    ensures Run(Lines(read), (), Split(TrimRight(data, WHITESPACE), '\n')) == Run(Lines(read), (), Split(data, '\n'))
    decreases |data|
  {
    var n := |data| - 1;
    if data != "" && IsSpace(data[n]) {
      assert data == data[..n] + [data[n]];
      LastSpaceIsRedundant(read, data[..n], data[n]);
      RightTrimIsRedundant(read, data[..n]);
    }
  }

  lemma {:induction false} TrimTwice(s: string)
    ensures TrimSpace(TrimSpace(s)) == TrimSpace(s)
    decreases |s|
  {
    if s != "" && IsSpace(s[0]) {
      assert s == [s[0]] + s[1..];
      TrimLeftKeeps(s[1..], s[0]);
      TrimTwice(s[1..]);
    } else if s != "" && IsSpace(s[|s| - 1]) {
      var n := |s| - 1;
      assert s == s[..n] + [s[n]];
      TrimRightKeeps(s[..n], s[n]);
      TrimTwice(s[..n]);
    }
  }

  /** The llite parser trims the file and then each of its lines; the first makes no difference. */
  lemma LliteTrimIsRedundant(pf: NumberParser, data: string, ctx: Context)
    ensures ParseLlite(pf, data, ctx) == Run(Lines(raw => LliteLine(pf, ctx, raw)), (), Split(data, '\n'))
  {
    var read := raw => LliteLine(pf, ctx, raw);
    forall raw
      ensures read(raw) == read(TrimSpace(raw))
    {
      TrimTwice(raw);
    }
    TrimNothing("");
    LeftTrimIsRedundant(read, data);
    RightTrimIsRedundant(read, TrimLeft(data, WHITESPACE));
  }

  // ---------------------------------------------------------- the LNet stats file

  function Reals(ns: seq<nat>): (rs: seq<real>)
    ensures |rs| == |ns| && forall i :: 0 <= i < |ns| ==> rs[i] == ns[i] as real
  {
    seq(|ns|, i requires 0 <= i < |ns| => ns[i] as real)
  }

  lemma {:induction false} NumbersOfDecimals(pf: NumberParser, ns: seq<nat>)
    requires ReadsDecimals(pf)
    ensures L.Numbers(pf, D.Decimals(ns)) == Success(Reals(ns))
    decreases |ns|
  {
    if ns != [] {
      var front := ns[..|ns| - 1];
      NumbersOfDecimals(pf, front);
      assert D.Decimals(ns)[..|ns| - 1] == D.Decimals(front);
      assert Reals(ns) == Reals(front) + [ns[|ns| - 1] as real];
    }
  }

  /** The text of an LNet stats file. */
  function LNetText(style: D.Style, ns: seq<nat>): string {
    style.lead + Columns(D.Decimals(ns), style.gap, 0) + style.tail
  }

  /** Parsing a printed LNet stats file returns its eleven numbers, each under its own metric. */
  lemma LNetStatsRoundTrip(pf: NumberParser, style: D.Style, ns: seq<nat>, source: string)
    requires ReadsDecimals(pf) && |ns| == |L.STATS_FIELDS|
    ensures L.ParseStats(pf, LNetText(style, ns), source) == Success(L.StatsObservations(source, Reals(ns)))
  {
    var words := D.Decimals(ns);
    ColumnsTrimmed(words, style.gap, 0);
    TrimPadded(style.lead, Columns(words, style.gap, 0), style.tail);
    FieldsColumns(words, style.gap, 0);
    NumbersOfDecimals(pf, ns);
  }

  /** The stats file and `lnetctl stats show` report the same of the same numbers. */
  lemma LNetFileAgreesWithCtl(pf: NumberParser, style: D.Style, ns: seq<nat>, s: L.CtlStats, source: string)
    requires ReadsDecimals(pf) && |ns| == |L.STATS_FIELDS| && L.CtlValues(s) == Reals(ns)
    ensures L.ParseStats(pf, LNetText(style, ns), source) == Success(L.CtlObservations(source, s))
  {
    LNetStatsRoundTrip(pf, style, ns, source);
    L.CtlAgreesWithFile(source, s);
  }
}
