/** When the `rpc_stats` parser fails, how it composes, and how much it reports. */
module RpcOutcome {
  import opened Wrappers
  import opened GoStrings
  import opened LineMachine
  import opened Observations
  import opened RpcStats

  // -------------------------------------------------------------- composition

  /**
    Parsing `a`, a newline and `b` is parsing `a` and then reading `b` from the section
    in which `a` ends; a failure of `a` is the failure of the whole.
   */
  lemma ParseConcat(pf: NumberParser, a: string, b: string, ctx: Context)
    ensures Parse(pf, a + ['\n'] + b, ctx)
         == Then(Parse(pf, a, ctx),
                 ObservationsFrom(pf, ctx, SectionAfter(NO_SECTION, Split(a, '\n')), Split(b, '\n')))
  {
    var m, la, lb := RpcMachine(pf), Split(a, '\n'), Split(b, '\n');
    SplitConcat(a, b, '\n');
    RunConcat(m, NO_SECTION, la, lb);
    StateIsSection(pf, NO_SECTION, la);
    RenderThen(ctx, Run(m, NO_SECTION, la), Run(m, StateAfter(m, NO_SECTION, la), lb));
  }

  // ------------------------------------------------------------------- scalars

  /** The titles of the scalars, each with its metric and its operation. */
  const SCALARS: seq<(string, string, string)> := [
    ("modify_rpcs_in_flight", "rpcs_current", "modify"),
    ("dio read rpcs in flight", "rpcs_current", "dio_read"),
    ("dio write rpcs in flight", "rpcs_current", "dio_write"),
    ("read rpcs in flight", "rpcs_current", "read"),
    ("write rpcs in flight", "rpcs_current", "write"),
    ("pending read pages", "pending_pages", "read"),
    ("pending write pages", "pending_pages", "write")]

  lemma ScalarTitle(i: nat)
    requires i < |SCALARS|
    ensures NoCapitals(SCALARS[i].0) && ScalarKind(SCALARS[i].0) == Some((SCALARS[i].1, SCALARS[i].2))
  {
  }

  /**
    A line is a scalar if what stands before its first colon spells one of seven titles, in
    any mixture of small letters and capitals, and the first word after it is a number,
    whatever follows that.
   */
  lemma ScalarsAreRead(pf: NumberParser, title: string, rest: string, i: nat)
    requires ':' !in title && i < |SCALARS| && Spells(TrimSpace(title), SCALARS[i].0)
    ensures ParseScalar(pf, title + [':'] + rest)
         == if Fields(rest) == [] || pf(Fields(rest)[0]).None? then None
            else Some(Scalar(SCALARS[i].1, SCALARS[i].2, pf(Fields(rest)[0]).value))
  {
    var line := title + [':'] + rest;
    IndexOfFirst(title, rest, ':');
    assert line[..|title|] == title && line[|title| + 1..] == rest;
    ScalarTitle(i);
    LowerSpells(TrimSpace(title), SCALARS[i].0);
  }

  lemma KindHasTitle(what: string) returns (i: nat)
    requires ScalarKind(what).Some?
    ensures i < |SCALARS| && SCALARS[i].0 == what
  {
    i := match what
      case "modify_rpcs_in_flight" => 0
      case "dio read rpcs in flight" => 1
      case "dio write rpcs in flight" => 2
      case "read rpcs in flight" => 3
      case "write rpcs in flight" => 4
      case "pending read pages" => 5
      case _ => 6;
  }

  /** No other line is a scalar. */
  lemma NothingElseIsScalar(pf: NumberParser, line: string)
    requires ParseScalar(pf, line).Some?
    ensures exists colon: nat, i: nat :: colon < |line| && line[colon] == ':' && ':' !in line[..colon]
                                         && i < |SCALARS| && Spells(TrimSpace(line[..colon]), SCALARS[i].0)
  {
    var colon := IndexOf(line, ':').value;
    var i := KindHasTitle(ToLower(TrimSpace(line[..colon])));
    ScalarTitle(i);
    LowerSpells(TrimSpace(line[..colon]), SCALARS[i].0);
  }

  // ------------------------------------------------------------------- failure

  /** A bucket line that cannot be read: too few columns, or a column that is no number. */
  predicate BadColumns(pf: NumberParser, line: string) {
    var fields := Fields(line);
    || |fields| < 2
    || pf(fields[1]).None?
    || (|fields| > 4 && fields[4] != "|" && pf(fields[4]).None?)
    || (|fields| > 5 && fields[4] == "|" && pf(fields[5]).None?)
  }

  /** A raw line that fails when it is reached in section `s`. */
  predicate BadLine(pf: NumberParser, s: Section, raw: string) {
    var line := TrimSpace(raw);
    && line != "" && !HasPrefix(line, "snapshot_time")
    && ParseScalar(pf, line).None?
    && HeaderOf(line).NotHeader?
    && s.name != ""
    && IsBucketLine(line)
    && BadColumns(pf, line)
  }

  lemma BadLineFails(pf: NumberParser, s: Section, raw: string)
    ensures LineItems(pf, s, raw).Failure? <==> BadLine(pf, s, raw)
    ensures BadLine(pf, s, raw) ==>
              LineItems(pf, s, raw).error == BadBucket(s.name, TrimSpace(raw), LineItems(pf, s, raw).error.cause)
  {
  }

  /** Line `i` is the first bad line that a parse from the beginning reaches. */
  ghost predicate FirstBadLine(pf: NumberParser, lines: seq<string>, i: nat) {
    && i < |lines|
    && BadLine(pf, SectionAfter(NO_SECTION, lines[..i]), lines[i])
    && forall j: nat :: j < i ==> !BadLine(pf, SectionAfter(NO_SECTION, lines[..j]), lines[j])
  }

  /** A parse that stopped at line `i`, in the section that the lines before it leave. */
  ghost predicate StoppedAt<T>(r: Result<T, ParseError>, lines: seq<string>, i: nat) {
    && i < |lines|
    && r.Failure?
    && r.error.BadBucket?
    && r.error.section == SectionAfter(NO_SECTION, lines[..i]).name
    && r.error.line == TrimSpace(lines[i])
  }

  lemma FirstBadLineIsFirstFailure(pf: NumberParser, lines: seq<string>, i: nat)
    ensures FirstBadLine(pf, lines, i) <==> FirstFailure(RpcMachine(pf), NO_SECTION, lines, i)
  {
    forall j: nat | j < |lines|
      ensures FailsAt(RpcMachine(pf), NO_SECTION, lines, j)
         <==> BadLine(pf, SectionAfter(NO_SECTION, lines[..j]), lines[j])
    {
      StateIsSection(pf, NO_SECTION, lines[..j]);
      BadLineFails(pf, SectionAfter(NO_SECTION, lines[..j]), lines[j]);
    }
  }

  /**
    Parsing fails exactly when some line reached in an open section is a bucket line,
    neither header nor scalar, with bad columns. It then reports the first such line and
    the section it was reached in, and no observation.
   */
  lemma ParseFailsExactly(pf: NumberParser, data: string, ctx: Context)
    ensures var lines := Split(data, '\n');
            Parse(pf, data, ctx).Failure? <==> exists i: nat :: FirstBadLine(pf, lines, i)
    ensures var lines := Split(data, '\n');
            forall i: nat :: FirstBadLine(pf, lines, i) ==> StoppedAt(Parse(pf, data, ctx), lines, i)
  {
    var m, lines := RpcMachine(pf), Split(data, '\n');
    RunFailsExactly(m, NO_SECTION, lines);
    forall i: nat
      ensures FirstBadLine(pf, lines, i) <==> FirstFailure(m, NO_SECTION, lines, i)
    {
      FirstBadLineIsFirstFailure(pf, lines, i);
    }
    forall i: nat | FirstBadLine(pf, lines, i)
      ensures StoppedAt(Run(m, NO_SECTION, lines), lines, i)
    {
      StateIsSection(pf, NO_SECTION, lines[..i]);
      BadLineFails(pf, SectionAfter(NO_SECTION, lines[..i]), lines[i]);
    }
  }

  // --------------------------------------------------------------------- size

  function NonBlank(lines: seq<string>): seq<string> {
    if lines == [] then []
    else if TrimSpace(lines[0]) == "" then NonBlank(lines[1..])
    else [lines[0]] + NonBlank(lines[1..])
  }

  lemma {:induction false} ObservationsBounded(pf: NumberParser, ctx: Context, s: Section, lines: seq<string>)
    requires ObservationsFrom(pf, ctx, s, lines).Success?
    ensures |ObservationsFrom(pf, ctx, s, lines).value| <= 2 * |NonBlank(lines)|
    decreases |lines|
  {
    if lines != [] {
      ObservationsStep(pf, ctx, s, lines);
      LineCases(pf, ctx, s, lines[0]);
      ObservationsBounded(pf, ctx, AfterLine(s, lines[0]), lines[1..]);
    }
  }

  /** A parse reports at most two observations per non-blank line. */
  lemma ParseBounded(pf: NumberParser, data: string, ctx: Context)
    requires Parse(pf, data, ctx).Success?
    ensures |Parse(pf, data, ctx).value| <= 2 * |NonBlank(Split(data, '\n'))|
  {
    ObservationsBounded(pf, ctx, NO_SECTION, Split(data, '\n'));
  }
}
