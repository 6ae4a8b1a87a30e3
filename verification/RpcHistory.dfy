/**
  What the mutable section record remembers: its value after any lines, read off the
  header lines alone.
 */
module RpcHistory {
  import opened GoStrings
  import opened RpcStats

  predicate IsHeader(raw: string) {
    !RawHeader(raw).NotHeader?
  }

  /** A header that starts a section. */
  predicate IsOpening(raw: string) {
    RawHeader(raw).InFlight? || RawHeader(raw).Opens?
  }

  /** Line `i` is the most recent header of `lines`. */
  predicate LastHeaderIs(lines: seq<string>, i: nat) {
    i < |lines| && IsHeader(lines[i]) && forall j :: i < j < |lines| ==> !IsHeader(lines[j])
  }

  /** Line `i` is the most recent section opening of `lines`. */
  predicate LastOpeningIs(lines: seq<string>, i: nat) {
    i < |lines| && IsOpening(lines[i]) && forall j :: i < j < |lines| ==> !IsOpening(lines[j])
  }

  ghost predicate ModifyIsPending(lines: seq<string>) {
    exists i: nat :: LastHeaderIs(lines, i) && RawHeader(lines[i]).LoneModify?
  }

  /** The section that a header names. */
  function OpenedName(raw: string): string
    requires IsOpening(raw)
  {
    match RawHeader(raw)
    case Opens(name, _) => name
    case _ => "rpcs_in_flight"
  }

  lemma {:induction false} SectionAfterConcat(s: Section, a: seq<string>, b: seq<string>)
    ensures SectionAfter(s, a + b) == SectionAfter(SectionAfter(s, a), b)
    decreases |a|
  {
    if a == [] {
      assert a + b == b;
    } else {
      assert (a + b)[1..] == a[1..] + b;
      SectionAfterConcat(AfterLine(s, a[0]), a[1..], b);
    }
  }

  lemma SectionAfterSnoc(s: Section, lines: seq<string>, raw: string)
    ensures SectionAfter(s, lines + [raw]) == AfterLine(SectionAfter(s, lines), raw)
  {
    SectionAfterConcat(s, lines, [raw]);
    assert [raw][1..] == [];
  }

  /** `pendingOperation` is "modify" exactly when the latest header is the lone `modify`. */
  lemma {:induction false} PendingFollowsLastHeader(lines: seq<string>)
    ensures SectionAfter(NO_SECTION, lines).pending == if ModifyIsPending(lines) then "modify" else ""
    decreases |lines|
  {
    if lines != [] {
      var n := |lines| - 1;
      var front, raw := lines[..n], lines[n];
      assert lines == front + [raw];
      SectionAfterSnoc(NO_SECTION, front, raw);
      PendingFollowsLastHeader(front);
      if IsHeader(raw) {
        assert LastHeaderIs(lines, n);
      } else {
        assert forall i: nat :: LastHeaderIs(lines, i) <==> LastHeaderIs(front, i);
      }
    }
  }

  /**
    `name` and `operation` are fixed by the last section opening; a plain
    `rpcs in flight` takes "modify" exactly when the header just before it is `modify`.
   */
  lemma {:induction false} SectionFollowsLastOpening(lines: seq<string>, i: nat)
    requires LastOpeningIs(lines, i)
    ensures SectionAfter(NO_SECTION, lines).name == OpenedName(lines[i])
    ensures RawHeader(lines[i]).Opens? ==>
              SectionAfter(NO_SECTION, lines).operation == RawHeader(lines[i]).operation
    ensures RawHeader(lines[i]).InFlight? ==>
              SectionAfter(NO_SECTION, lines).operation == if ModifyIsPending(lines[..i]) then "modify" else ""
    decreases |lines|
  {
    var n := |lines| - 1;
    var front, raw := lines[..n], lines[n];
    assert lines == front + [raw];
    SectionAfterSnoc(NO_SECTION, front, raw);
    if i == n {
      PendingFollowsLastHeader(front);
      assert lines[..i] == front;
    } else {
      SectionFollowsLastOpening(front, i);
      assert front[..i] == lines[..i];
    }
  }

  /** Before the first section opening there is no section. */
  lemma {:induction false} NoSectionBeforeOpening(lines: seq<string>)
    requires forall i :: 0 <= i < |lines| ==> !IsOpening(lines[i])
    ensures SectionAfter(NO_SECTION, lines).name == ""
    ensures SectionAfter(NO_SECTION, lines).operation == ""
    decreases |lines|
  {
    if lines != [] {
      var n := |lines| - 1;
      assert lines == lines[..n] + [lines[n]];
      SectionAfterSnoc(NO_SECTION, lines[..n], lines[n]);
      NoSectionBeforeOpening(lines[..n]);
    }
  }

  function HeaderLines(lines: seq<string>): seq<string> {
    if lines == [] then []
    else if IsHeader(lines[0]) then [lines[0]] + HeaderLines(lines[1..])
    else HeaderLines(lines[1..])
  }

  /** Scalars, blanks, buckets and snapshot lines leave no trace in the section record. */
  lemma {:induction false} OnlyHeadersMatter(s: Section, lines: seq<string>)
    ensures SectionAfter(s, lines) == SectionAfter(s, HeaderLines(lines))
    decreases |lines|
  {
    if lines != [] {
      OnlyHeadersMatter(AfterLine(s, lines[0]), lines[1..]);
      if IsHeader(lines[0]) {
        assert HeaderLines(lines)[1..] == HeaderLines(lines[1..]);
      }
    }
  }

  // ------------------------------------------------------------- rule ordering

  /** The seven section openings: the prefix of each and what it does. */
  const OPENINGS: seq<(string, Header)> := [
    ("pages per rpc", Opens("pages_per_rpc", "")),
    ("rpcs in flight", InFlight),
    ("dio read RPCs in flight:", Opens("rpcs_in_flight", "dio_read")),
    ("dio write RPCs in flight:", Opens("rpcs_in_flight", "dio_write")),
    ("read RPCs in flight:", Opens("rpcs_in_flight", "read")),
    ("write RPCs in flight:", Opens("rpcs_in_flight", "write")),
    ("offset", Opens("rpcs_offset", ""))
  ]

  lemma PrefixAt(line: string, p: string, k: nat)
    requires k < |p| && HasPrefix(line, p)
    ensures line[k] == p[k]
  {
    assert line[..|p|][k] == line[k];
  }

  lemma Excludes(line: string, q: string, k: nat)
    requires k < |q| && k < |line| && line[k] != q[k]
    ensures !HasPrefix(line, q)
  {
    if HasPrefix(line, q) {
      PrefixAt(line, q, k);
      assert false;
    }
  }

  /** A line whose first letter starts no opening prefix opens no section. */
  lemma FirstLetterOpensNothing(line: string)
    requires line != "" && line[0] !in {'p', 'r', 'd', 'w', 'o'}
    ensures !HeaderOf(line).InFlight? && !HeaderOf(line).Opens?
    ensures HeaderOf(line).LoneModify? ==> line[0] == 'm'
    ensures HeaderOf(line).ColumnNames? ==> Contains(line, "read") && Contains(line, "write")
  {
    Excludes(line, "pages per rpc", 0);
    Excludes(line, "rpcs in flight", 0);
    Excludes(line, "dio read RPCs in flight:", 0);
    Excludes(line, "dio write RPCs in flight:", 0);
    Excludes(line, "read RPCs in flight:", 0);
    Excludes(line, "write RPCs in flight:", 0);
    Excludes(line, "offset", 0);
  }

  /** An opening prefix decides the header, whichever rule is tried first. */
  lemma OpeningDecides(line: string, i: nat)
    requires i < |OPENINGS| && HasPrefix(line, OPENINGS[i].0)
    ensures HeaderOf(line) == OPENINGS[i].1
  {
    if i == 1 {
      PrefixAt(line, "rpcs in flight", 0);
      Excludes(line, "pages per rpc", 0);
    } else if i == 2 || i == 3 {
      DioOpens(line, i);
    } else if i == 4 {
      PrefixAt(line, "read RPCs in flight:", 0);
      PrefixAt(line, "read RPCs in flight:", 1);
      Excludes(line, "pages per rpc", 0);
      Excludes(line, "rpcs in flight", 1);
      Excludes(line, "dio read RPCs in flight:", 0);
      Excludes(line, "dio write RPCs in flight:", 0);
    } else if i >= 5 {
      LaterOpens(line, i);
    }
  }

  lemma DioOpens(line: string, i: nat)
    requires 2 <= i <= 3 && HasPrefix(line, OPENINGS[i].0)
    ensures HeaderOf(line) == OPENINGS[i].1
  {
    PrefixAt(line, OPENINGS[i].0, 0);
    Excludes(line, "pages per rpc", 0);
    Excludes(line, "rpcs in flight", 0);
    if i == 3 {
      PrefixAt(line, "dio write RPCs in flight:", 4);
      Excludes(line, "dio read RPCs in flight:", 4);
    }
  }

  lemma LaterOpens(line: string, i: nat)
    requires 5 <= i <= 6 && HasPrefix(line, OPENINGS[i].0)
    ensures HeaderOf(line) == OPENINGS[i].1
  {
    PrefixAt(line, OPENINGS[i].0, 0);
    Excludes(line, "pages per rpc", 0);
    Excludes(line, "rpcs in flight", 0);
    Excludes(line, "dio read RPCs in flight:", 0);
    Excludes(line, "dio write RPCs in flight:", 0);
    Excludes(line, "read RPCs in flight:", 0);
    if i == 6 {
      Excludes(line, "write RPCs in flight:", 0);
    }
  }

  /**
    The order of the header rules matters only for the column-name rule: the opening
    prefixes exclude one another, and a line is a column header exactly when it names
    both operations and neither opens a section nor is the lone `modify`.
   */
  lemma HeaderRulesAreOrderFree(line: string)
    ensures forall i: nat :: i < |OPENINGS| && HasPrefix(line, OPENINGS[i].0) ==> HeaderOf(line) == OPENINGS[i].1
    ensures HeaderOf(line).ColumnNames? <==>
            && line != "modify"
            && (forall i: nat :: i < |OPENINGS| ==> !HasPrefix(line, OPENINGS[i].0))
            && Contains(line, "read")
            && Contains(line, "write")
  {
    forall i: nat | i < |OPENINGS| && HasPrefix(line, OPENINGS[i].0)
      ensures HeaderOf(line) == OPENINGS[i].1
    {
      OpeningDecides(line, i);
    }
    if forall i: nat :: i < |OPENINGS| ==> !HasPrefix(line, OPENINGS[i].0) {
      assert !HasPrefix(line, OPENINGS[0].0) && !HasPrefix(line, OPENINGS[1].0) && !HasPrefix(line, OPENINGS[2].0);
      assert !HasPrefix(line, OPENINGS[3].0) && !HasPrefix(line, OPENINGS[4].0) && !HasPrefix(line, OPENINGS[5].0);
      assert !HasPrefix(line, OPENINGS[6].0);
    }
  }
}
