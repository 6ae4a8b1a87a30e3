/** The single-value files of llite mounts and of mdc and osc targets, and the import state. */
module TargetFiles {
  import opened Wrappers
  import opened GoStrings
  import opened Observations
  import opened StatsFiles

  // ---------------------------------------------------------- single-value files

  function LliteFileMetric(file: string): Option<string> {
    match file
    case "blocksize" => Some("blocksize_bytes")
    case "filesfree" => Some("inodes_free")
    case "filestotal" => Some("inodes_maximum")
    case "kbytesavail" => Some("available_kibibytes")
    case "kbytesfree" => Some("free_kibibytes")
    case "kbytestotal" => Some("capacity_kibibytes")
    case "checksum_pages" => Some("checksum_pages_enabled")
    case "default_easize" => Some("default_ea_size_bytes")
    case "lazystatfs" => Some("lazystatfs_enabled")
    case "max_easize" => Some("maximum_ea_size_bytes")
    case "max_read_ahead_mb" => Some("maximum_read_ahead_megabytes")
    case "max_read_ahead_per_file_mb" => Some("maximum_read_ahead_per_file_megabytes")
    case "max_read_ahead_whole_mb" => Some("maximum_read_ahead_whole_megabytes")
    case "statahead_agl" => Some("statahead_agl_enabled")
    case "statahead_max" => Some("statahead_maximum")
    case "xattr_cache" => Some("xattr_cache_enabled")
    case _ => None
  }

  function ParseLliteFile(pf: NumberParser, data: string, file: string, ctx: Context): LineResult {
    match LliteFileMetric(file)
    case None => Success([])
    case Some(metricID) =>
      match pf(TrimSpace(data))
      case None => Failure(BadNumber(file, TrimSpace(data)))
      case Some(v) => Success([ClientObservation(ctx, metricID, Gauge, TargetLabels(ctx), v)])
  }

  /** The metric, whether it has a type label, and the scale of an mdc or osc file. */
  datatype FileEntry = FileEntry(metricID: string, hasType: bool, scale: real)

  function ClientFileEntry(file: string): Option<FileEntry> {
    match file
    case "cur_dirty_bytes" => Some(FileEntry("osc_dirty_bytes", false, 1.0))
    case "max_dirty_mb" => Some(FileEntry("osc_max_dirty_bytes", false, 1048576.0))
    case "max_pages_per_rpc" => Some(FileEntry("max_pages_per_rpc", true, 1.0))
    case "max_rpcs_in_flight" => Some(FileEntry("max_rpcs_in_flight", true, 1.0))
    case "max_mod_rpcs_in_flight" => Some(FileEntry("max_mod_rpcs_in_flight", true, 1.0))
    case "active" => Some(FileEntry("target_active", true, 1.0))
    case _ => None
  }

  function ParseClientFile(pf: NumberParser, data: string, file: string, ctx: Context): LineResult {
    match ClientFileEntry(file)
    case None => Success([])
    case Some(entry) =>
      match pf(TrimSpace(data))
      case None => Failure(BadNumber(file, TrimSpace(data)))
      case Some(v) =>
        var labels := if entry.hasType then TargetLabels(ctx)["type" := ctx.typ] else TargetLabels(ctx);
        Success([ClientObservation(ctx, entry.metricID, Gauge, labels, v * entry.scale)])
  }

  // ---------------------------------------------------------------- import state

  const CURRENT := "current_state:"

  predicate IsCurrent(raw: string) {
    HasPrefix(TrimSpace(raw), CURRENT)
  }

  function CurrentValue(raw: string): string
    requires IsCurrent(raw)
  {
    FirstToken(TrimSpace(raw)[|CURRENT|..])
  }

  /** A line that names the state by itself: neither blank, nor current, nor history. */
  predicate IsPlain(raw: string) {
    var line := TrimSpace(raw);
    line != "" && !IsCurrent(raw) && !HasPrefix(line, "state_history:") && !HasPrefix(line, "- [")
  }

  /** Line `i` is the last `current_state:` line. */
  ghost predicate LastCurrentIs(lines: seq<string>, i: nat) {
    i < |lines| && IsCurrent(lines[i]) && forall j :: i < j < |lines| ==> !IsCurrent(lines[j])
  }

  /** Line `i` is the first plain line. */
  ghost predicate FirstPlainIs(lines: seq<string>, i: nat) {
    i < |lines| && IsPlain(lines[i]) && forall j :: 0 <= j < i ==> !IsPlain(lines[j])
  }

  ghost predicate HasCurrent(lines: seq<string>) {
    exists i: nat :: LastCurrentIs(lines, i)
  }

  /** The value of the last `current_state:` line. */
  ghost predicate CurrentIs(lines: seq<string>, state: string) {
    exists i: nat :: LastCurrentIs(lines, i) && state == CurrentValue(lines[i])
  }

  /** The first word of the first plain line; without one, nothing. */
  ghost predicate PlainIs(lines: seq<string>, state: string) {
    if exists i: nat :: FirstPlainIs(lines, i) then
      exists i: nat :: FirstPlainIs(lines, i) && state == FirstToken(TrimSpace(lines[i]))
    else
      state == ""
  }

  /**
    The state that a file names: the value of its last `current_state:` line, even an
    empty one, or without such a line the first word of its first plain line.
   */
  ghost predicate StateIs(lines: seq<string>, state: string) {
    if HasCurrent(lines) then CurrentIs(lines, state) else PlainIs(lines, state)
  }

  function StateObservation(ctx: Context, state: string): Observation {
    ClientObservation(ctx, "target_state", Gauge, TargetLabels(ctx)["type" := ctx.typ]["state" := state], 1.0)
  }

  lemma {:induction false} TrimRightEnds(s: string, cut: set<char>)
    ensures TrimRight(s, cut) != "" ==> TrimRight(s, cut)[0] == s[0]
    ensures |TrimRight(s, cut)| <= |s|
    ensures TrimRight(s, cut) != "" ==> s != ""
  {
    if s != "" && s[|s| - 1] in cut {
      TrimRightEnds(s[..|s| - 1], cut);
    }
  }

  lemma {:induction false} TrimLeftStarts(s: string, cut: set<char>)
    ensures TrimLeft(s, cut) != "" ==> TrimLeft(s, cut)[0] !in cut
  {
    if s != "" && s[0] in cut {
      TrimLeftStarts(s[1..], cut);
    }
  }

  /** A line with any text has a first word. */
  lemma TextHasToken(raw: string)
    requires TrimSpace(raw) != ""
    ensures FirstToken(TrimSpace(raw)) != ""
  {
    var left := TrimLeft(raw, WHITESPACE);
    TrimLeftStarts(raw, WHITESPACE);
    TrimRightEnds(left, WHITESPACE);
    assert !IsSpace(TrimSpace(raw)[0]);
    assert |Fields(TrimSpace(raw))| > 0;
    assert IsWord(Fields(TrimSpace(raw))[0]);
  }

  /** A file names exactly one state. */
  lemma StateIsUnique(lines: seq<string>, a: string, b: string)
    requires StateIs(lines, a) && StateIs(lines, b)
    ensures a == b
  {
    assert forall i: nat, j: nat :: LastCurrentIs(lines, i) && LastCurrentIs(lines, j) ==> i == j;
    assert forall i: nat, j: nat :: FirstPlainIs(lines, i) && FirstPlainIs(lines, j) ==> i == j;
  }

  lemma SomeState(lines: seq<string>)
    ensures exists state :: StateIs(lines, state)
  {
    if i: nat :| LastCurrentIs(lines, i) {
      assert StateIs(lines, CurrentValue(lines[i]));
    } else if i: nat :| FirstPlainIs(lines, i) {
      assert StateIs(lines, FirstToken(TrimSpace(lines[i])));
    } else {
      assert StateIs(lines, "");
    }
  }

  ghost function NamedState(lines: seq<string>): (state: string)
    ensures StateIs(lines, state)
  {
    SomeState(lines);
    var state :| StateIs(lines, state);
    state
  }

  /** The observed state as a series of value 1, or nothing if the file names none. */
  ghost function ParseState(data: string, ctx: Context): seq<Observation> {
    var state := NamedState(Split(data, '\n'));
    if state == "" then [] else [StateObservation(ctx, state)]
  }

  method ParseClientState(data: string, ctx: Context) returns (r: seq<Observation>)
    ensures r == ParseState(data, ctx)
  {
    var current, foundCurrent, fallback := "", false, "";
    var lines := Split(data, '\n');
    for n := 0 to |lines|
      invariant foundCurrent <==> HasCurrent(lines[..n])
      invariant foundCurrent ==> CurrentIs(lines[..n], current)
      invariant !foundCurrent ==> PlainIs(lines[..n], fallback)
    {
      CurrentStep(lines[..n], lines[n]);
      PlainStep(lines[..n], lines[n], fallback);
      assert lines[..n + 1] == lines[..n] + [lines[n]];
      var trimmed := TrimSpace(lines[n]);
      if HasPrefix(trimmed, CURRENT) {
        current := FirstToken(trimmed[|CURRENT|..]);
        foundCurrent := true;
        continue;
      }
      if foundCurrent || fallback != "" {
        continue;
      }
      if trimmed == "" || HasPrefix(trimmed, "state_history:") || HasPrefix(trimmed, "- [") {
        continue;
      }
      fallback := FirstToken(trimmed);
    }
    assert lines[..|lines|] == lines;
    var state := fallback;
    if foundCurrent {
      state := current;
    }
    StateIsUnique(lines, state, NamedState(lines));
    if state == "" {
      return [];
    }
    return [StateObservation(ctx, state)];
  }

  /** How one more line changes the current state. */
  lemma CurrentStep(lines: seq<string>, raw: string)
    ensures IsCurrent(raw) ==> HasCurrent(lines + [raw]) && CurrentIs(lines + [raw], CurrentValue(raw))
    ensures !IsCurrent(raw) ==> (HasCurrent(lines + [raw]) <==> HasCurrent(lines))
    ensures !IsCurrent(raw) ==> forall s :: CurrentIs(lines, s) ==> CurrentIs(lines + [raw], s)
  {
    var more := lines + [raw];
    assert forall i :: 0 <= i < |lines| ==> more[i] == lines[i];
    if IsCurrent(raw) {
      assert LastCurrentIs(more, |lines|);
    } else {
      forall i: nat
        ensures LastCurrentIs(more, i) <==> LastCurrentIs(lines, i)
      {
      }
    }
  }

  /** How one more line changes what the plain lines name. */
  lemma PlainStep(lines: seq<string>, raw: string, state: string)
    ensures PlainIs(lines, state) ==>
              PlainIs(lines + [raw], if state == "" && IsPlain(raw) then FirstToken(TrimSpace(raw)) else state)
  {
    var more := lines + [raw];
    assert forall i :: 0 <= i < |lines| ==> more[i] == lines[i];
    if PlainIs(lines, state) {
      if exists i: nat :: FirstPlainIs(lines, i) {
        var i: nat :| FirstPlainIs(lines, i) && state == FirstToken(TrimSpace(lines[i]));
        TextHasToken(lines[i]);
        assert FirstPlainIs(more, i);
      } else {
        NoPlain(lines, |lines|);
        if IsPlain(raw) {
          assert FirstPlainIs(more, |lines|);
        } else {
          assert forall i: nat :: !FirstPlainIs(more, i);
        }
      }
    }
  }

  lemma {:induction false} NoPlain(lines: seq<string>, n: nat)
    requires n <= |lines| && forall i: nat :: !FirstPlainIs(lines, i)
    ensures forall i :: 0 <= i < n ==> !IsPlain(lines[i])
  {
    if n > 0 {
      NoPlain(lines, n - 1);
      assert !FirstPlainIs(lines, n - 1);
    }
  }
}
