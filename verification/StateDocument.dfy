/** Printed import state files, and the state that is read back from their text. */
module StateDocument {
  import opened Wrappers
  import opened GoStrings
  import opened Observations
  import opened TargetFiles
  import D = RpcDocument

  datatype Line =
    | BlankLine
    | CurrentLine(words: seq<string>)                         // current_state: FULL
    | HistoryHeading                                          // state_history:
    | HistoryLine(words: seq<string>)                         // - [ 1700000000, CONNECTING ]
    | PlainLine(words: seq<string>)                           // FULL
  {
    predicate Valid() {
      match this
      case CurrentLine(words) => AllWords(words)
      case HistoryLine(words) => AllWords(words) && words != []
      case PlainLine(words) => AllWords(words) && words != [] && IsName(words[0])
      case _ => true
    }
  }

  /** A word that begins no other line. */
  predicate IsName(word: string) {
    !HasPrefix(word, "current_state:") && !HasPrefix(word, "state_history:") && word != "-"
  }

  ghost predicate ValidDocument(doc: seq<Line>) {
    forall i :: 0 <= i < |doc| ==> doc[i].Valid()
  }

  // ------------------------------------------------------------------------- denotation

  function FirstOf(words: seq<string>): string {
    if words == [] then "" else words[0]
  }

  /** What the last current line names, even if that is nothing. */
  function CurrentOf(doc: seq<Line>): Option<string> {
    if doc == [] then None
    else
      match doc[|doc| - 1]
      case CurrentLine(words) => Some(FirstOf(words))
      case _ => CurrentOf(doc[..|doc| - 1])
  }

  /** The first word of the first plain line. */
  function PlainOf(doc: seq<Line>): string
  {
    if doc == [] then ""
    else
      var front, last := doc[..|doc| - 1], doc[|doc| - 1];
      if PlainOf(front) == "" && last.PlainLine? then FirstOf(last.words) else PlainOf(front)
  }

  function StateOf(doc: seq<Line>): string
  {
    if CurrentOf(doc).Some? then CurrentOf(doc).value else PlainOf(doc)
  }

  // --------------------------------------------------------------------------- printing

  /** A lead and, after a gap, the words that follow it, if any do. */
  function Led(lead: string, gap: nat -> Gap, words: seq<string>): string {
    if words == [] then lead else lead + (gap(0) + Columns(words, gap, 1))
  }

  function Text(gap: nat -> Gap, line: Line): string {
    match line
    case BlankLine => ""
    case CurrentLine(words) => Led("current_state:", gap, words)
    case HistoryHeading => "state_history:"
    case HistoryLine(words) => Led("- [", gap, words)
    case PlainLine(words) => Columns(words, gap, 0)
  }

  function PrintLine(style: D.Style, line: Line): string {
    style.lead + Text(style.gap, line) + style.tail
  }

  function PrintLines(layout: D.Layout, doc: seq<Line>): (lines: seq<string>)
    ensures |lines| == |doc| && forall i :: 0 <= i < |lines| ==> lines[i] == PrintLine(layout(i), doc[i])
  {
    seq(|doc|, i requires 0 <= i < |doc| => PrintLine(layout(i), doc[i]))
  }

  function Print(layout: D.Layout, doc: seq<Line>): string {
    Join(PrintLines(layout, doc), '\n')
  }

  // ----------------------------------------------------------------------- reading lines

  lemma LedShape(lead: string, gap: nat -> Gap, words: seq<string>)
    requires Trimmed(lead) && '\n' !in lead && AllWords(words)
    ensures Trimmed(Led(lead, gap, words)) && '\n' !in Led(lead, gap, words)
    ensures HasPrefix(Led(lead, gap, words), lead)
    ensures FirstToken(Led(lead, gap, words)[|lead|..]) == if words == [] then "" else words[0]
  {
    var led := Led(lead, gap, words);
    if words == [] {
      assert led[|lead|..] == "";
    } else {
      var rest := gap(0) + Columns(words, gap, 1);
      ColumnsTrimmed(words, gap, 1);
      FieldsSkipSpaces(gap(0), Columns(words, gap, 1));
      FieldsColumns(words, gap, 1);
      assert led[..|lead|] == lead && led[|lead|..] == rest;
      assert led[|led| - 1] == Columns(words, gap, 1)[|Columns(words, gap, 1)| - 1];
    }
  }

  lemma Leads()
    ensures Trimmed("current_state:") && Trimmed("state_history:") && Trimmed("- [")
    ensures '\n' !in "current_state:" && '\n' !in "state_history:" && '\n' !in "- ["
  {
  }

  /** The trimmed text of a line that is not blank. */
  lemma LineTrims(style: D.Style, line: Line)
    requires line.Valid()
    ensures TrimSpace(PrintLine(style, line)) == Text(style.gap, line)
    ensures '\n' !in PrintLine(style, line)
  {
    Leads();
    match line {
      case BlankLine => TrimNothing(PrintLine(style, line));
      case CurrentLine(words) => LedShape("current_state:", style.gap, words);
      case HistoryHeading =>
      case HistoryLine(words) => LedShape("- [", style.gap, words);
      case PlainLine(words) => ColumnsTrimmed(words, style.gap, 0);
    }
    if !line.BlankLine? {
      TrimPadded(style.lead, Text(style.gap, line), style.tail);
    }
  }

  /** A prefix without white space is a prefix of the first word. */
  lemma PrefixOfWord(text: string, word: string, prefix: string)
    requires HasPrefix(text, word) && HasPrefix(text, prefix) && IsWord(prefix)
    requires |text| == |word| || IsSpace(text[|word|])
    ensures HasPrefix(word, prefix)
  {
    assert forall i :: 0 <= i < |prefix| ==> prefix[i] == text[..|prefix|][i] == text[i];
    assert text[..|word|][..|prefix|] == text[..|prefix|];
  }

  lemma FirstColumn(words: seq<string>, gap: nat -> Gap)
    requires AllWords(words) && words != []
    ensures var text := Columns(words, gap, 0);
            HasPrefix(text, words[0]) && (|text| == |words[0]| || IsSpace(text[|words[0]|]))
    ensures FirstToken(Columns(words, gap, 0)) == words[0]
  {
    ColumnsTrimmed(words, gap, 0);
    FieldsColumns(words, gap, 0);
  }

  lemma PlainBeginsNoOther(words: seq<string>, gap: nat -> Gap)
    requires AllWords(words) && words != [] && IsName(words[0])
    ensures var text := Columns(words, gap, 0);
            !HasPrefix(text, "current_state:") && !HasPrefix(text, "state_history:") && !HasPrefix(text, "- [")
  {
    var text, word := Columns(words, gap, 0), words[0];
    FirstColumn(words, gap);
    assert IsWord("current_state:") && IsWord("state_history:");
    if HasPrefix(text, "current_state:") {
      PrefixOfWord(text, word, "current_state:");
    }
    if HasPrefix(text, "state_history:") {
      PrefixOfWord(text, word, "state_history:");
    }
    if HasPrefix(text, "- [") {
      DashWord(text, word);
    }
  }

  lemma DashWord(text: string, word: string)
    requires HasPrefix(text, "- [") && HasPrefix(text, word) && IsWord(word)
    ensures word == "-"
  {
    assert text[..3][0] == '-' && text[..3][1] == ' ';
    assert forall i :: 0 <= i < |word| ==> word[i] == text[..|word|][i] == text[i];
    assert IsSpace(text[1]);
  }

  lemma LeadsDiffer(text: string)
    ensures HasPrefix(text, "current_state:") ==> !HasPrefix(text, "state_history:") && !HasPrefix(text, "- [")
    ensures HasPrefix(text, "state_history:") ==> !HasPrefix(text, "- [")
  {
    if HasPrefix(text, "current_state:") {
      assert text[..14][0] == 'c';
      assert text[0] == 'c';
    }
    if HasPrefix(text, "state_history:") {
      assert text[..14][0] == 's';
      assert text[0] == 's';
    }
    if HasPrefix(text, "- [") {
      assert text[..3][0] == '-';
    }
  }

  /** The raw line is taken for this one. */
  ghost predicate Taken(raw: string, line: Line) {
    && (IsCurrent(raw) <==> line.CurrentLine?)
    && (line.CurrentLine? ==> CurrentValue(raw) == FirstOf(line.words))
    && (IsPlain(raw) <==> line.PlainLine?)
    && (line.PlainLine? ==> FirstToken(TrimSpace(raw)) == FirstOf(line.words) != "")
  }

  /** Every printed line is taken for what it is. */
  lemma ReadLine(style: D.Style, line: Line)
    requires line.Valid()
    ensures Taken(PrintLine(style, line), line)
  {
    Leads();
    LineTrims(style, line);
    LeadsDiffer(Text(style.gap, line));
    match line
    case BlankLine =>
    case CurrentLine(words) => LedShape("current_state:", style.gap, words);
    case HistoryHeading =>
    case HistoryLine(words) => LedShape("- [", style.gap, words);
    case PlainLine(words) =>
      FirstColumn(words, style.gap);
      PlainBeginsNoOther(words, style.gap);
  }

  // ------------------------------------------------------------------------- documents

  lemma {:induction false} LastCurrentLine(doc: seq<Line>) returns (i: nat)
    requires CurrentOf(doc).Some?
    ensures i < |doc| && doc[i].CurrentLine? && CurrentOf(doc).value == FirstOf(doc[i].words)
    ensures forall j :: i < j < |doc| ==> !doc[j].CurrentLine?
    decreases |doc|
  {
    i := |doc| - 1;
    if !doc[i].CurrentLine? {
      i := LastCurrentLine(doc[..i]);
    }
  }

  lemma {:induction false} NoCurrentLine(doc: seq<Line>)
    requires CurrentOf(doc).None?
    ensures forall i :: 0 <= i < |doc| ==> !doc[i].CurrentLine?
    decreases |doc|
  {
    if doc != [] {
      NoCurrentLine(doc[..|doc| - 1]);
    }
  }

  /** The first plain line, if there is one; all of them begin with a word. */
  lemma {:induction false} FirstPlainLine(doc: seq<Line>) returns (i: nat)
    requires forall k :: 0 <= k < |doc| && doc[k].PlainLine? ==> FirstOf(doc[k].words) != ""
    ensures PlainOf(doc) == "" ==> forall j :: 0 <= j < |doc| ==> !doc[j].PlainLine?
    ensures PlainOf(doc) != "" ==> i < |doc| && doc[i].PlainLine? && PlainOf(doc) == FirstOf(doc[i].words)
    ensures PlainOf(doc) != "" ==> forall j :: 0 <= j < i ==> !doc[j].PlainLine?
    decreases |doc|
  {
    i := 0;
    if doc != [] {
      var n := |doc| - 1;
      i := FirstPlainLine(doc[..n]);
      if PlainOf(doc[..n]) == "" {
        i := n;
      }
    }
  }

  lemma CurrentIsNamed(lines: seq<string>, doc: seq<Line>)
    requires |lines| == |doc| && forall i :: 0 <= i < |doc| ==> Taken(lines[i], doc[i])
    ensures CurrentOf(doc).Some? ==> HasCurrent(lines) && CurrentIs(lines, CurrentOf(doc).value)
    ensures CurrentOf(doc).None? ==> !HasCurrent(lines)
  {
    if CurrentOf(doc).Some? {
      var i := LastCurrentLine(doc);
      assert Taken(lines[i], doc[i]);
      assert LastCurrentIs(lines, i);
    } else {
      NoCurrentLine(doc);
    }
  }

  lemma FirstPlainNames(lines: seq<string>, i: nat)
    requires FirstPlainIs(lines, i)
    ensures PlainIs(lines, FirstToken(TrimSpace(lines[i])))
  {
  }

  lemma NoPlainNames(lines: seq<string>)
    requires forall i :: 0 <= i < |lines| ==> !IsPlain(lines[i])
    ensures PlainIs(lines, "")
  {
    assert forall i: nat :: !FirstPlainIs(lines, i);
  }

  lemma PlainIsNamed(lines: seq<string>, doc: seq<Line>)
    requires |lines| == |doc| && forall i :: 0 <= i < |doc| ==> Taken(lines[i], doc[i])
    ensures PlainIs(lines, PlainOf(doc))
  {
    forall i | 0 <= i < |doc|
      ensures IsPlain(lines[i]) <==> doc[i].PlainLine?
      ensures doc[i].PlainLine? ==> FirstOf(doc[i].words) != ""
    {
      assert Taken(lines[i], doc[i]);
    }
    var i := FirstPlainLine(doc);
    if PlainOf(doc) == "" {
      NoPlainNames(lines);
    } else {
      assert Taken(lines[i], doc[i]);
      FirstPlainNames(lines, i);
    }
  }

  /**
    The round trip: the text of an import state file is read as one series of value 1 that
    tells the state which its last current line names, or without such a line its first
    plain line; where that names nothing, there is no series.
   */
  lemma RoundTrip(layout: D.Layout, doc: seq<Line>, ctx: Context)
    requires ValidDocument(doc)
    ensures ParseState(Print(layout, doc), ctx)
         == if StateOf(doc) == "" then []
            else [Observation("client", ctx.source, "target_state", Gauge,
                              map["component" := ctx.component, "target" := ctx.target, "type" := ctx.typ, "state" := StateOf(doc)], 1.0)]
  {
    TextNamesState(layout, doc);
    StateIsUnique(Split(Print(layout, doc), '\n'), StateOf(doc), NamedState(Split(Print(layout, doc), '\n')));
  }

  lemma TextNamesState(layout: D.Layout, doc: seq<Line>)
    requires ValidDocument(doc)
    ensures StateIs(Split(Print(layout, doc), '\n'), StateOf(doc))
  {
    if doc == [] {
      assert Split("", '\n') == [""];
      EmptyNamesNothing();
    } else {
      forall i | 0 <= i < |doc| ensures '\n' !in PrintLines(layout, doc)[i] { LineTrims(layout(i), doc[i]); }
      SplitJoin(PrintLines(layout, doc), '\n');
      forall i | 0 <= i < |doc| ensures Taken(PrintLines(layout, doc)[i], doc[i]) { ReadLine(layout(i), doc[i]); }
      CurrentIsNamed(PrintLines(layout, doc), doc);
      PlainIsNamed(PrintLines(layout, doc), doc);
    }
  }

  lemma EmptyNamesNothing()
    ensures StateIs([""], "")
  {
    TrimNothing("");
    assert !IsCurrent("") && !IsPlain("");
    assert forall i: nat :: !LastCurrentIs([""], i);
    assert forall i: nat :: !FirstPlainIs([""], i);
  }
}
