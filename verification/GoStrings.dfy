/** The part of Go's `strings` package that the parsers use, over ASCII whitespace. */
module GoStrings {
  import opened Wrappers

  /** `strconv.ParseFloat` with its error dropped: any total reading of numbers. */
  type NumberParser = string -> Option<real>

  const WHITESPACE: set<char> := {' ', '\t', '\n', '\U{0B}', '\U{0C}', '\r'}

  predicate IsSpace(c: char) {
    c in WHITESPACE
  }

  // ---------------------------------------------------------------- splitting

  function Split(s: string, sep: char): (parts: seq<string>)
    ensures |parts| > 0
    ensures forall i :: 0 <= i < |parts| ==> sep !in parts[i]
  {
    if s == "" then [""]
    else
      var rest := Split(s[1..], sep);
      if s[0] == sep then [""] + rest else [[s[0]] + rest[0]] + rest[1..]
  }

  function Join(parts: seq<string>, sep: char): string {
    if |parts| == 0 then ""
    else if |parts| == 1 then parts[0]
    else parts[0] + [sep] + Join(parts[1..], sep)
  }

  /** Splitting distributes over the separator. */
  lemma {:induction false} SplitConcat(a: string, b: string, sep: char)
    ensures Split(a + [sep] + b, sep) == Split(a, sep) + Split(b, sep)
  {
    var whole := a + [sep] + b;
    if a == "" {
      assert whole[1..] == b;
    } else {
      assert whole[1..] == a[1..] + [sep] + b;
      SplitConcat(a[1..], b, sep);
    }
  }

  lemma {:induction false} SplitWithoutSeparator(s: string, sep: char)
    requires sep !in s
    ensures Split(s, sep) == [s]
  {
    if s != "" {
      SplitWithoutSeparator(s[1..], sep);
      assert s == [s[0]] + s[1..];
    }
  }

  /** Splitting undoes joining when no part holds the separator. */
  lemma {:induction false} SplitJoin(parts: seq<string>, sep: char)
    requires |parts| > 0
    requires forall i :: 0 <= i < |parts| ==> sep !in parts[i]
    ensures Split(Join(parts, sep), sep) == parts
  {
    if |parts| == 1 {
      SplitWithoutSeparator(parts[0], sep);
    } else {
      SplitConcat(parts[0], Join(parts[1..], sep), sep);
      SplitWithoutSeparator(parts[0], sep);
      SplitJoin(parts[1..], sep);
    }
  }

  // ----------------------------------------------------------------- trimming

  function TrimLeft(s: string, cutset: set<char>): string {
    if s != "" && s[0] in cutset then TrimLeft(s[1..], cutset) else s
  }

  function TrimRight(s: string, cutset: set<char>): string {
    if s != "" && s[|s| - 1] in cutset then TrimRight(s[..|s| - 1], cutset) else s
  }

  function Trim(s: string, cutset: set<char>): string {
    TrimRight(TrimLeft(s, cutset), cutset)
  }

  function TrimSpace(s: string): string {
    Trim(s, WHITESPACE)
  }

  /** A string that `TrimSpace` leaves alone. */
  predicate Trimmed(s: string) {
    s != "" && !IsSpace(s[0]) && !IsSpace(s[|s| - 1])
  }

  /** White space within a line. */
  predicate IsBlank(s: string) {
    forall i :: 0 <= i < |s| ==> IsSpace(s[i]) && s[i] != '\n'
  }

  type Blank = s: string | IsBlank(s) witness ""

  /** What separates two columns. */
  type Gap = s: string | s != "" && IsBlank(s) witness " "

  predicate AllSpace(s: string) {
    forall i :: 0 <= i < |s| ==> IsSpace(s[i])
  }

  lemma {:induction false} TrimLeftSpaces(lead: string, s: string)
    requires AllSpace(lead)
    ensures TrimLeft(lead + s, WHITESPACE) == TrimLeft(s, WHITESPACE)
  {
    if lead == "" {
      assert lead + s == s;
    } else {
      assert (lead + s)[1..] == lead[1..] + s;
      TrimLeftSpaces(lead[1..], s);
    }
  }

  lemma {:induction false} TrimRightSpaces(s: string, tail: string)
    requires AllSpace(tail)
    ensures TrimRight(s + tail, WHITESPACE) == TrimRight(s, WHITESPACE)
    decreases |tail|
  {
    if tail == "" {
      assert s + tail == s;
    } else {
      var n := |tail| - 1;
      assert (s + tail)[..|s + tail| - 1] == s + tail[..n];
      TrimRightSpaces(s, tail[..n]);
    }
  }

  lemma TrimPadded(lead: string, s: string, tail: string)
    requires AllSpace(lead) && AllSpace(tail) && Trimmed(s)
    ensures TrimSpace(lead + s + tail) == s
  {
    assert lead + s + tail == lead + (s + tail);
    TrimLeftSpaces(lead, s + tail);
    TrimRightSpaces(s, tail);
  }

  lemma TrimNothing(s: string)
    requires AllSpace(s)
    ensures TrimSpace(s) == ""
  {
    TrimLeftSpaces(s, "");
    assert s + "" == s;
  }

  // ------------------------------------------------------------------- fields

  /** A non-empty run of non-space characters. */
  predicate IsWord(s: string) {
    s != "" && forall i :: 0 <= i < |s| ==> !IsSpace(s[i])
  }

  function WordLength(s: string): (n: nat)
    ensures n <= |s|
    ensures forall i :: 0 <= i < n ==> !IsSpace(s[i])
    ensures n < |s| ==> IsSpace(s[n])
  {
    if s == "" || IsSpace(s[0]) then 0 else 1 + WordLength(s[1..])
  }

  function Fields(s: string): (fields: seq<string>)
    ensures forall i :: 0 <= i < |fields| ==> IsWord(fields[i])
    decreases |s|
  {
    if s == "" then []
    else if IsSpace(s[0]) then Fields(s[1..])
    else
      var n := WordLength(s);
      [s[..n]] + Fields(s[n..])
  }

  function FirstToken(s: string): string {
    var fields := Fields(s);
    if |fields| == 0 then "" else fields[0]
  }

  lemma {:induction false} FieldsSkipSpaces(lead: string, s: string)
    requires AllSpace(lead)
    ensures Fields(lead + s) == Fields(s)
  {
    if lead == "" {
      assert lead + s == s;
    } else {
      assert (lead + s)[1..] == lead[1..] + s;
      FieldsSkipSpaces(lead[1..], s);
    }
  }

  /** The word at the front of a line, up to the space that ends it. */
  lemma {:induction false} FieldsWord(w: string, rest: string)
    requires IsWord(w)
    requires rest == "" || IsSpace(rest[0])
    ensures Fields(w + rest) == [w] + Fields(rest)
  {
    var t := w + rest;
    var n := WordLength(t);
    assert forall i :: 0 <= i < |w| ==> t[i] == w[i];
    assert rest != "" ==> t[|w|] == rest[0];
    assert n == |w|;
    assert t[..n] == w && t[n..] == rest;
  }

  /** Words in columns; `gap(k)` stands before column `k + 1`, counted from the first word as `k`. */
  function Columns(words: seq<string>, gap: nat -> Gap, k: nat): string {
    if |words| == 0 then ""
    else if |words| == 1 then words[0]
    else words[0] + gap(k) + Columns(words[1..], gap, k + 1)
  }

  predicate AllWords(words: seq<string>) {
    forall i :: 0 <= i < |words| ==> IsWord(words[i])
  }

  /** `Fields` reads back the columns of a line, whatever their spacing. */
  lemma {:induction false} FieldsColumns(words: seq<string>, gap: nat -> Gap, k: nat)
    requires AllWords(words)
    ensures Fields(Columns(words, gap, k)) == words
  {
    if |words| == 1 {
      FieldsWord(words[0], "");
      assert words[0] + "" == words[0];
    } else if |words| > 1 {
      var rest := gap(k) + Columns(words[1..], gap, k + 1);
      assert Columns(words, gap, k) == words[0] + rest;
      FieldsWord(words[0], rest);
      FieldsSkipSpaces(gap(k), Columns(words[1..], gap, k + 1));
      FieldsColumns(words[1..], gap, k + 1);
    }
  }

  lemma {:induction false} ColumnsTrimmed(words: seq<string>, gap: nat -> Gap, k: nat)
    requires |words| > 0 && AllWords(words)
    ensures Trimmed(Columns(words, gap, k)) && '\n' !in Columns(words, gap, k)
    ensures HasPrefix(Columns(words, gap, k), words[0])
    ensures HasSuffix(Columns(words, gap, k), words[|words| - 1])
  {
    assert IsSpace('\n');
    if |words| > 1 {
      ColumnsTrimmed(words[1..], gap, k + 1);
      var rest := Columns(words[1..], gap, k + 1);
      assert Columns(words, gap, k) == words[0] + gap(k) + rest;
      assert (words[0] + gap(k) + rest)[..|words[0]|] == words[0];
      var last := words[|words| - 1];
      assert (words[0] + gap(k) + rest)[|words[0]| + |gap(k)| + |rest| - |last|..] == rest[|rest| - |last|..];
    }
  }

  // ---------------------------------------------------- prefixes and searching

  predicate HasPrefix(s: string, prefix: string) {
    |prefix| <= |s| && s[..|prefix|] == prefix
  }

  predicate HasSuffix(s: string, suffix: string) {
    |suffix| <= |s| && s[|s| - |suffix|..] == suffix
  }

  function TrimSuffix(s: string, suffix: string): string {
    if HasSuffix(s, suffix) then s[..|s| - |suffix|] else s
  }

  predicate Contains(s: string, sub: string) {
    exists i :: 0 <= i <= |s| - |sub| && s[i..][..|sub|] == sub
  }

  /** `strings.IndexByte`: the first position of `c`, if any. */
  function IndexOf(s: string, c: char): (r: Option<nat>)
    ensures r.None? <==> c !in s
    ensures r.Some? ==> r.value < |s| && s[r.value] == c && c !in s[..r.value]
  {
    if s == "" then None
    else if s[0] == c then Some(0)
    else
      match IndexOf(s[1..], c)
      case None => None
      case Some(i) => Some(i + 1)
  }

  lemma IndexOfFirst(s: string, t: string, c: char)
    requires c !in s
    ensures IndexOf(s + [c] + t, c) == Some(|s|)
  {
    var whole := s + [c] + t;
    assert whole[|s|] == c;
    assert forall k :: 0 <= k < |s| ==> whole[k] == s[k];
    assert forall i :: |s| < i <= |whole| ==> whole[..i][|s|] == c;
  }

  /** A string without the first character of `sub` does not contain `sub`. */
  lemma ContainsNeedsFirst(s: string, sub: string)
    requires sub != "" && sub[0] !in s
    ensures !Contains(s, sub)
  {
    forall i | 0 <= i <= |s| - |sub|
      ensures s[i..][..|sub|] != sub
    {
      assert s[i..][..|sub|][0] == s[i];
    }
  }

  function LowerChar(c: char): char {
    if 'A' <= c <= 'Z' then c - 'A' + 'a' else c
  }

  function ToLower(s: string): (r: string)
    ensures |r| == |s| && forall i :: 0 <= i < |s| ==> r[i] == LowerChar(s[i])
  {
    seq(|s|, i requires 0 <= i < |s| => LowerChar(s[i]))
  }

  /** The letter itself or its capital. */
  predicate SameLetter(c: char, small: char) {
    c == small || ('a' <= small <= 'z' && 'A' <= c <= 'Z' && c - 'A' == small - 'a')
  }

  /** The word in any mixture of small letters and capitals. */
  predicate Spells(s: string, word: string) {
    |s| == |word| && forall i :: 0 <= i < |s| ==> SameLetter(s[i], word[i])
  }

  predicate NoCapitals(word: string) {
    forall i :: 0 <= i < |word| ==> !('A' <= word[i] <= 'Z')
  }

  lemma LowerSpells(s: string, word: string)
    requires NoCapitals(word)
    ensures ToLower(s) == word <==> Spells(s, word)
  {
    if Spells(s, word) {
      forall i | 0 <= i < |s| ensures ToLower(s)[i] == word[i] {
        assert SameLetter(s[i], word[i]);
      }
    }
  }

  // ------------------------------------------------------------------ ordering

  /** Go's `<` on strings. */
  predicate Less(a: string, b: string) {
    if b == "" then false
    else if a == "" then true
    else if a[0] != b[0] then a[0] < b[0]
    else Less(a[1..], b[1..])
  }

  lemma {:induction false} LessTransitive(a: string, b: string, c: string)
    requires Less(a, b) && Less(b, c)
    ensures Less(a, c)
  {
    if a != "" && a[0] == b[0] == c[0] {
      LessTransitive(a[1..], b[1..], c[1..]);
    }
  }

  lemma {:induction false} LessTrichotomy(a: string, b: string)
    ensures a == b || Less(a, b) || Less(b, a)
    ensures !(Less(a, b) && Less(b, a))
    ensures !Less(a, a)
  {
    if a != "" {
      LessTrichotomy(a[1..], a[1..]);
      if b != "" && a[0] == b[0] {
        LessTrichotomy(a[1..], b[1..]);
        assert a == [a[0]] + a[1..] && b == [b[0]] + b[1..];
      }
    }
  }

  /** The strings agree up to `n`, where the first one ends or has the smaller character. */
  predicate LessFrom(a: string, b: string, n: nat) {
    n <= |a| && n < |b| && a[..n] == b[..n] && (n == |a| || a[n] < b[n])
  }

  lemma FirstDiffers(a: string, b: string, n: nat)
    requires LessFrom(a, b, n)
    ensures n > 0 ==> a[0] == b[0]
  {
    if n > 0 {
      assert a[..n][0] == b[..n][0];
    }
  }

  /** The order of Go's strings: by the first difference, or else by length. */
  lemma {:induction false} LessAtFirstDifference(a: string, b: string)
    ensures Less(a, b) <==> exists n: nat :: LessFrom(a, b, n)
  {
    if b == "" || a == "" || a[0] != b[0] {
      assert a[..0] == b[..0];
      if b != "" && Less(a, b) {
        assert LessFrom(a, b, 0);
      }
      if n: nat :| LessFrom(a, b, n) {
        FirstDiffers(a, b, n);
      }
    } else {
      LessAtFirstDifference(a[1..], b[1..]);
      if n: nat :| LessFrom(a[1..], b[1..], n) {
        assert a[..n + 1] == [a[0]] + a[1..][..n] && b[..n + 1] == [b[0]] + b[1..][..n];
        assert LessFrom(a, b, n + 1);
      }
      if n: nat :| LessFrom(a, b, n) {
        assert n > 0;
        assert a[1..][..n - 1] == a[..n][1..] && b[1..][..n - 1] == b[..n][1..];
        assert LessFrom(a[1..], b[1..], n - 1);
      }
    }
  }

  // ------------------------------------------------------------------ decimals

  predicate IsDigit(c: char) {
    '0' <= c <= '9'
  }

  function Digit(d: nat): (c: char)
    requires d < 10
    ensures IsDigit(c) && (c - '0') as nat == d
  {
    '0' + (d as char)
  }

  function Decimal(n: nat): (s: string)
    ensures s != "" && forall i :: 0 <= i < |s| ==> IsDigit(s[i])
  {
    if n < 10 then [Digit(n)] else Decimal(n / 10) + [Digit(n % 10)]
  }

  function DigitsValue(s: string): nat
    requires forall i :: 0 <= i < |s| ==> IsDigit(s[i])
  {
    if s == "" then 0
    else
      var last := s[|s| - 1];
      assert IsDigit(last);
      10 * DigitsValue(s[..|s| - 1]) + (last - '0') as nat
  }

  /** A number parser that reads plain decimals and nothing else. */
  function ParseDecimal(s: string): Option<real> {
    if s != "" && forall i :: 0 <= i < |s| ==> IsDigit(s[i]) then Some(DigitsValue(s) as real) else None
  }

  /** What every sensible number parser does with a printed natural number. */
  ghost predicate ReadsDecimals(pf: NumberParser) {
    forall n: nat :: pf(Decimal(n)) == Some(n as real)
  }

  lemma {:induction false} DecimalRoundTrip(n: nat)
    ensures DigitsValue(Decimal(n)) == n
  {
    if n >= 10 {
      DecimalRoundTrip(n / 10);
      assert Decimal(n)[..|Decimal(n)| - 1] == Decimal(n / 10);
    } else {
      assert Decimal(n)[..0] == "";
    }
  }

  lemma ParseDecimalReadsDecimals()
    ensures ReadsDecimals(ParseDecimal)
  {
    forall n: nat ensures ParseDecimal(Decimal(n)) == Some(n as real) {
      DecimalRoundTrip(n);
    }
  }

  lemma {:induction false} DecimalInjective(m: nat, n: nat)
    requires Decimal(m) == Decimal(n)
    ensures m == n
  {
    DecimalRoundTrip(m);
    DecimalRoundTrip(n);
  }
}
