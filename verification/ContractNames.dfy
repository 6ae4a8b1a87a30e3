/** What holds of every entry of the contract: its public name, its label keys and its letters. */
module ContractNames {
  import opened Wrappers
  import opened GoStrings
  import opened Observations
  import opened Contract

  /** The whole-node count that a count per interface shares its public name with. */
  function GlobalCount(metricID: string): Option<string> {
    match metricID
    case "send_count_by_nid_total" => Some("send_count_total")
    case "receive_count_by_nid_total" => Some("receive_count_total")
    case "drop_count_by_nid_total" => Some("drop_count_total")
    case _ => None
  }

  /** The public name of an entry is its ID, but for the counts per interface. */
  predicate NamedById(metricID: string, def: MetricDef) {
    || def.name == "lustre_" + metricID
    || (GlobalCount(metricID).Some? && def.name == "lustre_" + GlobalCount(metricID).value && def.labelKeys == TARGET_NID)
  }

  const KEY_LISTS: seq<seq<string>> := [
    ["operation"],
    ["component", "target"],
    ["component", "target", "nid"],
    ["component", "target", "type"],
    ["component", "target", "operation"],
    ["component", "target", "type", "operation"],
    ["component", "target", "type", "state"],
    ["component", "target", "operation", "size"],
    ["component", "target", "operation", "size", "type"]]

  const LETTERS := "abcdefghijklmnopqrstuvwxyz_"

  function Chars(s: string): set<char> {
    set c | c in s
  }

  predicate IsIdentifier(s: string) {
    Chars(s) <= Chars(LETTERS)
  }

  // The table is searched by the length of the ID, a few lengths at a time.

  lemma NamesUpTo16(metricID: string)
    requires |metricID| <= 16
    ensures Lookup(metricID).Some? ==> NamedById(metricID, Lookup(metricID).value)
  {
  }

  lemma NamesUpTo19(metricID: string)
    requires 17 <= |metricID| <= 19
    ensures Lookup(metricID).Some? ==> NamedById(metricID, Lookup(metricID).value)
  {
  }

  lemma NamesUpTo23(metricID: string)
    requires 20 <= |metricID| <= 23
    ensures Lookup(metricID).Some? ==> NamedById(metricID, Lookup(metricID).value)
  {
  }

  lemma NamesFrom24(metricID: string)
    requires |metricID| > 23
    ensures Lookup(metricID).Some? ==> NamedById(metricID, Lookup(metricID).value)
  {
  }

  /** Every entry is named by its ID. */
  lemma EntriesAreNamed(metricID: string)
    ensures Lookup(metricID).Some? ==> NamedById(metricID, Lookup(metricID).value)
  {
    if |metricID| <= 16 {
      NamesUpTo16(metricID);
    } else if |metricID| <= 19 {
      NamesUpTo19(metricID);
    } else if |metricID| <= 23 {
      NamesUpTo23(metricID);
    } else {
      NamesFrom24(metricID);
    }
  }

  /** Counters that are not named as totals. */
  const OTHER_COUNTERS := ["stats_seconds_sum", "ldlm_cbd_stats", "rpcs_in_flight", "rpcs_offset"]

  /** Totals are counters and everything else is a gauge, with four exceptions. */
  predicate TypedByName(metricID: string, def: MetricDef) {
    def.metricType == if HasSuffix(metricID, "_total") || metricID in OTHER_COUNTERS then Counter else Gauge
  }

  lemma TypesUpTo13(metricID: string)
    requires |metricID| <= 13
    ensures Lookup(metricID).Some? ==> TypedByName(metricID, Lookup(metricID).value)
  {
  }

  lemma TypesUpTo15(metricID: string)
    requires 14 <= |metricID| <= 15
    ensures Lookup(metricID).Some? ==> TypedByName(metricID, Lookup(metricID).value)
  {
  }

  lemma TypesUpTo16(metricID: string)
    requires |metricID| == 16
    ensures Lookup(metricID).Some? ==> TypedByName(metricID, Lookup(metricID).value)
  {
  }

  lemma TypesUpTo18(metricID: string)
    requires 17 <= |metricID| <= 18
    ensures Lookup(metricID).Some? ==> TypedByName(metricID, Lookup(metricID).value)
  {
  }

  lemma TypesUpTo19(metricID: string)
    requires |metricID| == 19
    ensures Lookup(metricID).Some? ==> TypedByName(metricID, Lookup(metricID).value)
  {
  }

  lemma TypesUpTo22(metricID: string)
    requires 20 <= |metricID| <= 22
    ensures Lookup(metricID).Some? ==> TypedByName(metricID, Lookup(metricID).value)
  {
  }

  lemma TypesUpTo24(metricID: string)
    requires 23 <= |metricID| <= 24
    ensures Lookup(metricID).Some? ==> TypedByName(metricID, Lookup(metricID).value)
  {
  }

  lemma TypesUpTo27(metricID: string)
    requires 25 <= |metricID| <= 27
    ensures Lookup(metricID).Some? ==> TypedByName(metricID, Lookup(metricID).value)
  {
  }

  lemma TypesUpTo29(metricID: string)
    requires 28 <= |metricID| <= 29
    ensures Lookup(metricID).Some? ==> TypedByName(metricID, Lookup(metricID).value)
  {
  }

  lemma TypesFrom30(metricID: string)
    requires |metricID| > 29
    ensures Lookup(metricID).Some? ==> TypedByName(metricID, Lookup(metricID).value)
  {
  }

  /** The type of every entry follows from its ID. */
  lemma EntriesAreTyped(metricID: string)
    ensures Lookup(metricID).Some? ==> TypedByName(metricID, Lookup(metricID).value)
  {
    if |metricID| <= 13 {
      TypesUpTo13(metricID);
    } else if |metricID| <= 15 {
      TypesUpTo15(metricID);
    } else if |metricID| <= 16 {
      TypesUpTo16(metricID);
    } else if |metricID| <= 18 {
      TypesUpTo18(metricID);
    } else if |metricID| <= 19 {
      TypesUpTo19(metricID);
    } else if |metricID| <= 22 {
      TypesUpTo22(metricID);
    } else if |metricID| <= 24 {
      TypesUpTo24(metricID);
    } else if |metricID| <= 27 {
      TypesUpTo27(metricID);
    } else if |metricID| <= 29 {
      TypesUpTo29(metricID);
    } else {
      TypesFrom30(metricID);
    }
  }

  lemma KeysUpTo16(metricID: string)
    requires |metricID| <= 16
    ensures Lookup(metricID).Some? ==> Lookup(metricID).value.labelKeys in KEY_LISTS
  {
  }

  lemma KeysUpTo21(metricID: string)
    requires 17 <= |metricID| <= 21
    ensures Lookup(metricID).Some? ==> Lookup(metricID).value.labelKeys in KEY_LISTS
  {
  }

  lemma KeysFrom22(metricID: string)
    requires |metricID| > 21
    ensures Lookup(metricID).Some? ==> Lookup(metricID).value.labelKeys in KEY_LISTS
  {
  }

  /** Every entry has one of nine lists of label keys. */
  lemma EntriesHaveKnownKeys(metricID: string)
    ensures Lookup(metricID).Some? ==> Lookup(metricID).value.labelKeys in KEY_LISTS
  {
    if |metricID| <= 16 {
      KeysUpTo16(metricID);
    } else if |metricID| <= 21 {
      KeysUpTo21(metricID);
    } else {
      KeysFrom22(metricID);
    }
  }

  lemma LettersUpTo12(metricID: string)
    requires |metricID| <= 12
    ensures Lookup(metricID).Some? ==> IsIdentifier(metricID)
  {
  }

  lemma LettersUpTo16(metricID: string)
    requires 13 <= |metricID| <= 16
    ensures Lookup(metricID).Some? ==> IsIdentifier(metricID)
  {
  }

  lemma LettersUpTo18(metricID: string)
    requires 17 <= |metricID| <= 18
    ensures Lookup(metricID).Some? ==> IsIdentifier(metricID)
  {
  }

  lemma LettersUpTo19(metricID: string)
    requires |metricID| == 19
    ensures Lookup(metricID).Some? ==> IsIdentifier(metricID)
  {
  }

  lemma LettersUpTo22(metricID: string)
    requires 20 <= |metricID| <= 22
    ensures Lookup(metricID).Some? ==> IsIdentifier(metricID)
  {
  }

  lemma LettersUpTo23(metricID: string)
    requires |metricID| == 23
    ensures Lookup(metricID).Some? ==> IsIdentifier(metricID)
  {
  }

  lemma LettersUpTo26(metricID: string)
    requires 24 <= |metricID| <= 26
    ensures Lookup(metricID).Some? ==> IsIdentifier(metricID)
  {
  }

  lemma LettersUpTo28(metricID: string)
    requires 27 <= |metricID| <= 28
    ensures Lookup(metricID).Some? ==> IsIdentifier(metricID)
  {
  }

  lemma LettersUpTo29(metricID: string)
    requires |metricID| == 29
    ensures Lookup(metricID).Some? ==> IsIdentifier(metricID)
  {
  }

  lemma LettersUpTo30(metricID: string)
    requires |metricID| == 30
    ensures Lookup(metricID).Some? ==> IsIdentifier(metricID)
  {
  }

  lemma LettersUpTo31(metricID: string)
    requires |metricID| == 31
    ensures Lookup(metricID).Some? ==> IsIdentifier(metricID)
  {
  }

  lemma LettersFrom32(metricID: string)
    requires |metricID| > 31
    ensures Lookup(metricID).Some? ==> IsIdentifier(metricID)
  {
  }

  /** Every ID consists of small letters and underscores. */
  lemma EntriesAreIdentifiers(metricID: string)
    ensures Lookup(metricID).Some? ==> IsIdentifier(metricID)
  {
    if |metricID| <= 12 {
      LettersUpTo12(metricID);
    } else if |metricID| <= 16 {
      LettersUpTo16(metricID);
    } else if |metricID| <= 18 {
      LettersUpTo18(metricID);
    } else if |metricID| <= 19 {
      LettersUpTo19(metricID);
    } else if |metricID| <= 22 {
      LettersUpTo22(metricID);
    } else if |metricID| <= 23 {
      LettersUpTo23(metricID);
    } else if |metricID| <= 26 {
      LettersUpTo26(metricID);
    } else if |metricID| <= 28 {
      LettersUpTo28(metricID);
    } else if |metricID| <= 29 {
      LettersUpTo29(metricID);
    } else if |metricID| <= 30 {
      LettersUpTo30(metricID);
    } else if |metricID| <= 31 {
      LettersUpTo31(metricID);
    } else {
      LettersFrom32(metricID);
    }
  }

  /** Each of the three whole-node counts is an entry, with the labels of the node. */
  lemma GlobalCountsAreEntries(metricID: string)
    ensures var global := GlobalCount(metricID);
            global.Some? ==> Lookup(global.value).Some? && Lookup(global.value).value.labelKeys == TARGET
  {
  }

  lemma GlobalCountIsInjective(a: string, b: string)
    requires GlobalCount(a).Some? && GlobalCount(a) == GlobalCount(b)
    ensures a == b
  {
  }

  /** Two entries share a public name only if one counts per interface what the other counts for the node. */
  lemma SharedNames(a: string, b: string)
    requires Lookup(a).Some? && Lookup(b).Some? && Lookup(a).value.name == Lookup(b).value.name && a != b
    ensures || (GlobalCount(a) == Some(b) && Lookup(a).value.labelKeys == TARGET_NID && Lookup(b).value.labelKeys == TARGET)
            || (GlobalCount(b) == Some(a) && Lookup(b).value.labelKeys == TARGET_NID && Lookup(a).value.labelKeys == TARGET)
  {
    var x, y := Lookup(a).value, Lookup(b).value;
    EntriesAreNamed(a);
    EntriesAreNamed(b);
    GlobalCountsAreEntries(a);
    GlobalCountsAreEntries(b);
    forall s, u: string | NAMESPACE + s == NAMESPACE + u
      ensures s == u
    {
      assert (NAMESPACE + s)[|NAMESPACE|..] == s && (NAMESPACE + u)[|NAMESPACE|..] == u;
    }
    if GlobalCount(a).Some? && GlobalCount(a) == GlobalCount(b) {
      GlobalCountIsInjective(a, b);
    }
  }
}
