/** The key of the descriptor cache and what it determines. */
module DescKey {
  import opened Wrappers
  import opened GoStrings
  import opened Observations
  import opened Contract
  import opened ContractNames

  const SEP: char := '\U{FF}'

  /** A descriptor: what `prometheus.NewDesc` was given. */
  datatype Desc = Desc(name: string, help: string, labelKeys: seq<string>)

  function NewDesc(def: MetricDef): Desc {
    Desc(def.name, def.help, def.labelKeys)
  }

  function CacheKey(name: string, labelKeys: seq<string>): string {
    name + [SEP] + Join(labelKeys, SEP)
  }

  function KeyOf(def: MetricDef): string {
    CacheKey(def.name, def.labelKeys)
  }

  function DescKeyOf(d: Desc): string {
    CacheKey(d.name, d.labelKeys)
  }

  /** No separator in the name or in a label key. */
  predicate Clean(name: string, labelKeys: seq<string>) {
    SEP !in name && forall i :: 0 <= i < |labelKeys| ==> SEP !in labelKeys[i]
  }

  /** The one pair of label lists that joining confuses: none, and a single empty key. */
  predicate Confusable(a: seq<string>, b: seq<string>) {
    (a == [] && b == [""]) || (a == [""] && b == [])
  }

  lemma JoinDetermines(a: seq<string>, b: seq<string>)
    requires forall i :: 0 <= i < |a| ==> SEP !in a[i]
    requires forall i :: 0 <= i < |b| ==> SEP !in b[i]
    ensures Join(a, SEP) == Join(b, SEP) <==> a == b || Confusable(a, b)
  {
    if a != [] {
      SplitJoin(a, SEP);
    }
    if b != [] {
      SplitJoin(b, SEP);
    }
    assert Split("", SEP) == [""];
  }

  /**
    For separator-free names and label keys, equal cache keys mean equal names and equal
    label lists, with one exception: no label and one empty label key collide.
   */
  lemma KeyDetermines(name: string, labels: seq<string>, name': string, labels': seq<string>)
    requires Clean(name, labels) && Clean(name', labels')
    ensures CacheKey(name, labels) == CacheKey(name', labels')
       <==> name == name' && (labels == labels' || Confusable(labels, labels'))
  {
    var k, k' := CacheKey(name, labels), CacheKey(name', labels');
    IndexOfFirst(name, Join(labels, SEP), SEP);
    IndexOfFirst(name', Join(labels', SEP), SEP);
    assert k[..|name|] == name && k'[..|name'|] == name';
    assert k[|name| + 1..] == Join(labels, SEP) && k'[|name'| + 1..] == Join(labels', SEP);
    JoinDetermines(labels, labels');
  }

  /** A definition that the cache cannot confuse with another: clean, and no empty label key. */
  predicate Safe(name: string, labelKeys: seq<string>) {
    Clean(name, labelKeys) && forall i :: 0 <= i < |labelKeys| ==> labelKeys[i] != ""
  }

  lemma SafeKeysDetermine(name: string, labels: seq<string>, name': string, labels': seq<string>)
    requires Safe(name, labels) && Safe(name', labels')
    ensures CacheKey(name, labels) == CacheKey(name', labels') <==> name == name' && labels == labels'
  {
    KeyDetermines(name, labels, name', labels');
  }

  /** Neither condition can be dropped: an empty key and a separator in a key both collide. */
  lemma UnsafeKeysCollide(name: string, a: string, b: string)
    ensures CacheKey(name, []) == CacheKey(name, [""])
    ensures CacheKey(name, [a, b]) == CacheKey(name, [a + [SEP] + b])
  {
    assert [a, b][1..] == [b];
    assert Join([a, b], SEP) == a + [SEP] + Join([b], SEP);
  }

  // ------------------------------------------------------------------ the contract

  lemma KnownKeysAreSafe(labelKeys: seq<string>)
    requires labelKeys in KEY_LISTS
    ensures forall i :: 0 <= i < |labelKeys| ==> SEP !in labelKeys[i] && labelKeys[i] != ""
  {
    KeyWordsAreSafe();
  }

  lemma KeyWordsAreSafe()
    ensures SEP !in "component" && SEP !in "target" && SEP !in "nid" && SEP !in "type"
    ensures SEP !in "operation" && SEP !in "state" && SEP !in "size"
  {
  }

  lemma IdentifiersAreClean(s: string)
    requires IsIdentifier(s)
    ensures SEP !in NAMESPACE + s
  {
    assert SEP !in NAMESPACE;
    assert SEP !in Chars(LETTERS);
    assert SEP !in Chars(s);
  }

  /** No entry of the contract has a separator in its name or label keys, or an empty label key. */
  lemma ContractIsSafe(metricID: string)
    requires Lookup(metricID).Some?
    ensures Safe(Lookup(metricID).value.name, Lookup(metricID).value.labelKeys)
  {
    var def := Lookup(metricID).value;
    EntriesHaveKnownKeys(metricID);
    KnownKeysAreSafe(def.labelKeys);
    EntriesAreNamed(metricID);
    if def.name == NAMESPACE + metricID {
      EntriesAreIdentifiers(metricID);
      IdentifiersAreClean(metricID);
    } else {
      var global := GlobalCount(metricID).value;
      GlobalCountsAreEntries(metricID);
      EntriesAreIdentifiers(global);
      IdentifiersAreClean(global);
    }
  }

  /** Distinct entries of the contract have distinct cache keys, those with a shared name included. */
  lemma ContractKeysAreDistinct(a: string, b: string)
    requires Lookup(a).Some? && Lookup(b).Some?
    ensures KeyOf(Lookup(a).value) == KeyOf(Lookup(b).value) <==> a == b
  {
    var x, y := Lookup(a).value, Lookup(b).value;
    ContractIsSafe(a);
    ContractIsSafe(b);
    SafeKeysDetermine(x.name, x.labelKeys, y.name, y.labelKeys);
    if a != b && x.name == y.name {
      SharedNames(a, b);
      assert |TARGET| != |TARGET_NID|;
    }
  }
}
