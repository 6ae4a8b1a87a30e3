/** The cumulative scrape durations of a registry, updated in place once per scrape. */
module ScrapeTotals {
  import opened GoStrings

  datatype Key = Key(source: string, result: string)

  datatype Total = Total(count: nat, sum: real)

  /** The summary series emitted for one key. */
  datatype Summary = Summary(key: Key, total: Total)

  /** Reading a missing key of a Go map yields the zero value. */
  function TotalOf(totals: map<Key, Total>, key: Key): Total {
    if key in totals then totals[key] else Total(0, 0.0)
  }

  function DurationOf(durations: map<Key, real>, key: Key): real {
    if key in durations then durations[key] else 0.0
  }

  // --------------------------------------------------------------- ordering keys

  predicate KeyLess(a: Key, b: Key) {
    if a.source == b.source then Less(a.result, b.result) else Less(a.source, b.source)
  }

  /** The comparator is a strict total order, so the sorted order of the keys is unique. */
  lemma KeyLessIsTotalOrder(a: Key, b: Key, c: Key)
    ensures a == b || KeyLess(a, b) || KeyLess(b, a)
    ensures !(KeyLess(a, b) && KeyLess(b, a))
    ensures !KeyLess(a, a)
    ensures KeyLess(a, b) && KeyLess(b, c) ==> KeyLess(a, c)
  {
    LessTrichotomy(a.source, b.source);
    LessTrichotomy(a.result, b.result);
    LessTrichotomy(b.source, c.source);
    LessTrichotomy(a.source, a.source);
    LessTrichotomy(a.result, a.result);
    if KeyLess(a, b) && KeyLess(b, c) {
      if a.source == b.source == c.source {
        LessTransitive(a.result, b.result, c.result);
      } else if a.source != b.source && b.source != c.source {
        LessTransitive(a.source, b.source, c.source);
      }
    }
  }

  predicate Sorted(keys: seq<Key>) {
    forall i, j :: 0 <= i < j < |keys| ==> KeyLess(keys[i], keys[j])
  }

  function Insert(key: Key, keys: seq<Key>): (r: seq<Key>)
    requires Sorted(keys) && key !in keys
    ensures Sorted(r) && multiset(r) == multiset(keys) + multiset{key}
  {
    if keys == [] then [key]
    else
      assert keys == [keys[0]] + keys[1..];
      KeyLessIsTotalOrder(key, keys[0], keys[0]);
      if KeyLess(key, keys[0]) then
        InsertFirst(key, keys);
        [key] + keys
      else
        var rest := Insert(key, keys[1..]);
        InsertLater(key, keys, rest);
        [keys[0]] + rest
  }

  lemma InsertFirst(key: Key, keys: seq<Key>)
    requires keys != [] && Sorted(keys) && KeyLess(key, keys[0])
    ensures Sorted([key] + keys)
  {
    forall j | 0 <= j < |keys| ensures KeyLess(key, keys[j]) {
      KeyLessIsTotalOrder(key, keys[0], keys[j]);
    }
  }

  lemma InsertLater(key: Key, keys: seq<Key>, rest: seq<Key>)
    requires keys != [] && Sorted(keys) && Sorted(rest)
    requires multiset(rest) == multiset(keys[1..]) + multiset{key}
    requires KeyLess(keys[0], key)
    ensures Sorted([keys[0]] + rest)
  {
    forall j | 0 <= j < |rest| ensures KeyLess(keys[0], rest[j]) {
      assert rest[j] in multiset(rest);
      assert rest[j] == key || rest[j] in keys[1..];
    }
  }

  lemma SameMembers(a: seq<Key>, b: seq<Key>)
    requires multiset(a) == multiset(b)
    ensures forall k :: k in a <==> k in b
  {
    forall k ensures k in a <==> k in b {
      assert k in a <==> k in multiset(a);
      assert k in b <==> k in multiset(b);
    }
  }

  /** `sort.Slice` with the comparator above. */
  function SortKeys(keys: seq<Key>): (r: seq<Key>)
    requires Distinct(keys)
    ensures Sorted(r) && multiset(r) == multiset(keys)
  {
    if keys == [] then []
    else
      assert keys == [keys[0]] + keys[1..];
      var rest := SortKeys(keys[1..]);
      SameMembers(rest, keys[1..]);
      Insert(keys[0], rest)
  }

  predicate Distinct(keys: seq<Key>) {
    forall i, j :: 0 <= i < j < |keys| ==> keys[i] != keys[j]
  }

  lemma SortedIsDistinct(keys: seq<Key>)
    requires Sorted(keys)
    ensures Distinct(keys)
  {
    forall i, j | 0 <= i < j < |keys| ensures keys[i] != keys[j] {
      KeyLessIsTotalOrder(keys[i], keys[j], keys[j]);
    }
  }

  /** In key order the sources ascend, and of one source the failed collections come first. */
  lemma SortedBySource(keys: seq<Key>, i: nat, j: nat)
    requires Sorted(keys) && i < j < |keys|
    requires keys[i].result in {"success", "error"} && keys[j].result in {"success", "error"}
    ensures || (keys[i].source == keys[j].source && keys[i].result == "error" && keys[j].result == "success")
            || (keys[i].source != keys[j].source && Less(keys[i].source, keys[j].source))
  {
    assert KeyLess(keys[i], keys[j]);
    LessTrichotomy(keys[i].result, keys[j].result);
    assert "error"[0] == 'e' && "success"[0] == 's';
  }

  lemma HeadIsMember(keys: seq<Key>)
    requires |keys| > 0
    ensures exists k :: k in keys
  {
    assert keys[0] in keys;
  }

  /** A sorted sequence is determined by its elements: map iteration order leaves no trace. */
  lemma {:induction false} SortedIsUnique(a: seq<Key>, b: seq<Key>)
    requires Sorted(a) && Sorted(b)
    requires forall k :: k in a <==> k in b
    ensures a == b
  {
    if a == [] {
      if |b| > 0 {
        HeadIsMember(b);
        assert false;
      }
    } else {
      assert a[0] in b;
      var i :| 0 <= i < |b| && b[i] == a[0];
      assert b[0] in a;
      var j :| 0 <= j < |a| && a[j] == b[0];
      KeyLessIsTotalOrder(a[0], b[0], a[0]);
      assert i == 0 && j == 0;
      forall k
        ensures k in a[1..] <==> k in b[1..]
      {
        SortedIsDistinct(a);
        SortedIsDistinct(b);
        if k in a[1..] {
          assert k in b && k != b[0];
        }
        if k in b[1..] {
          assert k in a && k != a[0];
        }
      }
      SortedIsUnique(a[1..], b[1..]);
      assert a == [a[0]] + a[1..] && b == [b[0]] + b[1..];
    }
  }

  /** The keys of a map, in the order in which they are observed. */
  ghost predicate KeysOf(keys: seq<Key>, durations: map<Key, real>) {
    Sorted(keys) && forall k :: k in keys <==> k in durations
  }

  // ----------------------------------------------------------------- the registry

  /** The total of a key after one more scrape that contains it. */
  function Observed(totals: map<Key, Total>, scrape: map<Key, real>, key: Key): Total {
    Total(TotalOf(totals, key).count + 1, TotalOf(totals, key).sum + DurationOf(scrape, key))
  }

  /** The new totals of these keys, in their order. */
  function Summaries(totals: map<Key, Total>, scrape: map<Key, real>, keys: seq<Key>): seq<Summary> {
    seq(|keys|, i requires 0 <= i < |keys| => Summary(keys[i], Observed(totals, scrape, keys[i])))
  }

  /** The totals after the keys in `done` of one scrape have been observed. */
  function Folded(totals: map<Key, Total>, scrape: map<Key, real>, done: set<Key>): map<Key, Total>
    requires done <= scrape.Keys
  {
    map k | k in totals.Keys + done ::
      if k in done then Observed(totals, scrape, k) else totals[k]
  }

  /** Observing one more key of a scrape. */
  lemma FoldedStep(totals: map<Key, Total>, scrape: map<Key, real>, done: set<Key>, key: Key)
    requires done <= scrape.Keys && key in scrape && key !in done
    ensures var now := Folded(totals, scrape, done);
            && Observed(now, scrape, key) == Observed(totals, scrape, key)
            && now[key := Observed(totals, scrape, key)] == Folded(totals, scrape, done + {key})
  {
  }

  function SetOf(keys: seq<Key>): set<Key> {
    set k | k in keys
  }

  /** The keys before position `i` and the key at `i`. */
  lemma TakeOne(keys: seq<Key>, i: nat)
    requires i < |keys| && Distinct(keys)
    ensures SetOf(keys[..i + 1]) == SetOf(keys[..i]) + {keys[i]}
    ensures keys[i] !in SetOf(keys[..i])
  {
    assert keys[..i + 1] == keys[..i] + [keys[i]];
  }

  lemma KeyOfScrape(keys: seq<Key>, scrape: map<Key, real>, i: nat)
    requires SetOf(keys) == scrape.Keys && i < |keys|
    ensures keys[i] in scrape
  {
    assert keys[i] in SetOf(keys);
  }

  class Registry {
    var durations: map<Key, Total>

    constructor ()
      ensures durations == map[]
    {
      durations := map[];
    }

    /** Copies the keys of a scrape out of its map, in any order, and sorts them. */
    method ScrapeKeys(scrape: map<Key, real>) returns (keys: seq<Key>)
      ensures KeysOf(keys, scrape)
    {
      keys := [];
      var rest := scrape.Keys;
      while rest != {}
        invariant rest <= scrape.Keys
        invariant forall k :: k in keys <==> k in scrape && k !in rest
        invariant Distinct(keys)
        decreases rest
      {
        var key :| key in rest;
        keys := keys + [key];
        rest := rest - {key};
      }
      ghost var unsorted := keys;
      keys := SortKeys(keys);
      forall k ensures k in keys <==> k in scrape {
        assert k in multiset(keys) <==> k in multiset(unsorted);
      }
    }

    /** The body of the loop: one key of a scrape. */
    method ObserveKey(key: Key, scrape: map<Key, real>) returns (metric: Summary)
      requires key in scrape
      modifies this
      ensures metric == Summary(key, Observed(old(durations), scrape, key))
      ensures durations == old(durations)[key := metric.total]
    {
      var total := TotalOf(durations, key);
      total := Total(total.count + 1, total.sum + scrape[key]);
      durations := durations[key := total];
      metric := Summary(key, total);
    }

    /** The loop over the sorted keys, under the registry's mutex. */
    method Accumulate(keys: seq<Key>, scrape: map<Key, real>) returns (metrics: seq<Summary>)
      requires Distinct(keys) && SetOf(keys) == scrape.Keys
      modifies this
      ensures durations == Folded(old(durations), scrape, scrape.Keys)
      ensures metrics == Summaries(old(durations), scrape, keys)
    {
      metrics := [];
      ghost var base, done: set<Key> := durations, {};
      for i := 0 to |keys|
        invariant done == SetOf(keys[..i]) && done <= scrape.Keys
        invariant durations == Folded(base, scrape, done)
        invariant |metrics| == i
        invariant forall j :: 0 <= j < i ==> metrics[j] == Summary(keys[j], Observed(base, scrape, keys[j]))
      {
        KeyOfScrape(keys, scrape, i);
        TakeOne(keys, i);
        FoldedStep(base, scrape, done, keys[i]);
        var metric := ObserveKey(keys[i], scrape);
        metrics := metrics + [metric];
        done := done + {keys[i]};
      }
      assert keys[..|keys|] == keys;
    }

    /**
      Adds one scrape to the totals: every key of the scrape gains one observation and
      its duration, every other key is untouched, and the emitted summaries are the new
      totals in key order.
     */
    method ObserveScrapeDurations(scrape: map<Key, real>) returns (metrics: seq<Summary>)
      modifies this
      ensures durations == Folded(old(durations), scrape, scrape.Keys)
      ensures forall keys :: KeysOf(keys, scrape) ==> metrics == Summaries(old(durations), scrape, keys)
    {
      var keys := ScrapeKeys(scrape);
      SortedIsDistinct(keys);
      metrics := Accumulate(keys, scrape);
      forall ks | KeysOf(ks, scrape) ensures ks == keys {
        SortedIsUnique(ks, keys);
      }
    }
  }
}
