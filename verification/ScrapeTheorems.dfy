/** What holds of the scrape durations after every schedule of the scrape protocol. */
module ScrapeTheorems {
  import opened ScrapeTotals
  import opened ScrapeProtocol

  // ------------------------------------------------- what scrapes have contributed

  /** The keys that a scrape has added to the totals so far, in order. */
  function ObservedKeys(sc: Scrape): seq<Key> {
    match sc.phase
    case Observing(next, _, _, _) => if next <= |sc.keys| then sc.keys[..next] else sc.keys
    case Finished => sc.keys
    case _ => []
  }

  /** The number of scrapes that have added `key` to the totals. */
  function CountFor(scrapes: seq<Scrape>, key: Key): nat {
    if scrapes == [] then 0
    else CountFor(scrapes[..|scrapes| - 1], key) + if key in ObservedKeys(scrapes[|scrapes| - 1]) then 1 else 0
  }

  function Part(sc: Scrape, key: Key): real {
    if key in ObservedKeys(sc) then DurationOf(sc.durations, key) else 0.0
  }

  function SumObserved(scrapes: seq<Scrape>, key: Key): real {
    if scrapes == [] then 0.0
    else SumObserved(scrapes[..|scrapes| - 1], key) + Part(scrapes[|scrapes| - 1], key)
  }

  function SumOver(durations: map<Key, real>, keys: seq<Key>): real {
    if keys == [] then 0.0 else SumOver(durations, keys[..|keys| - 1]) + DurationOf(durations, keys[|keys| - 1])
  }

  function Whole(sc: Scrape): real {
    SumOver(sc.durations, ObservedKeys(sc))
  }

  function Grand(scrapes: seq<Scrape>): real {
    if scrapes == [] then 0.0 else Grand(scrapes[..|scrapes| - 1]) + Whole(scrapes[|scrapes| - 1])
  }

  lemma {:induction false} CountForUpdate(scrapes: seq<Scrape>, s: nat, x: Scrape, key: Key)
    requires s < |scrapes|
    ensures CountFor(scrapes[s := x], key)
         == CountFor(scrapes, key) - (if key in ObservedKeys(scrapes[s]) then 1 else 0) + (if key in ObservedKeys(x) then 1 else 0)
    ensures SumObserved(scrapes[s := x], key) == SumObserved(scrapes, key) - Part(scrapes[s], key) + Part(x, key)
  {
    var n := |scrapes| - 1;
    if s == n {
      assert scrapes[s := x][..n] == scrapes[..n];
    } else {
      assert scrapes[s := x][..n] == scrapes[..n][s := x];
      CountForUpdate(scrapes[..n], s, x, key);
    }
  }

  lemma {:induction false} GrandUpdate(scrapes: seq<Scrape>, s: nat, x: Scrape)
    requires s < |scrapes|
    ensures Grand(scrapes[s := x]) == Grand(scrapes) - Whole(scrapes[s]) + Whole(x)
  {
    var n := |scrapes| - 1;
    if s == n {
      assert scrapes[s := x][..n] == scrapes[..n];
    } else {
      assert scrapes[s := x][..n] == scrapes[..n][s := x];
      GrandUpdate(scrapes[..n], s, x);
    }
  }

  // -------------------------------------------------------------------- the log

  function LogFor(log: seq<Emitted>, key: Key): seq<Emitted> {
    if log == [] then []
    else
      var last := log[|log| - 1];
      LogFor(log[..|log| - 1], key) + if last.key == key then [last] else []
  }

  function KeysEmittedBy(log: seq<Emitted>, s: nat): seq<Key> {
    if log == [] then []
    else
      var last := log[|log| - 1];
      KeysEmittedBy(log[..|log| - 1], s) + if last.scrape == s then [last.key] else []
  }

  /** The summaries that one scrape has emitted. */
  function EmittedBy(log: seq<Emitted>, s: nat): seq<Summary> {
    if log == [] then []
    else
      var last := log[|log| - 1];
      EmittedBy(log[..|log| - 1], s) + if last.scrape == s then [Summary(last.key, last.total)] else []
  }

  lemma EmittedSnoc(log: seq<Emitted>, e: Emitted, s: nat)
    ensures EmittedBy(log + [e], s) == EmittedBy(log, s) + if e.scrape == s then [Summary(e.key, e.total)] else []
  {
    assert (log + [e])[..|log|] == log;
  }

  lemma {:induction false} OneSummaryPerKey(log: seq<Emitted>, s: nat)
    ensures |KeysEmittedBy(log, s)| == |EmittedBy(log, s)|
  {
    if log != [] {
      OneSummaryPerKey(log[..|log| - 1], s);
    }
  }

  lemma LogSnoc(log: seq<Emitted>, e: Emitted, key: Key, s: nat)
    ensures LogFor(log + [e], key) == if e.key == key then LogFor(log, key) + [e] else LogFor(log, key)
    ensures KeysEmittedBy(log + [e], s) == if e.scrape == s then KeysEmittedBy(log, s) + [e.key] else KeysEmittedBy(log, s)
  {
    assert (log + [e])[..|log|] == log;
    assert LogFor(log, key) + [] == LogFor(log, key);
    assert KeysEmittedBy(log, s) + [] == KeysEmittedBy(log, s);
  }

  /** Counts 1, 2, 3, ... without a gap, and sums that grow by what each scrape added. */
  predicate PrefixTotals(entries: seq<Emitted>) {
    forall i :: 0 <= i < |entries| ==> PrefixTotalAt(entries, i)
  }

  predicate PrefixTotalAt(entries: seq<Emitted>, i: nat)
    requires i < |entries|
  {
    && entries[i].total.count == i + 1
    && entries[i].total.sum == LastTotal(entries[..i]).sum + entries[i].added
  }

  function LastTotal(entries: seq<Emitted>): Total {
    if entries == [] then Total(0, 0.0) else entries[|entries| - 1].total
  }

  // ------------------------------------------------------- invariant: each scrape

  ghost predicate ScrapesInv(scrapes: seq<Scrape>) {
    forall s :: 0 <= s < |scrapes| ==> ScrapeInv(scrapes[s])
  }

  /** The registry's mutex and totals do not matter inside a scrape. */
  lemma PhaseKeepsScrapeInv(sc: Scrape, phase: Phase)
    requires ScrapeInv(sc) && !sc.phase.Gathering?
    ensures ScrapeInv(sc.(phase := phase))
  {
  }

  lemma NewScrapeInv(collectors: seq<string>)
    ensures ScrapeInv(NewScrape(collectors))
  {
  }

  /** How a step changes one scrape. */
  lemma StepKeepsScrape(st: State, step: Step, s: nat)
    requires s < |st.scrapes| && ScrapeInv(st.scrapes[s])
    ensures ScrapeInv(Next(st, step).scrapes[s])
  {
    match step
    case Inside(t, inner) => if t == s { ScrapeStepKeeps(st.scrapes[s], inner); }
    case Begin(_) =>
    case _ =>
      if Next(st, step).scrapes[s] != st.scrapes[s] {
        PhaseKeepsScrapeInv(st.scrapes[s], Next(st, step).scrapes[s].phase);
      }
  }

  lemma {:induction false} AlwaysScrapes(schedule: seq<Step>)
    ensures ScrapesInv(Exec(schedule).scrapes)
    decreases |schedule|
  {
    if schedule != [] {
      var front, step := schedule[..|schedule| - 1], schedule[|schedule| - 1];
      AlwaysScrapes(front);
      var st := Exec(front);
      forall s | 0 <= s < |Next(st, step).scrapes|
        ensures ScrapeInv(Next(st, step).scrapes[s])
      {
        if s < |st.scrapes| {
          StepKeepsScrape(st, step, s);
        } else {
          NewScrapeInv(step.collectors);
        }
      }
    }
  }

  // --------------------------------------------- invariant: the registry's mutex

  /** A step inside a scrape that gathers may join it; inside any other scrape nothing is left to do. */
  ghost predicate Tame(st: State, step: Step) {
    step.Inside? && step.s < |st.scrapes| ==>
      var sc := st.scrapes[step.s];
      var x := ScrapeNext(sc, step.step);
      x == sc || (sc.phase.Gathering? && (x.phase.Gathering? || x.phase.Joined?))
  }

  /** The keys of a scrape that is past `wg.Wait` are those of its map, without repetition. */
  ghost predicate OwnKeys(st: State) {
    forall s :: 0 <= s < |st.scrapes| && !st.scrapes[s].phase.Gathering? ==>
      Distinct(st.scrapes[s].keys) && SetOf(st.scrapes[s].keys) == st.scrapes[s].durations.Keys
  }

  lemma StepsAreTame(schedule: seq<Step>, step: Step)
    ensures Tame(Exec(schedule), step)
    ensures OwnKeys(Exec(schedule))
  {
    var st := Exec(schedule);
    AlwaysScrapes(schedule);
    if step.Inside? && step.s < |st.scrapes| {
      ScrapeStepKeeps(st.scrapes[step.s], step.step);
    }
    forall s | 0 <= s < |st.scrapes| && !st.scrapes[s].phase.Gathering?
      ensures Distinct(st.scrapes[s].keys) && SetOf(st.scrapes[s].keys) == st.scrapes[s].durations.Keys
    {
      assert ScrapeInv(st.scrapes[s]);
      SortedIsDistinct(st.scrapes[s].keys);
    }
  }

  /** The mutex is held by exactly the scrape that observes, and what it has loaded is current. */
  ghost predicate LockInv(st: State) {
    && -1 <= st.mutex < |st.scrapes|
    && (forall s :: 0 <= s < |st.scrapes| ==> (st.scrapes[s].phase.Observing? <==> st.mutex == s))
    && (forall s :: 0 <= s < |st.scrapes| && st.scrapes[s].phase.Observing? ==> CurrentPhase(st.scrapes[s], st.totals))
  }

  ghost predicate CurrentPhase(sc: Scrape, totals: map<Key, Total>)
    requires sc.phase.Observing?
  {
    && sc.phase.next <= |sc.keys|
    && (sc.phase.loaded ==> sc.phase.next < |sc.keys| && sc.phase.seen == TotalOf(totals, sc.keys[sc.phase.next]))
  }

  lemma LockStep(st: State, step: Step)
    requires LockInv(st) && Tame(st, step)
    ensures LockInv(Next(st, step))
  {
  }

  lemma {:induction false} AlwaysLock(schedule: seq<Step>)
    ensures LockInv(Exec(schedule))
    decreases |schedule|
  {
    if schedule != [] {
      var front, step := schedule[..|schedule| - 1], schedule[|schedule| - 1];
      AlwaysLock(front);
      StepsAreTame(front, step);
      LockStep(Exec(front), step);
    }
  }

  // ---------------------------------------------------------- invariant: the totals

  /** The totals are the sums over the scrapes observed so far. */
  ghost predicate TotalsInv(scrapes: seq<Scrape>, totals: map<Key, Total>) {
    && (forall k :: TotalOf(totals, k) == Total(CountFor(scrapes, k), SumObserved(scrapes, k)))
    && (forall k :: k in totals <==> CountFor(scrapes, k) > 0)
    && SumMap(Sums(totals)) == Grand(scrapes)
  }

  function Sums(totals: map<Key, Total>): map<Key, real> {
    map k | k in totals :: totals[k].sum
  }

  /** A scrape moves on without touching the totals. */
  ghost predicate SameContribution(a: Scrape, b: Scrape) {
    && ObservedKeys(a) == ObservedKeys(b)
    && (ObservedKeys(a) != [] ==> a.durations == b.durations)
  }

  lemma QuietTotals(scrapes: seq<Scrape>, totals: map<Key, Total>, s: nat, x: Scrape)
    requires s < |scrapes| && SameContribution(scrapes[s], x) && TotalsInv(scrapes, totals)
    ensures TotalsInv(scrapes[s := x], totals)
  {
    forall k
      ensures CountFor(scrapes[s := x], k) == CountFor(scrapes, k)
      ensures SumObserved(scrapes[s := x], k) == SumObserved(scrapes, k)
    {
      CountForUpdate(scrapes, s, x, k);
    }
    GrandUpdate(scrapes, s, x);
  }

  lemma BeginTotals(scrapes: seq<Scrape>, totals: map<Key, Total>, collectors: seq<string>)
    requires TotalsInv(scrapes, totals)
    ensures TotalsInv(scrapes + [NewScrape(collectors)], totals)
  {
    assert (scrapes + [NewScrape(collectors)])[..|scrapes|] == scrapes;
  }

  ghost predicate CanUpdate(st: State, s: nat) {
    && s < |st.scrapes|
    && st.scrapes[s].phase.Observing?
    && st.scrapes[s].phase.loaded
    && st.scrapes[s].phase.next < |st.scrapes[s].keys|
  }

  /** Every step but a possible update leaves the totals and the log alone. */
  lemma QuietStep(st: State, step: Step)
    requires LockInv(st) && Tame(st, step)
    requires !step.Begin? && !(step.Update? && CanUpdate(st, step.s))
    ensures Next(st, step).totals == st.totals && Next(st, step).log == st.log
    ensures Next(st, step).scrapes == st.scrapes
         || (step.s < |st.scrapes|
             && Next(st, step).scrapes == st.scrapes[step.s := Next(st, step).scrapes[step.s]]
             && SameContribution(st.scrapes[step.s], Next(st, step).scrapes[step.s])
             && (st.scrapes[step.s].phase.Gathering?
                 || (Next(st, step).scrapes[step.s].durations == st.scrapes[step.s].durations
                     && !Next(st, step).scrapes[step.s].phase.Gathering?)))
  {
    if step.Unlock? && step.s < |st.scrapes| {
      var keys := st.scrapes[step.s].keys;
      assert keys[..|keys|] == keys;
    }
  }

  /** What an update adds: one observation of the next key of the scrape. */
  lemma UpdateContribution(sc: Scrape, x: Scrape)
    requires sc.phase.Observing? && sc.phase.next < |sc.keys| && Distinct(sc.keys)
    requires x == sc.(phase := Observing(sc.phase.next + 1, Total(0, 0.0), false, sc.phase.base))
    ensures var key := sc.keys[sc.phase.next];
            && ObservedKeys(x) == ObservedKeys(sc) + [key]
            && key !in ObservedKeys(sc)
            && Whole(x) == Whole(sc) + DurationOf(sc.durations, key)
  {
    var key := sc.keys[sc.phase.next];
    assert ObservedKeys(x) == ObservedKeys(sc) + [key];
    assert ObservedKeys(x)[..|ObservedKeys(sc)|] == ObservedKeys(sc);
  }

  /** Adding one observation of `key` by scrape `s`, given the key's current total. */
  lemma UpdateTotals(scrapes: seq<Scrape>, totals: map<Key, Total>, s: nat, x: Scrape, key: Key)
    requires TotalsInv(scrapes, totals) && s < |scrapes|
    requires x.durations == scrapes[s].durations
    requires ObservedKeys(x) == ObservedKeys(scrapes[s]) + [key] && key !in ObservedKeys(scrapes[s])
    requires Whole(x) == Whole(scrapes[s]) + DurationOf(x.durations, key)
    ensures TotalsInv(scrapes[s := x], totals[key := Observed(totals, x.durations, key)])
  {
    var total := Observed(totals, x.durations, key);
    var totals' := totals[key := total];
    forall k
      ensures TotalOf(totals', k) == Total(CountFor(scrapes[s := x], k), SumObserved(scrapes[s := x], k))
      ensures k in totals' <==> CountFor(scrapes[s := x], k) > 0
    {
      CountForUpdate(scrapes, s, x, k);
      assert k in ObservedKeys(x) <==> k in ObservedKeys(scrapes[s]) || k == key;
    }
    GrandUpdate(scrapes, s, x);
    SumsUpdate(totals, key, total);
  }

  lemma SumsUpdate(totals: map<Key, Total>, key: Key, total: Total)
    ensures SumMap(Sums(totals[key := total])) == SumMap(Sums(totals)) - TotalOf(totals, key).sum + total.sum
  {
    assert Sums(totals[key := total]) == Sums(totals)[key := total.sum];
    SumMapUpdate(Sums(totals), key, total.sum);
  }

  /** Under the mutex the loaded total is still the current one, so no observation is lost. */
  lemma UpdateShape(st: State, s: nat) returns (x: Scrape, key: Key)
    requires CanUpdate(st, s) && CurrentPhase(st.scrapes[s], st.totals) && Distinct(st.scrapes[s].keys)
    ensures Next(st, Update(s)).scrapes == st.scrapes[s := x]
    ensures Next(st, Update(s)).totals == st.totals[key := Observed(st.totals, x.durations, key)]
    ensures x.durations == st.scrapes[s].durations
    ensures ObservedKeys(x) == ObservedKeys(st.scrapes[s]) + [key] && key !in ObservedKeys(st.scrapes[s])
    ensures Whole(x) == Whole(st.scrapes[s]) + DurationOf(x.durations, key)
  {
    var sc := st.scrapes[s];
    key := sc.keys[sc.phase.next];
    x := sc.(phase := Observing(sc.phase.next + 1, Total(0, 0.0), false, sc.phase.base));
    UpdateContribution(sc, x);
  }

  lemma TotalsStep(st: State, step: Step)
    requires LockInv(st) && Tame(st, step) && OwnKeys(st) && TotalsInv(st.scrapes, st.totals)
    ensures TotalsInv(Next(st, step).scrapes, Next(st, step).totals)
  {
    if step.Begin? {
      BeginTotals(st.scrapes, st.totals, step.collectors);
    } else if step.Update? && CanUpdate(st, step.s) {
      var x, key := UpdateShape(st, step.s);
      UpdateTotals(st.scrapes, st.totals, step.s, x, key);
    } else {
      QuietStep(st, step);
      if Next(st, step).scrapes != st.scrapes {
        QuietTotals(st.scrapes, st.totals, step.s, Next(st, step).scrapes[step.s]);
      }
    }
  }

  lemma {:induction false} AlwaysTotals(schedule: seq<Step>)
    ensures TotalsInv(Exec(schedule).scrapes, Exec(schedule).totals)
    decreases |schedule|
  {
    if schedule != [] {
      var front, step := schedule[..|schedule| - 1], schedule[|schedule| - 1];
      AlwaysTotals(front);
      AlwaysLock(front);
      StepsAreTame(front, step);
      TotalsStep(Exec(front), step);
    } else {
      assert Sums(INIT.totals) == map[];
    }
  }

  // ------------------------------------------------------------- invariant: the log

  ghost predicate LogTotals(log: seq<Emitted>, totals: map<Key, Total>) {
    && (forall k :: PrefixTotals(LogFor(log, k)))
    && (forall k :: LastTotal(LogFor(log, k)) == TotalOf(totals, k))
  }

  ghost predicate LogScrapes(log: seq<Emitted>, scrapes: seq<Scrape>) {
    && (forall s: nat :: s < |scrapes| ==> KeysEmittedBy(log, s) == ObservedKeys(scrapes[s]))
    && (forall i :: 0 <= i < |log| ==> ValidEntry(log[i], scrapes))
  }

  /** An entry adds what its scrape, past `wg.Wait`, measured under its key. */
  ghost predicate ValidEntry(e: Emitted, scrapes: seq<Scrape>) {
    && e.scrape < |scrapes|
    && !scrapes[e.scrape].phase.Gathering?
    && e.added == DurationOf(scrapes[e.scrape].durations, e.key)
  }

  lemma PrefixTotalsGrow(entries: seq<Emitted>, e: Emitted)
    requires PrefixTotals(entries)
    requires e.total == Total(LastTotal(entries).count + 1, LastTotal(entries).sum + e.added)
    ensures PrefixTotals(entries + [e])
    ensures LastTotal(entries + [e]) == e.total
  {
    var grown := entries + [e];
    if entries != [] {
      assert PrefixTotalAt(entries, |entries| - 1);
    }
    forall i | 0 <= i < |grown|
      ensures PrefixTotalAt(grown, i)
    {
      if i < |entries| {
        assert PrefixTotalAt(entries, i);
        assert grown[..i] == entries[..i];
      } else {
        assert grown[..i] == entries;
      }
    }
  }

  lemma UpdateLogOf(log: seq<Emitted>, totals: map<Key, Total>, e: Emitted, k: Key)
    requires PrefixTotals(LogFor(log, k)) && LastTotal(LogFor(log, k)) == TotalOf(totals, k)
    requires e.total == Total(TotalOf(totals, e.key).count + 1, TotalOf(totals, e.key).sum + e.added)
    ensures PrefixTotals(LogFor(log + [e], k))
    ensures LastTotal(LogFor(log + [e], k)) == TotalOf(totals[e.key := e.total], k)
  {
    LogSnoc(log, e, k, 0);
    if k == e.key {
      PrefixTotalsGrow(LogFor(log, k), e);
    }
  }

  lemma UpdateLogTotals(log: seq<Emitted>, totals: map<Key, Total>, e: Emitted)
    requires LogTotals(log, totals)
    requires e.total == Total(TotalOf(totals, e.key).count + 1, TotalOf(totals, e.key).sum + e.added)
    ensures LogTotals(log + [e], totals[e.key := e.total])
  {
    forall k
      ensures PrefixTotals(LogFor(log + [e], k)) && LastTotal(LogFor(log + [e], k)) == TotalOf(totals[e.key := e.total], k)
    {
      assert PrefixTotals(LogFor(log, k)) && LastTotal(LogFor(log, k)) == TotalOf(totals, k);
      UpdateLogOf(log, totals, e, k);
    }
  }

  lemma UpdateLogScrapes(log: seq<Emitted>, scrapes: seq<Scrape>, e: Emitted, x: Scrape)
    requires LogScrapes(log, scrapes) && e.scrape < |scrapes|
    requires x.durations == scrapes[e.scrape].durations && !x.phase.Gathering?
    requires ObservedKeys(x) == ObservedKeys(scrapes[e.scrape]) + [e.key]
    requires e.added == DurationOf(x.durations, e.key)
    ensures LogScrapes(log + [e], scrapes[e.scrape := x])
  {
    var log', scrapes' := log + [e], scrapes[e.scrape := x];
    forall t: nat | t < |scrapes'|
      ensures KeysEmittedBy(log', t) == ObservedKeys(scrapes'[t])
    {
      LogSnoc(log, e, e.key, t);
    }
    forall i | 0 <= i < |log'|
      ensures ValidEntry(log'[i], scrapes')
    {
      if i < |log| {
        assert ValidEntry(log[i], scrapes);
      }
    }
  }

  /** Log entries keep their meaning when a scrape moves on without touching the totals. */
  lemma QuietLog(log: seq<Emitted>, scrapes: seq<Scrape>, s: nat, x: Scrape)
    requires s < |scrapes| && LogScrapes(log, scrapes)
    requires ObservedKeys(x) == ObservedKeys(scrapes[s])
    requires scrapes[s].phase.Gathering? || (x.durations == scrapes[s].durations && !x.phase.Gathering?)
    ensures LogScrapes(log, scrapes[s := x])
  {
    forall i | 0 <= i < |log|
      ensures ValidEntry(log[i], scrapes[s := x])
    {
      assert ValidEntry(log[i], scrapes);
    }
  }

  lemma {:induction false} NothingEmittedBy(log: seq<Emitted>, s: nat)
    requires forall i :: 0 <= i < |log| ==> log[i].scrape != s
    ensures KeysEmittedBy(log, s) == []
  {
    if log != [] {
      NothingEmittedBy(log[..|log| - 1], s);
    }
  }

  lemma BeginLog(log: seq<Emitted>, scrapes: seq<Scrape>, collectors: seq<string>)
    requires LogScrapes(log, scrapes)
    ensures LogScrapes(log, scrapes + [NewScrape(collectors)])
  {
    var scrapes' := scrapes + [NewScrape(collectors)];
    forall i | 0 <= i < |log|
      ensures ValidEntry(log[i], scrapes')
    {
      assert ValidEntry(log[i], scrapes);
      assert scrapes'[log[i].scrape] == scrapes[log[i].scrape];
    }
    NothingEmittedBy(log, |scrapes|);
  }

  lemma UpdateLogStep(st: State, step: Step)
    requires step.Update? && CanUpdate(st, step.s)
    requires LockInv(st) && OwnKeys(st)
    requires LogTotals(st.log, st.totals) && LogScrapes(st.log, st.scrapes)
    ensures LogTotals(Next(st, step).log, Next(st, step).totals)
    ensures LogScrapes(Next(st, step).log, Next(st, step).scrapes)
  {
    var sc, x := st.scrapes[step.s], Next(st, step).scrapes[step.s];
    var e := Next(st, step).log[|st.log|];
    UpdateContribution(sc, x);
    UpdateLogTotals(st.log, st.totals, e);
    UpdateLogScrapes(st.log, st.scrapes, e, x);
  }

  lemma LogStep(st: State, step: Step)
    requires LockInv(st) && Tame(st, step) && OwnKeys(st)
    requires LogTotals(st.log, st.totals) && LogScrapes(st.log, st.scrapes)
    ensures LogTotals(Next(st, step).log, Next(st, step).totals)
    ensures LogScrapes(Next(st, step).log, Next(st, step).scrapes)
  {
    if step.Begin? {
      BeginLog(st.log, st.scrapes, step.collectors);
    } else if step.Update? && CanUpdate(st, step.s) {
      UpdateLogStep(st, step);
    } else {
      QuietStep(st, step);
      if Next(st, step).scrapes != st.scrapes {
        QuietLog(st.log, st.scrapes, step.s, Next(st, step).scrapes[step.s]);
      }
    }
  }

  lemma {:induction false} AlwaysLog(schedule: seq<Step>)
    ensures LogTotals(Exec(schedule).log, Exec(schedule).totals)
    ensures LogScrapes(Exec(schedule).log, Exec(schedule).scrapes)
    decreases |schedule|
  {
    if schedule != [] {
      var front, step := schedule[..|schedule| - 1], schedule[|schedule| - 1];
      AlwaysLog(front);
      AlwaysLock(front);
      StepsAreTame(front, step);
      LogStep(Exec(front), step);
    }
  }

  // ------------------------------------------------- invariant: the critical section

  ghost predicate Halfway(sc: Scrape, totals: map<Key, Total>)
    requires sc.phase.Observing?
  {
    && SetOf(ObservedKeys(sc)) <= sc.durations.Keys
    && totals == Folded(sc.phase.base, sc.durations, SetOf(ObservedKeys(sc)))
  }

  /** The holder has emitted what one undisturbed loop up to its next key would. */
  ghost predicate HalfEmitted(sc: Scrape, s: nat, log: seq<Emitted>)
    requires sc.phase.Observing?
  {
    EmittedBy(log, s) == Summaries(sc.phase.base, sc.durations, ObservedKeys(sc))
  }

  ghost predicate HalfDone(st: State, s: nat)
    requires s < |st.scrapes| && st.scrapes[s].phase.Observing?
  {
    Halfway(st.scrapes[s], st.totals) && HalfEmitted(st.scrapes[s], s, st.log)
  }

  /** Since the mutex was taken, the totals have changed by the holder's keys alone. */
  ghost predicate SectionInv(st: State) {
    forall s :: 0 <= s < |st.scrapes| && st.scrapes[s].phase.Observing? ==> HalfDone(st, s)
  }

  lemma TakenSectionIsFresh(sc: Scrape, totals: map<Key, Total>)
    requires sc.phase.Observing? && sc.phase.next == 0 && sc.phase.base == totals
    ensures Halfway(sc, totals)
  {
    assert SetOf(ObservedKeys(sc)) == {};
    assert Folded(totals, sc.durations, {}) == totals;
  }

  lemma UpdateKeepsSection(sc: Scrape, x: Scrape, totals: map<Key, Total>)
    requires sc.phase.Observing? && sc.phase.next < |sc.keys| && Halfway(sc, totals)
    requires Distinct(sc.keys) && SetOf(sc.keys) == sc.durations.Keys
    requires x == sc.(phase := Observing(sc.phase.next + 1, Total(0, 0.0), false, sc.phase.base))
    ensures var key := sc.keys[sc.phase.next];
            Halfway(x, totals[key := Observed(totals, sc.durations, key)])
  {
    var key := sc.keys[sc.phase.next];
    assert key in SetOf(sc.keys);
    TakeOne(sc.keys, sc.phase.next);
    FoldedStep(sc.phase.base, sc.durations, SetOf(ObservedKeys(sc)), key);
  }

  lemma UpdateKeepsEmitted(sc: Scrape, x: Scrape, totals: map<Key, Total>, log: seq<Emitted>, e: Emitted)
    requires sc.phase.Observing? && sc.phase.next < |sc.keys| && Halfway(sc, totals) && HalfEmitted(sc, e.scrape, log)
    requires Distinct(sc.keys) && SetOf(sc.keys) == sc.durations.Keys
    requires x == sc.(phase := Observing(sc.phase.next + 1, Total(0, 0.0), false, sc.phase.base))
    requires e.key == sc.keys[sc.phase.next] && e.total == Observed(totals, sc.durations, e.key)
    ensures HalfEmitted(x, e.scrape, log + [e])
  {
    assert e.key in SetOf(sc.keys);
    TakeOne(sc.keys, sc.phase.next);
    FoldedStep(sc.phase.base, sc.durations, SetOf(ObservedKeys(sc)), e.key);
    EmittedSnoc(log, e, e.scrape);
    assert Summaries(sc.phase.base, sc.durations, ObservedKeys(x))
        == Summaries(sc.phase.base, sc.durations, ObservedKeys(sc)) + [Summary(e.key, e.total)];
  }

  lemma SectionStep(st: State, step: Step)
    requires LockInv(st) && Tame(st, step) && OwnKeys(st) && SectionInv(st) && LogScrapes(st.log, st.scrapes)
    ensures SectionInv(Next(st, step))
  {
    var st' := Next(st, step);
    forall s | 0 <= s < |st'.scrapes| && st'.scrapes[s].phase.Observing?
      ensures HalfDone(st', s)
    {
      SectionStepOf(st, step, s);
    }
  }

  lemma SectionStepOf(st: State, step: Step, s: nat)
    requires LockInv(st) && Tame(st, step) && OwnKeys(st) && SectionInv(st) && LogScrapes(st.log, st.scrapes)
    requires s < |Next(st, step).scrapes| && Next(st, step).scrapes[s].phase.Observing?
    ensures HalfDone(Next(st, step), s)
  {
    if step.Lock? && step.s == s && Next(st, step) != st {
      LockStartsSection(st, s);
    } else if step.Update? && step.s == s && CanUpdate(st, s) {
      UpdateStepKeepsSection(st, s);
    } else {
      OtherStepKeepsSection(st, step, s);
    }
  }

  lemma LockStartsSection(st: State, s: nat)
    requires LogScrapes(st.log, st.scrapes) && Next(st, Lock(s)) != st
    ensures HalfDone(Next(st, Lock(s)), s)
  {
    TakenSectionIsFresh(Next(st, Lock(s)).scrapes[s], st.totals);
    assert KeysEmittedBy(st.log, s) == ObservedKeys(st.scrapes[s]);
    OneSummaryPerKey(st.log, s);
  }

  lemma UpdateStepKeepsSection(st: State, s: nat)
    requires CanUpdate(st, s) && LockInv(st) && OwnKeys(st) && SectionInv(st)
    ensures HalfDone(Next(st, Update(s)), s)
  {
    var st' := Next(st, Update(s));
    var sc := st.scrapes[s];
    assert HalfDone(st, s);
    UpdateKeepsSection(sc, st'.scrapes[s], st.totals);
    UpdateKeepsEmitted(sc, st'.scrapes[s], st.totals, st.log, st'.log[|st.log|]);
  }

  /** No other step touches the totals, the log or the progress of the scrape that observes. */
  lemma OtherStepKeepsSection(st: State, step: Step, s: nat)
    requires LockInv(st) && Tame(st, step) && SectionInv(st)
    requires s < |Next(st, step).scrapes| && Next(st, step).scrapes[s].phase.Observing?
    requires !(step.Lock? && step.s == s && Next(st, step) != st)
    requires !(step.Update? && step.s == s && CanUpdate(st, s))
    ensures HalfDone(Next(st, step), s)
  {
    var x := Next(st, step).scrapes[s];
    assert s < |st.scrapes| && st.scrapes[s].phase.Observing?;
    assert HalfDone(st, s);
    assert Next(st, step).totals == st.totals && Next(st, step).log == st.log;
    assert ObservedKeys(x) == ObservedKeys(st.scrapes[s]);
  }

  lemma {:induction false} AlwaysSection(schedule: seq<Step>)
    ensures SectionInv(Exec(schedule))
    decreases |schedule|
  {
    if schedule != [] {
      var front, step := schedule[..|schedule| - 1], schedule[|schedule| - 1];
      AlwaysSection(front);
      AlwaysLock(front);
      AlwaysLog(front);
      StepsAreTame(front, step);
      SectionStep(Exec(front), step);
    }
  }

  // -------------------------------------------------------------------- theorems

  /**
    Once `wg.Wait` has returned, every goroutine is done, and the scrape's map holds under
    each key exactly the sum of the durations that the goroutines recorded under that key.
   */
  lemma GatheredRecordsAreExact(schedule: seq<Step>, s: nat, key: Key)
    requires s < |Exec(schedule).scrapes| && !Exec(schedule).scrapes[s].phase.Gathering?
    ensures var sc := Exec(schedule).scrapes[s];
            && |sc.goroutines| == |sc.collectors|
            && (forall g :: 0 <= g < |sc.goroutines| ==> sc.goroutines[g].Done?)
            && DurationOf(sc.durations, key) == SumFor(sc.goroutines, key)
            && (key in sc.durations <==> exists g :: 0 <= g < |sc.goroutines| && sc.goroutines[g].key == key)
  {
    AlwaysScrapes(schedule);
    JoinedMapIsExact(Exec(schedule).scrapes[s], key);
  }

  /** No update is lost and none is interleaved: at most one goroutine of a scrape is between load and release. */
  lemma MutualExclusion(schedule: seq<Step>, s: nat, g: nat, h: nat)
    requires s < |Exec(schedule).scrapes|
    requires g < |Exec(schedule).scrapes[s].goroutines| && h < |Exec(schedule).scrapes[s].goroutines|
    requires Exec(schedule).scrapes[s].goroutines[g].HoldsMutex()
    requires Exec(schedule).scrapes[s].goroutines[h].HoldsMutex()
    ensures g == h
  {
    AlwaysScrapes(schedule);
    assert ScrapeInv(Exec(schedule).scrapes[s]);
  }

  /** A scrape has added `key`, if it had it: it has finished, or it observes and is past the key. */
  predicate Reached(sc: Scrape, key: Key) {
    match sc.phase
    case Observing(next, _, _, _) => |sc.keys| <= next || KeyLess(key, sc.keys[next])
    case Finished => true
    case _ => false
  }

  /** In key order, what comes before a key that a scrape has is what is less than it. */
  lemma ReachedKeys(sc: Scrape, key: Key)
    requires ScrapeInv(sc)
    ensures key in ObservedKeys(sc) <==> key in sc.keys && Reached(sc, key)
  {
    if sc.phase.Observing? && sc.phase.next < |sc.keys| {
      var next := sc.phase.next;
      KeyLessIsTotalOrder(key, sc.keys[next], key);
      assert sc.keys == sc.keys[..next] + sc.keys[next..];
    }
  }

  predicate EndedWith(g: Goroutine, key: Key) {
    !g.Collecting? && g.key == key
  }

  /** A scrape with a collector that ended with `key` has added it. */
  predicate Added(sc: Scrape, key: Key) {
    Reached(sc, key) && exists g :: 0 <= g < |sc.goroutines| && EndedWith(sc.goroutines[g], key)
  }

  /** The number of scrapes that have added `key`. */
  function ScrapesWith(scrapes: seq<Scrape>, key: Key): nat {
    if scrapes == [] then 0
    else ScrapesWith(scrapes[..|scrapes| - 1], key) + if Added(scrapes[|scrapes| - 1], key) then 1 else 0
  }

  /** The time that their collectors took that ended with it. */
  function TimeWith(scrapes: seq<Scrape>, key: Key): real {
    if scrapes == [] then 0.0
    else
      var sc := scrapes[|scrapes| - 1];
      TimeWith(scrapes[..|scrapes| - 1], key) + if Reached(sc, key) then SumFor(sc.goroutines, key) else 0.0
  }

  lemma AddedKeys(sc: Scrape, key: Key)
    requires ScrapeInv(sc)
    ensures key in ObservedKeys(sc) <==> Added(sc, key)
    ensures Part(sc, key) == if Reached(sc, key) then SumFor(sc.goroutines, key) else 0.0
  {
    if !sc.phase.Gathering? {
      ReachedKeys(sc, key);
      JoinedMapIsExact(sc, key);
      if g :| 0 <= g < |sc.goroutines| && sc.goroutines[g].key == key {
        assert EndedWith(sc.goroutines[g], key);
      }
    }
  }

  lemma {:induction false} ContributionsAreAdded(scrapes: seq<Scrape>, key: Key)
    requires ScrapesInv(scrapes)
    ensures CountFor(scrapes, key) == ScrapesWith(scrapes, key)
    ensures SumObserved(scrapes, key) == TimeWith(scrapes, key)
    decreases |scrapes|
  {
    if scrapes != [] {
      ContributionsAreAdded(scrapes[..|scrapes| - 1], key);
      AddedKeys(scrapes[|scrapes| - 1], key);
    }
  }

  /** At every moment the totals are those of the records of the scrapes that have added them. */
  lemma TotalsOfRecords(schedule: seq<Step>, key: Key)
    ensures TotalOf(Exec(schedule).totals, key)
         == Total(ScrapesWith(Exec(schedule).scrapes, key), TimeWith(Exec(schedule).scrapes, key))
  {
    AlwaysTotals(schedule);
    AlwaysScrapes(schedule);
    ContributionsAreAdded(Exec(schedule).scrapes, key);
  }

  /** The time that collectors took that ended with a key that their scrape has added. */
  function TimeIn(sc: Scrape, gs: seq<Goroutine>): real {
    if gs == [] then 0.0
    else
      var g := gs[|gs| - 1];
      TimeIn(sc, gs[..|gs| - 1]) + if !g.Collecting? && Reached(sc, g.key) then g.duration else 0.0
  }

  function AddedTime(scrapes: seq<Scrape>): real {
    if scrapes == [] then 0.0
    else AddedTime(scrapes[..|scrapes| - 1]) + TimeIn(scrapes[|scrapes| - 1], scrapes[|scrapes| - 1].goroutines)
  }

  /** The sum over the keys of what goroutines share. */
  function SharesIn(keys: seq<Key>, gs: seq<Goroutine>): real {
    if keys == [] then 0.0 else SharesIn(keys[..|keys| - 1], gs) + SumFor(gs, keys[|keys| - 1])
  }

  function SharesOf(keys: seq<Key>, g: Goroutine): real {
    if g.Counted() && g.key in keys then g.duration else 0.0
  }

  /** Summing by key and then by goroutine, or by goroutine alone. */
  lemma {:induction false} SharesSnoc(keys: seq<Key>, gs: seq<Goroutine>, g: Goroutine)
    requires Distinct(keys)
    ensures SharesIn(keys, gs + [g]) == SharesIn(keys, gs) + SharesOf(keys, g)
  {
    if keys != [] {
      var n := |keys| - 1;
      assert keys == keys[..n] + [keys[n]];
      SharesSnoc(keys[..n], gs, g);
      SumForSnoc(gs, g, keys[n]);
    }
  }

  lemma {:induction false} NoShares(keys: seq<Key>)
    ensures SharesIn(keys, []) == 0.0
  {
    if keys != [] {
      NoShares(keys[..|keys| - 1]);
    }
  }

  lemma {:induction false} SharesAreTimeIn(sc: Scrape, gs: seq<Goroutine>)
    requires Distinct(ObservedKeys(sc))
    requires forall g :: 0 <= g < |gs| ==> gs[g].Done? && (gs[g].key in ObservedKeys(sc) <==> Reached(sc, gs[g].key))
    ensures SharesIn(ObservedKeys(sc), gs) == TimeIn(sc, gs)
    decreases |gs|
  {
    if gs == [] {
      NoShares(ObservedKeys(sc));
    } else {
      var n := |gs| - 1;
      SharesAreTimeIn(sc, gs[..n]);
      SharesSnoc(ObservedKeys(sc), gs[..n], gs[n]);
      assert gs == gs[..n] + [gs[n]];
    }
  }

  lemma {:induction false} SumOverIsShares(durations: map<Key, real>, keys: seq<Key>, gs: seq<Goroutine>)
    requires SumInv(gs, durations)
    ensures SumOver(durations, keys) == SharesIn(keys, gs)
  {
    if keys != [] {
      SumOverIsShares(durations, keys[..|keys| - 1], gs);
    }
  }

  lemma {:induction false} NothingReached(sc: Scrape, gs: seq<Goroutine>)
    requires sc.phase.Gathering? || sc.phase.Joined?
    ensures TimeIn(sc, gs) == 0.0
  {
    if gs != [] {
      NothingReached(sc, gs[..|gs| - 1]);
    }
  }

  lemma ObservedAreDistinct(sc: Scrape)
    requires ScrapeInv(sc)
    ensures Distinct(ObservedKeys(sc))
  {
    if sc.phase.Observing? || sc.phase.Finished? {
      SortedIsDistinct(sc.keys);
    }
  }

  lemma WholeIsTimeIn(sc: Scrape)
    requires ScrapeInv(sc)
    ensures Whole(sc) == TimeIn(sc, sc.goroutines)
  {
    if sc.phase.Gathering? || sc.phase.Joined? {
      NothingReached(sc, sc.goroutines);
    } else {
      ObservedAreDistinct(sc);
      forall g | 0 <= g < |sc.goroutines|
        ensures sc.goroutines[g].key in ObservedKeys(sc) <==> Reached(sc, sc.goroutines[g].key)
      {
        ReachedKeys(sc, sc.goroutines[g].key);
        JoinedMapIsExact(sc, sc.goroutines[g].key);
      }
      SumOverIsShares(sc.durations, ObservedKeys(sc), sc.goroutines);
      SharesAreTimeIn(sc, sc.goroutines);
    }
  }

  lemma {:induction false} GrandIsAddedTime(scrapes: seq<Scrape>)
    requires ScrapesInv(scrapes)
    ensures Grand(scrapes) == AddedTime(scrapes)
    decreases |scrapes|
  {
    if scrapes != [] {
      GrandIsAddedTime(scrapes[..|scrapes| - 1]);
      WholeIsTimeIn(scrapes[|scrapes| - 1]);
    }
  }

  /** At every moment the sums of all keys together are the time of the records that have been added. */
  lemma RecordsAreConserved(schedule: seq<Step>)
    ensures SumMap(Sums(Exec(schedule).totals)) == AddedTime(Exec(schedule).scrapes)
  {
    AlwaysTotals(schedule);
    AlwaysScrapes(schedule);
    GrandIsAddedTime(Exec(schedule).scrapes);
  }

  /**
    Ordering: in lock order, the pairs emitted for a key are its prefix totals 1, 2, 3,
    ..., each grown by what its scrape measured, and they end in the current total. A
    scrape emits each of its keys once, in sorted order.
   */
  lemma EmittedTotalsArePrefixes(schedule: seq<Step>, key: Key, s: nat)
    ensures var st := Exec(schedule);
            && PrefixTotals(LogFor(st.log, key))
            && LastTotal(LogFor(st.log, key)) == TotalOf(st.totals, key)
            && (s < |st.scrapes| && st.scrapes[s].phase.Finished? ==>
                  KeysOf(KeysEmittedBy(st.log, s), st.scrapes[s].durations))
  {
    AlwaysLog(schedule);
    AlwaysScrapes(schedule);
    if s < |Exec(schedule).scrapes| {
      assert ScrapeInv(Exec(schedule).scrapes[s]);
    }
  }

  /**
    Refinement: when a scrape is about to release the registry's mutex, the interleaved
    loads and stores have changed the totals and emitted the summaries exactly as one
    undisturbed call of `Registry.ObserveScrapeDurations` on the scrape's map would.
   */
  lemma CriticalSectionIsOneObservation(schedule: seq<Step>, s: nat)
    requires s < |Exec(schedule).scrapes| && Exec(schedule).scrapes[s].phase.Observing?
    requires Exec(schedule).scrapes[s].phase.next == |Exec(schedule).scrapes[s].keys|
    ensures var sc := Exec(schedule).scrapes[s];
            && KeysOf(sc.keys, sc.durations)
            && Exec(schedule).totals == Folded(sc.phase.base, sc.durations, sc.durations.Keys)
            && EmittedBy(Exec(schedule).log, s) == Summaries(sc.phase.base, sc.durations, sc.keys)
  {
    var sc := Exec(schedule).scrapes[s];
    AlwaysSection(schedule);
    AlwaysScrapes(schedule);
    StepsAreTame(schedule, Unlock(s));
    assert HalfDone(Exec(schedule), s) && ScrapeInv(sc);
    assert sc.keys[..|sc.keys|] == sc.keys;
  }
}
