/**
  What the scrape durations are in terms of what happened: the calls of `Collect` that
  began, the sources that their collectors recorded, and how and when these returned. All
  of it is read off the schedule alone.
 */
module ScrapeReturns {
  import opened Wrappers
  import opened ScrapeTotals
  import opened ScrapeProtocol
  import opened ScrapeTheorems

  // ---------------------------------------------------------------- what happened

  /** How a collector ended. */
  datatype Ended = Ended(key: Key, duration: real)

  /** The collectors of every scrape that has begun, by their source names. */
  function Begun(schedule: seq<Step>): seq<seq<string>> {
    if schedule == [] then []
    else
      var last := schedule[|schedule| - 1];
      Begun(schedule[..|schedule| - 1]) + if last.Begin? then [last.collectors] else []
  }

  /** The number of collectors of scrape `s` that run, or have run. */
  function Spawned(schedule: seq<Step>, s: nat): nat {
    if schedule == [] then 0
    else
      var front, last := schedule[..|schedule| - 1], schedule[|schedule| - 1];
      if last == Inside(s, Spawn) && s < |Begun(front)| && Spawned(front, s) < |Begun(front)[s]|
      then Spawned(front, s) + 1 else Spawned(front, s)
  }

  /** Collector `g` of scrape `s` takes this step while it runs. */
  predicate Runs(schedule: seq<Step>, s: nat, g: nat, i: nat) {
    i < |schedule| && g < Spawned(schedule[..i], s)
  }

  predicate IsRecord(step: Step, s: nat, g: nat) {
    step.Inside? && step.s == s && step.step.Record? && step.step.g == g && step.step.source != ""
  }

  predicate IsReturn(step: Step, s: nat, g: nat) {
    step.Inside? && step.s == s && step.step.Return? && step.step.g == g
  }

  predicate RecordsAt(schedule: seq<Step>, s: nat, g: nat, i: nat) {
    Runs(schedule, s, g, i) && IsRecord(schedule[i], s, g)
  }

  predicate ReturnsAt(schedule: seq<Step>, s: nat, g: nat, i: nat) {
    Runs(schedule, s, g, i) && IsReturn(schedule[i], s, g)
  }

  /** Step `i` is the return of collector `g` of scrape `s`: the first since it was spawned. */
  ghost predicate ReturnsFirstAt(schedule: seq<Step>, s: nat, g: nat, i: nat) {
    ReturnsAt(schedule, s, g, i) && forall j :: 0 <= j < i ==> !ReturnsAt(schedule, s, g, j)
  }

  /** Step `j` is the last before `i` at which the collector recorded a source. */
  ghost predicate RecordsLastAt(schedule: seq<Step>, s: nat, g: nat, i: nat, j: nat) {
    j < i && RecordsAt(schedule, s, g, j) && forall k :: j < k < i ==> !RecordsAt(schedule, s, g, k)
  }

  ghost predicate RecordsNone(schedule: seq<Step>, s: nat, g: nat, i: nat) {
    forall k :: 0 <= k < i ==> !RecordsAt(schedule, s, g, k)
  }

  /** The source that the scrape's `Begin` names for the collector. */
  predicate OwnName(schedule: seq<Step>, s: nat, g: nat, source: string) {
    s < |Begun(schedule)| && g < |Begun(schedule)[s]| && source == Begun(schedule)[s][g]
  }

  ghost predicate RecordedLast(schedule: seq<Step>, s: nat, g: nat, i: nat, source: string) {
    exists j: nat :: RecordsLastAt(schedule, s, g, i, j) && source == schedule[j].step.source
  }

  /** The source of a collector at step `i`: the one it recorded last, or else its own name. */
  ghost predicate HasSource(schedule: seq<Step>, s: nat, g: nat, i: nat, source: string) {
    RecordedLast(schedule, s, g, i, source) || (RecordsNone(schedule, s, g, i) && OwnName(schedule, s, g, source))
  }

  /** The end of a collector is its return: its key and its duration are those of that step. */
  ghost predicate EndsAt(schedule: seq<Step>, s: nat, g: nat, i: nat, end: Ended) {
    && ReturnsFirstAt(schedule, s, g, i)
    && end.duration == schedule[i].step.duration
    && end.key.result == (if schedule[i].step.ok then "success" else "error")
    && HasSource(schedule, s, g, i, end.key.source)
  }

  // --------------------------------------------------------- the same, by recursion

  function SourceOf(schedule: seq<Step>, s: nat, g: nat): string {
    if schedule == [] then ""
    else
      var front, last := schedule[..|schedule| - 1], schedule[|schedule| - 1];
      if g < Spawned(front, s) then if IsRecord(last, s, g) then last.step.source else SourceOf(front, s, g)
      else if s < |Begun(front)| && g < |Begun(front)[s]| then Begun(front)[s][g] else ""
  }

  /** How collector `g` of scrape `s` ended, once it has. */
  function EndOf(schedule: seq<Step>, s: nat, g: nat): Option<Ended> {
    if schedule == [] then None
    else
      var front, last := schedule[..|schedule| - 1], schedule[|schedule| - 1];
      if EndOf(front, s, g).None? && g < Spawned(front, s) && IsReturn(last, s, g)
      then Some(Ended(Key(SourceOf(front, s, g), if last.step.ok then "success" else "error"), last.step.duration))
      else EndOf(front, s, g)
  }

  // --------------------------------------------------------- records and what happened

  /** A goroutine's record is that of what its collector did. */
  predicate Agrees(gr: Goroutine, source: string, end: Option<Ended>) {
    if gr.Collecting? then end.None? && gr.source == source
    else end == Some(Ended(gr.key, gr.duration))
  }

  predicate ScrapeAgrees(schedule: seq<Step>, sc: Scrape, s: nat) {
    && s < |Begun(schedule)| && sc.collectors == Begun(schedule)[s]
    && |sc.goroutines| == Spawned(schedule, s) <= |sc.collectors|
    && forall g :: 0 <= g < |sc.goroutines| ==> Agrees(sc.goroutines[g], SourceOf(schedule, s, g), EndOf(schedule, s, g))
  }

  ghost predicate AllAgree(schedule: seq<Step>) {
    && |Exec(schedule).scrapes| == |Begun(schedule)|
    && forall s :: 0 <= s < |Begun(schedule)| ==> ScrapeAgrees(schedule, Exec(schedule).scrapes[s], s)
  }

  lemma {:induction false} NotBegunNotSpawned(schedule: seq<Step>, s: nat)
    requires s >= |Begun(schedule)|
    ensures Spawned(schedule, s) == 0
  {
    if schedule != [] {
      NotBegunNotSpawned(schedule[..|schedule| - 1], s);
    }
  }

  lemma {:induction false} NotSpawnedNotEnded(schedule: seq<Step>, s: nat, g: nat)
    requires g >= Spawned(schedule, s)
    ensures EndOf(schedule, s, g).None?
  {
    if schedule != [] {
      NotSpawnedNotEnded(schedule[..|schedule| - 1], s, g);
    }
  }

  /** What one step inside scrape `s` does to one of its goroutines. */
  lemma StepAgrees(front: seq<Step>, inner: ScrapeStep, sc: Scrape, s: nat)
    requires ScrapeAgrees(front, sc, s)
    ensures ScrapeAgrees(front + [Inside(s, inner)], ScrapeNext(sc, inner), s)
  {
    var schedule, x := front + [Inside(s, inner)], ScrapeNext(sc, inner);
    assert schedule[..|schedule| - 1] == front;
    forall g | 0 <= g < |x.goroutines|
      ensures Agrees(x.goroutines[g], SourceOf(schedule, s, g), EndOf(schedule, s, g))
    {
      if g < |sc.goroutines| {
        assert Agrees(sc.goroutines[g], SourceOf(front, s, g), EndOf(front, s, g));
      } else {
        NotSpawnedNotEnded(front, s, g);
      }
    }
  }

  /** A step elsewhere changes nothing of what the collectors of a scrape have done. */
  lemma OtherStepAgrees(front: seq<Step>, step: Step, sc: Scrape, x: Scrape, s: nat)
    requires ScrapeAgrees(front, sc, s)
    requires !(step.Inside? && step.s == s)
    requires x.collectors == sc.collectors && x.goroutines == sc.goroutines
    ensures ScrapeAgrees(front + [step], x, s)
  {
    var schedule := front + [step];
    assert schedule[..|schedule| - 1] == front;
    forall g | 0 <= g < |x.goroutines|
      ensures Agrees(x.goroutines[g], SourceOf(schedule, s, g), EndOf(schedule, s, g))
    {
      assert Agrees(sc.goroutines[g], SourceOf(front, s, g), EndOf(front, s, g));
    }
  }

  lemma BeginAgrees(front: seq<Step>, collectors: seq<string>)
    ensures ScrapeAgrees(front + [Begin(collectors)], NewScrape(collectors), |Begun(front)|)
  {
    var schedule := front + [Begin(collectors)];
    assert schedule[..|schedule| - 1] == front;
    NotBegunNotSpawned(front, |Begun(front)|);
  }

  lemma KeepsGoroutines(st: State, step: Step, s: nat)
    requires s < |st.scrapes| && !(step.Inside? && step.s == s)
    ensures s < |Next(st, step).scrapes|
    ensures Next(st, step).scrapes[s].collectors == st.scrapes[s].collectors
    ensures Next(st, step).scrapes[s].goroutines == st.scrapes[s].goroutines
  {
  }

  lemma AgreesStep(front: seq<Step>, step: Step)
    requires AllAgree(front)
    ensures AllAgree(front + [step])
  {
    var st, schedule := Exec(front), front + [step];
    assert schedule[..|schedule| - 1] == front;
    forall s | 0 <= s < |Begun(schedule)|
      ensures ScrapeAgrees(schedule, Next(st, step).scrapes[s], s)
    {
      if s == |Begun(front)| {
        BeginAgrees(front, step.collectors);
      } else if step.Inside? && step.s == s {
        StepAgrees(front, step.step, st.scrapes[s], s);
      } else {
        KeepsGoroutines(st, step, s);
        OtherStepAgrees(front, step, st.scrapes[s], Next(st, step).scrapes[s], s);
      }
    }
  }

  lemma {:induction false} AlwaysAgree(schedule: seq<Step>)
    ensures AllAgree(schedule)
    decreases |schedule|
  {
    if schedule != [] {
      var n := |schedule| - 1;
      AlwaysAgree(schedule[..n]);
      AgreesStep(schedule[..n], schedule[n]);
      assert schedule == schedule[..n] + [schedule[n]];
    }
  }

  // ------------------------------------------------------- the recursion is exact

  lemma BegunStays(schedule: seq<Step>, n: nat, s: nat)
    requires n <= |schedule| && s < |Begun(schedule[..n])|
    ensures s < |Begun(schedule)| && Begun(schedule)[s] == Begun(schedule[..n])[s]
    decreases |schedule|
  {
    if n < |schedule| {
      var m := |schedule| - 1;
      assert schedule[..m][..n] == schedule[..n];
      BegunStays(schedule[..m], n, s);
    } else {
      assert schedule[..n] == schedule;
    }
  }

  lemma {:induction false} SpawnedHasBegun(schedule: seq<Step>, s: nat)
    ensures Spawned(schedule, s) > 0 ==> s < |Begun(schedule)| && Spawned(schedule, s) <= |Begun(schedule)[s]|
  {
    if schedule != [] {
      SpawnedHasBegun(schedule[..|schedule| - 1], s);
    }
  }

  /** What happened in the first `n` steps happened so in the whole schedule. */
  lemma Before(schedule: seq<Step>, s: nat, g: nat, n: nat)
    requires n <= |schedule|
    ensures forall i: nat :: i < n ==> (RecordsAt(schedule[..n], s, g, i) <==> RecordsAt(schedule, s, g, i))
    ensures forall i: nat :: i < n ==> (ReturnsAt(schedule[..n], s, g, i) <==> ReturnsAt(schedule, s, g, i))
  {
    forall i: nat | i < n
      ensures RecordsAt(schedule[..n], s, g, i) <==> RecordsAt(schedule, s, g, i)
      ensures ReturnsAt(schedule[..n], s, g, i) <==> ReturnsAt(schedule, s, g, i)
    {
      assert schedule[..n][..i] == schedule[..i];
    }
  }

  lemma {:induction false} SpawnedGrows(schedule: seq<Step>, s: nat, i: nat)
    requires i <= |schedule|
    ensures Spawned(schedule[..i], s) <= Spawned(schedule, s)
    decreases |schedule|
  {
    if i == |schedule| {
      assert schedule[..i] == schedule;
    } else {
      assert schedule[..|schedule| - 1][..i] == schedule[..i];
      SpawnedGrows(schedule[..|schedule| - 1], s, i);
    }
  }

  /** A collector that has not been spawned has done nothing. */
  lemma NothingDone(schedule: seq<Step>, s: nat, g: nat)
    requires g >= Spawned(schedule, s)
    ensures forall i: nat :: i < |schedule| ==> !RecordsAt(schedule, s, g, i) && !ReturnsAt(schedule, s, g, i)
  {
    forall i: nat | i < |schedule|
      ensures !Runs(schedule, s, g, i)
    {
      SpawnedGrows(schedule, s, i);
    }
  }

  lemma HasSourceStays(schedule: seq<Step>, s: nat, g: nat, n: nat, i: nat, source: string)
    requires i <= n <= |schedule| && HasSource(schedule[..n], s, g, i, source)
    ensures HasSource(schedule, s, g, i, source)
  {
    Before(schedule, s, g, n);
    if RecordedLast(schedule[..n], s, g, i, source) {
      var j: nat :| RecordsLastAt(schedule[..n], s, g, i, j) && source == schedule[..n][j].step.source;
      assert RecordsLastAt(schedule, s, g, i, j);
    } else {
      BegunStays(schedule, n, s);
    }
  }

  /** A step that records nothing leaves the source. */
  lemma SourceStays(schedule: seq<Step>, s: nat, g: nat, n: nat, source: string)
    requires n < |schedule| && HasSource(schedule, s, g, n, source) && !RecordsAt(schedule, s, g, n)
    ensures HasSource(schedule, s, g, n + 1, source)
  {
    if RecordedLast(schedule, s, g, n, source) {
      var j: nat :| RecordsLastAt(schedule, s, g, n, j) && source == schedule[j].step.source;
      assert RecordsLastAt(schedule, s, g, n + 1, j);
    }
  }

  lemma NameBegins(schedule: seq<Step>, s: nat, g: nat)
    requires schedule != []
    requires Spawned(schedule[..|schedule| - 1], s) <= g < Spawned(schedule, s)
    ensures OwnName(schedule, s, g, SourceOf(schedule, s, g))
  {
    SpawnedHasBegun(schedule, s);
    BegunStays(schedule, |schedule| - 1, s);
  }

  lemma NothingRecordedYet(schedule: seq<Step>, s: nat, g: nat)
    requires schedule != [] && Spawned(schedule[..|schedule| - 1], s) <= g
    ensures RecordsNone(schedule, s, g, |schedule|)
  {
    var n := |schedule| - 1;
    NothingDone(schedule[..n], s, g);
    Before(schedule, s, g, n);
  }

  lemma SourceBegins(schedule: seq<Step>, s: nat, g: nat)
    requires schedule != []
    requires Spawned(schedule[..|schedule| - 1], s) <= g < Spawned(schedule, s)
    ensures HasSource(schedule, s, g, |schedule|, SourceOf(schedule, s, g))
  {
    NameBegins(schedule, s, g);
    NothingRecordedYet(schedule, s, g);
  }

  /** While a collector runs, its source is as the schedule says. */
  lemma {:induction false} SourceIsLast(schedule: seq<Step>, s: nat, g: nat)
    requires g < Spawned(schedule, s)
    ensures HasSource(schedule, s, g, |schedule|, SourceOf(schedule, s, g))
    decreases |schedule|
  {
    var n := |schedule| - 1;
    if g >= Spawned(schedule[..n], s) {
      SourceBegins(schedule, s, g);
    } else if IsRecord(schedule[n], s, g) {
      assert RecordsLastAt(schedule, s, g, n + 1, n);
    } else {
      SourceIsLast(schedule[..n], s, g);
      HasSourceStays(schedule, s, g, n, n, SourceOf(schedule, s, g));
      SourceStays(schedule, s, g, n, SourceOf(schedule, s, g));
    }
  }

  lemma EndStays(schedule: seq<Step>, s: nat, g: nat, n: nat, i: nat, end: Ended)
    requires n <= |schedule| && EndsAt(schedule[..n], s, g, i, end)
    ensures EndsAt(schedule, s, g, i, end)
  {
    Before(schedule, s, g, n);
    HasSourceStays(schedule, s, g, n, i, end.key.source);
  }

  lemma ReturnEnds(schedule: seq<Step>, s: nat, g: nat)
    requires schedule != []
    requires var n := |schedule| - 1;
             && g < Spawned(schedule[..n], s) && IsReturn(schedule[n], s, g)
             && EndOf(schedule[..n], s, g).None?
             && forall i: nat :: i < n ==> !ReturnsAt(schedule[..n], s, g, i)
    ensures EndsAt(schedule, s, g, |schedule| - 1, EndOf(schedule, s, g).value)
  {
    var n := |schedule| - 1;
    Before(schedule, s, g, n);
    SourceIsLast(schedule[..n], s, g);
    HasSourceStays(schedule, s, g, n, n, SourceOf(schedule[..n], s, g));
    var result := if schedule[n].step.ok then "success" else "error";
    assert EndOf(schedule, s, g) == Some(Ended(Key(SourceOf(schedule[..n], s, g), result), schedule[n].step.duration));
  }

  ghost predicate HasEnd(schedule: seq<Step>, s: nat, g: nat, end: Ended) {
    exists i: nat :: EndsAt(schedule, s, g, i, end)
  }

  /** `EndOf` is what the schedule says: the return of the collector, or none so far. */
  lemma {:induction false} EndIsReturn(schedule: seq<Step>, s: nat, g: nat)
    ensures EndOf(schedule, s, g).Some? ==> HasEnd(schedule, s, g, EndOf(schedule, s, g).value)
    ensures EndOf(schedule, s, g).None? ==> forall i: nat :: i < |schedule| ==> !ReturnsAt(schedule, s, g, i)
    decreases |schedule|
  {
    if schedule != [] {
      var n := |schedule| - 1;
      EndIsReturn(schedule[..n], s, g);
      if EndOf(schedule[..n], s, g).Some? {
        var end := EndOf(schedule[..n], s, g).value;
        var i: nat :| EndsAt(schedule[..n], s, g, i, end);
        EndStays(schedule, s, g, n, i, end);
      } else if g < Spawned(schedule[..n], s) && IsReturn(schedule[n], s, g) {
        ReturnEnds(schedule, s, g);
      } else {
        Before(schedule, s, g, n);
      }
    }
  }

  // --------------------------------------------------------------------- theorems

  /**
    What a goroutine records is what its collector did: it collects until the first return
    of its collector; from then on its duration is that of the return, its result is
    "success" or "error" as the return was, and its source is the last one recorded since
    the spawn, or else the collector's own.
   */
  lemma RecordsAreReturns(schedule: seq<Step>, s: nat, g: nat)
    requires s < |Exec(schedule).scrapes| && g < |Exec(schedule).scrapes[s].goroutines|
    ensures var gr := Exec(schedule).scrapes[s].goroutines[g];
            && (gr.Collecting? ==> HasSource(schedule, s, g, |schedule|, gr.source))
            && (gr.Collecting? ==> forall i: nat :: i < |schedule| ==> !ReturnsAt(schedule, s, g, i))
            && (!gr.Collecting? ==> HasEnd(schedule, s, g, Ended(gr.key, gr.duration)))
  {
    AlwaysAgree(schedule);
    var sc := Exec(schedule).scrapes[s];
    assert ScrapeAgrees(schedule, sc, s);
    assert Agrees(sc.goroutines[g], SourceOf(schedule, s, g), EndOf(schedule, s, g));
    EndIsReturn(schedule, s, g);
    SourceIsLast(schedule, s, g);
  }

  /** A collector ends in one way. */
  lemma EndIsUnique(schedule: seq<Step>, s: nat, g: nat, a: Ended, b: Ended)
    requires HasEnd(schedule, s, g, a) && HasEnd(schedule, s, g, b)
    ensures a == b
  {
    var i: nat :| EndsAt(schedule, s, g, i, a);
    var j: nat :| EndsAt(schedule, s, g, j, b);
    assert i == j;
    SourceIsUnique(schedule, s, g, i, a.key.source, b.key.source);
  }

  lemma SourceIsUnique(schedule: seq<Step>, s: nat, g: nat, i: nat, a: string, b: string)
    requires HasSource(schedule, s, g, i, a) && HasSource(schedule, s, g, i, b)
    ensures a == b
  {
    if RecordedLast(schedule, s, g, i, a) && RecordedLast(schedule, s, g, i, b) {
      var j: nat :| RecordsLastAt(schedule, s, g, i, j) && a == schedule[j].step.source;
      var k: nat :| RecordsLastAt(schedule, s, g, i, k) && b == schedule[k].step.source;
      assert j == k;
    }
  }

  // ------------------------------------------------------- durations, from the returns

  /** The time that the first `n` collectors of a scrape took that ended with `key`. */
  function TimeEnded(schedule: seq<Step>, s: nat, n: nat, key: Key): real {
    if n == 0 then 0.0
    else
      var end := EndOf(schedule, s, n - 1);
      TimeEnded(schedule, s, n - 1, key) + if end.Some? && end.value.key == key then end.value.duration else 0.0
  }

  /** Some collector of the scrape ended with `key`. */
  predicate SomeEnded(schedule: seq<Step>, s: nat, n: nat, key: Key) {
    exists g :: 0 <= g < n && EndOf(schedule, s, g).Some? && EndOf(schedule, s, g).value.key == key
  }

  lemma {:induction false} SharesAreEnds(schedule: seq<Step>, s: nat, gs: seq<Goroutine>, key: Key)
    requires forall g :: 0 <= g < |gs| ==> gs[g].Done? && EndOf(schedule, s, g) == Some(Ended(gs[g].key, gs[g].duration))
    ensures SumFor(gs, key) == TimeEnded(schedule, s, |gs|, key)
  {
    if gs != [] {
      SharesAreEnds(schedule, s, gs[..|gs| - 1], key);
    }
  }

  /** Past the join every goroutine has what its collector ended with. */
  lemma AllHaveEnded(schedule: seq<Step>, s: nat)
    requires s < |Exec(schedule).scrapes| && !Exec(schedule).scrapes[s].phase.Gathering?
    ensures s < |Begun(schedule)|
    ensures var gs := Exec(schedule).scrapes[s].goroutines;
            && |gs| == |Begun(schedule)[s]|
            && forall g :: 0 <= g < |gs| ==> gs[g].Done? && EndOf(schedule, s, g) == Some(Ended(gs[g].key, gs[g].duration))
  {
    AlwaysAgree(schedule);
    AlwaysScrapes(schedule);
    var sc := Exec(schedule).scrapes[s];
    assert ScrapeAgrees(schedule, sc, s) && ScrapeInv(sc);
    forall g | 0 <= g < |sc.goroutines|
      ensures EndOf(schedule, s, g) == Some(Ended(sc.goroutines[g].key, sc.goroutines[g].duration))
    {
      assert Agrees(sc.goroutines[g], SourceOf(schedule, s, g), EndOf(schedule, s, g));
    }
  }

  /**
    Exact sums per scrape: once `wg.Wait` has returned, every collector of the scrape's
    `Begin` has returned, and the scrape's map holds under each source and result exactly
    the time that the collectors took that ended with it, and no other key.
   */
  lemma GatheredDurationsAreExact(schedule: seq<Step>, s: nat, key: Key)
    requires s < |Exec(schedule).scrapes| && !Exec(schedule).scrapes[s].phase.Gathering?
    ensures s < |Begun(schedule)|
    ensures var n, durations := |Begun(schedule)[s]|, Exec(schedule).scrapes[s].durations;
            && (forall g :: 0 <= g < n ==> EndOf(schedule, s, g).Some?)
            && DurationOf(durations, key) == TimeEnded(schedule, s, n, key)
            && (key in durations <==> SomeEnded(schedule, s, n, key))
  {
    AllHaveEnded(schedule, s);
    GatheredRecordsAreExact(schedule, s, key);
    var gs := Exec(schedule).scrapes[s].goroutines;
    SharesAreEnds(schedule, s, gs, key);
    forall g | 0 <= g < |gs|
      ensures EndOf(schedule, s, g) == Some(Ended(gs[g].key, gs[g].duration))
    {
    }
  }

  /** The number of the first `m` scrapes that have added `key`, one each. */
  function ScrapesAdding(schedule: seq<Step>, scrapes: seq<Scrape>, m: nat, key: Key): nat
    requires m <= |scrapes| && m <= |Begun(schedule)|
  {
    if m == 0 then 0
    else
      ScrapesAdding(schedule, scrapes, m - 1, key)
      + if Reached(scrapes[m - 1], key) && SomeEnded(schedule, m - 1, |Begun(schedule)[m - 1]|, key) then 1 else 0
  }

  /** The time that their collectors took that ended with `key`. */
  function TimeAdded(schedule: seq<Step>, scrapes: seq<Scrape>, m: nat, key: Key): real
    requires m <= |scrapes| && m <= |Begun(schedule)|
  {
    if m == 0 then 0.0
    else
      TimeAdded(schedule, scrapes, m - 1, key)
      + if Reached(scrapes[m - 1], key) then TimeEnded(schedule, m - 1, |Begun(schedule)[m - 1]|, key) else 0.0
  }

  lemma ReachedHasEnded(schedule: seq<Step>, s: nat, key: Key)
    requires s < |Exec(schedule).scrapes| && Reached(Exec(schedule).scrapes[s], key)
    ensures s < |Begun(schedule)|
    ensures Added(Exec(schedule).scrapes[s], key) <==> SomeEnded(schedule, s, |Begun(schedule)[s]|, key)
    ensures SumFor(Exec(schedule).scrapes[s].goroutines, key) == TimeEnded(schedule, s, |Begun(schedule)[s]|, key)
  {
    AllHaveEnded(schedule, s);
    var gs := Exec(schedule).scrapes[s].goroutines;
    SharesAreEnds(schedule, s, gs, key);
    if g :| 0 <= g < |gs| && EndedWith(gs[g], key) {
      assert EndOf(schedule, s, g).value.key == key;
    }
    if g :| 0 <= g < |gs| && EndOf(schedule, s, g).Some? && EndOf(schedule, s, g).value.key == key {
      assert EndedWith(gs[g], key);
    }
  }

  lemma {:induction false} AddedAreEnds(schedule: seq<Step>, m: nat, key: Key)
    requires m <= |Exec(schedule).scrapes| && m <= |Begun(schedule)|
    ensures ScrapesWith(Exec(schedule).scrapes[..m], key) == ScrapesAdding(schedule, Exec(schedule).scrapes, m, key)
    ensures TimeWith(Exec(schedule).scrapes[..m], key) == TimeAdded(schedule, Exec(schedule).scrapes, m, key)
  {
    if m > 0 {
      var scrapes := Exec(schedule).scrapes;
      assert scrapes[..m][..m - 1] == scrapes[..m - 1];
      AddedAreEnds(schedule, m - 1, key);
      if Reached(scrapes[m - 1], key) {
        ReachedHasEnded(schedule, m - 1, key);
      }
    }
  }

  /**
    Exact totals, at every moment: a key's count is the number of scrapes that have added
    it, one each however many of their collectors ended with it, and its sum is the time
    of those collectors. A scrape has added a key if a collector of it ended so, and it
    has finished or is past the key.
   */
  lemma TotalsAreExact(schedule: seq<Step>, key: Key)
    ensures |Begun(schedule)| == |Exec(schedule).scrapes|
    ensures var scrapes, m := Exec(schedule).scrapes, |Begun(schedule)|;
            TotalOf(Exec(schedule).totals, key)
            == Total(ScrapesAdding(schedule, scrapes, m, key), TimeAdded(schedule, scrapes, m, key))
  {
    AlwaysAgree(schedule);
    TotalsOfRecords(schedule, key);
    AddedAreEnds(schedule, |Begun(schedule)|, key);
    assert Exec(schedule).scrapes[..|Begun(schedule)|] == Exec(schedule).scrapes;
  }

  /** The time of the first `n` collectors of a scrape whose key it has added. */
  function AllTimeEnded(schedule: seq<Step>, sc: Scrape, s: nat, n: nat): real {
    if n == 0 then 0.0
    else
      var end := EndOf(schedule, s, n - 1);
      AllTimeEnded(schedule, sc, s, n - 1) + if end.Some? && Reached(sc, end.value.key) then end.value.duration else 0.0
  }

  function AllTimeAdded(schedule: seq<Step>, scrapes: seq<Scrape>, m: nat): real
    requires m <= |scrapes| && m <= |Begun(schedule)|
  {
    if m == 0 then 0.0
    else AllTimeAdded(schedule, scrapes, m - 1) + AllTimeEnded(schedule, scrapes[m - 1], m - 1, |Begun(schedule)[m - 1]|)
  }

  lemma {:induction false} TimeInIsEnded(schedule: seq<Step>, sc: Scrape, s: nat, gs: seq<Goroutine>)
    requires forall g :: 0 <= g < |gs| ==> Agrees(gs[g], SourceOf(schedule, s, g), EndOf(schedule, s, g))
    ensures TimeIn(sc, gs) == AllTimeEnded(schedule, sc, s, |gs|)
  {
    if gs != [] {
      TimeInIsEnded(schedule, sc, s, gs[..|gs| - 1]);
    }
  }

  lemma {:induction false} UnspawnedTakeNoTime(schedule: seq<Step>, sc: Scrape, s: nat, n: nat)
    requires Spawned(schedule, s) <= n
    ensures AllTimeEnded(schedule, sc, s, n) == AllTimeEnded(schedule, sc, s, Spawned(schedule, s))
  {
    if n > Spawned(schedule, s) {
      UnspawnedTakeNoTime(schedule, sc, s, n - 1);
      NotSpawnedNotEnded(schedule, s, n - 1);
    }
  }

  lemma {:induction false} AddedTimeIsEnds(schedule: seq<Step>, m: nat)
    requires AllAgree(schedule) && m <= |Begun(schedule)|
    ensures AddedTime(Exec(schedule).scrapes[..m]) == AllTimeAdded(schedule, Exec(schedule).scrapes, m)
  {
    if m > 0 {
      var scrapes := Exec(schedule).scrapes;
      assert scrapes[..m][..m - 1] == scrapes[..m - 1];
      AddedTimeIsEnds(schedule, m - 1);
      assert ScrapeAgrees(schedule, scrapes[m - 1], m - 1);
      TimeInIsEnded(schedule, scrapes[m - 1], m - 1, scrapes[m - 1].goroutines);
      UnspawnedTakeNoTime(schedule, scrapes[m - 1], m - 1, |Begun(schedule)[m - 1]|);
    }
  }

  /**
    Conservation, at every moment: the sums of all keys together are the time of all the
    collectors that returned and whose key their scrape has added; of a finished scrape,
    of all its collectors.
   */
  lemma DurationsAreConserved(schedule: seq<Step>, s: nat, key: Key)
    ensures |Begun(schedule)| == |Exec(schedule).scrapes|
    ensures SumMap(Sums(Exec(schedule).totals)) == AllTimeAdded(schedule, Exec(schedule).scrapes, |Begun(schedule)|)
    ensures s < |Begun(schedule)| && Exec(schedule).scrapes[s].phase.Finished? ==> Reached(Exec(schedule).scrapes[s], key)
  {
    AlwaysAgree(schedule);
    RecordsAreConserved(schedule);
    AddedTimeIsEnds(schedule, |Begun(schedule)|);
    assert Exec(schedule).scrapes[..|Begun(schedule)|] == Exec(schedule).scrapes;
  }
}
