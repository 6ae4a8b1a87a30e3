/**
  The scrape protocol as interleaved steps: any number of concurrent scrapes, each with
  one goroutine per collector. A goroutine adds its duration to its scrape's map under
  that scrape's mutex, in a load and a later store; once all have done so, the scrape
  adds its map to the shared totals under the registry's mutex, again key by key in a
  load and a later store. A step that is blocked leaves the state unchanged, so a
  schedule is any sequence of steps at all.
 */
module ScrapeProtocol {
  import opened ScrapeTotals

  // --------------------------------------------------------------------- states

  datatype Goroutine =
    | Collecting(source: string)                              // inside c.Collect
    | Returned(key: Key, duration: real)                      // wants the scrape's mutex
    | Loaded(key: Key, duration: real, seen: real)            // holds it, has read the map
    | Stored(key: Key, duration: real)                        // holds it, has written the map
    | Done(key: Key, duration: real)
  {
    predicate HoldsMutex() {
      Loaded? || Stored?
    }

    /** Its duration is in the scrape's map. */
    predicate Counted() {
      Stored? || Done?
    }
  }

  datatype Phase =
    | Gathering                                               // before wg.Wait returns
    | Joined                                                  // wants the registry's mutex
    | Observing(next: nat, seen: Total, loaded: bool, base: map<Key, Total>)
      // holds it; `base` records the totals when it took it and is never read by a step
    | Finished

  datatype Scrape = Scrape(
    collectors: seq<string>,                                  // the source name of each collector
    goroutines: seq<Goroutine>,
    mutex: int,                                               // the goroutine that holds it, or -1
    durations: map<Key, real>,
    phase: Phase,
    keys: seq<Key>)

  datatype Emitted = Emitted(scrape: nat, key: Key, total: Total, added: real)

  datatype State = State(
    scrapes: seq<Scrape>,
    mutex: int,                                               // the scrape that holds it, or -1
    totals: map<Key, Total>,
    log: seq<Emitted>)                                        // every summary emitted, in lock order

  const INIT := State([], -1, map[], [])

  // ---------------------------------------------------------------------- steps

  datatype ScrapeStep =
    | Spawn
    | Record(g: nat, source: string)
    | Return(g: nat, duration: real, ok: bool)
    | Acquire(g: nat)
    | Store(g: nat)
    | Release(g: nat)
    | Join

  datatype Step =
    | Begin(collectors: seq<string>)
    | Inside(s: nat, step: ScrapeStep)
    | Lock(s: nat)
    | Load(s: nat)
    | Update(s: nat)
    | Unlock(s: nat)

  function NewScrape(collectors: seq<string>): Scrape {
    Scrape(collectors, [], -1, map[], Gathering, [])
  }

  function ResultName(ok: bool): string {
    if ok then "success" else "error"
  }

  predicate AllDone(sc: Scrape) {
    |sc.goroutines| == |sc.collectors| && forall g :: 0 <= g < |sc.goroutines| ==> sc.goroutines[g].Done?
  }

  /** Some order of the keys of a map: the order that sorting makes definite. */
  ghost function OrderedKeys(durations: map<Key, real>): (keys: seq<Key>)
    ensures KeysOf(keys, durations)
  {
    EveryMapHasOrder(durations.Keys);
    var keys :| Sorted(keys) && forall k :: k in keys <==> k in durations.Keys;
    keys
  }

  lemma {:induction false} EveryMapHasOrder(ks: set<Key>)
    ensures exists keys :: Sorted(keys) && forall k :: k in keys <==> k in ks
  {
    if ks == {} {
      assert Sorted([]);
      assert forall k: Key :: k in [] <==> k in ks;
    } else {
      var key :| key in ks;
      EveryMapHasOrder(ks - {key});
      var rest :| Sorted(rest) && forall k :: k in rest <==> k in ks - {key};
      var keys := Insert(key, rest);
      forall k
        ensures k in keys <==> k in ks
      {
        assert k in keys <==> k in multiset(keys);
        assert k in rest <==> k in multiset(rest);
      }
    }
  }

  ghost function ScrapeNext(sc: Scrape, step: ScrapeStep): Scrape {
    var gs := sc.goroutines;
    match step
    case Spawn =>
      if |gs| < |sc.collectors| then sc.(goroutines := gs + [Collecting(sc.collectors[|gs|])]) else sc
    case Record(g, source) =>
      if g < |gs| && gs[g].Collecting? && source != "" then sc.(goroutines := gs[g := Collecting(source)]) else sc
    case Return(g, duration, ok) =>
      if g < |gs| && gs[g].Collecting? then
        sc.(goroutines := gs[g := Returned(Key(gs[g].source, ResultName(ok)), duration)])
      else sc
    case Acquire(g) =>
      if g < |gs| && gs[g].Returned? && sc.mutex == -1 then
        sc.(mutex := g, goroutines := gs[g := Loaded(gs[g].key, gs[g].duration, DurationOf(sc.durations, gs[g].key))])
      else sc
    case Store(g) =>
      if g < |gs| && gs[g].Loaded? then
        sc.(goroutines := gs[g := Stored(gs[g].key, gs[g].duration)],
            durations := sc.durations[gs[g].key := gs[g].seen + gs[g].duration])
      else sc
    case Release(g) =>
      if g < |gs| && gs[g].Stored? then
        sc.(mutex := -1, goroutines := gs[g := Done(gs[g].key, gs[g].duration)])
      else sc
    case Join =>
      if sc.phase.Gathering? && AllDone(sc) then sc.(phase := Joined, keys := OrderedKeys(sc.durations)) else sc
  }

  ghost function Next(st: State, step: Step): State {
    match step
    case Begin(collectors) => st.(scrapes := st.scrapes + [NewScrape(collectors)])
    case Inside(s, inner) =>
      if s < |st.scrapes| then st.(scrapes := st.scrapes[s := ScrapeNext(st.scrapes[s], inner)]) else st
    case Lock(s) =>
      if s < |st.scrapes| && st.scrapes[s].phase.Joined? && st.mutex == -1 then
        st.(mutex := s, scrapes := st.scrapes[s := st.scrapes[s].(phase := Observing(0, Total(0, 0.0), false, st.totals))])
      else st
    case Load(s) =>
      if s < |st.scrapes| && st.scrapes[s].phase.Observing? && !st.scrapes[s].phase.loaded
         && st.scrapes[s].phase.next < |st.scrapes[s].keys| then
        var sc := st.scrapes[s];
        var seen := TotalOf(st.totals, sc.keys[sc.phase.next]);
        st.(scrapes := st.scrapes[s := sc.(phase := Observing(sc.phase.next, seen, true, sc.phase.base))])
      else st
    case Update(s) =>
      if s < |st.scrapes| && st.scrapes[s].phase.Observing? && st.scrapes[s].phase.loaded
         && st.scrapes[s].phase.next < |st.scrapes[s].keys| then
        var sc := st.scrapes[s];
        var key := sc.keys[sc.phase.next];
        var added := DurationOf(sc.durations, key);
        var total := Total(sc.phase.seen.count + 1, sc.phase.seen.sum + added);
        State(st.scrapes[s := sc.(phase := Observing(sc.phase.next + 1, Total(0, 0.0), false, sc.phase.base))],
              st.mutex, st.totals[key := total], st.log + [Emitted(s, key, total, added)])
      else st
    case Unlock(s) =>
      if s < |st.scrapes| && st.scrapes[s].phase.Observing? && st.scrapes[s].phase.next == |st.scrapes[s].keys| then
        st.(mutex := -1, scrapes := st.scrapes[s := st.scrapes[s].(phase := Finished)])
      else st
  }

  /** The state after a schedule. */
  ghost function Exec(schedule: seq<Step>): State {
    if schedule == [] then INIT else Next(Exec(schedule[..|schedule| - 1]), schedule[|schedule| - 1])
  }

  // ------------------------------------------------------- sums over goroutines

  /** What a goroutine has added under `key`. */
  function Share(g: Goroutine, key: Key): real {
    if g.Counted() && g.key == key then g.duration else 0.0
  }

  function SumFor(gs: seq<Goroutine>, key: Key): real {
    if gs == [] then 0.0 else SumFor(gs[..|gs| - 1], key) + Share(gs[|gs| - 1], key)
  }

  function TotalDuration(gs: seq<Goroutine>): real {
    if gs == [] then 0.0
    else TotalDuration(gs[..|gs| - 1]) + if gs[|gs| - 1].Counted() then gs[|gs| - 1].duration else 0.0
  }

  lemma {:induction false} SumForUpdate(gs: seq<Goroutine>, g: nat, x: Goroutine, key: Key)
    requires g < |gs|
    ensures SumFor(gs[g := x], key) == SumFor(gs, key) - Share(gs[g], key) + Share(x, key)
  {
    var n := |gs| - 1;
    if g == n {
      assert gs[g := x][..n] == gs[..n];
    } else {
      assert gs[g := x][..n] == gs[..n][g := x];
      SumForUpdate(gs[..n], g, x, key);
    }
  }

  lemma {:induction false} TotalDurationUpdate(gs: seq<Goroutine>, g: nat, x: Goroutine)
    requires g < |gs|
    ensures TotalDuration(gs[g := x])
         == TotalDuration(gs) - (if gs[g].Counted() then gs[g].duration else 0.0) + (if x.Counted() then x.duration else 0.0)
  {
    var n := |gs| - 1;
    if g == n {
      assert gs[g := x][..n] == gs[..n];
    } else {
      assert gs[g := x][..n] == gs[..n][g := x];
      TotalDurationUpdate(gs[..n], g, x);
    }
  }

  lemma SumForSnoc(gs: seq<Goroutine>, x: Goroutine, key: Key)
    ensures SumFor(gs + [x], key) == SumFor(gs, key) + Share(x, key)
  {
    assert (gs + [x])[..|gs|] == gs;
  }

  lemma TotalDurationSnoc(gs: seq<Goroutine>, x: Goroutine)
    ensures TotalDuration(gs + [x]) == TotalDuration(gs) + if x.Counted() then x.duration else 0.0
  {
    assert (gs + [x])[..|gs|] == gs;
  }

  // --------------------------------------------------------------- sums over maps

  ghost function SumMap(m: map<Key, real>): real {
    if m == map[] then 0.0
    else
      var k :| k in m;
      m[k] + SumMap(m - {k})
  }

  lemma {:induction false} SumMapRemove(m: map<Key, real>, key: Key)
    requires key in m
    ensures SumMap(m) == m[key] + SumMap(m - {key})
    decreases |m|
  {
    var k :| k in m && SumMap(m) == m[k] + SumMap(m - {k});
    if k != key {
      SumMapRemove(m - {k}, key);
      SumMapRemove(m - {key}, k);
      assert m - {k} - {key} == m - {key} - {k};
    }
  }

  lemma SumMapUpdate(m: map<Key, real>, key: Key, v: real)
    ensures SumMap(m[key := v]) == SumMap(m) - DurationOf(m, key) + v
  {
    SumMapRemove(m[key := v], key);
    if key in m {
      SumMapRemove(m, key);
      assert m[key := v] - {key} == m - {key};
    } else {
      assert m[key := v] - {key} == m;
    }
  }

  // ------------------------------------------------------ invariant of one scrape

  /** The mutex is held by exactly the goroutine that is between its load and its release. */
  ghost predicate MutexInv(sc: Scrape) {
    && |sc.goroutines| <= |sc.collectors|
    && -1 <= sc.mutex < |sc.goroutines|
    && (forall g :: 0 <= g < |sc.goroutines| ==> (sc.goroutines[g].HoldsMutex() <==> sc.mutex == g))
    && (forall g :: 0 <= g < |sc.goroutines| && sc.goroutines[g].Loaded? ==>
          sc.goroutines[g].seen == DurationOf(sc.durations, sc.goroutines[g].key))
  }

  ghost predicate HasKey(gs: seq<Goroutine>, key: Key) {
    exists g :: 0 <= g < |gs| && gs[g].Counted() && gs[g].key == key
  }

  /** The map holds exactly what the counted goroutines have added. */
  ghost predicate SumInv(gs: seq<Goroutine>, durations: map<Key, real>) {
    && (forall k :: DurationOf(durations, k) == SumFor(gs, k))
    && (forall k :: k in durations <==> HasKey(gs, k))
    && SumMap(durations) == TotalDuration(gs)
  }

  ghost predicate ScrapeInv(sc: Scrape) {
    && MutexInv(sc)
    && SumInv(sc.goroutines, sc.durations)
    && (!sc.phase.Gathering? ==> AllDone(sc) && KeysOf(sc.keys, sc.durations))
  }

  /** A goroutine moves on without adding anything. */
  lemma SumInvQuiet(gs: seq<Goroutine>, durations: map<Key, real>, g: nat, x: Goroutine)
    requires g < |gs| && SumInv(gs, durations)
    requires gs[g].Counted() <==> x.Counted()
    requires x.Counted() ==> x.key == gs[g].key && x.duration == gs[g].duration
    ensures SumInv(gs[g := x], durations)
  {
    forall k
      ensures SumFor(gs[g := x], k) == SumFor(gs, k)
      ensures HasKey(gs[g := x], k) <==> HasKey(gs, k)
    {
      SumForUpdate(gs, g, x, k);
      assert forall i :: 0 <= i < |gs| ==> (gs[g := x][i].Counted() <==> gs[i].Counted());
      assert forall i :: 0 <= i < |gs| && gs[i].Counted() ==> gs[g := x][i].key == gs[i].key;
    }
    TotalDurationUpdate(gs, g, x);
  }

  /** A goroutine stores the sum it computed from what it loaded. */
  lemma SumInvStore(gs: seq<Goroutine>, durations: map<Key, real>, g: nat)
    requires g < |gs| && SumInv(gs, durations)
    requires gs[g].Loaded? && gs[g].seen == DurationOf(durations, gs[g].key)
    ensures SumInv(gs[g := Stored(gs[g].key, gs[g].duration)], durations[gs[g].key := gs[g].seen + gs[g].duration])
  {
    var key, x := gs[g].key, Stored(gs[g].key, gs[g].duration);
    var gs', durations' := gs[g := x], durations[key := gs[g].seen + gs[g].duration];
    forall k
      ensures DurationOf(durations', k) == SumFor(gs', k)
      ensures k in durations' <==> HasKey(gs', k)
    {
      SumForUpdate(gs, g, x, k);
      assert forall i :: 0 <= i < |gs| && i != g ==> gs'[i] == gs[i];
      assert gs'[g].Counted() && gs'[g].key == key;
      if HasKey(gs, k) {
        var i :| 0 <= i < |gs| && gs[i].Counted() && gs[i].key == k;
        assert gs'[i].Counted() && gs'[i].key == k;
      }
    }
    TotalDurationUpdate(gs, g, x);
    SumMapUpdate(durations, key, gs[g].seen + gs[g].duration);
  }

  lemma SumInvSpawn(gs: seq<Goroutine>, durations: map<Key, real>, source: string)
    requires SumInv(gs, durations)
    ensures SumInv(gs + [Collecting(source)], durations)
  {
    var gs' := gs + [Collecting(source)];
    forall k
      ensures SumFor(gs', k) == SumFor(gs, k)
      ensures HasKey(gs', k) <==> HasKey(gs, k)
    {
      SumForSnoc(gs, Collecting(source), k);
      assert forall i :: 0 <= i < |gs| ==> gs'[i] == gs[i];
    }
    TotalDurationSnoc(gs, Collecting(source));
  }

  lemma MutexStepKeeps(sc: Scrape, step: ScrapeStep)
    requires MutexInv(sc)
    ensures MutexInv(ScrapeNext(sc, step))
  {
  }

  /** Goroutine `g` takes a step that adds nothing. */
  predicate Quiet(step: ScrapeStep, g: nat) {
    step == Acquire(g) || step == Release(g)
    || (step.Record? && step.g == g) || (step.Return? && step.g == g)
  }

  lemma QuietMoves(sc: Scrape, step: ScrapeStep, g: nat)
    requires Quiet(step, g) && g < |sc.goroutines|
    ensures var before, after := sc.goroutines[g], ScrapeNext(sc, step).goroutines;
            && |after| == |sc.goroutines|
            && after == sc.goroutines[g := after[g]]
            && (before.Counted() <==> after[g].Counted())
            && (before.Counted() ==> after[g].key == before.key && after[g].duration == before.duration)
    ensures ScrapeNext(sc, step).durations == sc.durations
  {
  }

  lemma QuietStepKeeps(sc: Scrape, step: ScrapeStep, g: nat)
    requires Quiet(step, g) && SumInv(sc.goroutines, sc.durations)
    ensures SumInv(ScrapeNext(sc, step).goroutines, ScrapeNext(sc, step).durations)
  {
    if g < |sc.goroutines| {
      QuietMoves(sc, step, g);
      SumInvQuiet(sc.goroutines, sc.durations, g, ScrapeNext(sc, step).goroutines[g]);
    }
  }

  lemma SpawnKeeps(sc: Scrape)
    requires SumInv(sc.goroutines, sc.durations)
    ensures SumInv(ScrapeNext(sc, Spawn).goroutines, ScrapeNext(sc, Spawn).durations)
  {
    if |sc.goroutines| < |sc.collectors| {
      SumInvSpawn(sc.goroutines, sc.durations, sc.collectors[|sc.goroutines|]);
    }
  }

  predicate SeesMap(sc: Scrape, g: nat) {
    g < |sc.goroutines| && sc.goroutines[g].Loaded? ==> sc.goroutines[g].seen == DurationOf(sc.durations, sc.goroutines[g].key)
  }

  lemma StoreKeeps(sc: Scrape, g: nat)
    requires SeesMap(sc, g) && SumInv(sc.goroutines, sc.durations)
    ensures SumInv(ScrapeNext(sc, Store(g)).goroutines, ScrapeNext(sc, Store(g)).durations)
  {
    if g < |sc.goroutines| && sc.goroutines[g].Loaded? {
      SumInvStore(sc.goroutines, sc.durations, g);
      var x := Stored(sc.goroutines[g].key, sc.goroutines[g].duration);
      assert ScrapeNext(sc, Store(g)).goroutines == sc.goroutines[g := x];
      assert ScrapeNext(sc, Store(g)).durations == sc.durations[x.key := sc.goroutines[g].seen + x.duration];
    }
  }

  lemma SumStepKeeps(sc: Scrape, step: ScrapeStep)
    requires MutexInv(sc) && SumInv(sc.goroutines, sc.durations)
    ensures SumInv(ScrapeNext(sc, step).goroutines, ScrapeNext(sc, step).durations)
  {
    match step
    case Spawn => SpawnKeeps(sc);
    case Store(g) => StoreKeeps(sc, g);
    case Record(g, _) => QuietStepKeeps(sc, step, g);
    case Return(g, _, _) => QuietStepKeeps(sc, step, g);
    case Acquire(g) => QuietStepKeeps(sc, step, g);
    case Release(g) => QuietStepKeeps(sc, step, g);
    case Join =>
  }

  /** Every step inside a scrape keeps its invariant; after `Join` there is none left to take. */
  lemma ScrapeStepKeeps(sc: Scrape, step: ScrapeStep)
    requires ScrapeInv(sc)
    ensures ScrapeInv(ScrapeNext(sc, step))
    ensures !sc.phase.Gathering? ==> ScrapeNext(sc, step) == sc
    ensures ScrapeNext(sc, step).phase == sc.phase || ScrapeNext(sc, step).phase.Joined?
  {
    MutexStepKeeps(sc, step);
    SumStepKeeps(sc, step);
  }

  /** When `wg.Wait` has returned, the map holds the exact sum per key and nothing else. */
  lemma JoinedMapIsExact(sc: Scrape, key: Key)
    requires ScrapeInv(sc) && !sc.phase.Gathering?
    ensures |sc.goroutines| == |sc.collectors| && forall g :: 0 <= g < |sc.goroutines| ==> sc.goroutines[g].Done?
    ensures DurationOf(sc.durations, key) == SumFor(sc.goroutines, key)
    ensures key in sc.durations <==> exists g :: 0 <= g < |sc.goroutines| && sc.goroutines[g].key == key
    ensures SumMap(sc.durations) == TotalDuration(sc.goroutines)
  {
    if g :| 0 <= g < |sc.goroutines| && sc.goroutines[g].key == key {
      assert sc.goroutines[g].Counted();
      assert HasKey(sc.goroutines, key);
    }
  }
}
