/** No reachable state of the scrape protocol is stuck: every scrape that has begun can finish. */
module ScrapeProgress {
  import opened ScrapeTotals
  import opened ScrapeProtocol
  import opened ScrapeTheorems

  // ------------------------------------------------------------------- work ahead

  /** The steps that a goroutine has still to take. */
  function Ahead(g: Goroutine): nat {
    match g
    case Collecting(_) => 4
    case Returned(_, _) => 3
    case Loaded(_, _, _) => 2
    case Stored(_, _) => 1
    case Done(_, _) => 0
  }

  function AllAhead(gs: seq<Goroutine>): nat {
    if gs == [] then 0 else AllAhead(gs[..|gs| - 1]) + Ahead(gs[|gs| - 1])
  }

  /** The steps up to the join of a scrape that gathers. */
  function GatheringLeft(sc: Scrape): nat {
    if !sc.phase.Gathering? then 0
    else if |sc.collectors| <= |sc.goroutines| then 1 + AllAhead(sc.goroutines)
    else 1 + 5 * (|sc.collectors| - |sc.goroutines|) + AllAhead(sc.goroutines)
  }

  /** The steps from the join of a scrape to its end. */
  function ObservingLeft(sc: Scrape): nat {
    match sc.phase
    case Gathering => 0
    case Joined => 2 + 2 * |sc.keys|
    case Observing(next, _, loaded, _) =>
      if |sc.keys| <= next then 1 else 1 + 2 * (|sc.keys| - next) - (if loaded then 1 else 0)
    case Finished => 0
  }

  function ToGather(scrapes: seq<Scrape>): nat {
    if scrapes == [] then 0 else ToGather(scrapes[..|scrapes| - 1]) + GatheringLeft(scrapes[|scrapes| - 1])
  }

  function ToObserve(scrapes: seq<Scrape>): nat {
    if scrapes == [] then 0 else ToObserve(scrapes[..|scrapes| - 1]) + ObservingLeft(scrapes[|scrapes| - 1])
  }

  lemma {:induction false} AheadUpdate(gs: seq<Goroutine>, g: nat, x: Goroutine)
    requires g < |gs|
    ensures AllAhead(gs[g := x]) == AllAhead(gs) - Ahead(gs[g]) + Ahead(x)
  {
    var n := |gs| - 1;
    if g == n {
      assert gs[g := x][..n] == gs[..n];
    } else {
      assert gs[g := x][..n] == gs[..n][g := x];
      AheadUpdate(gs[..n], g, x);
    }
  }

  lemma {:induction false} LeftUpdate(scrapes: seq<Scrape>, s: nat, x: Scrape)
    requires s < |scrapes|
    ensures ToGather(scrapes[s := x]) == ToGather(scrapes) - GatheringLeft(scrapes[s]) + GatheringLeft(x)
    ensures ToObserve(scrapes[s := x]) == ToObserve(scrapes) - ObservingLeft(scrapes[s]) + ObservingLeft(x)
  {
    var n := |scrapes| - 1;
    if s == n {
      assert scrapes[s := x][..n] == scrapes[..n];
    } else {
      assert scrapes[s := x][..n] == scrapes[..n][s := x];
      LeftUpdate(scrapes[..n], s, x);
    }
  }

  // --------------------------------------------------------------- inside a scrape

  /** Some goroutine can move: the one that holds the scrape's mutex, if any does. */
  lemma SomeGoroutineMoves(sc: Scrape) returns (step: ScrapeStep)
    requires MutexInv(sc) && |sc.goroutines| == |sc.collectors| && !AllDone(sc)
    ensures !step.Record? && ScrapeNext(sc, step) != sc
  {
    var gs := sc.goroutines;
    var g: nat :| g < |gs| && !gs[g].Done?;
    if sc.mutex != -1 {
      g := sc.mutex;
      assert gs[g].HoldsMutex();
    }
    match gs[g] {
      case Collecting(_) => step := Return(g, 0.0, true);
      case Returned(_, _) => step := Acquire(g);
      case Loaded(_, _, _) => step := Store(g);
      case Stored(_, _) => step := Release(g);
    }
    assert ScrapeNext(sc, step).goroutines[g] != gs[g];
  }

  /** A scrape that gathers can always move. */
  lemma GatheringMoves(sc: Scrape) returns (step: ScrapeStep)
    requires MutexInv(sc) && sc.phase.Gathering?
    ensures !step.Record? && ScrapeNext(sc, step) != sc
  {
    if |sc.goroutines| < |sc.collectors| {
      step := Spawn;
      assert |ScrapeNext(sc, step).goroutines| == |sc.goroutines| + 1;
    } else if AllDone(sc) {
      step := Join;
    } else {
      step := SomeGoroutineMoves(sc);
    }
  }

  // ---------------------------------------------------------------- among scrapes

  predicate Idle(scrapes: seq<Scrape>) {
    forall s :: 0 <= s < |scrapes| ==> !scrapes[s].phase.Gathering?
  }

  predicate AllFinished(scrapes: seq<Scrape>) {
    forall s :: 0 <= s < |scrapes| ==> scrapes[s].phase.Finished?
  }

  /** The state is closer to the end: less to gather, or as much to gather and less to observe. */
  predicate Closer(now: State, later: State) {
    && |later.scrapes| == |now.scrapes|
    && (ToGather(later.scrapes) < ToGather(now.scrapes)
        || (ToGather(later.scrapes) == ToGather(now.scrapes) && ToObserve(later.scrapes) < ToObserve(now.scrapes)))
  }

  lemma GoroutineCloser(sc: Scrape, step: ScrapeStep, g: nat)
    requires MutexInv(sc) && sc.phase.Gathering?
    requires step == Acquire(g) || step == Store(g) || step == Release(g) || (step.Return? && step.g == g)
    ensures ScrapeNext(sc, step) == sc || GatheringLeft(ScrapeNext(sc, step)) < GatheringLeft(sc)
  {
    if ScrapeNext(sc, step) != sc {
      var gs' := ScrapeNext(sc, step).goroutines;
      assert gs' == sc.goroutines[g := gs'[g]];
      AheadUpdate(sc.goroutines, g, gs'[g]);
    }
  }

  lemma InsideCloser(sc: Scrape, step: ScrapeStep)
    requires ScrapeInv(sc) && !step.Record?
    ensures ScrapeNext(sc, step) == sc || GatheringLeft(ScrapeNext(sc, step)) < GatheringLeft(sc)
  {
    if sc.phase.Gathering? {
      match step {
        case Spawn =>
          if |sc.goroutines| < |sc.collectors| {
            var x := Collecting(sc.collectors[|sc.goroutines|]);
            assert (sc.goroutines + [x])[..|sc.goroutines|] == sc.goroutines;
          }
        case Acquire(g) => GoroutineCloser(sc, step, g);
        case Store(g) => GoroutineCloser(sc, step, g);
        case Release(g) => GoroutineCloser(sc, step, g);
        case Return(g, _, _) => GoroutineCloser(sc, step, g);
        case Join =>
      }
    } else {
      ScrapeStepKeeps(sc, step);
    }
  }

  /** No step turns back: what is neither a new scrape nor a named source changes nothing or comes closer. */
  lemma EveryStepIsCloser(st: State, step: Step)
    requires LockInv(st) && ScrapesInv(st.scrapes)
    requires !step.Begin? && !(step.Inside? && step.step.Record?)
    ensures Next(st, step) == st || Closer(st, Next(st, step))
  {
    if Next(st, step) != st {
      var scrapes' := Next(st, step).scrapes;
      assert step.s < |st.scrapes| && scrapes' == st.scrapes[step.s := scrapes'[step.s]];
      LeftUpdate(st.scrapes, step.s, scrapes'[step.s]);
      if step.Inside? {
        assert ScrapeInv(st.scrapes[step.s]);
        InsideCloser(st.scrapes[step.s], step.step);
      }
    }
  }

  /** Once all have joined, the scrape that holds the registry's mutex can move, or any can take it. */
  lemma SomeObserverMoves(st: State) returns (step: Step)
    requires LockInv(st) && Idle(st.scrapes) && !AllFinished(st.scrapes)
    ensures !step.Begin? && !step.Inside? && Next(st, step) != st
  {
    var s: nat :| s < |st.scrapes| && !st.scrapes[s].phase.Finished?;
    if st.mutex != -1 {
      s := st.mutex;
    }
    var sc := st.scrapes[s];
    match sc.phase {
      case Joined => step := Lock(s);
      case Observing(next, _, loaded, _) =>
        step := if next == |sc.keys| then Unlock(s) else if loaded then Update(s) else Load(s);
    }
    assert Next(st, step).scrapes[s].phase != sc.phase;
  }

  /** Unless every scrape has finished, some step brings the state closer to that. */
  lemma SomeStepAdvances(st: State) returns (step: Step)
    requires LockInv(st) && ScrapesInv(st.scrapes) && !AllFinished(st.scrapes)
    ensures Closer(st, Next(st, step))
  {
    if Idle(st.scrapes) {
      step := SomeObserverMoves(st);
    } else {
      var s: nat :| s < |st.scrapes| && st.scrapes[s].phase.Gathering?;
      assert ScrapeInv(st.scrapes[s]);
      var inner := GatheringMoves(st.scrapes[s]);
      step := Inside(s, inner);
      assert Next(st, step).scrapes[s] != st.scrapes[s];
    }
    EveryStepIsCloser(st, step);
  }

  lemma ScheduleAdvances(schedule: seq<Step>) returns (step: Step)
    requires !AllFinished(Exec(schedule).scrapes)
    ensures Closer(Exec(schedule), Exec(schedule + [step]))
  {
    AlwaysLock(schedule);
    AlwaysScrapes(schedule);
    step := SomeStepAdvances(Exec(schedule));
    assert (schedule + [step])[..|schedule|] == schedule;
  }

  /** Both measures of a schedule's state. */
  ghost predicate Left(schedule: seq<Step>, scrapes: nat, gather: nat, observe: nat) {
    && |Exec(schedule).scrapes| == scrapes
    && ToGather(Exec(schedule).scrapes) == gather
    && ToObserve(Exec(schedule).scrapes) == observe
  }

  /** Every scrape has finished, and no other has begun. */
  ghost predicate Ends(schedule: seq<Step>, scrapes: nat) {
    AllFinished(Exec(schedule).scrapes) && |Exec(schedule).scrapes| == scrapes
  }

  lemma ScheduleLeft(schedule: seq<Step>, scrapes: nat, gather: nat, observe: nat) returns (step: Step, g: nat, o: nat)
    requires Left(schedule, scrapes, gather, observe) && !Ends(schedule, scrapes)
    ensures Left(schedule + [step], scrapes, g, o)
    ensures g < gather || (g == gather && o < observe)
  {
    step := ScheduleAdvances(schedule);
    g, o := ToGather(Exec(schedule + [step]).scrapes), ToObserve(Exec(schedule + [step]).scrapes);
  }

  lemma {:induction false} CanEnd(schedule: seq<Step>, scrapes: nat, gather: nat, observe: nat) returns (more: seq<Step>)
    requires Left(schedule, scrapes, gather, observe)
    ensures Ends(schedule + more, scrapes)
    decreases gather, observe
  {
    if Ends(schedule, scrapes) {
      more := [];
      assert schedule + more == schedule;
    } else {
      var step, g, o := ScheduleLeft(schedule, scrapes, gather, observe);
      var rest := CanEnd(schedule + [step], scrapes, g, o);
      more := [step] + rest;
      assert schedule + more == schedule + [step] + rest;
    }
  }

  /** No deadlock: after every schedule some continuation finishes every scrape that has begun. */
  lemma EveryScrapeCanFinish(schedule: seq<Step>) returns (more: seq<Step>)
    ensures AllFinished(Exec(schedule + more).scrapes)
    ensures |Exec(schedule + more).scrapes| == |Exec(schedule).scrapes|
  {
    var scrapes := Exec(schedule).scrapes;
    more := CanEnd(schedule, |scrapes|, ToGather(scrapes), ToObserve(scrapes));
  }
}
