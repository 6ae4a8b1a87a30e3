/**
  What concurrent calls of `getDesc` amount to: when they agree with constructing the
  descriptor directly, in which order they can be taken to happen, and that they return.
 */
module DescTheorems {
  import opened Wrappers
  import opened Contract
  import opened ContractNames
  import opened DescKey
  import opened DescCache

  // ------------------------------------------------------------- the right descriptor

  /** A returned call agrees with `prometheus.NewDesc` on name and label keys. */
  predicate Matches(st: State, c: nat) {
    c < |st.calls| && st.calls[c].Returned? ==>
      && st.calls[c].desc < |st.created|
      && st.created[st.calls[c].desc].name == st.calls[c].def.name
      && st.created[st.calls[c].desc].labelKeys == st.calls[c].def.labelKeys
  }

  predicate SameSeries(a: MetricDef, b: MetricDef) {
    a.name == b.name && a.labelKeys == b.labelKeys
  }

  ghost predicate FromContract(def: MetricDef) {
    exists metricID :: Lookup(metricID) == Some(def)
  }

  /** Calls with definitions of the contract return exactly what constructing them would. */
  lemma ContractDescsAreDirect(schedule: seq<Step>, c: nat)
    requires forall d :: 0 <= d < |Exec(schedule).calls| ==> FromContract(Exec(schedule).calls[d].def)
    requires c < |Exec(schedule).calls| && Exec(schedule).calls[c].Returned?
    ensures var st := Exec(schedule);
            st.calls[c].desc < |st.created| && st.created[st.calls[c].desc] == NewDesc(st.calls[c].def)
  {
    var st := Exec(schedule);
    var d := ReturnedWasMadeFor(schedule, c);
    assert FromContract(st.calls[c].def) && FromContract(st.calls[d].def);
    var a :| Lookup(a) == Some(st.calls[c].def);
    var b :| Lookup(b) == Some(st.calls[d].def);
    ContractKeysAreDistinct(a, b);
  }

  predicate Uses(schedule: seq<Step>, defs: set<MetricDef>) {
    forall i :: 0 <= i < |schedule| && schedule[i].Begin? ==> schedule[i].def in defs
  }

  /** No interleaving of calls with these definitions ever returns a wrong descriptor. */
  ghost predicate AlwaysMatch(defs: set<MetricDef>) {
    forall schedule, c :: Uses(schedule, defs) ==> Matches(Exec(schedule), c)
  }

  /** Definitions with one cache key are definitions of one series. */
  predicate KeysTell(defs: set<MetricDef>) {
    forall a, b :: a in defs && b in defs && KeyOf(a) == KeyOf(b) ==> SameSeries(a, b)
  }

  lemma {:induction false} CallsUse(schedule: seq<Step>, defs: set<MetricDef>)
    requires Uses(schedule, defs)
    ensures forall c :: 0 <= c < |Exec(schedule).calls| ==> Exec(schedule).calls[c].def in defs
    decreases |schedule|
  {
    if schedule != [] {
      var front, step := schedule[..|schedule| - 1], schedule[|schedule| - 1];
      CallsUse(front, defs);
      assert step == schedule[|schedule| - 1];
    }
  }

  lemma ExecSnoc(schedule: seq<Step>, step: Step)
    ensures Exec(schedule + [step]) == Next(Exec(schedule), step)
  {
    assert (schedule + [step])[..|schedule|] == schedule;
  }

  /** The first call makes its descriptor; the second finds it under the key they share. */
  lemma SharedKeyMismatches(a: MetricDef, b: MetricDef) returns (schedule: seq<Step>)
    requires KeyOf(a) == KeyOf(b) && !SameSeries(a, b)
    ensures Uses(schedule, {a, b}) && !Matches(Exec(schedule), 1)
  {
    var s1 := [Begin(a)];
    ExecSnoc([], Begin(a));
    ExecSnoc(s1, RLock(0));
    ExecSnoc(s1 + [RLock(0)], RCheck(0));
    var s2 := s1 + [RLock(0)] + [RCheck(0)];
    ExecSnoc(s2, Lock(0));
    ExecSnoc(s2 + [Lock(0)], Check(0));
    ExecSnoc(s2 + [Lock(0)] + [Check(0)], Insert(0));
    var s3 := s2 + [Lock(0)] + [Check(0)] + [Insert(0)];
    assert [] + [Begin(a)] == s1;
    assert Exec(s3) == State([Returned(a, 0)], -1, map[KeyOf(a) := 0], [NewDesc(a)]);
    ExecSnoc(s3, Begin(b));
    ExecSnoc(s3 + [Begin(b)], RLock(1));
    ExecSnoc(s3 + [Begin(b)] + [RLock(1)], RCheck(1));
    schedule := s3 + [Begin(b)] + [RLock(1)] + [RCheck(1)];
    assert Exec(schedule).calls[1] == Returned(b, 0);
  }

  lemma TellingKeysMatch(defs: set<MetricDef>, schedule: seq<Step>, c: nat)
    requires KeysTell(defs) && Uses(schedule, defs)
    ensures Matches(Exec(schedule), c)
  {
    var st := Exec(schedule);
    if c < |st.calls| && st.calls[c].Returned? {
      CallsUse(schedule, defs);
      var d := ReturnedWasMadeFor(schedule, c);
      assert SameSeries(st.calls[d].def, st.calls[c].def);
    }
  }

  /** Calls always return the right descriptor exactly when keys tell their definitions apart. */
  lemma MatchExactly(defs: set<MetricDef>)
    ensures AlwaysMatch(defs) <==> KeysTell(defs)
  {
    if KeysTell(defs) {
      forall schedule, c: nat | Uses(schedule, defs)
        ensures Matches(Exec(schedule), c)
      {
        TellingKeysMatch(defs, schedule, c);
      }
    } else {
      var a, b :| a in defs && b in defs && KeyOf(a) == KeyOf(b) && !SameSeries(a, b);
      var schedule := SharedKeyMismatches(a, b);
      assert Uses(schedule, defs);
    }
  }

  /** One name, and label lists that joining confuses. */
  predicate Confused(a: MetricDef, b: MetricDef) {
    a.name == b.name && Confusable(a.labelKeys, b.labelKeys)
  }

  /**
    Clean definitions always get the right descriptor exactly when no two of them have one
    name and the label lists that joining confuses: none, and a single empty key.
   */
  lemma CleanDefinitionsMatchExactly(defs: set<MetricDef>)
    requires forall d :: d in defs ==> Clean(d.name, d.labelKeys)
    ensures AlwaysMatch(defs) <==> forall a, b :: a in defs && b in defs ==> !Confused(a, b)
  {
    MatchExactly(defs);
    forall a, b | a in defs && b in defs
      ensures KeyOf(a) == KeyOf(b) <==> SameSeries(a, b) || Confused(a, b)
    {
      KeyDetermines(a.name, a.labelKeys, b.name, b.labelKeys);
    }
  }

  // ----------------------------------------------------------------- linearizability

  /** The moment at which a call can be taken to happen, and its answer. */
  datatype Point = Point(call: nat, def: MetricDef, desc: nat)

  /** A call that hits happens when it looks; one that creates happens when it inserts. */
  function PointAt(st: State, step: Step): seq<Point> {
    match step
    case RCheck(c) =>
      if c < |st.calls| && st.calls[c].Reading? && KeyOf(st.calls[c].def) in st.cache then
        [Point(c, st.calls[c].def, st.cache[KeyOf(st.calls[c].def)])]
      else []
    case Check(c) =>
      if c < |st.calls| && st.calls[c].Writing? && KeyOf(st.calls[c].def) in st.cache then
        [Point(c, st.calls[c].def, st.cache[KeyOf(st.calls[c].def)])]
      else []
    case Insert(c) =>
      if c < |st.calls| && st.calls[c].Creating? then [Point(c, st.calls[c].def, st.calls[c].desc)] else []
    case _ => []
  }

  function Points(schedule: seq<Step>): seq<Point> {
    if schedule == [] then []
    else
      var front := schedule[..|schedule| - 1];
      Points(front) + PointAt(Exec(front), schedule[|schedule| - 1])
  }

  /** The store after undisturbed calls, one after the other. */
  function Replay(points: seq<Point>): Store {
    if points == [] then EMPTY_STORE else Serve(Replay(points[..|points| - 1]), points[|points| - 1].def)
  }

  /** The descriptor that the writer has made and will store. */
  function Unstored(st: State): seq<Desc> {
    if 0 <= st.writer < |st.calls| && st.calls[st.writer].Creating? then [NewDesc(st.calls[st.writer].def)] else []
  }

  /** The state is what undisturbed calls would leave, and perhaps a descriptor that is made but not yet stored. */
  ghost predicate AsReplayed(st: State, s: Store) {
    && st.cache == s.cache
    && st.created == s.created + Unstored(st)
    && forall c :: 0 <= c < |st.calls| && st.calls[c].Creating? ==> st.calls[c].desc == |s.created|
  }

  /** Every answer is the one an undisturbed call would have given at that point. */
  ghost predicate AnsweredInOrder(points: seq<Point>) {
    forall i :: 0 <= i < |points| ==> points[i].desc == Answer(Replay(points[..i]), points[i].def)
  }

  /** The points are those of the calls that have returned, one each. */
  ghost predicate OnePointPerReturn(st: State, points: seq<Point>) {
    && (forall i :: 0 <= i < |points| ==> points[i].call < |st.calls| && st.calls[points[i].call] == Returned(points[i].def, points[i].desc))
    && (forall i, j :: 0 <= i < j < |points| ==> points[i].call != points[j].call)
    && (forall c :: 0 <= c < |st.calls| && st.calls[c].Returned? ==> HasPoint(points, c))
  }

  predicate HasPoint(points: seq<Point>, c: nat) {
    exists i :: 0 <= i < |points| && points[i].call == c
  }

  /** A step that is no point does not touch the cache; it may make a descriptor. */
  lemma QuietStep(st: State, step: Step, s: Store)
    requires LockInv(st) && AsReplayed(st, s) && PointAt(st, step) == []
    ensures AsReplayed(Next(st, step), s)
  {
  }

  lemma HitStep(st: State, step: Step, s: Store)
    requires LockInv(st) && AsReplayed(st, s) && PointAt(st, step) != [] && !step.Insert?
    ensures AsReplayed(Next(st, step), Serve(s, PointAt(st, step)[0].def))
    ensures PointAt(st, step)[0].desc == Answer(s, PointAt(st, step)[0].def)
  {
  }

  lemma InsertStep(st: State, step: Step, s: Store)
    requires LockInv(st) && CallsInv(st) && AsReplayed(st, s) && PointAt(st, step) != [] && step.Insert?
    ensures AsReplayed(Next(st, step), Serve(s, PointAt(st, step)[0].def))
    ensures PointAt(st, step)[0].desc == Answer(s, PointAt(st, step)[0].def)
  {
    assert CallOk(st, st.calls[step.c]);
  }

  lemma AnsweredSnoc(points: seq<Point>, p: Point)
    requires AnsweredInOrder(points) && p.desc == Answer(Replay(points), p.def)
    ensures AnsweredInOrder(points + [p])
  {
    forall i | 0 <= i < |points + [p]|
      ensures (points + [p])[i].desc == Answer(Replay((points + [p])[..i]), (points + [p])[i].def)
    {
      assert (points + [p])[..i] == points[..i];
      assert points[..|points|] == points;
    }
  }

  lemma ReplaySnoc(points: seq<Point>, p: Point)
    ensures Replay(points + [p]) == Serve(Replay(points), p.def)
  {
    assert (points + [p])[..|points|] == points;
  }

  lemma ReplayStep(st: State, step: Step, points: seq<Point>)
    requires LockInv(st) && CallsInv(st) && AsReplayed(st, Replay(points)) && AnsweredInOrder(points)
    ensures AsReplayed(Next(st, step), Replay(points + PointAt(st, step)))
    ensures AnsweredInOrder(points + PointAt(st, step))
  {
    var p := PointAt(st, step);
    if p == [] {
      QuietStep(st, step, Replay(points));
      assert points + p == points;
    } else {
      if step.Insert? {
        InsertStep(st, step, Replay(points));
      } else {
        HitStep(st, step, Replay(points));
      }
      assert p == [p[0]];
      ReplaySnoc(points, p[0]);
      AnsweredSnoc(points, p[0]);
    }
  }

  /** A call that returns in this step has its point in it. */
  lemma ReturnedHasPoint(st: State, step: Step, points: seq<Point>, c: nat)
    requires OnePointPerReturn(st, points)
    requires c < |Next(st, step).calls| && Next(st, step).calls[c].Returned?
    ensures HasPoint(points + PointAt(st, step), c)
  {
    var points' := points + PointAt(st, step);
    if c < |st.calls| && st.calls[c].Returned? {
      assert HasPoint(points, c);
      var i :| 0 <= i < |points| && points[i].call == c;
      assert points'[i].call == c;
    } else {
      assert points'[|points|].call == c;
    }
  }

  lemma PointsStep(st: State, step: Step, points: seq<Point>)
    requires OnePointPerReturn(st, points)
    ensures OnePointPerReturn(Next(st, step), points + PointAt(st, step))
  {
    forall c | 0 <= c < |Next(st, step).calls| && Next(st, step).calls[c].Returned?
      ensures HasPoint(points + PointAt(st, step), c)
    {
      ReturnedHasPoint(st, step, points, c);
    }
  }

  /**
    Linearizability: in every interleaving the calls that have returned can be put in one
    order, each at a moment between its start and its return, such that calling them one
    after the other gives the same answers and leaves the same cache.
   */
  lemma {:induction false} Linearizable(schedule: seq<Step>)
    ensures AsReplayed(Exec(schedule), Replay(Points(schedule)))
    ensures AnsweredInOrder(Points(schedule))
    ensures OnePointPerReturn(Exec(schedule), Points(schedule))
    decreases |schedule|
  {
    if schedule != [] {
      var front, step := schedule[..|schedule| - 1], schedule[|schedule| - 1];
      Linearizable(front);
      Always(front);
      ReplayStep(Exec(front), step, Points(front));
      PointsStep(Exec(front), step, Points(front));
    }
  }

  // ------------------------------------------------------------------------ progress

  /** The steps that a call has still to take. */
  function Ahead(call: Call): nat {
    match call
    case Started(_) => 5
    case Reading(_) => 4
    case Missed(_) => 3
    case Writing(_) => 2
    case Creating(_, _) => 1
    case Returned(_, _) => 0
  }

  function AllAhead(calls: seq<Call>): nat {
    if calls == [] then 0 else AllAhead(calls[..|calls| - 1]) + Ahead(calls[|calls| - 1])
  }

  lemma {:induction false} AheadUpdate(calls: seq<Call>, c: nat, x: Call)
    requires c < |calls|
    ensures AllAhead(calls[c := x]) == AllAhead(calls) - Ahead(calls[c]) + Ahead(x)
  {
    var n := |calls| - 1;
    if c == n {
      assert calls[c := x][..n] == calls[..n];
    } else {
      assert calls[c := x][..n] == calls[..n][c := x];
      AheadUpdate(calls[..n], c, x);
    }
  }

  predicate AllReturned(calls: seq<Call>) {
    forall c :: 0 <= c < |calls| ==> calls[c].Returned?
  }

  /** Unless all calls have returned, some step brings one of them closer to it. */
  lemma SomeStepAdvances(st: State) returns (step: Step)
    requires LockInv(st) && !AllReturned(st.calls)
    ensures |Next(st, step).calls| == |st.calls| && AllAhead(Next(st, step).calls) < AllAhead(st.calls)
  {
    var c: nat :| c < |st.calls| && !st.calls[c].Returned?;
    if st.writer != -1 {
      c := st.writer;
      assert st.calls[c].HoldsWriteLock();
    } else if d: nat :| d < |st.calls| && st.calls[d].Reading? {
      c := d;
    }
    match st.calls[c] {
      case Started(_) => step := RLock(c);
      case Reading(_) => step := RCheck(c);
      case Missed(_) => step := Lock(c);
      case Writing(_) => step := Check(c);
      case Creating(_, _) => step := Insert(c);
    }
    var calls' := Next(st, step).calls;
    assert calls' == st.calls[c := calls'[c]];
    assert Ahead(calls'[c]) < Ahead(st.calls[c]);
    AheadUpdate(st.calls, c, calls'[c]);
  }

  /** The calls that have begun, and their remaining steps. */
  ghost predicate Left(schedule: seq<Step>, calls: nat, ahead: nat) {
    |Exec(schedule).calls| == calls && AllAhead(Exec(schedule).calls) == ahead
  }

  /** Every call has returned, and no other has begun. */
  ghost predicate Ends(schedule: seq<Step>, calls: nat) {
    AllReturned(Exec(schedule).calls) && |Exec(schedule).calls| == calls
  }

  lemma ScheduleAdvances(schedule: seq<Step>, calls: nat, ahead: nat) returns (step: Step, less: nat)
    requires Left(schedule, calls, ahead) && !Ends(schedule, calls)
    ensures Left(schedule + [step], calls, less) && less < ahead
  {
    Always(schedule);
    step := SomeStepAdvances(Exec(schedule));
    ExecSnoc(schedule, step);
    less := AllAhead(Exec(schedule + [step]).calls);
  }

  lemma {:induction false} CanEnd(schedule: seq<Step>, calls: nat, ahead: nat) returns (more: seq<Step>)
    requires Left(schedule, calls, ahead)
    ensures Ends(schedule + more, calls)
    decreases ahead
  {
    if Ends(schedule, calls) {
      more := [];
      assert schedule + more == schedule;
    } else {
      var step, less := ScheduleAdvances(schedule, calls, ahead);
      var rest := CanEnd(schedule + [step], calls, less);
      more := [step] + rest;
      assert schedule + more == schedule + [step] + rest;
    }
  }

  /** No deadlock: after every schedule some continuation returns every call that has begun. */
  lemma EveryCallCanReturn(schedule: seq<Step>) returns (more: seq<Step>)
    ensures AllReturned(Exec(schedule + more).calls)
    ensures |Exec(schedule + more).calls| == |Exec(schedule).calls|
  {
    var calls := Exec(schedule).calls;
    more := CanEnd(schedule, |calls|, AllAhead(calls));
  }
}
