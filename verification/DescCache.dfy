/**
  The descriptor cache under concurrent calls of `getDesc`: a look under the read lock,
  and on a miss a second look and an insertion under the write lock. Descriptors are
  identified by their position among all those ever created.
 */
module DescCache {
  import opened Contract
  import opened DescKey

  /** The cache and the descriptors it refers to by position. */
  datatype Store = Store(cache: map<string, nat>, created: seq<Desc>)

  const EMPTY_STORE := Store(map[], [])

  /** The store after one undisturbed call. */
  function Serve(s: Store, def: MetricDef): Store {
    if KeyOf(def) in s.cache then s else Store(s.cache[KeyOf(def) := |s.created|], s.created + [NewDesc(def)])
  }

  /** What one undisturbed call returns. */
  function Answer(s: Store, def: MetricDef): nat {
    Serve(s, def).cache[KeyOf(def)]
  }

  datatype Call =
    | Started(def: MetricDef)
    | Reading(def: MetricDef)               // holds the read lock
    | Missed(def: MetricDef)                // wants the write lock
    | Writing(def: MetricDef)               // holds the write lock
    | Creating(def: MetricDef, desc: nat)   // holds it, has made a descriptor, will store it
    | Returned(def: MetricDef, desc: nat)
  {
    predicate HoldsWriteLock() {
      Writing? || Creating?
    }
  }

  datatype State = State(calls: seq<Call>, writer: int, cache: map<string, nat>, created: seq<Desc>)

  const INIT := State([], -1, map[], [])

  datatype Step =
    | Begin(def: MetricDef)
    | RLock(c: nat)
    | RCheck(c: nat)
    | Lock(c: nat)
    | Check(c: nat)
    | Insert(c: nat)

  predicate NoReader(calls: seq<Call>) {
    forall c :: 0 <= c < |calls| ==> !calls[c].Reading?
  }

  /** One step; a step that is blocked or out of turn changes nothing. */
  function Next(st: State, step: Step): State {
    match step
    case Begin(def) => st.(calls := st.calls + [Started(def)])
    case RLock(c) =>
      if c < |st.calls| && st.calls[c].Started? && st.writer == -1 then
        st.(calls := st.calls[c := Reading(st.calls[c].def)])
      else st
    case RCheck(c) =>
      if c < |st.calls| && st.calls[c].Reading? then
        var def := st.calls[c].def;
        st.(calls := st.calls[c := if KeyOf(def) in st.cache then Returned(def, st.cache[KeyOf(def)]) else Missed(def)])
      else st
    case Lock(c) =>
      if c < |st.calls| && st.calls[c].Missed? && st.writer == -1 && NoReader(st.calls) then
        st.(calls := st.calls[c := Writing(st.calls[c].def)], writer := c)
      else st
    case Check(c) =>
      if c < |st.calls| && st.calls[c].Writing? then
        var def := st.calls[c].def;
        if KeyOf(def) in st.cache then
          st.(calls := st.calls[c := Returned(def, st.cache[KeyOf(def)])], writer := -1)
        else
          st.(calls := st.calls[c := Creating(def, |st.created|)], created := st.created + [NewDesc(def)])
      else st
    case Insert(c) =>
      if c < |st.calls| && st.calls[c].Creating? then
        var def, desc := st.calls[c].def, st.calls[c].desc;
        st.(calls := st.calls[c := Returned(def, desc)], cache := st.cache[KeyOf(def) := desc], writer := -1)
      else st
  }

  function Exec(schedule: seq<Step>): State {
    if schedule == [] then INIT else Next(Exec(schedule[..|schedule| - 1]), schedule[|schedule| - 1])
  }

  // ------------------------------------------------------------------ invariants

  /** The write lock excludes other writers and all readers. */
  ghost predicate LockInv(st: State) {
    && -1 <= st.writer < |st.calls|
    && (forall c :: 0 <= c < |st.calls| ==> (st.calls[c].HoldsWriteLock() <==> st.writer == c))
    && (st.writer != -1 ==> NoReader(st.calls))
  }

  /** Every cached descriptor has the key it is cached under. */
  ghost predicate CacheInv(st: State) {
    forall k :: k in st.cache ==> st.cache[k] < |st.created| && DescKeyOf(st.created[st.cache[k]]) == k
  }

  /** Descriptor `i` is cached, or its creator still holds the write lock. */
  ghost predicate Accounted(st: State, i: nat)
    requires i < |st.created|
  {
    var k := DescKeyOf(st.created[i]);
    || (k in st.cache && st.cache[k] == i)
    || (0 <= st.writer < |st.calls| && st.calls[st.writer].Creating? && st.calls[st.writer].desc == i)
  }

  ghost predicate CreatedInv(st: State) {
    && (forall i :: 0 <= i < |st.created| ==> Accounted(st, i))
    && (forall i, j :: 0 <= i < j < |st.created| ==> DescKeyOf(st.created[i]) != DescKeyOf(st.created[j]))
  }

  /** What a call has achieved. */
  ghost predicate CallOk(st: State, call: Call) {
    match call
    case Creating(def, desc) =>
      desc < |st.created| && st.created[desc] == NewDesc(def) && KeyOf(def) !in st.cache
    case Returned(def, desc) => KeyOf(def) in st.cache && st.cache[KeyOf(def)] == desc
    case _ => true
  }

  ghost predicate CallsInv(st: State) {
    forall c :: 0 <= c < |st.calls| ==> CallOk(st, st.calls[c])
  }

  /** Descriptor `i` was made for some call's definition. */
  ghost predicate MadeFor(st: State, i: nat)
    requires i < |st.created|
  {
    exists c :: 0 <= c < |st.calls| && st.created[i] == NewDesc(st.calls[c].def)
  }

  ghost predicate OriginInv(st: State) {
    forall i :: 0 <= i < |st.created| ==> MadeFor(st, i)
  }

  lemma LockStep(st: State, step: Step)
    requires LockInv(st)
    ensures LockInv(Next(st, step))
  {
  }

  lemma CacheStep(st: State, step: Step)
    requires CacheInv(st) && CallsInv(st)
    ensures CacheInv(Next(st, step))
  {
    if step.Insert? && step.c < |st.calls| && st.calls[step.c].Creating? {
      assert CallOk(st, st.calls[step.c]);
    }
  }

  /** Two calls that create must be the same: only one can hold the write lock. */
  lemma CallsStep(st: State, step: Step)
    requires LockInv(st) && CacheInv(st) && CallsInv(st)
    ensures CallsInv(Next(st, step))
  {
    var st' := Next(st, step);
    forall c | 0 <= c < |st'.calls|
      ensures CallOk(st', st'.calls[c])
    {
      if c < |st.calls| {
        assert CallOk(st, st.calls[c]);
      }
      if step.Insert? && step.c < |st.calls| && st.calls[step.c].Creating? {
        assert CallOk(st, st.calls[step.c]);
        if c < |st.calls| && c != step.c {
          assert !st.calls[c].Creating?;
        }
      }
    }
  }

  lemma CreatedStep(st: State, step: Step)
    requires LockInv(st) && CacheInv(st) && CallsInv(st) && CreatedInv(st)
    ensures CreatedInv(Next(st, step))
  {
    var st' := Next(st, step);
    forall i | 0 <= i < |st'.created|
      ensures Accounted(st', i)
    {
      if i < |st.created| {
        assert Accounted(st, i);
        assert st'.created[i] == st.created[i];
      }
      if !step.Begin? && step.c < |st.calls| {
        assert CallOk(st, st.calls[step.c]);
      }
    }
    if step.Check? && |st'.created| > |st.created| {
      var n := |st.created|;
      forall i | 0 <= i < n
        ensures DescKeyOf(st'.created[i]) != DescKeyOf(st'.created[n])
      {
        assert Accounted(st, i);
        assert st'.created[i] == st.created[i];
      }
    }
  }

  lemma OriginStep(st: State, step: Step)
    requires OriginInv(st)
    ensures OriginInv(Next(st, step))
  {
    var st' := Next(st, step);
    assert forall c :: 0 <= c < |st.calls| ==> st'.calls[c].def == st.calls[c].def;
    forall i | 0 <= i < |st'.created|
      ensures MadeFor(st', i)
    {
      if i < |st.created| {
        assert MadeFor(st, i);
        var c :| 0 <= c < |st.calls| && st.created[i] == NewDesc(st.calls[c].def);
        assert st'.created[i] == NewDesc(st'.calls[c].def);
      } else {
        assert st'.created[i] == NewDesc(st'.calls[step.c].def);
      }
    }
  }

  lemma {:induction false} Always(schedule: seq<Step>)
    ensures var st := Exec(schedule);
            LockInv(st) && CacheInv(st) && CallsInv(st) && CreatedInv(st) && OriginInv(st)
    decreases |schedule|
  {
    if schedule != [] {
      var front, step := schedule[..|schedule| - 1], schedule[|schedule| - 1];
      Always(front);
      LockStep(Exec(front), step);
      CacheStep(Exec(front), step);
      CallsStep(Exec(front), step);
      CreatedStep(Exec(front), step);
      OriginStep(Exec(front), step);
    }
  }

  // -------------------------------------------------------------------- theorems

  /** Under every interleaving at most one descriptor is ever created per key. */
  lemma OneDescPerKey(schedule: seq<Step>, i: nat, j: nat)
    requires i < |Exec(schedule).created| && j < |Exec(schedule).created|
    requires DescKeyOf(Exec(schedule).created[i]) == DescKeyOf(Exec(schedule).created[j])
    ensures i == j
  {
    Always(schedule);
  }

  /** Two calls with the same name and label keys return the same descriptor. */
  lemma SameDefinitionSameDesc(schedule: seq<Step>, c: nat, d: nat)
    requires c < |Exec(schedule).calls| && Exec(schedule).calls[c].Returned?
    requires d < |Exec(schedule).calls| && Exec(schedule).calls[d].Returned?
    requires Exec(schedule).calls[c].def.name == Exec(schedule).calls[d].def.name
    requires Exec(schedule).calls[c].def.labelKeys == Exec(schedule).calls[d].def.labelKeys
    ensures Exec(schedule).calls[c].desc == Exec(schedule).calls[d].desc
  {
    Always(schedule);
    assert CallOk(Exec(schedule), Exec(schedule).calls[c]);
    assert CallOk(Exec(schedule), Exec(schedule).calls[d]);
  }

  /** A returned descriptor was made for the definition of some call with the same key. */
  lemma ReturnedWasMadeFor(schedule: seq<Step>, c: nat) returns (d: nat)
    requires c < |Exec(schedule).calls| && Exec(schedule).calls[c].Returned?
    ensures var st := Exec(schedule);
            && d < |st.calls| && st.calls[c].desc < |st.created|
            && st.created[st.calls[c].desc] == NewDesc(st.calls[d].def)
            && KeyOf(st.calls[d].def) == KeyOf(st.calls[c].def)
  {
    Always(schedule);
    var st := Exec(schedule);
    assert CallOk(st, st.calls[c]);
    assert MadeFor(st, st.calls[c].desc);
    d :| 0 <= d < |st.calls| && st.created[st.calls[c].desc] == NewDesc(st.calls[d].def);
  }

  predicate Grows(a: map<string, nat>, b: map<string, nat>) {
    forall k :: k in a ==> k in b && b[k] == a[k]
  }

  lemma StepGrows(st: State, step: Step)
    requires CallsInv(st)
    ensures Grows(st.cache, Next(st, step).cache)
    ensures |st.created| <= |Next(st, step).created| && Next(st, step).created[..|st.created|] == st.created
  {
    if step.Insert? && step.c < |st.calls| && st.calls[step.c].Creating? {
      assert CallOk(st, st.calls[step.c]);
    }
  }

  /** The cache only grows: what it holds at one time it holds, unchanged, ever after. */
  lemma {:induction false} CacheOnlyGrows(schedule: seq<Step>, more: seq<Step>)
    ensures Grows(Exec(schedule).cache, Exec(schedule + more).cache)
    ensures |Exec(schedule).created| <= |Exec(schedule + more).created|
    ensures Exec(schedule + more).created[..|Exec(schedule).created|] == Exec(schedule).created
    decreases |more|
  {
    if more == [] {
      assert schedule + more == schedule;
    } else {
      var n := |more| - 1;
      var whole := schedule + more;
      assert whole[..|whole| - 1] == schedule + more[..n];
      CacheOnlyGrows(schedule, more[..n]);
      Always(schedule + more[..n]);
      StepGrows(Exec(schedule + more[..n]), more[n]);
      var mid := Exec(schedule + more[..n]);
      assert Exec(whole).created[..|mid.created|][..|Exec(schedule).created|] == Exec(whole).created[..|Exec(schedule).created|];
    }
  }

  /** Readers and the writer never overlap, and there is at most one writer. */
  lemma ReadersExcludeWriter(schedule: seq<Step>, c: nat, d: nat)
    requires c < |Exec(schedule).calls| && d < |Exec(schedule).calls|
    requires Exec(schedule).calls[c].HoldsWriteLock()
    requires Exec(schedule).calls[d].HoldsWriteLock() || Exec(schedule).calls[d].Reading?
    ensures c == d
  {
    Always(schedule);
  }
}
