/** What an LNet collection reports, in every mode and for every mix of failures. */
module LNetTheorems {
  import opened Wrappers
  import opened GoStrings
  import opened Observations
  import opened Readers
  import opened Contract
  import opened ContractNames
  import opened LNetFiles
  import opened LNetCollector

  // -------------------------------------------------------------------- the contract

  predicate CountEntries(reg: Registry) {
    && HasEntry(reg, "send_count_by_nid_total", TARGET_NID)
    && HasEntry(reg, "receive_count_by_nid_total", TARGET_NID)
    && HasEntry(reg, "drop_count_by_nid_total", TARGET_NID)
  }

  predicate HealthEntries(reg: Registry) {
    && HasEntry(reg, "lnet_ni_up", TARGET_NID)
    && (forall i :: 0 <= i < |HEALTH_IDS| ==> HasEntry(reg, HEALTH_IDS[i], TARGET_NID))
  }

  /** A registry with all entries that the LNet parsers rely on. */
  ghost predicate ServesLNet(reg: Registry) {
    && (forall i :: 0 <= i < |STATS_FIELDS| ==> HasEntry(reg, STATS_FIELDS[i].0, TARGET))
    && (forall name :: ParamMetric(name).Some? ==> HasEntry(reg, ParamMetric(name).value.0, TARGET))
    && CountEntries(reg)
    && HealthEntries(reg)
  }

  lemma ContractHasStat(i: nat)
    requires i < |STATS_FIELDS|
    ensures HasEntry(Lookup, STATS_FIELDS[i].0, TARGET)
  {
  }

  lemma ContractHasShortParam(name: string)
    requires ParamMetric(name).Some? && |name| <= 12
    ensures HasEntry(Lookup, ParamMetric(name).value.0, TARGET)
  {
  }

  lemma ContractHasLongParam(name: string)
    requires ParamMetric(name).Some? && |name| > 12
    ensures HasEntry(Lookup, ParamMetric(name).value.0, TARGET)
  {
  }

  lemma ContractHasParam(name: string)
    requires ParamMetric(name).Some?
    ensures HasEntry(Lookup, ParamMetric(name).value.0, TARGET)
  {
    if |name| <= 12 {
      ContractHasShortParam(name);
    } else {
      ContractHasLongParam(name);
    }
  }

  lemma ContractHasCounts()
    ensures CountEntries(Lookup)
  {
  }

  lemma ContractHasHealth(i: nat)
    ensures HasEntry(Lookup, "lnet_ni_up", TARGET_NID)
    ensures i < |HEALTH_IDS| ==> HasEntry(Lookup, HEALTH_IDS[i], TARGET_NID)
  {
  }

  lemma ContractServesLNet()
    ensures ServesLNet(Lookup)
  {
    forall i | 0 <= i < |STATS_FIELDS| ensures HasEntry(Lookup, STATS_FIELDS[i].0, TARGET) { ContractHasStat(i); }
    forall name | ParamMetric(name).Some?
      ensures HasEntry(Lookup, ParamMetric(name).value.0, TARGET)
    {
      ContractHasParam(name);
    }
    ContractHasCounts();
    forall i: nat ensures i < |HEALTH_IDS| ==> HasEntry(Lookup, HEALTH_IDS[i], TARGET_NID) { ContractHasHealth(i); }
    ContractHasHealth(0);
  }

  // ------------------------------------------------------------ what each part holds

  /** Counts per interface, or counts of the node, or neither. */
  predicate IsCountByNid(o: Observation) {
    GlobalCount(o.metricID).Some?
  }

  predicate IsOther(o: Observation) {
    !IsCountByNid(o) && OtherThanGlobalCount(o)
  }

  ghost predicate All(p: Observation -> bool, obs: seq<Observation>) {
    forall i :: 0 <= i < |obs| ==> p(obs[i])
  }

  /** Conforming observations of one kind. */
  ghost predicate Part(reg: Registry, p: Observation -> bool, obs: seq<Observation>) {
    AllConform(reg, obs) && All(p, obs)
  }

  lemma LabelSets()
    ensures KeySet(TARGET) == {"component", "target"} && KeySet(TARGET_NID) == {"component", "target", "nid"}
  {
  }

  lemma StatIsNoCountByNid(i: nat)
    requires i < |STATS_FIELDS|
    ensures GlobalCount(STATS_FIELDS[i].0).None?
  {
  }

  lemma StatsPart(reg: Registry, source: string, values: seq<real>)
    requires ServesLNet(reg) && |values| <= |STATS_FIELDS|
    ensures Part(reg, o => !IsCountByNid(o), StatsObservations(source, values))
  {
    LabelSets();
    forall i: nat | i < |STATS_FIELDS| ensures GlobalCount(STATS_FIELDS[i].0).None? { StatIsNoCountByNid(i); }
  }

  lemma ParamIsOther(name: string)
    requires ParamMetric(name).Some?
    ensures GlobalCount(ParamMetric(name).value.0).None? && !IsGlobalCount(ParamMetric(name).value.0)
  {
  }

  lemma ParamPart(reg: Registry, env: Env, name: string)
    requires ServesLNet(reg)
    ensures Part(reg, IsOther, ParamOf(env, name))
  {
    LabelSets();
    if ParamMetric(name).Some? {
      ParamIsOther(name);
      assert HasEntry(reg, ParamMetric(name).value.0, TARGET);
    }
  }

  lemma {:induction false} ParamsPart(reg: Registry, env: Env, names: seq<string>)
    requires ServesLNet(reg)
    ensures Part(reg, IsOther, ParamsOf(env, names))
    decreases |names|
  {
    if names != [] {
      ParamsPart(reg, env, names[..|names| - 1]);
      ParamPart(reg, env, names[|names| - 1]);
    }
  }

  lemma CountsPart(reg: Registry, source: string, ni: NiCounts)
    requires ServesLNet(reg)
    ensures Part(reg, IsCountByNid, CountsOf(source, ni))
  {
    LabelSets();
  }

  lemma HealthIDsAreOther()
    ensures forall i :: 0 <= i < |HEALTH_IDS| ==> GlobalCount(HEALTH_IDS[i]).None? && !IsGlobalCount(HEALTH_IDS[i])
    ensures GlobalCount("lnet_ni_up").None? && !IsGlobalCount("lnet_ni_up")
  {
  }

  lemma UpPart(reg: Registry, source: string, ni: NiHealth)
    requires ServesLNet(reg)
    ensures Part(reg, IsOther, UpOf(source, ni))
  {
    LabelSets();
    HealthIDsAreOther();
  }

  lemma HealthSeriesPart(reg: Registry, source: string, nid: string, h: HealthStats)
    requires ServesLNet(reg)
    ensures Part(reg, IsOther, HealthOf(source, nid, h))
  {
    LabelSets();
    HealthIDsAreOther();
  }

  lemma HealthPart(reg: Registry, source: string, ni: NiHealth)
    requires ServesLNet(reg)
    ensures Part(reg, IsOther, NiObservations(source, ni))
  {
    UpPart(reg, source, ni);
    if ni.health.Some? {
      HealthSeriesPart(reg, source, ni.nid, ni.health.value);
    }
  }

  lemma {:induction false} EachPart<T(!new)>(reg: Registry, p: Observation -> bool, f: T -> seq<Observation>, xs: seq<T>)
    requires forall x :: Part(reg, p, f(x))
    ensures Part(reg, p, Each(f, xs))
    decreases |xs|
  {
    if xs != [] {
      EachPart(reg, p, f, xs[..|xs| - 1]);
      assert Part(reg, p, f(xs[|xs| - 1]));
    }
  }

  lemma AllCountsPart(reg: Registry, source: string, nis: seq<NiCounts>)
    requires ServesLNet(reg)
    ensures Part(reg, IsCountByNid, AllCounts(source, nis))
  {
    var f := ni => CountsOf(source, ni);
    forall ni ensures Part(reg, IsCountByNid, f(ni)) { CountsPart(reg, source, ni); }
    EachPart(reg, IsCountByNid, f, nis);
  }

  lemma AllHealthPart(reg: Registry, source: string, nis: seq<NiHealth>)
    requires ServesLNet(reg)
    ensures Part(reg, IsOther, AllHealth(source, nis))
  {
    var f := ni => NiObservations(source, ni);
    forall ni ensures Part(reg, IsOther, f(ni)) { HealthPart(reg, source, ni); }
    EachPart(reg, IsOther, f, nis);
  }

  // ------------------------------------------------------------- dropping the counts

  lemma DropPart(reg: Registry, p: Observation -> bool, obs: seq<Observation>)
    requires Part(reg, p, obs)
    ensures Part(reg, o => p(o) && OtherThanGlobalCount(o), DropGlobalCounts(obs))
  {
    FilterWithin(OtherThanGlobalCount, obs);
    var left := DropGlobalCounts(obs);
    forall i | 0 <= i < |left|
      ensures Conforms(reg, left[i]) && p(left[i]) && OtherThanGlobalCount(left[i])
    {
      assert left[i] in left;
    }
  }

  /** The eight statistics of `lnetctl` that no interface counts. */
  function OtherStats(source: string, s: CtlStats): seq<Observation> {
    [NodeObservation(source, "allocated", Gauge, s.msgsAlloc),
     NodeObservation(source, "maximum", Gauge, s.msgsMax),
     NodeObservation(source, "errors_total", Counter, s.errors),
     NodeObservation(source, "route_count_total", Counter, s.routeCount),
     NodeObservation(source, "send_bytes_total", Counter, s.sendLength),
     NodeObservation(source, "receive_bytes_total", Counter, s.recvLength),
     NodeObservation(source, "route_bytes_total", Counter, s.routeLength),
     NodeObservation(source, "drop_bytes_total", Counter, s.dropLength)]
  }

  lemma OtherStatsStay(source: string, s: CtlStats)
    ensures DropGlobalCounts(CtlObservations(source, s)) == OtherStats(source, s)
  {
    var c := CtlObservations(source, s);
    CtlReports(source, s);
    var tail := c[6..7] + c[7..];
    assert c == c[..3] + (c[3..5] + (c[5..6] + tail));
    FilterAfter(OtherThanGlobalCount, c[..3], c[3..5] + (c[5..6] + tail));
    FilterSkips(OtherThanGlobalCount, c[3..5], c[5..6] + tail);
    FilterAfter(OtherThanGlobalCount, c[5..6], tail);
    FilterSkips(OtherThanGlobalCount, c[6..7], c[7..]);
    FilterKeeps(OtherThanGlobalCount, c[7..]);
  }

  // -------------------------------------------------------------- what is collected

  /** Conforming statistics, counts, health and parameters; counts exclude those of the node. */
  ghost predicate Arranged(reg: Registry, stats: seq<Observation>, counts: seq<Observation>, health: seq<Observation>, params: seq<Observation>) {
    && Part(reg, o => !IsCountByNid(o), stats)
    && Part(reg, IsCountByNid, counts)
    && Part(reg, IsOther, health)
    && Part(reg, IsOther, params)
    && (counts == [] || All(OtherThanGlobalCount, stats))
  }

  lemma StatsShowPart(reg: Registry, env: Env)
    requires ServesLNet(reg) && StatsShow(env).Success?
    ensures Part(reg, o => !IsCountByNid(o), StatsShow(env).value)
  {
    var s := env.decodeStats(env.reader.run([env.bin, "stats", "show"]).value).value;
    CtlAgreesWithFile("lnetctl stats show", s);
    StatsPart(reg, "lnetctl stats show", CtlValues(s));
  }

  lemma NetHealthPart(reg: Registry, env: Env, net: string)
    requires ServesLNet(reg)
    ensures Part(reg, IsOther, NetHealthOf(env, net))
  {
    if env.decodeHealth(net).Success? {
      AllHealthPart(reg, "lnetctl net show", Flatten(env.decodeHealth(net).value));
    }
  }

  /** The three groups of a collection from `lnetctl`. */
  lemma LNetCtlParts(reg: Registry, env: Env)
    returns (stats: seq<Observation>, counts: seq<Observation>, health: seq<Observation>)
    requires ServesLNet(reg) && FromLNetCtl(env).Success?
    ensures FromLNetCtl(env).value == stats + counts + health
    ensures Arranged(reg, stats, counts, health, [])
    ensures counts == if NetCountsOf(env).Some? then NetCountsOf(env).value else []
    ensures stats == if counts == [] then StatsShow(env).value else DropGlobalCounts(StatsShow(env).value)
  {
    StatsShowPart(reg, env);
    stats, counts, health := StatsShow(env).value, [], [];
    if NetCountsOf(env).Some? {
      counts := NetCountsOf(env).value;
      AllCountsPart(reg, "lnetctl net show", Flatten(env.decodeCounts(NetShow(env).value).value));
      health := NetHealthOf(env, NetShow(env).value);
      NetHealthPart(reg, env, NetShow(env).value);
      DropPart(reg, o => !IsCountByNid(o), stats);
      if counts != [] {
        stats := DropGlobalCounts(stats);
      }
    }
  }

  lemma DebugFSParts(reg: Registry, env: Env, source: Source)
    returns (stats: seq<Observation>, health: seq<Observation>)
    requires ServesLNet(reg) && !UsesLNetCtl(env, source) && StatsOf(env, source).Success?
    ensures StatsOf(env, source).value == stats + health
    ensures Arranged(reg, stats, [], health, [])
  {
    stats := FromDebugFS(env).value;
    var file := FirstAvailable(env.reader, StatsPaths(env.cfg)).value;
    if stats != [] {
      StatsPart(reg, file.path, Numbers(env.pf, Fields(TrimSpace(file.data))).value);
    }
    health := if source.Auto? then SupplementalHealth(env) else [];
    if NetShow(env).Success? {
      NetHealthPart(reg, env, NetShow(env).value);
    }
  }

  /** Every collection consists of these four groups, in this order. */
  lemma CollectedParts(reg: Registry, env: Env, source: Source)
    returns (stats: seq<Observation>, counts: seq<Observation>, health: seq<Observation>, params: seq<Observation>)
    requires ServesLNet(reg) && Collected(env, source).Success?
    ensures Collected(env, source).value == stats + counts + health + params
    ensures Arranged(reg, stats, counts, health, params)
  {
    if UsesLNetCtl(env, source) {
      stats, counts, health := LNetCtlParts(reg, env);
    } else {
      counts := [];
      stats, health := DebugFSParts(reg, env, source);
      assert stats + counts == stats;
    }
    params := ParamsOf(env, PARAM_NAMES);
    ParamsPart(reg, env, PARAM_NAMES);
  }

  // -------------------------------------------------------------- exactly one form

  predicate Reported(obs: seq<Observation>, metricID: string) {
    exists i :: 0 <= i < |obs| && obs[i].metricID == metricID
  }

  /** `obs` reports all of `s`, with the counts per interface replacing those of the node, if there are any. */
  ghost predicate OneForm(source: string, s: CtlStats, obs: seq<Observation>, counts: seq<Observation>, health: seq<Observation>) {
    && All(IsCountByNid, counts)
    && All(IsOther, health)
    && obs == (if counts == [] then CtlObservations(source, s) else OtherStats(source, s)) + counts + health
    && (counts != [] ==> forall metricID :: GlobalCount(metricID).Some? ==> Reported(counts, metricID))
  }

  lemma InterfaceReportsAllCounts(source: string, ni: NiCounts, metricID: string)
    requires CountsOf(source, ni) != [] && GlobalCount(metricID).Some?
    ensures Reported(CountsOf(source, ni), metricID)
  {
    var obs := CountsOf(source, ni);
    assert obs[0].metricID == metricID || obs[1].metricID == metricID || obs[2].metricID == metricID;
  }

  lemma {:induction false} CountsComplete(source: string, nis: seq<NiCounts>, metricID: string)
    requires AllCounts(source, nis) != [] && GlobalCount(metricID).Some?
    ensures Reported(AllCounts(source, nis), metricID)
    decreases |nis|
  {
    var front, last := nis[..|nis| - 1], CountsOf(source, nis[|nis| - 1]);
    assert AllCounts(source, nis) == AllCounts(source, front) + last;
    if last == [] {
      CountsComplete(source, front, metricID);
      assert AllCounts(source, nis) == AllCounts(source, front);
    } else {
      InterfaceReportsAllCounts(source, nis[|nis| - 1], metricID);
      var k :| 0 <= k < |last| && last[k].metricID == metricID;
      assert AllCounts(source, nis)[|AllCounts(source, front)| + k] == last[k];
    }
  }

  /**
    From `lnetctl`, each of the three counts survives in exactly one form. Without a
    count of any interface all statistics of the node stay as they are; otherwise all
    three are there per interface, and exactly the other eight stay, in their order.
   */
  lemma CountsTakeOneForm(env: Env, s: CtlStats)
    requires FromLNetCtl(env).Success? && StatsShow(env) == Success(CtlObservations("lnetctl stats show", s))
    ensures exists counts, health :: OneForm("lnetctl stats show", s, FromLNetCtl(env).value, counts, health)
  {
    ContractServesLNet();
    var stats, counts, health := LNetCtlParts(Lookup, env);
    OtherStatsStay("lnetctl stats show", s);
    if counts != [] {
      forall metricID | GlobalCount(metricID).Some?
        ensures Reported(counts, metricID)
      {
        CountsComplete("lnetctl net show", Flatten(env.decodeCounts(NetShow(env).value).value), metricID);
      }
    }
    assert OneForm("lnetctl stats show", s, FromLNetCtl(env).value, counts, health);
  }

  // ------------------------------------------------------------ family consistency

  /** Observations with one public name have one set of label keys. */
  ghost predicate FamiliesConsistent(obs: seq<Observation>)
    requires AllConform(Lookup, obs)
  {
    forall i, j :: 0 <= i < |obs| && 0 <= j < |obs|
      && Lookup(obs[i].metricID).value.name == Lookup(obs[j].metricID).value.name
      ==> obs[i].labels.Keys == obs[j].labels.Keys
  }

  /** No count is there both per interface and for the node. */
  predicate NoCountTwice(obs: seq<Observation>) {
    forall i, j :: 0 <= i < |obs| && 0 <= j < |obs| ==> GlobalCount(obs[i].metricID) != Some(obs[j].metricID)
  }

  lemma CountsShareNames(metricID: string)
    requires GlobalCount(metricID).Some?
    ensures Lookup(metricID).Some? && Lookup(GlobalCount(metricID).value).Some?
    ensures Lookup(metricID).value.name == Lookup(GlobalCount(metricID).value).value.name
    ensures Lookup(metricID).value.labelKeys == TARGET_NID && Lookup(GlobalCount(metricID).value).value.labelKeys == TARGET
  {
  }

  lemma PairConsistent(a: Observation, b: Observation)
    requires Conforms(Lookup, a) && Conforms(Lookup, b)
    requires GlobalCount(a.metricID) != Some(b.metricID) && GlobalCount(b.metricID) != Some(a.metricID)
    requires Lookup(a.metricID).value.name == Lookup(b.metricID).value.name
    ensures a.labels.Keys == b.labels.Keys
  {
    if a.metricID != b.metricID {
      SharedNames(a.metricID, b.metricID);
    }
  }

  lemma PairMixed(a: Observation, b: Observation)
    requires Conforms(Lookup, a) && Conforms(Lookup, b) && GlobalCount(a.metricID) == Some(b.metricID)
    ensures Lookup(a.metricID).value.name == Lookup(b.metricID).value.name && a.labels.Keys != b.labels.Keys
  {
    CountsShareNames(a.metricID);
    LabelSets();
    assert "nid" in KeySet(TARGET_NID) && "nid" !in KeySet(TARGET);
  }

  /** Families of any conforming observations are consistent exactly when no count is there in both forms. */
  lemma FamiliesConsistentExactly(obs: seq<Observation>)
    requires AllConform(Lookup, obs)
    ensures FamiliesConsistent(obs) <==> NoCountTwice(obs)
  {
    if NoCountTwice(obs) {
      forall i, j | 0 <= i < |obs| && 0 <= j < |obs| && Lookup(obs[i].metricID).value.name == Lookup(obs[j].metricID).value.name
        ensures obs[i].labels.Keys == obs[j].labels.Keys
      {
        PairConsistent(obs[i], obs[j]);
      }
    } else {
      var i, j :| 0 <= i < |obs| && 0 <= j < |obs| && GlobalCount(obs[i].metricID) == Some(obs[j].metricID);
      PairMixed(obs[i], obs[j]);
    }
  }

  lemma GlobalCountsAreGlobal(metricID: string)
    ensures GlobalCount(metricID).Some? ==> IsGlobalCount(GlobalCount(metricID).value)
    ensures GlobalCount(metricID).Some? ==> !IsGlobalCount(metricID)
  {
  }

  lemma ArrangedHasNoCountTwice(reg: Registry, stats: seq<Observation>, counts: seq<Observation>, health: seq<Observation>, params: seq<Observation>)
    requires Arranged(reg, stats, counts, health, params)
    ensures AllConform(reg, stats + counts + health + params)
    ensures NoCountTwice(stats + counts + health + params)
  {
    var obs := stats + counts + health + params;
    forall i, j | 0 <= i < |obs| && 0 <= j < |obs|
      ensures GlobalCount(obs[i].metricID) != Some(obs[j].metricID)
    {
      GlobalCountsAreGlobal(obs[i].metricID);
      GlobalCountsAreGlobal(obs[j].metricID);
    }
  }

  /**
    In every mode and for every mix of failures of files and commands, all that is
    collected is in the contract, with exactly its labels, and no public name occurs
    with two different sets of label keys.
   */
  lemma CollectedIsConsistent(env: Env, source: Source)
    requires Collected(env, source).Success?
    ensures AllConform(Lookup, Collected(env, source).value)
    ensures FamiliesConsistent(Collected(env, source).value)
  {
    ContractServesLNet();
    var stats, counts, health, params := CollectedParts(Lookup, env, source);
    ArrangedHasNoCountTwice(Lookup, stats, counts, health, params);
    FamiliesConsistentExactly(Collected(env, source).value);
  }
}
