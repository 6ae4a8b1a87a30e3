/** What the two modes of the client collector have in common, and what they collect. */
module ClientTheorems {
  import opened Wrappers
  import opened GoStrings
  import opened Observations
  import opened Readers
  import opened Discovery
  import opened ClientCollector
  import C = Contract
  import P = ParserContract
  import R = RpcStats
  import S = StatsFiles
  import T = TargetFiles

  /**
    Runs both modes on the same inputs. Strict collection fails exactly when non-strict
    collection logs a warning, and then with the first one; strict mode itself logs
    nothing, and when it succeeds both modes return the same observations in order.
   */
  method CompareModes(inputs: Inputs)
    returns (strict: CollectResult, lax: CollectResult, strictLog: seq<CollectError>, laxLog: seq<CollectError>)
    ensures lax.Success?
    ensures strictLog == []
    ensures strict.Failure? <==> laxLog != []
    ensures strict.Failure? ==> strict.error == laxLog[0]
    ensures strict.Success? ==> strict == lax
    ensures lax.value == Gathered(inputs.All()) && laxLog == Failures(inputs.All())
  {
    var s := new Collector(inputs, true);
    strict := s.Collect();
    var n := new Collector(inputs, false);
    lax := n.Collect();
    strictLog, laxLog := s.warnings, n.warnings;
  }

  // --------------------------------------------------------------- decomposition

  /** The observations of an mdc or osc target: those of each source alone, in fixed order. */
  lemma RpcTargetDecomposes(inputs: Inputs, t: ClientTarget)
    requires t.component == "mdc" || t.component == "osc"
    ensures Gathered(inputs.Target(t))
         == ObsOf(inputs.ObdStats(t)) + ObsOf(inputs.RpcStats(t)) + Gathered(inputs.Params(t, ParamFiles(t.component)))
  {
    var a, b, c := [inputs.ObdStats(t)], [inputs.RpcStats(t)], inputs.Params(t, ParamFiles(t.component));
    assert inputs.Target(t) == a + b + c;
    OutcomesConcat(a, b);
    OutcomesConcat(a + b, c);
    OneOutcome(inputs.ObdStats(t));
    OneOutcome(inputs.RpcStats(t));
  }

  /** A mount whose stats file fails yields nothing at all; otherwise its stats and its files. */
  lemma LliteTargetDecomposes(inputs: Inputs, t: ClientTarget)
    requires t.component == "llite"
    ensures Gathered(inputs.Target(t))
         == if inputs.LliteStats(t).Fails? then []
            else inputs.LliteStats(t).obs + Gathered(inputs.LliteFiles(t, LLITE_FILES))
  {
    var a := [inputs.LliteStats(t)];
    var rest := if inputs.LliteStats(t).Fails? then [] else inputs.LliteFiles(t, LLITE_FILES);
    assert inputs.Target(t) == a + rest;
    OutcomesConcat(a, rest);
    OneOutcome(inputs.LliteStats(t));
  }

  // ------------------------------------------------------- the collector end to end

  /** The collector with the parsers of this model. */
  ghost function RealInputs(pf: NumberParser, reader: Reader, cfg: PathConfig): Inputs {
    Inputs(reader,
           Parsers((data, source) => S.ParseLdlm(pf, data, source),
                   (data, ctx) => S.ParseLlite(pf, data, ctx),
                   (data, file, ctx) => T.ParseLliteFile(pf, data, file, ctx),
                   (data, ctx) => S.ParseObd(pf, data, ctx),
                   (data, ctx) => R.Parse(pf, data, ctx),
                   (data, ctx) => T.ParseState(data, ctx),
                   (data, file, ctx) => T.ParseClientFile(pf, data, file, ctx)),
           cfg)
  }

  /** Parsers that only report observations of the contract. */
  ghost predicate ConformingParsers(reg: C.Registry, p: Parsers) {
    && (forall d, s :: p.ldlm(d, s).Success? ==> C.AllConform(reg, p.ldlm(d, s).value))
    && (forall d, c :: p.lliteStats(d, c).Success? ==> C.AllConform(reg, p.lliteStats(d, c).value))
    && (forall d, f, c :: p.lliteFile(d, f, c).Success? ==> C.AllConform(reg, p.lliteFile(d, f, c).value))
    && (forall d, c :: p.obdStats(d, c).Success? ==> C.AllConform(reg, p.obdStats(d, c).value))
    && (forall d, c :: p.rpcStats(d, c).Success? ==> C.AllConform(reg, p.rpcStats(d, c).value))
    && (forall d, c :: C.AllConform(reg, p.state(d, c)))
    && (forall d, f, c :: p.clientFile(d, f, c).Success? ==> C.AllConform(reg, p.clientFile(d, f, c).value))
  }

  lemma RealParsersConform(reg: C.Registry, pf: NumberParser, reader: Reader, cfg: PathConfig)
    requires P.ServesClients(reg)
    ensures ConformingParsers(reg, RealInputs(pf, reader, cfg).parsers)
  {
    var p := RealInputs(pf, reader, cfg).parsers;
    forall d, s | p.ldlm(d, s).Success? ensures C.AllConform(reg, p.ldlm(d, s).value) {
      P.LdlmConforms(reg, pf, d, s);
    }
    forall d, c | p.lliteStats(d, c).Success? ensures C.AllConform(reg, p.lliteStats(d, c).value) {
      P.LliteConforms(reg, pf, d, c);
    }
    forall d, c | p.obdStats(d, c).Success? ensures C.AllConform(reg, p.obdStats(d, c).value) {
      P.ObdConforms(reg, pf, d, c);
    }
    forall d, c | p.rpcStats(d, c).Success? ensures C.AllConform(reg, p.rpcStats(d, c).value) {
      P.RpcStatsConform(reg, pf, d, c);
    }
    RealFileParsersConform(reg, pf, p);
  }

  lemma RealFileParsersConform(reg: C.Registry, pf: NumberParser, p: Parsers)
    requires P.FileEntries(reg)
    requires forall d, f, c :: p.lliteFile(d, f, c) == T.ParseLliteFile(pf, d, f, c)
    requires forall d, f, c :: p.clientFile(d, f, c) == T.ParseClientFile(pf, d, f, c)
    requires forall d, c :: p.state(d, c) == T.ParseState(d, c)
    ensures forall d, f, c :: p.lliteFile(d, f, c).Success? ==> C.AllConform(reg, p.lliteFile(d, f, c).value)
    ensures forall d, f, c :: p.clientFile(d, f, c).Success? ==> C.AllConform(reg, p.clientFile(d, f, c).value)
    ensures forall d, c :: C.AllConform(reg, p.state(d, c))
  {
    forall d, f, c | p.lliteFile(d, f, c).Success? ensures C.AllConform(reg, p.lliteFile(d, f, c).value) {
      P.LliteFileConforms(reg, pf, d, f, c);
    }
    forall d, f, c | p.clientFile(d, f, c).Success? ensures C.AllConform(reg, p.clientFile(d, f, c).value) {
      P.ClientFileConforms(reg, pf, d, f, c);
    }
    forall d, c ensures C.AllConform(reg, p.state(d, c)) {
      P.StateConforms(reg, d, c);
    }
  }

  ghost predicate OutcomeConforms(reg: C.Registry, out: Outcome) {
    out.Yields? ==> C.AllConform(reg, out.obs)
  }

  ghost predicate OutcomesConform(reg: C.Registry, outs: seq<Outcome>) {
    forall i :: 0 <= i < |outs| ==> OutcomeConforms(reg, outs[i])
  }

  lemma {:induction false} GatheredConform(reg: C.Registry, outs: seq<Outcome>)
    requires OutcomesConform(reg, outs)
    ensures C.AllConform(reg, Gathered(outs))
    decreases |outs|
  {
    if outs != [] {
      assert OutcomeConforms(reg, outs[|outs| - 1]);
      GatheredConform(reg, outs[..|outs| - 1]);
    }
  }

  lemma TargetConforms(reg: C.Registry, inputs: Inputs, t: ClientTarget)
    requires ConformingParsers(reg, inputs.parsers)
    ensures OutcomesConform(reg, inputs.Target(t))
  {
    forall file ensures OutcomeConforms(reg, inputs.LliteFile(t, file)) {}
    forall file ensures OutcomeConforms(reg, inputs.Param(t, file)) {}
    assert OutcomeConforms(reg, inputs.LliteStats(t));
    assert OutcomeConforms(reg, inputs.ObdStats(t));
    assert OutcomeConforms(reg, inputs.RpcStats(t));
  }

  lemma {:induction false} TargetsConform(reg: C.Registry, inputs: Inputs, ts: seq<ClientTarget>)
    requires ConformingParsers(reg, inputs.parsers)
    ensures OutcomesConform(reg, inputs.Targets(ts))
    decreases |ts|
  {
    if ts != [] {
      TargetConforms(reg, inputs, ts[|ts| - 1]);
      TargetsConform(reg, inputs, ts[..|ts| - 1]);
    }
  }

  /** Whatever the files hold, everything a scrape of the clients gathers is in the contract. */
  lemma CollectedConforms(pf: NumberParser, reader: Reader, cfg: PathConfig)
    ensures C.AllConform(C.Lookup, Gathered(RealInputs(pf, reader, cfg).All()))
  {
    P.ContractServesClients();
    CollectedConformsTo(C.Lookup, pf, reader, cfg);
  }

  lemma SourcesConform(reg: C.Registry, inputs: Inputs)
    requires ConformingParsers(reg, inputs.parsers)
    ensures OutcomesConform(reg, inputs.All())
  {
    TargetsConform(reg, inputs, Discovered(inputs.cfg, StatsFinds(inputs.reader, inputs.cfg), RpcFinds(inputs.reader, inputs.cfg)));
    assert OutcomeConforms(reg, inputs.Ldlm());
  }

  lemma CollectedConformsTo(reg: C.Registry, pf: NumberParser, reader: Reader, cfg: PathConfig)
    requires P.ServesClients(reg)
    ensures C.AllConform(reg, Gathered(RealInputs(pf, reader, cfg).All()))
  {
    var inputs := RealInputs(pf, reader, cfg);
    RealParsersConform(reg, pf, reader, cfg);
    SourcesConform(reg, inputs);
    GatheredConform(reg, inputs.All());
  }

  /** All mapped observations, in order. */
  ghost predicate AllStand(reg: C.Registry, mapped: seq<C.MappedObservation>, obs: seq<Observation>) {
    |mapped| == |obs| && forall i :: 0 <= i < |mapped| ==> C.Stands(reg, mapped[i], obs[i])
  }

  /**
    Collection and mapping together: the contract never rejects what was collected, so the
    mode alone decides whether a scrape fails, and otherwise all that was gathered is
    mapped, in order.
   */
  method CollectMapped(inputs: Inputs, strict: bool, ghost pf: NumberParser)
    returns (r: Result<seq<C.MappedObservation>, CollectError>)
    requires inputs == RealInputs(pf, inputs.reader, inputs.cfg)
    ensures r.Failure? <==> strict && Failures(inputs.All()) != []
    ensures r.Failure? ==> r.error == Failures(inputs.All())[0]
    ensures r.Success? ==> AllStand(C.Lookup, r.value, Gathered(inputs.All()))
  {
    var collector := new Collector(inputs, strict);
    var obs := collector.Collect();
    if obs.Failure? {
      return Failure(obs.error);
    }
    CollectedConforms(pf, inputs.reader, inputs.cfg);
    r := MapCollected(C.Lookup, obs.value);
  }

  /** The mapper accepts whatever conforms. */
  method MapCollected(reg: C.Registry, obs: seq<Observation>) returns (r: Result<seq<C.MappedObservation>, CollectError>)
    requires C.AllConform(reg, obs)
    ensures r.Success? && AllStand(reg, r.value, obs)
  {
    assert forall i :: 0 <= i < |obs| ==> C.Conforms(reg, obs[i]);
    var mapped := C.Map(reg, obs);
    r := Success(mapped.value);
  }
}
