/**
  What one file can change of a scrape of the clients: exactly what the one source that
  reads it yields.
 */
module ClientIndependence {
  import opened Wrappers
  import opened GoStrings
  import opened Observations
  import opened Readers
  import opened Discovery
  import opened ClientCollector
  import opened ClientTheorems
  import N = ContractNames

  /** Inputs that differ at most in what one path holds, or in whether it can be read. */
  ghost predicate DifferOnlyAt(a: Inputs, b: Inputs, path: string) {
    && a.parsers == b.parsers && a.cfg == b.cfg && a.reader.glob == b.reader.glob
    && forall p :: p != path ==> a.reader.readFile(p) == b.reader.readFile(p)
  }

  // ------------------------------------------------------------ what a target reads

  predicate IsRpcTarget(t: ClientTarget) {
    t.component == "mdc" || t.component == "osc"
  }

  function FilesOf(t: ClientTarget): seq<string> {
    if t.component == "llite" then LLITE_FILES else if IsRpcTarget(t) then ParamFiles(t.component) else []
  }

  predicate ReadsStats(t: ClientTarget, path: string) {
    path == t.statsPath && (t.component == "llite" || (IsRpcTarget(t) && path != ""))
  }

  predicate ReadsRpcStats(t: ClientTarget, path: string) {
    path == t.rpcStatsPath && IsRpcTarget(t) && path != ""
  }

  predicate ReadsFile(t: ClientTarget, file: string, path: string) {
    path in PathsIn(t.paramRoots, file)
  }

  /** A scrape of the target may read this path. */
  predicate Reads(t: ClientTarget, path: string) {
    ReadsStats(t, path) || ReadsRpcStats(t, path) || exists file :: file in FilesOf(t) && ReadsFile(t, file, path)
  }

  lemma {:induction false} SameFirstAvailable(a: Inputs, b: Inputs, path: string, paths: seq<string>)
    requires DifferOnlyAt(a, b, path) && path !in paths
    ensures FirstAvailable(a.reader, paths) == FirstAvailable(b.reader, paths)
    decreases |paths|
  {
    if paths != [] {
      SameFirstAvailable(a, b, path, paths[1..]);
    }
  }

  /** A file that a path does not hold is read the same. */
  lemma FileUnchanged(a: Inputs, b: Inputs, path: string, t: ClientTarget, file: string)
    requires DifferOnlyAt(a, b, path) && !ReadsFile(t, file, path)
    ensures a.LliteFile(t, file) == b.LliteFile(t, file) && a.Param(t, file) == b.Param(t, file)
  {
    SameFirstAvailable(a, b, path, PathsIn(t.paramRoots, file));
  }

  lemma TargetUnchanged(a: Inputs, b: Inputs, path: string, t: ClientTarget)
    requires DifferOnlyAt(a, b, path) && !Reads(t, path)
    ensures a.Target(t) == b.Target(t)
  {
    var files := FilesOf(t);
    forall i | 0 <= i < |files|
      ensures a.LliteFile(t, files[i]) == b.LliteFile(t, files[i]) && a.Param(t, files[i]) == b.Param(t, files[i])
    {
      assert files[i] in files;
      FileUnchanged(a, b, path, t, files[i]);
    }
    assert a.LliteFiles(t, files) == b.LliteFiles(t, files) && a.Params(t, files) == b.Params(t, files);
  }

  lemma {:induction false} TargetsUnchanged(a: Inputs, b: Inputs, path: string, ts: seq<ClientTarget>)
    requires DifferOnlyAt(a, b, path) && forall i :: 0 <= i < |ts| ==> !Reads(ts[i], path)
    ensures a.Targets(ts) == b.Targets(ts)
    decreases |ts|
  {
    if ts != [] {
      TargetsUnchanged(a, b, path, ts[..|ts| - 1]);
      TargetUnchanged(a, b, path, ts[|ts| - 1]);
    }
  }

  lemma {:induction false} TargetsConcat(inputs: Inputs, ts: seq<ClientTarget>, us: seq<ClientTarget>)
    ensures inputs.Targets(ts + us) == inputs.Targets(ts) + inputs.Targets(us)
    decreases |us|
  {
    if us == [] {
      assert ts + us == ts;
    } else {
      assert (ts + us)[..|ts + us| - 1] == ts + us[..|us| - 1];
      TargetsConcat(inputs, ts, us[..|us| - 1]);
      Reassociate(inputs.Targets(ts), inputs.Targets(us[..|us| - 1]), inputs.Target(us[|us| - 1]));
    }
  }

  lemma TargetsAround(inputs: Inputs, ts: seq<ClientTarget>, k: nat)
    requires k < |ts|
    ensures inputs.Targets(ts) == inputs.Targets(ts[..k]) + inputs.Target(ts[k]) + inputs.Targets(ts[k + 1..])
  {
    assert ts == ts[..k + 1] + ts[k + 1..];
    TargetsConcat(inputs, ts[..k + 1], ts[k + 1..]);
    TargetsSnoc(inputs, ts, k);
  }

  // ------------------------------------------------------------------ the whole scrape

  function Found(inputs: Inputs): seq<ClientTarget> {
    DiscoveredBy(inputs.reader, inputs.cfg)
  }

  lemma FoundUnchanged(a: Inputs, b: Inputs, path: string)
    requires DifferOnlyAt(a, b, path)
    ensures Found(a) == Found(b)
  {
    forall p ensures Matches(a.reader, p) == Matches(b.reader, p) {}
    FindsOfSame(a.reader, b.reader, a.cfg, STATS_COMPONENTS, "stats");
    FindsOfSame(a.reader, b.reader, a.cfg, RPC_COMPONENTS, "rpc_stats");
  }

  /** The sources of a scrape before target `k`, those of the target, and those after it. */
  lemma AllAround(inputs: Inputs, k: nat)
    requires k < |Found(inputs)|
    ensures inputs.All() == SourcesBefore(inputs, k) + inputs.Target(Found(inputs)[k]) + SourcesAfter(inputs, k)
  {
    var ts := Found(inputs);
    TargetsAround(inputs, ts, k);
    FourParts([inputs.Ldlm()], inputs.Targets(ts[..k]), inputs.Target(ts[k]), inputs.Targets(ts[k + 1..]));
  }

  lemma FourParts<T>(w: seq<T>, x: seq<T>, y: seq<T>, z: seq<T>)
    ensures w + (x + y + z) == w + x + y + z
  {
  }

  function SourcesBefore(inputs: Inputs, k: nat): seq<Outcome>
    requires k < |Found(inputs)|
  {
    [inputs.Ldlm()] + inputs.Targets(Found(inputs)[..k])
  }

  function SourcesAfter(inputs: Inputs, k: nat): seq<Outcome>
    requires k < |Found(inputs)|
  {
    inputs.Targets(Found(inputs)[k + 1..])
  }

  /** What a scrape gathers and logs, in three parts. */
  lemma GatheredAround(x: seq<Outcome>, y: seq<Outcome>, z: seq<Outcome>)
    ensures Gathered(x + y + z) == Gathered(x) + Gathered(y) + Gathered(z)
    ensures Failures(x + y + z) == Failures(x) + Failures(y) + Failures(z)
  {
    OutcomesConcat(x, y);
    OutcomesConcat(x + y, z);
  }

  // ------------------------------------------------------------- every path has one owner

  /** The last three elements of a path: component, target and file. */
  predicate EndsIn(path: string, component: string, name: string, file: string) {
    var parts := Split(path, '/');
    |parts| >= 3 && parts[|parts| - 3..] == [component, name, file]
  }

  /** A match of the pattern of a component's file, whose `*` stands for one element. */
  ghost predicate IsMatchOf(path: string, component: string, file: string) {
    exists name :: name != "" && EndsIn(path, component, name, file)
  }

  /** Globs that return matches of their pattern and nothing else. */
  ghost predicate HonestGlobs(r: Reader, cfg: PathConfig) {
    forall component, file, path ::
      component in STATS_COMPONENTS && file in ["stats", "rpc_stats"] && path in AllMatches(r, Patterns(cfg, component, file))
      ==> IsMatchOf(path, component, file)
  }

  lemma JoinedEndsIn(first: string, rest: seq<string>)
    requires rest != [] && forall i :: 0 <= i < |rest| ==> '/' !in rest[i]
    ensures Split(JoinPath([first] + rest), '/') == Split(first, '/') + rest
  {
    assert ([first] + rest)[1..] == rest;
    SplitConcat(first, Join(rest, '/'), '/');
    SplitJoin(rest, '/');
  }

  lemma ParamPathEndsIn(root: string, component: string, name: string, file: string)
    requires '/' !in component && '/' !in name && '/' !in file
    ensures EndsIn(JoinPath([JoinPath([root, "fs", "lustre", component, name]), file]), component, name, file)
  {
    var dir := ["fs", "lustre", component, name];
    assert [root] + dir == [root, "fs", "lustre", component, name];
    JoinedEndsIn(root, dir);
    JoinedEndsIn(JoinPath([root] + dir), [file]);
    assert [JoinPath([root] + dir)] + [file] == [JoinPath([root] + dir), file];
    assert Split(root, '/') + dir + [file] == (Split(root, '/') + ["fs", "lustre"]) + [component, name, file];
  }

  lemma ComponentsHaveNoSlash(component: string)
    requires component in STATS_COMPONENTS
    ensures '/' !in component
  {
  }

  lemma LliteFilesAreNames(file: string)
    requires file in LLITE_FILES
    ensures N.IsIdentifier(file) && file != "stats" && file != "rpc_stats"
  {
  }

  lemma ParamFilesAreNames(file: string)
    requires file in OSC_FILES || file in MDC_FILES
    ensures N.IsIdentifier(file) && file != "stats" && file != "rpc_stats"
  {
  }

  lemma NamesHaveNoSlash(file: string)
    requires N.IsIdentifier(file)
    ensures '/' !in file
  {
    assert '/' !in N.Chars(N.LETTERS);
    assert '/' !in N.Chars(file);
  }

  lemma FilesHaveNoSlash(t: ClientTarget, file: string)
    requires file in FilesOf(t)
    ensures '/' !in file && file != "stats" && file != "rpc_stats"
  {
    if t.component == "llite" {
      LliteFilesAreNames(file);
    } else {
      ParamFilesAreNames(file);
    }
    NamesHaveNoSlash(file);
  }

  /** A file found for a component lies in a directory of the component that bears the target's name. */
  lemma FindEndsIn(r: Reader, cfg: PathConfig, component: string, file: string, path: string)
    requires HonestGlobs(r, cfg) && component in STATS_COMPONENTS && file in ["stats", "rpc_stats"]
    requires path in AllMatches(r, Patterns(cfg, component, file))
    ensures EndsIn(path, component, TargetName(path), file) && '/' !in TargetName(path) && path != ""
  {
    var name :| name != "" && EndsIn(path, component, name, file);
    var parts := Split(path, '/');
    assert parts[|parts| - 2] == parts[|parts| - 3..][1];
    assert Split("", '/') == [""];
  }

  lemma {:induction false} FirstPathIsFound(finds: seq<Find>, id: TargetId)
    ensures FirstPath(finds, id).Some? ==> exists f :: f in finds && f.Id() == id && f.path == FirstPath(finds, id).value
    ensures FirstPath(Named(finds), id).Some? ==> exists f :: f in finds && f.Id() == id && f.path == FirstPath(Named(finds), id).value
  {
    if finds != [] {
      FirstPathIsFound(finds[1..], id);
      assert finds[0] in finds && forall f :: f in finds[1..] ==> f in finds;
      if finds[0].path != "" {
        assert Named(finds)[1..] == Named(finds[1..]);
      }
    }
  }

  /** Where the files of a discovered target lie. */
  ghost predicate WellPlaced(t: ClientTarget) {
    && t.component in STATS_COMPONENTS && '/' !in t.name
    && (t.statsPath != "" ==> EndsIn(t.statsPath, t.component, t.name, "stats"))
    && (t.rpcStatsPath != "" ==> EndsIn(t.rpcStatsPath, t.component, t.name, "rpc_stats"))
    && (t.component == "llite" ==> t.statsPath != "")
    && (exists cfg :: t.paramRoots == ParamRoots(cfg, t.Id()))
  }

  /** Every find lies where its target lies. */
  ghost predicate AllPlaced(finds: seq<Find>, file: string) {
    forall f :: f in finds ==> EndsIn(f.path, f.component, f.Id().name, file) && '/' !in f.Id().name && f.path != ""
  }

  lemma {:induction false} FindsArePlaced(r: Reader, cfg: PathConfig, components: seq<string>, file: string)
    requires HonestGlobs(r, cfg) && file in ["stats", "rpc_stats"] && forall c :: c in components ==> c in STATS_COMPONENTS
    ensures AllPlaced(FindsOf(r, cfg, components, file), file)
    decreases |components|
  {
    if components != [] {
      FindsArePlaced(r, cfg, components[1..], file);
      var finds := FindsIn(components[0], AllMatches(r, Patterns(cfg, components[0], file)));
      forall f | f in finds
        ensures EndsIn(f.path, f.component, f.Id().name, file) && '/' !in f.Id().name && f.path != ""
      {
        FindEndsIn(r, cfg, components[0], file, f.path);
      }
    }
  }

  lemma FirstPathsEndIn(finds: seq<Find>, id: TargetId, file: string)
    requires AllPlaced(finds, file)
    ensures FirstPath(finds, id).Some? ==> EndsIn(FirstPath(finds, id).value, id.component, id.name, file) && FirstPath(finds, id).value != ""
    ensures FirstPath(Named(finds), id).Some? ==> EndsIn(FirstPath(Named(finds), id).value, id.component, id.name, file)
  {
    FirstPathIsFound(finds, id);
  }

  lemma IdsHaveNoSlash(finds: seq<Find>, id: TargetId, file: string)
    requires AllPlaced(finds, file) && id in Ids(finds)
    ensures '/' !in id.name
  {
    var i :| 0 <= i < |finds| && finds[i].Id() == id;
    assert finds[i] in finds;
  }

  lemma NoLliteRpcFile(r: Reader, cfg: PathConfig, id: TargetId)
    requires id.component == "llite"
    ensures id !in Ids(RpcFinds(r, cfg))
  {
    var rpc := RpcFinds(r, cfg);
    FindsHaveComponents(r, cfg, RPC_COMPONENTS, "rpc_stats");
    forall i | 0 <= i < |rpc|
      ensures rpc[i].Id() != id
    {
      assert rpc[i] in rpc;
    }
  }

  lemma DiscoveredIsWellPlaced(inputs: Inputs, t: ClientTarget)
    requires HonestGlobs(inputs.reader, inputs.cfg) && t in Found(inputs)
    ensures WellPlaced(t)
  {
    var r, cfg, id := inputs.reader, inputs.cfg, t.Id();
    FindsArePlaced(r, cfg, STATS_COMPONENTS, "stats");
    FindsArePlaced(r, cfg, RPC_COMPONENTS, "rpc_stats");
    IsDiscovered(cfg, StatsFinds(r, cfg), RpcFinds(r, cfg), t);
    DiscoveredComponents(r, cfg, t);
    PlacedTarget(cfg, StatsFinds(r, cfg), RpcFinds(r, cfg), t);
    if t.component == "llite" {
      NoLliteRpcFile(r, cfg, id);
      FirstPathNone(StatsFinds(r, cfg), id);
      FirstPathsEndIn(StatsFinds(r, cfg), id, "stats");
    }
  }

  lemma PlacedTarget(cfg: PathConfig, stats: seq<Find>, rpc: seq<Find>, t: ClientTarget)
    requires AllPlaced(stats, "stats") && AllPlaced(rpc, "rpc_stats")
    requires (t.Id() in Ids(stats) || t.Id() in Ids(rpc)) && t == TargetFor(cfg, stats, rpc, t.Id())
    ensures '/' !in t.name
    ensures t.statsPath != "" ==> EndsIn(t.statsPath, t.component, t.name, "stats")
    ensures t.rpcStatsPath != "" ==> EndsIn(t.rpcStatsPath, t.component, t.name, "rpc_stats")
    ensures t.paramRoots == ParamRoots(cfg, t.Id())
  {
    FirstPathsEndIn(stats, t.Id(), "stats");
    FirstPathsEndIn(rpc, t.Id(), "rpc_stats");
    if t.Id() in Ids(stats) {
      IdsHaveNoSlash(stats, t.Id(), "stats");
    } else {
      IdsHaveNoSlash(rpc, t.Id(), "rpc_stats");
    }
  }

  /** The file that a well-placed target reads a path for. */
  lemma ReadEndsIn(t: ClientTarget, path: string)
    requires WellPlaced(t)
    ensures ReadsStats(t, path) ==> EndsIn(path, t.component, t.name, "stats")
    ensures ReadsRpcStats(t, path) ==> EndsIn(path, t.component, t.name, "rpc_stats")
    ensures forall file :: file in FilesOf(t) && ReadsFile(t, file, path) ==> EndsIn(path, t.component, t.name, file)
  {
    ComponentsHaveNoSlash(t.component);
    forall file | file in FilesOf(t) && ReadsFile(t, file, path)
      ensures EndsIn(path, t.component, t.name, file)
    {
      FilesHaveNoSlash(t, file);
      var cfg :| t.paramRoots == ParamRoots(cfg, t.Id());
      ParamPathEndsIn(cfg.procFS, t.component, t.name, file);
      ParamPathEndsIn(cfg.sysFS, t.component, t.name, file);
    }
  }

  lemma EndsInDetermines(path: string, c: string, n: string, f: string, c': string, n': string, f': string)
    requires EndsIn(path, c, n, f) && EndsIn(path, c', n', f')
    ensures c == c' && n == n' && f == f'
  {
    var tail := Split(path, '/')[|Split(path, '/')| - 3..];
    assert tail[0] == c == c' && tail[1] == n == n' && tail[2] == f == f';
  }

  /** No two discovered targets read the same path. */
  lemma OneOwner(inputs: Inputs, i: nat, j: nat, path: string)
    requires HonestGlobs(inputs.reader, inputs.cfg)
    requires i < |Found(inputs)| && j < |Found(inputs)| && Reads(Found(inputs)[i], path) && Reads(Found(inputs)[j], path)
    ensures i == j
  {
    var t, u := Found(inputs)[i], Found(inputs)[j];
    DiscoveredIsWellPlaced(inputs, t);
    DiscoveredIsWellPlaced(inputs, u);
    ReadEndsIn(t, path);
    ReadEndsIn(u, path);
    var f :| EndsIn(path, t.component, t.name, f);
    var g :| EndsIn(path, u.component, u.name, g);
    EndsInDetermines(path, t.component, t.name, f, u.component, u.name, g);
    DiscoveredTargets(inputs.cfg, StatsFinds(inputs.reader, inputs.cfg), RpcFinds(inputs.reader, inputs.cfg));
  }

  lemma ServicesAreNoComponent(path: string, component: string, name: string, file: string)
    requires EndsIn(path, "services", "ldlm_cbd", "stats") && component in STATS_COMPONENTS
    ensures !EndsIn(path, component, name, file)
  {
    assert Split(path, '/')[|Split(path, '/')| - 3..][0] == "services";
    assert "services"[0] == 's' && [component, name, file][0] == component;
  }

  /** No target reads the LDLM callback statistics. */
  lemma LdlmIsApart(inputs: Inputs, k: nat, path: string)
    requires HonestGlobs(inputs.reader, inputs.cfg) && k < |Found(inputs)| && path in LdlmPaths(inputs.cfg)
    ensures !Reads(Found(inputs)[k], path)
  {
    var t := Found(inputs)[k];
    DiscoveredIsWellPlaced(inputs, t);
    LdlmPathsEndIn(inputs.cfg, path);
    forall file ensures !EndsIn(path, t.component, t.name, file) { ServicesAreNoComponent(path, t.component, t.name, file); }
    ReadEndsIn(t, path);
  }

  lemma LongPathEndsIn(first: string, middle: seq<string>, component: string, name: string, file: string)
    requires forall i :: 0 <= i < |middle| ==> '/' !in middle[i]
    requires '/' !in component && '/' !in name && '/' !in file
    ensures EndsIn(JoinPath([first] + (middle + [component, name, file])), component, name, file)
  {
    JoinedEndsIn(first, middle + [component, name, file]);
    assert Split(first, '/') + (middle + [component, name, file]) == Split(first, '/') + middle + [component, name, file];
  }

  lemma LdlmPathsEndIn(cfg: PathConfig, path: string)
    requires path in LdlmPaths(cfg)
    ensures EndsIn(path, "services", "ldlm_cbd", "stats")
  {
    LdlmElements();
    if path == LdlmPaths(cfg)[0] {
      LongPathEndsIn(cfg.debugFS, ["lustre", "ldlm"], "services", "ldlm_cbd", "stats");
      assert [cfg.debugFS] + (["lustre", "ldlm"] + ["services", "ldlm_cbd", "stats"])
          == [cfg.debugFS, "lustre", "ldlm", "services", "ldlm_cbd", "stats"];
    } else {
      LongPathEndsIn(cfg.procFS, ["fs", "lustre", "ldlm"], "services", "ldlm_cbd", "stats");
      assert [cfg.procFS] + (["fs", "lustre", "ldlm"] + ["services", "ldlm_cbd", "stats"])
          == [cfg.procFS, "fs", "lustre", "ldlm", "services", "ldlm_cbd", "stats"];
    }
  }

  lemma LdlmElements()
    ensures '/' !in "fs" && '/' !in "lustre" && '/' !in "ldlm" && '/' !in "services" && '/' !in "ldlm_cbd" && '/' !in "stats"
  {
  }

  // -------------------------------------------------------------------------- theorems

  /** A path that no source reads changes nothing. */
  lemma UnreadPathsDoNotMatter(a: Inputs, b: Inputs, path: string)
    requires DifferOnlyAt(a, b, path) && path !in LdlmPaths(a.cfg)
    requires forall k :: 0 <= k < |Found(a)| ==> !Reads(Found(a)[k], path)
    ensures a.All() == b.All()
  {
    FoundUnchanged(a, b, path);
    TargetsUnchanged(a, b, path, Found(a));
    SameFirstAvailable(a, b, path, LdlmPaths(a.cfg));
  }

  /** The LDLM callback statistics change their own observations alone. */
  lemma LdlmChangesItself(a: Inputs, b: Inputs, path: string)
    requires DifferOnlyAt(a, b, path) && HonestGlobs(a.reader, a.cfg) && path in LdlmPaths(a.cfg)
    ensures b.All() == [b.Ldlm()] + a.All()[1..]
  {
    FoundUnchanged(a, b, path);
    forall k | 0 <= k < |Found(a)| ensures !Reads(Found(a)[k], path) { LdlmIsApart(a, k, path); }
    TargetsUnchanged(a, b, path, Found(a));
  }

  /**
    A path that a target reads changes what that target yields, and nothing that any other
    source of the scrape yields, before it or after it.
   */
  lemma OneTargetChanges(a: Inputs, b: Inputs, path: string, k: nat)
    requires DifferOnlyAt(a, b, path) && HonestGlobs(a.reader, a.cfg)
    requires k < |Found(a)| && Reads(Found(a)[k], path)
    ensures Found(b) == Found(a)
    ensures a.All() == SourcesBefore(a, k) + a.Target(Found(a)[k]) + SourcesAfter(a, k)
    ensures b.All() == SourcesBefore(a, k) + b.Target(Found(a)[k]) + SourcesAfter(a, k)
  {
    FoundUnchanged(a, b, path);
    AllAround(a, k);
    AllAround(b, k);
    OthersUnchanged(a, b, path, k);
  }

  lemma OthersUnchanged(a: Inputs, b: Inputs, path: string, k: nat)
    requires DifferOnlyAt(a, b, path) && HonestGlobs(a.reader, a.cfg)
    requires k < |Found(a)| && Reads(Found(a)[k], path)
    ensures a.Targets(Found(a)[..k]) == b.Targets(Found(a)[..k])
    ensures a.Targets(Found(a)[k + 1..]) == b.Targets(Found(a)[k + 1..])
    ensures a.Ldlm() == b.Ldlm()
  {
    var ts := Found(a);
    forall i | 0 <= i < |ts| && i != k
      ensures !Reads(ts[i], path)
    {
      if Reads(ts[i], path) {
        OneOwner(a, i, k, path);
      }
    }
    TargetsUnchanged(a, b, path, ts[..k]);
    TargetsUnchanged(a, b, path, ts[k + 1..]);
    LdlmUnchanged(a, b, path, k);
  }

  lemma LdlmUnchanged(a: Inputs, b: Inputs, path: string, k: nat)
    requires DifferOnlyAt(a, b, path) && HonestGlobs(a.reader, a.cfg)
    requires k < |Found(a)| && Reads(Found(a)[k], path)
    ensures a.Ldlm() == b.Ldlm()
  {
    if path in LdlmPaths(a.cfg) {
      LdlmIsApart(a, k, path);
    } else {
      SameFirstAvailable(a, b, path, LdlmPaths(a.cfg));
    }
  }

  /** The same, in observations and in logged failures. */
  lemma GatheredAroundTarget(a: Inputs, b: Inputs, path: string, k: nat)
    requires DifferOnlyAt(a, b, path) && HonestGlobs(a.reader, a.cfg)
    requires k < |Found(a)| && Reads(Found(a)[k], path)
    ensures var t, before, after := Found(a)[k], SourcesBefore(a, k), SourcesAfter(a, k);
            && Gathered(a.All()) == Gathered(before) + Gathered(a.Target(t)) + Gathered(after)
            && Gathered(b.All()) == Gathered(before) + Gathered(b.Target(t)) + Gathered(after)
            && Failures(a.All()) == Failures(before) + Failures(a.Target(t)) + Failures(after)
            && Failures(b.All()) == Failures(before) + Failures(b.Target(t)) + Failures(after)
  {
    OneTargetChanges(a, b, path, k);
    GatheredAround(SourcesBefore(a, k), a.Target(Found(a)[k]), SourcesAfter(a, k));
    GatheredAround(SourcesBefore(a, k), b.Target(Found(a)[k]), SourcesAfter(a, k));
  }

  /** A mount whose stats file fails drops out of the scrape, and everything else stays. */
  lemma FailedMountIsDropped(a: Inputs, b: Inputs, k: nat)
    requires k < |Found(a)| && Found(a)[k].component == "llite"
    requires DifferOnlyAt(a, b, Found(a)[k].statsPath) && HonestGlobs(a.reader, a.cfg)
    requires b.LliteStats(Found(a)[k]).Fails?
    ensures Gathered(a.All()) == Gathered(SourcesBefore(a, k)) + Gathered(a.Target(Found(a)[k])) + Gathered(SourcesAfter(a, k))
    ensures Gathered(b.All()) == Gathered(SourcesBefore(a, k)) + Gathered(SourcesAfter(a, k))
    ensures Failures(b.All()) == Failures(SourcesBefore(a, k)) + [b.LliteStats(Found(a)[k]).error] + Failures(SourcesAfter(a, k))
  {
    var t := Found(a)[k];
    GatheredAroundTarget(a, b, t.statsPath, k);
    assert b.Target(t) == [b.LliteStats(t)];
    OneOutcome(b.LliteStats(t));
    assert Gathered(SourcesBefore(a, k)) + [] == Gathered(SourcesBefore(a, k));
  }

  // ------------------------------------------------------------ sources within a target

  /** Which source of an mdc or osc target reads the path, if any. */
  predicate SourceReads(t: ClientTarget, i: nat, path: string)
    requires IsRpcTarget(t) && i < 2 + |ParamFiles(t.component)|
  {
    if i == 0 then ReadsStats(t, path)
    else if i == 1 then ReadsRpcStats(t, path)
    else ReadsFile(t, ParamFiles(t.component)[i - 2], path)
  }

  lemma ParamFilesAreDistinct(component: string, i: nat, j: nat)
    requires i < |ParamFiles(component)| && j < |ParamFiles(component)| && ParamFiles(component)[i] == ParamFiles(component)[j]
    ensures i == j
  {
  }

  /** The file of a source. */
  function SourceFile(t: ClientTarget, i: nat): string
    requires IsRpcTarget(t) && i < 2 + |ParamFiles(t.component)|
  {
    if i == 0 then "stats" else if i == 1 then "rpc_stats" else ParamFiles(t.component)[i - 2]
  }

  lemma SourceFilesAreDistinct(t: ClientTarget, i: nat, j: nat)
    requires IsRpcTarget(t) && i < 2 + |ParamFiles(t.component)| && j < 2 + |ParamFiles(t.component)|
    requires SourceFile(t, i) == SourceFile(t, j)
    ensures i == j
  {
    if i >= 2 {
      FilesHaveNoSlash(t, ParamFiles(t.component)[i - 2]);
    }
    if j >= 2 {
      FilesHaveNoSlash(t, ParamFiles(t.component)[j - 2]);
    }
    if i >= 2 && j >= 2 {
      ParamFilesAreDistinct(t.component, i - 2, j - 2);
    }
  }

  lemma OneSource(t: ClientTarget, i: nat, j: nat, path: string)
    requires WellPlaced(t) && IsRpcTarget(t)
    requires i < 2 + |ParamFiles(t.component)| && j < 2 + |ParamFiles(t.component)|
    requires SourceReads(t, i, path) && SourceReads(t, j, path)
    ensures i == j
  {
    ReadEndsIn(t, path);
    EndsInDetermines(path, t.component, t.name, SourceFile(t, i), t.component, t.name, SourceFile(t, j));
    SourceFilesAreDistinct(t, i, j);
  }

  lemma SourceUnchanged(a: Inputs, b: Inputs, path: string, t: ClientTarget, i: nat)
    requires DifferOnlyAt(a, b, path) && IsRpcTarget(t) && i < 2 + |ParamFiles(t.component)| && !SourceReads(t, i, path)
    ensures i < |a.Target(t)| == |b.Target(t)| && a.Target(t)[i] == b.Target(t)[i]
  {
    if i >= 2 {
      FileUnchanged(a, b, path, t, ParamFiles(t.component)[i - 2]);
    }
  }

  /** Within a discovered mdc or osc target, a path changes what the one source yields that reads it. */
  lemma OneSourceChanges(a: Inputs, b: Inputs, path: string, k: nat, i: nat)
    requires DifferOnlyAt(a, b, path) && HonestGlobs(a.reader, a.cfg)
    requires k < |Found(a)| && IsRpcTarget(Found(a)[k])
    requires i < 2 + |ParamFiles(Found(a)[k].component)| && SourceReads(Found(a)[k], i, path)
    ensures var t := Found(a)[k];
            i < |a.Target(t)| == |b.Target(t)| && b.Target(t) == a.Target(t)[i := b.Target(t)[i]]
  {
    var t := Found(a)[k];
    DiscoveredIsWellPlaced(a, t);
    forall j: nat | j < 2 + |ParamFiles(t.component)| && j != i
      ensures j < |a.Target(t)| == |b.Target(t)| && a.Target(t)[j] == b.Target(t)[j]
    {
      if SourceReads(t, j, path) {
        OneSource(t, i, j, path);
      }
      SourceUnchanged(a, b, path, t, j);
    }
  }

  lemma LliteFilesAreDistinct(i: nat, j: nat)
    requires i < |LLITE_FILES| && j < |LLITE_FILES| && LLITE_FILES[i] == LLITE_FILES[j]
    ensures i == j
  {
  }

  lemma OneMountFile(t: ClientTarget, path: string, i: nat)
    requires WellPlaced(t) && t.component == "llite" && i < |LLITE_FILES| && ReadsFile(t, LLITE_FILES[i], path)
    ensures path != t.statsPath
    ensures forall j :: 0 <= j < |LLITE_FILES| && j != i ==> !ReadsFile(t, LLITE_FILES[j], path)
  {
    ReadEndsIn(t, path);
    FilesHaveNoSlash(t, LLITE_FILES[i]);
    if path == t.statsPath {
      EndsInDetermines(path, t.component, t.name, LLITE_FILES[i], t.component, t.name, "stats");
    }
    forall j: nat | j < |LLITE_FILES| && ReadsFile(t, LLITE_FILES[j], path)
      ensures i == j
    {
      EndsInDetermines(path, t.component, t.name, LLITE_FILES[i], t.component, t.name, LLITE_FILES[j]);
      LliteFilesAreDistinct(i, j);
    }
  }

  /** Within a mount whose stats can be read, a single-value file changes what it yields itself. */
  lemma OneMountFileChanges(a: Inputs, b: Inputs, path: string, k: nat, i: nat)
    requires DifferOnlyAt(a, b, path) && HonestGlobs(a.reader, a.cfg)
    requires k < |Found(a)| && Found(a)[k].component == "llite" && !a.LliteStats(Found(a)[k]).Fails?
    requires i < |LLITE_FILES| && ReadsFile(Found(a)[k], LLITE_FILES[i], path)
    ensures var t := Found(a)[k];
            i + 1 < |a.Target(t)| == |b.Target(t)| && b.Target(t) == a.Target(t)[i + 1 := b.Target(t)[i + 1]]
  {
    var t := Found(a)[k];
    DiscoveredIsWellPlaced(a, t);
    OneMountFile(t, path, i);
    MountFilesUnchanged(a, b, path, t, i);
    assert a.LliteStats(t) == b.LliteStats(t);
  }

  lemma MountFilesUnchanged(a: Inputs, b: Inputs, path: string, t: ClientTarget, i: nat)
    requires DifferOnlyAt(a, b, path) && i < |LLITE_FILES|
    requires forall j :: 0 <= j < |LLITE_FILES| && j != i ==> !ReadsFile(t, LLITE_FILES[j], path)
    ensures b.LliteFiles(t, LLITE_FILES) == a.LliteFiles(t, LLITE_FILES)[i := b.LliteFile(t, LLITE_FILES[i])]
  {
    forall j | 0 <= j < |LLITE_FILES| && j != i
      ensures a.LliteFile(t, LLITE_FILES[j]) == b.LliteFile(t, LLITE_FILES[j])
    {
      FileUnchanged(a, b, path, t, LLITE_FILES[j]);
    }
  }
}
