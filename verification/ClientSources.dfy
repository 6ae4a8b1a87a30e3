/**
  The sources of a discovered target, spelled out: which file is read from where, which
  parser reads it, and what it becomes, for all of them in collection order.
 */
module ClientSources {
  import opened Wrappers
  import opened GoStrings
  import opened Observations
  import opened Readers
  import opened Discovery
  import opened DiscoveryRoots
  import opened ClientCollector
  import opened ClientTheorems
  import opened ParserLabels
  import R = RpcStats
  import S = StatsFiles
  import T = TargetFiles

  // ---------------------------------------------------------- the single-value files

  /** Where a file of a target lies under procfs and under sysfs. */
  function ProcPath(cfg: PathConfig, t: ClientTarget, file: string): string {
    cfg.procFS + "/fs/lustre/" + (t.component + "/" + t.name) + "/" + file
  }

  function SysPath(cfg: PathConfig, t: ClientTarget, file: string): string {
    cfg.sysFS + "/fs/lustre/" + (t.component + "/" + t.name) + "/" + file
  }

  /** The file under procfs, or else under sysfs, if one of them can be read. */
  function Kept(r: Reader, cfg: PathConfig, t: ClientTarget, file: string): Option<File> {
    if r.readFile(ProcPath(cfg, t, file)).Success? then Some(File(r.readFile(ProcPath(cfg, t, file)).value, ProcPath(cfg, t, file)))
    else if r.readFile(SysPath(cfg, t, file)).Success? then Some(File(r.readFile(SysPath(cfg, t, file)).value, SysPath(cfg, t, file)))
    else None
  }

  /** What a number in a file becomes: nothing if the file is missing, a failure if it holds no number; megabytes are told in bytes. */
  function Number(pf: NumberParser, kept: Option<File>, file: string, metricID: string, labels: Labels, megabytes: bool): Outcome {
    if kept.None? then Yields([])
    else if pf(TrimSpace(kept.value.data)).None? then Fails(ParseFailed(BadNumber(file, TrimSpace(kept.value.data))))
    else
      var v := pf(TrimSpace(kept.value.data)).value;
      Yields([Observation("client", kept.value.path, metricID, Gauge, labels, if megabytes then v * 1048576.0 else v)])
  }

  /** A number of a mount, unscaled. */
  function OfMount(pf: NumberParser, r: Reader, cfg: PathConfig, t: ClientTarget, file: string, metricID: string): Outcome {
    Number(pf, Kept(r, cfg, t, file), file, metricID, map["component" := "client", "target" := t.name], false)
  }

  /** A number of an mdc or osc target, of which some tell the type. */
  function OfTarget(pf: NumberParser, r: Reader, cfg: PathConfig, t: ClientTarget, file: string, metricID: string, megabytes: bool): Outcome {
    Number(pf, Kept(r, cfg, t, file), file, metricID, map["component" := "client", "target" := t.name], megabytes)
  }

  function OfTypedTarget(pf: NumberParser, r: Reader, cfg: PathConfig, t: ClientTarget, file: string, metricID: string): Outcome {
    Number(pf, Kept(r, cfg, t, file), file, metricID, map["component" := "client", "target" := t.name, "type" := t.component], false)
  }

  /** The import state: a series of value 1 that names it. */
  ghost predicate IsState(r: Reader, cfg: PathConfig, t: ClientTarget, out: Outcome) {
    var kept := Kept(r, cfg, t, "state");
    if kept.None? then out == Yields([])
    else
      exists state :: T.StateIs(Split(kept.value.data, '\n'), state) &&
        out == Yields(if state == "" then []
                      else [Observation("client", kept.value.path, "target_state", Gauge,
                                        map["component" := "client", "target" := t.name, "type" := t.component, "state" := state], 1.0)])
  }

  // ----------------------------------------------------------------------- their paths

  lemma RootAndFile(root: string, file: string)
    ensures JoinPath([root, file]) == root + "/" + file
  {
    assert [root] + [file] == [root, file];
    JoinFirst(root, [file]);
  }

  /** A single-value file of a discovered target is looked for under procfs and then under sysfs. */
  lemma KeptIsFirst(r: Reader, cfg: PathConfig, t: ClientTarget, file: string)
    requires t in DiscoveredBy(r, cfg)
    ensures var first := FirstAvailable(r, PathsIn(t.paramRoots, file));
            Kept(r, cfg, t, file) == if first.Success? then Some(first.value) else None
  {
    PathsComeFromFirstRoot(r, cfg, t);
    RootAndFile(t.paramRoots[0], file);
    RootAndFile(t.paramRoots[1], file);
    assert PathsIn(t.paramRoots, file) == [ProcPath(cfg, t, file), SysPath(cfg, t, file)];
    FirstOfTwo(r, ProcPath(cfg, t, file), SysPath(cfg, t, file));
  }

  lemma MountFile(pf: NumberParser, r: Reader, cfg: PathConfig, t: ClientTarget, file: string, metricID: string)
    requires t in DiscoveredBy(r, cfg) && T.LliteFileMetric(file) == Some(metricID)
    ensures RealInputs(pf, r, cfg).LliteFile(t, file) == OfMount(pf, r, cfg, t, file, metricID)
  {
    KeptIsFirst(r, cfg, t, file);
  }

  /** What a kept file of an mdc or osc target is read as. */
  ghost function ReadAs(pf: NumberParser, kept: Option<File>, t: ClientTarget, file: string): Outcome {
    if kept.None? then Yields([])
    else
      var ctx := Context(kept.value.path, "client", t.name, t.component);
      Parsed(if file == "state" then Success(T.ParseState(kept.value.data, ctx)) else T.ParseClientFile(pf, kept.value.data, file, ctx))
  }

  /** An optional file of an mdc or osc target: nothing if it is missing, and else what its parser reads. */
  lemma ParamOfKept(pf: NumberParser, r: Reader, cfg: PathConfig, t: ClientTarget, file: string)
    requires t in DiscoveredBy(r, cfg)
    ensures RealInputs(pf, r, cfg).Param(t, file) == ReadAs(pf, Kept(r, cfg, t, file), t, file)
  {
    KeptIsFirst(r, cfg, t, file);
  }

  lemma UnscaledFile(pf: NumberParser, r: Reader, cfg: PathConfig, t: ClientTarget, file: string, metricID: string)
    requires t in DiscoveredBy(r, cfg) && file != "state" && T.ClientFileEntry(file) == Some(T.FileEntry(metricID, false, 1.0))
    ensures RealInputs(pf, r, cfg).Param(t, file) == OfTarget(pf, r, cfg, t, file, metricID, false)
  {
    ParamOfKept(pf, r, cfg, t, file);
  }

  lemma Megabytes(pf: NumberParser, data: string, file: string, metricID: string, ctx: Context)
    requires T.ClientFileEntry(file) == Some(T.FileEntry(metricID, false, 1048576.0))
    ensures T.ParseClientFile(pf, data, file, ctx)
         == if pf(TrimSpace(data)).None? then Failure(BadNumber(file, TrimSpace(data)))
            else Success([Observation("client", ctx.source, metricID, Gauge, map["component" := ctx.component, "target" := ctx.target],
                                      pf(TrimSpace(data)).value * 1048576.0)])
  {
  }

  lemma MegabytesAreBytes(pf: NumberParser, kept: Option<File>, t: ClientTarget, file: string, metricID: string)
    requires file != "state" && T.ClientFileEntry(file) == Some(T.FileEntry(metricID, false, 1048576.0))
    ensures ReadAs(pf, kept, t, file) == Number(pf, kept, file, metricID, map["component" := "client", "target" := t.name], true)
  {
    if kept.Some? {
      Megabytes(pf, kept.value.data, file, metricID, Context(kept.value.path, "client", t.name, t.component));
    }
  }

  lemma MegabytesFile(pf: NumberParser, r: Reader, cfg: PathConfig, t: ClientTarget, file: string, metricID: string)
    requires t in DiscoveredBy(r, cfg) && file != "state" && T.ClientFileEntry(file) == Some(T.FileEntry(metricID, false, 1048576.0))
    ensures RealInputs(pf, r, cfg).Param(t, file) == OfTarget(pf, r, cfg, t, file, metricID, true)
  {
    ParamOfKept(pf, r, cfg, t, file);
    MegabytesAreBytes(pf, Kept(r, cfg, t, file), t, file, metricID);
  }

  lemma DirtyEntries()
    ensures T.ClientFileEntry("cur_dirty_bytes") == Some(T.FileEntry("osc_dirty_bytes", false, 1.0))
    ensures T.ClientFileEntry("max_dirty_mb") == Some(T.FileEntry("osc_max_dirty_bytes", false, 1048576.0))
    ensures "cur_dirty_bytes" != "state" && "max_dirty_mb" != "state"
  {
  }

  /** What the two files about dirty pages become. */
  lemma DirtyFiles(pf: NumberParser, r: Reader, cfg: PathConfig, t: ClientTarget)
    requires t in DiscoveredBy(r, cfg)
    ensures RealInputs(pf, r, cfg).Param(t, "cur_dirty_bytes") == OfTarget(pf, r, cfg, t, "cur_dirty_bytes", "osc_dirty_bytes", false)
    ensures RealInputs(pf, r, cfg).Param(t, "max_dirty_mb") == OfTarget(pf, r, cfg, t, "max_dirty_mb", "osc_max_dirty_bytes", true)
  {
    DirtyEntries();
    UnscaledFile(pf, r, cfg, t, "cur_dirty_bytes", "osc_dirty_bytes");
    MegabytesFile(pf, r, cfg, t, "max_dirty_mb", "osc_max_dirty_bytes");
  }

  lemma TypedFile(pf: NumberParser, r: Reader, cfg: PathConfig, t: ClientTarget, file: string, metricID: string)
    requires t in DiscoveredBy(r, cfg) && file != "state" && T.ClientFileEntry(file) == Some(T.FileEntry(metricID, true, 1.0))
    ensures RealInputs(pf, r, cfg).Param(t, file) == OfTypedTarget(pf, r, cfg, t, file, metricID)
  {
    ParamOfKept(pf, r, cfg, t, file);
  }

  lemma StateFile(pf: NumberParser, r: Reader, cfg: PathConfig, t: ClientTarget)
    requires t in DiscoveredBy(r, cfg)
    ensures IsState(r, cfg, t, RealInputs(pf, r, cfg).Param(t, "state"))
  {
    ParamOfKept(pf, r, cfg, t, "state");
    var kept := Kept(r, cfg, t, "state");
    if kept.Some? {
      var state := T.NamedState(Split(kept.value.data, '\n'));
      assert T.StateIs(Split(kept.value.data, '\n'), state);
    }
  }

  // --------------------------------------------------------------------------- theorems

  /** The files of a mount in the order in which they are read, each with its metric. */
  const MOUNT_FILES: seq<(string, string)> := [
    ("blocksize", "blocksize_bytes"),
    ("filesfree", "inodes_free"),
    ("filestotal", "inodes_maximum"),
    ("kbytesavail", "available_kibibytes"),
    ("kbytesfree", "free_kibibytes"),
    ("kbytestotal", "capacity_kibibytes"),
    ("checksum_pages", "checksum_pages_enabled"),
    ("default_easize", "default_ea_size_bytes"),
    ("lazystatfs", "lazystatfs_enabled"),
    ("max_easize", "maximum_ea_size_bytes"),
    ("max_read_ahead_mb", "maximum_read_ahead_megabytes"),
    ("max_read_ahead_per_file_mb", "maximum_read_ahead_per_file_megabytes"),
    ("max_read_ahead_whole_mb", "maximum_read_ahead_whole_megabytes"),
    ("statahead_agl", "statahead_agl_enabled"),
    ("statahead_max", "statahead_maximum"),
    ("xattr_cache", "xattr_cache_enabled")]

  lemma MountFileMetric(i: nat)
    requires i < |MOUNT_FILES|
    ensures |LLITE_FILES| == |MOUNT_FILES| && LLITE_FILES[i] == MOUNT_FILES[i].0
    ensures T.LliteFileMetric(MOUNT_FILES[i].0) == Some(MOUNT_FILES[i].1)
  {
  }

  /** The single-value files of a mount, in their order: each under its own metric, from procfs or else from sysfs. */
  lemma MountFiles(pf: NumberParser, r: Reader, cfg: PathConfig, t: ClientTarget, i: nat)
    requires t in DiscoveredBy(r, cfg) && t.component == "llite"
    ensures |RealInputs(pf, r, cfg).LliteFiles(t, LLITE_FILES)| == |MOUNT_FILES|
    ensures i < |MOUNT_FILES| ==>
      RealInputs(pf, r, cfg).LliteFiles(t, LLITE_FILES)[i] == OfMount(pf, r, cfg, t, MOUNT_FILES[i].0, MOUNT_FILES[i].1)
  {
    MountFileMetric(0);
    if i < |MOUNT_FILES| {
      MountFileMetric(i);
      MountFile(pf, r, cfg, t, MOUNT_FILES[i].0, MOUNT_FILES[i].1);
    }
  }

  /** The last file of both kinds of targets is the import state; the others tell the type, but for those of dirty pages. */
  const MDC_METRICS: seq<(string, string)> := [
    ("max_rpcs_in_flight", "max_rpcs_in_flight"),
    ("max_mod_rpcs_in_flight", "max_mod_rpcs_in_flight"),
    ("max_pages_per_rpc", "max_pages_per_rpc"),
    ("active", "target_active")]

  const OSC_METRICS: seq<(string, string)> := [
    ("max_pages_per_rpc", "max_pages_per_rpc"),
    ("max_rpcs_in_flight", "max_rpcs_in_flight"),
    ("active", "target_active")]

  lemma MdcMetric(i: nat)
    requires i < |MDC_METRICS|
    ensures MDC_FILES[i] == MDC_METRICS[i].0 && MDC_METRICS[i].0 != "state"
    ensures T.ClientFileEntry(MDC_METRICS[i].0) == Some(T.FileEntry(MDC_METRICS[i].1, true, 1.0))
  {
  }

  lemma OscMetric(i: nat)
    requires i < |OSC_METRICS|
    ensures OSC_FILES[i + 2] == OSC_METRICS[i].0 && OSC_METRICS[i].0 != "state"
    ensures T.ClientFileEntry(OSC_METRICS[i].0) == Some(T.FileEntry(OSC_METRICS[i].1, true, 1.0))
  {
  }

  /** The single-value files of an mdc target, in their order. */
  lemma MdcFiles(pf: NumberParser, r: Reader, cfg: PathConfig, t: ClientTarget, i: nat)
    requires t in DiscoveredBy(r, cfg) && t.component == "mdc"
    ensures var outs := RealInputs(pf, r, cfg).Params(t, ParamFiles(t.component));
            && |outs| == |MDC_METRICS| + 1
            && (i < |MDC_METRICS| ==> outs[i] == OfTypedTarget(pf, r, cfg, t, MDC_METRICS[i].0, MDC_METRICS[i].1))
            && IsState(r, cfg, t, outs[4])
  {
    if i < |MDC_METRICS| {
      MdcMetric(i);
      TypedFile(pf, r, cfg, t, MDC_METRICS[i].0, MDC_METRICS[i].1);
    }
    StateFile(pf, r, cfg, t);
  }

  /** The single-value files of an osc target, in their order; the limit of dirty megabytes is told in bytes. */
  lemma OscFiles(pf: NumberParser, r: Reader, cfg: PathConfig, t: ClientTarget, i: nat)
    requires t in DiscoveredBy(r, cfg) && t.component == "osc"
    ensures var outs := RealInputs(pf, r, cfg).Params(t, ParamFiles(t.component));
            && |outs| == 2 + |OSC_METRICS| + 1
            && outs[0] == OfTarget(pf, r, cfg, t, "cur_dirty_bytes", "osc_dirty_bytes", false)
            && outs[1] == OfTarget(pf, r, cfg, t, "max_dirty_mb", "osc_max_dirty_bytes", true)
            && (i < |OSC_METRICS| ==> outs[2 + i] == OfTypedTarget(pf, r, cfg, t, OSC_METRICS[i].0, OSC_METRICS[i].1))
            && IsState(r, cfg, t, outs[5])
  {
    DirtyFiles(pf, r, cfg, t);
    if i < |OSC_METRICS| {
      OscMetric(i);
      TypedFile(pf, r, cfg, t, OSC_METRICS[i].0, OSC_METRICS[i].1);
    }
    StateFile(pf, r, cfg, t);
  }

  /** A parse that succeeded yields, and one that failed is a failure. */
  predicate Becomes(out: Outcome, r: ParseResult) {
    if r.Success? then out == Yields(r.value) else out == Fails(ParseFailed(r.error))
  }

  /**
    The stats files: that of a mount must be there; an mdc or osc target may have none, but
    one that was found must be readable; the rpc_stats file alone may be gone since.
   */
  lemma StatsSources(pf: NumberParser, r: Reader, cfg: PathConfig, t: ClientTarget)
    ensures var inputs, stats := RealInputs(pf, r, cfg), r.readFile(t.statsPath);
            && (stats.Failure? ==> inputs.LliteStats(t) == Fails(ReadFailed(stats.error)))
            && (stats.Success? ==> Becomes(inputs.LliteStats(t), S.ParseLlite(pf, stats.value, Context(t.statsPath, "client", t.name, t.component))))
            && (t.statsPath == "" ==> inputs.ObdStats(t) == Yields([]))
            && (t.statsPath != "" && stats.Failure? ==> inputs.ObdStats(t) == Fails(ReadFailed(stats.error)))
            && (t.statsPath != "" && stats.Success? ==>
                  Becomes(inputs.ObdStats(t), S.ParseObd(pf, stats.value, Context(t.statsPath, "client", t.name, t.component))))
    ensures var out, rpc := RealInputs(pf, r, cfg).RpcStats(t), r.readFile(t.rpcStatsPath);
            && (t.rpcStatsPath == "" || (rpc.Failure? && rpc.error.notExist) ==> out == Yields([]))
            && (t.rpcStatsPath != "" && rpc.Failure? && !rpc.error.notExist ==> out == Fails(ReadFailed(rpc.error)))
            && (t.rpcStatsPath != "" && rpc.Success? ==>
                  Becomes(out, R.Parse(pf, rpc.value, Context(t.rpcStatsPath, "client", t.name, t.component))))
  {
  }

  /** The LDLM callback statistics come from debugfs, or else from procfs; without a file there are none. */
  lemma LdlmSource(pf: NumberParser, r: Reader, cfg: PathConfig)
    ensures var out := RealInputs(pf, r, cfg).Ldlm();
            var debug := cfg.debugFS + "/lustre/" + "ldlm/services/ldlm_cbd/stats";
            var proc := cfg.procFS + "/fs/lustre/" + "ldlm/services/ldlm_cbd/stats";
            if r.readFile(debug).Success? then Becomes(out, S.ParseLdlm(pf, r.readFile(debug).value, debug))
            else if r.readFile(proc).Success? then Becomes(out, S.ParseLdlm(pf, r.readFile(proc).value, proc))
            else out == Yields([])
  {
    LdlmPathsSpelled(cfg);
    FirstOfTwo(r, LdlmPaths(cfg)[0], LdlmPaths(cfg)[1]);
  }

  lemma LdlmTail()
    ensures Join(["services", "ldlm_cbd", "stats"], '/') == "services/ldlm_cbd/stats"
  {
    JoinFirst("services", ["ldlm_cbd", "stats"]);
    JoinFirst("ldlm_cbd", ["stats"]);
    assert ["services"] + ["ldlm_cbd", "stats"] == ["services", "ldlm_cbd", "stats"];
    assert ["ldlm_cbd"] + ["stats"] == ["ldlm_cbd", "stats"];
  }

  lemma LdlmBelow()
    ensures Join(["ldlm", "services", "ldlm_cbd", "stats"], '/') == "ldlm/services/ldlm_cbd/stats"
  {
    LdlmTail();
    JoinFirst("ldlm", ["services", "ldlm_cbd", "stats"]);
    assert ["ldlm"] + ["services", "ldlm_cbd", "stats"] == ["ldlm", "services", "ldlm_cbd", "stats"];
  }

  lemma LdlmPathsSpelled(cfg: PathConfig)
    ensures LdlmPaths(cfg) == [cfg.debugFS + "/lustre/" + "ldlm/services/ldlm_cbd/stats", cfg.procFS + "/fs/lustre/" + "ldlm/services/ldlm_cbd/stats"]
  {
    var below := ["ldlm", "services", "ldlm_cbd", "stats"];
    LdlmBelow();
    JoinLustre(cfg.debugFS, below);
    JoinFSLustre(cfg.procFS, below);
    assert [cfg.debugFS, "lustre"] + below == [cfg.debugFS, "lustre", "ldlm", "services", "ldlm_cbd", "stats"];
    assert [cfg.procFS, "fs", "lustre"] + below == [cfg.procFS, "fs", "lustre", "ldlm", "services", "ldlm_cbd", "stats"];
  }

  // ---------------------------------------------------------------- labels and sources

  /** A file that a target's observations can come from: it was read there, and not in vain before. */
  ghost predicate IsSourceOf(r: Reader, cfg: PathConfig, t: ClientTarget, path: string) {
    && r.readFile(path).Success?
    && (path == t.statsPath
        || (path == t.rpcStatsPath && t.component in {"mdc", "osc"})
        || exists file :: IsKeptAt(r, cfg, t, file, path))
  }

  predicate IsKeptAt(r: Reader, cfg: PathConfig, t: ClientTarget, file: string, path: string) {
    path == ProcPath(cfg, t, file) || (path == SysPath(cfg, t, file) && r.readFile(ProcPath(cfg, t, file)).Failure?)
  }

  /** An observation of this target: its labels tell the target, and its source is a file of the target. */
  ghost predicate IsOf(r: Reader, cfg: PathConfig, t: ClientTarget, o: Observation) {
    && o.collector == "client"
    && "component" in o.labels && o.labels["component"] == "client"
    && "target" in o.labels && o.labels["target"] == t.name
    && ("type" in o.labels ==> o.labels["type"] == t.component)
    && IsSourceOf(r, cfg, t, o.source)
  }

  ghost predicate AllOf(r: Reader, cfg: PathConfig, t: ClientTarget, obs: seq<Observation>) {
    forall i :: 0 <= i < |obs| ==> IsOf(r, cfg, t, obs[i])
  }

  lemma LabelledAreOf(r: Reader, cfg: PathConfig, t: ClientTarget, obs: seq<Observation>, path: string)
    requires AllLabelled(obs, Context(path, "client", t.name, t.component)) && IsSourceOf(r, cfg, t, path)
    ensures AllOf(r, cfg, t, obs)
  {
    forall i | 0 <= i < |obs| ensures IsOf(r, cfg, t, obs[i]) {
      assert Labelled(obs[i], Context(path, "client", t.name, t.component));
    }
  }

  lemma StatsAreOf(pf: NumberParser, r: Reader, cfg: PathConfig, t: ClientTarget)
    requires t.component in {"mdc", "osc", "llite"}
    ensures AllOf(r, cfg, t, ObsOf(RealInputs(pf, r, cfg).LliteStats(t)))
    ensures AllOf(r, cfg, t, ObsOf(RealInputs(pf, r, cfg).ObdStats(t)))
  {
    var ctx := Context(t.statsPath, "client", t.name, t.component);
    StatsSources(pf, r, cfg, t);
    if r.readFile(t.statsPath).Success? {
      var data := r.readFile(t.statsPath).value;
      if S.ParseLlite(pf, data, ctx).Success? {
        LliteLabelled(pf, data, ctx);
        LabelledAreOf(r, cfg, t, S.ParseLlite(pf, data, ctx).value, t.statsPath);
      }
      if S.ParseObd(pf, data, ctx).Success? {
        ObdLabelled(pf, data, ctx);
        LabelledAreOf(r, cfg, t, S.ParseObd(pf, data, ctx).value, t.statsPath);
      }
    }
  }

  lemma RpcStatsAreOf(pf: NumberParser, r: Reader, cfg: PathConfig, t: ClientTarget)
    requires t.component in {"mdc", "osc"}
    ensures AllOf(r, cfg, t, ObsOf(RealInputs(pf, r, cfg).RpcStats(t)))
  {
    var ctx := Context(t.rpcStatsPath, "client", t.name, t.component);
    StatsSources(pf, r, cfg, t);
    if r.readFile(t.rpcStatsPath).Success? {
      var data := r.readFile(t.rpcStatsPath).value;
      if R.Parse(pf, data, ctx).Success? {
        RpcStatsLabelled(pf, data, ctx);
        LabelledAreOf(r, cfg, t, R.Parse(pf, data, ctx).value, t.rpcStatsPath);
      }
    }
  }

  lemma KeptIsSource(r: Reader, cfg: PathConfig, t: ClientTarget, file: string)
    requires Kept(r, cfg, t, file).Some?
    ensures IsSourceOf(r, cfg, t, Kept(r, cfg, t, file).value.path)
  {
    assert IsKeptAt(r, cfg, t, file, Kept(r, cfg, t, file).value.path);
  }

  /** The outcome of one single-value file of a mount, or of an mdc or osc target. */
  lemma FileIsOf(pf: NumberParser, r: Reader, cfg: PathConfig, t: ClientTarget, file: string)
    requires t in DiscoveredBy(r, cfg)
    ensures AllOf(r, cfg, t, ObsOf(RealInputs(pf, r, cfg).LliteFile(t, file)))
    ensures AllOf(r, cfg, t, ObsOf(RealInputs(pf, r, cfg).Param(t, file)))
  {
    KeptIsFirst(r, cfg, t, file);
    ParamOfKept(pf, r, cfg, t, file);
    var kept := Kept(r, cfg, t, file);
    if kept.Some? {
      var ctx := Context(kept.value.path, "client", t.name, t.component);
      KeptIsSource(r, cfg, t, file);
      FilesLabelled(pf, kept.value.data, file, ctx);
      FileObservationsAreOf(pf, r, cfg, t, kept.value, file);
    }
  }

  lemma FileObservationsAreOf(pf: NumberParser, r: Reader, cfg: PathConfig, t: ClientTarget, f: File, file: string)
    requires IsSourceOf(r, cfg, t, f.path)
    ensures var ctx := Context(f.path, "client", t.name, t.component);
            && AllOf(r, cfg, t, ObsOf(Parsed(T.ParseLliteFile(pf, f.data, file, ctx))))
            && AllOf(r, cfg, t, ObsOf(Parsed(T.ParseClientFile(pf, f.data, file, ctx))))
            && AllOf(r, cfg, t, T.ParseState(f.data, ctx))
  {
    var ctx := Context(f.path, "client", t.name, t.component);
    FilesLabelled(pf, f.data, file, ctx);
    LabelledAreOf(r, cfg, t, ObsOf(Parsed(T.ParseLliteFile(pf, f.data, file, ctx))), f.path);
    LabelledAreOf(r, cfg, t, ObsOf(Parsed(T.ParseClientFile(pf, f.data, file, ctx))), f.path);
    LabelledAreOf(r, cfg, t, T.ParseState(f.data, ctx), f.path);
  }

  lemma {:induction false} GatheredAreOf(r: Reader, cfg: PathConfig, t: ClientTarget, outs: seq<Outcome>)
    requires forall i :: 0 <= i < |outs| ==> AllOf(r, cfg, t, ObsOf(outs[i]))
    ensures AllOf(r, cfg, t, Gathered(outs))
    decreases |outs|
  {
    if outs != [] {
      GatheredAreOf(r, cfg, t, outs[..|outs| - 1]);
    }
  }

  lemma SourcesAreOf(r: Reader, cfg: PathConfig, t: ClientTarget, inputs: Inputs)
    requires t.component == "llite" ==> AllOf(r, cfg, t, ObsOf(inputs.LliteStats(t)))
    requires t.component != "llite" ==> AllOf(r, cfg, t, ObsOf(inputs.ObdStats(t))) && AllOf(r, cfg, t, ObsOf(inputs.RpcStats(t)))
    requires forall file :: AllOf(r, cfg, t, ObsOf(inputs.LliteFile(t, file)))
    requires forall file :: AllOf(r, cfg, t, ObsOf(inputs.Param(t, file)))
    ensures AllOf(r, cfg, t, Gathered(inputs.Target(t)))
  {
    GatheredAreOf(r, cfg, t, inputs.Target(t));
  }

  /**
    Whatever a discovered target yields tells that target: every observation has its name,
    its component where the metric tells the type, and as its source the path of a file of
    the target that was read.
   */
  lemma ObservationsTellTheirTarget(pf: NumberParser, r: Reader, cfg: PathConfig, t: ClientTarget)
    requires t in DiscoveredBy(r, cfg)
    ensures AllOf(r, cfg, t, Gathered(RealInputs(pf, r, cfg).Target(t)))
  {
    var inputs := RealInputs(pf, r, cfg);
    DiscoveredComponents(r, cfg, t);
    forall file ensures AllOf(r, cfg, t, ObsOf(inputs.LliteFile(t, file))) && AllOf(r, cfg, t, ObsOf(inputs.Param(t, file))) {
      FileIsOf(pf, r, cfg, t, file);
    }
    StatsAreOf(pf, r, cfg, t);
    if t.component != "llite" {
      RpcStatsAreOf(pf, r, cfg, t);
    }
    SourcesAreOf(r, cfg, t, inputs);
  }

  /** An observation of one of these targets. */
  ghost predicate OfSome(r: Reader, cfg: PathConfig, ts: seq<ClientTarget>, o: Observation) {
    exists t :: t in ts && IsOf(r, cfg, t, o)
  }

  lemma OfOneOfThem(r: Reader, cfg: PathConfig, ts: seq<ClientTarget>, o: Observation)
    requires ts != []
    ensures OfSome(r, cfg, ts[..|ts| - 1], o) || IsOf(r, cfg, ts[|ts| - 1], o) ==> OfSome(r, cfg, ts, o)
  {
    assert ts == ts[..|ts| - 1] + [ts[|ts| - 1]];
    assert ts[|ts| - 1] in ts;
  }

  lemma {:induction false} TargetsAreOf(r: Reader, cfg: PathConfig, inputs: Inputs, ts: seq<ClientTarget>, o: Observation)
    requires forall t :: t in ts ==> AllOf(r, cfg, t, Gathered(inputs.Target(t)))
    requires o in Gathered(inputs.Targets(ts))
    ensures OfSome(r, cfg, ts, o)
    decreases |ts|
  {
    var n := |ts| - 1;
    var front, last := Gathered(inputs.Targets(ts[..n])), Gathered(inputs.Target(ts[n]));
    GatheredConcat(inputs.Targets(ts[..n]), inputs.Target(ts[n]));
    OfOneOfThem(r, cfg, ts, o);
    if o in front {
      TargetsAreOf(r, cfg, inputs, ts[..n], o);
    } else {
      assert o in last && ts[n] in ts;
    }
  }

  lemma TargetsTellTheirs(pf: NumberParser, r: Reader, cfg: PathConfig, o: Observation)
    requires o in Gathered(RealInputs(pf, r, cfg).Targets(DiscoveredBy(r, cfg)))
    ensures OfSome(r, cfg, DiscoveredBy(r, cfg), o)
  {
    var inputs, ts := RealInputs(pf, r, cfg), DiscoveredBy(r, cfg);
    forall t | t in ts ensures AllOf(r, cfg, t, Gathered(inputs.Target(t))) { ObservationsTellTheirTarget(pf, r, cfg, t); }
    TargetsAreOf(r, cfg, inputs, ts, o);
  }

  /** Everything a scrape gathers is of the LDLM callback service or of a discovered target. */
  lemma ScrapeTellsItsTargets(pf: NumberParser, r: Reader, cfg: PathConfig, o: Observation)
    requires o in Gathered(RealInputs(pf, r, cfg).All())
    ensures o in ObsOf(RealInputs(pf, r, cfg).Ldlm()) || OfSome(r, cfg, DiscoveredBy(r, cfg), o)
  {
    var inputs := RealInputs(pf, r, cfg);
    GatheredConcat([inputs.Ldlm()], inputs.Targets(DiscoveredBy(r, cfg)));
    OneOutcome(inputs.Ldlm());
    if o !in ObsOf(inputs.Ldlm()) {
      TargetsTellTheirs(pf, r, cfg, o);
    }
  }
}
