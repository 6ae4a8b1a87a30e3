/**
  Where the paths of a discovered target come from, root by root: the globs spelled out
  from the configuration, procfs before sysfs before debugfs, and llite before mdc before
  osc.
 */
module DiscoveryRoots {
  import opened Wrappers
  import opened GoStrings
  import opened Readers
  import opened Discovery

  datatype Root = ProcFS | SysFS | DebugFS

  /** The pattern of one file of all targets of a component under a root. */
  function Glob(cfg: PathConfig, root: Root, component: string, file: string): string {
    match root
    case ProcFS => cfg.procFS + "/fs/lustre/" + (component + "/*/" + file)
    case SysFS => cfg.sysFS + "/fs/lustre/" + (component + "/*/" + file)
    case DebugFS => cfg.debugFS + "/lustre/" + (component + "/*/" + file)
  }

  /** What a glob finds; one that fails finds nothing. */
  function Hits(r: Reader, pattern: string): seq<string> {
    if r.glob(pattern).Success? then r.glob(pattern).value else []
  }

  function Under(r: Reader, cfg: PathConfig, root: Root, component: string, file: string): seq<string> {
    Hits(r, Glob(cfg, root, component, file))
  }

  /** A path of the target of this name; an rpc_stats path that is empty counts for none. */
  predicate IsHit(path: string, name: string, rpc: bool) {
    TargetName(path) == name && (rpc ==> path != "")
  }

  predicate HasHit(paths: seq<string>, name: string, rpc: bool) {
    exists i :: 0 <= i < |paths| && IsHit(paths[i], name, rpc)
  }

  ghost predicate FirstHitIs(paths: seq<string>, name: string, rpc: bool, path: string) {
    exists i :: FirstHitAt(paths, name, rpc, i) && path == paths[i]
  }

  ghost predicate FirstHitAt(paths: seq<string>, name: string, rpc: bool, i: int) {
    0 <= i < |paths| && IsHit(paths[i], name, rpc) && forall j :: 0 <= j < i ==> !IsHit(paths[j], name, rpc)
  }

  /** The path is the first hit under procfs, else under sysfs, else under debugfs, else empty. */
  ghost predicate FromFirstRoot(r: Reader, cfg: PathConfig, component: string, file: string, name: string, rpc: bool, path: string) {
    var proc, sys, debug := Under(r, cfg, ProcFS, component, file), Under(r, cfg, SysFS, component, file), Under(r, cfg, DebugFS, component, file);
    if HasHit(proc, name, rpc) then FirstHitIs(proc, name, rpc, path)
    else if HasHit(sys, name, rpc) then FirstHitIs(sys, name, rpc, path)
    else if HasHit(debug, name, rpc) then FirstHitIs(debug, name, rpc, path)
    else path == ""
  }

  // ----------------------------------------------------------- the patterns, spelled out

  lemma JoinFirst(first: string, rest: seq<string>)
    requires rest != []
    ensures Join([first] + rest, '/') == first + "/" + Join(rest, '/')
  {
    assert ([first] + rest)[1..] == rest;
  }

  lemma Regrouped(a: string, b: string, c: string, d: string, e: string)
    ensures a + b + (c + d + e) == a + (b + c + d) + e
    ensures a + b + (c + d + e) == a + b + c + d + e
  {
  }

  lemma JoinBelow(component: string, file: string)
    ensures Join([component, "*", file], '/') == component + "/*/" + file
  {
    JoinFirst(component, ["*", file]);
    JoinFirst("*", [file]);
    assert [component] + ["*", file] == [component, "*", file] && ["*"] + [file] == ["*", file];
    Regrouped(component, "/", "*", "/", file);
    assert "/" + "*" + "/" == "/*/";
  }

  lemma JoinLustre(root: string, below: seq<string>)
    requires below != []
    ensures Join([root, "lustre"] + below, '/') == root + "/lustre/" + Join(below, '/')
  {
    JoinFirst(root, ["lustre"] + below);
    JoinFirst("lustre", below);
    assert [root] + (["lustre"] + below) == [root, "lustre"] + below;
    Regrouped(root, "/", "lustre", "/", Join(below, '/'));
    assert "/" + "lustre" + "/" == "/lustre/";
  }

  lemma JoinFSLustre(root: string, below: seq<string>)
    requires below != []
    ensures Join([root, "fs", "lustre"] + below, '/') == root + "/fs/lustre/" + Join(below, '/')
  {
    JoinLustre("fs", below);
    JoinFirst(root, ["fs", "lustre"] + below);
    assert [root] + (["fs", "lustre"] + below) == [root, "fs", "lustre"] + below;
    Regrouped(root, "/", "fs", "/lustre/", Join(below, '/'));
    assert "/" + "fs" + "/lustre/" == "/fs/lustre/";
  }

  lemma GlobsArePatterns(cfg: PathConfig, component: string, file: string)
    ensures Patterns(cfg, component, file)
         == [Glob(cfg, ProcFS, component, file), Glob(cfg, SysFS, component, file), Glob(cfg, DebugFS, component, file)]
  {
    var below := [component, "*", file];
    JoinBelow(component, file);
    JoinFSLustre(cfg.procFS, below);
    JoinFSLustre(cfg.sysFS, below);
    JoinLustre(cfg.debugFS, below);
    assert [cfg.procFS, "fs", "lustre"] + below == [cfg.procFS, "fs", "lustre", component, "*", file];
    assert [cfg.sysFS, "fs", "lustre"] + below == [cfg.sysFS, "fs", "lustre", component, "*", file];
    assert [cfg.debugFS, "lustre"] + below == [cfg.debugFS, "lustre", component, "*", file];
  }

  /** The roots of a target's single-value files: procfs, then sysfs. */
  lemma RootsInOrder(cfg: PathConfig, id: TargetId)
    ensures ParamRoots(cfg, id)
         == [cfg.procFS + "/fs/lustre/" + (id.component + "/" + id.name), cfg.sysFS + "/fs/lustre/" + (id.component + "/" + id.name)]
  {
    var below := [id.component, id.name];
    assert [id.component] + [id.name] == below;
    JoinFirst(id.component, [id.name]);
    JoinFSLustre(cfg.procFS, below);
    JoinFSLustre(cfg.sysFS, below);
    assert [cfg.procFS, "fs", "lustre"] + below == [cfg.procFS, "fs", "lustre", id.component, id.name];
    assert [cfg.sysFS, "fs", "lustre"] + below == [cfg.sysFS, "fs", "lustre", id.component, id.name];
  }

  lemma MatchesAreHits(r: Reader, cfg: PathConfig, component: string, file: string)
    ensures AllMatches(r, Patterns(cfg, component, file))
         == Under(r, cfg, ProcFS, component, file) + (Under(r, cfg, SysFS, component, file) + Under(r, cfg, DebugFS, component, file))
  {
    GlobsArePatterns(cfg, component, file);
    ThreePatterns(r, Glob(cfg, ProcFS, component, file), Glob(cfg, SysFS, component, file), Glob(cfg, DebugFS, component, file));
  }

  lemma ThreePatterns(r: Reader, p: string, q: string, s: string)
    ensures AllMatches(r, [p, q, s]) == Hits(r, p) + (Hits(r, q) + Hits(r, s))
  {
    assert [p, q, s][1..] == [q, s] && [q, s][1..] == [s] && [s][1..] == [];
    assert AllMatches(r, [s]) == Hits(r, s) + [] == Hits(r, s);
    assert AllMatches(r, [q, s]) == Hits(r, q) + Hits(r, s);
  }

  // ------------------------------------------------------------------- the first hit

  /** The finds of one component hold the first hit of a target as its first path. */
  lemma {:induction false} FirstPathIsHit(component: string, paths: seq<string>, id: TargetId)
    requires component == id.component
    ensures var p := FirstPath(FindsIn(component, paths), id);
            if p.Some? then FirstHitIs(paths, id.name, false, p.value) else !HasHit(paths, id.name, false)
    ensures var p := FirstPath(Named(FindsIn(component, paths)), id);
            if p.Some? then FirstHitIs(paths, id.name, true, p.value) else !HasHit(paths, id.name, true)
    decreases |paths|
  {
    if paths != [] {
      var finds, rest := FindsIn(component, paths), FindsIn(component, paths[1..]);
      assert finds[1..] == rest;
      FirstPathIsHit(component, paths[1..], id);
      NamedFirst(finds, id);
      HitStep(paths, id.name, false);
      HitStep(paths, id.name, true);
    }
  }

  lemma NamedFirst(finds: seq<Find>, id: TargetId)
    requires finds != []
    ensures FirstPath(Named(finds), id)
         == if finds[0].Id() == id && finds[0].path != "" then Some(finds[0].path) else FirstPath(Named(finds[1..]), id)
  {
    if finds[0].path != "" {
      assert Named(finds)[1..] == Named(finds[1..]);
    }
  }

  lemma HitStep(paths: seq<string>, name: string, rpc: bool)
    requires paths != []
    ensures IsHit(paths[0], name, rpc) ==> FirstHitIs(paths, name, rpc, paths[0])
    ensures !IsHit(paths[0], name, rpc) ==> forall path :: FirstHitIs(paths[1..], name, rpc, path) ==> FirstHitIs(paths, name, rpc, path)
    ensures HasHit(paths, name, rpc) <==> IsHit(paths[0], name, rpc) || HasHit(paths[1..], name, rpc)
  {
    if IsHit(paths[0], name, rpc) {
      assert FirstHitAt(paths, name, rpc, 0);
    } else {
      forall path | FirstHitIs(paths[1..], name, rpc, path)
        ensures FirstHitIs(paths, name, rpc, path)
      {
        var i :| FirstHitAt(paths[1..], name, rpc, i) && path == paths[1..][i];
        assert FirstHitAt(paths, name, rpc, i + 1);
      }
    }
    if i :| 0 <= i < |paths[1..]| && IsHit(paths[1..][i], name, rpc) {
      assert paths[i + 1] == paths[1..][i];
    }
    if i :| 0 <= i < |paths| && IsHit(paths[i], name, rpc) {
      assert i > 0 ==> paths[1..][i - 1] == paths[i];
    }
  }

  /** A part of the finds before another decides, if it has the target. */
  lemma PathOverRoots(component: string, a: seq<string>, b: seq<string>, c: seq<string>, id: TargetId)
    ensures var fa, fb, fc := FindsIn(component, a), FindsIn(component, b), FindsIn(component, c);
            && FirstPath(FindsIn(component, a + (b + c)), id) == Either(FirstPath(fa, id), Either(FirstPath(fb, id), FirstPath(fc, id)))
            && FirstPath(Named(FindsIn(component, a + (b + c))), id)
               == Either(FirstPath(Named(fa), id), Either(FirstPath(Named(fb), id), FirstPath(Named(fc), id)))
  {
    var fa, fb, fc := FindsIn(component, a), FindsIn(component, b), FindsIn(component, c);
    FindsInConcat(component, a, b + c);
    FindsInConcat(component, b, c);
    FirstPathConcat(fa, fb + fc, id);
    FirstPathConcat(fb, fc, id);
    NamedConcat(fa, fb + fc);
    NamedConcat(fb, fc);
    FirstPathConcat(Named(fa), Named(fb) + Named(fc), id);
    FirstPathConcat(Named(fb), Named(fc), id);
  }

  function Either<T>(a: Option<T>, b: Option<T>): Option<T> {
    if a.Some? then a else b
  }

  function PathOrEmpty(p: Option<string>): string {
    if p.Some? then p.value else ""
  }

  /** The first path among the finds of a component is the first hit of the first root that has one. */
  lemma FirstPathByRoot(r: Reader, cfg: PathConfig, component: string, file: string, id: TargetId)
    requires component == id.component
    ensures var finds := FindsIn(component, AllMatches(r, Patterns(cfg, component, file)));
            && FromFirstRoot(r, cfg, component, file, id.name, false, PathOrEmpty(FirstPath(finds, id)))
            && FromFirstRoot(r, cfg, component, file, id.name, true, PathOrEmpty(FirstPath(Named(finds), id)))
  {
    var proc, sys, debug := Under(r, cfg, ProcFS, component, file), Under(r, cfg, SysFS, component, file), Under(r, cfg, DebugFS, component, file);
    MatchesAreHits(r, cfg, component, file);
    PathOverRoots(component, proc, sys, debug, id);
    FirstPathIsHit(component, proc, id);
    FirstPathIsHit(component, sys, id);
    FirstPathIsHit(component, debug, id);
  }

  // -------------------------------------------------------------------------- theorems

  /**
    The paths of a discovered target: its stats file is its first match under procfs if
    there is one, else under sysfs, else under debugfs, and so, by itself, is the rpc_stats
    file of an mdc or osc target; its single-value files are looked for under procfs first
    and then under sysfs.
   */
  lemma PathsComeFromFirstRoot(r: Reader, cfg: PathConfig, t: ClientTarget)
    requires t in DiscoveredBy(r, cfg)
    ensures FromFirstRoot(r, cfg, t.component, "stats", t.name, false, t.statsPath)
    ensures t.component in {"mdc", "osc"} ==> FromFirstRoot(r, cfg, t.component, "rpc_stats", t.name, true, t.rpcStatsPath)
    ensures t.component !in {"mdc", "osc"} ==> t.rpcStatsPath == ""
    ensures t.paramRoots == [cfg.procFS + "/fs/lustre/" + (t.component + "/" + t.name), cfg.sysFS + "/fs/lustre/" + (t.component + "/" + t.name)]
    ensures t.basePath == t.paramRoots[0]
  {
    var id := t.Id();
    IsDiscovered(cfg, StatsFinds(r, cfg), RpcFinds(r, cfg), t);
    DiscoveredComponents(r, cfg, t);
    OtherComponentsDoNotMatter(r, cfg, STATS_COMPONENTS, "stats", id);
    OtherComponentsDoNotMatter(r, cfg, RPC_COMPONENTS, "rpc_stats", id);
    FirstPathByRoot(r, cfg, t.component, "stats", id);
    FirstPathByRoot(r, cfg, t.component, "rpc_stats", id);
    RootsInOrder(cfg, id);
  }

  /** Some root has a file of the target. */
  predicate InSomeRoot(r: Reader, cfg: PathConfig, component: string, file: string, name: string) {
    || HasHit(Under(r, cfg, ProcFS, component, file), name, false)
    || HasHit(Under(r, cfg, SysFS, component, file), name, false)
    || HasHit(Under(r, cfg, DebugFS, component, file), name, false)
  }

  lemma InSomeRootHasPath(r: Reader, cfg: PathConfig, component: string, file: string, id: TargetId)
    requires component == id.component
    ensures InSomeRoot(r, cfg, component, file, id.name)
        <==> FirstPath(FindsIn(component, AllMatches(r, Patterns(cfg, component, file))), id).Some?
  {
    var proc, sys, debug := Under(r, cfg, ProcFS, component, file), Under(r, cfg, SysFS, component, file), Under(r, cfg, DebugFS, component, file);
    MatchesAreHits(r, cfg, component, file);
    PathOverRoots(component, proc, sys, debug, id);
    HitHasPath(component, proc, id);
    HitHasPath(component, sys, id);
    HitHasPath(component, debug, id);
  }

  lemma HitHasPath(component: string, paths: seq<string>, id: TargetId)
    requires component == id.component
    ensures HasHit(paths, id.name, false) <==> FirstPath(FindsIn(component, paths), id).Some?
  {
    FirstPathIsHit(component, paths, id);
    if FirstPath(FindsIn(component, paths), id).Some? {
      var i :| FirstHitAt(paths, id.name, false, i);
      assert IsHit(paths[i], id.name, false);
    }
  }

  /** There is a target exactly for every name that some root has a stats file of, or for mdc and osc an rpc_stats file. */
  lemma DiscoveredExactly(r: Reader, cfg: PathConfig, component: string, name: string)
    ensures HasTarget(DiscoveredBy(r, cfg), TargetId(component, name)) <==>
            || (component in {"llite", "mdc", "osc"} && InSomeRoot(r, cfg, component, "stats", name))
            || (component in {"mdc", "osc"} && InSomeRoot(r, cfg, component, "rpc_stats", name))
  {
    var id := TargetId(component, name);
    DiscoveredHas(cfg, StatsFinds(r, cfg), RpcFinds(r, cfg), id);
    FirstPathNone(StatsFinds(r, cfg), id);
    FirstPathNone(RpcFinds(r, cfg), id);
    OtherComponentsDoNotMatter(r, cfg, STATS_COMPONENTS, "stats", id);
    OtherComponentsDoNotMatter(r, cfg, RPC_COMPONENTS, "rpc_stats", id);
    InSomeRootHasPath(r, cfg, component, "stats", id);
    InSomeRootHasPath(r, cfg, component, "rpc_stats", id);
  }

  /** The targets that the files of one component belong to, root by root. */
  function Owners(r: Reader, cfg: PathConfig, component: string, file: string): seq<TargetId> {
    OwnersOf(component, Under(r, cfg, ProcFS, component, file))
    + OwnersOf(component, Under(r, cfg, SysFS, component, file))
    + OwnersOf(component, Under(r, cfg, DebugFS, component, file))
  }

  function OwnersOf(component: string, paths: seq<string>): seq<TargetId> {
    seq(|paths|, i requires 0 <= i < |paths| => TargetId(component, TargetName(paths[i])))
  }

  lemma IdsAreOwners(r: Reader, cfg: PathConfig, component: string, file: string)
    ensures Ids(PartOf(r, cfg, component, file)) == Owners(r, cfg, component, file)
  {
    MatchesAreHits(r, cfg, component, file);
    OwnersOfParts(component, Under(r, cfg, ProcFS, component, file), Under(r, cfg, SysFS, component, file), Under(r, cfg, DebugFS, component, file));
  }

  lemma OwnersOfParts(component: string, a: seq<string>, b: seq<string>, c: seq<string>)
    ensures Ids(FindsIn(component, a + (b + c))) == OwnersOf(component, a) + OwnersOf(component, b) + OwnersOf(component, c)
  {
    OwnersOfFinds(component, a + (b + c));
    assert OwnersOf(component, a + (b + c)) == OwnersOf(component, a) + OwnersOf(component, b + c);
    assert OwnersOf(component, b + c) == OwnersOf(component, b) + OwnersOf(component, c);
    Regroup(OwnersOf(component, a), OwnersOf(component, b), OwnersOf(component, c));
  }

  lemma OwnersOfFinds(component: string, paths: seq<string>)
    ensures Ids(FindsIn(component, paths)) == OwnersOf(component, paths)
  {
  }

  lemma IdsConcat(a: seq<Find>, b: seq<Find>)
    ensures Ids(a + b) == Ids(a) + Ids(b)
  {
  }

  lemma StatsIdsInOrder(r: Reader, cfg: PathConfig)
    ensures Ids(StatsFinds(r, cfg)) == Owners(r, cfg, "llite", "stats") + (Owners(r, cfg, "mdc", "stats") + Owners(r, cfg, "osc", "stats"))
  {
    var llite, mdc, osc := PartOf(r, cfg, "llite", "stats"), PartOf(r, cfg, "mdc", "stats"), PartOf(r, cfg, "osc", "stats");
    assert STATS_COMPONENTS[1..] == ["mdc", "osc"] && ["mdc", "osc"][1..] == ["osc"] && ["osc"][1..] == [];
    assert FindsOf(r, cfg, ["osc"], "stats") == osc + [] == osc;
    assert FindsOf(r, cfg, ["mdc", "osc"], "stats") == mdc + osc;
    assert StatsFinds(r, cfg) == llite + (mdc + osc);
    IdsConcat(llite, mdc + osc);
    IdsConcat(mdc, osc);
    IdsAreOwners(r, cfg, "llite", "stats");
    IdsAreOwners(r, cfg, "mdc", "stats");
    IdsAreOwners(r, cfg, "osc", "stats");
  }

  lemma RpcIdsInOrder(r: Reader, cfg: PathConfig)
    ensures Ids(RpcFinds(r, cfg)) == Owners(r, cfg, "mdc", "rpc_stats") + Owners(r, cfg, "osc", "rpc_stats")
  {
    var mdc, osc := PartOf(r, cfg, "mdc", "rpc_stats"), PartOf(r, cfg, "osc", "rpc_stats");
    assert RPC_COMPONENTS[1..] == ["osc"] && ["osc"][1..] == [];
    assert FindsOf(r, cfg, ["osc"], "rpc_stats") == osc + [] == osc;
    IdsConcat(mdc, osc);
    IdsAreOwners(r, cfg, "mdc", "rpc_stats");
    IdsAreOwners(r, cfg, "osc", "rpc_stats");
  }

  function PartOf(r: Reader, cfg: PathConfig, component: string, file: string): seq<Find> {
    FindsIn(component, AllMatches(r, Patterns(cfg, component, file)))
  }

  /** The targets come in the order of their first file: stats of llite, mdc and osc, then rpc_stats of mdc and osc. */
  lemma TargetsComeInOrder(r: Reader, cfg: PathConfig)
    ensures var targets, order := DiscoveredBy(r, cfg),
              Firsts(Owners(r, cfg, "llite", "stats") + (Owners(r, cfg, "mdc", "stats") + Owners(r, cfg, "osc", "stats"))
                     + (Owners(r, cfg, "mdc", "rpc_stats") + Owners(r, cfg, "osc", "rpc_stats")));
            |targets| == |order| && forall i :: 0 <= i < |targets| ==> targets[i].Id() == order[i]
  {
    StatsIdsInOrder(r, cfg);
    RpcIdsInOrder(r, cfg);
  }
}
