/**
  Discovery of the client targets: a slice of targets and a map from "component/name" to
  an index into it, updated in place over the stats files and then the rpc_stats files.
 */
module Discovery {
  import opened Wrappers
  import opened GoStrings
  import opened Readers

  datatype PathConfig = PathConfig(procFS: string, sysFS: string, debugFS: string)

  datatype ClientTarget = ClientTarget(
    component: string,
    name: string,
    statsPath: string,
    rpcStatsPath: string,
    basePath: string,
    paramRoots: seq<string>)
  {
    function Id(): TargetId {
      TargetId(component, name)
    }
  }

  datatype TargetId = TargetId(component: string, name: string)

  /** A file found by a glob for one component. */
  datatype Find = Find(component: string, path: string)
  {
    function Id(): TargetId {
      TargetId(component, TargetName(path))
    }
  }

  // ---------------------------------------------------------------------- paths

  /** `filepath.Join` of clean, non-empty elements. */
  function JoinPath(elements: seq<string>): string {
    Join(elements, '/')
  }

  /** `filepath.Base(filepath.Dir(path))` of a clean path. */
  function TargetName(path: string): string {
    var parts := Split(path, '/');
    if |parts| == 1 then "."
    else if parts[|parts| - 2] == "" then "/"
    else parts[|parts| - 2]
  }

  /** The name of a target is the directory that holds its file. */
  lemma TargetNameOfMatch(directory: string, name: string, file: string)
    requires name != "" && '/' !in name && '/' !in file
    ensures TargetName(directory + ['/'] + (name + ['/'] + file)) == name
  {
    SplitConcat(directory, name + ['/'] + file, '/');
    SplitConcat(name, file, '/');
    SplitWithoutSeparator(name, '/');
    SplitWithoutSeparator(file, '/');
  }

  function ParamRoots(cfg: PathConfig, id: TargetId): seq<string> {
    [JoinPath([cfg.procFS, "fs", "lustre", id.component, id.name]),
     JoinPath([cfg.sysFS, "fs", "lustre", id.component, id.name])]
  }

  /** The patterns of one file name, in procfs, sysfs, debugfs order. */
  function Patterns(cfg: PathConfig, component: string, file: string): seq<string> {
    [JoinPath([cfg.procFS, "fs", "lustre", component, "*", file]),
     JoinPath([cfg.sysFS, "fs", "lustre", component, "*", file]),
     JoinPath([cfg.debugFS, "lustre", component, "*", file])]
  }

  function NewTarget(cfg: PathConfig, id: TargetId): ClientTarget {
    ClientTarget(id.component, id.name, "", "", ParamRoots(cfg, id)[0], ParamRoots(cfg, id))
  }

  // ---------------------------------------------------------------------- globs

  function Matches(r: Reader, pattern: string): seq<string> {
    match r.glob(pattern)
    case Success(matches) => matches
    case Failure(_) => []
  }

  function AllMatches(r: Reader, patterns: seq<string>): seq<string> {
    if patterns == [] then [] else Matches(r, patterns[0]) + AllMatches(r, patterns[1..])
  }

  lemma MatchesStep(r: Reader, patterns: seq<string>, i: nat, all: seq<string>)
    requires i < |patterns|
    ensures all + AllMatches(r, patterns[i..]) == all + Matches(r, patterns[i]) + AllMatches(r, patterns[i + 1..])
  {
    assert patterns[i..][1..] == patterns[i + 1..];
  }

  method GlobAll(r: Reader, patterns: seq<string>) returns (all: seq<string>)
    ensures all == AllMatches(r, patterns)
  {
    all := [];
    for i := 0 to |patterns|
      invariant AllMatches(r, patterns) == all + AllMatches(r, patterns[i..])
    {
      MatchesStep(r, patterns, i, all);
      var matches := r.glob(patterns[i]);
      if matches.Failure? {
        assert all + Matches(r, patterns[i]) == all;
        continue;
      }
      all := all + matches.value;
    }
  }

  function FindsIn(component: string, paths: seq<string>): (finds: seq<Find>)
    ensures |finds| == |paths| && forall i :: 0 <= i < |finds| ==> finds[i] == Find(component, paths[i])
  {
    seq(|paths|, i requires 0 <= i < |paths| => Find(component, paths[i]))
  }

  function FindsOf(r: Reader, cfg: PathConfig, components: seq<string>, file: string): seq<Find> {
    if components == [] then []
    else FindsIn(components[0], AllMatches(r, Patterns(cfg, components[0], file))) + FindsOf(r, cfg, components[1..], file)
  }

  const STATS_COMPONENTS := ["llite", "mdc", "osc"]
  const RPC_COMPONENTS := ["mdc", "osc"]

  function StatsFinds(r: Reader, cfg: PathConfig): seq<Find> {
    FindsOf(r, cfg, STATS_COMPONENTS, "stats")
  }

  function RpcFinds(r: Reader, cfg: PathConfig): seq<Find> {
    FindsOf(r, cfg, RPC_COMPONENTS, "rpc_stats")
  }

  // ------------------------------------------------------- the declarative index

  /** The distinct members of a sequence, in the order of their first occurrence. */
  function Firsts<T(==)>(xs: seq<T>): seq<T> {
    if xs == [] then []
    else
      var front := Firsts(xs[..|xs| - 1]);
      if xs[|xs| - 1] in front then front else front + [xs[|xs| - 1]]
  }

  function Ids(finds: seq<Find>): (ids: seq<TargetId>)
    ensures |ids| == |finds| && forall i :: 0 <= i < |ids| ==> ids[i] == finds[i].Id()
  {
    seq(|finds|, i requires 0 <= i < |finds| => finds[i].Id())
  }

  /** The path of the first find of a target. */
  function FirstPath(finds: seq<Find>, id: TargetId): Option<string> {
    if finds == [] then None
    else if finds[0].Id() == id then Some(finds[0].path)
    else FirstPath(finds[1..], id)
  }

  function StatsPathOf(finds: seq<Find>, id: TargetId): string {
    match FirstPath(finds, id)
    case Some(path) => path
    case None => ""
  }

  /** The finds whose path is not empty, as every path of a real glob is. */
  function Named(finds: seq<Find>): seq<Find> {
    if finds == [] then []
    else if finds[0].path == "" then Named(finds[1..])
    else [finds[0]] + Named(finds[1..])
  }

  /** What discovery must find, from the stats files and the rpc_stats files alone. */
  function TargetFor(cfg: PathConfig, stats: seq<Find>, rpc: seq<Find>, id: TargetId): ClientTarget {
    NewTarget(cfg, id).(statsPath := StatsPathOf(stats, id), rpcStatsPath := StatsPathOf(Named(rpc), id))
  }

  function TargetsFor(cfg: PathConfig, stats: seq<Find>, rpc: seq<Find>, ids: seq<TargetId>): (targets: seq<ClientTarget>)
    ensures |targets| == |ids|
    ensures forall i :: 0 <= i < |ids| ==> targets[i] == TargetFor(cfg, stats, rpc, ids[i])
  {
    seq(|ids|, i requires 0 <= i < |ids| => TargetFor(cfg, stats, rpc, ids[i]))
  }

  function Discovered(cfg: PathConfig, stats: seq<Find>, rpc: seq<Find>): seq<ClientTarget> {
    TargetsFor(cfg, stats, rpc, Firsts(Ids(stats) + Ids(rpc)))
  }

  // ------------------------------------------------------------ the mutable index

  function KeyOf(id: TargetId): string {
    id.component + "/" + id.name
  }

  /** Components hold no slash, so a key determines its target. */
  lemma KeyInjective(a: TargetId, b: TargetId)
    requires '/' !in a.component && '/' !in b.component
    ensures KeyOf(a) == KeyOf(b) <==> a == b
  {
    var k, l := KeyOf(a), KeyOf(b);
    assert k == a.component + ['/'] + a.name && l == b.component + ['/'] + b.name;
    IndexOfFirst(a.component, a.name, '/');
    IndexOfFirst(b.component, b.name, '/');
    assert k[..|a.component|] == a.component && l[..|b.component|] == b.component;
    assert k[|a.component| + 1..] == a.name && l[|b.component| + 1..] == b.name;
  }

  ghost predicate HasTarget(targets: seq<ClientTarget>, id: TargetId) {
    exists i :: 0 <= i < |targets| && targets[i].Id() == id
  }

  /** One target per component and name. */
  ghost predicate OnePerId(targets: seq<ClientTarget>) {
    forall i, j :: 0 <= i < j < |targets| ==> targets[i].Id() != targets[j].Id()
  }

  class ClientIndex {
    const cfg: PathConfig
    var targets: seq<ClientTarget>
    var seen: map<string, nat>

    /** `seen` is the exact inverse of `targets`. */
    ghost predicate Valid()
      reads this
    {
      && (forall i :: 0 <= i < |targets| ==> '/' !in targets[i].component)
      && (forall i :: 0 <= i < |targets| ==> KeyOf(targets[i].Id()) in seen && seen[KeyOf(targets[i].Id())] == i)
      && (forall k :: k in seen ==> seen[k] < |targets| && KeyOf(targets[seen[k]].Id()) == k)
    }

    constructor (cfg: PathConfig)
      ensures Valid() && this.cfg == cfg && targets == []
    {
      this.cfg := cfg;
      targets := [];
      seen := map[];
    }

    /** The key of a target is in the map exactly when the target is in the slice. */
    lemma SeenIsPresent(id: TargetId)
      requires Valid() && '/' !in id.component
      ensures KeyOf(id) in seen <==> HasTarget(targets, id)
      ensures KeyOf(id) in seen ==> targets[seen[KeyOf(id)]].Id() == id
      ensures OnePerId(targets)
    {
      forall i | 0 <= i < |targets|
        ensures KeyOf(targets[i].Id()) == KeyOf(id) <==> targets[i].Id() == id
      {
        KeyInjective(targets[i].Id(), id);
      }
    }

    method Add(key: string, target: ClientTarget)
      requires Valid() && key == KeyOf(target.Id()) && key !in seen && '/' !in target.component
      modifies this
      ensures Valid() && targets == old(targets) + [target]
    {
      seen := seen[key := |targets|];
      targets := targets + [target];
    }

    /** The first stats file of a target wins; later ones change nothing. */
    method AddStats(component: string, statsPath: string)
      requires Valid() && '/' !in component
      modifies this
      ensures Valid()
      ensures var id := Find(component, statsPath).Id();
              targets == if HasTarget(old(targets), id) then old(targets)
                         else old(targets) + [NewTarget(cfg, id).(statsPath := statsPath)]
    {
      var id := TargetId(component, TargetName(statsPath));
      var key := KeyOf(id);
      SeenIsPresent(id);
      if key in seen {
        return;
      }
      Add(key, NewTarget(cfg, id).(statsPath := statsPath));
    }

    /** The first rpc_stats file of a target wins, and adds the target if there is none. */
    method AddRPCStats(component: string, rpcStatsPath: string)
      requires Valid() && '/' !in component
      modifies this
      ensures Valid()
      ensures var id := Find(component, rpcStatsPath).Id();
              if HasTarget(old(targets), id) then
                && |targets| == |old(targets)|
                && forall i :: 0 <= i < |targets| ==>
                     targets[i] == if old(targets)[i].Id() == id && old(targets)[i].rpcStatsPath == ""
                                   then old(targets)[i].(rpcStatsPath := rpcStatsPath) else old(targets)[i]
              else targets == old(targets) + [NewTarget(cfg, id).(rpcStatsPath := rpcStatsPath)]
    {
      var id := TargetId(component, TargetName(rpcStatsPath));
      var key := KeyOf(id);
      SeenIsPresent(id);
      if key in seen {
        var i := seen[key];
        if targets[i].rpcStatsPath == "" {
          targets := targets[i := targets[i].(rpcStatsPath := rpcStatsPath)];
        }
        return;
      }
      Add(key, NewTarget(cfg, id).(rpcStatsPath := rpcStatsPath));
    }
  }

  // ------------------------------------------------------- the index meets its spec

  lemma {:induction false} FirstsMembers<T>(xs: seq<T>)
    ensures forall x :: x in Firsts(xs) <==> x in xs
    ensures forall i, j :: 0 <= i < j < |Firsts(xs)| ==> Firsts(xs)[i] != Firsts(xs)[j]
  {
    if xs != [] {
      FirstsMembers(xs[..|xs| - 1]);
      assert xs == xs[..|xs| - 1] + [xs[|xs| - 1]];
    }
  }

  lemma FirstsSnoc<T>(xs: seq<T>, x: T)
    ensures Firsts(xs + [x]) == if x in xs then Firsts(xs) else Firsts(xs) + [x]
  {
    assert (xs + [x])[..|xs|] == xs;
    FirstsMembers(xs);
  }

  lemma IdsSnoc(finds: seq<Find>, f: Find)
    ensures Ids(finds + [f]) == Ids(finds) + [f.Id()]
  {
  }

  lemma {:induction false} FirstPathNone(finds: seq<Find>, id: TargetId)
    ensures FirstPath(finds, id).None? <==> id !in Ids(finds)
  {
    if finds != [] {
      FirstPathNone(finds[1..], id);
      assert Ids(finds) == [finds[0].Id()] + Ids(finds[1..]);
    }
  }

  /** Finds that come later do not change the first path. */
  lemma {:induction false} FirstPathConcat(a: seq<Find>, b: seq<Find>, id: TargetId)
    ensures FirstPath(a + b, id) == if FirstPath(a, id).Some? then FirstPath(a, id) else FirstPath(b, id)
  {
    if a == [] {
      assert a + b == b;
    } else {
      assert (a + b)[1..] == a[1..] + b;
      FirstPathConcat(a[1..], b, id);
    }
  }

  lemma FirstPathSnoc(finds: seq<Find>, f: Find, id: TargetId)
    ensures FirstPath(finds + [f], id)
         == if FirstPath(finds, id).Some? then FirstPath(finds, id)
            else if f.Id() == id then Some(f.path) else None
  {
    FirstPathConcat(finds, [f], id);
    assert [f][1..] == [];
  }

  lemma {:induction false} NamedConcat(a: seq<Find>, b: seq<Find>)
    ensures Named(a + b) == Named(a) + Named(b)
  {
    if a == [] {
      assert a + b == b;
    } else {
      assert (a + b)[1..] == a[1..] + b;
      NamedConcat(a[1..], b);
    }
  }

  lemma {:induction false} NamedHasNames(finds: seq<Find>, id: TargetId)
    ensures FirstPath(Named(finds), id).Some? ==> FirstPath(Named(finds), id).value != ""
    ensures id !in Ids(finds) ==> FirstPath(Named(finds), id).None?
  {
    if finds != [] {
      NamedHasNames(finds[1..], id);
      assert Ids(finds) == [finds[0].Id()] + Ids(finds[1..]);
      if finds[0].path != "" {
        assert Named(finds)[1..] == Named(finds[1..]);
      }
    }
  }

  /** The targets found so far hold a target exactly when one of its files was found. */
  lemma DiscoveredHas(cfg: PathConfig, stats: seq<Find>, rpc: seq<Find>, id: TargetId)
    ensures HasTarget(Discovered(cfg, stats, rpc), id) <==> id in Ids(stats) || id in Ids(rpc)
  {
    var ids := Ids(stats) + Ids(rpc);
    FirstsMembers(ids);
    var targets := Discovered(cfg, stats, rpc);
    assert forall i :: 0 <= i < |targets| ==> targets[i].Id() == Firsts(ids)[i];
    if id in Firsts(ids) {
      var i :| 0 <= i < |Firsts(ids)| && Firsts(ids)[i] == id;
      assert targets[i].Id() == id;
    }
  }

  lemma TargetForStatsStep(cfg: PathConfig, stats: seq<Find>, f: Find, id: TargetId)
    ensures id in Ids(stats) ==> TargetFor(cfg, stats + [f], [], id) == TargetFor(cfg, stats, [], id)
    ensures id == f.Id() && id !in Ids(stats) ==> TargetFor(cfg, stats + [f], [], id) == NewTarget(cfg, id).(statsPath := f.path)
  {
    FirstPathSnoc(stats, f, id);
    FirstPathNone(stats, id);
  }

  lemma StatsIdsStep(stats: seq<Find>, f: Find)
    ensures var ids := Firsts(Ids(stats) + Ids([]));
            Firsts(Ids(stats + [f]) + Ids([])) == if f.Id() in Ids(stats) then ids else ids + [f.Id()]
    ensures forall id :: id in Firsts(Ids(stats) + Ids([])) <==> id in Ids(stats)
  {
    IdsSnoc(stats, f);
    assert Ids(stats) + Ids([]) == Ids(stats);
    assert Ids(stats + [f]) + Ids([]) == Ids(stats) + [f.Id()];
    FirstsSnoc(Ids(stats), f.Id());
    FirstsMembers(Ids(stats));
  }

  lemma SameTargets(cfg: PathConfig, stats: seq<Find>, stats': seq<Find>, rpc: seq<Find>, rpc': seq<Find>, ids: seq<TargetId>)
    requires forall id :: id in ids ==> TargetFor(cfg, stats', rpc', id) == TargetFor(cfg, stats, rpc, id)
    ensures TargetsFor(cfg, stats', rpc', ids) == TargetsFor(cfg, stats, rpc, ids)
  {
  }

  lemma TargetsForSnoc(cfg: PathConfig, stats: seq<Find>, rpc: seq<Find>, ids: seq<TargetId>, id: TargetId)
    ensures TargetsFor(cfg, stats, rpc, ids + [id]) == TargetsFor(cfg, stats, rpc, ids) + [TargetFor(cfg, stats, rpc, id)]
  {
  }

  /** One more stats file. */
  lemma DiscoveredStatsStep(cfg: PathConfig, stats: seq<Find>, f: Find)
    ensures var before, after := Discovered(cfg, stats, []), Discovered(cfg, stats + [f], []);
            after == if HasTarget(before, f.Id()) then before
                     else before + [NewTarget(cfg, f.Id()).(statsPath := f.path)]
  {
    var ids := Firsts(Ids(stats) + Ids([]));
    StatsIdsStep(stats, f);
    DiscoveredHas(cfg, stats, [], f.Id());
    forall id | id in ids
      ensures TargetFor(cfg, stats + [f], [], id) == TargetFor(cfg, stats, [], id)
    {
      TargetForStatsStep(cfg, stats, f, id);
    }
    SameTargets(cfg, stats, stats + [f], [], [], ids);
    TargetForStatsStep(cfg, stats, f, f.Id());
    TargetsForSnoc(cfg, stats + [f], [], ids, f.Id());
  }

  /** How one more rpc_stats file changes the target of an id. */
  lemma TargetForRpcStep(cfg: PathConfig, stats: seq<Find>, rpc: seq<Find>, f: Find, id: TargetId)
    ensures var before := TargetFor(cfg, stats, rpc, id);
            TargetFor(cfg, stats, rpc + [f], id)
            == if id == f.Id() && before.rpcStatsPath == "" then before.(rpcStatsPath := f.path) else before
  {
    NamedConcat(rpc, [f]);
    assert [f][1..] == [];
    NamedHasNames(rpc, id);
    if f.path != "" {
      FirstPathSnoc(Named(rpc), f, id);
      assert Named([f]) == [f];
    } else {
      assert Named(rpc) + [] == Named(rpc);
    }
  }

  lemma RpcIdsStep(stats: seq<Find>, rpc: seq<Find>, f: Find)
    ensures var ids := Ids(stats) + Ids(rpc);
            Firsts(Ids(stats) + Ids(rpc + [f])) == if f.Id() in ids then Firsts(ids) else Firsts(ids) + [f.Id()]
    ensures forall id :: id in Firsts(Ids(stats) + Ids(rpc)) ==> id in Ids(stats) + Ids(rpc)
  {
    var ids := Ids(stats) + Ids(rpc);
    IdsSnoc(rpc, f);
    assert Ids(stats) + Ids(rpc + [f]) == ids + [f.Id()];
    FirstsSnoc(ids, f.Id());
    FirstsMembers(ids);
  }

  /** A target as it is once one more rpc_stats file has been found. */
  function Noted(t: ClientTarget, f: Find): ClientTarget {
    if t.Id() == f.Id() && t.rpcStatsPath == "" then t.(rpcStatsPath := f.path) else t
  }

  lemma NewTargetForRpc(cfg: PathConfig, stats: seq<Find>, rpc: seq<Find>, f: Find)
    requires f.Id() !in Ids(stats) + Ids(rpc)
    ensures TargetFor(cfg, stats, rpc + [f], f.Id()) == NewTarget(cfg, f.Id()).(rpcStatsPath := f.path)
  {
    TargetForRpcStep(cfg, stats, rpc, f, f.Id());
    FirstPathNone(stats, f.Id());
    NamedHasNames(rpc, f.Id());
  }

  lemma NotedTargets(cfg: PathConfig, stats: seq<Find>, rpc: seq<Find>, f: Find, ids: seq<TargetId>)
    ensures var before, after := TargetsFor(cfg, stats, rpc, ids), TargetsFor(cfg, stats, rpc + [f], ids);
            |after| == |before| && forall i :: 0 <= i < |after| ==> after[i] == Noted(before[i], f)
  {
    var before, after := TargetsFor(cfg, stats, rpc, ids), TargetsFor(cfg, stats, rpc + [f], ids);
    forall i | 0 <= i < |after|
      ensures after[i] == Noted(before[i], f)
    {
      TargetForRpcStep(cfg, stats, rpc, f, ids[i]);
    }
  }

  lemma NoneNoted(targets: seq<ClientTarget>, f: Find)
    requires !HasTarget(targets, f.Id())
    ensures forall i :: 0 <= i < |targets| ==> Noted(targets[i], f) == targets[i]
  {
  }

  /** One more rpc_stats file. */
  lemma DiscoveredRpcStep(cfg: PathConfig, stats: seq<Find>, rpc: seq<Find>, f: Find)
    ensures var before, after := Discovered(cfg, stats, rpc), Discovered(cfg, stats, rpc + [f]);
            if HasTarget(before, f.Id()) then
              |after| == |before| && forall i :: 0 <= i < |after| ==> after[i] == Noted(before[i], f)
            else after == before + [NewTarget(cfg, f.Id()).(rpcStatsPath := f.path)]
  {
    var before, ids := Discovered(cfg, stats, rpc), Firsts(Ids(stats) + Ids(rpc));
    RpcIdsStep(stats, rpc, f);
    DiscoveredHas(cfg, stats, rpc, f.Id());
    NotedTargets(cfg, stats, rpc, f, ids);
    if !HasTarget(before, f.Id()) {
      NoneNoted(before, f);
      NewTargetForRpc(cfg, stats, rpc, f);
      TargetsForSnoc(cfg, stats, rpc + [f], ids, f.Id());
      assert TargetsFor(cfg, stats, rpc + [f], ids) == before;
    }
  }

  // ------------------------------------------------------------------- discovery

  method IndexStatsFile(index: ClientIndex, component: string, path: string, ghost stats: seq<Find>)
    requires index.Valid() && '/' !in component
    requires index.targets == Discovered(index.cfg, stats, [])
    modifies index
    ensures index.Valid() && index.targets == Discovered(index.cfg, stats + [Find(component, path)], [])
  {
    DiscoveredStatsStep(index.cfg, stats, Find(component, path));
    index.AddStats(component, path);
  }

  method IndexRPCStatsFile(index: ClientIndex, component: string, path: string,
                           ghost stats: seq<Find>, ghost rpc: seq<Find>)
    requires index.Valid() && '/' !in component
    requires index.targets == Discovered(index.cfg, stats, rpc)
    modifies index
    ensures index.Valid() && index.targets == Discovered(index.cfg, stats, rpc + [Find(component, path)])
  {
    DiscoveredRpcStep(index.cfg, stats, rpc, Find(component, path));
    index.AddRPCStats(component, path);
    assert index.targets == Discovered(index.cfg, stats, rpc + [Find(component, path)]);
  }

  lemma FindsInSnoc(finds: seq<Find>, component: string, paths: seq<string>, i: nat)
    requires i < |paths|
    ensures finds + FindsIn(component, paths[..i + 1]) == finds + FindsIn(component, paths[..i]) + [Find(component, paths[i])]
    ensures paths[..|paths|] == paths
  {
  }

  method IndexStats(index: ClientIndex, component: string, paths: seq<string>, ghost stats: seq<Find>)
    requires index.Valid() && '/' !in component
    requires index.targets == Discovered(index.cfg, stats, [])
    modifies index
    ensures index.Valid() && index.targets == Discovered(index.cfg, stats + FindsIn(component, paths), [])
  {
    ghost var found := stats;
    for i := 0 to |paths|
      invariant found == stats + FindsIn(component, paths[..i])
      invariant index.Valid() && index.targets == Discovered(index.cfg, found, [])
    {
      IndexStatsFile(index, component, paths[i], found);
      FindsInSnoc(stats, component, paths, i);
      found := found + [Find(component, paths[i])];
    }
    assert paths[..|paths|] == paths;
  }

  method IndexRPCStats(index: ClientIndex, component: string, paths: seq<string>,
                       ghost stats: seq<Find>, ghost rpc: seq<Find>)
    requires index.Valid() && '/' !in component
    requires index.targets == Discovered(index.cfg, stats, rpc)
    modifies index
    ensures index.Valid() && index.targets == Discovered(index.cfg, stats, rpc + FindsIn(component, paths))
  {
    ghost var found := rpc;
    for i := 0 to |paths|
      invariant found == rpc + FindsIn(component, paths[..i])
      invariant index.Valid() && index.targets == Discovered(index.cfg, stats, found)
    {
      IndexRPCStatsFile(index, component, paths[i], stats, found);
      FindsInSnoc(rpc, component, paths, i);
      found := found + [Find(component, paths[i])];
    }
    assert paths[..|paths|] == paths;
  }

  lemma FindsOfStep(r: Reader, cfg: PathConfig, components: seq<string>, file: string, c: nat)
    requires c < |components|
    ensures FindsOf(r, cfg, components[c..], file)
         == FindsIn(components[c], AllMatches(r, Patterns(cfg, components[c], file))) + FindsOf(r, cfg, components[c + 1..], file)
  {
    assert components[c..][1..] == components[c + 1..];
  }

  lemma Regroup<T>(a: seq<T>, b: seq<T>, c: seq<T>)
    ensures (a + b) + c == a + (b + c)
  {
  }

  /** The first phase: the stats files of all components. */
  method IndexAllStats(r: Reader, index: ClientIndex, components: seq<string>)
    requires index.Valid() && index.targets == Discovered(index.cfg, [], [])
    requires forall c :: 0 <= c < |components| ==> '/' !in components[c]
    modifies index
    ensures index.Valid() && index.targets == Discovered(index.cfg, FindsOf(r, index.cfg, components, "stats"), [])
  {
    ghost var found: seq<Find> := [];
    for c := 0 to |components|
      invariant index.Valid() && index.targets == Discovered(index.cfg, found, [])
      invariant found + FindsOf(r, index.cfg, components[c..], "stats") == FindsOf(r, index.cfg, components, "stats")
    {
      var paths := GlobAll(r, Patterns(index.cfg, components[c], "stats"));
      FindsOfStep(r, index.cfg, components, "stats", c);
      Regroup(found, FindsIn(components[c], paths), FindsOf(r, index.cfg, components[c + 1..], "stats"));
      IndexStats(index, components[c], paths, found);
      found := found + FindsIn(components[c], paths);
    }
    assert found + [] == found;
  }

  /** The second phase: the rpc_stats files, independently of where the stats files were found. */
  method IndexAllRPCStats(r: Reader, index: ClientIndex, components: seq<string>, ghost stats: seq<Find>)
    requires index.Valid() && index.targets == Discovered(index.cfg, stats, [])
    requires forall c :: 0 <= c < |components| ==> '/' !in components[c]
    modifies index
    ensures index.Valid()
    ensures index.targets == Discovered(index.cfg, stats, FindsOf(r, index.cfg, components, "rpc_stats"))
  {
    ghost var found: seq<Find> := [];
    for c := 0 to |components|
      invariant index.Valid() && index.targets == Discovered(index.cfg, stats, found)
      invariant found + FindsOf(r, index.cfg, components[c..], "rpc_stats") == FindsOf(r, index.cfg, components, "rpc_stats")
    {
      var paths := GlobAll(r, Patterns(index.cfg, components[c], "rpc_stats"));
      FindsOfStep(r, index.cfg, components, "rpc_stats", c);
      Regroup(found, FindsIn(components[c], paths), FindsOf(r, index.cfg, components[c + 1..], "rpc_stats"));
      IndexRPCStats(index, components[c], paths, stats, found);
      found := found + FindsIn(components[c], paths);
    }
    assert found + [] == found;
  }

  /** The targets that discovery finds are exactly the declared ones, in the declared order. */
  method DiscoverClients(r: Reader, cfg: PathConfig) returns (targets: seq<ClientTarget>)
    ensures targets == Discovered(cfg, StatsFinds(r, cfg), RpcFinds(r, cfg))
  {
    var index := new ClientIndex(cfg);
    assert Firsts(Ids([]) + Ids([])) == [];
    IndexAllStats(r, index, STATS_COMPONENTS);
    IndexAllRPCStats(r, index, RPC_COMPONENTS, StatsFinds(r, cfg));
    return index.targets;
  }

  // -------------------------------------------------------------------- theorems

  /** Find `i` is the first one of a target. */
  ghost predicate FirstFindIs(finds: seq<Find>, id: TargetId, i: nat) {
    i < |finds| && finds[i].Id() == id && forall j :: 0 <= j < i ==> finds[j].Id() != id
  }

  /** The path of a target is that of its first find. */
  lemma {:induction false} FirstPathIsFirst(finds: seq<Find>, id: TargetId, i: nat)
    requires FirstFindIs(finds, id, i)
    ensures FirstPath(finds, id) == Some(finds[i].path)
  {
    if i > 0 {
      assert forall j :: 1 <= j < |finds| ==> finds[j] == finds[1..][j - 1];
      FirstPathIsFirst(finds[1..], id, i - 1);
    }
  }

  /** The targets have distinct identities, and exactly those of the finds. */
  lemma DiscoveredTargets(cfg: PathConfig, stats: seq<Find>, rpc: seq<Find>)
    ensures OnePerId(Discovered(cfg, stats, rpc))
    ensures var targets := Discovered(cfg, stats, rpc);
            forall i :: 0 <= i < |targets| ==>
              && targets[i].Id() in Ids(stats) + Ids(rpc)
              && targets[i] == TargetFor(cfg, stats, rpc, targets[i].Id())
    ensures forall id :: id in Ids(stats) + Ids(rpc) ==> HasTarget(Discovered(cfg, stats, rpc), id)
  {
    var ids, targets := Ids(stats) + Ids(rpc), Discovered(cfg, stats, rpc);
    FirstsMembers(ids);
    assert forall i :: 0 <= i < |targets| ==> targets[i].Id() == Firsts(ids)[i];
    forall id | id in ids
      ensures HasTarget(targets, id)
    {
      DiscoveredHas(cfg, stats, rpc, id);
    }
  }

  lemma {:induction false} FirstsConcat<T>(a: seq<T>, b: seq<T>)
    ensures |Firsts(a)| <= |Firsts(a + b)| && Firsts(a + b)[..|Firsts(a)|] == Firsts(a)
    decreases |b|
  {
    if b == [] {
      assert a + b == a;
    } else {
      var n := |b| - 1;
      assert a + b == (a + b[..n]) + [b[n]];
      FirstsConcat(a, b[..n]);
      FirstsSnoc(a + b[..n], b[n]);
    }
  }

  /**
    Independence: whatever the rpc_stats files are, the targets found through stats files
    come first, in their own order, and differ at most in their `rpcStatsPath`.
   */
  lemma StatsTargetsIgnoreRpc(cfg: PathConfig, stats: seq<Find>, rpc: seq<Find>)
    ensures var alone, all := Discovered(cfg, stats, []), Discovered(cfg, stats, rpc);
            && |alone| <= |all|
            && (forall i :: 0 <= i < |alone| ==> all[i].(rpcStatsPath := "") == alone[i])
            && (forall i :: |alone| <= i < |all| ==> all[i].statsPath == "" && all[i].Id() !in Ids(stats))
  {
    var alone, all := Discovered(cfg, stats, []), Discovered(cfg, stats, rpc);
    var ids, others := Ids(stats), Ids(rpc);
    assert ids + Ids([]) == ids;
    FirstsConcat(ids, others);
    FirstsMembers(ids);
    FirstsMembers(ids + others);
    assert forall i :: 0 <= i < |alone| ==> Firsts(ids + others)[i] == Firsts(ids + others)[..|alone|][i];
    forall i | |alone| <= i < |all|
      ensures all[i].statsPath == "" && all[i].Id() !in ids
    {
      assert Firsts(ids + others)[i] !in Firsts(ids) by {
        assert forall j :: 0 <= j < |alone| ==> Firsts(ids)[j] == Firsts(ids + others)[j];
      }
      FirstPathNone(stats, all[i].Id());
    }
  }

  /** A first path survives any finds that are put after it. */
  lemma FirstPathStays(a: seq<Find>, added: seq<Find>, b: seq<Find>, id: TargetId)
    requires id in Ids(a)
    ensures FirstPath(a + added + b, id) == FirstPath(a + b, id)
    ensures FirstPath(a + b, id).Some?
  {
    FirstPathNone(a, id);
    FirstPathConcat(a + added, b, id);
    FirstPathConcat(a, added, id);
    FirstPathConcat(a, b, id);
  }

  lemma IsDiscovered(cfg: PathConfig, stats: seq<Find>, rpc: seq<Find>, t: ClientTarget)
    ensures t in Discovered(cfg, stats, rpc) <==>
            (t.Id() in Ids(stats) || t.Id() in Ids(rpc)) && t == TargetFor(cfg, stats, rpc, t.Id())
  {
    var targets := Discovered(cfg, stats, rpc);
    DiscoveredTargets(cfg, stats, rpc);
    DiscoveredHas(cfg, stats, rpc, t.Id());
    if t in targets {
      var i :| 0 <= i < |targets| && targets[i] == t;
    }
    if HasTarget(targets, t.Id()) {
      var i :| 0 <= i < |targets| && targets[i].Id() == t.Id();
      assert targets[i] == TargetFor(cfg, stats, rpc, targets[i].Id());
    }
  }

  /** A target with an early stats file stays as it is, whatever stats files are found after that one. */
  lemma EarlierStatsFilesWin(cfg: PathConfig, a: seq<Find>, added: seq<Find>, b: seq<Find>, rpc: seq<Find>, t: ClientTarget)
    requires t in Discovered(cfg, a + b, rpc) && t.Id() in Ids(a)
    ensures t in Discovered(cfg, a + added + b, rpc)
  {
    IsDiscovered(cfg, a + b, rpc, t);
    IsDiscovered(cfg, a + added + b, rpc, t);
    FirstPathStays(a, added, b, t.Id());
    FirstPathNone(a + added + b, t.Id());
  }

  /** The same for its rpc_stats file. */
  lemma EarlierRpcStatsFilesWin(cfg: PathConfig, stats: seq<Find>, a: seq<Find>, added: seq<Find>, b: seq<Find>, t: ClientTarget)
    requires t in Discovered(cfg, stats, a + b) && t.Id() in Ids(Named(a))
    ensures t in Discovered(cfg, stats, a + added + b)
  {
    IsDiscovered(cfg, stats, a + b, t);
    IsDiscovered(cfg, stats, a + added + b, t);
    NamedConcat(a, b);
    NamedConcat(a + added, b);
    NamedConcat(a, added);
    FirstPathStays(Named(a), Named(added), Named(b), t.Id());
    NamedWithin(a, t.Id());
    assert t.Id() in Ids(a + added + b) by {
      FirstPathNone(a, t.Id());
      FirstPathConcat(a, added, t.Id());
      FirstPathConcat(a + added, b, t.Id());
      FirstPathNone(a + added + b, t.Id());
    }
  }

  lemma {:induction false} NamedWithin(finds: seq<Find>, id: TargetId)
    requires id in Ids(Named(finds))
    ensures id in Ids(finds)
  {
    FirstPathNone(Named(finds), id);
    NamedHasNames(finds, id);
  }

  // --------------------------------------------------------------- the order of the roots

  /** The matches of two readers are the same for these patterns. */
  ghost predicate SameMatches(r: Reader, r': Reader, patterns: seq<string>) {
    forall p :: p in patterns ==> Matches(r, p) == Matches(r', p)
  }

  /** Two readers that differ at most in what the roots from the `j`-th on hold of one file of one component. */
  ghost predicate DifferInLaterRoots(r: Reader, r': Reader, cfg: PathConfig, component: string, file: string, j: nat)
    requires j <= 3
  {
    && SameMatches(r, r', Patterns(cfg, component, file)[..j])
    && (forall c :: c in STATS_COMPONENTS && (c != component || file != "stats") ==> SameMatches(r, r', Patterns(cfg, c, "stats")))
    && (forall c :: c in RPC_COMPONENTS && (c != component || file != "rpc_stats") ==> SameMatches(r, r', Patterns(cfg, c, "rpc_stats")))
  }

  /** What the roots before the `j`-th hold of one file of one component. */
  function EarlyFinds(r: Reader, cfg: PathConfig, component: string, file: string, j: nat): seq<Find>
    requires j <= 3
  {
    FindsIn(component, AllMatches(r, Patterns(cfg, component, file)[..j]))
  }

  lemma {:induction false} AllMatchesSame(r: Reader, r': Reader, patterns: seq<string>)
    requires SameMatches(r, r', patterns)
    ensures AllMatches(r, patterns) == AllMatches(r', patterns)
  {
    if patterns != [] {
      AllMatchesSame(r, r', patterns[1..]);
    }
  }

  lemma {:induction false} AllMatchesSplit(r: Reader, patterns: seq<string>, j: nat)
    requires j <= |patterns|
    ensures AllMatches(r, patterns) == AllMatches(r, patterns[..j]) + AllMatches(r, patterns[j..])
  {
    if j > 0 {
      AllMatchesSplit(r, patterns[1..], j - 1);
      assert patterns[1..][..j - 1] == patterns[..j][1..];
      assert patterns[1..][j - 1..] == patterns[j..];
    }
  }

  lemma FindsInConcat(component: string, a: seq<string>, b: seq<string>)
    ensures FindsIn(component, a + b) == FindsIn(component, a) + FindsIn(component, b)
  {
  }

  /** Only the files of its own component matter to a target. */
  lemma {:induction false} OtherComponentsDoNotMatter(r: Reader, cfg: PathConfig, components: seq<string>, file: string, id: TargetId)
    requires forall i, j :: 0 <= i < j < |components| ==> components[i] != components[j]
    ensures var own := FindsIn(id.component, AllMatches(r, Patterns(cfg, id.component, file)));
            && FirstPath(FindsOf(r, cfg, components, file), id)
               == (if id.component in components then FirstPath(own, id) else None)
            && FirstPath(Named(FindsOf(r, cfg, components, file)), id)
               == (if id.component in components then FirstPath(Named(own), id) else None)
  {
    if components != [] {
      var first := FindsIn(components[0], AllMatches(r, Patterns(cfg, components[0], file)));
      var rest := FindsOf(r, cfg, components[1..], file);
      OtherComponentsDoNotMatter(r, cfg, components[1..], file, id);
      FirstPathConcat(first, rest, id);
      NamedConcat(first, rest);
      FirstPathConcat(Named(first), Named(rest), id);
      if components[0] != id.component {
        FirstPathNone(first, id);
        NamedHasNames(first, id);
      } else {
        assert id.component !in components[1..];
      }
    }
  }

  /** What is found early of a target decides its path, named or not. */
  lemma EarlyFindsDecide(r: Reader, cfg: PathConfig, components: seq<string>, file: string, id: TargetId, j: nat)
    requires forall i, k :: 0 <= i < k < |components| ==> components[i] != components[k]
    requires id.component in components && j <= 3
    ensures var early, all := EarlyFinds(r, cfg, id.component, file, j), FindsOf(r, cfg, components, file);
            && (FirstPath(early, id).Some? ==> FirstPath(all, id) == FirstPath(early, id))
            && (FirstPath(Named(early), id).Some? ==> FirstPath(Named(all), id) == FirstPath(Named(early), id))
  {
    var patterns := Patterns(cfg, id.component, file);
    var early, late := EarlyFinds(r, cfg, id.component, file, j), FindsIn(id.component, AllMatches(r, patterns[j..]));
    OtherComponentsDoNotMatter(r, cfg, components, file, id);
    AllMatchesSplit(r, patterns, j);
    FindsInConcat(id.component, AllMatches(r, patterns[..j]), AllMatches(r, patterns[j..]));
    FirstPathConcat(early, late, id);
    NamedConcat(early, late);
    FirstPathConcat(Named(early), Named(late), id);
  }

  lemma EarlyPathStays(r: Reader, r': Reader, cfg: PathConfig, components: seq<string>, file: string, id: TargetId, j: nat)
    requires forall i, k :: 0 <= i < k < |components| ==> components[i] != components[k]
    requires id.component in components && j <= 3
    requires EarlyFinds(r, cfg, id.component, file, j) == EarlyFinds(r', cfg, id.component, file, j)
    requires id in Ids(EarlyFinds(r, cfg, id.component, file, j))
    ensures FirstPath(FindsOf(r, cfg, components, file), id).Some?
    ensures FirstPath(FindsOf(r', cfg, components, file), id) == FirstPath(FindsOf(r, cfg, components, file), id)
  {
    FirstPathNone(EarlyFinds(r, cfg, id.component, file, j), id);
    EarlyFindsDecide(r, cfg, components, file, id, j);
    EarlyFindsDecide(r', cfg, components, file, id, j);
  }

  lemma {:induction false} FindsOfSame(r: Reader, r': Reader, cfg: PathConfig, components: seq<string>, file: string)
    requires forall c :: c in components ==> SameMatches(r, r', Patterns(cfg, c, file))
    ensures FindsOf(r, cfg, components, file) == FindsOf(r', cfg, components, file)
  {
    if components != [] {
      AllMatchesSame(r, r', Patterns(cfg, components[0], file));
      FindsOfSame(r, r', cfg, components[1..], file);
    }
  }

  function DiscoveredBy(r: Reader, cfg: PathConfig): seq<ClientTarget> {
    Discovered(cfg, StatsFinds(r, cfg), RpcFinds(r, cfg))
  }

  lemma SamePathSameTarget(cfg: PathConfig, stats: seq<Find>, stats': seq<Find>, rpc: seq<Find>, t: ClientTarget)
    requires t in Discovered(cfg, stats, rpc)
    requires FirstPath(stats', t.Id()) == FirstPath(stats, t.Id()) && FirstPath(stats, t.Id()).Some?
    ensures t in Discovered(cfg, stats', rpc)
  {
    FirstPathNone(stats', t.Id());
    IsDiscovered(cfg, stats, rpc, t);
    IsDiscovered(cfg, stats', rpc, t);
  }

  /**
    The order of the roots decides: a target whose stats file is found in one of the first
    `j` roots is discovered just the same, whatever stats files of its component the
    roots after them hold.
   */
  lemma EarlierStatsRootsWin(r: Reader, r': Reader, cfg: PathConfig, j: nat, t: ClientTarget)
    requires t in DiscoveredBy(r, cfg) && j <= 3
    requires DifferInLaterRoots(r, r', cfg, t.component, "stats", j)
    requires t.Id() in Ids(EarlyFinds(r, cfg, t.component, "stats", j))
    ensures t in DiscoveredBy(r', cfg)
  {
    DiscoveredComponents(r, cfg, t);
    EarlyFindsSame(r, r', cfg, t.component, "stats", j);
    RpcFindsSame(r, r', cfg, t.component, j);
    EarlyPathStays(r, r', cfg, STATS_COMPONENTS, "stats", t.Id(), j);
    SamePathSameTarget(cfg, StatsFinds(r, cfg), StatsFinds(r', cfg), RpcFinds(r, cfg), t);
  }

  lemma EarlyFindsSame(r: Reader, r': Reader, cfg: PathConfig, component: string, file: string, j: nat)
    requires j <= 3 && DifferInLaterRoots(r, r', cfg, component, file, j)
    ensures EarlyFinds(r, cfg, component, file, j) == EarlyFinds(r', cfg, component, file, j)
  {
    AllMatchesSame(r, r', Patterns(cfg, component, file)[..j]);
  }

  lemma RpcFindsSame(r: Reader, r': Reader, cfg: PathConfig, component: string, j: nat)
    requires j <= 3 && DifferInLaterRoots(r, r', cfg, component, "stats", j)
    ensures RpcFinds(r, cfg) == RpcFinds(r', cfg)
  {
    FindsOfSame(r, r', cfg, RPC_COMPONENTS, "rpc_stats");
  }

  /** The same for its rpc_stats file, which is looked for independently. */
  lemma EarlierRpcStatsRootsWin(r: Reader, r': Reader, cfg: PathConfig, j: nat, t: ClientTarget)
    requires t in DiscoveredBy(r, cfg) && j <= 3 && t.component in RPC_COMPONENTS
    requires DifferInLaterRoots(r, r', cfg, t.component, "rpc_stats", j)
    requires t.Id() in Ids(Named(EarlyFinds(r, cfg, t.component, "rpc_stats", j)))
    ensures t in DiscoveredBy(r', cfg)
  {
    var id, early := t.Id(), EarlyFinds(r, cfg, t.component, "rpc_stats", j);
    AllMatchesSame(r, r', Patterns(cfg, t.component, "rpc_stats")[..j]);
    FirstPathNone(Named(early), id);
    NamedWithin(early, id);
    FirstPathNone(early, id);
    EarlyFindsDecide(r, cfg, RPC_COMPONENTS, "rpc_stats", id, j);
    EarlyFindsDecide(r', cfg, RPC_COMPONENTS, "rpc_stats", id, j);
    FindsOfSame(r, r', cfg, STATS_COMPONENTS, "stats");
    FirstPathNone(RpcFinds(r', cfg), id);
    IsDiscovered(cfg, StatsFinds(r, cfg), RpcFinds(r, cfg), t);
    IsDiscovered(cfg, StatsFinds(r', cfg), RpcFinds(r', cfg), t);
  }

  /** The reader whose failing globs are empty ones. */
  function Forgiving(r: Reader): Reader {
    r.(glob := pattern => Success(Matches(r, pattern)))
  }

  lemma {:induction false} ForgivingMatches(r: Reader, patterns: seq<string>)
    ensures AllMatches(Forgiving(r), patterns) == AllMatches(r, patterns)
  {
    if patterns != [] {
      ForgivingMatches(r, patterns[1..]);
    }
  }

  lemma {:induction false} ForgivingFinds(r: Reader, cfg: PathConfig, components: seq<string>, file: string)
    ensures FindsOf(Forgiving(r), cfg, components, file) == FindsOf(r, cfg, components, file)
  {
    if components != [] {
      ForgivingMatches(r, Patterns(cfg, components[0], file));
      ForgivingFinds(r, cfg, components[1..], file);
    }
  }

  /** A glob that fails is as good as one that matches nothing. */
  lemma FailingGlobsAreEmpty(r: Reader, cfg: PathConfig)
    ensures Discovered(cfg, StatsFinds(Forgiving(r), cfg), RpcFinds(Forgiving(r), cfg))
         == Discovered(cfg, StatsFinds(r, cfg), RpcFinds(r, cfg))
  {
    ForgivingFinds(r, cfg, STATS_COMPONENTS, "stats");
    ForgivingFinds(r, cfg, RPC_COMPONENTS, "rpc_stats");
  }

  lemma {:induction false} FindsHaveComponents(r: Reader, cfg: PathConfig, components: seq<string>, file: string)
    ensures forall f :: f in FindsOf(r, cfg, components, file) ==> f.component in components
  {
    if components != [] {
      FindsHaveComponents(r, cfg, components[1..], file);
    }
  }

  /** Every target is an llite, mdc or osc one, and an llite target has no rpc_stats file. */
  lemma DiscoveredComponents(r: Reader, cfg: PathConfig, t: ClientTarget)
    requires t in Discovered(cfg, StatsFinds(r, cfg), RpcFinds(r, cfg))
    ensures t.component in STATS_COMPONENTS
    ensures t.component == "llite" ==> t.rpcStatsPath == ""
  {
    var stats, rpc := StatsFinds(r, cfg), RpcFinds(r, cfg);
    DiscoveredTargets(cfg, stats, rpc);
    var targets := Discovered(cfg, stats, rpc);
    var k :| 0 <= k < |targets| && targets[k] == t;
    assert t.Id() in Ids(stats) + Ids(rpc);
    FindsHaveComponents(r, cfg, STATS_COMPONENTS, "stats");
    FindsHaveComponents(r, cfg, RPC_COMPONENTS, "rpc_stats");
    if t.Id() in Ids(rpc) {
      var i :| 0 <= i < |rpc| && rpc[i].Id() == t.Id();
      assert rpc[i] in rpc;
    } else {
      NamedHasNames(rpc, t.Id());
      var i :| 0 <= i < |stats| && stats[i].Id() == t.Id();
      assert stats[i] in stats;
    }
  }
}
