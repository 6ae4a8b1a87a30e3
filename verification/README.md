# Verified model of the Lustre client exporter

A Prometheus exporter for Lustre clients reads statistics files and `lnetctl` output, turns
their lines into observations, maps these onto a fixed contract of public metrics, and emits
them once per scrape. This project models the parts of it that carry state, order or
concurrency, and proves what they keep on all inputs, all runs and all interleavings.
`dafny verify dfyconfig.toml` checks it.

| part | modules |
|---|---|
| strings, line machines | `Wrappers`, `GoStrings`, `LineMachine`, `Observations` |
| the `rpc_stats` parser | `RpcStats`, `RpcHistory`, `RpcOutcome`, `RpcDocument`, `RpcReport`, `RpcSeries` |
| the other parsers | `StatsFiles`, `StatsDocument`, `TargetFiles`, `StateDocument`, `LNetFiles`, `ParserLabels` |
| scrape durations | `ScrapeTotals`, `ScrapeProtocol`, `ScrapeTheorems`, `ScrapeReturns`, `ScrapeProgress` |
| discovery | `Readers`, `Discovery`, `DiscoveryRoots` |
| the client collector | `ClientCollector`, `ClientTheorems`, `ClientSources`, `ClientIndependence` |
| the LNet collector | `LNetCollector`, `LNetTheorems`, `LNetSources` |
| contract, mapper, emitter | `Contract`, `ContractNames`, `ParserContract`, `DescKey`, `DescCache`, `DescTheorems`, `Emitter` |

How the model is set up:

- Code that works on mutable state is imperative here too (`RpcStatsSection`, `ClientIndex`,
  `Registry`, `Descriptors`, the two `Collector` classes, the parser loops). Each such method is
  proved equal to a specification function, and the theorems are about that function.
- Concurrency is a state machine over atomic steps. A schedule is any sequence of steps; a step
  that is blocked or out of turn changes nothing. A load and the store that follows it are two
  steps, so a lost update would be visible.
- Number parsing is a parameter, any total function from strings to an optional real. Round
  trips only ask of it that it reads plain decimals; `GoStrings.ParseDecimal` is one that does.
- Reads, globs, commands, and the decoding of YAML or JSON are deterministic function parameters.
  Where a result needs it, a glob returns nothing but matches of its pattern (`HonestGlobs`).
- Printed documents have any white space before, between and after the columns of every line,
  and blank lines anywhere (`Layout`).
- What a parser or a collector must produce is spelled out apart from the code that produces it:
  every metric, type, label, unit, path and file order is written down in the statements of
  `RpcReport`, `StatsDocument`, `StateDocument`, `DiscoveryRoots`, `ClientSources` and
  `LNetSources`, and what the collectors of a scrape did is read off the schedule alone in
  `ScrapeReturns`.
- The contract is one table, `Contract.Lookup`, filed by the length of the metric ID.

Three results differ from what one would expect:

- *Series uniqueness.* It does not suffice that no scalar repeats, that every (section,
  operation) group is opened once, and that sizes within a group differ: a single-column row of
  a plain section is a read, and a row with a write column is a read and a write even in a
  `modify` section (`OneBlockPerGroupIsNotEnough`). The exact condition is `RepeatsNothing` on
  the lines of a document (`DocumentSeriesDistinctExactly`), and for any text whatever
  `ClashFree` on the items that its run yields (`SeriesDistinctExactly`).
- *The descriptor key.* An empty label list and a list with one empty key share a key, so
  injectivity holds exactly up to that pair (`KeyDetermines`), and so does the promise that a
  call returns a descriptor of its own definition (`CleanDefinitionsMatchExactly`; a schedule
  that breaks it is built in `SharedKeyMismatches`). The contract has no such pair
  (`ContractIsSafe`, `ContractDescsAreDirect`).
- *Metric types.* The `rpc_stats` parser types `rpcs_in_flight` and `rpcs_offset` as gauges, the
  contract as counters; these two are the only disagreement (`RpcStatsTypes`). The emitter uses
  the contract's type.

## Model

| member | source | states |
|---|---|---|
| RpcStats.RpcStatsSection.Enter | internal/parser/rpc.go:101-105 | Starting a section sets name and operation and drops the pending operation. |
| RpcStats.RpcStatsSection.ApplyHeader | internal/parser/rpc.go:72-97 | The record changes as the header rules say, tried in order, and the result tells whether the line is a header. |
| RpcStats.ParseRPCLine | internal/parser/rpc.go:150-191 | A bucket line yields one observation per value column with its labels, or the error of its first bad column. |
| RpcStats.ParseRawLine | internal/parser/rpc.go:15-50 | One turn of the loop: what the line adds, and the section it leaves; a line can be scalar and header at once. |
| RpcStats.ParseRPCStats | internal/parser/rpc.go:11-53 | The loop over the mutable record computes the meaning of the whole text, or the first error alone. |
| RpcHistory.PendingFollowsLastHeader | internal/parser/rpc.go:64-92 | After any lines `pendingOperation` is "modify" exactly when the latest header is the lone `modify`. |
| RpcHistory.SectionFollowsLastOpening | internal/parser/rpc.go:76-105 | Name and operation are fixed by the last section opening; a plain `rpcs in flight` gets "modify" iff the header just before it is `modify`. |
| RpcHistory.NoSectionBeforeOpening | internal/parser/rpc.go:58-62 | Before the first opening name and operation are empty, whatever else was read. |
| RpcHistory.OnlyHeadersMatter | internal/parser/rpc.go:17-19 | Scalars, blanks, buckets and snapshot lines leave no trace in the section record. |
| RpcHistory.OpeningDecides | internal/parser/rpc.go:76-89 | An opening prefix decides the header whichever rule is tried first. |
| RpcHistory.HeaderRulesAreOrderFree | internal/parser/rpc.go:69-97 | The opening prefixes exclude one another; a line is a column header iff it names both operations and is no other header. |
| RpcOutcome.ParseConcat | internal/parser/rpc.go:11-53 | Parsing `a`, a newline and `b` is parsing `a`, then `b` from the section `a` ended in; an error of `a` is the error of the whole. |
| RpcOutcome.BadLineFails | internal/parser/rpc.go:41-47 | A line fails iff it is non-skipped data of an open section with too few columns or an unreadable one. |
| RpcOutcome.ParseFailsExactly | internal/parser/rpc.go:38-49 | Parsing fails iff a bad line is reached, and then reports the first one and its section, and no observation. |
| RpcOutcome.ParseBounded | internal/parser/rpc.go:15-52 | At most two observations per non-blank line. |
| RpcOutcome.ScalarsAreRead | internal/parser/rpc.go:107-142 | A line whose text before the first colon spells one of seven titles, in any case, reports its first number under that title's metric and operation. |
| RpcOutcome.NothingElseIsScalar | internal/parser/rpc.go:107-142 | No other line is a scalar. |
| RpcDocument.ReadLine | internal/parser/rpc.go:15-105 | Every printed line, a lone `modify` and a column header included, reads as its items and leaves its section, from any section and any pending operation. |
| RpcDocument.ReadDocument | internal/parser/rpc.go:15-50 | A printed document reads as what it denotes and leaves the section it denotes, from any section and any pending operation. |
| RpcReport.RoundTrip | internal/parser/rpc.go:11-240 | For every sequence of lines and every white space, parsing the text returns exactly what the lines report, in order: metric, type, labels and value of each are spelled out, `modify` is kept over blanks, scalars and rows, and dropped by a column header. |
| RpcSeries.RunIsProper | internal/parser/rpc.go:194-240 | Every item of every run is a known scalar, or a bucket of a known section with one column or read and write. |
| RpcSeries.SharedSeriesIsClash | internal/parser/rpc.go:23-35 | Two items share a time series iff they report the same scalar or the same operation of one size of one section. |
| RpcSeries.SeriesDistinctExactly | internal/parser/rpc.go:149-226 | The series of a file are pairwise distinct iff no two of the items that its lines yield clash. |
| RpcSeries.DocumentSeriesDistinctExactly | internal/parser/rpc.go:149-226 | The series of a printed document are distinct iff no two of its lines report the same scalar, or one operation of one size of one section. |
| RpcSeries.ModifyBesidePlainIsDistinct | internal/parser/rpc.go:209-226 | A single-column modify block beside a plain block, read-only or read/write, of any sizes, never repeats a series. |
| RpcSeries.OneBlockPerGroupIsNotEnough | internal/parser/rpc.go:209-226 | A family of documents that opens each group once, with distinct sizes, and still repeats a series. |
| StatsFiles.ParseLines | internal/parser/obd_stats.go:13-31 | The loop of the stats parsers: every line's observations appended, or the first error alone. |
| StatsFiles.ParseOBDStats | internal/parser/obd_stats.go:13-118 | The mdc and osc parser computes the meaning of its text. |
| StatsFiles.LinePairs | internal/parser/obd_stats.go:35-79 | Within a line, a latency comes second of two, after the total of the same operation. |
| StatsFiles.SecondsFollowTotals | internal/parser/obd_stats.go:53-118 | Every `stats_seconds_sum` directly follows the `stats_total` of its line, both spelled out, and times the unit's own factor it is the line's sum. |
| StatsFiles.TimedLinesReport | internal/parser/obd_stats.go:83-118 | A line that is read reports a latency iff it is named, no byte counter, and has a sum in one of eight unit spellings, in any case. |
| StatsFiles.ParseLLiteStats | internal/parser/llite.go:12-114 | The llite parser computes the meaning of its text, trimmed as a whole first. |
| StatsDocument.ReadLine | internal/parser/llite.go:52-114 | A printed statistics line reads as its denotation: count, minimum, maximum and sum each from its own column. |
| StatsDocument.LatencyIsInSeconds | internal/parser/obd_stats.go:83-118 | A printed line reports as many seconds as its sum says: a billionth, a millionth, a thousandth of it or itself; any other unit reports none. |
| StatsDocument.LineFailsExactly | internal/parser/llite.go:38-114 | A line fails iff its count is no number, or it counts bytes and has too few columns or one that is no number. |
| StatsDocument.ObdRoundTrip | internal/parser/obd_stats.go:13-118 | Parsing the text of an mdc or osc stats document, with any white space and blank lines, returns exactly what its lines denote, latencies in seconds. |
| StatsDocument.LliteRoundTrip | internal/parser/llite.go:12-114 | The same for llite stats documents, without latencies. |
| StatsDocument.LliteTrimIsRedundant | internal/parser/llite.go:12-24 | Trimming the whole text before its lines changes nothing, on any text. |
| StatsDocument.LdlmRoundTrip | internal/parser/ldlm.go:10-45 | Parsing the text of an LDLM callback document returns the count of every operation with samples; a name that ends like an assignment is none. |
| StatsDocument.LNetStatsRoundTrip | internal/parser/lnet.go:14-66 | Parsing a printed LNet stats file returns its eleven numbers, each under its own metric. |
| StatsDocument.LNetFileAgreesWithCtl | internal/parser/lnet.go:172-192 | A stats file that prints the numbers of `lnetctl` parses to the same observations, field by field. |
| TargetFiles.ParseClientState | internal/parser/target.go:58-102 | The loop returns the state the file names, as one series of value 1, or nothing. |
| TargetFiles.StateIsUnique | internal/parser/target.go:63-85 | The declarative state, last `current_state:` value or else first word of the first plain line, is unique. |
| StateDocument.RoundTrip | internal/parser/target.go:58-102 | The text of an import state file is read as the one series of the state that its lines name, spelled out, or as nothing. |
| ScrapeTotals.KeyLessIsTotalOrder | collector/collector.go:169-174 | The comparator of the keys is a strict total order. |
| ScrapeTotals.SortKeys | collector/collector.go:169-174 | Sorting yields a sorted permutation of the keys. |
| ScrapeTotals.SortedIsUnique | collector/collector.go:165-174 | The sorted keys depend on the set of keys alone, so map iteration order leaves no trace. |
| ScrapeTotals.SortedBySource | collector/collector.go:169-174 | In key order the sources ascend, and of one source "error" comes before "success". |
| ScrapeTotals.Registry.ScrapeKeys | collector/collector.go:165-174 | The keys of a scrape, each once, in order. |
| ScrapeTotals.Registry.ObserveKey | collector/collector.go:181-186 | One key gains one observation and the scrape's duration, no other changes, and its new total is emitted. |
| ScrapeTotals.Registry.Accumulate | collector/collector.go:179-188 | After the loop the totals are the fold of the whole scrape, and the metrics are the new totals in key order. |
| ScrapeTotals.Registry.ObserveScrapeDurations | collector/collector.go:164-189 | Every key of the scrape gains one observation and its duration, every other key is untouched, metrics in key order. |
| ScrapeProtocol.ScrapeStepKeeps | collector/collector.go:103-157 | Every step of a goroutine keeps the scrape's invariant: mutex, exact sums, keys; after the join nothing changes. |
| ScrapeProtocol.JoinedMapIsExact | collector/collector.go:150-157 | When the wait group returns, the map holds the exact sum per key and nothing else. |
| ScrapeReturns.GatheredDurationsAreExact | collector/collector.go:99-157 | In every schedule, once all have been waited for, every collector has returned, and each gathered duration is the time of those that ended with its source and result. |
| ScrapeTheorems.MutualExclusion | collector/collector.go:151-153 | At most one goroutine of a scrape is between loading and releasing. |
| ScrapeReturns.RecordsAreReturns | collector/collector.go:108-150 | What a goroutine records is its collector's first return: its duration, "success" or "error", and the source it recorded last, or else its own. |
| ScrapeReturns.EndIsReturn | collector/collector.go:120-150 | How the totals take a collector to have ended is that return, or nothing while there is none. |
| ScrapeReturns.EndIsUnique | collector/collector.go:120-150 | A collector ends in one way: the steps of a schedule fix its source, result and duration. |
| ScrapeReturns.DurationsAreConserved | collector/collector.go:164-189 | At every moment the sums of all keys are the time of all collectors that returned and whose key their scrape has added; of a finished scrape, of all of them. |
| ScrapeReturns.TotalsAreExact | collector/collector.go:176-188 | At every moment, per source and result, count is the number of scrapes that have added it, finished or past it in key order, one each, and sum is the time of their collectors that ended so. |
| ScrapeTheorems.EmittedTotalsArePrefixes | collector/collector.go:176-186 | In lock order the totals emitted for a key count 1, 2, 3, ... without gap, and each scrape emits its keys once, sorted. |
| ScrapeTheorems.CriticalSectionIsOneObservation | collector/collector.go:176-188 | The interleaved loads and stores under the mutex leave the totals and emit the summaries of one undisturbed call of `observeScrapeDurations`. |
| ScrapeProgress.EveryStepIsCloser | collector/collector.go:99-189 | No step turns back: but for a new scrape or a named source, it changes nothing or brings the end closer. |
| ScrapeProgress.EveryScrapeCanFinish | collector/collector.go:99-189 | No deadlock: after every schedule some continuation finishes every scrape that has begun. |
| Readers.ReadFirstAvailable | internal/reader/reader.go:113-127 | The first readable path in order, or the last error. |
| Readers.FirstAvailableIsFirst | collector/client.go:168-183 | It fails iff every path fails, with the last path's error, and otherwise returns the first that succeeds. |
| Discovery.KeyInjective | internal/discovery/discovery.go:206-206 | A key determines component and name. |
| Discovery.TargetNameOfMatch | internal/discovery/discovery.go:205-205 | The target name of a matched file is the directory that holds it. |
| Discovery.GlobAll | internal/discovery/discovery.go:182-192 | All matches in pattern order; a failing glob adds none. |
| Discovery.ClientIndex.SeenIsPresent | internal/discovery/discovery.go:194-200 | `seen` holds a key iff the target is in the slice, at that index; one target per component and name. |
| Discovery.ClientIndex.Add | internal/discovery/discovery.go:232-235 | The target is appended and `seen` stays the exact inverse of the slice. |
| Discovery.ClientIndex.AddStats | internal/discovery/discovery.go:204-213 | The first stats file of a target adds it; later ones change nothing. |
| Discovery.ClientIndex.AddRPCStats | internal/discovery/discovery.go:218-230 | The first rpc_stats file is recorded in place, or adds a target without stats file; nothing else changes. |
| Discovery.IndexAllStats | internal/discovery/discovery.go:165-169 | The first phase indexes the stats files of llite, mdc, osc in order. |
| Discovery.IndexAllRPCStats | internal/discovery/discovery.go:171-175 | The second phase adds the rpc_stats files of mdc, osc in order. |
| Discovery.DiscoverClients | internal/discovery/discovery.go:162-178 | The targets are exactly the declared ones: first occurrences in order, each with its first stats and first rpc_stats path. |
| DiscoveryRoots.PathsComeFromFirstRoot | internal/discovery/discovery.go:128-230 | A target's stats path is its first match under procfs, else under sysfs, else under debugfs, the globs spelled out; so is its rpc_stats path; its files are looked for under procfs, then sysfs. |
| DiscoveryRoots.DiscoveredExactly | internal/discovery/discovery.go:162-178 | There is a target iff some root has a stats file of it, or of an mdc or osc target an rpc_stats file. |
| DiscoveryRoots.TargetsComeInOrder | internal/discovery/discovery.go:162-178 | Targets come in the order of their first file: stats of llite, mdc, osc, then rpc_stats of mdc, osc, each root by root. |
| Discovery.FirstPathIsFirst | internal/discovery/discovery.go:202-209 | The declared path is that of the target's first match. |
| Discovery.DiscoveredTargets | internal/discovery/discovery.go:196-235 | The targets are distinct, and exactly those with a match. |
| Discovery.StatsTargetsIgnoreRpc | internal/discovery/discovery.go:215-230 | Whatever the rpc_stats matches are, stats targets, their order and paths stay; the others come after and have no stats file. |
| Discovery.EarlierStatsFilesWin | internal/discovery/discovery.go:204-213 | A target with an early stats file stays as it is, whatever stats files are found after that one. |
| Discovery.EarlierRpcStatsFilesWin | internal/discovery/discovery.go:218-230 | The same for its rpc_stats file. |
| Discovery.EarlierStatsRootsWin | internal/discovery/discovery.go:135-213 | A target whose stats file is found in one of the first roots is discovered just the same whatever the later roots hold. |
| Discovery.EarlierRpcStatsRootsWin | internal/discovery/discovery.go:135-230 | The same for its rpc_stats file, which is looked for independently. |
| Discovery.FailingGlobsAreEmpty | internal/discovery/discovery.go:184-188 | A failing glob is as good as an empty one for the whole discovery. |
| Discovery.DiscoveredComponents | internal/discovery/discovery.go:161-178 | Every target is llite, mdc or osc, and an llite target has no rpc_stats file. |
| ClientCollector.Collector.StrictError | collector/client.go:116-122 | Strict mode returns the error and logs nothing; otherwise it is logged and collection goes on. |
| ClientCollector.Collector.CollectLDLMCBD | collector/client.go:124-131 | A missing file yields nothing; a malformed one is returned as an error to the caller. |
| ClientCollector.Collector.CollectOBDStats | collector/client.go:212-225 | Follows the failure policy for the stats file of a target. |
| ClientCollector.Collector.CollectRPCStats | collector/client.go:230-247 | Follows the failure policy; a file gone since discovery is no failure in either mode. |
| ClientCollector.Collector.CollectClientParams | collector/client.go:252-271 | Follows the failure policy over all param files; an unreadable one is no failure, a malformed one is. |
| ClientCollector.Collector.CollectLLite | collector/client.go:133-166 | A mount whose stats fail returns that error; otherwise the policy over its stats and its files. |
| ClientCollector.Collector.CollectRPC | collector/client.go:187-209 | The policy over stats, rpc_stats and params, in that order. |
| ClientCollector.Collector.CollectTarget | collector/client.go:95-111 | The policy over all sources of one target. |
| ClientCollector.Collector.Collect | collector/client.go:60-84 | The policy over all sources of a scrape, in collection order. |
| ClientSources.ObservationsTellTheirTarget | collector/client.go:133-287 | Whatever a discovered target yields has its name as target, its component as type where there is one, and as source the path of a file of it that was read. |
| ClientSources.ScrapeTellsItsTargets | collector/client.go:60-91 | Everything a scrape gathers is of the LDLM callback service or of a discovered target in that sense. |
| ClientSources.StatsSources | collector/client.go:133-247 | Which parser reads the stats and rpc_stats files with which labels, and which missing file is a failure. |
| ClientSources.LdlmSource | collector/client.go:124-131 | The LDLM callback file of debugfs, or else of procfs. |
| ClientSources.MountFiles | collector/client.go:21-28 | The sixteen files of a mount, in order: each under its own metric, from procfs or else sysfs. |
| ClientSources.MdcFiles | collector/client.go:36-40 | The five files of an mdc target, in order, each under its own metric. |
| ClientSources.OscFiles | collector/client.go:30-34 | The six files of an osc target, in order; megabytes are told in bytes. |
| ClientTheorems.CompareModes | collector/client.go:66-84 | Strict collection fails iff the non-strict run logs a warning, with the first one; strict logs nothing, and on success both agree. |
| ClientTheorems.RpcTargetDecomposes | collector/client.go:187-209 | The output of an mdc or osc target is that of its sources alone, in fixed order. |
| ClientTheorems.LliteTargetDecomposes | collector/client.go:133-166 | The output of an llite target is that of its stats and then its single-value files in order, and nothing if its stats fail. |
| ClientIndependence.UnreadPathsDoNotMatter | collector/client.go:60-111 | A path that no source reads changes nothing of a scrape. |
| ClientIndependence.OneOwner | internal/discovery/discovery.go:194-235 | No two discovered targets read the same path. |
| ClientIndependence.LdlmChangesItself | collector/client.go:124-131 | The LDLM callback file changes its own outcome and no other. |
| ClientIndependence.OneTargetChanges | collector/client.go:60-111 | A path that a target reads changes what that target yields, and nothing that any other source of the scrape yields. |
| ClientIndependence.GatheredAroundTarget | collector/client.go:60-111 | The same for the gathered observations and the logged failures: those before and after the target stay. |
| ClientIndependence.FailedMountIsDropped | collector/client.go:133-166 | A failed llite stats file drops exactly that mount from the scrape and adds exactly its failure. |
| ClientIndependence.OneSourceChanges | collector/client.go:187-271 | Within an mdc or osc target a path changes what the one source yields that reads it: stats, rpc_stats or one param file. |
| ClientIndependence.OneMountFileChanges | collector/client.go:133-183 | Within a mount whose stats can be read, a single-value file changes its own outcome alone. |
| ClientTheorems.CollectedConforms | internal/mapper/contract.go:304-544 | Whatever the files hold, everything gathered from the clients is in the contract with exactly its labels. |
| ClientTheorems.CollectMapped | collector/client.go:60-91 | The mapper never rejects what was collected; all of it is mapped in order unless strict mode fails. |
| Contract.Map | internal/mapper/mapper.go:17-37 | Fails iff some metric ID is unknown, with the first such; otherwise maps all, in order, with values and labels by key. |
| Contract.LabelVals | internal/mapper/mapper.go:24-27 | Label values by index of their key, the empty string for a missing label. |
| Contract.MappedLabelsRebuild | internal/mapper/mapper.go:24-33 | The labels of a conforming observation can be rebuilt from its mapped values. |
| ContractNames.EntriesAreNamed | internal/mapper/contract.go:100-544 | Every entry is named by its metric ID, but for the three counts per interface, which have the node's names. |
| ContractNames.EntriesAreTyped | internal/mapper/contract.go:100-544 | Totals are counters and all else is a gauge, with four exceptions by name. |
| ContractNames.SharedNames | internal/mapper/contract.go:119-160 | Two entries share a public name only if one counts per interface what the other counts for the node. |
| ParserContract.RpcStatsConform | internal/parser/rpc.go:23-35 | Every observation of every rpc_stats file has a metric ID of the contract and exactly its label keys. |
| ParserContract.RpcStatsTypes | internal/parser/rpc.go:228-240 | The parser's metric type differs from the contract's iff the metric is `rpcs_in_flight` or `rpcs_offset`. |
| ParserContract.ObdConforms | internal/parser/obd_stats.go:35-79 | The same for mdc and osc stats files. |
| ParserContract.LliteConforms | internal/parser/llite.go:12-114 | The same for llite stats files. |
| ParserContract.LdlmConforms | internal/parser/ldlm.go:10-45 | The same for the LDLM callback file. |
| ParserContract.LliteFileConforms | internal/parser/llite.go:117-164 | The same for the single-value files of llite mounts. |
| ParserContract.ClientFileConforms | internal/parser/target.go:10-54 | The same for the single-value files of mdc and osc targets. |
| ParserContract.StateConforms | internal/parser/target.go:87-101 | The same for the import state. |
| DescKey.KeyDetermines | internal/emitter/emitter.go:19-19 | For clean names and label keys, equal keys mean equal names and lists, except that no label and one empty key collide. |
| DescKey.SafeKeysDetermine | internal/emitter/emitter.go:19-19 | Without empty label keys the key is injective on lists of any length. |
| DescKey.UnsafeKeysCollide | internal/emitter/emitter.go:19-19 | An empty label key and a separator in a label key both make different definitions collide. |
| DescKey.ContractIsSafe | internal/mapper/contract.go:100-544 | No entry has a separator in its name or label keys, or an empty label key. |
| DescKey.ContractKeysAreDistinct | internal/emitter/emitter.go:19-19 | Distinct entries of the contract have distinct cache keys, those with a shared name included. |
| DescCache.Always | internal/emitter/emitter.go:18-35 | After every schedule: lock discipline, cache and created descriptors agree, every call has what it should. |
| DescCache.OneDescPerKey | internal/emitter/emitter.go:27-34 | At most one descriptor is ever created per key. |
| DescCache.SameDefinitionSameDesc | internal/emitter/emitter.go:18-35 | Calls with the same name and label keys return the same descriptor. |
| DescCache.CacheOnlyGrows | internal/emitter/emitter.go:33-33 | What the cache holds at one time it holds, unchanged, ever after. |
| DescCache.ReadersExcludeWriter | internal/emitter/emitter.go:20-28 | Readers and the writer never overlap, and there is at most one writer. |
| DescTheorems.ContractDescsAreDirect | internal/emitter/emitter.go:18-35 | In every interleaving, calls with definitions of the contract return what constructing the descriptor directly would. |
| DescTheorems.MatchExactly | internal/emitter/emitter.go:18-35 | No interleaving of calls with some definitions returns a wrong descriptor iff their keys tell their series apart. |
| DescTheorems.SharedKeyMismatches | internal/emitter/emitter.go:18-35 | For any two definitions of different series under one key, a schedule that returns a wrong descriptor. |
| DescTheorems.CleanDefinitionsMatchExactly | internal/emitter/emitter.go:18-35 | For clean definitions: iff no two have one name, and no label key beside one empty label key. |
| DescTheorems.Linearizable | internal/emitter/emitter.go:18-35 | The calls that have returned can be taken to happen one after the other, each at a step of its own: same answers, same cache. |
| DescTheorems.EveryCallCanReturn | internal/emitter/emitter.go:18-35 | No deadlock: after every schedule some continuation returns every call that has begun. |
| Emitter.Descriptors.GetDesc | internal/emitter/emitter.go:18-35 | One call is one `Serve` of the store, the operation to which concurrent calls are linearizable. |
| Emitter.Descriptors.Emit | internal/emitter/emitter.go:42-63 | All or nothing, whatever other collectors cache before each observation: every observation becomes its metric, in order, or the call fails on the first that is rejected. |
| LNetFiles.ParseLNetStats | internal/parser/lnet.go:39-66 | Eleven positional numbers or the first bad field; a blank file yields nothing. |
| LNetFiles.ParseNetCounts | internal/parser/lnet.go:195-239 | The counters of all named interfaces of all networks, in order. |
| LNetFiles.AllCountsReport | internal/parser/lnet.go:195-239 | The counters are exactly those of the named interfaces, each value under its own metric ID and labels. |
| LNetFiles.NiReports | internal/parser/lnet.go:264-345 | An interface reports exactly what is known of it, up and health, each value under its own metric ID and its own labels. |
| LNetFiles.AllHealthReports | internal/parser/lnet.go:242-259 | Interface health as a whole is exactly the values of the named interfaces. |
| LNetFiles.ParseNetHealth | internal/parser/lnet.go:242-259 | State and health of all named interfaces of all networks, in order. |
| LNetCollector.Collector.DropGlobalLNetCountStats | collector/lnet.go:148-158 | Exactly the three global counts are dropped, the rest keeps its order. |
| LNetCollector.Collector.CollectFromDebugFS | collector/lnet.go:86-92 | Statistics from the first readable stats file. |
| LNetCollector.Collector.CollectFromLNetCtl | collector/lnet.go:94-128 | Statistics of `lnetctl`, merged with the interface counters and health that can be had. |
| LNetCollector.Collector.CollectSupplementalNetNI | collector/lnet.go:130-146 | Interface health, or nothing where the listing fails. |
| LNetCollector.Collector.CollectParams | collector/lnet.go:160-175 | The readable parameters in their order; bad ones are skipped. |
| LNetCollector.Collector.Collect | collector/lnet.go:42-78 | The whole collection per source mode; the scrape source recorded last tells where the statistics came from. |
| LNetSources.ParamsInOrder | internal/parser/lnet.go:68-110 | The eleven parameters, in order, each under its own metric, from debugfs or else procfs; `fail_max` stands in for `fail_val`. |
| LNetSources.StatsFile | collector/lnet.go:86-92 | The statistics file of debugfs, or else of procfs. |
| LNetSources.StatsAreInOrder | internal/parser/lnet.go:14-66 | Its eleven numbers in order, each under its own metric and type. |
| LNetSources.HealthIsListed | collector/lnet.go:130-146 | Interface health is exactly what the verbose listing tells, or the plain one where that fails. |
| LNetSources.CountsAreListed | collector/lnet.go:101-120 | So are the counters, where they can be decoded. |
| LNetSources.CtlNeedsStatistics | collector/lnet.go:94-100 | Without its statistics nothing is collected from `lnetctl`, and the error is theirs. |
| LNetSources.CtlIsMerged | collector/lnet.go:94-128 | What `lnetctl` yields in each of its three cases: all eleven alone, with health, or eight with counters and health. |
| LNetSources.AutoIsOneOrTheOther | collector/lnet.go:42-84 | The automatic mode is that of the file with health put in where that succeeds, and that of `lnetctl` otherwise. |
| LNetTheorems.OtherStatsStay | collector/lnet.go:148-158 | Of the eleven statistics of `lnetctl`, dropping leaves exactly the other eight, in order. |
| LNetTheorems.CollectedParts | collector/lnet.go:42-84 | Every collection is statistics, counters, health and parameters in this order, and counters exclude the node's counts. |
| LNetTheorems.CountsTakeOneForm | collector/lnet.go:94-128 | From `lnetctl`, send, receive and drop each survive in exactly one form, and the other statistics keep their order. |
| LNetTheorems.FamiliesConsistentExactly | internal/mapper/contract.go:119-160 | Conforming observations have one label-key set per public name iff no count is there both for the node and per interface. |
| LNetTheorems.CollectedIsConsistent | collector/lnet.go:42-84 | In every mode and for every mix of failures all observations are in the contract and no public name has two label-key sets. |

## Left out

- Real I/O: `FSReader`, globbing, processes and their timeouts are function parameters; a timed-out collector is one that returns an error.
- YAML and JSON decoding of `lnetctl` output, and the LPCC parser built on it: the model starts from decoded statistics.
- IEEE floats: values and durations are exact reals, so rounding, NaN and infinities are not modelled; conservation is stated over exact addition. Counts do not wrap at 64 bits.
- Strings are sequences of characters with ASCII white space and case; invalid UTF-8 and Unicode white space are not modelled.
- `filepath.Join`, `Base` and `Dir` on paths that are not clean.
- Prometheus internals: descriptors are values identified by their position, `NewConstMetric` is a parameter that accepts or rejects label values, help texts are empty.
- The metrics sent to the channel by `Registry.Collect` (success, per-collector duration, strict mode's invalid metric), which no other step reads; a collector that panics.
- The last steps of the two `Collect` methods: `Emit` is proved by itself, `Map` is joined to the client collector in `CollectMapped`, and for LNet the conformance it needs is proved.
- The health, sptlrpc and LPCC collectors, their contract entries, `main.go` and the HTTP server: flat tables and plumbing.
- Log lines other than warnings, and the messages of errors beyond the line, the section and the cause.
- ScrapeTotals.SortKeys: sorting in place is a function, because the comparison sort is Go's library.
- StateDocument.RoundTrip: a plain line that begins with a dash by itself is not printed; `ParseClientState` covers it.
- ScrapeTotals.Registry.ObserveKey: a loop body given a contract of its own, as are `ParseRawLine`, `CollectParam` and `CollectLLiteFile`; the split has no counterpart in the source.
- DescTheorems.ContractDescsAreDirect: help texts are empty; in the exporter the first definition of a key fixes the help of all.
- Emitter.Descriptors.Emit: other collectors' calls are taken whole, between two observations, as `Linearizable` allows; it is not proved against the interleaved steps themselves.
- ScrapeProgress.EveryScrapeCanFinish: collectors return; one that hangs until its timeout is one that returns then.
