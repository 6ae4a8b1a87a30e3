/** The public metric contract of the client, RPC and LNet metrics, and the mapper onto it. */
module Contract {
  import opened Wrappers
  import opened GoStrings
  import opened Observations

  datatype MetricDef = MetricDef(name: string, help: string, metricType: MetricType, labelKeys: seq<string>)

  /** Help texts are not part of this model. */
  const HELP := ""

  const OPERATION := ["operation"]
  const TARGET := ["component", "target"]
  const TARGET_NID := ["component", "target", "nid"]
  const TARGET_TYPE := ["component", "target", "type"]
  const TARGET_OPERATION := ["component", "target", "operation"]
  const TARGET_TYPE_OPERATION := ["component", "target", "type", "operation"]
  const TARGET_TYPE_STATE := ["component", "target", "type", "state"]
  const BUCKET := ["component", "target", "operation", "size"]
  const TYPED_BUCKET := ["component", "target", "operation", "size", "type"]

  /** All public names begin alike. */
  const NAMESPACE := "lustre_"

  function Entry(base: string, metricType: MetricType, labelKeys: seq<string>): Option<MetricDef> {
    Some(MetricDef(NAMESPACE + base, HELP, metricType, labelKeys))
  }

  type Registry = string -> Option<MetricDef>

  /** The contract: the entry of a metric ID, filed by the length of the ID as a hash table would by its hash. */
  function Lookup(metricID: string): Option<MetricDef> {
    match |metricID|
    case 7 => (
      match metricID
      case "maximum" => Entry("maximum", Gauge, TARGET)
      case _ => None)
    case 9 => (
      match metricID
      case "allocated" => Entry("allocated", Gauge, TARGET)
      case _ => None)
    case 10 => (
      match metricID
      case "lnet_ni_up" => Entry("lnet_ni_up", Gauge, TARGET_NID)
      case _ => None)
    case 11 => (
      match metricID
      case "inodes_free" => Entry("inodes_free", Gauge, TARGET)
      case "stats_total" => Entry("stats_total", Counter, TARGET_OPERATION)
      case "rpcs_offset" => Entry("rpcs_offset", Counter, BUCKET)
      case _ => None)
    case 12 => (
      match metricID
      case "errors_total" => Entry("errors_total", Counter, TARGET)
      case "fail_maximum" => Entry("fail_maximum", Gauge, TARGET)
      case "rpcs_current" => Entry("rpcs_current", Gauge, TARGET_TYPE_OPERATION)
      case "target_state" => Entry("target_state", Gauge, TARGET_TYPE_STATE)
      case _ => None)
    case 13 => (
      match metricID
      case "pending_pages" => Entry("pending_pages", Gauge, TARGET_TYPE_OPERATION)
      case "target_active" => Entry("target_active", Gauge, TARGET_TYPE)
      case _ => None)
    case 14 => (
      match metricID
      case "lnet_ni_health" => Entry("lnet_ni_health", Gauge, TARGET_NID)
      case "inodes_maximum" => Entry("inodes_maximum", Gauge, TARGET)
      case "free_kibibytes" => Entry("free_kibibytes", Gauge, TARGET)
      case "ldlm_cbd_stats" => Entry("ldlm_cbd_stats", Counter, OPERATION)
      case "rpcs_in_flight" => Entry("rpcs_in_flight", Counter, TYPED_BUCKET)
      case _ => None)
    case 15 => (
      match metricID
      case "debug_megabytes" => Entry("debug_megabytes", Gauge, TARGET)
      case "blocksize_bytes" => Entry("blocksize_bytes", Gauge, TARGET)
      case "osc_dirty_bytes" => Entry("osc_dirty_bytes", Gauge, TARGET)
      case _ => None)
    case 16 => (
      match metricID
      case "send_count_total" => Entry("send_count_total", Counter, TARGET)
      case "drop_count_total" => Entry("drop_count_total", Counter, TARGET)
      case "send_bytes_total" => Entry("send_bytes_total", Counter, TARGET)
      case "drop_bytes_total" => Entry("drop_bytes_total", Counter, TARGET)
      case "fail_error_total" => Entry("fail_error_total", Counter, TARGET)
      case "read_bytes_total" => Entry("read_bytes_total", Counter, TARGET)
      case _ => None)
    case 17 => (
      match metricID
      case "route_count_total" => Entry("route_count_total", Counter, TARGET)
      case "route_bytes_total" => Entry("route_bytes_total", Counter, TARGET)
      case "write_bytes_total" => Entry("write_bytes_total", Counter, TARGET)
      case "stats_seconds_sum" => Entry("stats_seconds_sum", Counter, TARGET_TYPE_OPERATION)
      case "statahead_maximum" => Entry("statahead_maximum", Gauge, TARGET)
      case "max_pages_per_rpc" => Entry("max_pages_per_rpc", Gauge, TARGET_TYPE)
      case _ => None)
    case 18 => (
      match metricID
      case "capacity_kibibytes" => Entry("capacity_kibibytes", Gauge, TARGET)
      case "read_samples_total" => Entry("read_samples_total", Counter, TARGET)
      case "lazystatfs_enabled" => Entry("lazystatfs_enabled", Gauge, TARGET)
      case "max_rpcs_in_flight" => Entry("max_rpcs_in_flight", Gauge, TARGET_TYPE)
      case _ => None)
    case 19 => (
      match metricID
      case "receive_count_total" => Entry("receive_count_total", Counter, TARGET)
      case "receive_bytes_total" => Entry("receive_bytes_total", Counter, TARGET)
      case "catastrophe_enabled" => Entry("catastrophe_enabled", Gauge, TARGET)
      case "available_kibibytes" => Entry("available_kibibytes", Gauge, TARGET)
      case "write_samples_total" => Entry("write_samples_total", Counter, TARGET)
      case "xattr_cache_enabled" => Entry("xattr_cache_enabled", Gauge, TARGET)
      case "pages_per_rpc_total" => Entry("pages_per_rpc_total", Counter, BUCKET)
      case "osc_max_dirty_bytes" => Entry("osc_max_dirty_bytes", Gauge, TARGET)
      case _ => None)
    case 21 => (
      match metricID
      case "panic_on_lbug_enabled" => Entry("panic_on_lbug_enabled", Gauge, TARGET)
      case "default_ea_size_bytes" => Entry("default_ea_size_bytes", Gauge, TARGET)
      case "maximum_ea_size_bytes" => Entry("maximum_ea_size_bytes", Gauge, TARGET)
      case "statahead_agl_enabled" => Entry("statahead_agl_enabled", Gauge, TARGET)
      case _ => None)
    case 22 => (
      match metricID
      case "lnet_memory_used_bytes" => Entry("lnet_memory_used_bytes", Gauge, TARGET)
      case "checksum_pages_enabled" => Entry("checksum_pages_enabled", Gauge, TARGET)
      case "max_mod_rpcs_in_flight" => Entry("max_mod_rpcs_in_flight", Gauge, TARGET_TYPE)
      case _ => None)
    case 23 => (
      match metricID
      case "send_count_by_nid_total" => Entry("send_count_total", Counter, TARGET_NID)
      case "drop_count_by_nid_total" => Entry("drop_count_total", Counter, TARGET_NID)
      case "console_backoff_enabled" => Entry("console_backoff_enabled", Gauge, TARGET)
      case "read_minimum_size_bytes" => Entry("read_minimum_size_bytes", Gauge, TARGET)
      case "read_maximum_size_bytes" => Entry("read_maximum_size_bytes", Gauge, TARGET)
      case _ => None)
    case 24 => (
      match metricID
      case "write_minimum_size_bytes" => Entry("write_minimum_size_bytes", Gauge, TARGET)
      case "write_maximum_size_bytes" => Entry("write_maximum_size_bytes", Gauge, TARGET)
      case _ => None)
    case 25 => (
      match metricID
      case "console_ratelimit_enabled" => Entry("console_ratelimit_enabled", Gauge, TARGET)
      case _ => None)
    case 26 => (
      match metricID
      case "receive_count_by_nid_total" => Entry("receive_count_total", Counter, TARGET_NID)
      case "watchdog_ratelimit_enabled" => Entry("watchdog_ratelimit_enabled", Gauge, TARGET)
      case _ => None)
    case 27 => (
      match metricID
      case "lnet_ni_health_errors_total" => Entry("lnet_ni_health_errors_total", Counter, TARGET_NID)
      case _ => None)
    case 28 => (
      match metricID
      case "lnet_ni_health_dropped_total" => Entry("lnet_ni_health_dropped_total", Counter, TARGET_NID)
      case "lnet_ni_health_aborted_total" => Entry("lnet_ni_health_aborted_total", Counter, TARGET_NID)
      case "maximum_read_ahead_megabytes" => Entry("maximum_read_ahead_megabytes", Gauge, TARGET)
      case _ => None)
    case 29 => (
      match metricID
      case "lnet_ni_health_no_route_total" => Entry("lnet_ni_health_no_route_total", Counter, TARGET_NID)
      case "lnet_ni_health_timeouts_total" => Entry("lnet_ni_health_timeouts_total", Counter, TARGET_NID)
      case _ => None)
    case 30 => (
      match metricID
      case "console_max_delay_centiseconds" => Entry("console_max_delay_centiseconds", Gauge, TARGET)
      case "console_min_delay_centiseconds" => Entry("console_min_delay_centiseconds", Gauge, TARGET)
      case _ => None)
    case 31 => (
      match metricID
      case "lnet_ni_health_interrupts_total" => Entry("lnet_ni_health_interrupts_total", Counter, TARGET_NID)
      case _ => None)
    case 34 => (
      match metricID
      case "maximum_read_ahead_whole_megabytes" => Entry("maximum_read_ahead_whole_megabytes", Gauge, TARGET)
      case _ => None)
    case 37 => (
      match metricID
      case "maximum_read_ahead_per_file_megabytes" => Entry("maximum_read_ahead_per_file_megabytes", Gauge, TARGET)
      case _ => None)
    case _ => None
  }

  // ----------------------------------------------------------------- conformance

  function KeySet(keys: seq<string>): set<string> {
    set k | k in keys
  }

  /** The observation belongs to an entry of the contract and carries exactly its labels. */
  predicate Conforms(reg: Registry, o: Observation) {
    reg(o.metricID).Some? && o.labels.Keys == KeySet(reg(o.metricID).value.labelKeys)
  }

  predicate AllConform(reg: Registry, obs: seq<Observation>) {
    forall i :: 0 <= i < |obs| ==> Conforms(reg, obs[i])
  }

  /** The contract has an entry with these label keys. */
  predicate HasEntry(reg: Registry, metricID: string, labelKeys: seq<string>) {
    reg(metricID).Some? && reg(metricID).value.labelKeys == labelKeys
  }

  // --------------------------------------------------------------------- mapper

  datatype MappedObservation = MappedObservation(def: MetricDef, labelVals: seq<string>, value: real)

  /** Reading a missing label of a Go map yields the empty string. */
  function LabelOf(labels: Labels, key: string): string {
    if key in labels then labels[key] else ""
  }

  /** The observation that a mapped one stands for. */
  ghost predicate Stands(reg: Registry, m: MappedObservation, o: Observation) {
    && reg(o.metricID) == Some(m.def)
    && m.value == o.value
    && |m.labelVals| == |m.def.labelKeys|
    && forall i :: 0 <= i < |m.labelVals| ==>
         m.labelVals[i] == if m.def.labelKeys[i] in o.labels then o.labels[m.def.labelKeys[i]] else ""
  }

  /** Observation `i` is the first whose metric ID is not in the contract. */
  ghost predicate FirstUnknown(reg: Registry, observations: seq<Observation>, i: nat) {
    && i < |observations|
    && reg(observations[i].metricID).None?
    && forall j :: 0 <= j < i ==> reg(observations[j].metricID).Some?
  }

  /** Maps all observations in order, or fails on the first unknown metric ID. */
  method Map(reg: Registry, observations: seq<Observation>) returns (r: Result<seq<MappedObservation>, string>)
    ensures r.Success? <==> forall i :: 0 <= i < |observations| ==> reg(observations[i].metricID).Some?
    ensures r.Success? ==> |r.value| == |observations| && forall i :: 0 <= i < |r.value| ==> Stands(reg, r.value[i], observations[i])
    ensures r.Failure? ==> exists i: nat :: FirstUnknown(reg, observations, i) && observations[i].metricID == r.error
  {
    var result := [];
    for n := 0 to |observations|
      invariant |result| == n
      invariant forall i :: 0 <= i < n ==> Stands(reg, result[i], observations[i])
    {
      var obs := observations[n];
      var def := reg(obs.metricID);
      if def.None? {
        assert FirstUnknown(reg, observations, n);
        return Failure(obs.metricID);
      }
      var labelVals := LabelVals(def.value, obs.labels);
      result := result + [MappedObservation(def.value, labelVals, obs.value)];
    }
    return Success(result);
  }

  /** Fills the label values of one observation by index. */
  method LabelVals(def: MetricDef, labels: Labels) returns (vals: seq<string>)
    ensures |vals| == |def.labelKeys|
    ensures forall i :: 0 <= i < |vals| ==> vals[i] == if def.labelKeys[i] in labels then labels[def.labelKeys[i]] else ""
  {
    var labelVals := new string[|def.labelKeys|](_ => "");
    for i := 0 to |def.labelKeys|
      invariant forall j :: 0 <= j < i ==> labelVals[j] == LabelOf(labels, def.labelKeys[j])
    {
      labelVals[i] := LabelOf(labels, def.labelKeys[i]);
    }
    return labelVals[..];
  }

  /** The labels that a list of keys and a list of values spell. */
  function Zip(keys: seq<string>, vals: seq<string>): Labels
    requires |keys| == |vals|
  {
    if keys == [] then map[] else Zip(keys[1..], vals[1..])[keys[0] := vals[0]]
  }

  lemma {:induction false} ZipLabels(keys: seq<string>, vals: seq<string>, labels: Labels)
    requires |keys| == |vals|
    requires forall i :: 0 <= i < |keys| ==> keys[i] in labels && vals[i] == labels[keys[i]]
    ensures Zip(keys, vals) == map k | k in KeySet(keys) && k in labels :: labels[k]
  {
    if keys != [] {
      ZipLabels(keys[1..], vals[1..], labels);
      assert keys == [keys[0]] + keys[1..];
    }
  }

  /** Mapping loses nothing of a conforming observation: its labels can be rebuilt. */
  lemma MappedLabelsRebuild(reg: Registry, m: MappedObservation, o: Observation)
    requires Conforms(reg, o) && Stands(reg, m, o)
    ensures Zip(m.def.labelKeys, m.labelVals) == o.labels
  {
    var keys := m.def.labelKeys;
    forall i | 0 <= i < |keys|
      ensures keys[i] in o.labels && m.labelVals[i] == o.labels[keys[i]]
    {
      assert keys[i] in KeySet(keys);
    }
    ZipLabels(keys, m.labelVals, o.labels);
  }
}
