/** The normalized output of the parsers. */
module Observations {
  import opened GoStrings

  datatype MetricType = Gauge | Counter | Untyped

  type Labels = map<string, string>

  /** What identifies a time series: the metric and its labels. */
  datatype Series = Series(metricID: string, labels: Labels)

  datatype Observation = Observation(
    collector: string,
    source: string,
    metricID: string,
    metricType: MetricType,
    labels: Labels,
    value: real)
  {
    function Id(): Series {
      Series(metricID, labels)
    }
  }

  /** Why a source could not be turned into observations. */
  datatype ParseError =
    | TooFewFields(what: string, count: nat)
    | BadNumber(what: string, text: string)
    | BadBucket(section: string, line: string, cause: ParseError)
    | BadDocument(what: string)

  /** The labels every source of one target shares. */
  datatype Context = Context(source: string, component: string, target: string, typ: string)
}
