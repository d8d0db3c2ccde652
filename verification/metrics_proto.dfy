/**
 * The message types the metric builder fills in: Prometheus' `LabelPair`, `Metric`,
 * `MetricFamily` and `MetricType`, and magma's `MetricsContainer`. Only the fields the builder
 * touches are modelled; an optional sub-message or scalar that was never set is `None`.
 */
module MetricsProto {
  import opened Wrappers

  datatype LabelPair = LabelPair(name: string, value: string)

  datatype MetricType = COUNTER | GAUGE | SUMMARY | UNTYPED | HISTOGRAM

  /** Prometheus' `Untyped` sample; its value is a double, here a real. */
  datatype Untyped = Untyped(value: real)

  datatype Metric = Metric(labels: seq<LabelPair>, untyped: Option<Untyped>, timestampMs: Option<int>)

  datatype MetricFamily = MetricFamily(name: string, metricType: MetricType, metrics: seq<Metric>)

  /** The batch pushed to the controller: the sending gateway and its metric families. */
  datatype MetricsContainer = MetricsContainer(gatewayId: string, families: seq<MetricFamily>)
}
