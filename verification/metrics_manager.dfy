/**
 * `MetricsManager.collect`: builds one `MetricsContainer` from a metric name and the caller's
 * (name, value) pairs, stamped with the device UUID and the collection time, and hands it to
 * the singleton repository's queue. The clock is a parameter.
 */
module MetricsManager {
  import opened Wrappers
  import opened Decimal
  import opened MetricsProto
  import MetricsRepository

  const UUID_LABEL := "uuid"
  const TIMESTAMP_LABEL := "timestamp"

  /** androidx `Pair<String, String>`: a label name and its value. */
  type MetricValue = (string, string)

  /** The caller's pairs as label pairs, in input order, names and values unchanged. */
  function CopyLabels(metricValues: seq<MetricValue>): (labels: seq<LabelPair>)
    ensures |labels| == |metricValues|
    ensures forall i :: 0 <= i < |labels| ==>
      labels[i].name == metricValues[i].0 && labels[i].value == metricValues[i].1
    decreases |metricValues|
  {
    if |metricValues| == 0 then []
    else
      var last := metricValues[|metricValues| - 1];
      CopyLabels(metricValues[..|metricValues| - 1]) + [LabelPair(last.0, last.1)]
  }

  /** Label pairs back to (name, value) pairs. */
  function LabelValues(labels: seq<LabelPair>): (pairs: seq<MetricValue>)
    ensures |pairs| == |labels|
    ensures forall i :: 0 <= i < |labels| ==> pairs[i] == (labels[i].name, labels[i].value)
  {
    seq(|labels|, i requires 0 <= i < |labels| => (labels[i].name, labels[i].value))
  }

  /**
   * The container `collect(metricName, metricValues)` builds for device `uuid` at time
   * `timestamp` (milliseconds since the epoch).
   */
  function Collect(uuid: string, timestamp: Long, metricName: string, metricValues: seq<MetricValue>): (c: MetricsContainer)
    ensures c.gatewayId == uuid
    ensures |c.families| == 1
    ensures c.families[0].name == metricName && c.families[0].metricType == UNTYPED
    ensures |c.families[0].metrics| == 1
    ensures var m := c.families[0].metrics[0];
      && m.untyped == Some(Untyped(0.0))
      && m.timestampMs == None
      && |m.labels| == 2 + |metricValues|
      && m.labels[0] == LabelPair(UUID_LABEL, uuid)
      && m.labels[1].name == TIMESTAMP_LABEL
      && ParseLong(m.labels[1].value) == Some(timestamp)
      && (forall i :: 0 <= i < |metricValues| ==>
            m.labels[2 + i].name == metricValues[i].0 && m.labels[2 + i].value == metricValues[i].1)
  {
    LongRoundTrip(timestamp);
    var metric := Metric(
      [LabelPair(UUID_LABEL, uuid), LabelPair(TIMESTAMP_LABEL, LongToString(timestamp))] + CopyLabels(metricValues),
      Some(Untyped(0.0)),
      None);
    MetricsContainer(uuid, [MetricFamily(metricName, UNTYPED, [metric])])
  }

  /** The arguments of one `collect` call, together with the clock reading it took. */
  datatype CollectArgs = CollectArgs(uuid: string, timestamp: Long, metricName: string, metricValues: seq<MetricValue>)

  /**
   * Reads a container back into the `collect` call that built it, or `None` when no call
   * could have built it. Each requirement below mirrors one fixed choice of the builder.
   */
  function Decompose(c: MetricsContainer): Option<CollectArgs> {
    if |c.families| == 1 && c.families[0].metricType == UNTYPED && |c.families[0].metrics| == 1 then
      var m := c.families[0].metrics[0];
      if && |m.labels| >= 2
         && m.labels[0] == LabelPair(UUID_LABEL, c.gatewayId)
         && m.labels[1].name == TIMESTAMP_LABEL
         && m.untyped == Some(Untyped(0.0))
         && m.timestampMs == None
      then
        match ParseLong(m.labels[1].value)
        case Some(t) => Some(CollectArgs(c.gatewayId, t, c.families[0].name, LabelValues(m.labels[2..])))
        case None => None
      else None
    else None
  }

  /** Every call's arguments can be recovered from the container it built. */
  lemma CollectDecompose(args: CollectArgs)
    ensures Decompose(Collect(args.uuid, args.timestamp, args.metricName, args.metricValues)) == Some(args)
  {
    var c := Collect(args.uuid, args.timestamp, args.metricName, args.metricValues);
    var labels := c.families[0].metrics[0].labels;
    assert LabelValues(labels[2..]) == args.metricValues;
  }

  /** Conversely, a container `Decompose` accepts is exactly what the recovered call builds. */
  lemma DecomposeCollect(c: MetricsContainer, args: CollectArgs)
    requires Decompose(c) == Some(args)
    ensures Collect(args.uuid, args.timestamp, args.metricName, args.metricValues) == c
  {
    var m := c.families[0].metrics[0];
    ParseLongCanonical(m.labels[1].value, args.timestamp);
    var built := Collect(args.uuid, args.timestamp, args.metricName, args.metricValues);
    var bm := built.families[0].metrics[0];
    assert bm.labels == m.labels;
    assert bm == m;
    assert built.families[0] == c.families[0];
    assert built.families == c.families;
  }

  /** Distinct calls build distinct containers: no input is lost in the encoding. */
  lemma CollectInjective(a: CollectArgs, b: CollectArgs)
    requires Collect(a.uuid, a.timestamp, a.metricName, a.metricValues)
          == Collect(b.uuid, b.timestamp, b.metricName, b.metricValues)
    ensures a == b
  {
    CollectDecompose(a);
    CollectDecompose(b);
  }

  /** Caller pairs are not filtered or de-duplicated: a caller's own "uuid" or "timestamp" pair
      is kept as an extra label after the two the builder adds. */
  lemma ReservedNamesKept(uuid: string, timestamp: Long, metricName: string, metricValues: seq<MetricValue>, i: nat)
    requires i < |metricValues| && metricValues[i].0 in {UUID_LABEL, TIMESTAMP_LABEL}
    ensures var labels := Collect(uuid, timestamp, metricName, metricValues).families[0].metrics[0].labels;
      exists j, k :: 0 <= j < k < |labels| && labels[j].name == labels[k].name == metricValues[i].0
  {
    var labels := Collect(uuid, timestamp, metricName, metricValues).families[0].metrics[0].labels;
    var j := if metricValues[i].0 == UUID_LABEL then 0 else 1;
    assert labels[j].name == labels[2 + i].name;
  }

  /** A `MetricsManager` instance: the repository it fetched at construction and the identity. */
  datatype Manager = Manager(repository: MetricsRepository.Ref, uuid: string)

  /** The constructor: fetches the singleton repository (the periodic worker it also schedules
      is not part of this model). */
  function NewManager(h: MetricsRepository.Heap, uuid: string): (res: (MetricsRepository.Heap, Manager))
    requires MetricsRepository.Valid(h)
    ensures MetricsRepository.Valid(res.0)
    ensures res.0.instance == Some(res.1.repository) && res.1.uuid == uuid
    ensures h.instance.Some? ==> res.0 == h && res.1.repository == h.instance.value
  {
    var fetched := MetricsRepository.GetRepository(h);
    (fetched.0, Manager(fetched.1, uuid))
  }

  /**
   * `collect(metricName, metricValues)` at clock reading `timestamp`: exactly one container,
   * the one built for these arguments, is appended to the manager's repository queue.
   */
  function CollectInto(h: MetricsRepository.Heap, m: Manager, timestamp: Long, metricName: string, metricValues: seq<MetricValue>): (h': MetricsRepository.Heap)
    requires MetricsRepository.Valid(h) && m.repository in h.queueOf
    ensures MetricsRepository.Valid(h')
    ensures h'.instance == h.instance && h'.queueOf == h.queueOf
    ensures var q := h.queueOf[m.repository];
      && q in h'.queues
      && |h'.queues[q]| == |h.queues[q]| + 1
      && h'.queues[q][..|h.queues[q]|] == h.queues[q]
      && Decompose(h'.queues[q][|h.queues[q]|]) == Some(CollectArgs(m.uuid, timestamp, metricName, metricValues))
    ensures forall q :: q in h.queues && q != h.queueOf[m.repository] ==> q in h'.queues && h'.queues[q] == h.queues[q]
  {
    CollectDecompose(CollectArgs(m.uuid, timestamp, metricName, metricValues));
    MetricsRepository.QueueMetric(h, m.repository, Collect(m.uuid, timestamp, metricName, metricValues))
  }

  /** Two managers, whenever constructed, feed one and the same queue. */
  lemma ManagersShareQueue(h: MetricsRepository.Heap, uuid1: string, uuid2: string)
    requires MetricsRepository.Valid(h)
    ensures var (h1, m1) := NewManager(h, uuid1);
      var (h2, m2) := NewManager(h1, uuid2);
      h2 == h1 && m1.repository == m2.repository
  {
  }
}
