/**
 * `MetricsRepository`: a process-wide singleton owning one unbounded FIFO queue of metric
 * containers. The JVM heap is modelled explicitly so that object identity is observable: a
 * `Heap` holds the static `_instance` field, each repository's final `mMetricsQueue` field, and
 * the contents of each queue object. Operations run one at a time (sequential model).
 */
module MetricsRepository {
  import opened Wrappers
  import opened MetricsProto

  /** A heap reference. */
  type Ref = nat

  datatype Heap = Heap(
    instance: Option<Ref>,                       // static MetricsRepository._instance
    queueOf: map<Ref, Ref>,                      // repository -> its final mMetricsQueue
    queues: map<Ref, seq<MetricsContainer>>,     // queue object -> contents, head first
    next: Ref)                                   // first reference not yet allocated

  /** Heap well-formedness: every reference in use was allocated and points to a live object. */
  predicate Valid(h: Heap) {
    && (h.instance.Some? ==> h.instance.value in h.queueOf)
    && (forall r :: r in h.queueOf ==> r < h.next && h.queueOf[r] in h.queues)
    && (forall q :: q in h.queues ==> q < h.next)
  }

  /** The heap right after class initialisation: `_instance` is null, no repository exists. */
  function Startup(): (h: Heap)
    ensures Valid(h)
    ensures h.instance == None && h.queueOf == map[]
  {
    Heap(None, map[], map[], 0)
  }

  /**
   * `getRepository`: creates the repository, with a fresh empty queue, on the first call and
   * returns the stored instance, changing nothing, on every later call.
   */
  function GetRepository(h: Heap): (res: (Heap, Ref))
    requires Valid(h)
    ensures Valid(res.0)
    ensures res.0.instance == Some(res.1) && res.1 in res.0.queueOf
    ensures h.instance.Some? ==> res == (h, h.instance.value)
    ensures h.instance.None? ==>
      && res.1 !in h.queueOf
      && res.0.queueOf[res.1] !in h.queues
      && res.0.queues[res.0.queueOf[res.1]] == []
      && (forall r :: r in h.queueOf ==> r in res.0.queueOf && res.0.queueOf[r] == h.queueOf[r])
      && (forall q :: q in h.queues ==> q in res.0.queues && res.0.queues[q] == h.queues[q])
  {
    if h.instance.Some? then
      (h, h.instance.value)
    else
      var repo := h.next;
      var queue := h.next + 1;
      (Heap(Some(repo), h.queueOf[repo := queue], h.queues[queue := []], h.next + 2), repo)
  }

  /**
   * `getQueue`: the repository's queue object itself (a reference, not a copy): what
   * `queueMetric` appends shows up at the tail of the returned queue, and only there.
   */
  function GetQueue(h: Heap, repo: Ref): (q: Ref)
    requires Valid(h) && repo in h.queueOf
    ensures q in h.queues
    ensures forall c :: q in QueueMetric(h, repo, c).queues && QueueMetric(h, repo, c).queues[q] == h.queues[q] + [c]
    ensures forall c, p :: p in h.queues && p != q ==> p in QueueMetric(h, repo, c).queues && QueueMetric(h, repo, c).queues[p] == h.queues[p]
  {
    h.queueOf[repo]
  }

  /**
   * `queueMetric`: appends `c` at the tail of the repository's queue. It never rejects: the
   * queue has no bound. Earlier contents, other queues and the singleton are untouched.
   */
  function QueueMetric(h: Heap, repo: Ref, c: MetricsContainer): (h': Heap)
    requires Valid(h) && repo in h.queueOf
    ensures Valid(h')
    ensures h'.instance == h.instance && h'.queueOf == h.queueOf && h'.next == h.next
    ensures var q := h.queueOf[repo];
      && q in h'.queues
      && |h'.queues[q]| == |h.queues[q]| + 1
      && h'.queues[q][..|h.queues[q]|] == h.queues[q]
      && h'.queues[q][|h.queues[q]|] == c
    ensures forall q :: q in h.queues && q != h.queueOf[repo] ==> q in h'.queues && h'.queues[q] == h.queues[q]
  {
    var q := h.queueOf[repo];
    h.(queues := h.queues[q := h.queues[q] + [c]])
  }

  /**
   * `Queue.poll` on a queue obtained from `getQueue`: removes and returns the head, or returns
   * null (`None`) when the queue is empty. This is how the consumer drains the queue.
   */
  function Poll(h: Heap, q: Ref): (res: (Heap, Option<MetricsContainer>))
    requires Valid(h) && q in h.queues
    ensures Valid(res.0)
    ensures res.0.instance == h.instance && res.0.queueOf == h.queueOf
    ensures q in res.0.queues
    ensures h.queues[q] == [] <==> res.1 == None
    ensures res.1.Some? ==> [res.1.value] + res.0.queues[q] == h.queues[q]
    ensures res.1.None? ==> res.0 == h
    ensures forall p :: p in h.queues && p != q ==> p in res.0.queues && res.0.queues[p] == h.queues[p]
  {
    if h.queues[q] == [] then (h, None)
    else (h.(queues := h.queues[q := h.queues[q][1..]]), Some(h.queues[q][0]))
  }

  /** A client action that reaches the repository through the singleton accessor. */
  datatype Op =
    | Fetch                                // getRepository(ctx)
    | Enqueue(c: MetricsContainer)         // getRepository(ctx).queueMetric(c)
    | Dequeue                              // getRepository(ctx).getQueue().poll()

  /** One action: the repository it reached and, for `Dequeue`, the element it removed. */
  function Step(h: Heap, op: Op): (res: (Heap, Ref, Option<MetricsContainer>))
    requires Valid(h)
    ensures Valid(res.0)
    ensures res.0.instance == Some(res.1)
  {
    var fetched := GetRepository(h);
    var repo := fetched.1;
    match op
    case Fetch => (fetched.0, repo, None)
    case Enqueue(c) => (QueueMetric(fetched.0, repo, c), repo, None)
    case Dequeue =>
      var polled := Poll(fetched.0, GetQueue(fetched.0, repo));
      (polled.0, repo, polled.1)
  }

  function Removed(head: Option<MetricsContainer>): seq<MetricsContainer> {
    if head.Some? then [head.value] else []
  }

  /** A sequence of actions: the final heap, the repository each action reached, and what the
      `Dequeue` actions removed, in order. */
  function Run(h: Heap, ops: seq<Op>): (res: (Heap, seq<Ref>, seq<MetricsContainer>))
    requires Valid(h)
    ensures Valid(res.0)
    ensures |res.1| == |ops|
    decreases |ops|
  {
    if |ops| == 0 then (h, [], [])
    else
      var first := Step(h, ops[0]);
      var rest := Run(first.0, ops[1..]);
      (rest.0, [first.1] + rest.1, Removed(first.2) + rest.2)
  }

  /** Once a repository exists, every later action reaches that same instance. */
  lemma {:induction false} InstanceStable(h: Heap, ops: seq<Op>)
    requires Valid(h) && h.instance.Some?
    ensures Run(h, ops).0.instance == h.instance
    ensures forall i :: 0 <= i < |ops| ==> Run(h, ops).1[i] == h.instance.value
    decreases |ops|
  {
    if |ops| > 0 {
      var h1 := Step(h, ops[0]).0;
      InstanceStable(h1, ops[1..]);
    }
  }

  /** Starting from any heap, all actions of a run reach one and the same repository. */
  lemma SingleInstance(h: Heap, ops: seq<Op>)
    requires Valid(h)
    ensures forall i, j :: 0 <= i < |ops| && 0 <= j < |ops| ==> Run(h, ops).1[i] == Run(h, ops).1[j]
  {
    if |ops| > 0 {
      var h1 := Step(h, ops[0]).0;
      InstanceStable(h1, ops[1..]);
    }
  }

  /** A newly created repository's queue is empty. */
  lemma NewRepositoryEmpty(h: Heap)
    requires Valid(h) && h.instance.None?
    ensures var (h1, repo) := GetRepository(h); h1.queues[GetQueue(h1, repo)] == []
  {
  }

  /** `queueMetric` for each of `cs` in turn. */
  function QueueAll(h: Heap, repo: Ref, cs: seq<MetricsContainer>): (h': Heap)
    requires Valid(h) && repo in h.queueOf
    ensures Valid(h') && h'.queueOf == h.queueOf && h'.instance == h.instance
    decreases |cs|
  {
    if |cs| == 0 then h else QueueAll(QueueMetric(h, repo, cs[0]), repo, cs[1..])
  }

  /** `poll` `n` times on queue `q`: the heap afterwards and the elements removed, in order. */
  function PollN(h: Heap, q: Ref, n: nat): (res: (Heap, seq<MetricsContainer>))
    requires Valid(h) && q in h.queues
    ensures Valid(res.0) && q in res.0.queues
    ensures res.0.queueOf == h.queueOf && res.0.instance == h.instance
    decreases n
  {
    if n == 0 then (h, [])
    else
      var first := Poll(h, q);
      var rest := PollN(first.0, q, n - 1);
      (rest.0, Removed(first.1) + rest.1)
  }

  /** Queueing `cs` appends them, in order, after the queue's contents; nothing is refused,
      however many are queued. */
  lemma {:induction false} QueueAllAppends(h: Heap, repo: Ref, cs: seq<MetricsContainer>)
    requires Valid(h) && repo in h.queueOf
    ensures var q := h.queueOf[repo];
      q in QueueAll(h, repo, cs).queues && QueueAll(h, repo, cs).queues[q] == h.queues[q] + cs
    decreases |cs|
  {
    if |cs| > 0 {
      var q := h.queueOf[repo];
      var h1 := QueueMetric(h, repo, cs[0]);
      assert h1.queues[q] == h.queues[q] + [cs[0]];
      QueueAllAppends(h1, repo, cs[1..]);
      assert h.queues[q] + [cs[0]] + cs[1..] == h.queues[q] + cs;
    }
  }

  /** Polling `n` times removes exactly the first `n` elements, head first, and keeps the rest. */
  lemma {:induction false} PollNTakesHead(h: Heap, q: Ref, n: nat)
    requires Valid(h) && q in h.queues && n <= |h.queues[q]|
    ensures PollN(h, q, n).1 == h.queues[q][..n]
    ensures PollN(h, q, n).0.queues[q] == h.queues[q][n..]
    decreases n
  {
    if n > 0 {
      var first := Poll(h, q);
      assert first.1 == Some(h.queues[q][0]) && first.0.queues[q] == h.queues[q][1..];
      PollNTakesHead(first.0, q, n - 1);
      assert h.queues[q][..n] == [h.queues[q][0]] + h.queues[q][1..][..n - 1];
    }
  }

  /**
   * FIFO: on a fresh process, queueing `cs` through the repository and then polling its queue
   * `|cs|` times returns exactly `cs` in queueing order and leaves the queue empty.
   */
  lemma FifoOrder(cs: seq<MetricsContainer>)
    ensures var fetched := GetRepository(Startup());
      var q := GetQueue(fetched.0, fetched.1);
      var drained := PollN(QueueAll(fetched.0, fetched.1, cs), q, |cs|);
      drained.1 == cs && drained.0.queues[q] == []
  {
    var fetched := GetRepository(Startup());
    var q := GetQueue(fetched.0, fetched.1);
    QueueAllAppends(fetched.0, fetched.1, cs);
    var h2 := QueueAll(fetched.0, fetched.1, cs);
    assert h2.queues[q] == cs;
    PollNTakesHead(h2, q, |cs|);
  }

  /**
   * `getQueue` hands out the live queue: a removal through one reference is seen through every
   * later `getQueue` call on the same repository.
   */
  lemma LiveQueue(h: Heap, repo: Ref)
    requires Valid(h) && repo in h.queueOf && h.queues[GetQueue(h, repo)] != []
    ensures var (h1, head) := Poll(h, GetQueue(h, repo));
      && GetQueue(h1, repo) == GetQueue(h, repo)
      && h1.queues[GetQueue(h1, repo)] == h.queues[GetQueue(h, repo)][1..]
  {
  }
}
