/**
 The end-to-end metric handlers (`onAck`, `onRoundtrip`,
 `onOffsetCommit`): service-level-gated updates to the end-to-end
 counters and latency histograms.

 Counters are natural numbers; a histogram is the sequence of
 durations it has observed, in nanoseconds, oldest first.
 */
module EndToEnd {
  import opened Durations
  import opened Configuration

  /** A Kafka partition id (Go int32). */
  type PartitionId = p: int | -0x8000_0000 <= p <= 0x7FFF_FFFF

  datatype Metrics = Metrics(
    produced: nat,
    acked: nat,
    received: nat,
    committed: nat,
    ackLatency: seq<Duration>,
    roundtripLatency: seq<Duration>,
    commitLatency: seq<Duration>)

  /** The metrics as registered at startup: every counter zero, every histogram empty. */
  const NoMetrics: Metrics := Metrics(0, 0, 0, 0, [], [], [])

  /** A produce request was acknowledged: counted and observed whatever its latency. */
  function OnAck(m: Metrics, partitionId: PartitionId, duration: Duration): (r: Metrics)
    ensures r.acked == m.acked + 1
    ensures r.ackLatency == m.ackLatency + [duration]
    ensures r.(acked := m.acked, ackLatency := m.ackLatency) == m
  {
    m.(acked := m.acked + 1, ackLatency := m.ackLatency + [duration])
  }

  /**
   A canary message came back. Messages slower than the roundtrip
   threshold are dropped without trace; the others are counted and
   observed. A duration equal to the threshold is within it.
   */
  function OnRoundtrip(cfg: Config, m: Metrics, partitionId: PartitionId, duration: Duration): (r: Metrics)
    ensures duration > cfg.endToEnd.consumer.roundtripSla <==> r == m
    ensures duration <= cfg.endToEnd.consumer.roundtripSla ==>
              r.received == m.received + 1 && r.roundtripLatency == m.roundtripLatency + [duration]
    ensures r.(received := m.received, roundtripLatency := m.roundtripLatency) == m
  {
    if duration > cfg.endToEnd.consumer.roundtripSla then
      m
    else
      m.(received := m.received + 1, roundtripLatency := m.roundtripLatency + [duration])
  }

  /**
   An offset commit was confirmed. Its latency is always observed; it
   is counted as committed only within the commit threshold.
   */
  function OnOffsetCommit(cfg: Config, m: Metrics, partitionId: PartitionId, duration: Duration): (r: Metrics)
    ensures r.commitLatency == m.commitLatency + [duration]
    ensures r.committed == m.committed + 1 <==> duration <= cfg.endToEnd.consumer.commitSla
    ensures r.committed == m.committed || r.committed == m.committed + 1
    ensures r.(committed := m.committed, commitLatency := m.commitLatency) == m
  {
    var observed := m.(commitLatency := m.commitLatency + [duration]);
    if duration > cfg.endToEnd.consumer.commitSla then
      observed
    else
      observed.(committed := m.committed + 1)
  }

  /** No handler's effect depends on the partition it is told about. */
  lemma HandlersIgnorePartition(cfg: Config, m: Metrics, p: PartitionId, q: PartitionId, duration: Duration)
    ensures OnAck(m, p, duration) == OnAck(m, q, duration)
    ensures OnRoundtrip(cfg, m, p, duration) == OnRoundtrip(cfg, m, q, duration)
    ensures OnOffsetCommit(cfg, m, p, duration) == OnOffsetCommit(cfg, m, q, duration)
  {
  }

  /** One lifecycle event of a canary message, as reported to the service. */
  datatype Event =
    | Acked(partitionId: PartitionId, duration: Duration)
    | RoundtripCompleted(partitionId: PartitionId, duration: Duration)
    | CommitConfirmed(partitionId: PartitionId, duration: Duration)

  /** Dispatches an event to its handler. */
  function Step(cfg: Config, m: Metrics, e: Event): Metrics
  {
    match e
    case Acked(p, d) => OnAck(m, p, d)
    case RoundtripCompleted(p, d) => OnRoundtrip(cfg, m, p, d)
    case CommitConfirmed(p, d) => OnOffsetCommit(cfg, m, p, d)
  }

  /** The metrics after the handlers have seen `events` in order. */
  function Replay(cfg: Config, m: Metrics, events: seq<Event>): Metrics
    decreases |events|
  {
    if |events| == 0 then m
    else Step(cfg, Replay(cfg, m, events[..|events| - 1]), events[|events| - 1])
  }

  // An independent account of what the histograms should hold after a
  // sequence of events, stated event by event.

  /** The latencies of the acknowledgements among `events`. */
  function AckDurations(events: seq<Event>): seq<Duration>
    decreases |events|
  {
    if |events| == 0 then []
    else
      var e := events[|events| - 1];
      AckDurations(events[..|events| - 1]) + (if e.Acked? then [e.duration] else [])
  }

  /** The latencies of the roundtrips among `events` that are within `sla`. */
  function RoundtripsWithin(events: seq<Event>, sla: Duration): seq<Duration>
    decreases |events|
  {
    if |events| == 0 then []
    else
      var e := events[|events| - 1];
      RoundtripsWithin(events[..|events| - 1], sla)
        + (if e.RoundtripCompleted? && e.duration <= sla then [e.duration] else [])
  }

  /** The latencies of the commit confirmations among `events`. */
  function CommitDurations(events: seq<Event>): seq<Duration>
    decreases |events|
  {
    if |events| == 0 then []
    else
      var e := events[|events| - 1];
      CommitDurations(events[..|events| - 1]) + (if e.CommitConfirmed? then [e.duration] else [])
  }

  /** How many of the durations `ds` are within `sla`. */
  function CountWithin(ds: seq<Duration>, sla: Duration): (c: nat)
    ensures c <= |ds|
    decreases |ds|
  {
    if |ds| == 0 then 0
    else CountWithin(ds[..|ds| - 1], sla) + (if ds[|ds| - 1] <= sla then 1 else 0)
  }

  lemma CountWithinAppend(ds: seq<Duration>, d: Duration, sla: Duration)
    ensures CountWithin(ds + [d], sla) == CountWithin(ds, sla) + (if d <= sla then 1 else 0)
  {
    assert (ds + [d])[..|ds|] == ds;
  }

  /**
   Replaying events adds exactly the acknowledgement latencies, the
   roundtrip latencies within the roundtrip threshold, and every commit
   latency to the histograms; each success counter grows by the number
   of observations that passed its gate; nothing produced is counted.
   */
  lemma {:induction false} ReplayMatchesReference(cfg: Config, m: Metrics, events: seq<Event>)
    ensures var r := Replay(cfg, m, events);
      var rtSla := cfg.endToEnd.consumer.roundtripSla;
      var commitSla := cfg.endToEnd.consumer.commitSla;
      && r.produced == m.produced
      && r.ackLatency == m.ackLatency + AckDurations(events)
      && r.acked == m.acked + |AckDurations(events)|
      && r.roundtripLatency == m.roundtripLatency + RoundtripsWithin(events, rtSla)
      && r.received == m.received + |RoundtripsWithin(events, rtSla)|
      && r.commitLatency == m.commitLatency + CommitDurations(events)
      && r.committed == m.committed + CountWithin(CommitDurations(events), commitSla)
    decreases |events|
  {
    if |events| > 0 {
      var prefix := events[..|events| - 1];
      var e := events[|events| - 1];
      ReplayMatchesReference(cfg, m, prefix);
      if e.CommitConfirmed? {
        CountWithinAppend(CommitDurations(prefix), e.duration, cfg.endToEnd.consumer.commitSla);
      } else {
        assert CommitDurations(events) == CommitDurations(prefix) + [] == CommitDurations(prefix);
      }
    }
  }

  /**
   The relation between counters and histograms that the handlers keep:
   every acknowledgement and every accepted roundtrip is both counted
   and observed, no observed roundtrip exceeds its threshold, and the
   committed counter is the number of observed commits within theirs.
   */
  predicate Consistent(cfg: Config, m: Metrics)
  {
    && m.acked == |m.ackLatency|
    && m.received == |m.roundtripLatency|
    && (forall i :: 0 <= i < |m.roundtripLatency| ==> m.roundtripLatency[i] <= cfg.endToEnd.consumer.roundtripSla)
    && m.committed == CountWithin(m.commitLatency, cfg.endToEnd.consumer.commitSla)
  }

  lemma StepPreservesConsistent(cfg: Config, m: Metrics, e: Event)
    requires Consistent(cfg, m)
    ensures Consistent(cfg, Step(cfg, m, e))
  {
    if e.CommitConfirmed? {
      CountWithinAppend(m.commitLatency, e.duration, cfg.endToEnd.consumer.commitSla);
    }
  }

  /** Starting from the registered metrics, every sequence of events leaves them consistent. */
  lemma {:induction false} ReplayKeepsConsistent(cfg: Config, events: seq<Event>)
    ensures Consistent(cfg, Replay(cfg, NoMetrics, events))
    decreases |events|
  {
    if |events| > 0 {
      ReplayKeepsConsistent(cfg, events[..|events| - 1]);
      StepPreservesConsistent(cfg, Replay(cfg, NoMetrics, events[..|events| - 1]), events[|events| - 1]);
    }
  }
}
