/** From the records of a CSV file to the consumers of the broker. */
module Pipeline {
  import opened Framing
  import opened Sequences
  import opened Endpoints
  import opened CsvStream
  import Roles
  import QueueBroker
  import QueueTheorems
  import BroadcastBroker
  import BroadcastTheorems

  /** Connection input of a producer that streamed a file: its role line and what
      StreamCSVMetrics put on the wire, however it ended. */
  function StreamedInput(sent: Bytes): Bytes { Roles.Opening(Roles.PRODUCER, 0, sent) }

  /** Queue mode: in every run, what a consumer receives from such a producer is a
      subsequence of the rows wholly sent, in record order, up to the first one over
      the bound. */
  lemma {:induction false} RowsToQueueConsumers(
      job: Job, events: seq<Event>, used: nat, count: nat, outcome: Outcome, sent: Bytes,
      size: int, steps: seq<QueueBroker.Step>, p: ConnId, c: ConnId)
    requires Accounts(job, events, used, count, outcome, sent) && Readable(Sendable(job, events, used))
    requires var s := QueueBroker.Exec(QueueBroker.Init(size), steps);
             && QueueTheorems.IsConsumer(s, c)
             && p in s.conns && s.conns[p].Producer? && s.conns[p].intake.input == StreamedInput(sent)
    ensures var s := QueueBroker.Exec(QueueBroker.Init(size), steps);
            Subsequence(Bodies(FromOrigin(Received(s.conns[c].outlet), p)), Arriving(Sendable(job, events, used), |sent|))
  {
    SentIsCut(job, events, used, count, outcome, sent);
    QueueTheorems.EndToEnd(size, steps, p, c, 0, Sendable(job, events, used), |sent|);
  }

  /** Broadcast mode: the same. */
  lemma {:induction false} RowsToBroadcastConsumers(
      job: Job, events: seq<Event>, used: nat, count: nat, outcome: Outcome, sent: Bytes,
      steps: seq<BroadcastBroker.Step>, p: ConnId, c: ConnId)
    requires Accounts(job, events, used, count, outcome, sent) && Readable(Sendable(job, events, used))
    requires var s := BroadcastBroker.Exec(BroadcastBroker.Init, steps);
             && BroadcastTheorems.IsRegistered(s, c)
             && p in s.conns && s.conns[p].Producer? && s.conns[p].intake.input == StreamedInput(sent)
    ensures var s := BroadcastBroker.Exec(BroadcastBroker.Init, steps);
            Subsequence(Bodies(FromOrigin(Received(s.conns[c].outlet), p)), Arriving(Sendable(job, events, used), |sent|))
  {
    SentIsCut(job, events, used, count, outcome, sent);
    BroadcastTheorems.EndToEnd(steps, p, c, 0, Sendable(job, events, used), |sent|);
  }
}
