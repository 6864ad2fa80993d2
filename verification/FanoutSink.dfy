/** The sink that tailers write to: the queue, then the live subscribers. */
module FanoutSink {
  import opened Text
  import opened Ingest
  import opened Cursor
  import opened Shards
  import FanOut
  import QueueSteps
  import Q = BatchQueue
  import B = Broadcaster

  class FanoutSink {
    const queue: Q.BatchQueue
    const broadcaster: B.Broadcaster

    constructor (queue: Q.BatchQueue, broadcaster: B.Broadcaster)
      ensures this.queue == queue && this.broadcaster == broadcaster
    {
      this.queue, this.broadcaster := queue, broadcaster;
    }

    /** Every line is offered to the queue once, and reaches every subscriber whether or not the
        queue has room for it. */
    method Enqueue(l: LogLine, now: int64) returns (accepted: bool)
      requires queue.Valid() && broadcaster.Valid()
      modifies queue`channel, queue`trace, queue`dropped, queue`lastWarnedAt, broadcaster.subs
      ensures queue.Valid() && broadcaster.Valid()
      ensures queue.trace == old(queue.trace) + [QueueSteps.Offer(l)]
      ensures accepted <==> |old(queue.channel)| < 4 * queue.size
      ensures forall ch :: ch in broadcaster.subs ==> ch.buf == Latest(old(ch.buf) + [l], FanOut.BUFFER)
    {
      var warning;
      accepted, warning := queue.Enqueue(l, now);
      broadcaster.Publish(l);
    }
  }
}
