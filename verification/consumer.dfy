/**
  One consumer of the purge phase: it turns every message it took from the
  channel into a delete entry, cuts the entries into batches of at most
  MaxMessage, and sends the batches one DeleteMessageBatch call at a time.
  The queue service is replaced by the set of call numbers (0, 1, ... in
  the order this consumer makes its calls) that fail; a failing call ends
  the process, so no call follows it.
 */
module Consumer {
  import opened Queue
  import opened Batching

  /** `Purged`: every batch was deleted. `DeleteFailed`: the last call made
      returned an error, which ends the process. */
  datatype ConsumerStatus = Purged | DeleteFailed

  /** The entries a consumer built, the batches it sent (in call order,
      including a failing one), and how it ended. */
  datatype ConsumerRun = ConsumerRun(deleteBatch: seq<DeleteEntry>, calls: seq<seq<DeleteEntry>>, status: ConsumerStatus)

  /** What a consumer run against the failing calls `failing` must look like
      once it has taken `received` from the channel: one entry per message,
      the calls are the leading chunks of the entries, every call but the
      last succeeded, the last failed exactly when the run failed, and a run
      that did not fail sent every chunk. */
  ghost predicate IsConsumerRun(received: seq<Message>, failing: set<nat>, run: ConsumerRun) {
    && run.deleteBatch == EntriesFor(received)
    && run.calls <= Chunks(run.deleteBatch, MaxMessage)
    && (forall k :: 0 <= k < |run.calls| - 1 ==> k !in failing)
    && (run.status == DeleteFailed <==> 0 < |run.calls| && |run.calls| - 1 in failing)
    && (run.status == Purged ==> run.calls == Chunks(run.deleteBatch, MaxMessage))
    && (run.status == Purged ==> |run.calls| == CeilDiv(|received|, MaxMessage))
  }

  /** The first half of a consumer: one delete entry per message taken from
      the channel, in the order received. */
  method CollectEntries(received: seq<Message>) returns (deleteBatch: seq<DeleteEntry>)
    ensures |deleteBatch| == |received|
    ensures forall i :: 0 <= i < |received| ==>
              && deleteBatch[i].id == received[i].messageId
              && deleteBatch[i].receiptHandle == received[i].receiptHandle
  {
    deleteBatch := [];
    var i := 0;
    while i < |received|
      invariant 0 <= i <= |received|
      invariant |deleteBatch| == i
      invariant forall j :: 0 <= j < i ==> deleteBatch[j] == EntryFor(received[j])
    {
      deleteBatch := deleteBatch + [DeleteEntry(received[i].messageId, received[i].receiptHandle)];
      i := i + 1;
    }
  }

  /** The inner loop of the chunking: copies entries from `idx` on into a
      batch until it holds MaxMessage entries or the list is exhausted. */
  method TakeBatch(deleteBatch: seq<DeleteEntry>, idx: nat) returns (batch: seq<DeleteEntry>, next: nat)
    requires idx <= |deleteBatch|
    ensures next == idx + Min(MaxMessage, |deleteBatch| - idx)
    ensures batch == deleteBatch[idx..next]
  {
    batch := [];
    next := idx;
    var cnt := 0;
    while cnt < MaxMessage && next < |deleteBatch|
      invariant idx <= next <= |deleteBatch|
      invariant cnt == next - idx <= MaxMessage
      invariant batch == deleteBatch[idx..next]
    {
      assert deleteBatch[idx..next + 1] == deleteBatch[idx..next] + [deleteBatch[next]];
      batch := batch + [deleteBatch[next]];
      cnt, next := cnt + 1, next + 1;
    }
    assert cnt == MaxMessage || next == |deleteBatch|;
  }

  /** The second half of a consumer: the outer index loop that cuts the
      entries into batches of at most MaxMessage and sends each batch in one
      call, stopping at the first call that fails. */
  method SendBatches(deleteBatch: seq<DeleteEntry>, failing: set<nat>)
    returns (calls: seq<seq<DeleteEntry>>, status: ConsumerStatus)
    ensures calls <= Chunks(deleteBatch, MaxMessage)
    ensures forall k :: 0 <= k < |calls| - 1 ==> k !in failing
    ensures status == DeleteFailed <==> 0 < |calls| && |calls| - 1 in failing
    ensures status == Purged ==> calls == Chunks(deleteBatch, MaxMessage)
  {
    calls := [];
    ghost var all := Chunks(deleteBatch, MaxMessage);
    var idx := 0;
    assert deleteBatch[idx..] == deleteBatch;
    while idx < |deleteBatch|
      invariant 0 <= idx <= |deleteBatch|
      invariant all == calls + Chunks(deleteBatch[idx..], MaxMessage)
      invariant forall k :: 0 <= k < |calls| ==> k !in failing
      decreases |deleteBatch| - idx
    {
      var start := idx;
      var batch;
      batch, idx := TakeBatch(deleteBatch, idx);
      ChunksAdvance(deleteBatch, start, MaxMessage, calls, all);
      calls := calls + [batch];
      if |calls| - 1 in failing {
        status := DeleteFailed;
        assert calls <= all by {
          assert all == calls + Chunks(deleteBatch[idx..], MaxMessage);
        }
        return;
      }
    }
    assert calls == all by {
      assert deleteBatch[idx..] == [];
    }
    status := Purged;
  }

  /** A consumer after the channel has closed: entries, then batches. */
  method PurgeConsumer(received: seq<Message>, failing: set<nat>) returns (run: ConsumerRun)
    // one entry per received message, in receipt order, carrying its id and receipt handle
    ensures |run.deleteBatch| == |received|
    ensures forall i :: 0 <= i < |received| ==>
              && run.deleteBatch[i].id == received[i].messageId
              && run.deleteBatch[i].receiptHandle == received[i].receiptHandle
    ensures run.deleteBatch == EntriesFor(received)
    // the calls are the leading chunks of the entry list, in order
    ensures run.calls <= Chunks(run.deleteBatch, MaxMessage)
    ensures forall k :: 0 <= k < |run.calls| ==> 0 < |run.calls[k]| <= MaxMessage
    ensures forall k :: 0 <= k < |run.calls| - 1 ==> |run.calls[k]| == MaxMessage
    // every call but possibly the last succeeded; the last failed exactly when the run failed
    ensures forall k :: 0 <= k < |run.calls| - 1 ==> k !in failing
    ensures run.status == DeleteFailed <==> 0 < |run.calls| && |run.calls| - 1 in failing
    // a run that did not fail sent every entry exactly once, in ceil(|received| / MaxMessage) calls
    ensures run.status == Purged ==>
              && Flatten(run.calls) == run.deleteBatch
              && |run.calls| == CeilDiv(|received|, MaxMessage)
    ensures IsConsumerRun(received, failing, run)
  {
    var deleteBatch := CollectEntries(received);
    var calls, status := SendBatches(deleteBatch, failing);
    ChunkSizes(deleteBatch, MaxMessage);
    ChunksFlatten(deleteBatch, MaxMessage);
    ChunkCount(deleteBatch, MaxMessage);
    run := ConsumerRun(deleteBatch, calls, status);
    assert forall k :: 0 <= k < |calls| ==> calls[k] == Chunks(deleteBatch, MaxMessage)[k];
  }
}
