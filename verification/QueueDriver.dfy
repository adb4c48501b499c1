/** The mutable queue takes exactly the steps that the run theorems speak of. */
module QueueDriver {
  import opened QueueModel
  import opened QueueRuns
  import opened SyncQueues

  method Perform(queue: SyncQueue, step: Step)
    requires queue.Valid()
    modifies queue
    ensures queue.Tables() == Next(queue.rules, old(queue.Tables()), step)
    ensures queue.Valid()
  {
    NextValid(queue.rules, queue.Tables(), step);
    match step {
      case Enqueued(source, path, kind, oldPath, now) => var _ := queue.Enqueue(source, path, kind, oldPath, now);
      case Scanned(source, path, now) => var _ := queue.EnqueueScan(source, path, now);
      case Delayed(entry, now, milliseconds, stableCount) => var _ := queue.Delay(entry, now, milliseconds, stableCount);
      case Remembered(entry, fingerprint) => var _ := queue.RememberFingerprint(entry, fingerprint);
      case Reset(source, now) => queue.ResetForNewEpoch(source, now);
      case Frozen(source, epoch, sequence, requestId, payload, entries) =>
        var _ := queue.Freeze(source, epoch, sequence, requestId, payload, entries);
      case Acknowledged(source, requestId, outcomes, now) => var _ := queue.Acknowledge(source, requestId, outcomes, now);
      case Retried(source, requestId, now, permanent) => var _ := queue.Retry(source, requestId, now, permanent);
      case ScopeEnqueued(source, path, oldPath, kind) => var _ := queue.EnqueueScope(source, path, oldPath, kind);
      case ScopeCompleted(source, path, generation) => queue.CompleteScope(source, path, generation);
    }
  }
}
