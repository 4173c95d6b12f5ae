/** The intake service's hand-over to the worker
    (UploadService/utils/redisPublisher.js): queue the id, then mark it
    `uploaded`. Which Redis call, if any, rejects is the input `fault`. */
module Intake {
  import opened Store

  const Uploaded := "uploaded"

  /** The first awaited call that rejects, if any. */
  datatype PublishFault = NoFault | ConnectFails | PushFails | StatusWriteFails | QuitFails

  /** The Redis state after `publishBuildStatus(id)` from state `s`: at
      most one push of `id` and at most one write of `status[id]`, the write
      only after the push. */
  function Publish(s: State, id: string, fault: PublishFault): (r: State)
    ensures r.buildQueue == s.buildQueue || r.buildQueue == [id] + s.buildQueue
    ensures r.status == s.status || r.status == s.status[id := Uploaded]
    ensures r.status != s.status ==> r.buildQueue == [id] + s.buildQueue
  {
    match fault
    case ConnectFails => s
    case PushFails => s
    case StatusWriteFails => s.(buildQueue := [id] + s.buildQueue)
    case NoFault => State([id] + s.buildQueue, s.status[id := Uploaded])
    case QuitFails => State([id] + s.buildQueue, s.status[id := Uploaded])
  }

  /** Every fault is caught and logged, so the call itself always completes. */
  method PublishBuildStatus(r: Redis, id: string, fault: PublishFault)
    modifies r
    ensures r.Snapshot() == Publish(old(r.Snapshot()), id, fault)
  {
    if fault == ConnectFails {
      return;
    }
    if fault == PushFails {
      return;
    }
    r.LPush(id);
    if fault == StatusWriteFails {
      return;
    }
    r.HSet(id, Uploaded);
  }

  predicate Pushes(fault: PublishFault) {
    fault == NoFault || fault == StatusWriteFails || fault == QuitFails
  }

  /** A publish that gets past the push adds exactly one entry, as the
      newest, even when the id is already waiting; the waiting entries keep
      their order. Otherwise the queue is untouched. */
  lemma PublishQueuesNewest(s: State, id: string, fault: PublishFault)
    ensures Pushes(fault) ==> Pending(Publish(s, id, fault)) == Pending(s) + [id]
    ensures Pushes(fault) ==> |Publish(s, id, fault).buildQueue| == |s.buildQueue| + 1
    ensures !Pushes(fault) ==> Publish(s, id, fault).buildQueue == s.buildQueue
  {
    ReversePrepend(id, s.buildQueue);
  }

  /** Only `status[id]` is written, only with `uploaded`, and only after
      the push has happened. */
  lemma PublishStatus(s: State, id: string, fault: PublishFault)
    ensures var t := Publish(s, id, fault);
      forall k :: k != id ==> (k in t.status <==> k in s.status) && (k in s.status ==> t.status[k] == s.status[k])
    ensures var t := Publish(s, id, fault);
      t.status != s.status ==> t.status == s.status[id := Uploaded] && t.buildQueue == [id] + s.buildQueue
    ensures var t := Publish(s, id, fault);
      Pushes(fault) && fault != StatusWriteFails ==> t.status == s.status[id := Uploaded]
  {
  }
}
