/** The StreamingPull handler's select loop, one method per case, over a shared backend. */
module StreamingPull {
  import opened Prelude
  import opened Messages
  import opened Broker
  import opened Delivery

  class StreamLoop {
    const backend: MergeBackend
    var subscription: Bytes
    var open: bool
    var sent: seq<Received>

    /** This loop, seen in a world of broker and streams. */
    ghost predicate At(w: World, id: nat)
      reads this, backend
    {
      backend.Valid() && backend.Value() == w.b && open && id in w.streams && w.streams[id] == subscription
    }

    constructor (backend: MergeBackend)
      ensures this.backend == backend && subscription == [] && open && sent == []
    {
      this.backend := backend;
      subscription, open, sent := [], true, [];
    }

    /** A decoded request arrived. */
    method OnRequest(request: AckRequest, ghost w: World, ghost id: nat)
      requires At(w, id)
      modifies this, backend
      ensures At(AfterRequest(w, id, request), id) && sent == old(sent)
    {
      if request.subscription != [] {
        subscription := request.subscription;
      }
      if |request.ackIds| > 0 && subscription != [] {
        var ok := backend.Acknowledge(subscription, request.ackIds);
      }
    }

    /** The client closed its side, or the context ended. */
    method OnRecvError()
      modifies this
      ensures !open && sent == old(sent) && subscription == old(subscription)
    {
      open := false;
    }

    /** The ticker fired; `sendOk` says whether SendMsg succeeds if it is called. */
    method OnTick(sendOk: bool, ghost w: World, ghost id: nat)
      requires At(w, id)
      modifies this, backend
      ensures var v := AfterTick(w, id, sendOk);
              && backend.Valid() && backend.Value() == v.b && subscription == old(subscription)
              && open == (id in v.streams) && (open ==> At(v, id))
      ensures sent == old(sent) + if sendOk && old(subscription) != [] then WithAckIds(PullResult(w.b, old(subscription))) else []
    {
      if subscription == [] {
        return;
      }
      var msgs, ok := backend.Pull(subscription);
      if !ok || |msgs| == 0 {
        return;
      }
      if !sendOk {
        open := false;
        return;
      }
      sent := sent + msgs;
    }
  }
}
