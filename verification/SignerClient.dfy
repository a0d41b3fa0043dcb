/** The NIP-46 client as code: callers, the dispatcher loop with its awaited auth handler, and the timers working on
    one shared map. Every method carries out exactly one step of the protocol. */
module SignerClient {
  import opened Bytes
  import opened Filters
  import opened Oneshot
  import opened Signer
  import opened SignerFacts

  class Client {
    const cfg: Config
    const pending: PendingMap
    var latch: Option<PublicKey>
    var calls: map<CallId, Call>
    var hand: Option<Held>
    var seen: seq<Event>
    var published: seq<Published>
    var dispatcher: Dispatcher

    /** `build`, up to the handshake. */
    constructor (cfg: Config)
      ensures this.cfg == cfg && fresh(pending) && Now() == Initial(cfg.flow)
    {
      this.cfg := cfg;
      pending := new PendingMap();
      latch := if cfg.flow.Bunker? then Some(cfg.flow.key) else None;
      calls, hand, seen, published, dispatcher := map[], None, [], [], Running;
    }

    /** The protocol state this client is in. */
    ghost function Now(): State
      reads this, pending
    {
      State(latch, pending.inner, pending.chans, calls, hand, seen, published, dispatcher)
    }

    method SetPhase(c: CallId, p: Phase)
      requires c in calls
      modifies this`calls
      ensures calls == old(calls)[c := old(calls)[c].(phase := p)]
    {
      calls := calls[c := calls[c].(phase := p)];
    }

    /** `dispatch` up to the signed envelope. */
    method BeginRequest(c: CallId, id: RequestId, rpc: Method)
      requires Enabled(Now(), Begin(c, id, rpc))
      modifies this`calls
      ensures Now() == Perform(cfg, old(Now()), Begin(c, id, rpc))
    {
      if latch.None? {
        calls := calls[c := Call(id, rpc, [], Finished(NoSigner))];
        return;
      }
      calls := calls[c := Call(id, rpc, latch.value, Prepared)];
    }

    method RegisterRequest(c: CallId)
      requires Enabled(Now(), Register(c))
      modifies this`calls, pending
      ensures Now() == Perform(cfg, old(Now()), Register(c))
    {
      pending.Insert(calls[c].id, calls[c].rpc, c);
      SetPhase(c, Registered);
    }

    /** `dispatch` around `send_event_to`: an error returns at once, a total failure cancels the whole map. */
    method PublishRequest(c: CallId, result: PublishResult)
      requires Enabled(Now(), Publish(c, result))
      modifies this`calls, this`published, pending
      ensures Now() == Perform(cfg, old(Now()), Publish(c, result))
    {
      var k := calls[c];
      published := published + [Published(k.id, k.key, k.key)];
      match result
      case Accepted => SetPhase(c, Waiting);
      case TotalFailure =>
        pending.CancelAll(Rejected(k.rpc));
        SetPhase(c, Finished(PublishFailed));
      case Refused => SetPhase(c, Finished(PoolRefused));
    }

    /** The body of the dispatcher loop, up to the point where the auth handler is awaited. */
    method ReadEvent(e: Event)
      requires Enabled(Now(), Read(e))
      modifies this`seen, this`latch, this`hand, pending
      ensures Now() == Perform(cfg, old(Now()), Read(e))
    {
      seen := seen + [e];
      var response := ResponseIn(cfg, e);
      if response.None? {
        return;
      }
      var m := response.value;
      ValidateSecretEcho(e.pubkey, m.result);
      var entry := pending.Take(m.id);
      if entry.Some? {
        DeliverOutcome(m.id, entry.value, Decode(cfg, entry.value.rpc, m.result, m.error));
      } else {
        assert pending.inner == old(pending.inner);
      }
    }

    /** `validate_secret_echo`. */
    method ValidateSecretEcho(author: PublicKey, result: Option<Text>)
      modifies this`latch
      ensures latch == Latched(cfg, old(latch), author, result)
    {
      if latch.Some? || cfg.flow.Bunker? || result.None? {
        return;
      }
      if result.value == cfg.flow.secret {
        latch := Some(author);
      }
    }

    /** `deliver_outcome`. */
    method DeliverOutcome(id: RequestId, entry: Entry, outcome: Decoded)
      modifies this`hand, pending`chans
      ensures outcome.Deliver? ==>
                hand == old(hand) && pending.chans == Send(old(pending.chans), entry.c, outcome.reply)
      ensures outcome.Detour? && cfg.handler ==> hand == Some(Held(id, entry)) && pending.chans == old(pending.chans)
      ensures outcome.Detour? && !cfg.handler ==>
                hand == old(hand) && pending.chans == Send(old(pending.chans), entry.c, Rejected(entry.rpc))
    {
      match outcome
      case Deliver(reply) => pending.Deliver(entry, reply);
      case Detour(_) =>
        if cfg.handler {
          hand := Some(Held(id, entry));
        } else {
          pending.Deliver(entry, Rejected(entry.rpc));
        }
    }

    /** `handle_auth_url`, once the handler is back. */
    method ResumeAfterHandler(ok: bool)
      requires Enabled(Now(), HandlerReturns(ok))
      modifies this`hand, pending
      ensures Now() == Perform(cfg, old(Now()), HandlerReturns(ok))
    {
      var h := hand.value;
      hand := None;
      if ok {
        pending.Reinsert(h.id, h.entry);
      } else {
        pending.Deliver(h.entry, AuthFailed);
      }
    }

    method ReceiveReply(c: CallId)
      requires Enabled(Now(), Receive(c))
      modifies this`calls
      ensures Now() == Perform(cfg, old(Now()), Receive(c))
    {
      var chan := pending.chans[c];
      SetPhase(c, Finished(if chan.Sent? then Replied(chan.reply) else ChannelClosed));
    }

    /** The cleanup of `spawn` after `run` returns. */
    method EndStream()
      requires Enabled(Now(), StreamEnds)
      modifies this`dispatcher, pending
      ensures Now() == Perform(cfg, old(Now()), StreamEnds)
    {
      pending.CancelAll(Down);
      dispatcher := Ended;
    }

    /** Aborting the dispatcher task drops what it holds. */
    method AbortTask()
      requires Enabled(Now(), Abort)
      modifies this`dispatcher, this`hand, pending
      ensures Now() == Perform(cfg, old(Now()), Abort)
    {
      if hand.Some? {
        pending.Release(hand.value.entry);
      }
      dispatcher, hand := Aborted, None;
    }

    /** Any one step. */
    method Execute(t: Step)
      requires Enabled(Now(), t)
      modifies this, pending
      ensures Now() == Perform(cfg, old(Now()), t)
    {
      match t
      case Begin(c, id, rpc) => BeginRequest(c, id, rpc);
      case Register(c) => RegisterRequest(c);
      case Publish(c, result) => PublishRequest(c, result);
      case Read(e) => ReadEvent(e);
      case HandlerReturns(ok) => ResumeAfterHandler(ok);
      case Receive(c) => ReceiveReply(c);
      case Elapse(c) => SetPhase(c, Finished(TimedOut));
      case Abandon(c) => SetPhase(c, Finished(Abandoned));
      case StreamEnds => EndStream();
      case Abort => AbortTask();
    }
  }

  /** Any interleaving, carried out by the code, ends in the state of the run; so what holds of every run holds of the
      client. */
  method ExecuteAll(cfg: Config, steps: seq<Step>) returns (client: Client)
    requires Run(cfg, steps).Some?
    ensures fresh(client) && fresh(client.pending) && client.cfg == cfg
    ensures Run(cfg, steps) == Some(client.Now()) && Inv(cfg, client.Now())
    decreases |steps|
  {
    if steps == [] {
      client := new Client(cfg);
    } else {
      client := ExecuteAll(cfg, steps[..|steps| - 1]);
      client.Execute(steps[|steps| - 1]);
    }
    Invariant(cfg, steps);
  }
}
