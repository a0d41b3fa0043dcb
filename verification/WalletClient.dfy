/** The NIP-47 client as code: callers, the dispatcher loop and the timers working on one shared map. Every method
    carries out exactly one step of the protocol. */
module WalletClient {
  import opened Bytes
  import opened Filters
  import opened Oneshot
  import opened Wallet

  class Client {
    const cfg: Config
    const pending: PendingMap
    var calls: map<CallId, Call>
    var seen: seq<Event>
    var dispatcher: Dispatcher

    constructor (cfg: Config)
      ensures this.cfg == cfg && fresh(pending) && Now() == INITIAL
    {
      this.cfg := cfg;
      pending := new PendingMap();
      calls, seen, dispatcher := map[], [], Running;
    }

    /** The protocol state this client is in. */
    ghost function Now(): State
      reads this, pending
    {
      State(pending.inner, pending.chans, calls, seen, dispatcher)
    }

    method Finish(c: CallId, outcome: Outcome)
      requires c in calls
      modifies this`calls
      ensures calls == old(calls)[c := old(calls)[c].(phase := Finished(outcome))]
    {
      calls := calls[c := calls[c].(phase := Finished(outcome))];
    }

    /** `dispatch` up to the registration. */
    method RegisterRequest(c: CallId, id: RequestId)
      requires Enabled(Now(), Register(c, id))
      modifies this`calls, pending
      ensures Now() == Perform(cfg, old(Now()), Register(c, id))
    {
      pending.Insert(id, c);
      calls := calls[c := Call(id, Registered)];
    }

    /** `dispatch` around `send_event_to`: an error returns at once, a total failure drops the slot. */
    method PublishRequest(c: CallId, result: PublishResult)
      requires Enabled(Now(), Publish(c, result))
      modifies this`calls, pending
      ensures Now() == Perform(cfg, old(Now()), Publish(c, result))
    {
      match result
      case Accepted => calls := calls[c := calls[c].(phase := Waiting)];
      case TotalFailure =>
        pending.Discard(calls[c].id);
        Finish(c, PublishFailed);
      case Refused => Finish(c, PoolRefused);
    }

    /** The body of the dispatcher loop. */
    method ReadEvent(e: Event)
      requires Enabled(Now(), Read(e))
      modifies this`seen, pending
      ensures Now() == Perform(cfg, old(Now()), Read(e))
    {
      seen := seen + [e];
      if e.pubkey != cfg.wallet || e.kind != KIND_RESPONSE {
        return;
      }
      var body := cfg.decrypt(e);
      if body.None? {
        return;
      }
      var id := FirstEventId(cfg, e.tags);
      if id.None? {
        return;
      }
      pending.Resolve(id.value, Response(body.value));
    }

    /** The wait of `dispatch` when the channel fires. */
    method ReceiveReply(c: CallId)
      requires Enabled(Now(), Receive(c))
      modifies this`calls
      ensures Now() == Perform(cfg, old(Now()), Receive(c))
    {
      var chan := pending.chans[c];
      Finish(c, if chan.Sent? then Replied(chan.reply) else ChannelClosed);
    }

    /** The timer fires, and then the slot is taken out: another step may come in between. */
    method TimeOut(c: CallId)
      requires Enabled(Now(), Elapse(c))
      modifies this`calls
      ensures Now() == Perform(cfg, old(Now()), Elapse(c))
    {
      calls := calls[c := calls[c].(phase := Expired)];
    }

    method CleanUpRequest(c: CallId)
      requires Enabled(Now(), CleanUp(c))
      modifies this`calls, pending
      ensures Now() == Perform(cfg, old(Now()), CleanUp(c))
    {
      pending.Discard(calls[c].id);
      Finish(c, TimedOut);
    }

    /** The cleanup of `spawn` after `run` returns. */
    method EndStream()
      requires Enabled(Now(), StreamEnds)
      modifies this`dispatcher, pending
      ensures Now() == Perform(cfg, old(Now()), StreamEnds)
    {
      pending.CancelAll(DispatcherDown);
      dispatcher := Ended;
    }

    /** Any one step. */
    method Execute(t: Step)
      requires Enabled(Now(), t)
      modifies this, pending
      ensures Now() == Perform(cfg, old(Now()), t)
    {
      match t
      case Register(c, id) => RegisterRequest(c, id);
      case Publish(c, result) => PublishRequest(c, result);
      case Read(e) => ReadEvent(e);
      case Receive(c) => ReceiveReply(c);
      case Elapse(c) => TimeOut(c);
      case CleanUp(c) => CleanUpRequest(c);
      case Abandon(c) => Finish(c, Abandoned);
      case StreamEnds => EndStream();
      case Abort => dispatcher := Aborted;
    }
  }

  /** Any interleaving, carried out by the code, ends in the state of the run; so what holds of every run holds of the
      client. */
  method ExecuteAll(cfg: Config, steps: seq<Step>) returns (client: Client)
    requires Run(cfg, steps).Some?
    ensures fresh(client) && fresh(client.pending) && client.cfg == cfg
    ensures Run(cfg, steps) == Some(client.Now()) && Inv(cfg, client.Now())
    decreases |steps|
  {
    if steps == [] {
      client := new Client(cfg);
    } else {
      client := ExecuteAll(cfg, steps[..|steps| - 1]);
      client.Execute(steps[|steps| - 1]);
    }
    Invariant(cfg, steps);
  }
}
