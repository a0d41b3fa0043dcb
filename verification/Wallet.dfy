/** The NIP-47 correlator: concurrent requests, a dispatcher, timeouts and teardown around one pending map. */
module Wallet {
  import opened Bytes
  import opened Filters
  import opened Oneshot

  type PublicKey = Text
  type RequestId = Text

  const KIND_RESPONSE: nat := 23195
  const E_TAG: byte := 0x65

  /** The wallet's key, its decryptor, and the event-id parser. */
  datatype Config = Config(wallet: PublicKey, decrypt: Event -> Option<Text>, parseId: Text -> Option<RequestId>)

  /** What a caller's channel can carry: the wallet's answer, or the news that the dispatcher is gone. */
  datatype Reply = Response(body: Text) | DispatcherDown

  type Pending = map<RequestId, CallId>

  // ----- the pending map -----

  /** `tags.event_ids().next()`: the first `e` tag whose value parses. */
  function FirstEventId(cfg: Config, tags: seq<seq<Text>>): Option<RequestId> {
    if tags == [] then None
    else if TagLetter(tags[0]) == Some(E_TAG) && |tags[0]| > 1 && cfg.parseId(tags[0][1]).Some? then
      cfg.parseId(tags[0][1])
    else FirstEventId(cfg, tags[1..])
  }

  class PendingMap {
    var inner: Pending
    var chans: Chans<Reply>

    constructor ()
      ensures inner == map[] && chans == map[]
    {
      inner, chans := map[], map[];
    }

    /** Register a request; a sender already filed under the id is dropped. */
    method Insert(id: RequestId, c: CallId)
      requires c !in chans
      modifies this
      ensures inner == old(inner)[id := c]
      ensures chans == Inserted(old(inner), old(chans), id, c)
    {
      if id in inner {
        chans := Drop(chans, inner[id]);
      }
      chans := chans[c := Open];
      inner := inner[id := c];
    }

    method Take(id: RequestId) returns (r: Option<CallId>)
      modifies this`inner
      ensures r == if id in old(inner) then Some(old(inner)[id]) else None
      ensures inner == old(inner) - {id}
    {
      r := if id in inner then Some(inner[id]) else None;
      inner := inner - {id};
    }

    method Resolve(id: RequestId, reply: Reply)
      modifies this
      ensures inner == old(inner) - {id}
      ensures chans == if id in old(inner) then Send(old(chans), old(inner)[id], reply) else old(chans)
    {
      var sender := Take(id);
      if sender.Some? {
        chans := Send(chans, sender.value, reply);
      }
    }

    /** `take` with the returned sender dropped on the spot. */
    method Discard(id: RequestId)
      modifies this
      ensures inner == old(inner) - {id}
      ensures chans == if id in old(inner) then Drop(old(chans), old(inner)[id]) else old(chans)
    {
      var sender := Take(id);
      if sender.Some? {
        chans := Drop(chans, sender.value);
      }
    }

    /** The drain loop of `cancel_all`. */
    method CancelAll(reply: Reply)
      modifies this
      ensures inner == map[]
      ensures chans == SendAll(old(chans), old(inner).Values, reply)
    {
      ghost var all := inner.Values;
      ghost var sent: set<CallId> := {};
      SendAllNone(chans, reply);
      while inner != map[]
        invariant inner.Values + sent == all
        invariant chans == SendAll(old(chans), sent, reply)
        decreases |inner|
      {
        var id :| id in inner;
        DrainStep(inner, id);
        SendAllStep(old(chans), sent, inner[id], reply);
        chans := Send(chans, inner[id], reply);
        sent := sent + {inner[id]};
        inner := inner - {id};
      }
    }
  }

  lemma DrainStep(m: Pending, id: RequestId)
    requires id in m
    ensures |m - {id}| < |m| && (m - {id}).Values + {m[id]} == m.Values
  {
    var n := m - {id};
    assert m.Keys == n.Keys + {id};
    forall v | v in m.Values
      ensures v in n.Values + {m[id]}
    {
      var k :| k in m && m[k] == v;
      if k != id {
        assert n[k] == v;
      }
    }
    forall v | v in n.Values
      ensures v in m.Values
    {
      var k :| k in n && n[k] == v;
      assert m[k] == v;
    }
    assert m[id] in m.Values;
  }

  function Inserted(inner: Pending, chans: Chans<Reply>, id: RequestId, c: CallId): Chans<Reply> {
    (if id in inner then Drop(chans, inner[id]) else chans)[c := Open]
  }

  // ----- the whole system -----

  /** How one `dispatch` call ended. */
  datatype Outcome = Replied(reply: Reply) | ChannelClosed | PublishFailed | PoolRefused | TimedOut | Abandoned

  /** Registered, published and waiting, timer fired but not yet cleaned up, or over. */
  datatype Phase = Registered | Waiting | Expired | Finished(outcome: Outcome)

  datatype Call = Call(id: RequestId, phase: Phase)

  datatype Dispatcher = Running | Ended | Aborted

  /** `seen` is what the dispatcher has read so far. */
  datatype State = State(
    pending: Pending, chans: Chans<Reply>, calls: map<CallId, Call>, seen: seq<Event>, dispatcher: Dispatcher)

  const INITIAL := State(map[], map[], map[], [], Running)

  datatype PublishResult = Accepted | TotalFailure | Refused

  /** The atomic steps that callers, the dispatcher, timers and the runtime interleave. */
  datatype Step =
    | Register(c: CallId, id: RequestId)
    | Publish(c: CallId, result: PublishResult)
    | Read(event: Event)
    | Receive(c: CallId)
    | Elapse(c: CallId)
    | CleanUp(c: CallId)
    | Abandon(c: CallId)
    | StreamEnds
    | Abort

  function WithPhase(s: State, c: CallId, p: Phase): State
    requires c in s.calls
  {
    s.(calls := s.calls[c := s.calls[c].(phase := p)])
  }

  /** `pending.take(&id)` with the sender dropped on the spot. */
  function TakeAndDrop(s: State, id: RequestId): State {
    s.(pending := s.pending - {id}, chans := if id in s.pending then Drop(s.chans, s.pending[id]) else s.chans)
  }

  /** The request an event answers, if it is a decryptable response authored by the wallet. */
  function Answers(cfg: Config, e: Event): Option<(RequestId, Text)> {
    if e.pubkey != cfg.wallet || e.kind != KIND_RESPONSE then None
    else
      match (cfg.decrypt(e), FirstEventId(cfg, e.tags))
      case (Some(body), Some(id)) => Some((id, body))
      case _ => None
  }

  predicate InPhase(s: State, c: CallId, p: Phase) { c in s.calls && s.calls[c].phase == p }

  /** A step is possible now. */
  predicate Enabled(s: State, t: Step) {
    match t
    case Register(c, _) => c !in s.calls && c !in s.chans
    case Publish(c, _) => InPhase(s, c, Registered)
    case Read(_) => s.dispatcher.Running?
    case Receive(c) => InPhase(s, c, Waiting) && c in s.chans && !s.chans[c].Open?
    case Elapse(c) => InPhase(s, c, Waiting) && c in s.chans && s.chans[c].Open?
    case CleanUp(c) => InPhase(s, c, Expired)
    case Abandon(c) => c in s.calls && !s.calls[c].phase.Finished?
    case StreamEnds => s.dispatcher.Running?
    case Abort => s.dispatcher.Running?
  }

  function Perform(cfg: Config, s: State, t: Step): State
    requires Enabled(s, t)
  {
    match t
    case Register(c, id) =>
      s.(pending := s.pending[id := c], chans := Inserted(s.pending, s.chans, id, c),
         calls := s.calls[c := Call(id, Registered)])
    case Publish(c, Accepted) => WithPhase(s, c, Waiting)
    case Publish(c, TotalFailure) => TakeAndDrop(WithPhase(s, c, Finished(PublishFailed)), s.calls[c].id)
    case Publish(c, Refused) => WithPhase(s, c, Finished(PoolRefused))
    case Read(e) =>
      var r := s.(seen := s.seen + [e]);
      (match Answers(cfg, e)
       case None => r
       case Some((id, body)) =>
         if id !in s.pending then r
         else r.(pending := s.pending - {id}, chans := Send(s.chans, s.pending[id], Response(body))))
    case Receive(c) =>
      WithPhase(s, c, Finished(if s.chans[c].Sent? then Replied(s.chans[c].reply) else ChannelClosed))
    case Elapse(c) => WithPhase(s, c, Expired)
    case CleanUp(c) => TakeAndDrop(WithPhase(s, c, Finished(TimedOut)), s.calls[c].id)
    case Abandon(c) => WithPhase(s, c, Finished(Abandoned))
    case StreamEnds =>
      s.(dispatcher := Ended, pending := map[], chans := SendAll(s.chans, s.pending.Values, DispatcherDown))
    case Abort => s.(dispatcher := Aborted)
  }

  /** The state an interleaving leads to, if each of its steps is possible in turn. */
  function Run(cfg: Config, steps: seq<Step>): Option<State> {
    if steps == [] then Some(INITIAL)
    else
      match Run(cfg, steps[..|steps| - 1])
      case None => None
      case Some(s) => if Enabled(s, steps[|steps| - 1]) then Some(Perform(cfg, s, steps[|steps| - 1])) else None
  }

  /** Some interleaving leads to `s`. */
  ghost predicate Reachable(cfg: Config, s: State) { exists steps :: Run(cfg, steps) == Some(s) }

  // ----- what every step keeps -----

  /** An event that answers `id` with `body` has been read. */
  ghost predicate Justified(cfg: Config, seen: seq<Event>, id: RequestId, body: Text) {
    exists e :: e in seen && Answers(cfg, e) == Some((id, body))
  }

  /** A channel is open exactly while its sender sits in the map, under its own request's id. */
  ghost predicate Linear(s: State) {
    && s.chans.Keys == s.calls.Keys
    && (forall id :: id in s.pending ==> s.pending[id] in s.calls && s.calls[s.pending[id]].id == id)
    && (forall c :: c in s.calls ==>
          (s.chans[c].Open? <==> s.calls[c].id in s.pending && s.pending[s.calls[c].id] == c))
  }

  /** Every response sent to a call answers that call's own request. */
  ghost predicate Sound(cfg: Config, s: State) {
    forall c :: c in s.calls && c in s.chans && s.chans[c].Sent? && s.chans[c].reply.Response? ==>
      Justified(cfg, s.seen, s.calls[c].id, s.chans[c].reply.body)
  }

  /** A finished call returned what its channel held, or left without looking. */
  ghost predicate Honest(s: State) {
    forall c :: c in s.calls && c in s.chans && s.calls[c].phase.Finished? ==>
      var o := s.calls[c].phase.outcome;
      && (o.Replied? ==> s.chans[c] == Sent(o.reply))
      && (s.chans[c].Open? ==> o.PoolRefused? || o.Abandoned?)
  }

  ghost predicate Inv(cfg: Config, s: State) { Linear(s) && Sound(cfg, s) && Honest(s) }

  lemma LinearPhase(s: State, c: CallId, p: Phase)
    requires Linear(s) && c in s.calls
    ensures Linear(WithPhase(s, c, p))
  {
  }

  lemma LinearRegister(s: State, c: CallId, id: RequestId)
    requires Linear(s) && c !in s.calls
    ensures Linear(s.(pending := s.pending[id := c], chans := Inserted(s.pending, s.chans, id, c),
                      calls := s.calls[c := Call(id, Registered)]))
    ensures Extends(s.chans, Inserted(s.pending, s.chans, id, c))
  {
  }

  lemma LinearTake(s: State, id: RequestId)
    requires Linear(s)
    ensures Linear(TakeAndDrop(s, id)) && Extends(s.chans, TakeAndDrop(s, id).chans)
  {
  }

  lemma LinearFinish(s: State, c: CallId, o: Outcome)
    requires Linear(s) && c in s.calls
    ensures var r := TakeAndDrop(WithPhase(s, c, Finished(o)), s.calls[c].id); Linear(r) && Extends(s.chans, r.chans)
  {
    LinearPhase(s, c, Finished(o));
    LinearTake(WithPhase(s, c, Finished(o)), s.calls[c].id);
  }

  lemma LinearSend(s: State, id: RequestId, reply: Reply)
    requires Linear(s) && id in s.pending
    ensures Linear(s.(pending := s.pending - {id}, chans := Send(s.chans, s.pending[id], reply)))
    ensures Extends(s.chans, Send(s.chans, s.pending[id], reply))
  {
  }

  lemma LinearCancel(s: State, reply: Reply)
    requires Linear(s)
    ensures Linear(s.(pending := map[], chans := SendAll(s.chans, s.pending.Values, reply)))
    ensures Extends(s.chans, SendAll(s.chans, s.pending.Values, reply))
  {
    forall c | c in s.calls && s.chans[c].Open?
      ensures c in s.pending.Values
    {
      assert s.pending[s.calls[c].id] == c;
    }
  }

  /** The sender of every call is a linear resource: in the map while open, never resurrected once spent. */
  lemma LinearStep(cfg: Config, s: State, t: Step)
    requires Linear(s) && Enabled(s, t)
    ensures Linear(Perform(cfg, s, t))
    ensures Extends(s.chans, Perform(cfg, s, t).chans)
  {
    match t
    case Register(c, id) => LinearRegister(s, c, id);
    case Publish(c, Accepted) => LinearPhase(s, c, Waiting);
    case Publish(c, TotalFailure) => LinearFinish(s, c, PublishFailed);
    case Publish(c, Refused) => LinearPhase(s, c, Finished(PoolRefused));
    case Read(e) =>
      if Answers(cfg, e).Some? && Answers(cfg, e).value.0 in s.pending {
        LinearSend(s, Answers(cfg, e).value.0, Response(Answers(cfg, e).value.1));
      }
    case Receive(c) => LinearPhase(s, c, Perform(cfg, s, t).calls[c].phase);
    case Elapse(c) => LinearPhase(s, c, Expired);
    case CleanUp(c) => LinearFinish(s, c, TimedOut);
    case Abandon(c) => LinearPhase(s, c, Finished(Abandoned));
    case StreamEnds => LinearCancel(s, DispatcherDown);
    case Abort =>
  }

  /** The only step that makes a response appear, and what it appears from. */
  lemma NewResponse(cfg: Config, s: State, t: Step, c: CallId)
    requires Linear(s) && Enabled(s, t) && c in Perform(cfg, s, t).chans && Perform(cfg, s, t).chans[c].Sent?
    requires Perform(cfg, s, t).chans[c].reply.Response?
    ensures c in s.calls && Perform(cfg, s, t).calls[c].id == s.calls[c].id
    ensures s.chans[c] == Perform(cfg, s, t).chans[c]
            || (t.Read? && Answers(cfg, t.event) == Some((s.calls[c].id, Perform(cfg, s, t).chans[c].reply.body)))
  {
  }

  lemma SoundStep(cfg: Config, s: State, t: Step)
    requires Linear(s) && Sound(cfg, s) && Enabled(s, t)
    ensures Sound(cfg, Perform(cfg, s, t))
  {
    var r := Perform(cfg, s, t);
    assert forall e :: e in s.seen ==> e in r.seen;
    forall c | c in r.calls && c in r.chans && r.chans[c].Sent? && r.chans[c].reply.Response?
      ensures Justified(cfg, r.seen, r.calls[c].id, r.chans[c].reply.body)
    {
      NewResponse(cfg, s, t, c);
      if s.chans[c] == r.chans[c] {
        assert Justified(cfg, s.seen, s.calls[c].id, s.chans[c].reply.body);
      } else {
        assert t.event in r.seen;
      }
    }
  }

  /** How a call can become finished, and that it then stays so. */
  lemma PhaseStep(cfg: Config, s: State, t: Step, c: CallId)
    requires Enabled(s, t) && c in s.calls
    ensures c in Perform(cfg, s, t).calls && Perform(cfg, s, t).calls[c].id == s.calls[c].id
    ensures s.calls[c].phase.Finished? ==> Perform(cfg, s, t).calls[c].phase == s.calls[c].phase
    ensures !s.calls[c].phase.Finished? && Perform(cfg, s, t).calls[c].phase.Finished? ==>
              t in {Publish(c, TotalFailure), Publish(c, Refused), Receive(c), CleanUp(c), Abandon(c)}
  {
  }

  lemma HonestStep(cfg: Config, s: State, t: Step)
    requires Linear(s) && Honest(s) && Enabled(s, t)
    ensures Honest(Perform(cfg, s, t))
  {
    var r := Perform(cfg, s, t);
    LinearStep(cfg, s, t);
    forall c | c in r.calls && c in r.chans && r.calls[c].phase.Finished?
      ensures r.calls[c].phase.outcome.Replied? ==> r.chans[c] == Sent(r.calls[c].phase.outcome.reply)
      ensures r.chans[c].Open? ==> r.calls[c].phase.outcome.PoolRefused? || r.calls[c].phase.outcome.Abandoned?
    {
      if c in s.calls {
        PhaseStep(cfg, s, t, c);
        HonestCall(cfg, s, t, c);
      }
    }
  }

  lemma HonestCall(cfg: Config, s: State, t: Step, c: CallId)
    requires Linear(s) && Honest(s) && Enabled(s, t) && c in s.calls
    requires Extends(s.chans, Perform(cfg, s, t).chans) && Linear(Perform(cfg, s, t))
    requires Perform(cfg, s, t).calls[c].phase.Finished?
    requires s.calls[c].phase.Finished? ==> Perform(cfg, s, t).calls[c].phase == s.calls[c].phase
    requires !s.calls[c].phase.Finished? ==>
               t in {Publish(c, TotalFailure), Publish(c, Refused), Receive(c), CleanUp(c), Abandon(c)}
    ensures var r := Perform(cfg, s, t);
            var o := r.calls[c].phase.outcome;
            (o.Replied? ==> r.chans[c] == Sent(o.reply)) && (r.chans[c].Open? ==> o.PoolRefused? || o.Abandoned?)
  {
    if s.calls[c].phase.Finished? && !s.chans[c].Open? {
      assert Perform(cfg, s, t).chans[c] == s.chans[c];
    }
  }

  lemma {:induction false} Invariant(cfg: Config, steps: seq<Step>)
    requires Run(cfg, steps).Some?
    ensures Inv(cfg, Run(cfg, steps).value)
    decreases |steps|
  {
    if steps != [] {
      var t := steps[|steps| - 1];
      Invariant(cfg, steps[..|steps| - 1]);
      var before := Run(cfg, steps[..|steps| - 1]).value;
      LinearStep(cfg, before, t);
      SoundStep(cfg, before, t);
      HonestStep(cfg, before, t);
    }
  }

  lemma ReachableInv(cfg: Config, s: State)
    requires Reachable(cfg, s)
    ensures Inv(cfg, s)
  {
    var steps :| Run(cfg, steps) == Some(s);
    Invariant(cfg, steps);
  }

  // ----- the promises -----

  /** `e` is a response event (kind 23195) of the wallet that opens to `body` and whose first readable `e` tag is
      `id`. */
  ghost predicate Carries(cfg: Config, e: Event, id: RequestId, body: Text) {
    && e.pubkey == cfg.wallet && e.kind == 23195 && cfg.decrypt(e) == Some(body)
    && exists k :: FirstReadable(cfg, e.tags, k, id)
  }

  /** The `k`-th tag is the first `e` tag with a readable id, and that id is `id`. */
  ghost predicate FirstReadable(cfg: Config, tags: seq<seq<Text>>, k: int, id: RequestId) {
    && 0 <= k < |tags| && EventTag(cfg, tags[k]) && cfg.parseId(tags[k][1]) == Some(id)
    && forall j :: 0 <= j < k ==> !EventTag(cfg, tags[j])
  }

  predicate EventTag(cfg: Config, tag: seq<Text>) { |tag| >= 2 && tag[0] == [0x65] && cfg.parseId(tag[1]).Some? }

  lemma {:induction false} FirstEventIdIff(cfg: Config, tags: seq<seq<Text>>, id: RequestId)
    ensures FirstEventId(cfg, tags) == Some(id) <==> exists k :: FirstReadable(cfg, tags, k, id)
  {
    if tags != [] {
      assert EventTag(cfg, tags[0])
        <==> TagLetter(tags[0]) == Some(E_TAG) && |tags[0]| > 1 && cfg.parseId(tags[0][1]).Some? by {
        if TagLetter(tags[0]) == Some(E_TAG) {
          assert tags[0][0] == [0x65];
        }
      }
      if EventTag(cfg, tags[0]) {
        assert FirstReadable(cfg, tags, 0, cfg.parseId(tags[0][1]).value);
        if k :| FirstReadable(cfg, tags, k, id) {
          assert k == 0;
        }
      } else {
        FirstEventIdIff(cfg, tags[1..], id);
        ReadableLater(cfg, tags, id);
      }
    }
  }

  lemma ReadableLater(cfg: Config, tags: seq<seq<Text>>, id: RequestId)
    requires tags != [] && !EventTag(cfg, tags[0])
    ensures (exists k :: FirstReadable(cfg, tags, k, id)) <==> exists k :: FirstReadable(cfg, tags[1..], k, id)
  {
    if k :| FirstReadable(cfg, tags, k, id) {
      assert forall j :: 0 <= j < k - 1 ==> tags[1..][j] == tags[j + 1];
      assert FirstReadable(cfg, tags[1..], k - 1, id);
    }
    if k :| FirstReadable(cfg, tags[1..], k, id) {
      assert forall j :: 0 < j <= k ==> tags[j] == tags[1..][j - 1];
      assert FirstReadable(cfg, tags, k + 1, id);
    }
  }

  /** An event answers a request exactly by carrying a body for it. */
  lemma AnswersIff(cfg: Config, e: Event, id: RequestId, body: Text)
    ensures Answers(cfg, e) == Some((id, body)) <==> Carries(cfg, e, id, body)
  {
    FirstEventIdIff(cfg, e.tags, id);
  }

  lemma NewCall(cfg: Config, s: State, t: Step, c: CallId)
    requires Enabled(s, t) && c !in s.calls && c in Perform(cfg, s, t).calls
    ensures t.Register? && t.c == c && Perform(cfg, s, t).calls[c].id == t.id
  {
  }

  /** A call goes back to its registration. */
  lemma {:induction false} RegistrationOf(cfg: Config, steps: seq<Step>, c: CallId) returns (i: nat)
    requires Run(cfg, steps).Some? && c in Run(cfg, steps).value.calls
    ensures i < |steps| && steps[i] == Register(c, Run(cfg, steps).value.calls[c].id)
    decreases |steps|
  {
    i := |steps| - 1;
    var before := Run(cfg, steps[..i]).value;
    if c in before.calls {
      PhaseStep(cfg, before, steps[i], c);
      i := RegistrationOf(cfg, steps[..i], c);
    } else {
      NewCall(cfg, before, steps[i], c);
    }
  }

  /** A response in a channel goes back to a fitting event, read after the call registered. */
  lemma {:induction false} DeliveryOf(cfg: Config, steps: seq<Step>, c: CallId) returns (i: nat, k: nat)
    requires Run(cfg, steps).Some? && c in Run(cfg, steps).value.chans
    requires Run(cfg, steps).value.chans[c].Sent? && Run(cfg, steps).value.chans[c].reply.Response?
    ensures var s := Run(cfg, steps).value;
            && c in s.calls && i < k < |steps| && steps[i] == Register(c, s.calls[c].id) && steps[k].Read?
            && Answers(cfg, steps[k].event) == Some((s.calls[c].id, s.chans[c].reply.body))
    decreases |steps|
  {
    k := |steps| - 1;
    var front, t := steps[..k], steps[k];
    var before := Run(cfg, front).value;
    Invariant(cfg, front);
    NewResponse(cfg, before, t, c);
    if before.chans[c] == Run(cfg, steps).value.chans[c] {
      i, k := DeliveryOf(cfg, front, c);
    } else {
      i := RegistrationOf(cfg, front, c);
    }
  }

  /** Correlation: in every run, a response a caller gets back was carried by a response event of the wallet whose first
      readable `e` tag is that caller's request, read after the request was registered. */
  lemma ResponsesCorrelate(cfg: Config, steps: seq<Step>, c: CallId) returns (i: nat, k: nat)
    requires Run(cfg, steps).Some? && c in Run(cfg, steps).value.calls
    requires var p := Run(cfg, steps).value.calls[c].phase;
             p.Finished? && p.outcome.Replied? && p.outcome.reply.Response?
    ensures var call := Run(cfg, steps).value.calls[c];
            && i < k < |steps| && steps[i] == Register(c, call.id) && steps[k].Read?
            && Carries(cfg, steps[k].event, call.id, call.phase.outcome.reply.body)
  {
    Invariant(cfg, steps);
    i, k := DeliveryOf(cfg, steps, c);
    var call := Run(cfg, steps).value.calls[c];
    AnswersIff(cfg, steps[k].event, call.id, call.phase.outcome.reply.body);
  }

  /** At most one reply: whatever happens later, a channel that was used keeps its reply and a call that is over keeps
      its outcome. */
  lemma RepliesAreFinal(cfg: Config, s: State, t: Step, c: CallId)
    requires Reachable(cfg, s) && Enabled(s, t) && c in s.calls && c in s.chans
    ensures var r := Perform(cfg, s, t);
            && c in r.calls && c in r.chans && r.calls[c].id == s.calls[c].id
            && (s.chans[c].Sent? ==> r.chans[c] == s.chans[c])
            && (s.calls[c].phase.Finished? ==> r.calls[c].phase == s.calls[c].phase)
  {
    ReachableInv(cfg, s);
    LinearStep(cfg, s, t);
    PhaseStep(cfg, s, t, c);
  }

  /** Request ids are not reused, as signed events with fresh timestamps and nonces guarantee. */
  ghost predicate DistinctIds(s: State) {
    forall c, d :: c in s.calls && d in s.calls && s.calls[c].id == s.calls[d].id ==> c == d
  }

  /** The call gave up its own entry: after a timeout, or a publish that failed on every relay. */
  predicate Withdrawn(s: State, c: CallId) {
    c in s.calls && (s.calls[c].phase == Finished(TimedOut) || s.calls[c].phase == Finished(PublishFailed))
  }

  /** The dispatcher's side of an entry's end: an answer to `id`, or the end of the stream. */
  predicate Ends(cfg: Config, id: RequestId, t: Step) {
    t.StreamEnds? || (t.Read? && Answers(cfg, t.event).Some? && Answers(cfg, t.event).value.0 == id)
  }

  ghost predicate NeverEnded(cfg: Config, id: RequestId, steps: seq<Step>) {
    forall k :: 0 <= k < |steps| ==> !Ends(cfg, id, steps[k])
  }

  /** An entry that is gone does not come back. */
  lemma EntryStaysGone(cfg: Config, s: State, t: Step, c: CallId)
    requires Enabled(s, t) && c in s.calls && DistinctIds(Perform(cfg, s, t)) && s.calls[c].id !in s.pending
    ensures s.calls[c].id !in Perform(cfg, s, t).pending
  {
    PhaseStep(cfg, s, t, c);
    if t.Register? {
      var r := Perform(cfg, s, t);
      assert r.calls[t.c].id == t.id && c != t.c;
    }
  }

  /** Another call's publish or clean-up does not touch the entry. */
  lemma EntryOfOther(cfg: Config, s: State, t: Step, c: CallId)
    requires DistinctIds(s) && Enabled(s, t) && c in s.calls && s.calls[c].id in s.pending
    requires (t.Publish? || t.CleanUp?) && t.c != c
    ensures s.calls[c].id in Perform(cfg, s, t).pending
    ensures c in Perform(cfg, s, t).calls && Perform(cfg, s, t).calls[c] == s.calls[c]
  {
    assert s.calls[t.c].id != s.calls[c].id;
  }

  /** An entry leaves the map by its own call's withdrawal, by an answer, or with the stream. */
  lemma EntryLeaves(cfg: Config, s: State, t: Step, c: CallId)
    requires DistinctIds(s) && Enabled(s, t) && c in s.calls && s.calls[c].id in s.pending && !Withdrawn(s, c)
    ensures s.calls[c].id in Perform(cfg, s, t).pending
            <==> !Withdrawn(Perform(cfg, s, t), c) && !Ends(cfg, s.calls[c].id, t)
  {
    if (t.Publish? || t.CleanUp?) && t.c != c {
      EntryOfOther(cfg, s, t, c);
    }
  }

  /** One step's effect on the entry of a registered call. */
  lemma EntryStep(cfg: Config, s: State, t: Step, c: CallId)
    requires Linear(s) && DistinctIds(s) && Enabled(s, t) && c in s.calls && DistinctIds(Perform(cfg, s, t))
    ensures var r := Perform(cfg, s, t);
            var id := s.calls[c].id;
            && c in r.calls && r.calls[c].id == id
            && (Withdrawn(s, c) ==> Withdrawn(r, c))
            && (id !in s.pending ==> id !in r.pending)
            && (id in s.pending && !Withdrawn(s, c) ==> (id in r.pending <==> !Withdrawn(r, c) && !Ends(cfg, id, t)))
  {
    PhaseStep(cfg, s, t, c);
    if s.calls[c].id !in s.pending {
      EntryStaysGone(cfg, s, t, c);
    } else if !Withdrawn(s, c) {
      EntryLeaves(cfg, s, t, c);
    }
  }

  /** In every run, the entry of a registered request is in the map if and only if its call has not withdrawn it and,
      since the registration, no answer to it was read and the stream has not ended. So it is the calls the pool
      refused and the abandoned ones that leave it behind. */
  lemma {:induction false} EntryGoneIff(cfg: Config, steps: seq<Step>, i: nat, c: CallId, id: RequestId)
    requires i < |steps| && steps[i] == Register(c, id) && Run(cfg, steps).Some? && DistinctIds(Run(cfg, steps).value)
    ensures var s := Run(cfg, steps).value;
            && c in s.calls && s.calls[c].id == id
            && (id in s.pending <==> !Withdrawn(s, c) && NeverEnded(cfg, id, steps[i + 1..]))
    decreases |steps|
  {
    var front, t := steps[..|steps| - 1], steps[|steps| - 1];
    Invariant(cfg, front);
    var before := Run(cfg, front).value;
    if i < |front| {
      DistinctBefore(cfg, before, t);
      EntryGoneIff(cfg, front, i, c, id);
      EntryStep(cfg, before, t, c);
      var since := front[i + 1..];
      assert steps[i + 1..] == since + [t];
      assert NeverEnded(cfg, id, since + [t]) <==> NeverEnded(cfg, id, since) && !Ends(cfg, id, t) by {
        assert (since + [t])[|since|] == t;
        assert forall k :: 0 <= k < |since| ==> (since + [t])[k] == since[k];
      }
      if Withdrawn(before, c) {
        assert id !in before.pending;
      }
    }
  }

  lemma DistinctBefore(cfg: Config, s: State, t: Step)
    requires Enabled(s, t) && DistinctIds(Perform(cfg, s, t))
    ensures DistinctIds(s)
  {
    forall d | d in s.calls
      ensures d in Perform(cfg, s, t).calls && Perform(cfg, s, t).calls[d].id == s.calls[d].id
    {
      PhaseStep(cfg, s, t, d);
    }
  }

  /** Among finished calls only those two leave an entry. */
  lemma LeftBehindBy(cfg: Config, s: State, c: CallId)
    requires Reachable(cfg, s) && DistinctIds(s) && c in s.calls && s.calls[c].phase.Finished?
    requires s.calls[c].id in s.pending
    ensures s.calls[c].phase.outcome in {PoolRefused, Abandoned}
  {
    ReachableInv(cfg, s);
  }

  /** Cleaning up after a reply, a total publish failure or a timeout touches no other request. */
  lemma OthersUndisturbed(cfg: Config, s: State, t: Step, c: CallId, id: RequestId)
    requires Linear(s) && Enabled(s, t) && id in s.pending
    requires t == CleanUp(c) || t == Publish(c, TotalFailure) || t.Read?
    requires if t.Read? then Answers(cfg, t.event).None? || Answers(cfg, t.event).value.0 != id else s.calls[c].id != id
    ensures var r := Perform(cfg, s, t);
            && id in r.pending && r.pending[id] == s.pending[id]
            && s.pending[id] in r.chans && r.chans[s.pending[id]].Open?
  {
    LinearStep(cfg, s, t);
  }

  /** The entry of a request the pool refused outright is left behind. */
  lemma RefusedPublishLeaks(cfg: Config, id: RequestId)
    ensures exists s :: Reachable(cfg, s) && id in s.pending
              && 0 in s.calls && s.calls[0].phase == Finished(PoolRefused)
  {
    var one, two := [Register(0, id)], [Register(0, id), Publish(0, Refused)];
    assert one[..0] == [] && two[..1] == one;
    var s1 := Perform(cfg, INITIAL, Register(0, id));
    assert Run(cfg, one) == Some(s1);
    var s2 := Perform(cfg, s1, Publish(0, Refused));
    assert Run(cfg, two) == Some(s2);
    assert Reachable(cfg, s2);
  }
}
