/** The NIP-46 correlator: the pending map, the dispatcher that may hold an entry across an `auth_url` detour, and
    the write-once key of the remote signer. */
module Signer {
  import opened Bytes
  import opened Filters
  import opened Oneshot

  type PublicKey = Text
  type RequestId = Text
  type Method = nat

  const KIND: nat := 24133

  /** `nip46::Message`. */
  datatype Message = Request(id: RequestId) | Response(id: RequestId, result: Option<Text>, error: Option<Text>)

  /** `ResponseResult`, with the one sentinel the dispatcher looks at. */
  datatype Value = AuthUrl | Plain(body: Text)

  /** `bunker://` names the signer; `nostrconnect://` waits for an echo of its secret. */
  datatype Flow = Bunker(key: PublicKey) | Client(secret: Text)

  /** Decryption and envelope parsing, result parsing, URL parsing, and whether an auth handler is installed. */
  datatype Config = Config(
    flow: Flow, open: Event -> Option<Message>, fromWire: (Method, Text) -> Option<Value>, isUrl: Text -> bool,
    handler: bool)

  datatype Reply = Ok(value: Value) | Malformed | Rejected(rpc: Method) | AuthFailed | Down | Collision

  // ----- decoding one response -----

  datatype Decoded = Deliver(reply: Reply) | Detour(url: Text)

  /** `decode_response`. */
  function Decode(cfg: Config, rpc: Method, result: Option<Text>, error: Option<Text>): Decoded {
    if result.Some? && cfg.fromWire(rpc, result.value).None? then Deliver(Malformed)
    else if result.Some? && cfg.fromWire(rpc, result.value).value == AuthUrl then
      if error.Some? && cfg.isUrl(error.value) then Detour(error.value) else Deliver(Rejected(rpc))
    else if error.Some? then Deliver(Rejected(rpc))
    else if result.None? then Deliver(Rejected(rpc))
    else Deliver(Ok(cfg.fromWire(rpc, result.value).value))
  }

  /** Success is delivered exactly for a result that parses against the method, is not `auth_url`, and carries no
      error; a detour exactly for `auth_url` with a readable URL in the error slot. */
  lemma DecodeIff(cfg: Config, rpc: Method, result: Option<Text>, error: Option<Text>, v: Value, url: Text)
    ensures Decode(cfg, rpc, result, error) == Deliver(Ok(v))
            <==> result.Some? && cfg.fromWire(rpc, result.value) == Some(v) && v != AuthUrl && error.None?
    ensures Decode(cfg, rpc, result, error) == Detour(url)
            <==> && result.Some? && cfg.fromWire(rpc, result.value) == Some(AuthUrl)
                 && error == Some(url) && cfg.isUrl(url)
  {
  }

  // ----- the pending map -----

  datatype Entry = Entry(rpc: Method, c: CallId)

  type Pending = map<RequestId, Entry>

  function Senders(p: Pending): set<CallId> { set id | id in p :: p[id].c }

  function Inserted(p: Pending, chans: Chans<Reply>, id: RequestId, c: CallId): Chans<Reply> {
    (if id in p then Send(chans, p[id].c, Collision) else chans)[c := Open]
  }

  class PendingMap {
    var inner: Pending
    var chans: Chans<Reply>

    constructor ()
      ensures inner == map[] && chans == map[]
    {
      inner, chans := map[], map[];
    }

    /** Register a request; an earlier waiter under the same id is told about the collision. */
    method Insert(id: RequestId, rpc: Method, c: CallId)
      requires c !in chans
      modifies this
      ensures inner == old(inner)[id := Entry(rpc, c)]
      ensures chans == Inserted(old(inner), old(chans), id, c)
    {
      var prev := if id in inner then Some(inner[id]) else None;
      if prev.Some? {
        chans := Send(chans, prev.value.c, Collision);
      }
      chans := chans[c := Open];
      inner := inner[id := Entry(rpc, c)];
    }

    method Take(id: RequestId) returns (r: Option<Entry>)
      modifies this`inner
      ensures r == if id in old(inner) then Some(old(inner)[id]) else None
      ensures inner == old(inner) - {id}
    {
      r := if id in inner then Some(inner[id]) else None;
      inner := inner - {id};
    }

    /** Park a taken entry again; whatever stood there meanwhile is dropped. */
    method Reinsert(id: RequestId, entry: Entry)
      modifies this
      ensures inner == old(inner)[id := entry]
      ensures chans == if id in old(inner) then Drop(old(chans), old(inner)[id].c) else old(chans)
    {
      if id in inner {
        chans := Drop(chans, inner[id].c);
      }
      inner := inner[id := entry];
    }

    /** Use the sender of a taken entry. */
    method Deliver(entry: Entry, reply: Reply)
      modifies this`chans
      ensures chans == Send(old(chans), entry.c, reply)
    {
      chans := Send(chans, entry.c, reply);
    }

    /** Drop a taken entry. */
    method Release(entry: Entry)
      modifies this`chans
      ensures chans == Drop(old(chans), entry.c)
    {
      chans := Drop(chans, entry.c);
    }

    /** The drain loop of `cancel_all`. */
    method CancelAll(reply: Reply)
      modifies this
      ensures inner == map[]
      ensures chans == SendAll(old(chans), Senders(old(inner)), reply)
    {
      ghost var sent: set<CallId> := {};
      SendAllNone(chans, reply);
      while inner != map[]
        invariant Senders(inner) + sent == Senders(old(inner))
        invariant chans == SendAll(old(chans), sent, reply)
        decreases |inner|
      {
        var id :| id in inner;
        DrainStep(inner, id);
        SendAllStep(old(chans), sent, inner[id].c, reply);
        chans := Send(chans, inner[id].c, reply);
        sent := sent + {inner[id].c};
        inner := inner - {id};
      }
    }
  }

  lemma DrainStep(p: Pending, id: RequestId)
    requires id in p
    ensures |p - {id}| < |p| && Senders(p - {id}) + {p[id].c} == Senders(p)
  {
    assert p.Keys == (p - {id}).Keys + {id};
  }

  // ----- the whole system -----

  datatype Outcome =
    | Replied(reply: Reply) | NoSigner | ChannelClosed | PublishFailed | PoolRefused | TimedOut | Abandoned

  datatype Phase = Prepared | Registered | Waiting | Finished(outcome: Outcome)

  /** A `dispatch` call; `key` is the signer key its envelope is encrypted to. */
  datatype Call = Call(id: RequestId, rpc: Method, key: PublicKey, phase: Phase)

  datatype Dispatcher = Running | Ended | Aborted

  /** A request as handed to the pool. */
  datatype Published = Published(id: RequestId, encryptedTo: PublicKey, pTag: PublicKey)

  datatype Held = Held(id: RequestId, entry: Entry)

  datatype State = State(
    latch: Option<PublicKey>, pending: Pending, chans: Chans<Reply>, calls: map<CallId, Call>, hand: Option<Held>,
    seen: seq<Event>, published: seq<Published>, dispatcher: Dispatcher)

  /** `build` seeds the latch from a `bunker://` URI only. */
  function Initial(flow: Flow): State {
    State(if flow.Bunker? then Some(flow.key) else None, map[], map[], map[], None, [], [], Running)
  }

  datatype PublishResult = Accepted | TotalFailure | Refused

  datatype Step =
    | Begin(c: CallId, id: RequestId, rpc: Method)
    | Register(c: CallId)
    | Publish(c: CallId, result: PublishResult)
    | Read(event: Event)
    | HandlerReturns(ok: bool)
    | Receive(c: CallId)
    | Elapse(c: CallId)
    | Abandon(c: CallId)
    | StreamEnds
    | Abort

  predicate InPhase(s: State, c: CallId, p: Phase) { c in s.calls && s.calls[c].phase == p }

  function WithPhase(s: State, c: CallId, p: Phase): State
    requires c in s.calls
  {
    s.(calls := s.calls[c := s.calls[c].(phase := p)])
  }

  /** The response an event carries, if it is of the right kind and opens. */
  function ResponseIn(cfg: Config, e: Event): Option<Message> {
    if e.kind == KIND && cfg.open(e).Some? && cfg.open(e).value.Response? then cfg.open(e) else None
  }

  /** `validate_secret_echo`. */
  function Latched(cfg: Config, latch: Option<PublicKey>, author: PublicKey, result: Option<Text>): Option<PublicKey> {
    if latch.Some? || cfg.flow.Bunker? || result != Some(cfg.flow.secret) then latch else Some(author)
  }

  predicate Enabled(s: State, t: Step) {
    match t
    case Begin(c, _, _) => c !in s.calls && c !in s.chans
    case Register(c) => InPhase(s, c, Prepared) && c !in s.chans
    case Publish(c, _) => InPhase(s, c, Registered)
    case Read(_) => s.dispatcher.Running? && s.hand.None?
    case HandlerReturns(_) => s.dispatcher.Running? && s.hand.Some?
    case Receive(c) => InPhase(s, c, Waiting) && c in s.chans && !s.chans[c].Open?
    case Elapse(c) => InPhase(s, c, Waiting) && c in s.chans && s.chans[c].Open?
    case Abandon(c) => c in s.calls && !s.calls[c].phase.Finished?
    case StreamEnds => s.dispatcher.Running? && s.hand.None?
    case Abort => s.dispatcher.Running?
  }

  /** `cancel_all`. */
  function CancelEveryone(s: State, reply: Reply): State {
    s.(pending := map[], chans := SendAll(s.chans, Senders(s.pending), reply))
  }

  /** Taking the entry of `m.id` and delivering, or going on the detour with the entry in hand. */
  function Dispatch(cfg: Config, s: State, m: Message): State
    requires m.Response?
  {
    if m.id !in s.pending then s
    else
      var entry := s.pending[m.id];
      var taken := s.(pending := s.pending - {m.id});
      match Decode(cfg, entry.rpc, m.result, m.error)
      case Deliver(reply) => taken.(chans := Send(s.chans, entry.c, reply))
      case Detour(_) =>
        if cfg.handler then taken.(hand := Some(Held(m.id, entry)))
        else taken.(chans := Send(s.chans, entry.c, Rejected(entry.rpc)))
  }

  function Perform(cfg: Config, s: State, t: Step): State
    requires Enabled(s, t)
  {
    match t
    case Begin(c, id, m) =>
      s.(calls := s.calls[c := if s.latch.None? then Call(id, m, [], Finished(NoSigner))
                               else Call(id, m, s.latch.value, Prepared)])
    case Register(c) =>
      var k := s.calls[c];
      WithPhase(s.(pending := s.pending[k.id := Entry(k.rpc, c)], chans := Inserted(s.pending, s.chans, k.id, c)),
                c, Registered)
    case Publish(c, result) =>
      var k := s.calls[c];
      var out := s.(published := s.published + [Published(k.id, k.key, k.key)]);
      (match result
       case Accepted => WithPhase(out, c, Waiting)
       case TotalFailure => CancelEveryone(WithPhase(out, c, Finished(PublishFailed)), Rejected(k.rpc))
       case Refused => WithPhase(out, c, Finished(PoolRefused)))
    case Read(e) =>
      var r := s.(seen := s.seen + [e]);
      (match ResponseIn(cfg, e)
       case None => r
       case Some(m) => Dispatch(cfg, r.(latch := Latched(cfg, s.latch, e.pubkey, m.result)), m))
    case HandlerReturns(ok) =>
      var h := s.hand.value;
      var r := s.(hand := None);
      if ok then
        r.(pending := s.pending[h.id := h.entry],
           chans := if h.id in s.pending then Drop(s.chans, s.pending[h.id].c) else s.chans)
      else r.(chans := Send(s.chans, h.entry.c, AuthFailed))
    case Receive(c) =>
      WithPhase(s, c, Finished(if s.chans[c].Sent? then Replied(s.chans[c].reply) else ChannelClosed))
    case Elapse(c) => WithPhase(s, c, Finished(TimedOut))
    case Abandon(c) => WithPhase(s, c, Finished(Abandoned))
    case StreamEnds => CancelEveryone(s.(dispatcher := Ended), Down)
    case Abort =>
      s.(dispatcher := Aborted, hand := None,
         chans := if s.hand.Some? then Drop(s.chans, s.hand.value.entry.c) else s.chans)
  }

  function Run(cfg: Config, steps: seq<Step>): Option<State> {
    if steps == [] then Some(Initial(cfg.flow))
    else
      match Run(cfg, steps[..|steps| - 1])
      case None => None
      case Some(s) => if Enabled(s, steps[|steps| - 1]) then Some(Perform(cfg, s, steps[|steps| - 1])) else None
  }

  /** Some interleaving leads to `s`. */
  ghost predicate Reachable(cfg: Config, s: State) { exists steps :: Run(cfg, steps) == Some(s) }

  // ----- where each sender is -----

  predicate InMap(s: State, c: CallId) {
    c in s.calls && s.calls[c].id in s.pending && s.pending[s.calls[c].id].c == c
  }

  predicate InHand(s: State, c: CallId) { s.hand.Some? && s.hand.value.entry.c == c }

  /** An entry belongs to a registered call, under its id and with its method. */
  predicate Owned(s: State, id: RequestId, e: Entry) {
    e.c in s.calls && e.c in s.chans && s.calls[e.c].id == id && s.calls[e.c].rpc == e.rpc
  }

  /** Every sender is in exactly one place: the map, the dispatcher's hand, or spent. */
  ghost predicate Linear(s: State) {
    && s.chans.Keys <= s.calls.Keys
    && (forall id :: id in s.pending ==> Owned(s, id, s.pending[id]))
    && (s.hand.Some? ==> Owned(s, s.hand.value.id, s.hand.value.entry))
    && (forall c :: c in s.chans ==>
          (s.chans[c].Open? <==> InMap(s, c) || InHand(s, c)) && !(InMap(s, c) && InHand(s, c)))
  }

  lemma LinearPhase(s: State, c: CallId, p: Phase)
    requires Linear(s) && c in s.calls
    ensures Linear(WithPhase(s, c, p))
  {
    var r := WithPhase(s, c, p);
    assert forall d :: InMap(r, d) == InMap(s, d) && InHand(r, d) == InHand(s, d);
  }

  lemma LinearBegin(s: State, c: CallId, k: Call)
    requires Linear(s) && c !in s.calls && c !in s.chans
    ensures Linear(s.(calls := s.calls[c := k]))
  {
    var r := s.(calls := s.calls[c := k]);
    assert forall d :: d in s.chans ==> InMap(r, d) == InMap(s, d) && InHand(r, d) == InHand(s, d);
  }

  lemma LinearRegister(s: State, c: CallId)
    requires Linear(s) && c in s.calls && c !in s.chans
    ensures var k := s.calls[c];
            var r := s.(pending := s.pending[k.id := Entry(k.rpc, c)], chans := Inserted(s.pending, s.chans, k.id, c));
            Linear(r) && Extends(s.chans, r.chans)
  {
  }

  lemma LinearCancel(s: State, reply: Reply)
    requires Linear(s)
    ensures Linear(CancelEveryone(s, reply)) && Extends(s.chans, CancelEveryone(s, reply).chans)
  {
    forall c | c in s.chans && s.chans[c].Open?
      ensures c in Senders(s.pending) <==> InMap(s, c)
    {
      if InMap(s, c) {
        assert s.pending[s.calls[c].id].c == c;
      }
    }
  }

  /** Taking an entry to spend it. */
  lemma LinearSpend(s: State, id: RequestId, reply: Reply)
    requires Linear(s) && id in s.pending
    ensures var r := s.(pending := s.pending - {id}, chans := Send(s.chans, s.pending[id].c, reply));
            Linear(r) && Extends(s.chans, r.chans)
  {
    var c := s.pending[id].c;
    assert InMap(s, c);
    var r := s.(pending := s.pending - {id}, chans := Send(s.chans, c, reply));
    assert forall d :: d in s.chans && d != c ==> InMap(r, d) == InMap(s, d) && InHand(r, d) == InHand(s, d);
  }

  /** Taking an entry into the dispatcher's hand. */
  lemma LinearHold(s: State, id: RequestId)
    requires Linear(s) && id in s.pending && s.hand.None?
    ensures Linear(s.(pending := s.pending - {id}, hand := Some(Held(id, s.pending[id]))))
  {
    var c := s.pending[id].c;
    assert InMap(s, c);
    var r := s.(pending := s.pending - {id}, hand := Some(Held(id, s.pending[id])));
    assert forall d :: d in s.chans && d != c ==> InMap(r, d) == InMap(s, d) && !InHand(r, d);
  }

  lemma LinearDispatch(cfg: Config, s: State, m: Message)
    requires Linear(s) && m.Response? && s.hand.None?
    ensures Linear(Dispatch(cfg, s, m)) && Extends(s.chans, Dispatch(cfg, s, m).chans)
  {
    if m.id in s.pending {
      var entry := s.pending[m.id];
      match Decode(cfg, entry.rpc, m.result, m.error)
      case Deliver(reply) => LinearSpend(s, m.id, reply);
      case Detour(_) =>
        LinearHold(s, m.id);
        LinearSpend(s, m.id, Rejected(entry.rpc));
    }
  }

  lemma LinearPark(s: State)
    requires Linear(s) && s.hand.Some?
    ensures var h := s.hand.value;
            var r := s.(hand := None, pending := s.pending[h.id := h.entry],
                        chans := if h.id in s.pending then Drop(s.chans, s.pending[h.id].c) else s.chans);
            Linear(r) && Extends(s.chans, r.chans)
  {
    var h := s.hand.value;
    assert InHand(s, h.entry.c);
    var r := s.(hand := None, pending := s.pending[h.id := h.entry],
                chans := if h.id in s.pending then Drop(s.chans, s.pending[h.id].c) else s.chans);
    if h.id in s.pending {
      assert InMap(s, s.pending[h.id].c);
    }
    assert InMap(r, h.entry.c);
    assert forall d :: d in s.chans && d != h.entry.c && (h.id in s.pending ==> d != s.pending[h.id].c) ==>
      InMap(r, d) == InMap(s, d) && !InHand(s, d);
  }

  /** Giving up the held entry, by a reply or by dropping it. */
  lemma LinearRelease(s: State, chans: Chans<Reply>)
    requires Linear(s) && s.hand.Some?
    requires chans == Drop(s.chans, s.hand.value.entry.c) || chans == Send(s.chans, s.hand.value.entry.c, AuthFailed)
    ensures Linear(s.(hand := None, chans := chans)) && Extends(s.chans, chans)
  {
    var c := s.hand.value.entry.c;
    assert InHand(s, c);
    var r := s.(hand := None, chans := chans);
    assert forall d :: d in s.chans && d != c ==> InMap(r, d) == InMap(s, d) && !InHand(s, d);
  }

  /** Depends only on the map, the channels, the calls and the hand. */
  lemma LinearSame(s: State, r: State)
    requires Linear(s) && r.pending == s.pending && r.chans == s.chans && r.calls == s.calls && r.hand == s.hand
    ensures Linear(r)
  {
    assert forall d :: InMap(r, d) == InMap(s, d) && InHand(r, d) == InHand(s, d);
  }

  lemma LinearPublish(cfg: Config, s: State, c: CallId, result: PublishResult)
    requires Linear(s) && InPhase(s, c, Registered)
    ensures Linear(Perform(cfg, s, Publish(c, result)))
    ensures Extends(s.chans, Perform(cfg, s, Publish(c, result)).chans)
  {
    var k := s.calls[c];
    var out := s.(published := s.published + [Published(k.id, k.key, k.key)]);
    LinearSame(s, out);
    match result
    case Accepted => LinearPhase(out, c, Waiting);
    case TotalFailure =>
      LinearPhase(out, c, Finished(PublishFailed));
      LinearCancel(WithPhase(out, c, Finished(PublishFailed)), Rejected(k.rpc));
    case Refused => LinearPhase(out, c, Finished(PoolRefused));
  }

  lemma LinearRead(cfg: Config, s: State, e: Event)
    requires Linear(s) && Enabled(s, Read(e))
    ensures Linear(Perform(cfg, s, Read(e))) && Extends(s.chans, Perform(cfg, s, Read(e)).chans)
  {
    var r := s.(seen := s.seen + [e]);
    LinearSame(s, r);
    if ResponseIn(cfg, e).Some? {
      var m := ResponseIn(cfg, e).value;
      var q := r.(latch := Latched(cfg, s.latch, e.pubkey, m.result));
      LinearSame(r, q);
      LinearDispatch(cfg, q, m);
    }
  }

  /** Every step keeps each sender in exactly one place, and never touches a spent one. */
  lemma LinearStep(cfg: Config, s: State, t: Step)
    requires Linear(s) && Enabled(s, t)
    ensures Linear(Perform(cfg, s, t))
    ensures Extends(s.chans, Perform(cfg, s, t).chans)
  {
    match t
    case Begin(c, id, m) => LinearBegin(s, c, Perform(cfg, s, t).calls[c]);
    case Register(c) =>
      LinearRegister(s, c);
      var k := s.calls[c];
      var filed := s.pending[k.id := Entry(k.rpc, c)];
      LinearPhase(s.(pending := filed, chans := Inserted(s.pending, s.chans, k.id, c)), c, Registered);
    case Publish(c, result) => LinearPublish(cfg, s, c, result);
    case Read(e) => LinearRead(cfg, s, e);
    case HandlerReturns(ok) =>
      if ok {
        LinearPark(s);
      } else {
        LinearRelease(s, Perform(cfg, s, t).chans);
      }
    case Receive(c) => LinearPhase(s, c, Perform(cfg, s, t).calls[c].phase);
    case Elapse(c) => LinearPhase(s, c, Finished(TimedOut));
    case Abandon(c) => LinearPhase(s, c, Finished(Abandoned));
    case StreamEnds =>
      LinearSame(s, s.(dispatcher := Ended));
      LinearCancel(s.(dispatcher := Ended), Down);
    case Abort =>
      if s.hand.Some? {
        LinearRelease(s, Drop(s.chans, s.hand.value.entry.c));
        LinearSame(s.(hand := None, chans := Drop(s.chans, s.hand.value.entry.c)), Perform(cfg, s, t));
      } else {
        LinearSame(s, Perform(cfg, s, t));
      }
  }
}
