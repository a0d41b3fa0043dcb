/** What holds in every interleaving of the NIP-46 client. */
module SignerFacts {
  import opened Bytes
  import opened Filters
  import opened Oneshot
  import opened Signer

  // ----- successes are decoded from the caller's own response -----

  /** `e` carries a response to `id` that decodes to `v` against the method `rpc`, and is not an `auth_url` detour. */
  predicate Justifies(cfg: Config, e: Event, id: RequestId, rpc: Method, v: Value) {
    match ResponseIn(cfg, e)
    case None => false
    case Some(m) => e.kind == 24133 && m.id == id && Decode(cfg, rpc, m.result, m.error) == Deliver(Ok(v))
  }

  /** Every success in a channel was read from such an event. */
  ghost predicate Sound(cfg: Config, s: State) {
    forall c :: c in s.chans && c in s.calls && s.chans[c].Sent? && s.chans[c].reply.Ok? ==>
      exists e :: e in s.seen && Justifies(cfg, e, s.calls[c].id, s.calls[c].rpc, s.chans[c].reply.value)
  }

  /** Only reading makes a success appear, and only from a fitting event. */
  lemma NewSuccess(cfg: Config, s: State, t: Step, c: CallId)
    requires Linear(s) && Enabled(s, t) && c in Perform(cfg, s, t).chans && Perform(cfg, s, t).chans[c].Sent?
    requires Perform(cfg, s, t).chans[c].reply.Ok?
    ensures c in s.chans
    ensures s.chans[c] == Perform(cfg, s, t).chans[c]
            || (&& t.Read?
                && Justifies(cfg, t.event, s.calls[c].id, s.calls[c].rpc, Perform(cfg, s, t).chans[c].reply.value))
  {
  }

  /** A call keeps its id, its method and the key it was prepared for. */
  lemma CallKept(cfg: Config, s: State, t: Step, c: CallId)
    requires Enabled(s, t) && c in s.calls
    ensures var r := Perform(cfg, s, t);
            && c in r.calls && r.calls[c].id == s.calls[c].id
            && r.calls[c].rpc == s.calls[c].rpc && r.calls[c].key == s.calls[c].key
  {
  }

  /** A finished call stays as it is; only its own step moves another. */
  lemma PhaseKept(cfg: Config, s: State, t: Step, c: CallId)
    requires Enabled(s, t) && c in s.calls && c in Perform(cfg, s, t).calls
    ensures s.calls[c].phase.Finished? ==> Perform(cfg, s, t).calls[c].phase == s.calls[c].phase
    ensures Perform(cfg, s, t).calls[c].phase != s.calls[c].phase ==>
              (t.Register? || t.Publish? || t.Receive? || t.Elapse? || t.Abandon?) && t.c == c
  {
  }

  /** A call that is newly answered holds what its channel held. */
  lemma NewReply(cfg: Config, s: State, t: Step, c: CallId)
    requires Enabled(s, t) && (t.Register? || t.Publish? || t.Receive? || t.Elapse? || t.Abandon?) && t.c == c
    requires c in s.calls && c in Perform(cfg, s, t).calls
    requires Perform(cfg, s, t).calls[c].phase.Finished? && Perform(cfg, s, t).calls[c].phase.outcome.Replied?
    ensures t.Receive? && c in s.chans && s.chans[c] == Sent(Perform(cfg, s, t).calls[c].phase.outcome.reply)
  {
  }

  /** No call starts out answered. */
  lemma NewCall(cfg: Config, s: State, t: Step, c: CallId)
    requires Enabled(s, t) && c !in s.calls && c in Perform(cfg, s, t).calls
    ensures var p := Perform(cfg, s, t).calls[c].phase; p.Finished? ==> p.outcome == NoSigner
  {
  }

  lemma SoundStep(cfg: Config, s: State, t: Step)
    requires Linear(s) && Sound(cfg, s) && Enabled(s, t)
    ensures Sound(cfg, Perform(cfg, s, t))
  {
    var r := Perform(cfg, s, t);
    SeenGrows(cfg, s, t);
    forall c | c in r.chans && c in r.calls && r.chans[c].Sent? && r.chans[c].reply.Ok?
      ensures exists e :: e in r.seen && Justifies(cfg, e, r.calls[c].id, r.calls[c].rpc, r.chans[c].reply.value)
    {
      NewSuccess(cfg, s, t, c);
      CallKept(cfg, s, t, c);
      if s.chans[c] == r.chans[c] {
        var e :| e in s.seen && Justifies(cfg, e, s.calls[c].id, s.calls[c].rpc, s.chans[c].reply.value);
        assert e in r.seen;
      } else {
        assert t.event in r.seen;
      }
    }
  }

  lemma SeenGrows(cfg: Config, s: State, t: Step)
    requires Enabled(s, t)
    ensures Perform(cfg, s, t).seen == s.seen + if t.Read? then [t.event] else []
  {
  }

  /** A caller that was answered holds what its channel held. */
  ghost predicate Honest(s: State) {
    forall c :: c in s.calls && s.calls[c].phase.Finished? && s.calls[c].phase.outcome.Replied? ==>
      c in s.chans && s.chans[c] == Sent(s.calls[c].phase.outcome.reply)
  }

  lemma HonestStep(cfg: Config, s: State, t: Step)
    requires Linear(s) && Honest(s) && Enabled(s, t)
    ensures Honest(Perform(cfg, s, t))
  {
    LinearStep(cfg, s, t);
    forall c | c in Perform(cfg, s, t).calls && c !in s.calls
      ensures var p := Perform(cfg, s, t).calls[c].phase; p.Finished? ==> p.outcome == NoSigner
    {
      NewCall(cfg, s, t, c);
    }
    forall c | c in Perform(cfg, s, t).calls && c in s.calls
      ensures Answered(s, Perform(cfg, s, t), c)
    {
      HonestCall(cfg, s, t, c);
    }
    Combine(s, Perform(cfg, s, t));
  }

  /** An answer that `r` shows for `c` was already in the channel in `s`. */
  predicate Answered(s: State, r: State, c: CallId)
    requires c in r.calls
  {
    r.calls[c].phase.Finished? && r.calls[c].phase.outcome.Replied? ==>
      c in s.chans && s.chans[c] == Sent(r.calls[c].phase.outcome.reply)
  }

  lemma HonestCall(cfg: Config, s: State, t: Step, c: CallId)
    requires Honest(s) && Enabled(s, t) && c in s.calls && c in Perform(cfg, s, t).calls
    ensures Answered(s, Perform(cfg, s, t), c)
  {
    PhaseKept(cfg, s, t, c);
    var p := Perform(cfg, s, t).calls[c].phase;
    if p != s.calls[c].phase && p.Finished? && p.outcome.Replied? {
      NewReply(cfg, s, t, c);
    }
  }

  lemma Combine(s: State, r: State)
    requires Extends(s.chans, r.chans)
    requires forall c :: c in r.calls && c in s.calls ==> Answered(s, r, c)
    requires forall c :: c in r.calls && c !in s.calls && r.calls[c].phase.Finished? ==>
               r.calls[c].phase.outcome == NoSigner
    ensures Honest(r)
  {
  }

  // ----- the signer's key -----

  /** `e` is a response, authored by `k`, whose result is the URI secret. */
  predicate Echoes(cfg: Config, e: Event, k: PublicKey) {
    && cfg.flow.Client? && e.pubkey == k
    && ResponseIn(cfg, e).Some? && ResponseIn(cfg, e).value.result == Some(cfg.flow.secret)
  }

  /** The latch holds the URI key, or else the author of an echo that was read. */
  ghost predicate Trusted(cfg: Config, s: State) {
    && (cfg.flow.Bunker? ==> s.latch == Some(cfg.flow.key))
    && (cfg.flow.Client? && s.latch.Some? ==> exists e :: e in s.seen && Echoes(cfg, e, s.latch.value))
  }

  /** Everything on its way to the signer is meant for that one key. */
  ghost predicate Addressed(s: State) {
    && (forall c :: c in s.calls && s.calls[c].phase != Finished(NoSigner) ==>
          s.latch == Some(s.calls[c].key) || s.calls[c].phase.Finished?)
    && (forall p :: p in s.published ==> s.latch == Some(p.encryptedTo) && p.pTag == p.encryptedTo)
  }

  /** The latch is written once. */
  lemma LatchStep(cfg: Config, s: State, t: Step)
    requires Enabled(s, t)
    ensures s.latch.Some? ==> Perform(cfg, s, t).latch == s.latch
    ensures Perform(cfg, s, t).latch != s.latch ==>
              t.Read? && Echoes(cfg, t.event, t.event.pubkey) && Perform(cfg, s, t).latch == Some(t.event.pubkey)
  {
  }

  lemma TrustedStep(cfg: Config, s: State, t: Step)
    requires Trusted(cfg, s) && Enabled(s, t)
    ensures Trusted(cfg, Perform(cfg, s, t))
  {
    var r := Perform(cfg, s, t);
    LatchStep(cfg, s, t);
    SeenGrows(cfg, s, t);
    if cfg.flow.Client? && r.latch.Some? {
      if r.latch == s.latch {
        var e :| e in s.seen && Echoes(cfg, e, s.latch.value);
        assert e in r.seen;
      } else {
        assert t.event in r.seen;
      }
    }
  }

  lemma AddressedStep(cfg: Config, s: State, t: Step)
    requires Addressed(s) && Enabled(s, t)
    ensures Addressed(Perform(cfg, s, t))
  {
    var r := Perform(cfg, s, t);
    LatchStep(cfg, s, t);
    PublishedGrows(cfg, s, t);
    forall c | c in r.calls && r.calls[c].phase != Finished(NoSigner)
      ensures r.latch == Some(r.calls[c].key) || r.calls[c].phase.Finished?
    {
      if c in s.calls {
        CallKept(cfg, s, t, c);
      }
    }
  }

  lemma PublishedGrows(cfg: Config, s: State, t: Step)
    requires Enabled(s, t)
    ensures Perform(cfg, s, t).published
            == s.published + if t.Publish? then [Published(s.calls[t.c].id, s.calls[t.c].key, s.calls[t.c].key)] else []
  {
  }

  // ----- every run -----

  ghost predicate Inv(cfg: Config, s: State) {
    Linear(s) && Sound(cfg, s) && Honest(s) && Trusted(cfg, s) && Addressed(s)
  }

  lemma {:induction false} Invariant(cfg: Config, steps: seq<Step>)
    requires Run(cfg, steps).Some?
    ensures Inv(cfg, Run(cfg, steps).value)
    decreases |steps|
  {
    if steps != [] {
      var t := steps[|steps| - 1];
      Invariant(cfg, steps[..|steps| - 1]);
      var before := Run(cfg, steps[..|steps| - 1]).value;
      LinearStep(cfg, before, t);
      SoundStep(cfg, before, t);
      HonestStep(cfg, before, t);
      TrustedStep(cfg, before, t);
      AddressedStep(cfg, before, t);
    }
  }

  lemma ReachableInv(cfg: Config, s: State)
    requires Reachable(cfg, s)
    ensures Inv(cfg, s)
  {
    var steps :| Run(cfg, steps) == Some(s);
    Invariant(cfg, steps);
  }

  /** In every run each sender is in exactly one place: the map, the dispatcher's hand, or spent. */
  lemma OnePlace(cfg: Config, s: State, c: CallId)
    requires Reachable(cfg, s) && c in s.chans
    ensures (InMap(s, c) && !InHand(s, c) && s.chans[c].Open?)
            || (!InMap(s, c) && InHand(s, c) && s.chans[c].Open?)
            || (!InMap(s, c) && !InHand(s, c) && !s.chans[c].Open?)
  {
    ReachableInv(cfg, s);
  }

  /** A success a caller sees came from a response with its own id, decoded against its own method, and is never the
      `auth_url` sentinel. */
  lemma SuccessesAreOwn(cfg: Config, s: State, c: CallId)
    requires Reachable(cfg, s) && c in s.calls && s.calls[c].phase.Finished?
    requires s.calls[c].phase.outcome.Replied? && s.calls[c].phase.outcome.reply.Ok?
    ensures exists e :: e in s.seen
              && Justifies(cfg, e, s.calls[c].id, s.calls[c].rpc, s.calls[c].phase.outcome.reply.value)
    ensures s.calls[c].phase.outcome.reply.value != AuthUrl
  {
    ReachableInv(cfg, s);
    var v := s.calls[c].phase.outcome.reply.value;
    var e :| e in s.seen && Justifies(cfg, e, s.calls[c].id, s.calls[c].rpc, v);
    DecodeIff(cfg, s.calls[c].rpc, ResponseIn(cfg, e).value.result, ResponseIn(cfg, e).value.error, v, []);
  }

  /** The latch never changes once set; in the bunker flow it is the URI key, in the client flow the author of an echo
      of the secret; and every request handed to the pool is encrypted to it and tagged with it. */
  lemma LatchIsTrusted(cfg: Config, s: State, t: Step)
    requires Reachable(cfg, s) && Enabled(s, t)
    ensures s.latch.Some? ==> Perform(cfg, s, t).latch == s.latch
    ensures cfg.flow.Bunker? ==> s.latch == Some(cfg.flow.key)
    ensures cfg.flow.Client? && s.latch.Some? ==> exists e :: e in s.seen && Echoes(cfg, e, s.latch.value)
    ensures forall p :: p in s.published ==> s.latch == Some(p.encryptedTo) && p.pTag == p.encryptedTo
  {
    ReachableInv(cfg, s);
    LatchStep(cfg, s, t);
  }

  // ----- what clean-up does to the others -----

  /** A publish that fails everywhere cancels the whole map, in the failing request's name. */
  lemma TotalFailureCancelsAll(cfg: Config, s: State, c: CallId, id: RequestId)
    requires Linear(s) && Enabled(s, Publish(c, TotalFailure)) && id in s.pending
    ensures var r := Perform(cfg, s, Publish(c, TotalFailure));
            && r.pending == map[]
            && s.pending[id].c in r.chans && r.chans[s.pending[id].c] == Sent(Rejected(s.calls[c].rpc))
  {
    assert InMap(s, s.pending[id].c);
    assert s.pending[id].c in Senders(s.pending);
  }

  /** Exactly the request the dispatcher holds, if any, lives through it. */
  lemma SurvivorsIff(cfg: Config, s: State, c: CallId, d: CallId)
    requires Linear(s) && Enabled(s, Publish(c, TotalFailure)) && d in s.chans
    ensures var r := Perform(cfg, s, Publish(c, TotalFailure));
            && d in r.chans && (r.chans[d].Open? <==> InHand(s, d))
            && (InHand(s, d) ==> InHand(r, d))
            && (InMap(s, d) ==> r.chans[d] == Sent(Rejected(s.calls[c].rpc)))
  {
    LinearStep(cfg, s, Publish(c, TotalFailure));
    if InMap(s, d) {
      assert d in Senders(s.pending);
    }
  }
}
