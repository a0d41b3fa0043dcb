/** Whether a NIP-46 success comes from the signer. */
module SignerOrigin {
  import opened Bytes
  import opened Filters
  import opened Oneshot
  import opened Signer
  import opened SignerFacts
  import opened SignerRuns

  /** `e` carries a response that some method takes for a success. */
  ghost predicate CarriesSuccess(cfg: Config, e: Event) {
    exists rpc, v :: ResponseIn(cfg, e).Some?
      && Decode(cfg, rpc, ResponseIn(cfg, e).value.result, ResponseIn(cfg, e).value.error) == Deliver(Ok(v))
  }

  /** `k` can become the signer's key: it is in the URI, or some event by it echoes the secret. */
  ghost predicate MayBeSigner(cfg: Config, k: PublicKey) {
    match cfg.flow
    case Bunker(key) => k == key
    case Client(_) => exists e :: Echoes(cfg, e, k)
  }

  /** Every success delivered in any run was authored by the key the client then trusts. */
  ghost predicate Authentic(cfg: Config) {
    forall s, e, r, c :: Reachable(cfg, s) && Delivers(cfg, s, e, r, c) ==> r.latch == Some(e.pubkey)
  }

  lemma OnlySigners(cfg: Config, s: State, e: Event, r: State, c: CallId)
    requires forall k, e :: MayBeSigner(cfg, k) && CarriesSuccess(cfg, e) ==> e.pubkey == k
    requires Reachable(cfg, s) && Delivers(cfg, s, e, r, c)
    ensures r.latch == Some(e.pubkey)
  {
    var steps :| Run(cfg, steps) == Some(s);
    var tr := TraceOf(cfg, steps);
    AlwaysSettled(cfg, steps, tr, |steps|);
    ReachableInv(cfg, s);
    DeliveryFacts(cfg, s, e, r, c);
    assert CarriesSuccess(cfg, e);
    LatchStep(cfg, s, Read(e));
    assert MayBeSigner(cfg, s.latch.value);
  }

  /** The key is latched before any request. */
  lemma Latching(cfg: Config, k: PublicKey) returns (pre: seq<Step>, s: State)
    requires MayBeSigner(cfg, k)
    ensures Run(cfg, pre) == Some(s) && Idle(s, k)
  {
    pre, s := [], Initial(cfg.flow);
    if cfg.flow.Client? {
      var e :| Echoes(cfg, e, k);
      RunOn(cfg, pre, s, Read(e));
      pre, s := pre + [Read(e)], Perform(cfg, s, Read(e));
    }
  }

  /** Whoever can make a success open gets it delivered, and the caller returns it, whatever the latch says. */
  lemma ForeignSuccess(cfg: Config, k: PublicKey, e: Event) returns (s: State, r: State, q: State)
    requires MayBeSigner(cfg, k) && CarriesSuccess(cfg, e)
    ensures Reachable(cfg, s) && Delivers(cfg, s, e, r, 0) && r.latch == Some(k)
    ensures Next(cfg, r, Receive(0), q) && Succeeded(q, 0) && r.chans[0] == Sent(q.calls[0].phase.outcome.reply)
  {
    var m := ResponseIn(cfg, e).value;
    var rpc, v :| Decode(cfg, rpc, m.result, m.error) == Deliver(Ok(v));
    var pre, s0 := Latching(cfg, k);
    var steps, s1 := FirstRequest(cfg, pre, s0, k, m.id, rpc);
    s, r := s1, Perform(cfg, s1, Read(e));
    assert Reachable(cfg, s);
    assert r.chans[0] == Sent(Ok(v)) && r.calls == s.calls;
    q := Perform(cfg, r, Receive(0));
  }

  /** The dispatcher does not compare an event's author with the latched key, so this rests on what opens: it holds if
      and only if nobody but the signer can author an event that opens to a success. */
  lemma AuthenticIff(cfg: Config)
    ensures Authentic(cfg) <==> forall k, e :: MayBeSigner(cfg, k) && CarriesSuccess(cfg, e) ==> e.pubkey == k
  {
    if forall k, e :: MayBeSigner(cfg, k) && CarriesSuccess(cfg, e) ==> e.pubkey == k {
      forall s, e, r, c | Reachable(cfg, s) && Delivers(cfg, s, e, r, c)
        ensures r.latch == Some(e.pubkey)
      {
        OnlySigners(cfg, s, e, r, c);
      }
    }
    if Authentic(cfg) {
      forall k, e | MayBeSigner(cfg, k) && CarriesSuccess(cfg, e)
        ensures e.pubkey == k
      {
        var s, r, q := ForeignSuccess(cfg, k, e);
      }
    }
  }

  /** A decryptor that, like NIP-44, opens what anybody encrypts to the client. */
  function OpenToAll(key: PublicKey, id: RequestId, body: Text): Config {
    Config(Bunker(key), (e: Event) => Some(Response(id, Some(body), None)), (rpc: Method, t: Text) => Some(Plain(t)),
           (t: Text) => true, false)
  }

  /** An event by `author` delivers, in a reachable state whose latch holds `key`, the very success that the caller then
      returns. */
  ghost predicate AnsweredBy(cfg: Config, author: PublicKey, key: PublicKey) {
    exists s, e, r, q ::
      && Reachable(cfg, s) && Delivers(cfg, s, e, r, 0) && e.pubkey == author && r.latch == Some(key)
      && Next(cfg, r, Receive(0), q) && Succeeded(q, 0) && r.chans[0] == Sent(q.calls[0].phase.outcome.reply)
  }

  /** With it, a request sent to the `bunker://` key returns the success a stranger made up. */
  lemma StrangerAnswers(key: PublicKey, stranger: PublicKey, id: RequestId, body: Text)
    ensures AnsweredBy(OpenToAll(key, id, body), stranger, key)
  {
    var cfg := OpenToAll(key, id, body);
    var e := Event([], stranger, 0, KIND, [], [], []);
    assert ResponseIn(cfg, e) == Some(Response(id, Some(body), None));
    assert Decode(cfg, 0, Some(body), None) == Deliver(Ok(Plain(body)));
    assert CarriesSuccess(cfg, e);
    var s, r, q := ForeignSuccess(cfg, key, e);
  }
}
