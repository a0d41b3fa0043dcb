/** What a NIP-46 call returns, from the steps of its run. */
module SignerReplies {
  import opened Bytes
  import opened Filters
  import opened Oneshot
  import opened Signer
  import opened SignerFacts
  import opened SignerRuns

  /** What the step that spends a sender puts into its channel: the decoded response, the handler's failure, the failed
      publish of whoever cancelled the map, the end of the stream, or nothing when the dispatcher is aborted. */
  function LastWord(cfg: Config, rpc: Method, s: State, t: Step): Chan<Reply> {
    match t
    case Read(e) =>
      if ResponseIn(cfg, e).None? then Dropped
      else
        (match Decode(cfg, rpc, ResponseIn(cfg, e).value.result, ResponseIn(cfg, e).value.error)
         case Deliver(reply) => Sent(reply)
         case Detour(_) => Sent(Rejected(rpc)))
    case HandlerReturns(_) => Sent(AuthFailed)
    case Publish(d, _) => if d in s.calls then Sent(Rejected(s.calls[d].rpc)) else Dropped
    case StreamEnds => Sent(Down)
    case _ => Dropped
  }

  lemma SpentByRead(cfg: Config, s: State, e: Event, r: State, c: CallId)
    requires Linear(s) && Next(cfg, s, Read(e), r) && c in s.chans && Alive(s, c)
    requires Answers(cfg, s.calls[c].id, s.calls[c].rpc, e)
    ensures c in r.chans && r.chans[c] == LastWord(cfg, s.calls[c].rpc, s, Read(e))
  {
    assert InMap(s, c) && Owned(s, s.calls[c].id, s.pending[s.calls[c].id]);
  }

  lemma SpentByReturn(cfg: Config, s: State, r: State, c: CallId)
    requires Linear(s) && Next(cfg, s, HandlerReturns(false), r) && c in s.chans && InHand(s, c)
    ensures c in r.chans && r.chans[c] == Sent(AuthFailed)
  {
  }

  lemma SpentByEnd(cfg: Config, s: State, r: State, c: CallId)
    requires Linear(s) && Next(cfg, s, StreamEnds, r) && c in s.chans && Alive(s, c)
    ensures c in r.chans && r.chans[c] == Sent(Down)
  {
    assert InMap(s, c);
    assert c in Senders(s.pending);
  }

  lemma SpentByAbort(cfg: Config, s: State, r: State, c: CallId)
    requires Linear(s) && Next(cfg, s, Abort, r) && c in s.chans && InHand(s, c)
    ensures c in r.chans && r.chans[c] == Dropped
  {
  }

  lemma SpendStep(cfg: Config, s: State, t: Step, r: State, c: CallId)
    requires Linear(s) && Next(cfg, s, t, r) && c in s.chans && Alive(s, c)
    requires Spends(cfg, s.calls[c].id, s.calls[c].rpc, InHand(s, c), t)
    ensures c in r.chans && r.chans[c] == LastWord(cfg, s.calls[c].rpc, s, t)
  {
    match t
    case Read(e) => SpentByRead(cfg, s, e, r, c);
    case HandlerReturns(ok) => SpentByReturn(cfg, s, r, c);
    case Publish(d, result) => SurvivorsIff(cfg, s, d, c);
    case StreamEnds => SpentByEnd(cfg, s, r, c);
    case Abort => SpentByAbort(cfg, s, r, c);
  }

  /** A spent channel keeps what it holds. */
  lemma {:induction false} SpentKept(cfg: Config, steps: seq<Step>, tr: seq<State>, k: nat, n: nat, c: CallId)
    requires IsTrace(cfg, steps, tr) && k <= n <= |steps| && c in tr[k].chans && !tr[k].chans[c].Open?
    ensures c in tr[n].chans && tr[n].chans[c] == tr[k].chans[c]
    decreases n
  {
    if k < n {
      var m := n - 1;
      SpentKept(cfg, steps, tr, k, m, c);
      TraceLinear(cfg, steps, tr, m);
      assert Next(cfg, tr[m], steps[m], tr[m + 1]);
      LinearStep(cfg, tr[m], steps[m]);
    }
  }

  /** Step `k` is the first to spend the sender of the call registered at step `i`. */
  ghost predicate FirstSpent(cfg: Config, id: RequestId, rpc: Method, steps: seq<Step>, i: nat, k: nat) {
    && i < k < |steps| && Unspent(cfg, id, rpc, steps[i + 1..k])
    && Spends(cfg, id, rpc, HeldBy(cfg, id, rpc, steps[i + 1..k]), steps[k])
  }

  /** Spent within a history means spent first at some step of it. */
  lemma {:induction false} FirstOf(cfg: Config, id: RequestId, rpc: Method, since: seq<Step>) returns (k: nat)
    requires !Unspent(cfg, id, rpc, since)
    ensures k < |since| && Unspent(cfg, id, rpc, since[..k])
    ensures Spends(cfg, id, rpc, HeldBy(cfg, id, rpc, since[..k]), since[k])
    decreases |since|
  {
    k :| 0 <= k < |since| && Spends(cfg, id, rpc, HeldBy(cfg, id, rpc, since[..k]), since[k]);
    var front := since[..k];
    if !Unspent(cfg, id, rpc, front) {
      var m := FirstOf(cfg, id, rpc, front);
      assert front[..m] == since[..m] && front[m] == since[m];
      k := m;
    }
  }

  lemma FirstSpentExists(cfg: Config, id: RequestId, rpc: Method, steps: seq<Step>, i: nat, j: nat) returns (k: nat)
    requires i < j <= |steps| && !Unspent(cfg, id, rpc, steps[i + 1..j])
    ensures k < j && FirstSpent(cfg, id, rpc, steps, i, k)
  {
    var m := FirstOf(cfg, id, rpc, steps[i + 1..j]);
    k := i + 1 + m;
    assert steps[i + 1..j][..m] == steps[i + 1..k] && steps[i + 1..j][m] == steps[k];
  }

  function Told(chan: Chan<Reply>): Outcome {
    match chan case Sent(reply) => Replied(reply) case _ => ChannelClosed
  }

  lemma ReceiveTells(cfg: Config, s: State, r: State, c: CallId)
    requires Next(cfg, s, Receive(c), r)
    ensures c in s.chans && !s.chans[c].Open? && c in r.calls && r.calls[c].phase == Finished(Told(s.chans[c]))
  {
  }

  /** The first spending step leaves its last word in the channel, for good. */
  lemma LastWordStays(
    cfg: Config, steps: seq<Step>, tr: seq<State>, i: nat, k: nat, j: nat, c: CallId, id: RequestId, rpc: Method)
    requires IsTrace(cfg, steps, tr) && k < j <= |steps| && i < |steps| && steps[i] == Register(c) && DistinctIds(tr[j])
    requires c in tr[j].calls && tr[j].calls[c].id == id && tr[j].calls[c].rpc == rpc
    requires FirstSpent(cfg, id, rpc, steps, i, k)
    ensures c in tr[j].chans && tr[j].chans[c] == LastWord(cfg, rpc, tr[k], steps[k])
  {
    DistinctEarlier(cfg, steps, tr, k, j);
    SenderGoneIff(cfg, steps, tr, i, k, c);
    SameCall(cfg, steps, tr, k, j, c);
    TraceLinear(cfg, steps, tr, k);
    SpendStep(cfg, tr[k], steps[k], tr[k + 1], c);
    SpentKept(cfg, steps, tr, k + 1, j, c);
  }

  lemma {:induction false} DistinctEarlier(cfg: Config, steps: seq<Step>, tr: seq<State>, k: nat, j: nat)
    requires IsTrace(cfg, steps, tr) && k <= j <= |steps| && DistinctIds(tr[j])
    ensures DistinctIds(tr[k])
    decreases j - k
  {
    if k < j {
      DistinctEarlier(cfg, steps, tr, k + 1, j);
      DistinctAt(cfg, steps, tr, k);
    }
  }

  /** In every run with distinct ids, a call that receives at step `j` returns exactly what the first step that spent
      its sender since the registration had to say. */
  lemma OutcomeOf(cfg: Config, steps: seq<Step>, tr: seq<State>, i: nat, j: nat, c: CallId) returns (k: nat)
    requires IsTrace(cfg, steps, tr) && i < j < |steps| && steps[i] == Register(c) && steps[j] == Receive(c)
    requires DistinctIds(tr[j])
    ensures c in tr[j].calls && c in tr[j + 1].calls && k < j
    ensures FirstSpent(cfg, tr[j].calls[c].id, tr[j].calls[c].rpc, steps, i, k)
    ensures tr[j + 1].calls[c].phase == Finished(Told(LastWord(cfg, tr[j].calls[c].rpc, tr[k], steps[k])))
  {
    SenderGoneIff(cfg, steps, tr, i, j, c);
    ReceiveTells(cfg, tr[j], tr[j + 1], c);
    TraceLinear(cfg, steps, tr, j);
    var id, rpc := tr[j].calls[c].id, tr[j].calls[c].rpc;
    k := FirstSpentExists(cfg, id, rpc, steps, i, j);
    LastWordStays(cfg, steps, tr, i, k, j, c, id, rpc);
  }

  /** In particular a success is returned exactly if the first such step reads a response that justifies it. */
  lemma SuccessIff(cfg: Config, steps: seq<Step>, tr: seq<State>, i: nat, j: nat, c: CallId, v: Value) returns (k: nat)
    requires IsTrace(cfg, steps, tr) && i < j < |steps| && steps[i] == Register(c) && steps[j] == Receive(c)
    requires DistinctIds(tr[j])
    ensures c in tr[j].calls && c in tr[j + 1].calls && k < j
    ensures FirstSpent(cfg, tr[j].calls[c].id, tr[j].calls[c].rpc, steps, i, k)
    ensures tr[j + 1].calls[c].phase == Finished(Replied(Ok(v)))
            <==> && steps[k].Read?
                 && Justifies(cfg, steps[k].event, tr[j].calls[c].id, tr[j].calls[c].rpc, v)
  {
    k := OutcomeOf(cfg, steps, tr, i, j, c);
  }
}
