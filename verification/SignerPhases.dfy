/** Where a NIP-46 call stands and who the signer is, from the steps of the run, and that calls can always go on. */
module SignerPhases {
  import opened Bytes
  import opened Filters
  import opened Oneshot
  import opened Signer
  import opened SignerFacts

  // ----- who the signer is -----

  /** The event is an echo of the secret that a client-initiated connection waits for: a response, of kind 24133, whose
      result is the secret itself. */
  ghost predicate IsEcho(cfg: Config, e: Event) {
    && cfg.flow.Client? && e.kind == 24133
    && exists id, error :: cfg.open(e) == Some(Response(id, Some(cfg.flow.secret), error))
  }

  /** The first echo the dispatcher reads is read at step `k`. */
  ghost predicate FirstEcho(cfg: Config, steps: seq<Step>, k: int) {
    && 0 <= k < |steps| && steps[k].Read? && IsEcho(cfg, steps[k].event)
    && forall j :: 0 <= j < k && steps[j].Read? ==> !IsEcho(cfg, steps[j].event)
  }

  ghost predicate NoEcho(cfg: Config, steps: seq<Step>) {
    forall j :: 0 <= j < |steps| && steps[j].Read? ==> !IsEcho(cfg, steps[j].event)
  }

  lemma EchoIff(cfg: Config, e: Event)
    ensures IsEcho(cfg, e) <==> Echoes(cfg, e, e.pubkey)
  {
    if Echoes(cfg, e, e.pubkey) {
      var m := cfg.open(e).value;
      assert cfg.open(e) == Some(Response(m.id, Some(cfg.flow.secret), m.error));
    }
  }

  lemma LatchNext(cfg: Config, s: State, t: Step)
    requires Enabled(s, t)
    ensures Perform(cfg, s, t).latch
            == if s.latch.None? && t.Read? && Echoes(cfg, t.event, t.event.pubkey) then Some(t.event.pubkey)
               else s.latch
  {
  }

  lemma EchoNext(cfg: Config, front: seq<Step>, t: Step)
    ensures NoEcho(cfg, front + [t]) <==> NoEcho(cfg, front) && !(t.Read? && IsEcho(cfg, t.event))
    ensures NoEcho(cfg, front) ==>
              forall k :: FirstEcho(cfg, front + [t], k) <==> k == |front| && t.Read? && IsEcho(cfg, t.event)
    ensures !NoEcho(cfg, front) ==> forall k :: FirstEcho(cfg, front + [t], k) <==> FirstEcho(cfg, front, k)
  {
    var steps := front + [t];
    assert forall k :: 0 <= k < |front| ==> steps[k] == front[k];
    assert steps[|front|] == t;
    if !NoEcho(cfg, front) {
      var j :| 0 <= j < |front| && front[j].Read? && IsEcho(cfg, front[j].event);
      assert steps[j].Read? && IsEcho(cfg, steps[j].event);
    }
  }

  /** In every run the signer is the one the `bunker://` URI names, or else the author of the first echo that was read;
      there is none before that. */
  lemma {:induction false} LatchIff(cfg: Config, steps: seq<Step>)
    requires Run(cfg, steps).Some?
    ensures var latch := Run(cfg, steps).value.latch;
            && (cfg.flow.Bunker? ==> latch == Some(cfg.flow.key))
            && (cfg.flow.Client? ==> (latch.None? <==> NoEcho(cfg, steps)))
            && (cfg.flow.Client? ==> forall k :: FirstEcho(cfg, steps, k) ==> latch == Some(steps[k].event.pubkey))
    decreases |steps|
  {
    if steps != [] {
      var n := |steps| - 1;
      var front, t := steps[..n], steps[n];
      LatchIff(cfg, front);
      LatchNext(cfg, Run(cfg, front).value, t);
      EchoNext(cfg, front, t);
      if t.Read? {
        EchoIff(cfg, t.event);
      }
      assert steps == front + [t];
      assert forall k :: FirstEcho(cfg, front, k) ==> steps[k] == front[k];
    }
  }

  // ----- where a call stands -----

  /** The step belongs to call `c`. */
  predicate Concerns(t: Step, c: CallId) {
    match t
    case Begin(d, _, _) => d == c
    case Register(d) => d == c
    case Publish(d, _) => d == c
    case Receive(d) => d == c
    case Elapse(d) => d == c
    case Abandon(d) => d == c
    case _ => false
  }

  /** The step is the last of its call. */
  predicate Leaves(t: Step) { t.Receive? || t.Elapse? || t.Abandon? || (t.Publish? && !t.result.Accepted?) }

  /** Where a step leaves its call; without a signer it is over before it begins. */
  predicate PhaseAfter(t: Step, signer: bool, p: Phase) {
    match t
    case Begin(_, _, _) => p == if signer then Prepared else Finished(NoSigner)
    case Register(_) => p == Registered
    case Publish(_, Accepted) => p == Waiting
    case Publish(_, TotalFailure) => p == Finished(PublishFailed)
    case Publish(_, Refused) => p == Finished(PoolRefused)
    case Receive(_) => p == Finished(ChannelClosed) || (p.Finished? && p.outcome.Replied?)
    case Elapse(_) => p == Finished(TimedOut)
    case Abandon(_) => p == Finished(Abandoned)
    case _ => false
  }

  lemma ConcernedStep(cfg: Config, s: State, t: Step, c: CallId)
    requires Enabled(s, t) && Concerns(t, c)
    ensures c in Perform(cfg, s, t).calls && PhaseAfter(t, s.latch.Some?, Perform(cfg, s, t).calls[c].phase)
    ensures c in s.calls ==> !s.calls[c].phase.Finished?
  {
  }

  lemma UnconcernedStep(cfg: Config, s: State, t: Step, c: CallId)
    requires Enabled(s, t) && !Concerns(t, c)
    ensures c in Perform(cfg, s, t).calls <==> c in s.calls
    ensures c in s.calls ==> Perform(cfg, s, t).calls[c] == s.calls[c]
  {
  }

  /** `k` is the last step of `c` so far, and none before it was a final one; below 0 there was none. */
  ghost predicate LastOf(steps: seq<Step>, c: CallId, k: int) {
    && -1 <= k < |steps| && (k >= 0 ==> Concerns(steps[k], c))
    && (forall j :: k < j < |steps| ==> !Concerns(steps[j], c))
    && (forall j :: 0 <= j < k && Concerns(steps[j], c) ==> !Leaves(steps[j]))
  }

  lemma LastStep(front: seq<Step>, t: Step, c: CallId, k: int)
    requires LastOf(front, c, k)
    ensures !Concerns(t, c) ==> LastOf(front + [t], c, k)
    ensures Concerns(t, c) && (k >= 0 ==> !Leaves(front[k])) ==> LastOf(front + [t], c, |front|)
  {
  }

  /** A signer is known after these steps. */
  ghost predicate Known(cfg: Config, steps: seq<Step>) { cfg.flow.Bunker? || !NoEcho(cfg, steps) }

  /** In every run the phase of a call is the one its last step left it in; a call ends at most once, and nothing
      happens to it afterwards. */
  lemma {:induction false} PhaseIsLastStep(cfg: Config, steps: seq<Step>, c: CallId) returns (k: int)
    requires Run(cfg, steps).Some?
    ensures LastOf(steps, c, k)
    ensures k < 0 <==> c !in Run(cfg, steps).value.calls
    ensures k >= 0 ==> PhaseAfter(steps[k], Known(cfg, steps[..k]), Run(cfg, steps).value.calls[c].phase)
    decreases |steps|
  {
    if steps == [] {
      k := -1;
    } else {
      var n := |steps| - 1;
      var front, t := steps[..n], steps[n];
      k := PhaseIsLastStep(cfg, front, c);
      var s := Run(cfg, front).value;
      LastStep(front, t, c, k);
      if Concerns(t, c) {
        ConcernedStep(cfg, s, t, c);
        LatchIff(cfg, front);
        assert k >= 0 ==> !Leaves(front[k]);
        k := n;
      } else {
        UnconcernedStep(cfg, s, t, c);
        assert k >= 0 ==> front[..k] == steps[..k];
      }
      assert front + [t] == steps;
    }
  }

  /** From every reachable state each call can go on: register, publish, then either receive or time out; it can be
      abandoned at any time, and new calls can begin under any id. */
  lemma NeverStuck(cfg: Config, s: State, c: CallId, id: RequestId, rpc: Method, result: PublishResult)
    requires Reachable(cfg, s)
    ensures c !in s.calls <==> Enabled(s, Begin(c, id, rpc))
    ensures InPhase(s, c, Registered) <==> Enabled(s, Publish(c, result))
    ensures !(Enabled(s, Receive(c)) && Enabled(s, Elapse(c)))
    ensures c in s.calls && !s.calls[c].phase.Finished? <==> Enabled(s, Abandon(c))
  {
    ReachableInv(cfg, s);
  }

  /** A call has a channel exactly from its registration on. */
  ghost predicate Channelled(s: State) {
    forall c :: && (InPhase(s, c, Prepared) ==> c !in s.chans)
                && (InPhase(s, c, Registered) || InPhase(s, c, Waiting) ==> c in s.chans)
  }

  lemma {:induction false} AlwaysChannelled(cfg: Config, steps: seq<Step>)
    requires Run(cfg, steps).Some?
    ensures Channelled(Run(cfg, steps).value)
    decreases |steps|
  {
    if steps != [] {
      var n := |steps| - 1;
      AlwaysChannelled(cfg, steps[..n]);
      Invariant(cfg, steps[..n]);
      ChannelledStep(cfg, Run(cfg, steps[..n]).value, steps[n]);
    }
  }

  lemma ChannelledStep(cfg: Config, s: State, t: Step)
    requires Linear(s) && Channelled(s) && Enabled(s, t)
    ensures Channelled(Perform(cfg, s, t))
  {
    var r := Perform(cfg, s, t);
    LinearStep(cfg, s, t);
    forall c
      ensures InPhase(r, c, Prepared) ==> c !in r.chans
      ensures InPhase(r, c, Registered) || InPhase(r, c, Waiting) ==> c in r.chans
    {
      if Concerns(t, c) {
        ConcernedStep(cfg, s, t, c);
      } else {
        UnconcernedStep(cfg, s, t, c);
      }
    }
  }

  /** So what is prepared can register, and what waits can either receive or time out. */
  lemma WaitingGoesOn(cfg: Config, s: State, c: CallId)
    requires Reachable(cfg, s)
    ensures InPhase(s, c, Prepared) <==> Enabled(s, Register(c))
    ensures InPhase(s, c, Waiting) <==> Enabled(s, Receive(c)) || Enabled(s, Elapse(c))
  {
    var steps :| Run(cfg, steps) == Some(s);
    AlwaysChannelled(cfg, steps);
  }

  lemma RunningStep(cfg: Config, s: State, t: Step)
    requires Enabled(s, t)
    ensures Perform(cfg, s, t).dispatcher.Running? <==> s.dispatcher.Running? && !t.StreamEnds? && !t.Abort?
  {
  }

  lemma {:induction false} RunsUntil(cfg: Config, steps: seq<Step>)
    requires Run(cfg, steps).Some?
    ensures Run(cfg, steps).value.dispatcher.Running?
            <==> forall k :: 0 <= k < |steps| ==> !steps[k].StreamEnds? && !steps[k].Abort?
    decreases |steps|
  {
    if steps != [] {
      var n := |steps| - 1;
      RunsUntil(cfg, steps[..n]);
      RunningStep(cfg, Run(cfg, steps[..n]).value, steps[n]);
      assert steps == steps[..n] + [steps[n]];
    }
  }

  /** The dispatcher works until the stream ends or it is aborted: it reads the next event unless it holds an entry for
      the auth handler, and then waits for that to return. */
  lemma DispatcherRuns(cfg: Config, steps: seq<Step>, e: Event, ok: bool)
    requires Run(cfg, steps).Some?
    ensures var s := Run(cfg, steps).value;
            var runs := forall k :: 0 <= k < |steps| ==> !steps[k].StreamEnds? && !steps[k].Abort?;
            && (Enabled(s, Read(e)) <==> runs && s.hand.None?)
            && (Enabled(s, StreamEnds) <==> runs && s.hand.None?)
            && (Enabled(s, HandlerReturns(ok)) <==> runs && s.hand.Some?)
            && (Enabled(s, Abort) <==> runs)
  {
    RunsUntil(cfg, steps);
  }
}
