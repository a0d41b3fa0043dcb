/** Where a NIP-47 call stands, from the steps of its run, and that it can always go on. */
module WalletPhases {
  import opened Bytes
  import opened Filters
  import opened Oneshot
  import opened Wallet

  /** The step belongs to call `c`. */
  predicate Concerns(t: Step, c: CallId) {
    match t
    case Register(d, _) => d == c
    case Publish(d, _) => d == c
    case Receive(d) => d == c
    case Elapse(d) => d == c
    case CleanUp(d) => d == c
    case Abandon(d) => d == c
    case _ => false
  }

  /** The step is the last of its call. */
  predicate Leaves(t: Step) {
    t.Receive? || t.CleanUp? || t.Abandon? || (t.Publish? && !t.result.Accepted?)
  }

  /** Where a step leaves its call. */
  predicate PhaseAfter(t: Step, p: Phase) {
    match t
    case Register(_, _) => p == Registered
    case Publish(_, Accepted) => p == Waiting
    case Publish(_, TotalFailure) => p == Finished(PublishFailed)
    case Publish(_, Refused) => p == Finished(PoolRefused)
    case Receive(_) => p == Finished(ChannelClosed) || (p.Finished? && p.outcome.Replied?)
    case Elapse(_) => p == Expired
    case CleanUp(_) => p == Finished(TimedOut)
    case Abandon(_) => p == Finished(Abandoned)
    case _ => false
  }

  lemma ConcernedStep(cfg: Config, s: State, t: Step, c: CallId)
    requires Enabled(s, t) && Concerns(t, c)
    ensures c in Perform(cfg, s, t).calls && PhaseAfter(t, Perform(cfg, s, t).calls[c].phase)
    ensures c in s.calls ==> !s.calls[c].phase.Finished?
  {
  }

  lemma UnconcernedStep(cfg: Config, s: State, t: Step, c: CallId)
    requires Enabled(s, t) && !Concerns(t, c)
    ensures c in Perform(cfg, s, t).calls <==> c in s.calls
    ensures c in s.calls ==> Perform(cfg, s, t).calls[c] == s.calls[c]
  {
  }

  /** `k` is the last step of `c` so far, and none before it was a final one; below 0 there was none. */
  ghost predicate LastOf(steps: seq<Step>, c: CallId, k: int) {
    && -1 <= k < |steps| && (k >= 0 ==> Concerns(steps[k], c))
    && (forall j :: k < j < |steps| ==> !Concerns(steps[j], c))
    && (forall j :: 0 <= j < k && Concerns(steps[j], c) ==> !Leaves(steps[j]))
  }

  /** In every run the phase of a call is the one its last step left it in; a call ends at most once, and nothing
      happens to it afterwards. */
  lemma {:induction false} PhaseIsLastStep(cfg: Config, steps: seq<Step>, c: CallId) returns (k: int)
    requires Run(cfg, steps).Some?
    ensures LastOf(steps, c, k)
    ensures k < 0 <==> c !in Run(cfg, steps).value.calls
    ensures k >= 0 ==> PhaseAfter(steps[k], Run(cfg, steps).value.calls[c].phase)
    decreases |steps|
  {
    if steps == [] {
      k := -1;
    } else {
      var n := |steps| - 1;
      var front, t := steps[..n], steps[n];
      k := PhaseIsLastStep(cfg, front, c);
      var s := Run(cfg, front).value;
      LastStep(front, t, c, k);
      if Concerns(t, c) {
        ConcernedStep(cfg, s, t, c);
        assert k >= 0 ==> !Leaves(front[k]);
        k := n;
      } else {
        UnconcernedStep(cfg, s, t, c);
      }
      assert front + [t] == steps;
    }
  }

  lemma LastStep(front: seq<Step>, t: Step, c: CallId, k: int)
    requires LastOf(front, c, k)
    ensures !Concerns(t, c) ==> LastOf(front + [t], c, k)
    ensures Concerns(t, c) && (k >= 0 ==> !Leaves(front[k])) ==> LastOf(front + [t], c, |front|)
  {
  }

  /** From every reachable state each call can go on: publish once registered, then either receive or time out, and
      clean up after that; it can be abandoned at any time, and new calls can register under any id. */
  lemma NeverStuck(cfg: Config, s: State, c: CallId, id: RequestId, result: PublishResult)
    requires Reachable(cfg, s)
    ensures c !in s.calls <==> Enabled(s, Register(c, id))
    ensures InPhase(s, c, Registered) <==> Enabled(s, Publish(c, result))
    ensures InPhase(s, c, Waiting) <==> Enabled(s, Receive(c)) || Enabled(s, Elapse(c))
    ensures !(Enabled(s, Receive(c)) && Enabled(s, Elapse(c)))
    ensures InPhase(s, c, Expired) <==> Enabled(s, CleanUp(c))
    ensures c in s.calls && !s.calls[c].phase.Finished? <==> Enabled(s, Abandon(c))
  {
    ReachableInv(cfg, s);
  }

  /** The dispatcher reads until the stream ends or it is aborted, whichever comes first. */
  lemma {:induction false} DispatcherRuns(cfg: Config, steps: seq<Step>, e: Event)
    requires Run(cfg, steps).Some?
    ensures var s := Run(cfg, steps).value;
            && (Enabled(s, Read(e)) <==> forall k :: 0 <= k < |steps| ==> !steps[k].StreamEnds? && !steps[k].Abort?)
            && (Enabled(s, Read(e)) <==> Enabled(s, StreamEnds)) && (Enabled(s, Read(e)) <==> Enabled(s, Abort))
    decreases |steps|
  {
    if steps != [] {
      DispatcherRuns(cfg, steps[..|steps| - 1], e);
      assert steps == steps[..|steps| - 1] + [steps[|steps| - 1]];
    }
  }
}
