/** What a NIP-47 call returns, from the steps of its run alone. */
module WalletRuns {
  import opened Bytes
  import opened Filters
  import opened Oneshot
  import opened Wallet

  /** What an ending step tells the caller of `id`. */
  function EndReply(cfg: Config, id: RequestId, t: Step): Option<Reply> {
    if t.StreamEnds? then Some(DispatcherDown)
    else if t.Read? && Answers(cfg, t.event).Some? && Answers(cfg, t.event).value.0 == id then
      Some(Response(Answers(cfg, t.event).value.1))
    else None
  }

  /** The reply of the first ending step, if there was one. */
  function Answer(cfg: Config, id: RequestId, since: seq<Step>): Option<Reply> {
    if since == [] then None
    else
      var before := Answer(cfg, id, since[..|since| - 1]);
      if before.Some? then before else EndReply(cfg, id, since[|since| - 1])
  }

  lemma AnswerSnoc(cfg: Config, id: RequestId, since: seq<Step>, t: Step)
    ensures Answer(cfg, id, since + [t])
            == if Answer(cfg, id, since).Some? then Answer(cfg, id, since) else EndReply(cfg, id, t)
  {
    assert (since + [t])[..|since|] == since;
  }

  /** The channel of a call shows the first ending step since its registration. */
  ghost predicate Shows(cfg: Config, s: State, c: CallId, since: seq<Step>) {
    && c in s.calls && c in s.chans
    && (!Withdrawn(s, c) ==>
          s.chans[c] == match Answer(cfg, s.calls[c].id, since) case None => Open case Some(r) => Sent(r))
  }

  lemma ShowsRead(cfg: Config, s: State, e: Event, c: CallId)
    requires Linear(s) && Enabled(s, Read(e)) && c in s.calls && c in s.chans && s.chans[c].Open?
    ensures c in Perform(cfg, s, Read(e)).chans
    ensures Perform(cfg, s, Read(e)).chans[c]
            == match EndReply(cfg, s.calls[c].id, Read(e)) case None => Open case Some(r) => Sent(r)
  {
  }

  lemma ShowsEnd(cfg: Config, s: State, c: CallId)
    requires Linear(s) && Enabled(s, StreamEnds) && c in s.calls && c in s.chans && s.chans[c].Open?
    ensures c in Perform(cfg, s, StreamEnds).chans && Perform(cfg, s, StreamEnds).chans[c] == Sent(DispatcherDown)
  {
    assert s.pending[s.calls[c].id] == c;
  }

  /** Any other step leaves an open channel open, unless the call withdraws. */
  lemma ShowsOther(cfg: Config, s: State, t: Step, c: CallId)
    requires Linear(s) && Enabled(s, t) && DistinctIds(s) && DistinctIds(Perform(cfg, s, t))
    requires c in s.calls && c in s.chans && s.chans[c].Open? && !t.Read? && !t.StreamEnds?
    ensures c in Perform(cfg, s, t).chans
    ensures !Withdrawn(Perform(cfg, s, t), c) ==> Perform(cfg, s, t).chans[c].Open?
  {
    LinearStep(cfg, s, t);
    EntryStep(cfg, s, t, c);
    PhaseStep(cfg, s, t, c);
    var r := Perform(cfg, s, t);
    if !Withdrawn(r, c) {
      assert !Withdrawn(s, c);
      assert s.calls[c].id in r.pending;
      assert r.calls[r.pending[s.calls[c].id]].id == s.calls[c].id;
    }
  }

  lemma ShowsStep(cfg: Config, s: State, t: Step, c: CallId, since: seq<Step>)
    requires Linear(s) && DistinctIds(s) && Enabled(s, t) && DistinctIds(Perform(cfg, s, t)) && Shows(cfg, s, c, since)
    ensures Shows(cfg, Perform(cfg, s, t), c, since + [t])
  {
    LinearStep(cfg, s, t);
    PhaseStep(cfg, s, t, c);
    AnswerSnoc(cfg, s.calls[c].id, since, t);
    if s.chans[c].Open? && !Withdrawn(s, c) {
      match t
      case Read(e) => ShowsRead(cfg, s, e, c);
      case StreamEnds => ShowsEnd(cfg, s, c);
      case _ => ShowsOther(cfg, s, t, c);
    }
  }

  lemma ShowsFirst(cfg: Config, s: State, c: CallId, id: RequestId)
    requires Enabled(s, Register(c, id))
    ensures Shows(cfg, Perform(cfg, s, Register(c, id)), c, [])
  {
  }

  lemma {:induction false} AlwaysShows(cfg: Config, steps: seq<Step>, i: nat, c: CallId, id: RequestId)
    requires i < |steps| && steps[i] == Register(c, id) && Run(cfg, steps).Some? && DistinctIds(Run(cfg, steps).value)
    ensures Shows(cfg, Run(cfg, steps).value, c, steps[i + 1..]) && Run(cfg, steps).value.calls[c].id == id
    decreases |steps|
  {
    var n := |steps| - 1;
    var front, t := steps[..n], steps[n];
    var before := Run(cfg, front).value;
    if i < n {
      Invariant(cfg, front);
      DistinctBefore(cfg, before, t);
      AlwaysShows(cfg, front, i, c, id);
      ShowsStep(cfg, before, t, c, front[i + 1..]);
      PhaseStep(cfg, before, t, c);
      assert steps[i + 1..] == front[i + 1..] + [t];
    } else {
      ShowsFirst(cfg, before, c, id);
      assert steps[i + 1..] == [];
    }
  }

  // ----- what the caller returns -----

  /** The `k`-th step is the first to end the request. */
  ghost predicate FirstEnd(cfg: Config, id: RequestId, since: seq<Step>, k: int) {
    0 <= k < |since| && Ends(cfg, id, since[k]) && forall j :: 0 <= j < k ==> !Ends(cfg, id, since[j])
  }

  lemma EndReplyIff(cfg: Config, id: RequestId, t: Step)
    ensures EndReply(cfg, id, t).Some? <==> Ends(cfg, id, t)
  {
  }

  lemma {:induction false} AnswerIff(cfg: Config, id: RequestId, since: seq<Step>, r: Reply)
    ensures Answer(cfg, id, since) == Some(r)
            <==> exists k :: FirstEnd(cfg, id, since, k) && EndReply(cfg, id, since[k]) == Some(r)
    ensures Answer(cfg, id, since).None? <==> NeverEnded(cfg, id, since)
    decreases |since|
  {
    if since != [] {
      var n := |since| - 1;
      var front, t := since[..n], since[n];
      AnswerIff(cfg, id, front, r);
      EndReplyIff(cfg, id, t);
      assert since == front + [t];
      if Answer(cfg, id, front).Some? {
        FirstEndEarlier(cfg, id, front, t);
      } else {
        FirstEndLast(cfg, id, front, t);
      }
    }
  }

  lemma FirstEndEarlier(cfg: Config, id: RequestId, front: seq<Step>, t: Step)
    requires !NeverEnded(cfg, id, front)
    ensures !NeverEnded(cfg, id, front + [t])
    ensures forall k :: FirstEnd(cfg, id, front + [t], k) <==> FirstEnd(cfg, id, front, k)
    ensures forall k :: 0 <= k < |front| ==> (front + [t])[k] == front[k]
  {
    var j :| 0 <= j < |front| && Ends(cfg, id, front[j]);
    assert (front + [t])[j] == front[j];
    assert forall k :: 0 <= k < |front| ==> (front + [t])[k] == front[k];
  }

  lemma FirstEndLast(cfg: Config, id: RequestId, front: seq<Step>, t: Step)
    requires NeverEnded(cfg, id, front)
    ensures NeverEnded(cfg, id, front + [t]) <==> !Ends(cfg, id, t)
    ensures forall k :: FirstEnd(cfg, id, front + [t], k) <==> k == |front| && Ends(cfg, id, t)
  {
    assert forall k :: 0 <= k < |front| ==> (front + [t])[k] == front[k];
    assert (front + [t])[|front|] == t;
  }

  lemma ReceiveReturns(cfg: Config, s: State, c: CallId)
    requires Enabled(s, Receive(c)) && s.chans[c].Sent?
    ensures Perform(cfg, s, Receive(c)).calls[c].phase == Finished(Replied(s.chans[c].reply))
  {
  }

  /** In every run with distinct ids, a call that receives returns the body of the first event that carries one for its
      request, or the news of the stream's end if that came first, and nothing else. */
  lemma OutcomeIff(cfg: Config, steps: seq<Step>, i: nat, c: CallId, id: RequestId, body: Text)
    requires i < |steps| && steps[i] == Register(c, id)
    requires Run(cfg, steps + [Receive(c)]).Some? && DistinctIds(Run(cfg, steps + [Receive(c)]).value)
    ensures c in Run(cfg, steps + [Receive(c)]).value.calls
    ensures var p := Run(cfg, steps + [Receive(c)]).value.calls[c].phase;
            var since := steps[i + 1..];
            && (p == Finished(Replied(Response(body)))
                <==> exists k ::
                       FirstEnd(cfg, id, since, k) && since[k].Read? && Carries(cfg, since[k].event, id, body))
            && (p == Finished(Replied(DispatcherDown))
                <==> exists k :: FirstEnd(cfg, id, since, k) && since[k].StreamEnds?)
            && p.Finished? && p.outcome.Replied?
  {
    var all, since := steps + [Receive(c)], steps[i + 1..];
    assert all[..|steps|] == steps;
    var s := Run(cfg, steps).value;
    DistinctBefore(cfg, s, Receive(c));
    AlwaysShows(cfg, steps, i, c, id);
    ReceiveReturns(cfg, s, c);
    AnswerIff(cfg, id, since, Response(body));
    AnswerIff(cfg, id, since, DispatcherDown);
    forall k | 0 <= k < |since|
      ensures EndReply(cfg, id, since[k]) == Some(Response(body))
              <==> since[k].Read? && Carries(cfg, since[k].event, id, body)
      ensures EndReply(cfg, id, since[k]) == Some(DispatcherDown) <==> since[k].StreamEnds?
    {
      if since[k].Read? {
        AnswersIff(cfg, since[k].event, id, body);
      }
    }
  }

  /** The outcome of a call is final, so this is what the caller gets in every longer run. */
  lemma {:induction false} OutcomeStays(cfg: Config, steps: seq<Step>, k: nat, c: CallId)
    requires k <= |steps| && Run(cfg, steps).Some? && Run(cfg, steps[..k]).Some?
    requires c in Run(cfg, steps[..k]).value.calls && Run(cfg, steps[..k]).value.calls[c].phase.Finished?
    ensures c in Run(cfg, steps).value.calls
    ensures Run(cfg, steps).value.calls[c].phase == Run(cfg, steps[..k]).value.calls[c].phase
    decreases |steps|
  {
    if k == |steps| {
      assert steps[..k] == steps;
    } else {
      var n := |steps| - 1;
      assert steps[..n][..k] == steps[..k];
      OutcomeStays(cfg, steps[..n], k, c);
      PhaseStep(cfg, Run(cfg, steps[..n]).value, steps[n], c);
    }
  }

  /** And a wallet that answers is heard: register, publish, read, receive. */
  lemma ResponseReturned(cfg: Config, e: Event, id: RequestId, body: Text)
    requires Carries(cfg, e, id, body)
    ensures var steps := [Register(0, id), Publish(0, Accepted), Read(e), Receive(0)];
            && Run(cfg, steps).Some? && 0 in Run(cfg, steps).value.calls
            && Run(cfg, steps).value.calls[0].phase == Finished(Replied(Response(body)))
  {
    AnswersIff(cfg, e, id, body);
    var one, two := [Register(0, id)], [Register(0, id), Publish(0, Accepted)];
    var three := [Register(0, id), Publish(0, Accepted), Read(e)];
    var s1 := Perform(cfg, INITIAL, Register(0, id));
    RunOn(cfg, [], INITIAL, Register(0, id));
    assert [] + [Register(0, id)] == one && one + [Publish(0, Accepted)] == two && two + [Read(e)] == three;
    var s2 := Perform(cfg, s1, Publish(0, Accepted));
    RunOn(cfg, one, s1, Publish(0, Accepted));
    var s3 := Perform(cfg, s2, Read(e));
    RunOn(cfg, two, s2, Read(e));
    assert s3.chans[0] == Sent(Response(body)) && InPhase(s3, 0, Waiting);
    RunOn(cfg, three, s3, Receive(0));
    assert three + [Receive(0)] == [Register(0, id), Publish(0, Accepted), Read(e), Receive(0)];
  }

  lemma RunOn(cfg: Config, steps: seq<Step>, s: State, t: Step)
    requires Run(cfg, steps) == Some(s) && Enabled(s, t)
    ensures Run(cfg, steps + [t]) == Some(Perform(cfg, s, t))
  {
    assert (steps + [t])[..|steps|] == steps;
  }
}
