/** What whole NIP-46 runs do to one request: where its sender goes, and when it is left behind. */
module SignerRuns {
  import opened Bytes
  import opened Filters
  import opened Oneshot
  import opened Signer
  import opened SignerFacts

  /** `t` leads from `s` to `r`. */
  predicate Next(cfg: Config, s: State, t: Step, r: State) { Enabled(s, t) && r == Perform(cfg, s, t) }

  /** The states a run passes through: `tr[k]` before step `k`, and the last one at the end. */
  ghost predicate IsTrace(cfg: Config, steps: seq<Step>, tr: seq<State>) {
    && |tr| == |steps| + 1 && tr[0] == Initial(cfg.flow)
    && forall k {:trigger Next(cfg, tr[k], steps[k], tr[k + 1])} :: 0 <= k < |steps| ==>
         Next(cfg, tr[k], steps[k], tr[k + 1])
  }

  /** Every run has its trace, and every trace is of a run. */
  lemma {:induction false} TraceOf(cfg: Config, steps: seq<Step>) returns (tr: seq<State>)
    requires Run(cfg, steps).Some?
    ensures IsTrace(cfg, steps, tr) && tr[|steps|] == Run(cfg, steps).value
    decreases |steps|
  {
    if steps == [] {
      tr := [Initial(cfg.flow)];
    } else {
      var n := |steps| - 1;
      var front := TraceOf(cfg, steps[..n]);
      tr := front + [Run(cfg, steps).value];
      forall k | 0 <= k < |steps|
        ensures Next(cfg, tr[k], steps[k], tr[k + 1])
      {
        if k < n {
          assert Next(cfg, front[k], steps[..n][k], front[k + 1]);
        }
      }
    }
  }

  lemma RunOn(cfg: Config, steps: seq<Step>, s: State, t: Step)
    requires Run(cfg, steps) == Some(s) && Enabled(s, t)
    ensures Run(cfg, steps + [t]) == Some(Perform(cfg, s, t))
  {
    assert (steps + [t])[..|steps|] == steps;
  }

  lemma RunNext(cfg: Config, steps: seq<Step>, s: State, t: Step, r: State)
    requires Run(cfg, steps) == Some(s) && Next(cfg, s, t, r)
    ensures Run(cfg, steps + [t]) == Some(r)
  {
    RunOn(cfg, steps, s, t);
  }

  lemma {:induction false} TraceIsRun(cfg: Config, steps: seq<Step>, tr: seq<State>, k: nat)
    requires IsTrace(cfg, steps, tr) && k <= |steps|
    ensures Run(cfg, steps[..k]) == Some(tr[k])
    decreases k
  {
    if k > 0 {
      var n := k - 1;
      TraceIsRun(cfg, steps, tr, n);
      RunNext(cfg, steps[..n], tr[n], steps[n], tr[n + 1]);
      assert steps[..k] == steps[..n] + [steps[n]];
    }
  }

  lemma TraceInv(cfg: Config, steps: seq<Step>, tr: seq<State>, k: nat)
    requires IsTrace(cfg, steps, tr) && k <= |steps|
    ensures Inv(cfg, tr[k])
  {
    TraceIsRun(cfg, steps, tr, k);
    Invariant(cfg, steps[..k]);
  }

  lemma TraceLinear(cfg: Config, steps: seq<Step>, tr: seq<State>, k: nat)
    requires IsTrace(cfg, steps, tr) && k <= |steps|
    ensures Linear(tr[k])
  {
    TraceInv(cfg, steps, tr, k);
  }

  /** Request ids are not reused. */
  ghost predicate DistinctIds(s: State) {
    forall c, d :: c in s.calls && d in s.calls && s.calls[c].id == s.calls[d].id ==> c == d
  }

  // ----- an entry in the dispatcher's hand -----

  /** `e` sends the request `id` of method `rpc` on an `auth_url` detour. */
  predicate Detours(cfg: Config, id: RequestId, rpc: Method, e: Event) {
    cfg.handler && ResponseIn(cfg, e).Some? && ResponseIn(cfg, e).value.id == id
    && Decode(cfg, rpc, ResponseIn(cfg, e).value.result, ResponseIn(cfg, e).value.error).Detour?
  }

  lemma DetourTakes(cfg: Config, s: State, e: Event, r: State, id: RequestId)
    requires Next(cfg, s, Read(e), r) && id in s.pending && Detours(cfg, id, s.pending[id].rpc, e)
    ensures r.hand == Some(Held(id, s.pending[id])) && id !in r.pending
  {
  }

  /** The step neither ends the wait for the handler nor aborts the dispatcher. */
  predicate Waits(t: Step) { !t.HandlerReturns? && !t.Abort? }

  /** While the handler is awaited nothing but its return and an abort touches the hand. */
  lemma HandKept(cfg: Config, s: State, t: Step, r: State)
    requires Next(cfg, s, t, r) && s.hand.Some? && Waits(t)
    ensures r.hand == s.hand
  {
  }

  /** A dispatcher that is still running was never ended or aborted. */
  lemma RunningBefore(cfg: Config, s: State, t: Step, r: State)
    requires Next(cfg, s, t, r) && r.dispatcher.Running?
    ensures s.dispatcher.Running? && !t.Abort?
  {
  }

  lemma {:induction false} RunningThroughout(cfg: Config, steps: seq<Step>, tr: seq<State>, k: nat, j: nat)
    requires IsTrace(cfg, steps, tr) && k <= j <= |steps| && tr[j].dispatcher.Running?
    ensures tr[k].dispatcher.Running? && (k < j ==> !steps[k].Abort?)
    decreases j - k
  {
    if k < j {
      RunningThroughout(cfg, steps, tr, k + 1, j);
      RunningBefore(cfg, tr[k], steps[k], tr[k + 1]);
    }
  }

  /** The handler called for at step `i` returns at step `j`. */
  ghost predicate Awaited(steps: seq<Step>, i: nat, j: nat) {
    i < j < |steps| && steps[j].HandlerReturns? && forall k :: i < k < j ==> !steps[k].HandlerReturns?
  }

  lemma ReturnMeansRunning(cfg: Config, s: State, t: Step, r: State)
    requires Next(cfg, s, t, r) && t.HandlerReturns?
    ensures s.dispatcher.Running?
  {
  }

  /** Until then every step waits. */
  lemma WaitsUntil(cfg: Config, steps: seq<Step>, tr: seq<State>, i: nat, j: nat, k: nat)
    requires IsTrace(cfg, steps, tr) && Awaited(steps, i, j) && i < k < j
    ensures Waits(steps[k])
  {
    ReturnMeansRunning(cfg, tr[j], steps[j], tr[j + 1]);
    RunningThroughout(cfg, steps, tr, k, j);
  }

  lemma {:induction false} HeldWhileAwaited(
    cfg: Config, steps: seq<Step>, tr: seq<State>, i: nat, j: nat, k: nat, h: Held)
    requires IsTrace(cfg, steps, tr) && Awaited(steps, i, j) && i < k <= j && tr[i + 1].hand == Some(h)
    ensures tr[k].hand == Some(h)
    decreases k
  {
    if k > i + 1 {
      var n := k - 1;
      HeldWhileAwaited(cfg, steps, tr, i, j, n, h);
      WaitsUntil(cfg, steps, tr, i, j, n);
      HandKept(cfg, tr[n], steps[n], tr[n + 1]);
    }
  }

  /** The step files a request under `id`. */
  predicate Files(s: State, t: Step, id: RequestId) { t.Register? && t.c in s.calls && s.calls[t.c].id == id }

  /** The step cancels the whole map. */
  predicate Cancels(t: Step) { t.Publish? && t.result == TotalFailure }

  lemma OccupiedStep(cfg: Config, s: State, t: Step, r: State, id: RequestId)
    requires Next(cfg, s, t, r) && s.hand.Some? && Waits(t)
    ensures id in r.pending <==> Files(s, t, id) || (id in s.pending && !Cancels(t))
  {
  }

  /** Between `i` and `j` a request was filed under `id` and the map was not cancelled since. */
  ghost predicate Refiled(steps: seq<Step>, tr: seq<State>, i: nat, j: nat, id: RequestId)
    requires j <= |steps| && |tr| == |steps| + 1
  {
    exists k :: i < k < j && Files(tr[k], steps[k], id) && NoCancel(steps, k, j)
  }

  ghost predicate NoCancel(steps: seq<Step>, k: nat, j: nat)
    requires j <= |steps|
  {
    forall l :: k < l < j ==> !Cancels(steps[l])
  }

  lemma {:induction false} OccupiedIff(
    cfg: Config, steps: seq<Step>, tr: seq<State>, i: nat, j: nat, m: nat, id: RequestId, h: Held)
    requires IsTrace(cfg, steps, tr) && Awaited(steps, i, j) && i < m <= j
    requires tr[i + 1].hand == Some(h) && id !in tr[i + 1].pending
    ensures id in tr[m].pending <==> Refiled(steps, tr, i, m, id)
    decreases m
  {
    if m > i + 1 {
      var n := m - 1;
      OccupiedIff(cfg, steps, tr, i, j, n, id, h);
      HeldWhileAwaited(cfg, steps, tr, i, j, n, h);
      WaitsUntil(cfg, steps, tr, i, j, n);
      OccupiedStep(cfg, tr[n], steps[n], tr[n + 1], id);
      RefiledStep(steps, tr, i, n, id);
    }
  }

  lemma RefiledStep(steps: seq<Step>, tr: seq<State>, i: nat, n: nat, id: RequestId)
    requires |tr| == |steps| + 1 && i < n < |steps|
    ensures Refiled(steps, tr, i, n + 1, id)
            <==> Files(tr[n], steps[n], id) || (Refiled(steps, tr, i, n, id) && !Cancels(steps[n]))
  {
    if Files(tr[n], steps[n], id) {
      assert NoCancel(steps, n, n + 1);
    } else if Refiled(steps, tr, i, n, id) && !Cancels(steps[n]) {
      var k :| i < k < n && Files(tr[k], steps[k], id) && NoCancel(steps, k, n);
      assert NoCancel(steps, k, n + 1);
    }
    if Refiled(steps, tr, i, n + 1, id) && !Files(tr[n], steps[n], id) {
      var k :| i < k < n + 1 && Files(tr[k], steps[k], id) && NoCancel(steps, k, n + 1);
      assert NoCancel(steps, k, n);
    }
  }

  /** From any state with a full hand, an approving return parks the held entry with its channel open; what stood under
      the id meanwhile is dropped. */
  ghost predicate Parks(s: State, r: State, h: Held) {
    && r.hand == None && r.calls == s.calls && r.pending == s.pending[h.id := h.entry]
    && h.entry.c in r.chans && r.chans[h.entry.c].Open?
    && (h.id !in s.pending ==> r.chans == s.chans)
    && (h.id in s.pending ==>
          var d := s.pending[h.id].c;
          d != h.entry.c && d in s.chans && s.chans[d].Open? && r.chans == s.chans[d := Dropped])
  }

  lemma Parking(cfg: Config, s: State, r: State, h: Held)
    requires Linear(s) && Next(cfg, s, HandlerReturns(true), r) && s.hand == Some(h)
    ensures Parks(s, r, h)
  {
    assert InHand(s, h.entry.c);
    if h.id in s.pending {
      assert InMap(s, s.pending[h.id].c);
    }
  }

  /** With distinct ids nothing can have taken the place of the held entry. */
  lemma PlaceIsFree(s: State)
    requires Linear(s) && DistinctIds(s) && s.hand.Some?
    ensures s.hand.value.id !in s.pending
  {
    var h := s.hand.value;
    assert InHand(s, h.entry.c);
    if h.id in s.pending {
      assert InMap(s, s.pending[h.id].c);
    }
  }

  /** In every run: an entry sent on an `auth_url` detour at step `i` is, whatever happens until the handler approves at
      step `j`, back under its id with the same method and sender and its channel still open. Parking drops another
      request exactly if one was filed under the id in between and the map was not cancelled since, which distinct ids
      rule out; nothing else moves. */
  lemma DetourParks(cfg: Config, steps: seq<Step>, tr: seq<State>, i: nat, j: nat, id: RequestId)
    requires IsTrace(cfg, steps, tr) && Awaited(steps, i, j) && steps[j] == HandlerReturns(true)
    requires steps[i].Read? && id in tr[i].pending && Detours(cfg, id, tr[i].pending[id].rpc, steps[i].event)
    ensures Parks(tr[j], tr[j + 1], Held(id, tr[i].pending[id]))
    ensures id in tr[j].pending <==> Refiled(steps, tr, i, j, id)
    ensures DistinctIds(tr[j]) ==> id !in tr[j].pending
  {
    var h := Held(id, tr[i].pending[id]);
    DetourTakes(cfg, tr[i], steps[i].event, tr[i + 1], id);
    HeldWhileAwaited(cfg, steps, tr, i, j, j, h);
    OccupiedIff(cfg, steps, tr, i, j, j, id, h);
    TraceInv(cfg, steps, tr, j);
    Parking(cfg, tr[j], tr[j + 1], h);
    if DistinctIds(tr[j]) {
      PlaceIsFree(tr[j]);
    }
  }

  // ----- when a sender is gone -----

  /** The sender is still in the map or in the dispatcher's hand. */
  predicate Alive(s: State, c: CallId) { InMap(s, c) || InHand(s, c) }

  /** Reading `e` answers the request `id` of method `rpc` one way or another, instead of sending it on a detour. */
  predicate Answers(cfg: Config, id: RequestId, rpc: Method, e: Event) {
    ResponseIn(cfg, e).Some? && ResponseIn(cfg, e).value.id == id && !Detours(cfg, id, rpc, e)
  }

  /** Whether a step spends the sender of the request, given whether the dispatcher holds it: an answer, a failed
      handler return or an abort while it is held, a total failure while it is not, and the end of the stream. */
  predicate Spends(cfg: Config, id: RequestId, rpc: Method, held: bool, t: Step) {
    match t
    case Read(e) => Answers(cfg, id, rpc, e)
    case HandlerReturns(ok) => held && !ok
    case Publish(_, result) => result == TotalFailure && !held
    case StreamEnds => true
    case Abort => held
    case _ => false
  }

  predicate HeldAfter(cfg: Config, id: RequestId, rpc: Method, held: bool, t: Step) {
    match t
    case Read(e) => Detours(cfg, id, rpc, e)
    case HandlerReturns(_) => false
    case Abort => false
    case _ => held
  }

  /** Whether the dispatcher holds the request, read off the steps since its registration. */
  predicate HeldBy(cfg: Config, id: RequestId, rpc: Method, since: seq<Step>) {
    since != [] && HeldAfter(cfg, id, rpc, HeldBy(cfg, id, rpc, since[..|since| - 1]), since[|since| - 1])
  }

  /** No step since the registration spent the sender. */
  ghost predicate Unspent(cfg: Config, id: RequestId, rpc: Method, since: seq<Step>) {
    forall k :: 0 <= k < |since| ==> !Spends(cfg, id, rpc, HeldBy(cfg, id, rpc, since[..k]), since[k])
  }

  lemma UnspentStep(cfg: Config, id: RequestId, rpc: Method, since: seq<Step>, t: Step)
    ensures Unspent(cfg, id, rpc, since + [t])
            <==> Unspent(cfg, id, rpc, since) && !Spends(cfg, id, rpc, HeldBy(cfg, id, rpc, since), t)
    ensures HeldBy(cfg, id, rpc, since + [t]) == HeldAfter(cfg, id, rpc, HeldBy(cfg, id, rpc, since), t)
  {
    var more := since + [t];
    assert more[..|since|] == since && more[|since|] == t;
    forall k | 0 <= k < |since|
      ensures more[..k] == since[..k] && more[k] == since[k]
    {
    }
  }

  /** A spent sender stays spent. */
  lemma SpentStaysSpent(cfg: Config, s: State, t: Step, r: State, c: CallId)
    requires Linear(s) && Next(cfg, s, t, r) && c in s.chans && !Alive(s, c)
    ensures c in r.chans && !Alive(r, c)
  {
    LinearStep(cfg, s, t);
  }

  /** A response to the request itself. */
  lemma ReadOwn(cfg: Config, s: State, e: Event, r: State, c: CallId)
    requires Next(cfg, s, Read(e), r) && InMap(s, c) && s.pending[s.calls[c].id].rpc == s.calls[c].rpc
    requires ResponseIn(cfg, e).Some? && ResponseIn(cfg, e).value.id == s.calls[c].id
    ensures (Alive(r, c) <==> Detours(cfg, s.calls[c].id, s.calls[c].rpc, e))
            && (InHand(r, c) <==> Detours(cfg, s.calls[c].id, s.calls[c].rpc, e))
  {
  }

  /** Any other event. */
  lemma ReadOther(cfg: Config, s: State, e: Event, r: State, c: CallId)
    requires Linear(s) && Next(cfg, s, Read(e), r) && InMap(s, c)
    requires ResponseIn(cfg, e).None? || ResponseIn(cfg, e).value.id != s.calls[c].id
    ensures InMap(r, c) && !InHand(r, c)
  {
    var id := if ResponseIn(cfg, e).Some? then ResponseIn(cfg, e).value.id else s.calls[c].id;
    assert id in s.pending ==> Owned(s, id, s.pending[id]);
  }

  lemma AliveRead(cfg: Config, s: State, e: Event, r: State, c: CallId)
    requires Linear(s) && Next(cfg, s, Read(e), r) && c in s.chans && Alive(s, c)
    ensures var k := s.calls[c];
            && (Alive(r, c) <==> !Answers(cfg, k.id, k.rpc, e))
            && (InHand(r, c) <==> Detours(cfg, k.id, k.rpc, e))
  {
    assert InMap(s, c) && Owned(s, s.calls[c].id, s.pending[s.calls[c].id]);
    if ResponseIn(cfg, e).Some? && ResponseIn(cfg, e).value.id == s.calls[c].id {
      ReadOwn(cfg, s, e, r, c);
    } else {
      ReadOther(cfg, s, e, r, c);
    }
  }

  lemma AliveReturn(cfg: Config, s: State, ok: bool, r: State, c: CallId)
    requires Linear(s) && DistinctIds(s) && Next(cfg, s, HandlerReturns(ok), r) && c in s.chans && Alive(s, c)
    ensures (Alive(r, c) <==> !(InHand(s, c) && !ok)) && !InHand(r, c)
  {
    var h := s.hand.value;
    PlaceIsFree(s);
    assert Owned(s, h.id, h.entry);
    if InMap(s, c) {
      assert h.id != s.calls[c].id;
    }
  }

  lemma AliveCancel(cfg: Config, s: State, t: Step, r: State, c: CallId)
    requires Linear(s) && Next(cfg, s, t, r) && Cancels(t) && c in s.chans
    ensures (Alive(r, c) <==> InHand(s, c)) && (InHand(r, c) <==> InHand(s, c))
  {
    SurvivorsIff(cfg, s, t.c, c);
    LinearStep(cfg, s, t);
  }

  lemma AliveRegister(cfg: Config, s: State, d: CallId, r: State, c: CallId)
    requires DistinctIds(s) && Next(cfg, s, Register(d), r) && c in s.chans && c in s.calls
    ensures (InMap(r, c) <==> InMap(s, c)) && (InHand(r, c) <==> InHand(s, c))
  {
    assert s.calls[d].id != s.calls[c].id;
  }

  lemma AliveTeardown(cfg: Config, s: State, t: Step, r: State, c: CallId)
    requires Next(cfg, s, t, r) && (t.StreamEnds? || t.Abort?) && c in s.chans && Alive(s, c)
    requires !(InMap(s, c) && InHand(s, c))
    ensures Alive(r, c) <==> t.Abort? && !InHand(s, c)
    ensures Alive(r, c) ==> !InHand(r, c)
  {
  }

  lemma AliveCall(cfg: Config, s: State, t: Step, r: State, c: CallId)
    requires Next(cfg, s, t, r) && c in s.chans && c in s.calls && !Cancels(t)
    requires t.Begin? || t.Publish? || t.Receive? || t.Elapse? || t.Abandon?
    ensures (InMap(r, c) <==> InMap(s, c)) && (InHand(r, c) <==> InHand(s, c))
  {
  }

  lemma AliveOther(cfg: Config, s: State, t: Step, r: State, c: CallId)
    requires Linear(s) && DistinctIds(s) && Next(cfg, s, t, r) && c in s.chans && Alive(s, c)
    requires !t.Read? && !t.HandlerReturns? && !Cancels(t)
    ensures Alive(r, c) <==> !t.StreamEnds? && !(t.Abort? && InHand(s, c))
    ensures Alive(r, c) ==> (InHand(r, c) <==> InHand(s, c))
  {
    if t.Register? {
      AliveRegister(cfg, s, t.c, r, c);
    } else if t.StreamEnds? || t.Abort? {
      AliveTeardown(cfg, s, t, r, c);
    } else {
      AliveCall(cfg, s, t, r, c);
    }
  }

  /** One step's effect on a live sender. */
  lemma AliveStep(cfg: Config, s: State, t: Step, r: State, c: CallId)
    requires Linear(s) && DistinctIds(s) && Next(cfg, s, t, r) && c in s.chans && Alive(s, c)
    ensures var k := s.calls[c];
            && (Alive(r, c) <==> !Spends(cfg, k.id, k.rpc, InHand(s, c), t))
            && (Alive(r, c) ==> (InHand(r, c) <==> HeldAfter(cfg, k.id, k.rpc, InHand(s, c), t)))
  {
    match t
    case Read(e) => AliveRead(cfg, s, e, r, c);
    case HandlerReturns(ok) => AliveReturn(cfg, s, ok, r, c);
    case _ =>
      if Cancels(t) {
        AliveCancel(cfg, s, t, r, c);
      } else {
        AliveOther(cfg, s, t, r, c);
      }
  }

  lemma DistinctBefore(cfg: Config, s: State, t: Step, r: State)
    requires Next(cfg, s, t, r) && DistinctIds(r)
    ensures DistinctIds(s)
  {
    forall c | c in s.calls
      ensures c in r.calls && r.calls[c].id == s.calls[c].id
    {
      CallKept(cfg, s, t, c);
    }
  }

  lemma Registration(cfg: Config, s: State, c: CallId, r: State)
    requires Linear(s) && Next(cfg, s, Register(c), r)
    ensures c in r.calls && c in r.chans && InMap(r, c) && !InHand(r, c)
  {
    LinearStep(cfg, s, Register(c));
  }

  /** The sender is alive exactly if no step of `since` spent it, and held exactly if they say so. */
  ghost predicate Tracked(cfg: Config, s: State, c: CallId, since: seq<Step>) {
    && c in s.calls && c in s.chans
    && (Alive(s, c) <==> Unspent(cfg, s.calls[c].id, s.calls[c].rpc, since))
    && (Alive(s, c) ==> (InHand(s, c) <==> HeldBy(cfg, s.calls[c].id, s.calls[c].rpc, since)))
  }

  lemma TrackedStep(cfg: Config, s: State, t: Step, r: State, c: CallId, since: seq<Step>)
    requires Linear(s) && DistinctIds(s) && Next(cfg, s, t, r) && Tracked(cfg, s, c, since)
    ensures Tracked(cfg, r, c, since + [t])
  {
    CallKept(cfg, s, t, c);
    UnspentStep(cfg, s.calls[c].id, s.calls[c].rpc, since, t);
    if Alive(s, c) {
      AliveStep(cfg, s, t, r, c);
      LinearStep(cfg, s, t);
    } else {
      SpentStaysSpent(cfg, s, t, r, c);
    }
  }

  lemma TrackedFirst(cfg: Config, s: State, c: CallId, r: State)
    requires Linear(s) && Next(cfg, s, Register(c), r)
    ensures Tracked(cfg, r, c, [])
  {
    Registration(cfg, s, c, r);
  }

  /** In every run with distinct ids, the sender of a request registered at step `i` is still in the map or in the
      dispatcher's hand if and only if no step since then spent it, and which of the two can be read off the steps. */
  lemma {:induction false} SenderGoneIff(cfg: Config, steps: seq<Step>, tr: seq<State>, i: nat, n: nat, c: CallId)
    requires IsTrace(cfg, steps, tr) && i < n <= |steps| && steps[i] == Register(c) && DistinctIds(tr[n])
    ensures Tracked(cfg, tr[n], c, steps[i + 1..n])
    decreases n
  {
    var m := n - 1;
    SliceSnoc(steps, i + 1, m);
    if m == i {
      TrackedAt(cfg, steps, tr, m, c, []);
    } else {
      DistinctAt(cfg, steps, tr, m);
      SenderGoneIff(cfg, steps, tr, i, m, c);
      TrackedAt(cfg, steps, tr, m, c, steps[i + 1..m]);
    }
  }

  lemma SliceSnoc(steps: seq<Step>, a: nat, m: nat)
    requires a <= m + 1 <= |steps|
    ensures steps[a..m + 1] == if a == m + 1 then [] else steps[a..m] + [steps[m]]
  {
  }

  lemma DistinctAt(cfg: Config, steps: seq<Step>, tr: seq<State>, m: nat)
    requires IsTrace(cfg, steps, tr) && m < |steps| && DistinctIds(tr[m + 1])
    ensures DistinctIds(tr[m])
  {
    DistinctBefore(cfg, tr[m], steps[m], tr[m + 1]);
  }

  lemma TrackedAt(cfg: Config, steps: seq<Step>, tr: seq<State>, m: nat, c: CallId, since: seq<Step>)
    requires IsTrace(cfg, steps, tr) && m < |steps| && DistinctIds(tr[m + 1])
    ensures steps[m] == Register(c) ==> Tracked(cfg, tr[m + 1], c, [])
    ensures Tracked(cfg, tr[m], c, since) ==> Tracked(cfg, tr[m + 1], c, since + [steps[m]])
  {
    TraceLinear(cfg, steps, tr, m);
    if steps[m] == Register(c) {
      TrackedFirst(cfg, tr[m], c, tr[m + 1]);
    }
    if Tracked(cfg, tr[m], c, since) {
      DistinctAt(cfg, steps, tr, m);
      TrackedStep(cfg, tr[m], steps[m], tr[m + 1], c, since);
    }
  }

  // ----- which calls leave their sender behind -----

  /** A call that heard from its channel found it used or dropped; one without a signer never had a channel, and any
      other one found a latched key. */
  ghost predicate Settled(s: State) {
    && (forall c :: c in s.calls && Heard(s.calls[c].phase) ==> c in s.chans && !s.chans[c].Open?)
    && (forall c :: c in s.calls && s.calls[c].phase == Finished(NoSigner) ==> c !in s.chans)
    && (forall c :: c in s.calls && s.calls[c].phase != Finished(NoSigner) ==> s.latch.Some?)
  }

  predicate Heard(p: Phase) { p.Finished? && (p.outcome.Replied? || p.outcome.ChannelClosed?) }

  lemma NewlyHeard(cfg: Config, s: State, t: Step, r: State, c: CallId)
    requires Next(cfg, s, t, r) && c in r.calls && Heard(r.calls[c].phase)
    requires (c in s.calls ==> !Heard(s.calls[c].phase))
    ensures c in s.chans && !s.chans[c].Open?
  {
  }

  lemma NoSignerStep(cfg: Config, s: State, t: Step, r: State, c: CallId)
    requires Next(cfg, s, t, r) && c in r.calls && r.calls[c].phase == Finished(NoSigner)
    requires c in s.calls && s.calls[c].phase == Finished(NoSigner) ==> c !in s.chans
    ensures c !in r.chans
  {
  }

  lemma KeyedStep(cfg: Config, s: State, t: Step, r: State, c: CallId)
    requires Next(cfg, s, t, r) && c in r.calls && r.calls[c].phase != Finished(NoSigner)
    ensures s.latch.Some? ==> r.latch.Some?
    ensures (c in s.calls && s.calls[c].phase != Finished(NoSigner)) || s.latch.Some?
  {
  }

  lemma SettledStep(cfg: Config, s: State, t: Step, r: State)
    requires Linear(s) && Settled(s) && Next(cfg, s, t, r)
    ensures Settled(r)
  {
    LinearStep(cfg, s, t);
    forall c | c in r.calls && Heard(r.calls[c].phase)
      ensures c in r.chans && !r.chans[c].Open?
    {
      if !(c in s.calls && Heard(s.calls[c].phase)) {
        NewlyHeard(cfg, s, t, r, c);
      }
    }
    forall c | c in r.calls && r.calls[c].phase == Finished(NoSigner)
      ensures c !in r.chans
    {
      NoSignerStep(cfg, s, t, r, c);
    }
    forall c | c in r.calls && r.calls[c].phase != Finished(NoSigner)
      ensures r.latch.Some?
    {
      KeyedStep(cfg, s, t, r, c);
    }
  }

  lemma {:induction false} AlwaysSettled(cfg: Config, steps: seq<Step>, tr: seq<State>, k: nat)
    requires IsTrace(cfg, steps, tr) && k <= |steps|
    ensures Settled(tr[k])
    decreases k
  {
    if k > 0 {
      var n := k - 1;
      AlwaysSettled(cfg, steps, tr, n);
      TraceInv(cfg, steps, tr, n);
      SettledStep(cfg, tr[n], steps[n], tr[n + 1]);
    }
  }

  /** A finished call whose sender is still around never heard from its channel: it timed out, was abandoned, was
      refused by the pool, or failed to publish while the dispatcher held it. */
  lemma LeftBehindBy(cfg: Config, steps: seq<Step>, tr: seq<State>, i: nat, n: nat, c: CallId)
    requires IsTrace(cfg, steps, tr) && i < n <= |steps| && steps[i] == Register(c) && DistinctIds(tr[n])
    requires c in tr[n].calls && tr[n].calls[c].phase.Finished? && Alive(tr[n], c)
    ensures tr[n].calls[c].phase.outcome in {TimedOut, Abandoned, PoolRefused, PublishFailed}
    ensures forall k :: i < k < n && Cancels(steps[k]) ==>
              HeldBy(cfg, tr[n].calls[c].id, tr[n].calls[c].rpc, steps[i + 1..k])
  {
    AlwaysSettled(cfg, steps, tr, n);
    TraceLinear(cfg, steps, tr, n);
    SenderGoneIff(cfg, steps, tr, i, n, c);
    forall k | i < k < n && Cancels(steps[k])
      ensures HeldBy(cfg, tr[n].calls[c].id, tr[n].calls[c].rpc, steps[i + 1..k])
    {
      CancelledWhileHeld(cfg, tr[n].calls[c].id, tr[n].calls[c].rpc, steps, i, n, k);
    }
  }

  lemma CancelledWhileHeld(cfg: Config, id: RequestId, rpc: Method, steps: seq<Step>, i: nat, n: nat, k: nat)
    requires i < k < n <= |steps| && Cancels(steps[k]) && Unspent(cfg, id, rpc, steps[i + 1..n])
    ensures HeldBy(cfg, id, rpc, steps[i + 1..k])
  {
    var since := steps[i + 1..n];
    assert since[k - i - 1] == steps[k] && since[..k - i - 1] == steps[i + 1..k];
  }

  // ----- where a success comes from -----

  predicate Succeeded(s: State, c: CallId) {
    && c in s.calls && s.calls[c].phase.Finished?
    && s.calls[c].phase.outcome.Replied? && s.calls[c].phase.outcome.reply.Ok?
  }

  /** Reading `e` is what puts a success into the channel of `c`. */
  predicate Delivers(cfg: Config, s: State, e: Event, r: State, c: CallId) {
    && Next(cfg, s, Read(e), r) && c in s.chans && s.chans[c].Open?
    && c in r.chans && r.chans[c].Sent? && r.chans[c].reply.Ok?
  }

  lemma DeliveryFacts(cfg: Config, s: State, e: Event, r: State, c: CallId)
    requires Linear(s) && Delivers(cfg, s, e, r, c)
    ensures c in s.calls && Justifies(cfg, e, s.calls[c].id, s.calls[c].rpc, r.chans[c].reply.value)
  {
    NewSuccess(cfg, s, Read(e), c);
  }

  /** A success that is new in a channel was delivered there and then. */
  lemma NewlyDelivered(cfg: Config, s: State, t: Step, r: State, c: CallId)
    requires Linear(s) && Next(cfg, s, t, r) && c in r.chans && r.chans[c].Sent? && r.chans[c].reply.Ok?
    ensures c in s.chans && (s.chans[c] == r.chans[c] || (t.Read? && Delivers(cfg, s, t.event, r, c)))
  {
    NewSuccess(cfg, s, t, c);
    LinearStep(cfg, s, t);
  }

  /** The step whose delivery a channel still shows. */
  lemma {:induction false} DeliveryOf(cfg: Config, steps: seq<Step>, tr: seq<State>, n: nat, c: CallId)
    returns (k: nat)
    requires IsTrace(cfg, steps, tr) && n <= |steps|
    requires c in tr[n].chans && tr[n].chans[c].Sent? && tr[n].chans[c].reply.Ok?
    ensures k < n && steps[k].Read? && Delivers(cfg, tr[k], steps[k].event, tr[k + 1], c)
    ensures tr[k + 1].chans[c] == tr[n].chans[c]
    decreases n
  {
    k := n - 1;
    TraceLinear(cfg, steps, tr, k);
    NewlyDelivered(cfg, tr[k], steps[k], tr[k + 1], c);
    if tr[k].chans[c] == tr[n].chans[c] {
      k := DeliveryOf(cfg, steps, tr, k, c);
    }
  }

  lemma NewChannel(cfg: Config, s: State, t: Step, r: State, c: CallId)
    requires Next(cfg, s, t, r) && c in r.chans && c !in s.chans
    ensures t == Register(c)
  {
  }

  /** A channel goes back to its registration. */
  lemma {:induction false} RegistrationOf(cfg: Config, steps: seq<Step>, tr: seq<State>, n: nat, c: CallId)
    returns (i: nat)
    requires IsTrace(cfg, steps, tr) && n <= |steps| && c in tr[n].chans
    ensures i < n && steps[i] == Register(c)
    decreases n
  {
    i := n - 1;
    if c in tr[i].chans {
      i := RegistrationOf(cfg, steps, tr, i, c);
    } else {
      NewChannel(cfg, tr[i], steps[i], tr[i + 1], c);
    }
  }

  /** In every run, the success a caller returns was delivered by one event, read after the call registered and before
      it returned: a response with the call's own id that decodes to that success against its own method. */
  lemma SuccessDelivered(cfg: Config, steps: seq<Step>, tr: seq<State>, n: nat, c: CallId) returns (i: nat, k: nat)
    requires IsTrace(cfg, steps, tr) && n <= |steps| && Succeeded(tr[n], c)
    ensures i < k < n && steps[i] == Register(c) && steps[k].Read?
    ensures Delivers(cfg, tr[k], steps[k].event, tr[k + 1], c)
    ensures tr[k + 1].chans[c] == Sent(tr[n].calls[c].phase.outcome.reply)
    ensures var call := tr[n].calls[c];
            Justifies(cfg, steps[k].event, call.id, call.rpc, call.phase.outcome.reply.value)
  {
    TraceInv(cfg, steps, tr, n);
    k := DeliveryOf(cfg, steps, tr, n, c);
    i := RegistrationOf(cfg, steps, tr, k, c);
    TraceLinear(cfg, steps, tr, k);
    DeliveryFacts(cfg, tr[k], steps[k].event, tr[k + 1], c);
    SameCall(cfg, steps, tr, k, n, c);
  }

  /** A call keeps its id and its method. */
  lemma {:induction false} SameCall(cfg: Config, steps: seq<Step>, tr: seq<State>, k: nat, n: nat, c: CallId)
    requires IsTrace(cfg, steps, tr) && k <= n <= |steps| && c in tr[k].calls
    ensures c in tr[n].calls && tr[n].calls[c].id == tr[k].calls[c].id && tr[n].calls[c].rpc == tr[k].calls[c].rpc
    decreases n
  {
    if k < n {
      var m := n - 1;
      SameCall(cfg, steps, tr, k, m, c);
      assert Next(cfg, tr[m], steps[m], tr[m + 1]);
      CallKept(cfg, tr[m], steps[m], c);
    }
  }

  // ----- concrete runs -----

  /** Nothing has happened yet but that the key is known. */
  predicate Idle(s: State, k: PublicKey) {
    && s.latch == Some(k) && s.pending == map[] && s.chans == map[] && s.calls == map[]
    && s.hand == None && s.dispatcher == Running
  }

  /** A first request, registered and sent. */
  lemma FirstRequest(cfg: Config, pre: seq<Step>, s: State, k: PublicKey, id: RequestId, rpc: Method)
    returns (steps: seq<Step>, r: State)
    requires Run(cfg, pre) == Some(s) && Idle(s, k)
    ensures Run(cfg, steps) == Some(r) && r.calls == map[0 := Call(id, rpc, k, Waiting)]
    ensures r.pending == map[id := Entry(rpc, 0)]
    ensures r.chans == map[0 := Open] && r.latch == s.latch && r.hand == None && r.seen == s.seen
    ensures r.dispatcher == Running
  {
    var s1 := Perform(cfg, s, Begin(0, id, rpc));
    RunOn(cfg, pre, s, Begin(0, id, rpc));
    var s2 := Perform(cfg, s1, Register(0));
    RunOn(cfg, pre + [Begin(0, id, rpc)], s1, Register(0));
    r := Perform(cfg, s2, Publish(0, Accepted));
    RunOn(cfg, pre + [Begin(0, id, rpc)] + [Register(0)], s2, Publish(0, Accepted));
    steps := pre + [Begin(0, id, rpc)] + [Register(0)] + [Publish(0, Accepted)];
  }

  /** A timeout does leave it behind. */
  lemma TimeoutLeaks(cfg: Config, id: RequestId, rpc: Method)
    requires cfg.flow.Bunker?
    ensures exists s :: Reachable(cfg, s) && InMap(s, 0)
              && s.calls[0].id == id && s.calls[0].phase == Finished(TimedOut)
  {
    var steps, r := FirstRequest(cfg, [], Initial(cfg.flow), cfg.flow.key, id, rpc);
    RunOn(cfg, steps, r, Elapse(0));
    var s := Perform(cfg, r, Elapse(0));
    assert Reachable(cfg, s) && InMap(s, 0);
  }

  /** A second request whose publish fails on every relay cancels the first one, which was waiting for its answer. */
  lemma BystanderCancelled(cfg: Config, id: RequestId, rpc: Method, other: RequestId, otherRpc: Method)
    requires cfg.flow.Bunker? && id != other
    ensures exists s :: Reachable(cfg, s) && 0 in s.calls && s.calls[0].id == id && s.calls[0].phase == Waiting
                        && 0 in s.chans && s.chans[0] == Sent(Rejected(otherRpc))
  {
    var steps, s1 := FirstRequest(cfg, [], Initial(cfg.flow), cfg.flow.key, id, rpc);
    var s2 := Perform(cfg, s1, Begin(1, other, otherRpc));
    RunOn(cfg, steps, s1, Begin(1, other, otherRpc));
    var s3 := Perform(cfg, s2, Register(1));
    RunOn(cfg, steps + [Begin(1, other, otherRpc)], s2, Register(1));
    var s4 := Perform(cfg, s3, Publish(1, TotalFailure));
    RunOn(cfg, steps + [Begin(1, other, otherRpc)] + [Register(1)], s3, Publish(1, TotalFailure));
    assert Reachable(cfg, s4);
    assert s3.pending[id] == Entry(rpc, 0) && s3.chans[0] == Open;
    assert 0 in Senders(s3.pending);
  }
}
