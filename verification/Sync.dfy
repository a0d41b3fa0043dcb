/** The NIP-77 sync driver: a bounded reconciliation loop, then upload and download phases. The negentropy session,
    the relay, the database and the admission policy are arbitrary. */
module Sync {
  import opened Bytes
  import opened Filters
  import EventSet

  type EventId = Text

  const MAX_ROUNDS: nat := 1024
  const U64_MAX: nat := 0xFFFF_FFFF_FFFF_FFFF

  datatype Direction = Up | Down | Both

  predicate DoUp(d: Direction) { d.Up? || d.Both? }

  predicate DoDown(d: Direction) { d.Down? || d.Both? }

  datatype Item = NegMsg(payload: Text) | NegErr(reason: Text) | Other

  datatype Outcome = Outcome(have: seq<EventId>, need: seq<EventId>, next: Option<Text>)

  /** What leaves for the relay, in order. */
  datatype Frame = OpenFrame | MsgFrame(payload: Text) | CloseFrame | EventFrame(id: EventId)

  datatype Stored = Found | Missing | Unreadable(reason: Text)

  datatype Verdict = Admit | Reject(reason: Option<Text>) | Broken

  /** Everything outside the driver: whether a session can be set up and begun, the n-th stream item, the session's
      outcome after a history of messages, whether the n-th round's reply can be sent, the database, the relay's
      answers to published events, the fetched stream (with failed relays as `None`), the policy, and saving. */
  datatype World = World(
    ready: bool, opens: bool, item: nat -> Option<Item>, reconcile: seq<Text> -> Option<Outcome>, sends: nat -> bool,
    stored: EventId -> Stored, publish: EventId -> Option<Text>, fetch: set<EventId> -> Option<seq<Option<Event>>>,
    admit: Event -> Verdict, save: Event -> Option<Text>)

  datatype Options = Options(direction: Direction, dryRun: bool, progress: bool)

  datatype Summary = Summary(
    local: set<EventId>, remote: set<EventId>, sent: set<EventId>, received: set<EventId>,
    failures: map<EventId, Text>, rejected: map<EventId, Option<Text>>)

  const NOTHING := Summary({}, {}, {}, {}, map[], map[])

  datatype Progress = Progress(total: nat, current: nat)

  /** The summary, the watched progress, what has left for the relay, and what was handed to `save_event`. */
  datatype Account = Account(summary: Summary, progress: Progress, wire: seq<Frame>, saved: seq<Event>)

  datatype Error =
    | NotReady | RelayFailed | SessionFailed | StreamClosed | SyncFailed(reason: Text) | FetchFailed | PolicyFailed

  datatype Result<+T> = Ok(value: T) | Err(error: Error)

  /** `u64::saturating_add`, from an exact sum. */
  function Saturate(n: nat): nat { if n <= U64_MAX then n else U64_MAX }

  // ----- consulting the world -----

  function ItemAt(w: World, n: nat): Option<Item> { w.item(n) }

  function Reconcile(w: World, heard: seq<Text>): Option<Outcome> { w.reconcile(heard) }

  predicate SendsAt(w: World, n: nat) { w.sends(n) }

  function StoredAs(w: World, id: EventId): Stored { w.stored(id) }

  function PublishResult(w: World, id: EventId): Option<Text> { w.publish(id) }

  function Fetched(w: World, ids: set<EventId>): Option<seq<Option<Event>>> { w.fetch(ids) }

  function Admission(w: World, e: Event): Verdict { w.admit(e) }

  function SaveResult(w: World, e: Event): Option<Text> { w.save(e) }

  // ----- the conversation -----

  predicate IsMsg(w: World, n: nat) { ItemAt(w, n).Some? && ItemAt(w, n).value.NegMsg? }

  /** The `NEG-MSG` payloads among the first `n` items. */
  function Heard(w: World, n: nat): seq<Text> {
    if n == 0 then [] else Heard(w, n - 1) + if IsMsg(w, n - 1) then [ItemAt(w, n - 1).value.payload] else []
  }

  /** What the session makes of item `n`. */
  function OutcomeAt(w: World, n: nat): Option<Outcome> {
    if IsMsg(w, n) then Reconcile(w, Heard(w, n + 1)) else None
  }

  /** Round `n` sends a reply. */
  predicate Replies(w: World, n: nat) { OutcomeAt(w, n).Some? && OutcomeAt(w, n).value.next.Some? }

  predicate Converges(w: World, n: nat) { OutcomeAt(w, n).Some? && OutcomeAt(w, n).value.next.None? }

  /** Round `n` leaves the loop running. */
  predicate Continues(w: World, n: nat) {
    ItemAt(w, n).Some? && !ItemAt(w, n).value.NegErr? && (ItemAt(w, n).value.NegMsg? ==> Replies(w, n) && SendsAt(w, n))
  }

  function ReplyAt(w: World, n: nat): seq<Frame> {
    if Replies(w, n) then [MsgFrame(OutcomeAt(w, n).value.next.value)] else []
  }

  /** The `NEG-MSG` frames of the first `n` rounds. */
  function Said(w: World, n: nat): seq<Frame> {
    if n == 0 then [] else Said(w, n - 1) + ReplyAt(w, n - 1)
  }

  /** The ids the first `n` rounds classified as ours only. */
  function Haves(w: World, n: nat): set<EventId> {
    if n == 0 then {}
    else Haves(w, n - 1) + if OutcomeAt(w, n - 1).Some? then Elems(OutcomeAt(w, n - 1).value.have) else {}
  }

  /** The ids the first `n` rounds classified as theirs only. */
  function Needs(w: World, n: nat): set<EventId> {
    if n == 0 then {}
    else Needs(w, n - 1) + if OutcomeAt(w, n - 1).Some? then Elems(OutcomeAt(w, n - 1).value.need) else {}
  }

  /** One outcome added to the active directions. */
  function Folded(d: Direction, s: Summary, o: Outcome): Summary {
    s.(local := if DoUp(d) then s.local + Elems(o.have) else s.local,
       remote := if DoDown(d) then s.remote + Elems(o.need) else s.remote)
  }

  /** The summary after `n` rounds. */
  function Classified(w: World, d: Direction, n: nat): Summary {
    if n == 0 then NOTHING
    else if OutcomeAt(w, n - 1).Some? then Folded(d, Classified(w, d, n - 1), OutcomeAt(w, n - 1).value)
    else Classified(w, d, n - 1)
  }

  /** It holds everything the rounds reported for the active directions, and nothing else. */
  lemma {:induction false} ClassifiedAre(w: World, d: Direction, n: nat)
    ensures Classified(w, d, n)
            == NOTHING.(local := if DoUp(d) then Haves(w, n) else {}, remote := if DoDown(d) then Needs(w, n) else {})
  {
    if n > 0 {
      ClassifiedAre(w, d, n - 1);
    }
  }

  lemma {:induction false} SaidStep(w: World, wire: seq<Frame>, n: nat)
    ensures wire + Said(w, n) + ReplyAt(w, n) == wire + Said(w, n + 1)
  {
    assert wire + Said(w, n) + ReplyAt(w, n) == wire + (Said(w, n) + ReplyAt(w, n));
  }

  /** How many of `ids` are new to `target`. */
  function NewIds(ids: seq<EventId>, target: set<EventId>): nat {
    if ids == [] then 0
    else
      var before, id := ids[..|ids| - 1], ids[|ids| - 1];
      NewIds(before, target) + if id in target || id in before then 0 else 1
  }

  lemma {:induction false} NewIdsAre(ids: seq<EventId>, target: set<EventId>)
    ensures NewIds(ids, target) == |target + Elems(ids)| - |target|
    decreases |ids|
  {
    if ids == [] {
      assert target + Elems(ids) == target;
    } else {
      var before, id := ids[..|ids| - 1], ids[|ids| - 1];
      NewIdsAre(before, target);
      assert ids == before + [id];
      var reached := target + Elems(before);
      assert target + Elems(ids) == if id in reached then reached else reached + {id};
      assert id in reached <==> id in target || id in before;
    }
  }

  /** How many ids an outcome adds to the active directions. */
  function NewlyClassified(d: Direction, s: Summary, o: Outcome): nat {
    (if DoUp(d) then NewIds(o.have, s.local) else 0) + (if DoDown(d) then NewIds(o.need, s.remote) else 0)
  }

  /** How many ids the first `n` rounds added. */
  function Classifications(w: World, d: Direction, n: nat): nat {
    if n == 0 then 0
    else
      Classifications(w, d, n - 1)
      + if OutcomeAt(w, n - 1).Some? then NewlyClassified(d, Classified(w, d, n - 1), OutcomeAt(w, n - 1).value) else 0
  }

  /** Every classified id is counted exactly once, in however many rounds it was reported. */
  lemma {:induction false} ClassifiedOnce(w: World, d: Direction, n: nat)
    ensures Classifications(w, d, n) == Size(Classified(w, d, n))
  {
    if n > 0 {
      ClassifiedOnce(w, d, n - 1);
      FoldedSize(d, Classified(w, d, n - 1), Classified(w, d, n), OutcomeAt(w, n - 1));
    }
  }

  /** The number of classified ids. */
  function Size(s: Summary): nat { |s.local| + |s.remote| }

  lemma {:induction false} FoldedSize(d: Direction, a: Summary, b: Summary, o: Option<Outcome>)
    requires b == if o.Some? then Folded(d, a, o.value) else a
    ensures Size(b) == Size(a) + if o.Some? then NewlyClassified(d, a, o.value) else 0
  {
    if o.Some? {
      NewIdsAre(o.value.have, a.local);
      NewIdsAre(o.value.need, a.remote);
    }
  }

  /** The first `n` rounds leave the loop running. */
  ghost predicate Running(w: World, n: nat) { forall k {:trigger Continues(w, k)} :: 0 <= k < n ==> Continues(w, k) }

  /** `n` items were asked for: all but the last left the loop running, and the loop did not give up early. */
  ghost predicate Conversed(w: World, n: nat) {
    0 < n <= MAX_ROUNDS && Running(w, n - 1) && (n < MAX_ROUNDS ==> !Continues(w, n - 1))
  }

  /** How the loop ends after asking for `n` items. */
  function Ending(w: World, n: nat): Result<()>
    requires n > 0
  {
    match ItemAt(w, n - 1)
    case None => Err(StreamClosed)
    case Some(NegErr(reason)) => Err(SyncFailed(reason))
    case Some(Other) => Err(StreamClosed)
    case Some(NegMsg(_)) =>
      if OutcomeAt(w, n - 1).None? then Err(SessionFailed)
      else if Converges(w, n - 1) then Ok(())
      else if !SendsAt(w, n - 1) then Err(RelayFailed)
      else Err(StreamClosed)
  }

  lemma LastRound(w: World, opts: Options, a: Account, b: Account, heard: seq<Text>)
    requires Midway(w, opts, a, b, MAX_ROUNDS, heard)
    ensures Concluded(w, opts, a, b, MAX_ROUNDS, Err(StreamClosed))
  {
    assert Continues(w, MAX_ROUNDS - 1);
  }

  /** At every point of the conversation, at most one `NEG-MSG` was sent for each one heard, and at most `n` heard. */
  lemma {:induction false} OneReplyPerMessage(w: World, n: nat)
    ensures |Said(w, n)| <= |Heard(w, n)| <= n
    ensures forall f :: f in Said(w, n) ==> f.MsgFrame?
  {
    if n > 0 {
      OneReplyPerMessage(w, n - 1);
    }
  }

  /** Up to the last round every message heard is answered; a run that converges answers all but the last. */
  lemma {:induction false} AllButLastAnswered(w: World, n: nat)
    requires Running(w, n)
    ensures |Said(w, n)| == |Heard(w, n)|
    ensures Converges(w, n) ==> |Said(w, n + 1)| + 1 == |Heard(w, n + 1)|
  {
    if n > 0 {
      AllButLastAnswered(w, n - 1);
      assert Continues(w, n - 1);
    }
  }

  /** How many items are asked for is determined by the world. */
  lemma {:induction false} ConversedUnique(w: World, m: nat, n: nat)
    requires Conversed(w, m) && Conversed(w, n)
    ensures m == n
  {
  }

  /** Reconciliation succeeds exactly when some round within the cap converges and no earlier one stops the loop. */
  lemma {:induction false} SucceedsIff(w: World, n: nat)
    requires Conversed(w, n)
    ensures Ending(w, n).Ok? <==> exists k :: 0 <= k < MAX_ROUNDS && Converges(w, k) && Running(w, k)
  {
    if Ending(w, n).Ok? {
      assert Converges(w, n - 1);
    }
    if exists k :: 0 <= k < MAX_ROUNDS && Converges(w, k) && Running(w, k) {
      var k :| 0 <= k < MAX_ROUNDS && Converges(w, k) && Running(w, k);
      assert !Continues(w, k);
      ConversedUnique(w, k + 1, n);
    }
  }

  // ----- what happens to each event -----

  /** The id is stored and the relay acknowledges it. */
  predicate Delivered(w: World, id: EventId) { StoredAs(w, id).Found? && PublishResult(w, id).None? }

  /** The reason an upload fails for. */
  function UploadFailure(w: World, id: EventId): Text
    requires !Delivered(w, id)
  {
    match StoredAs(w, id)
    case Missing => NOT_FOUND
    case Unreadable(reason) => reason
    case Found => PublishResult(w, id).value
  }

  /** "event not found in local database" */
  const NOT_FOUND: Text := [
    101, 118, 101, 110, 116, 32, 110, 111, 116, 32, 102, 111, 117, 110, 100, 32, 105, 110, 32, 108, 111, 99, 97, 108,
    32, 100, 97, 116, 97, 98, 97, 115, 101]

  datatype Fate = Kept | Unsaved | Vetoed | Undecided

  /** What the gate and then the database make of an event. */
  function FateOf(w: World, e: Event): Fate {
    match Admission(w, e)
    case Reject(_) => Vetoed
    case Broken => Undecided
    case Admit => if SaveResult(w, e).None? then Kept else Unsaved
  }

  function Ids(w: World, events: seq<Event>, fate: Fate): set<EventId> {
    set e | e in events && FateOf(w, e) == fate :: e.id
  }

  /** The events that pass the gate, in order. */
  function Admitted(w: World, events: seq<Event>): seq<Event> {
    if events == [] then []
    else
      var e := events[|events| - 1];
      Admitted(w, events[..|events| - 1]) + if Admission(w, e).Admit? then [e] else []
  }

  /** The events that arrived. */
  function Arrived(stream: seq<Option<Event>>): seq<Event> {
    if stream == [] then []
    else
      Arrived(stream[..|stream| - 1])
      + if stream[|stream| - 1].Some? then [stream[|stream| - 1].value] else []
  }

  /** `collect_events`. */
  method CollectEvents(stream: seq<Option<Event>>) returns (events: seq<Event>)
    ensures events == EventSet.Canonical(Arrived(stream))
    ensures EventSet.DistinctIds(events)
  {
    var arrived := [];
    for k := 0 to |stream|
      invariant arrived == Arrived(stream[..k])
    {
      assert stream[..k + 1][..k] == stream[..k];
      if stream[k].Some? {
        arrived := arrived + [stream[k].value];
      }
    }
    assert stream[..|stream|] == stream;
    events := EventSet.FromUnsorted(arrived);
  }

  /** `insert_all`: counts the ids that were new. */
  method InsertAll(ids: seq<EventId>, target: set<EventId>) returns (r: set<EventId>, delta: nat)
    ensures r == target + Elems(ids)
    ensures delta == NewIds(ids, target) == |r| - |target|
  {
    r, delta := target, 0;
    for k := 0 to |ids|
      invariant r == target + Elems(ids[..k])
      invariant delta == NewIds(ids[..k], target)
    {
      assert ids[..k + 1] == ids[..k] + [ids[k]];
      if ids[k] !in r {
        r := r + {ids[k]};
        delta := delta + 1;
      }
    }
    assert ids[..|ids|] == ids;
    NewIdsAre(ids, target);
  }

  /** `current` after `n` ticks, if anybody listens. */
  function Ticked(on: bool, p: Progress, n: nat): Progress {
    if on && n > 0 then p.(current := Saturate(p.current + n)) else p
  }

  /** `total` after `n` more ids. */
  function Grown(on: bool, p: Progress, n: nat): Progress {
    if on && n > 0 then p.(total := Saturate(p.total + n)) else p
  }

  lemma GrownTwice(on: bool, p: Progress, m: nat, n: nat)
    ensures Grown(on, Grown(on, p, m), n) == Grown(on, p, m + n)
  {
  }

  lemma TickedTwice(on: bool, p: Progress, m: nat, n: nat)
    ensures Ticked(on, Ticked(on, p, m), n) == Ticked(on, p, m + n)
  {
  }

  /** One call of `sync_to_relay`. */
  class Driver {
    const w: World
    const opts: Options
    var state: Account
    var asked: nat
    var heard: seq<Text>

    constructor (w: World, opts: Options, progress: Progress)
      ensures this.w == w && this.opts == opts && state == Account(NOTHING, progress, [], [])
      ensures asked == 0 && heard == []
    {
      this.w, this.opts := w, opts;
      state, asked, heard := Account(NOTHING, progress, [], []), 0, [];
    }

    method Tick()
      modifies this`state
      ensures state == old(state).(progress := Ticked(opts.progress, old(state).progress, 1))
    {
      if opts.progress {
        state := state.(progress := state.progress.(current := Saturate(state.progress.current + 1)));
      }
    }

    /** `fold_outcome`: the active directions grow, and `total` by exactly as much. */
    method FoldOutcome(o: Outcome)
      modifies this`state
      ensures FoldedFrom(opts, old(state), state, o)
    {
      var s := state.summary;
      var local, up := s.local, 0;
      if DoUp(opts.direction) {
        local, up := InsertAll(o.have, s.local);
      }
      var remote, down := s.remote, 0;
      if DoDown(opts.direction) {
        remote, down := InsertAll(o.need, s.remote);
      }
      state := state.(summary := s.(local := local, remote := remote));
      var delta := Saturate(up + down);
      if delta > 0 && opts.progress {
        state := state.(progress := state.progress.(total := Saturate(state.progress.total + delta)));
      }
    }

    /** One pass through the loop body: `None` when the loop goes on. */
    method Round() returns (r: Option<Result<()>>)
      modifies this`state, this`asked, this`heard
      ensures asked == old(asked) + 1
      ensures heard == old(heard) + Payload(ItemAt(w, old(asked)))
      ensures RoundOf(w, opts, old(state), state, old(asked), old(heard), r)
    {
      var item := ItemAt(w, asked);
      asked := asked + 1;
      if item.None? {
        return Some(Err(StreamClosed));
      }
      match item.value
      case NegMsg(payload) =>
        heard := heard + [payload];
        var outcome := Reconcile(w, heard);
        if outcome.None? {
          return Some(Err(SessionFailed));
        }
        FoldOutcome(outcome.value);
        if outcome.value.next.None? {
          return Some(Ok(()));
        }
        state := state.(wire := state.wire + [MsgFrame(outcome.value.next.value)]);
        r := if SendsAt(w, asked - 1) then None else Some(Err(RelayFailed));
      case NegErr(reason) => r := Some(Err(SyncFailed(reason)));
      case Other => r := None;
    }

    /** `reconcile_loop`, once the session is open. */
    method ReconcileLoop() returns (r: Result<()>)
      requires asked == 0 && heard == [] && state.summary == NOTHING
      modifies this`state, this`asked, this`heard
      ensures Concluded(w, opts, old(state), state, asked, r)
    {
      ghost var start := state;
      TalkedNone(w, opts, start);
      while asked < MAX_ROUNDS
        invariant asked <= MAX_ROUNDS && Midway(w, opts, start, state, asked, heard)
        decreases MAX_ROUNDS - asked
      {
        ghost var before, history := state, heard;
        var ended := Round();
        MidwayStep(w, opts, start, before, state, asked - 1, history, ended);
        if ended.Some? {
          return ended.value;
        }
      }
      LastRound(w, opts, start, state, heard);
      r := Err(StreamClosed);
    }

    /** The loop body of `upload_phase`. */
    method UploadOne(id: EventId)
      modifies this`state
      ensures state.summary == Uploaded(w, old(state).summary, {id})
      ensures state.progress == Ticked(opts.progress, old(state).progress, |Publishable(w, {id})|)
      ensures state.saved == old(state).saved
      ensures state.wire == old(state).wire + if StoredAs(w, id).Found? then [EventFrame(id)] else []
    {
      UploadedOne(w, state.summary, id);
      SendingOne(w, id);
      var s := state.summary;
      match StoredAs(w, id)
      case Missing => state := state.(summary := s.(failures := s.failures[id := NOT_FOUND]));
      case Unreadable(reason) => state := state.(summary := s.(failures := s.failures[id := reason]));
      case Found =>
        state := state.(wire := state.wire + [EventFrame(id)]);
        match PublishResult(w, id) {
          case None => state := state.(summary := s.(sent := s.sent + {id}));
          case Some(reason) => state := state.(summary := s.(failures := s.failures[id := reason]));
        }
        Tick();
    }

    /** `upload_phase`: every local-only id is looked up, published if it is there, and accounted for once. */
    method UploadPhase()
      modifies this`state
      ensures UploadedFrom(w, opts.progress, old(state), state, old(state).summary.local)
    {
      var todo := state.summary.local;
      ghost var start := state;
      ghost var done: set<EventId> := {};
      UploadNone(w, opts.progress, start);
      while todo != {}
        invariant done == start.summary.local - todo && todo <= start.summary.local
        invariant UploadedFrom(w, opts.progress, start, state, done)
        decreases |todo|
      {
        var id :| id in todo;
        ghost var before := state;
        UploadOne(id);
        UploadStep(w, opts.progress, start, before, state, done, id);
        todo, done := todo - {id}, done + {id};
      }
      assert done == start.summary.local;
    }

    /** The loop body of `download_phase`, once the policy has reached a verdict. */
    method DownloadOne(e: Event)
      requires FateOf(w, e) != Undecided
      modifies this`state
      ensures DownloadedOne(w, opts.progress, old(state), state, e)
    {
      var s := state.summary;
      match Admission(w, e)
      case Reject(reason) =>
        state := state.(summary := s.(rejected := s.rejected[e.id := reason]));
        Tick();
      case Admit =>
        state := state.(saved := state.saved + [e]);
        match SaveResult(w, e) {
          case None => state := state.(summary := s.(received := s.received + {e.id}));
          case Some(reason) => state := state.(summary := s.(failures := s.failures[e.id := reason]));
        }
        Tick();
    }

    /** `download_phase`: `handled` are the fetched events up to the first the policy cannot decide. */
    method DownloadPhase() returns (r: Result<()>, ghost handled: seq<Event>)
      modifies this`state
      ensures HandledOf(w, old(state).summary.remote, handled, r)
      ensures DownloadedFrom(w, opts.progress, old(state), state, handled)
    {
      handled := [];
      ghost var start := state;
      DownloadNone(w, opts.progress, start);
      var stream := Fetched(w, state.summary.remote);
      if stream.None? {
        return Err(FetchFailed), [];
      }
      var events := CollectEvents(stream.value);
      for k := 0 to |events|
        invariant handled == events[..k]
        invariant DownloadedFrom(w, opts.progress, start, state, handled)
      {
        if FateOf(w, events[k]) == Undecided {
          return Err(PolicyFailed), handled;
        }
        ghost var before := state;
        DownloadOne(events[k]);
        DownloadStep(w, opts.progress, start, before, state, handled, events[k]);
        handled := handled + [events[k]];
      }
      r := Ok(());
    }

    /** `run_sync_to_relay`, from the moment the relay is known; `t` records where each phase left the account. */
    method Run() returns (r: Result<Summary>, ghost t: Trace)
      requires state.summary == NOTHING && state.wire == [] && state.saved == [] && asked == 0 && heard == []
      modifies this
      ensures !w.ready ==> r == Err(NotReady) && state == old(state) && asked == 0
      ensures w.ready ==> Synced(w, opts, old(state).progress, t, state, asked, r)
    {
      t := Trace(Ok(()), state, state, [], Ok(()));
      if !w.ready {
        return Err(NotReady), t;
      }
      ghost var p := state.progress;
      state := state.(wire := state.wire + [OpenFrame]);
      ghost var begun := state;
      var reconciled := Err(RelayFailed);
      if w.opens {
        reconciled := ReconcileLoop();
      } else {
        TalkedNone(w, opts, begun);
      }
      ghost var talked := state;
      state := state.(wire := state.wire + [CloseFrame]);
      OpenedAndClosed(w, opts, p, begun, talked, state, asked, reconciled);
      t := Trace(reconciled, state, state, [], Ok(()));
      if reconciled.Err? {
        return Err(reconciled.error), t;
      }
      if opts.dryRun {
        return Ok(state.summary), t;
      }
      if DoUp(opts.direction) {
        UploadPhase();
      }
      t := t.(uploaded := state);
      if DoDown(opts.direction) && state.summary.remote != {} {
        var downloaded;
        ghost var handled;
        downloaded, handled := DownloadPhase();
        t := t.(handled := handled, downloaded := downloaded);
        if downloaded.Err? {
          return Err(downloaded.error), t;
        }
      }
      r := Ok(state.summary);
    }
  }

  // ----- a whole run -----

  /** How reconciliation ended and the account after it, the account after the upload, the events the download handled
      and how it ended. */
  datatype Trace = Trace(
    reconciled: Result<()>, closed: Account, uploaded: Account, handled: seq<Event>, downloaded: Result<()>)

  /** The account once `NEG-CLOSE` has been sent. */
  ghost predicate Closed(w: World, opts: Options, p: Progress, b: Account, n: nat, r: Result<()>) {
    && b.wire == [OpenFrame] + Said(w, n) + [CloseFrame] && b.saved == []
    && b.summary == Classified(w, opts.direction, n)
    && b.progress == Grown(opts.progress, p, Classifications(w, opts.direction, n))
    && (if w.opens then Conversed(w, n) && r == Ending(w, n) else n == 0 && r == Err(RelayFailed))
  }

  lemma {:induction false} OpenedAndClosed(
    w: World, opts: Options, p: Progress, begun: Account, talked: Account, closed: Account, n: nat, r: Result<()>)
    requires begun.wire == [OpenFrame] && begun.saved == [] && begun.progress == p
    requires Talked(w, opts, begun, talked, n) && closed == talked.(wire := talked.wire + [CloseFrame])
    requires if w.opens then Conversed(w, n) && r == Ending(w, n) else n == 0 && r == Err(RelayFailed)
    ensures Closed(w, opts, p, closed, n, r)
  {
  }

  /** The phases one after the other. */
  ghost predicate Synced(w: World, opts: Options, p: Progress, t: Trace, s: Account, n: nat, r: Result<Summary>) {
    var exchange := t.reconciled.Ok? && !opts.dryRun;
    && Closed(w, opts, p, t.closed, n, t.reconciled)
    && (if exchange && DoUp(opts.direction) then
          UploadedFrom(w, opts.progress, t.closed, t.uploaded, t.closed.summary.local)
        else t.uploaded == t.closed)
    && (if exchange && DoDown(opts.direction) && t.uploaded.summary.remote != {} then
          HandledOf(w, t.uploaded.summary.remote, t.handled, t.downloaded)
          && DownloadedFrom(w, opts.progress, t.uploaded, s, t.handled)
        else s == t.uploaded && t.handled == [] && t.downloaded == Ok(()))
    && r == if t.reconciled.Err? then Err(t.reconciled.error)
            else if t.downloaded.Err? then Err(t.downloaded.error)
            else Ok(s.summary)
  }

  /** From `a` to `b`, exactly the ids in `ids` were uploaded. */
  ghost predicate UploadedFrom(w: World, on: bool, a: Account, b: Account, ids: set<EventId>) {
    && b.summary == Uploaded(w, a.summary, ids)
    && b.progress == Ticked(on, a.progress, |Publishable(w, ids)|)
    && |b.wire| >= |a.wire| && b.wire[..|a.wire|] == a.wire && b.saved == a.saved
    && Publishes(w, ids, b.wire[|a.wire|..])
  }

  lemma UploadNone(w: World, on: bool, a: Account)
    ensures UploadedFrom(w, on, a, a, {})
  {
    UploadedNone(w, a.summary);
  }

  lemma UploadStep(w: World, on: bool, a: Account, b: Account, c: Account, done: set<EventId>, id: EventId)
    requires id !in done && UploadedFrom(w, on, a, b, done)
    requires c.summary == Uploaded(w, b.summary, {id}) && c.progress == Ticked(on, b.progress, |Publishable(w, {id})|)
    requires c.saved == b.saved
    requires c.wire == b.wire + if StoredAs(w, id).Found? then [EventFrame(id)] else []
    ensures UploadedFrom(w, on, a, c, done + {id})
  {
    UploadedStep(w, a.summary, done, id);
    var tail := b.wire[|a.wire|..];
    PublishesStep(w, done, tail, id);
    TickedTwice(on, a.progress, |Publishable(w, done)|, |Publishable(w, {id})|);
    assert c.wire[|a.wire|..] == tail + if StoredAs(w, id).Found? then [EventFrame(id)] else [];
    assert c.wire[..|a.wire|] == b.wire[..|a.wire|];
  }

  // ----- reconciliation accounting -----

  function Payload(item: Option<Item>): seq<Text> {
    if item.Some? && item.value.NegMsg? then [item.value.payload] else []
  }

  function OutcomeOf(w: World, item: Option<Item>, heard: seq<Text>): Option<Outcome> {
    if item.Some? && item.value.NegMsg? then Reconcile(w, heard) else None
  }

  /** Whether and how a round ends the loop. */
  function EndingOf(item: Option<Item>, outcome: Option<Outcome>, sent: bool): Option<Result<()>> {
    if item.None? then Some(Err(StreamClosed))
    else if item.value.NegErr? then Some(Err(SyncFailed(item.value.reason)))
    else if item.value.Other? then None
    else if outcome.None? then Some(Err(SessionFailed))
    else if outcome.value.next.None? then Some(Ok(()))
    else if sent then None
    else Some(Err(RelayFailed))
  }

  /** From `a` to `b`, one outcome was folded in: `total` grew by the number of new ids. */
  predicate FoldedFrom(opts: Options, a: Account, b: Account, o: Outcome) {
    && b.summary == Folded(opts.direction, a.summary, o)
    && b.wire == a.wire && b.saved == a.saved
    && b.progress == Grown(opts.progress, a.progress, NewlyClassified(opts.direction, a.summary, o))
  }

  /** From `a` to `b`, one outcome was folded in and answered. */
  predicate Rounded(opts: Options, a: Account, b: Account, o: Option<Outcome>) {
    if o.None? then b == a
    else if o.value.next.None? then FoldedFrom(opts, a, b, o.value)
    else b.wire == a.wire + [MsgFrame(o.value.next.value)] && FoldedFrom(opts, a, b.(wire := a.wire), o.value)
  }

  /** Round `n`, from `a` to `b`, with what it did and how it ended. */
  predicate RoundOf(w: World, opts: Options, a: Account, b: Account, n: nat, heard: seq<Text>, r: Option<Result<()>>) {
    var o := OutcomeOf(w, ItemAt(w, n), heard + Payload(ItemAt(w, n)));
    Rounded(opts, a, b, o) && r == EndingOf(ItemAt(w, n), o, SendsAt(w, n))
  }

  /** From `a` to `b`, `n` rounds took place. */
  predicate Talked(w: World, opts: Options, a: Account, b: Account, n: nat) {
    && b.summary == Classified(w, opts.direction, n)
    && b.wire == a.wire + Said(w, n) && b.saved == a.saved
    && b.progress == Grown(opts.progress, a.progress, Classifications(w, opts.direction, n))
  }

  lemma TalkedNone(w: World, opts: Options, a: Account)
    requires a.summary == NOTHING
    ensures Talked(w, opts, a, a, 0)
  {
  }

  lemma {:induction false} TalkedStep(w: World, opts: Options, a: Account, b: Account, c: Account, n: nat)
    requires Talked(w, opts, a, b, n)
    requires Rounded(opts, b, c, OutcomeOf(w, ItemAt(w, n), Heard(w, n) + Payload(ItemAt(w, n))))
    ensures Talked(w, opts, a, c, n + 1)
    ensures Heard(w, n + 1) == Heard(w, n) + Payload(ItemAt(w, n))
    ensures var e := EndingOf(ItemAt(w, n), OutcomeAt(w, n), SendsAt(w, n));
            (e.None? <==> Continues(w, n)) && (e.Some? ==> e.value == Ending(w, n + 1))
    ensures OutcomeAt(w, n) == OutcomeOf(w, ItemAt(w, n), Heard(w, n) + Payload(ItemAt(w, n)))
    ensures Running(w, n) && Continues(w, n) ==> Running(w, n + 1)
  {
    SaidStep(w, a.wire, n);
    if OutcomeAt(w, n).Some? {
      GrownTwice(opts.progress, a.progress, Classifications(w, opts.direction, n),
                 NewlyClassified(opts.direction, b.summary, OutcomeAt(w, n).value));
    }
  }

  /** The loop is over after asking for `n` items. */
  ghost predicate Concluded(w: World, opts: Options, a: Account, b: Account, n: nat, r: Result<()>) {
    Conversed(w, n) && r == Ending(w, n) && Talked(w, opts, a, b, n)
  }

  /** The loop stands before round `n`. */
  ghost predicate Midway(w: World, opts: Options, a: Account, b: Account, n: nat, heard: seq<Text>) {
    heard == Heard(w, n) && Running(w, n) && Talked(w, opts, a, b, n)
  }

  lemma {:induction false} MidwayStep(
    w: World, opts: Options, a: Account, b: Account, c: Account, n: nat, heard: seq<Text>, r: Option<Result<()>>)
    requires n < MAX_ROUNDS && Midway(w, opts, a, b, n, heard)
    requires RoundOf(w, opts, b, c, n, heard, r)
    ensures r.None? ==> Midway(w, opts, a, c, n + 1, heard + Payload(ItemAt(w, n)))
    ensures r.Some? ==> Concluded(w, opts, a, c, n + 1, r.value)
  {
    TalkedStep(w, opts, a, b, c, n);
  }

  // ----- upload accounting -----

  function Publishable(w: World, ids: set<EventId>): set<EventId> { set id | id in ids && StoredAs(w, id).Found? }

  /** The frames publish exactly the stored ones of `ids`, each once. */
  ghost predicate Publishes(w: World, ids: set<EventId>, frames: seq<Frame>) {
    && |frames| == |Publishable(w, ids)|
    && (forall f :: f in frames <==> f.EventFrame? && f.id in Publishable(w, ids))
  }

  function Sending(w: World, ids: set<EventId>): set<EventId> { set id | id in ids && Delivered(w, id) }

  function Failing(w: World, ids: set<EventId>): map<EventId, Text> {
    map id | id in ids && !Delivered(w, id) :: UploadFailure(w, id)
  }

  function Uploaded(w: World, s: Summary, ids: set<EventId>): Summary {
    s.(sent := s.sent + Sending(w, ids), failures := s.failures + Failing(w, ids))
  }

  lemma UploadedNone(w: World, s: Summary)
    ensures Uploaded(w, s, {}) == s
    ensures Publishable(w, {}) == {}
  {
    assert s.sent + {} == s.sent;
  }

  lemma SendingOne(w: World, id: EventId)
    ensures Sending(w, {id}) == if Delivered(w, id) then {id} else {}
    ensures Failing(w, {id}) == if Delivered(w, id) then map[] else map[id := UploadFailure(w, id)]
    ensures Publishable(w, {id}) == if StoredAs(w, id).Found? then {id} else {}
  {
  }

  lemma UploadedOne(w: World, s: Summary, id: EventId)
    ensures Uploaded(w, s, {id})
            == if Delivered(w, id) then s.(sent := s.sent + {id})
               else s.(failures := s.failures[id := UploadFailure(w, id)])
  {
    SendingOne(w, id);
    assert s.sent + {} == s.sent && s.failures + map[] == s.failures;
  }

  lemma SendingStep(w: World, sent: set<EventId>, done: set<EventId>, id: EventId)
    ensures sent + Sending(w, done + {id}) == sent + Sending(w, done) + Sending(w, {id})
  {
  }

  lemma FailingStep(w: World, failures: map<EventId, Text>, done: set<EventId>, id: EventId)
    ensures failures + Failing(w, done + {id}) == failures + Failing(w, done) + Failing(w, {id})
  {
    SendingOne(w, id);
    assert Failing(w, done + {id}) == Failing(w, done) + Failing(w, {id});
    MapAssociates(failures, Failing(w, done), Failing(w, {id}));
  }

  lemma MapAssociates(a: map<EventId, Text>, b: map<EventId, Text>, c: map<EventId, Text>)
    ensures a + (b + c) == a + b + c
  {
  }

  lemma UploadedStep(w: World, s: Summary, done: set<EventId>, id: EventId)
    ensures Uploaded(w, s, done + {id}) == Uploaded(w, Uploaded(w, s, done), {id})
  {
    SendingStep(w, s.sent, done, id);
    FailingStep(w, s.failures, done, id);
  }

  lemma PublishesStep(w: World, done: set<EventId>, tail: seq<Frame>, id: EventId)
    requires id !in done && Publishes(w, done, tail)
    ensures Publishes(w, done + {id}, tail + if StoredAs(w, id).Found? then [EventFrame(id)] else [])
    ensures |Publishable(w, done + {id})| == |Publishable(w, done)| + |Publishable(w, {id})|
  {
    assert Publishable(w, done + {id}) == Publishable(w, done) + Publishable(w, {id});
    assert Publishable(w, {id}) == if StoredAs(w, id).Found? then {id} else {};
  }

  // ----- download accounting -----

  /** The events a download looks at: all that were fetched, or those before the first undecided one. */
  ghost predicate HandledOf(w: World, remote: set<EventId>, handled: seq<Event>, r: Result<()>) {
    match Fetched(w, remote)
    case None => handled == [] && r == Err(FetchFailed)
    case Some(stream) =>
      var events := EventSet.Canonical(Arrived(stream));
      && handled <= events && EventSet.DistinctIds(handled)
      && (r == Ok(()) || r == Err(PolicyFailed))
      && (r.Ok? <==> handled == events)
      && (r.Err? ==> |handled| < |events| && FateOf(w, events[|handled|]) == Undecided)
  }

  /** The reasons recorded for events that could not be saved. */
  function SaveFailures(w: World, events: seq<Event>): map<EventId, Text> {
    if events == [] then map[]
    else
      var e, before := events[|events| - 1], SaveFailures(w, events[..|events| - 1]);
      if FateOf(w, e) == Unsaved then before[e.id := SaveResult(w, e).value] else before
  }

  /** The reasons recorded for events the policy vetoed. */
  function Rejections(w: World, events: seq<Event>): map<EventId, Option<Text>> {
    if events == [] then map[]
    else
      var e, before := events[|events| - 1], Rejections(w, events[..|events| - 1]);
      if FateOf(w, e) == Vetoed then before[e.id := Admission(w, e).reason] else before
  }

  predicate DownloadedOne(w: World, on: bool, a: Account, b: Account, e: Event) {
    && b.wire == a.wire && b.progress == Ticked(on, a.progress, 1)
    && b.saved == a.saved + (if Admission(w, e).Admit? then [e] else [])
    && b.summary == match FateOf(w, e)
                    case Kept => a.summary.(received := a.summary.received + {e.id})
                    case Unsaved => a.summary.(failures := a.summary.failures[e.id := SaveResult(w, e).value])
                    case Vetoed => a.summary.(rejected := a.summary.rejected[e.id := Admission(w, e).reason])
                    case Undecided => a.summary
  }

  /** From `a` to `b`, exactly the events in `handled` went through the gate. */
  predicate DownloadedFrom(w: World, on: bool, a: Account, b: Account, handled: seq<Event>) {
    && b.wire == a.wire && b.progress == Ticked(on, a.progress, |handled|)
    && b.saved == a.saved + Admitted(w, handled)
    && b.summary == a.summary.(received := a.summary.received + Ids(w, handled, Kept),
                               failures := a.summary.failures + SaveFailures(w, handled),
                               rejected := a.summary.rejected + Rejections(w, handled))
    && forall e :: e in handled ==> FateOf(w, e) != Undecided
  }

  lemma {:induction false} DownloadNone(w: World, on: bool, a: Account)
    ensures DownloadedFrom(w, on, a, a, [])
  {
    assert a.summary.received + Ids(w, [], Kept) == a.summary.received;
  }

  lemma IdsStep(w: World, events: seq<Event>, e: Event, fate: Fate)
    ensures Ids(w, events + [e], fate) == Ids(w, events, fate) + if FateOf(w, e) == fate then {e.id} else {}
  {
  }

  lemma {:induction false} SaveFailuresStep(w: World, base: map<EventId, Text>, handled: seq<Event>, e: Event)
    ensures base + SaveFailures(w, handled + [e])
            == if FateOf(w, e) == Unsaved then (base + SaveFailures(w, handled))[e.id := SaveResult(w, e).value]
               else base + SaveFailures(w, handled)
  {
    assert (handled + [e])[..|handled|] == handled;
  }

  lemma {:induction false} RejectionsStep(w: World, base: map<EventId, Option<Text>>, handled: seq<Event>, e: Event)
    ensures base + Rejections(w, handled + [e])
            == if FateOf(w, e) == Vetoed then (base + Rejections(w, handled))[e.id := Admission(w, e).reason]
               else base + Rejections(w, handled)
  {
    assert (handled + [e])[..|handled|] == handled;
  }

  lemma {:induction false} AdmittedStep(w: World, base: seq<Event>, handled: seq<Event>, e: Event)
    ensures base + Admitted(w, handled + [e])
            == base + Admitted(w, handled) + if Admission(w, e).Admit? then [e] else []
  {
    assert (handled + [e])[..|handled|] == handled;
  }

  lemma {:induction false} DownloadStep(
    w: World, on: bool, a: Account, b: Account, c: Account, handled: seq<Event>, e: Event)
    requires DownloadedFrom(w, on, a, b, handled) && DownloadedOne(w, on, b, c, e) && FateOf(w, e) != Undecided
    ensures DownloadedFrom(w, on, a, c, handled + [e])
  {
    TickedTwice(on, a.progress, |handled|, 1);
    IdsStep(w, handled, e, Kept);
    SaveFailuresStep(w, a.summary.failures, handled, e);
    RejectionsStep(w, a.summary.rejected, handled, e);
    AdmittedStep(w, a.saved, handled, e);
  }
}
