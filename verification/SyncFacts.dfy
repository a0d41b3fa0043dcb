/** What every sync keeps to, whatever the session, the relay, the database and the policy do. */
module SyncFacts {
  import opened Bytes
  import opened Filters
  import opened Sync
  import EventSet

  /** At most 1024 items are consumed, at most one `NEG-MSG` is sent per one heard, and exactly one `NEG-CLOSE` follows
      them; after it only events are published, each the upload of a distinct local-only id. */
  lemma WireOrder(w: World, opts: Options, p: Progress, t: Trace, s: Account, n: nat, r: Result<Summary>)
    requires Synced(w, opts, p, t, s, n, r)
    ensures n <= MAX_ROUNDS && |Said(w, n)| <= |Heard(w, n)| <= n
    ensures |s.wire| >= |Said(w, n)| + 2
    ensures forall k :: 0 <= k < |s.wire| ==>
              && (s.wire[k].OpenFrame? <==> k == 0)
              && (s.wire[k].MsgFrame? <==> 0 < k <= |Said(w, n)|)
              && (s.wire[k].CloseFrame? <==> k == |Said(w, n)| + 1)
    ensures forall k :: 0 <= k < |s.wire| && s.wire[k].EventFrame? ==> s.wire[k].id in s.summary.local
    ensures forall j, k :: 0 <= j < k < |s.wire| && s.wire[j].EventFrame? ==> s.wire[j] != s.wire[k]
  {
    OneReplyPerMessage(w, n);
    TailFrames(w, opts, p, t, s, n, r);
    FrameShape(Said(w, n), s.wire[|t.closed.wire|..], s.summary.local);
    assert s.wire == t.closed.wire + s.wire[|t.closed.wire|..];
  }

  lemma FrameShape(said: seq<Frame>, tail: seq<Frame>, local: set<EventId>)
    requires forall f :: f in said ==> f.MsgFrame?
    requires forall f :: f in tail ==> f.EventFrame? && f.id in local
    requires forall j, k :: 0 <= j < k < |tail| ==> tail[j] != tail[k]
    ensures var wire := [OpenFrame] + said + [CloseFrame] + tail;
            && (forall k :: 0 <= k < |wire| ==>
                  && (wire[k].OpenFrame? <==> k == 0)
                  && (wire[k].MsgFrame? <==> 0 < k <= |said|)
                  && (wire[k].CloseFrame? <==> k == |said| + 1))
            && (forall k :: 0 <= k < |wire| && wire[k].EventFrame? ==> wire[k].id in local)
            && (forall j, k :: 0 <= j < k < |wire| && wire[j].EventFrame? ==> wire[j] != wire[k])
  {
    var wire := [OpenFrame] + said + [CloseFrame] + tail;
    forall k | 0 <= k < |wire|
      ensures wire[k].OpenFrame? <==> k == 0
      ensures wire[k].MsgFrame? <==> 0 < k <= |said|
      ensures wire[k].CloseFrame? <==> k == |said| + 1
    {
      if k == 0 {
        assert wire[k] == OpenFrame;
      } else if k <= |said| {
        assert wire[k] == said[k - 1] && said[k - 1] in said;
      } else if k == |said| + 1 {
        assert wire[k] == CloseFrame;
      } else {
        assert wire[k] == tail[k - |said| - 2] && tail[k - |said| - 2] in tail;
      }
    }
  }

  /** What follows the conversation. */
  lemma TailFrames(w: World, opts: Options, p: Progress, t: Trace, s: Account, n: nat, r: Result<Summary>)
    requires Synced(w, opts, p, t, s, n, r)
    ensures var head := t.closed.wire;
            && head == [OpenFrame] + Said(w, n) + [CloseFrame]
            && |s.wire| >= |head| && s.wire[..|head|] == head
            && (forall f :: f in s.wire[|head|..] ==> f.EventFrame? && f.id in s.summary.local)
            && (forall j, k :: 0 <= j < k < |s.wire[|head|..]| ==> s.wire[|head|..][j] != s.wire[|head|..][k])
  {
    assert s.wire == t.uploaded.wire && s.summary.local == t.closed.summary.local;
    var head := t.closed.wire;
    if t.uploaded != t.closed {
      PublishesDistinct(w, t.closed.summary.local, t.uploaded.wire[|head|..]);
    }
  }

  /** As many frames as ids means each id has one frame. */
  lemma PublishesDistinct(w: World, ids: set<EventId>, frames: seq<Frame>)
    requires Publishes(w, ids, frames)
    ensures forall j, k :: 0 <= j < k < |frames| ==> frames[j] != frames[k]
  {
    var seen := set f | f in frames;
    var wanted := set id | id in Publishable(w, ids) :: EventFrame(id);
    assert seen == wanted;
    FrameCount(Publishable(w, ids), wanted);
    AllDistinct(frames, seen);
  }

  lemma {:induction false} FrameCount(ids: set<EventId>, frames: set<Frame>)
    requires frames == set id | id in ids :: EventFrame(id)
    ensures |frames| == |ids|
  {
    if ids != {} {
      var id :| id in ids;
      var fewer := set i | i in ids - {id} :: EventFrame(i);
      FrameCount(ids - {id}, fewer);
      assert frames == fewer + {EventFrame(id)};
    }
  }

  lemma {:induction false} AllDistinct(frames: seq<Frame>, seen: set<Frame>)
    requires seen == (set f | f in frames) && |seen| == |frames|
    ensures forall j, k :: 0 <= j < k < |frames| ==> frames[j] != frames[k]
    decreases |frames|
  {
    if frames != [] {
      var front, last := frames[..|frames| - 1], frames[|frames| - 1];
      var fewer := set f | f in front;
      assert frames == front + [last];
      assert seen == fewer + {last};
      AtMost(front, fewer);
      assert last !in fewer;
      AllDistinct(front, fewer);
    }
  }

  lemma {:induction false} AtMost(frames: seq<Frame>, seen: set<Frame>)
    requires seen == set f | f in frames
    ensures |seen| <= |frames|
    decreases |frames|
  {
    if frames != [] {
      var front, last := frames[..|frames| - 1], frames[|frames| - 1];
      var fewer := set f | f in front;
      AtMost(front, fewer);
      assert frames == front + [last];
      assert seen == fewer + {last};
    }
  }

  /** `total` grows by exactly the number of classified ids, up to saturation, in every outcome. */
  lemma TotalGrows(w: World, opts: Options, p: Progress, t: Trace, s: Account, n: nat, r: Result<Summary>)
    requires Synced(w, opts, p, t, s, n, r) && p.total <= U64_MAX && opts.progress
    ensures s.progress.total == Saturate(p.total + |s.summary.local| + |s.summary.remote|)
    ensures s.summary.local == if DoUp(opts.direction) then Haves(w, n) else {}
    ensures s.summary.remote == if DoDown(opts.direction) then Needs(w, n) else {}
  {
    ClassifiedOnce(w, opts.direction, n);
    ClassifiedAre(w, opts.direction, n);
    assert s.progress.total == t.uploaded.progress.total == t.closed.progress.total;
    assert s.summary.local == t.uploaded.summary.local == t.closed.summary.local;
    assert s.summary.remote == t.uploaded.summary.remote == t.closed.summary.remote;
  }

  // ----- upload -----

  lemma Partition(w: World, ids: set<EventId>)
    ensures Sending(w, ids) !! Failing(w, ids).Keys && Sending(w, ids) + Failing(w, ids).Keys == ids
  {
  }

  predicate Uploads(opts: Options, t: Trace) { t.reconciled.Ok? && !opts.dryRun && DoUp(opts.direction) }

  /** After the upload, what was sent and what failed partition `local`; at the end the failures also hold the fetched
      events that could not be saved, so the partition is still exact if and only if those are failed uploads too. */
  lemma UploadPartition(w: World, opts: Options, p: Progress, t: Trace, s: Account, n: nat, r: Result<Summary>)
    requires Synced(w, opts, p, t, s, n, r) && Uploads(opts, t)
    ensures var u := t.uploaded.summary; u.sent !! u.failures.Keys && u.sent + u.failures.Keys == u.local
    ensures s.summary.sent == t.uploaded.summary.sent && s.summary.local == t.uploaded.summary.local
    ensures var f := s.summary;
            (f.sent !! f.failures.Keys && f.sent + f.failures.Keys == f.local)
            <==> SaveFailures(w, t.handled).Keys <= f.local - f.sent
  {
    var local := t.closed.summary.local;
    ClassifiedAre(w, opts.direction, n);
    Partition(w, local);
    var u := t.uploaded.summary;
    assert u.sent == Sending(w, local) && u.failures == Failing(w, local);
    assert s.summary.failures == u.failures + SaveFailures(w, t.handled);
    assert s.summary.failures.Keys == u.failures.Keys + SaveFailures(w, t.handled).Keys;
  }

  // ----- download -----

  lemma LastIdIsNew(events: seq<Event>)
    requires EventSet.DistinctIds(events) && events != []
    ensures forall e :: e in events[..|events| - 1] ==> e.id != events[|events| - 1].id
  {
  }

  lemma {:induction false} FailureKeys(w: World, events: seq<Event>)
    requires EventSet.DistinctIds(events)
    ensures SaveFailures(w, events).Keys == Ids(w, events, Unsaved)
    ensures forall e :: e in events && FateOf(w, e) == Unsaved ==>
              e.id in SaveFailures(w, events) && Some(SaveFailures(w, events)[e.id]) == SaveResult(w, e)
    decreases |events|
  {
    if events != [] {
      var front, last := events[..|events| - 1], events[|events| - 1];
      FailureKeys(w, front);
      assert events == front + [last];
      IdsStep(w, front, last, Unsaved);
      LastIdIsNew(events);
    }
  }

  lemma {:induction false} RejectionKeys(w: World, events: seq<Event>)
    requires EventSet.DistinctIds(events)
    ensures Rejections(w, events).Keys == Ids(w, events, Vetoed)
    ensures forall e :: e in events && FateOf(w, e) == Vetoed ==>
              e.id in Rejections(w, events) && Reject(Rejections(w, events)[e.id]) == Admission(w, e)
    decreases |events|
  {
    if events != [] {
      var front, last := events[..|events| - 1], events[|events| - 1];
      RejectionKeys(w, front);
      assert events == front + [last];
      IdsStep(w, front, last, Vetoed);
      LastIdIsNew(events);
    }
  }

  lemma {:induction false} AdmittedAre(w: World, events: seq<Event>)
    ensures forall e :: e in Admitted(w, events) <==> e in events && Admission(w, e).Admit?
    decreases |events|
  {
    if events != [] {
      AdmittedAre(w, events[..|events| - 1]);
      assert events == events[..|events| - 1] + [events[|events| - 1]];
    }
  }

  lemma FatesDisjoint(w: World, events: seq<Event>, f: Fate, g: Fate)
    requires EventSet.DistinctIds(events) && f != g
    ensures Ids(w, events, f) !! Ids(w, events, g)
  {
    forall a, b | a in events && b in events && FateOf(w, a) == f && FateOf(w, b) == g
      ensures a.id != b.id
    {
      var i :| 0 <= i < |events| && events[i] == a;
      var j :| 0 <= j < |events| && events[j] == b;
      assert i != j;
    }
  }

  /** Only admitted events reach `save_event`, in every outcome; received and vetoed ids never meet. */
  lemma AdmissionGate(w: World, opts: Options, p: Progress, t: Trace, s: Account, n: nat, r: Result<Summary>)
    requires Synced(w, opts, p, t, s, n, r)
    ensures forall e :: e in s.saved <==> e in t.handled && Admission(w, e).Admit?
    ensures s.summary.received == Ids(w, t.handled, Kept) && s.summary.rejected.Keys == Ids(w, t.handled, Vetoed)
    ensures s.summary.received !! s.summary.rejected.Keys
    ensures s.summary.received + Ids(w, t.handled, Unsaved) == set e | e in s.saved :: e.id
  {
    HandledDistinct(w, opts, p, t, s, n, r);
    DownloadTrace(w, opts, p, t, s, n, r);
    GateFacts(w, t.uploaded, s, opts, t.handled);
  }

  /** The account before the download is untouched by it. */
  lemma DownloadTrace(w: World, opts: Options, p: Progress, t: Trace, s: Account, n: nat, r: Result<Summary>)
    requires Synced(w, opts, p, t, s, n, r)
    ensures t.uploaded.summary.received == {} && t.uploaded.summary.rejected == map[] && t.uploaded.saved == []
    ensures (s == t.uploaded && t.handled == []) || DownloadedFrom(w, opts.progress, t.uploaded, s, t.handled)
  {
    ClassifiedAre(w, opts.direction, n);
  }

  lemma GateFacts(w: World, a: Account, b: Account, opts: Options, handled: seq<Event>)
    requires a.summary.received == {} && a.summary.rejected == map[] && a.saved == [] && EventSet.DistinctIds(handled)
    requires (b == a && handled == []) || DownloadedFrom(w, opts.progress, a, b, handled)
    ensures forall e :: e in b.saved <==> e in handled && Admission(w, e).Admit?
    ensures b.summary.received == Ids(w, handled, Kept) && b.summary.rejected.Keys == Ids(w, handled, Vetoed)
    ensures b.summary.received !! b.summary.rejected.Keys
    ensures b.summary.received + Ids(w, handled, Unsaved) == set e | e in b.saved :: e.id
  {
    Gathered(a, b, w, opts, handled);
    AdmittedAre(w, handled);
    RejectionKeys(w, handled);
    FatesDisjoint(w, handled, Kept, Vetoed);
  }

  lemma HandledDistinct(w: World, opts: Options, p: Progress, t: Trace, s: Account, n: nat, r: Result<Summary>)
    requires Synced(w, opts, p, t, s, n, r)
    ensures EventSet.DistinctIds(t.handled)
  {
  }

  lemma Gathered(a: Account, b: Account, w: World, opts: Options, handled: seq<Event>)
    requires a.summary.received == {} && a.summary.rejected == map[] && a.saved == []
    requires (b == a && handled == []) || DownloadedFrom(w, opts.progress, a, b, handled)
    ensures b.summary.received == Ids(w, handled, Kept) && b.summary.rejected.Keys == Rejections(w, handled).Keys
    ensures b.saved == Admitted(w, handled)
  {
  }

  /** The events a sync pulls for its remote-only ids; without any it does not ask. */
  function Pulled(w: World, remote: set<EventId>): seq<Event> {
    if remote == {} || Fetched(w, remote).None? then [] else EventSet.Canonical(Arrived(Fetched(w, remote).value))
  }

  /** A sync that ends well, in a direction that downloads, accounts for every fetched event exactly once: kept, vetoed,
      or failed to save. */
  lemma DownloadPartition(w: World, opts: Options, p: Progress, t: Trace, s: Account, n: nat, r: Result<Summary>)
    requires Synced(w, opts, p, t, s, n, r) && r.Ok? && !opts.dryRun && DoDown(opts.direction)
    ensures t.handled == Pulled(w, s.summary.remote) && (s.summary.remote != {} ==> Fetched(w, s.summary.remote).Some?)
    ensures var received, rejected := s.summary.received, s.summary.rejected.Keys;
            var failed := SaveFailures(w, t.handled).Keys;
            && received !! rejected && received !! failed && rejected !! failed
            && received + rejected + failed == set e | e in t.handled :: e.id
    ensures SaveFailures(w, t.handled).Keys <= s.summary.failures.Keys
  {
    AdmissionGate(w, opts, p, t, s, n, r);
    HandledDistinct(w, opts, p, t, s, n, r);
    AllHandled(w, opts, p, t, s, n, r);
    FailureKeys(w, t.handled);
    FatesCover(w, t.handled);
  }

  lemma AllHandled(w: World, opts: Options, p: Progress, t: Trace, s: Account, n: nat, r: Result<Summary>)
    requires Synced(w, opts, p, t, s, n, r) && r.Ok? && !opts.dryRun
    ensures t.handled == if DoDown(opts.direction) then Pulled(w, s.summary.remote) else []
    ensures DoDown(opts.direction) && s.summary.remote != {} ==> Fetched(w, s.summary.remote).Some?
    ensures forall e :: e in t.handled ==> FateOf(w, e) != Undecided
    ensures SaveFailures(w, t.handled).Keys <= s.summary.failures.Keys
  {
  }

  /** Decided events fall into exactly one class each. */
  lemma FatesCover(w: World, events: seq<Event>)
    requires EventSet.DistinctIds(events) && forall e :: e in events ==> FateOf(w, e) != Undecided
    ensures Ids(w, events, Kept) !! Ids(w, events, Vetoed) && Ids(w, events, Kept) !! Ids(w, events, Unsaved)
    ensures Ids(w, events, Vetoed) !! Ids(w, events, Unsaved)
    ensures Ids(w, events, Kept) + Ids(w, events, Vetoed) + Ids(w, events, Unsaved) == set e | e in events :: e.id
  {
    FatesDisjoint(w, events, Kept, Vetoed);
    FatesDisjoint(w, events, Kept, Unsaved);
    FatesDisjoint(w, events, Vetoed, Unsaved);
    forall e | e in events
      ensures e.id in Ids(w, events, Kept) + Ids(w, events, Vetoed) + Ids(w, events, Unsaved)
    {
      assert FateOf(w, e) == Kept || FateOf(w, e) == Vetoed || FateOf(w, e) == Unsaved;
    }
  }

  /** A dry run, or a reconciliation that fails, exchanges nothing. */
  lemma NothingExchanged(w: World, opts: Options, p: Progress, t: Trace, s: Account, n: nat, r: Result<Summary>)
    requires Synced(w, opts, p, t, s, n, r) && (opts.dryRun || t.reconciled.Err?)
    ensures s.saved == [] && s.wire == [OpenFrame] + Said(w, n) + [CloseFrame]
    ensures s.summary == Classified(w, opts.direction, n)
    ensures s.summary.sent == {} && s.summary.received == {} && s.summary.failures == map[]
    ensures s.summary.rejected == map[]
  {
    ClassifiedAre(w, opts.direction, n);
  }

  // ----- progress -----

  /** In any direction and from any state of the channel, a listener sees `current` equal to `total` after a sync that
      ended well if and only if what was there before, the events that could be loaded for upload and the events that
      were fetched are as many as what was announced before and the ids that were classified. */
  lemma CompletesIff(w: World, opts: Options, p: Progress, t: Trace, s: Account, n: nat, r: Result<Summary>)
    requires Synced(w, opts, p, t, s, n, r) && r.Ok? && !opts.dryRun && opts.progress
    requires p.current <= U64_MAX && p.total + |s.summary.local| + |s.summary.remote| < U64_MAX
    ensures s.progress.current == s.progress.total
            <==> p.current + |Publishable(w, s.summary.local)| + |Pulled(w, s.summary.remote)|
                 == p.total + |s.summary.local| + |s.summary.remote|
  {
    TotalGrows(w, opts, p, t, s, n, r);
    AllHandled(w, opts, p, t, s, n, r);
    Ticks(w, opts, p, t, s, n, r);
  }

  lemma Ticks(w: World, opts: Options, p: Progress, t: Trace, s: Account, n: nat, r: Result<Summary>)
    requires Synced(w, opts, p, t, s, n, r) && r.Ok? && !opts.dryRun && opts.progress && p.current <= U64_MAX
    ensures s.progress.current == Saturate(p.current + |Publishable(w, s.summary.local)| + |t.handled|)
    ensures !DoDown(opts.direction) ==> s.summary.remote == {}
  {
    ClassifiedAre(w, opts.direction, n);
    var local := t.closed.summary.local;
    assert s.summary.local == local && t.closed.progress.current == p.current;
    if !DoUp(opts.direction) {
      assert Publishable(w, local) == {};
    }
    TickedTwice(opts.progress, t.closed.progress, |Publishable(w, local)|, |t.handled|);
  }

  /** An upload ticks as much as it announces if and only if every local-only event could be loaded: ids that are
      missing from the database are recorded as failures but never ticked. */
  lemma UploadCompletesIff(w: World, opts: Options, p: Progress, t: Trace, s: Account, n: nat, r: Result<Summary>)
    requires Synced(w, opts, p, t, s, n, r) && r.Ok? && !opts.dryRun && opts.progress && opts.direction.Up?
    requires p.current + |s.summary.local| <= U64_MAX && p.total + |s.summary.local| <= U64_MAX
    ensures s.progress.current - p.current == s.progress.total - p.total
            <==> forall id :: id in s.summary.local ==> StoredAs(w, id).Found?
  {
    TotalGrows(w, opts, p, t, s, n, r);
    AllHandled(w, opts, p, t, s, n, r);
    Ticks(w, opts, p, t, s, n, r);
    AllFound(w, s.summary.local);
    FewerFound(w, s.summary.local);
  }

  lemma FewerFound(w: World, ids: set<EventId>)
    ensures |Publishable(w, ids)| <= |ids|
  {
    var found := Publishable(w, ids);
    assert ids == found + (ids - found);
  }

  lemma AllFound(w: World, ids: set<EventId>)
    ensures |Publishable(w, ids)| == |ids| <==> forall id :: id in ids ==> StoredAs(w, id).Found?
  {
    var found := Publishable(w, ids);
    assert ids == found + (ids - found);
    assert |ids| == |found| + |ids - found|;
    if |found| == |ids| {
      assert ids - found == {};
      forall id | id in ids
        ensures StoredAs(w, id).Found?
      {
        assert id in found;
      }
    } else {
      var id :| id in ids - found;
      assert !StoredAs(w, id).Found?;
    }
  }

  /** A relay that names one id it does not deliver: reconciliation converges at once, the fetch comes back empty. */
  function Withholding(id: EventId): World {
    World(true, true, (n: nat) => Some(NegMsg([])), (heard: seq<Text>) => Some(Outcome([], [id], None)),
          (n: nat) => true, (i: EventId) => Found, (i: EventId) => None, (ids: set<EventId>) => Some([]),
          (e: Event) => Admit, (e: Event) => None)
  }

  /** Against it a sync in both directions ends well, with every local event loaded, and never reaches its total. */
  lemma WithheldEventStalls(id: EventId)
    ensures exists t: Trace, s: Account ::
              && Synced(Withholding(id), Options(Both, false, true), Progress(0, 0), t, s, 1, Ok(s.summary))
              && s.summary.local == {} && s.progress == Progress(1, 0)
  {
    var w, opts := Withholding(id), Options(Both, false, true);
    WithheldRound(id);
    var s := Account(NOTHING.(remote := {id}), Progress(1, 0), [OpenFrame, CloseFrame], []);
    var t := Trace(Ok(()), s, s, [], Ok(()));
    UploadNone(w, true, s);
    DownloadNone(w, true, s);
    assert EventSet.Canonical(Arrived([])) == [];
    assert HandledOf(w, {id}, [], Ok(()));
    assert [OpenFrame] + Said(w, 1) + [CloseFrame] == [OpenFrame, CloseFrame];
    assert Closed(w, opts, Progress(0, 0), s, 1, Ok(()));
    assert Synced(w, opts, Progress(0, 0), t, s, 1, Ok(s.summary));
  }

  /** A relay that delivers the one id it names, to a database that cannot save it. */
  function Unsavable(id: EventId, reason: Text): World {
    Withholding(id).(fetch := (ids: set<EventId>) => Some([Some(Plain(id))]), save := (e: Event) => Some(reason))
  }

  function Plain(id: EventId): Event { Event(id, [], 0, 1, [], [], []) }

  /** Against it a sync in both directions ends well with a failure that was never an upload. */
  lemma SaveErrorAmongFailures(id: EventId, reason: Text)
    ensures exists t: Trace, s: Account ::
              && Synced(Unsavable(id, reason), Options(Both, false, true), Progress(0, 0), t, s, 1, Ok(s.summary))
              && s.summary.local == {} && s.summary.failures == map[id := reason]
  {
    var w, opts, e := Unsavable(id, reason), Options(Both, false, true), Plain(id);
    UnsavableRound(id, reason);
    var a := Account(NOTHING.(remote := {id}), Progress(1, 0), [OpenFrame, CloseFrame], []);
    var s := Account(NOTHING.(remote := {id}, failures := map[id := reason]), Progress(1, 1), a.wire, [e]);
    var t := Trace(Ok(()), a, a, [e], Ok(()));
    UploadNone(w, true, a);
    DownloadNone(w, true, a);
    assert DownloadedOne(w, true, a, s, e);
    DownloadStep(w, true, a, a, s, [], e);
    assert [] + [e] == [e];
    OneArrival(e);
    assert HandledOf(w, {id}, [e], Ok(()));
    assert [OpenFrame] + Said(w, 1) + [CloseFrame] == [OpenFrame, CloseFrame];
    assert Closed(w, opts, Progress(0, 0), a, 1, Ok(()));
    assert Synced(w, opts, Progress(0, 0), t, s, 1, Ok(s.summary));
  }

  lemma OneArrival(e: Event)
    ensures EventSet.Canonical(Arrived([Some(e)])) == [e] && EventSet.DistinctIds([e])
  {
    assert [Some(e)][..0] == [];
    assert Arrived([Some(e)]) == [] + [e];
    EventSet.Singleton(e);
  }

  lemma WithheldRound(id: EventId)
    ensures OneRound(Withholding(id), id)
  {
    NamesOne(Withholding(id), id);
  }

  lemma UnsavableRound(id: EventId, reason: Text)
    ensures OneRound(Unsavable(id, reason), id)
  {
    NamesOne(Unsavable(id, reason), id);
  }

  /** The first round converges and classifies `id` as theirs. */
  ghost predicate OneRound(w: World, id: EventId) {
    && Conversed(w, 1) && Ending(w, 1) == Ok(()) && Said(w, 1) == []
    && Classified(w, Both, 1) == NOTHING.(remote := {id}) && Classifications(w, Both, 1) == 1
  }

  lemma NamesOne(w: World, id: EventId)
    requires ItemAt(w, 0) == Some(NegMsg([])) && Reconcile(w, [[]]) == Some(Outcome([], [id], None))
    ensures OneRound(w, id)
  {
    assert Heard(w, 0) == [] && Heard(w, 1) == [[]];
    assert OutcomeAt(w, 0) == Some(Outcome([], [id], None));
    assert !Replies(w, 0) && Converges(w, 0) && !Continues(w, 0);
    assert Said(w, 0) == [] && Said(w, 1) == Said(w, 0) + ReplyAt(w, 0);
    assert Classified(w, Both, 0) == NOTHING;
    assert Classified(w, Both, 1) == Folded(Both, NOTHING, Outcome([], [id], None));
    assert Elems<EventId>([]) == {} && Elems([id]) == {id};
    NewIdsAre([id], {});
    NewIdsAre([], {});
    assert {} + Elems([id]) == {id};
    assert Classifications(w, Both, 0) == 0;
  }

  // ----- several relays -----

  /** `SyncSummary::merge`. */
  function Merge(a: Summary, b: Summary): Summary {
    Summary(a.local + b.local, a.remote + b.remote, a.sent + b.sent, a.received + b.received,
            a.failures + b.failures, a.rejected + b.rejected)
  }

  /** Every local id is accounted for. */
  predicate Covered(s: Summary) { s.local <= s.sent + s.failures.Keys }

  /** The summaries folded from left to right. */
  function MergeAll(summaries: seq<Summary>): Summary {
    if summaries == [] then NOTHING
    else Merge(MergeAll(summaries[..|summaries| - 1]), summaries[|summaries| - 1])
  }

  /** `sync_with`: the first failing relay aborts the call; otherwise the summaries are merged in order. */
  method SyncWith(runs: seq<Result<Summary>>) returns (r: Result<Summary>)
    ensures r.Ok? <==> forall k :: 0 <= k < |runs| ==> runs[k].Ok?
    ensures r.Err? ==> exists k :: 0 <= k < |runs| && runs[k] == r && forall j :: 0 <= j < k ==> runs[j].Ok?
    ensures r.Ok? ==> Combines(Values(runs), r.value)
  {
    var merged := NOTHING;
    ghost var done: seq<Summary> := [];
    for k := 0 to |runs|
      invariant forall j :: 0 <= j < k ==> runs[j].Ok?
      invariant |done| == k && (forall j :: 0 <= j < k ==> runs[j].value == done[j])
      invariant merged == MergeAll(done)
    {
      if runs[k].Err? {
        return runs[k];
      }
      merged := Merge(merged, runs[k].value);
      assert (done + [runs[k].value])[..k] == done;
      done := done + [runs[k].value];
    }
    assert done == Values(runs);
    MergeAllCombines(done);
    r := Ok(merged);
  }

  function Values(runs: seq<Result<Summary>>): (r: seq<Summary>)
    requires forall k :: 0 <= k < |runs| ==> runs[k].Ok?
    ensures |r| == |runs| && forall k :: 0 <= k < |runs| ==> r[k] == runs[k].value
  {
    seq(|runs|, k requires 0 <= k < |runs| => runs[k].value)
  }

  /** The sets are the unions, and of several reasons for one id the last relay's counts. */
  ghost predicate Combines(parts: seq<Summary>, s: Summary) {
    && (forall id :: id in s.local <==> exists k :: 0 <= k < |parts| && id in parts[k].local)
    && (forall id :: id in s.remote <==> exists k :: 0 <= k < |parts| && id in parts[k].remote)
    && (forall id :: id in s.sent <==> exists k :: 0 <= k < |parts| && id in parts[k].sent)
    && (forall id :: id in s.received <==> exists k :: 0 <= k < |parts| && id in parts[k].received)
    && (forall id :: id in s.failures <==> exists k :: 0 <= k < |parts| && id in parts[k].failures)
    && (forall id :: id in s.rejected <==> exists k :: 0 <= k < |parts| && id in parts[k].rejected)
    && (forall id, k :: 0 <= k < |parts| && id in parts[k].failures && LastFailure(parts, id, k) ==>
          id in s.failures && s.failures[id] == parts[k].failures[id])
    && (forall id, k :: 0 <= k < |parts| && id in parts[k].rejected && LastRejection(parts, id, k) ==>
          id in s.rejected && s.rejected[id] == parts[k].rejected[id])
  }

  /** No relay after the `k`-th failed for `id`. */
  predicate LastFailure(parts: seq<Summary>, id: EventId, k: int) {
    forall j :: 0 <= j < |parts| && k < j ==> id !in parts[j].failures
  }

  /** No relay after the `k`-th had `id` vetoed. */
  predicate LastRejection(parts: seq<Summary>, id: EventId, k: int) {
    forall j :: 0 <= j < |parts| && k < j ==> id !in parts[j].rejected
  }

  lemma {:induction false} MergeAllCombines(parts: seq<Summary>)
    ensures Combines(parts, MergeAll(parts))
    decreases |parts|
  {
    if parts != [] {
      var front, last := parts[..|parts| - 1], parts[|parts| - 1];
      MergeAllCombines(front);
      CombineSets(front, last, MergeAll(front));
      CombineFailures(front, last, MergeAll(front));
      CombineRejections(front, last, MergeAll(front));
      assert parts == front + [last];
    }
  }

  lemma CombineSets(front: seq<Summary>, last: Summary, m: Summary)
    requires Combines(front, m)
    ensures var s, parts := Merge(m, last), front + [last];
            && (forall id :: id in s.local <==> exists k :: 0 <= k < |parts| && id in parts[k].local)
            && (forall id :: id in s.remote <==> exists k :: 0 <= k < |parts| && id in parts[k].remote)
            && (forall id :: id in s.sent <==> exists k :: 0 <= k < |parts| && id in parts[k].sent)
            && (forall id :: id in s.received <==> exists k :: 0 <= k < |parts| && id in parts[k].received)
  {
    SnocParts(front, last);
  }

  lemma SnocParts(front: seq<Summary>, last: Summary)
    ensures var parts := front + [last];
            parts[|front|] == last && forall k :: 0 <= k < |front| ==> parts[k] == front[k]
  {
  }

  lemma CombineFailures(front: seq<Summary>, last: Summary, m: Summary)
    requires Combines(front, m)
    ensures var s, parts := Merge(m, last), front + [last];
            && (forall id :: id in s.failures <==> exists k :: 0 <= k < |parts| && id in parts[k].failures)
            && (forall id, k :: 0 <= k < |parts| && id in parts[k].failures && LastFailure(parts, id, k) ==>
                  id in s.failures && s.failures[id] == parts[k].failures[id])
  {
    SnocParts(front, last);
    var s, parts := Merge(m, last), front + [last];
    forall id, k | 0 <= k < |parts| && id in parts[k].failures && LastFailure(parts, id, k)
      ensures id in s.failures && s.failures[id] == parts[k].failures[id]
    {
      if k < |front| {
        assert id !in parts[|front|].failures;
        assert LastFailure(front, id, k);
      }
    }
  }

  lemma CombineRejections(front: seq<Summary>, last: Summary, m: Summary)
    requires Combines(front, m)
    ensures var s, parts := Merge(m, last), front + [last];
            && (forall id :: id in s.rejected <==> exists k :: 0 <= k < |parts| && id in parts[k].rejected)
            && (forall id, k :: 0 <= k < |parts| && id in parts[k].rejected && LastRejection(parts, id, k) ==>
                  id in s.rejected && s.rejected[id] == parts[k].rejected[id])
  {
    SnocParts(front, last);
    var s, parts := Merge(m, last), front + [last];
    forall id, k | 0 <= k < |parts| && id in parts[k].rejected && LastRejection(parts, id, k)
      ensures id in s.rejected && s.rejected[id] == parts[k].rejected[id]
    {
      if k < |front| {
        assert id !in parts[|front|].rejected;
        assert LastRejection(front, id, k);
      }
    }
  }

  /** So every local id stays accounted for when each relay's are. */
  lemma CoverageMerges(parts: seq<Summary>)
    requires forall k :: 0 <= k < |parts| ==> Covered(parts[k])
    ensures Covered(MergeAll(parts))
  {
    MergeAllCombines(parts);
    var s := MergeAll(parts);
    forall id | id in s.local
      ensures id in s.sent + s.failures.Keys
    {
      var k :| 0 <= k < |parts| && id in parts[k].local;
      assert Covered(parts[k]) && id in parts[k].sent + parts[k].failures.Keys;
    }
  }

  /** Two relays may deal with one event differently, so what is disjoint per relay stays disjoint after the merge if
      and only if neither relay's failures meet the other's deliveries. */
  lemma MergeDisjointIff(a: Summary, b: Summary)
    requires a.sent !! a.failures.Keys && b.sent !! b.failures.Keys
    ensures Merge(a, b).sent !! Merge(a, b).failures.Keys <==> a.sent !! b.failures.Keys && b.sent !! a.failures.Keys
  {
    assert Merge(a, b).failures.Keys == a.failures.Keys + b.failures.Keys;
    assert Merge(a, b).sent == a.sent + b.sent;
  }
}
