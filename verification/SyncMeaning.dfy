/** What a sync asks for, answers, records and returns, spelled out by the world it runs in. */
module SyncMeaning {
  import opened Bytes
  import opened Filters
  import opened Sync
  import SyncFacts
  import EventSet

  // ----- the conversation -----

  /** The `k`-th item of the stream is a `NEG-MSG`. */
  ghost predicate Hears(w: World, k: nat) { w.item(k).Some? && w.item(k).value.NegMsg? }

  /** `heard` are the payloads of the `NEG-MSG`s among the first `n` items, found at the positions `at`. */
  ghost predicate Collects(w: World, n: nat, at: seq<nat>, heard: seq<Text>) {
    && |at| == |heard| && Rising(at, n)
    && (forall i :: 0 <= i < |at| ==> Hears(w, at[i]) && heard[i] == w.item(at[i]).value.payload)
    && (forall k: nat :: k < n && Hears(w, k) ==> k in at)
  }

  lemma CollectsStep(w: World, n: nat, at: seq<nat>, heard: seq<Text>)
    requires Collects(w, n, at, heard)
    ensures Hears(w, n) ==> Collects(w, n + 1, at + [n], heard + [w.item(n).value.payload])
    ensures !Hears(w, n) ==> Collects(w, n + 1, at, heard)
  {
    RisingStep(at, n);
  }

  /** `heard` are the payloads of the `NEG-MSG`s among the first `n` items, in order. */
  ghost predicate Collected(w: World, n: nat, heard: seq<Text>) { exists at: seq<nat> :: Collects(w, n, at, heard) }

  lemma CollectedNext(w: World, n: nat, heard: seq<Text>, next: seq<Text>)
    requires Collected(w, n, heard)
    requires next == if Hears(w, n) then [w.item(n).value.payload] else []
    ensures Collected(w, n + 1, heard + next)
  {
    var at: seq<nat> :| Collects(w, n, at, heard);
    CollectsStep(w, n, at, heard);
    assert next == [] ==> heard + next == heard;
  }

  lemma CollectedNone(w: World)
    ensures Collected(w, 0, [])
  {
    assert Collects(w, 0, [], []);
  }

  lemma HeardNext(w: World, n: nat)
    requires Collected(w, n, Heard(w, n))
    ensures Collected(w, n + 1, Heard(w, n + 1))
  {
    var next := if IsMsg(w, n) then [ItemAt(w, n).value.payload] else [];
    assert Hears(w, n) <==> IsMsg(w, n);
    CollectedNext(w, n, Heard(w, n), next);
  }

  /** The session has heard every `NEG-MSG` so far, in order. */
  lemma {:induction false} HeardAre(w: World, n: nat)
    ensures Collected(w, n, Heard(w, n))
  {
    if n == 0 {
      CollectedNone(w);
    } else {
      HeardAre(w, n - 1);
      HeardNext(w, n - 1);
    }
  }

  /** Round `k` leaves the loop running: another kind of message, or one that is answered. */
  ghost predicate GoesOn(w: World, k: nat) {
    && w.item(k).Some?
    && match w.item(k).value
       case NegErr(_) => false
       case Other => true
       case NegMsg(_) =>
         w.reconcile(Heard(w, k + 1)).Some? && w.reconcile(Heard(w, k + 1)).value.next.Some? && w.sends(k)
  }

  /** The loop asks for items until a round ends it, and for at most 1024. */
  lemma AskedIff(w: World, n: nat)
    ensures Conversed(w, n) <==> && 1 <= n <= 1024
                                 && (forall k: nat :: k < n - 1 ==> GoesOn(w, k))
                                 && (n < 1024 ==> !GoesOn(w, n - 1))
  {
    forall k: nat
      ensures GoesOn(w, k) <==> Continues(w, k)
    {
    }
  }

  /** How the loop ends is decided by the last item asked for, the session and the connection. */
  lemma EndingIff(w: World, n: nat)
    requires n > 0
    ensures var heard := w.reconcile(Heard(w, n));
            && (Ending(w, n) == Ok(()) <==> Hears(w, n - 1) && heard.Some? && heard.value.next.None?)
            && (Ending(w, n) == Err(SessionFailed) <==> Hears(w, n - 1) && heard.None?)
            && (Ending(w, n) == Err(RelayFailed)
                <==> Hears(w, n - 1) && heard.Some? && heard.value.next.Some? && !w.sends(n - 1))
            && (Ending(w, n) == Err(StreamClosed) <==> w.item(n - 1).None? || GoesOn(w, n - 1))
    ensures forall reason :: Ending(w, n) == Err(SyncFailed(reason)) <==> w.item(n - 1) == Some(NegErr(reason))
  {
  }

  /** The answer to the `j`-th message is what the session makes of the first `j + 1` messages. */
  lemma {:induction false} SaidAre(w: World, n: nat)
    requires n > 0 ==> Running(w, n - 1)
    ensures |Said(w, n)| <= |Heard(w, n)|
    ensures forall j :: 0 <= j < |Said(w, n)| ==> Answers(w, Heard(w, n), Said(w, n)[j], j)
  {
    if n > 0 {
      assert n > 1 ==> Running(w, n - 2);
      SaidAre(w, n - 1);
      AllButLastAnswered(w, n - 1);
      forall j | 0 <= j < |Said(w, n)|
        ensures Answers(w, Heard(w, n), Said(w, n)[j], j)
      {
        if j < |Said(w, n - 1)| {
          assert Answers(w, Heard(w, n - 1), Said(w, n - 1)[j], j);
          assert Heard(w, n)[..j + 1] == Heard(w, n - 1)[..j + 1];
        } else {
          assert Heard(w, n)[..j + 1] == Heard(w, n);
        }
      }
    }
  }

  ghost predicate Answers(w: World, heard: seq<Text>, f: Frame, j: nat)
    requires j < |heard|
  {
    && w.reconcile(heard[..j + 1]).Some? && w.reconcile(heard[..j + 1]).value.next.Some?
    && f == MsgFrame(w.reconcile(heard[..j + 1]).value.next.value)
  }

  // ----- the summary -----

  /** Round `k` classified `id` as ours only. */
  ghost predicate ReportsHave(w: World, k: nat, id: EventId) {
    Hears(w, k) && w.reconcile(Heard(w, k + 1)).Some? && id in w.reconcile(Heard(w, k + 1)).value.have
  }

  /** Round `k` classified `id` as theirs only. */
  ghost predicate ReportsNeed(w: World, k: nat, id: EventId) {
    Hears(w, k) && w.reconcile(Heard(w, k + 1)).Some? && id in w.reconcile(Heard(w, k + 1)).value.need
  }

  lemma {:induction false} HavesIff(w: World, n: nat, id: EventId)
    ensures id in Haves(w, n) <==> exists k: nat :: k < n && ReportsHave(w, k, id)
  {
    if n > 0 {
      HavesIff(w, n - 1, id);
      assert ReportsHave(w, n - 1, id)
        <==> OutcomeAt(w, n - 1).Some? && id in Elems(OutcomeAt(w, n - 1).value.have);
    }
  }

  lemma {:induction false} NeedsIff(w: World, n: nat, id: EventId)
    ensures id in Needs(w, n) <==> exists k: nat :: k < n && ReportsNeed(w, k, id)
  {
    if n > 0 {
      NeedsIff(w, n - 1, id);
      assert ReportsNeed(w, n - 1, id)
        <==> OutcomeAt(w, n - 1).Some? && id in Elems(OutcomeAt(w, n - 1).value.need);
    }
  }

  /** What a sync reports as local-only and remote-only is what some round of the conversation classified so, unless
      the direction is not asked for; the watched total grows by as many. */
  lemma ReportedIff(w: World, opts: Options, p: Progress, t: Trace, s: Account, n: nat, r: Result<Summary>, id: EventId)
    requires Synced(w, opts, p, t, s, n, r)
    ensures id in s.summary.local <==> opts.direction != Down && exists k: nat :: k < n && ReportsHave(w, k, id)
    ensures id in s.summary.remote <==> opts.direction != Up && exists k: nat :: k < n && ReportsNeed(w, k, id)
    ensures opts.progress && p.total <= 18446744073709551615 ==>
              var total := p.total + |s.summary.local| + |s.summary.remote|;
              s.progress.total == if total <= 18446744073709551615 then total else 18446744073709551615
  {
    HavesIff(w, n, id);
    NeedsIff(w, n, id);
    ClassifiedAre(w, opts.direction, n);
    SameClasses(w, opts, p, t, s, n, r);
    if opts.progress && p.total <= U64_MAX {
      SyncFacts.TotalGrows(w, opts, p, t, s, n, r);
    }
  }

  lemma SameClasses(w: World, opts: Options, p: Progress, t: Trace, s: Account, n: nat, r: Result<Summary>)
    requires Synced(w, opts, p, t, s, n, r)
    ensures s.summary.local == Classified(w, opts.direction, n).local == t.closed.summary.local
    ensures s.summary.remote == Classified(w, opts.direction, n).remote
  {
  }

  /** The upload takes place: reconciliation succeeded, it is no dry run and the direction is not download alone. */
  ghost predicate UploadsNow(opts: Options, t: Trace) {
    t.reconciled.Ok? && !opts.dryRun && opts.direction != Down
  }

  /** `reason` is why the upload of `id` failed: it is not stored, cannot be read, or the relay refused it. */
  ghost predicate FailsFor(w: World, id: EventId, reason: Text) {
    match w.stored(id)
    case Missing => reason == Ascii("event not found in local database")
    case Unreadable(why) => reason == why
    case Found => w.publish(id) == Some(reason)
  }

  /** An id is reported as sent if and only if it is local-only, was found in the database and accepted by the relay,
      in a sync that uploads. */
  lemma SentIff(w: World, opts: Options, p: Progress, t: Trace, s: Account, n: nat, r: Result<Summary>, id: EventId)
    requires Synced(w, opts, p, t, s, n, r)
    ensures id in s.summary.sent
            <==> UploadsNow(opts, t) && id in s.summary.local && w.stored(id) == Found && w.publish(id) == None
  {
    ClassifiedAre(w, opts.direction, n);
  }

  /** One of the events the download handled, with this id, passed the gate and could not be saved. */
  ghost predicate UnsavedFor(w: World, handled: seq<Event>, id: EventId, reason: Text) {
    exists e :: e in handled && e.id == id && w.admit(e) == Admit && w.save(e) == Some(reason)
  }

  lemma NotFoundText()
    ensures NOT_FOUND == Ascii("event not found in local database")
  {
  }

  lemma UploadFailureIff(w: World, id: EventId, reason: Text)
    ensures !Delivered(w, id) && UploadFailure(w, id) == reason <==> FailsFor(w, id, reason)
  {
    NotFoundText();
  }

  lemma {:induction false} SaveFailureIff(w: World, events: seq<Event>, id: EventId, reason: Text)
    requires EventSet.DistinctIds(events)
    ensures id in SaveFailures(w, events) && SaveFailures(w, events)[id] == reason
            <==> UnsavedFor(w, events, id, reason)
  {
    SyncFacts.FailureKeys(w, events);
    if id in SaveFailures(w, events) && SaveFailures(w, events)[id] == reason {
      var e :| e in events && FateOf(w, e) == Unsaved && e.id == id;
      assert UnsavedFor(w, events, id, reason);
    }
    if UnsavedFor(w, events, id, reason) {
      var e :| e in events && e.id == id && w.admit(e) == Admit && w.save(e) == Some(reason);
      assert FateOf(w, e) == Unsaved;
    }
  }

  /** An id is reported as failed for a reason if and only if a fetched event of that id could not be saved for it, or
      none was and its upload failed for it. */
  lemma FailedIff(w: World, opts: Options, p: Progress, t: Trace, s: Account, n: nat, r: Result<Summary>, id: EventId,
                  reason: Text)
    requires Synced(w, opts, p, t, s, n, r)
    ensures id in s.summary.failures && s.summary.failures[id] == reason
            <==> UnsavedFor(w, t.handled, id, reason)
                 || (&& UploadsNow(opts, t) && id in s.summary.local && FailsFor(w, id, reason)
                     && !exists why :: UnsavedFor(w, t.handled, id, why))
  {
    ClassifiedAre(w, opts.direction, n);
    SyncFacts.HandledDistinct(w, opts, p, t, s, n, r);
    FailuresAre(w, opts, p, t, s, n, r);
    SaveFailureIff(w, t.handled, id, reason);
    UploadFailureIff(w, id, reason);
    if id in SaveFailures(w, t.handled) {
      SaveFailureIff(w, t.handled, id, SaveFailures(w, t.handled)[id]);
    } else {
      forall why
        ensures !UnsavedFor(w, t.handled, id, why)
      {
        SaveFailureIff(w, t.handled, id, why);
      }
    }
  }

  lemma FailuresAre(w: World, opts: Options, p: Progress, t: Trace, s: Account, n: nat, r: Result<Summary>)
    requires Synced(w, opts, p, t, s, n, r)
    ensures s.summary.failures
            == (if UploadsNow(opts, t) then Failing(w, s.summary.local) else map[]) + SaveFailures(w, t.handled)
  {
    UploadFailures(w, opts, p, t, s, n, r);
    DownloadFailures(w, opts, p, t, s, n, r);
  }

  lemma UploadFailures(w: World, opts: Options, p: Progress, t: Trace, s: Account, n: nat, r: Result<Summary>)
    requires Synced(w, opts, p, t, s, n, r)
    ensures t.uploaded.summary.failures == if UploadsNow(opts, t) then Failing(w, s.summary.local) else map[]
  {
    ClassifiedAre(w, opts.direction, n);
    SameClasses(w, opts, p, t, s, n, r);
    NothingBefore(Failing(w, s.summary.local));
  }

  lemma DownloadFailures(w: World, opts: Options, p: Progress, t: Trace, s: Account, n: nat, r: Result<Summary>)
    requires Synced(w, opts, p, t, s, n, r)
    ensures s.summary.failures == t.uploaded.summary.failures + SaveFailures(w, t.handled)
  {
  }

  lemma NothingBefore(m: map<EventId, Text>)
    ensures map[] + m == m
  {
  }

  /** An id is reported as received if and only if one of the handled events of that id was admitted and saved, and as
      rejected for a reason if and only if one was vetoed for it. */
  lemma ReceivedIff(w: World, opts: Options, p: Progress, t: Trace, s: Account, n: nat, r: Result<Summary>, id: EventId,
                    reason: Option<Text>)
    requires Synced(w, opts, p, t, s, n, r)
    ensures id in s.summary.received
            <==> exists e :: e in t.handled && e.id == id && w.admit(e) == Admit && w.save(e) == None
    ensures id in s.summary.rejected && s.summary.rejected[id] == reason
            <==> exists e :: e in t.handled && e.id == id && w.admit(e) == Reject(reason)
  {
    SyncFacts.AdmissionGate(w, opts, p, t, s, n, r);
    SyncFacts.HandledDistinct(w, opts, p, t, s, n, r);
    SyncFacts.RejectionKeys(w, t.handled);
    RejectedAre(w, opts, p, t, s, n, r);
    forall e
      ensures FateOf(w, e) == Kept <==> w.admit(e) == Admit && w.save(e) == None
      ensures FateOf(w, e) == Vetoed <==> w.admit(e).Reject?
    {
    }
  }

  lemma RejectedAre(w: World, opts: Options, p: Progress, t: Trace, s: Account, n: nat, r: Result<Summary>)
    requires Synced(w, opts, p, t, s, n, r)
    ensures s.summary.rejected == Rejections(w, t.handled)
  {
    SyncFacts.DownloadTrace(w, opts, p, t, s, n, r);
    var none: map<EventId, Option<Text>> := map[];
    assert none + Rejections(w, t.handled) == Rejections(w, t.handled);
  }

  // ----- the result -----

  /** The positions at which the fetched stream holds events, and those events. */
  ghost predicate Delivers(stream: seq<Option<Event>>, at: seq<nat>, events: seq<Event>) {
    && |at| == |events| && Rising(at, |stream|)
    && (forall i :: 0 <= i < |at| ==> stream[at[i]] == Some(events[i]))
    && (forall k: nat :: k < |stream| && stream[k].Some? ==> k in at)
  }

  lemma DeliversStep(stream: seq<Option<Event>>, at: seq<nat>, events: seq<Event>, next: Option<Event>)
    requires Delivers(stream, at, events)
    ensures next.Some? ==> Delivers(stream + [next], at + [|stream|], events + [next.value])
    ensures next.None? ==> Delivers(stream + [next], at, events)
  {
    RisingStep(at, |stream|);
  }

  /** `events` are the events of the stream, in order. */
  ghost predicate InStream(stream: seq<Option<Event>>, events: seq<Event>) {
    exists at: seq<nat> :: Delivers(stream, at, events)
  }

  lemma InStreamNext(stream: seq<Option<Event>>, events: seq<Event>, next: Option<Event>)
    requires InStream(stream, events)
    ensures InStream(stream + [next], events + if next.Some? then [next.value] else [])
  {
    var at: seq<nat> :| Delivers(stream, at, events);
    DeliversStep(stream, at, events, next);
    assert events + [] == events;
  }

  /** What was fetched are the events of the stream, in order; a failed relay only leaves a gap. */
  lemma {:induction false} ArrivedAre(stream: seq<Option<Event>>)
    ensures InStream(stream, Arrived(stream))
    decreases |stream|
  {
    if stream == [] {
      assert Delivers(stream, [], []);
    } else {
      var front, next := stream[..|stream| - 1], stream[|stream| - 1];
      ArrivedAre(front);
      InStreamNext(front, Arrived(front), next);
      assert front + [next] == stream;
    }
  }

  /** The download takes place: it is no dry run, the direction is not upload alone and something is remote-only. */
  ghost predicate DownloadsNow(opts: Options, t: Trace, s: Account) {
    t.reconciled.Ok? && !opts.dryRun && opts.direction != Up && s.summary.remote != {}
  }

  /** The policy cannot decide about some event that was fetched. */
  ghost predicate Undecidable(w: World, stream: seq<Option<Event>>) {
    exists e :: e in EventSet.Canonical(Arrived(stream)) && w.admit(e) == Broken
  }

  /** A sync fails if and only if the session could not be opened, the conversation failed, the remote-only events could
      not be fetched, or the policy broke on one of them. */
  lemma ResultIff(w: World, opts: Options, p: Progress, t: Trace, s: Account, n: nat, r: Result<Summary>)
    requires Synced(w, opts, p, t, s, n, r)
    ensures t.reconciled.Ok? <==> w.opens && Conversed(w, n) && Ending(w, n).Ok?
    ensures r.Ok? ==> r.value == s.summary
    ensures !w.opens ==> n == 0 && r == Err(RelayFailed)
    ensures w.opens ==> Conversed(w, n) && (Ending(w, n).Err? ==> r == Err(Ending(w, n).error))
    ensures t.reconciled.Ok? ==>
              if !DownloadsNow(opts, t, s) then r.Ok?
              else if w.fetch(s.summary.remote).None? then r == Err(FetchFailed)
              else if Undecidable(w, w.fetch(s.summary.remote).value) then r == Err(PolicyFailed)
              else r.Ok?
  {
    if t.reconciled.Ok? && DownloadsNow(opts, t, s) {
      assert t.uploaded.summary.remote == s.summary.remote;
      if w.fetch(s.summary.remote).Some? {
        var events := EventSet.Canonical(Arrived(w.fetch(s.summary.remote).value));
        if t.downloaded.Err? {
          assert events[|t.handled|] in events;
        } else {
          assert t.handled == events;
        }
      }
    }
  }
}
