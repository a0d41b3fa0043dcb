/** What each slot of a filter accepts, in terms of the event alone. */
module FilterFacts {
  import opened Bytes
  import opened Filters

  /** The same options without a clock. */
  function Timeless(opts: MatchOptions): MatchOptions { opts.(now := None) }

  /** Every slot on its own. */
  ghost predicate EachSlot(f: Filter, e: Event, opts: MatchOptions) {
    && MatchEvent(EMPTY.(ids := f.ids), e, opts) && MatchEvent(EMPTY.(authors := f.authors), e, opts)
    && MatchEvent(EMPTY.(kinds := f.kinds), e, opts)
    && MatchEvent(EMPTY.(since := f.since), e, opts) && MatchEvent(EMPTY.(until := f.until), e, opts)
    && (forall k :: 0 <= k < |f.tags| ==> MatchEvent(EMPTY.(tags := [f.tags[k]]), e, opts))
  }

  /** A filter's verdict is the conjunction of the verdicts of its one-slot filters and of the empty filter with the
      clock; `limit` and `search` have no say. */
  lemma VerdictSplits(f: Filter, e: Event, opts: MatchOptions)
    ensures MatchEvent(f, e, opts) <==> EachSlot(f, e, Timeless(opts)) && MatchEvent(EMPTY, e, opts)
  {
    forall k | 0 <= k < |f.tags|
      ensures MatchEvent(EMPTY.(tags := [f.tags[k]]), e, Timeless(opts))
              <==> HasTag(e, f.tags[k].letter, f.tags[k].values)
    {
      assert [f.tags[k]][0] == f.tags[k];
    }
  }

  /** The lists accept members and nothing else. */
  lemma ListSlots(e: Event, opts: MatchOptions, ids: seq<Text>, authors: seq<Text>, kinds: seq<nat>)
    requires opts.now.None?
    ensures MatchEvent(EMPTY.(ids := Some(ids)), e, opts) <==> exists k :: 0 <= k < |ids| && ids[k] == e.id
    ensures MatchEvent(EMPTY.(authors := Some(authors)), e, opts)
            <==> exists k :: 0 <= k < |authors| && authors[k] == e.pubkey
    ensures MatchEvent(EMPTY.(kinds := Some(kinds)), e, opts) <==> exists k :: 0 <= k < |kinds| && kinds[k] == e.kind
  {
  }

  /** Both bounds are inclusive. */
  lemma TimeSlots(e: Event, opts: MatchOptions, t: nat)
    requires opts.now.None?
    ensures MatchEvent(EMPTY.(since := Some(t)), e, opts) <==> e.createdAt >= t
    ensures MatchEvent(EMPTY.(until := Some(t)), e, opts) <==> e.createdAt <= t
  {
  }

  /** A tag whose head is the one letter and whose second element is `v`. */
  predicate IsTag(tag: seq<Text>, letter: byte, v: Text) { |tag| >= 2 && tag[0] == [letter] && tag[1] == v }

  /** A letter accepts events with a tag under that letter, in that case, that holds one of the values. */
  lemma TagSlot(e: Event, opts: MatchOptions, letter: byte, values: seq<Text>)
    requires opts.now.None? && IsAlphabetic(letter)
    ensures MatchEvent(EMPTY.(tags := [TagConstraint(letter, values)]), e, opts)
            <==> exists k, v :: 0 <= k < |e.tags| && v in values && IsTag(e.tags[k], letter, v)
  {
    var c := TagConstraint(letter, values);
    assert [c][0] == c;
    if k :| 0 <= k < |e.tags| && TagHit(e.tags[k], letter, values) {
      assert e.tags[k][0] == [letter];
      assert IsTag(e.tags[k], letter, e.tags[k][1]);
    }
    if k, v :| 0 <= k < |e.tags| && v in values && IsTag(e.tags[k], letter, v) {
      assert TagHit(e.tags[k], letter, values);
    }
  }

  /** The empty filter accepts everything, unless a clock is given: then an event from the future and one whose
      expiration has been reached are refused, each unless allowed. */
  lemma ClockEffect(e: Event, opts: MatchOptions)
    ensures opts.now.None? ==> MatchEvent(EMPTY, e, opts)
    ensures opts.now.Some? ==>
              (MatchEvent(EMPTY, e, opts)
               <==> && (e.createdAt > opts.now.value ==> opts.allowFuture)
                    && (opts.expiration(e).Some? && opts.expiration(e).value <= opts.now.value ==> opts.allowExpired))
  {
  }

  lemma LimitAndSearchIgnored(f: Filter, e: Event, opts: MatchOptions, limit: Option<nat>, search: Option<Text>)
    ensures MatchEvent(f.(limit := limit, search := search), e, opts) == MatchEvent(f, e, opts)
  {
  }

  /** All of it at once: which events a filter accepts, slot by slot. */
  lemma VerdictIff(f: Filter, e: Event, opts: MatchOptions)
    requires ValidFilter(f)
    ensures MatchEvent(f, e, opts)
            <==> && (f.ids.Some? ==> exists k :: 0 <= k < |f.ids.value| && f.ids.value[k] == e.id)
                 && (f.authors.Some? ==> exists k :: 0 <= k < |f.authors.value| && f.authors.value[k] == e.pubkey)
                 && (f.kinds.Some? ==> exists k :: 0 <= k < |f.kinds.value| && f.kinds.value[k] == e.kind)
                 && (f.since.Some? ==> e.createdAt >= f.since.value) && (f.until.Some? ==> e.createdAt <= f.until.value)
                 && (forall j :: 0 <= j < |f.tags| ==> Tagged(e, f.tags[j].letter, f.tags[j].values))
                 && MatchEvent(EMPTY, e, opts)
  {
    VerdictSplits(f, e, opts);
    var o := Timeless(opts);
    if f.ids.Some? {
      ListSlots(e, o, f.ids.value, [], []);
    }
    if f.authors.Some? {
      ListSlots(e, o, [], f.authors.value, []);
    }
    if f.kinds.Some? {
      ListSlots(e, o, [], [], f.kinds.value);
    }
    if f.since.Some? {
      TimeSlots(e, o, f.since.value);
    }
    if f.until.Some? {
      TimeSlots(e, o, f.until.value);
    }
    forall j | 0 <= j < |f.tags|
      ensures MatchEvent(EMPTY.(tags := [f.tags[j]]), e, o) <==> Tagged(e, f.tags[j].letter, f.tags[j].values)
    {
      TagSlot(e, o, f.tags[j].letter, f.tags[j].values);
    }
  }

  ghost predicate Tagged(e: Event, letter: byte, values: seq<Text>) {
    exists k, v :: 0 <= k < |e.tags| && v in values && IsTag(e.tags[k], letter, v)
  }
}
