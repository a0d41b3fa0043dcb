/** What is published meets what is asked: the send path and the filter break-down agree on relays. */
module Delivery {
  import opened Bytes
  import opened Filters
  import opened Routes
  import opened Selection
  import opened BreakDown
  import opened SendPath
  import Hex

  /** `e` is sent to `u`, `f` is split so that `u` gets a part, and that part matches `e`. */
  ghost predicate Meet(g: Graph, f: Filter, e: Event, u: RelayUrl, opts: MatchOptions) {
    && Decide(RouteEvent(g, e)).SendTo? && u in Decide(RouteEvent(g, e)).relays
    && Has(BrokenDown(g, f), u) && MatchEvent(BrokenDown(g, f).filters[u], e, opts)
  }

  // ----- by author -----

  /** An event that is not a gift wrap goes to all outbox relays of its author. */
  lemma SentToOutbox(g: Graph, e: Event, u: RelayUrl)
    requires e.kind != GIFT_WRAP && u in RelaysFor(g, e.pubkey, Outbox, false)
    ensures Decide(RouteEvent(g, e)).SendTo? && u in Decide(RouteEvent(g, e)).relays
  {
    assert u in ChoiceOf(g, Outbox, false)(e.pubkey);
  }

  lemma AskedAtOutbox(g: Graph, f: Filter, a: Choice, b: Choice, e: Event, u: RelayUrl, opts: MatchOptions)
    requires f.authors.Some? && PValues(f).None? && MatchEvent(f, e, opts) && u in a(e.pubkey)
    ensures Has(BrokenWith(g, f, a, b), u) && MatchEvent(BrokenWith(g, f, a, b).filters[u], e, opts)
  {
    ByRelayMembers(a, Elems(f.authors.value), u);
    AuthorsMeaning(g, f, a, b, u, e, opts);
  }

  /** Whoever asks for the events of an author finds each of them at every relay the author publishes to. */
  lemma AuthorsMeet(g: Graph, f: Filter, e: Event, u: RelayUrl, opts: MatchOptions)
    requires f.authors.Some? && PValues(f).None? && MatchEvent(f, e, opts)
    requires e.kind != GIFT_WRAP && u in RelaysFor(g, e.pubkey, Outbox, false)
    ensures Meet(g, f, e, u, opts)
  {
    SentToOutbox(g, e, u);
    var a, b := ChoiceOf(g, Outbox, NeedsDm(f)), ChoiceOf(g, Inbox, NeedsDm(f));
    assert u in a(e.pubkey);
    AskedAtOutbox(g, f, a, b, e, u, opts);
  }

  // ----- by recipient -----

  /** An event that is neither a gift wrap nor a contact list goes to all inbox relays of those it mentions. */
  lemma SentToInbox(g: Graph, e: Event, k: nat, u: RelayUrl)
    requires e.kind != GIFT_WRAP && e.kind != CONTACTS && k < |e.tags| && PTagKey(g, e.tags[k]).Some?
    requires u in RelaysFor(g, PTagKey(g, e.tags[k]).value, Inbox, false)
    ensures Decide(RouteEvent(g, e)).SendTo? && u in Decide(RouteEvent(g, e)).relays
  {
    var pk := PTagKey(g, e.tags[k]).value;
    assert pk in Recipients(g, e) && u in ChoiceOf(g, Inbox, false)(pk);
    TargetsWithIff(e.kind, e.pubkey, Recipients(g, e), DmChoice(g), ChoiceOf(g, Outbox, false),
                   ChoiceOf(g, Inbox, false), u);
    SentToTarget(e.kind, Targets(g, e), u);
  }

  lemma SentToTarget(kind: nat, targets: set<RelayUrl>, u: RelayUrl)
    requires u in targets
    ensures Decide(RouteOf(kind, targets)) == SendTo(targets)
  {
  }

  lemma AskedAtInbox(
    g: Graph, f: Filter, a: Choice, b: Choice, e: Event, k: nat, v: Text, u: RelayUrl, opts: MatchOptions)
    requires ValidFilter(f) && f.authors.None? && PValues(f).Some? && MatchEvent(f, e, opts)
    requires k < |e.tags| && TagLetter(e.tags[k]) == Some(P_TAG) && |e.tags[k]| > 1 && e.tags[k][1] == v
    requires v in PValues(f).value && ParseKey(g, v).Some? && Hex.Encode(ParseKey(g, v).value) == v
    requires u in b(ParseKey(g, v).value)
    ensures Has(BrokenWith(g, f, a, b), u) && MatchEvent(BrokenWith(g, f, a, b).filters[u], e, opts)
  {
    assert ServesBy(g, f, b, u, v, v);
    ServingIsListed(g, f, a, b, u, v);
    MatchSplit(f, e, opts);
    PTagsMeaning(g, f, a, b, u, e, opts);
    assert PTagFor(e.tags[k], g, f, b, u);
  }

  /** Whoever asks, in canonical spelling, for mentions of a user finds each of them at every inbox relay of that
      user. */
  lemma MentionsMeet(g: Graph, f: Filter, e: Event, k: nat, v: Text, u: RelayUrl, opts: MatchOptions)
    requires ValidFilter(f) && f.authors.None? && PValues(f).Some? && MatchEvent(f, e, opts)
    requires e.kind != GIFT_WRAP && e.kind != CONTACTS
    requires k < |e.tags| && TagLetter(e.tags[k]) == Some(P_TAG) && |e.tags[k]| > 1 && e.tags[k][1] == v
    requires v in PValues(f).value && ParseKey(g, v).Some? && Hex.Encode(ParseKey(g, v).value) == v
    requires u in RelaysFor(g, ParseKey(g, v).value, Inbox, false)
    ensures Meet(g, f, e, u, opts)
  {
    SentToInbox(g, e, k, u);
    var a, b := ChoiceOf(g, Outbox, NeedsDm(f)), ChoiceOf(g, Inbox, NeedsDm(f));
    assert u in b(ParseKey(g, v).value);
    AskedAtInbox(g, f, a, b, e, k, v, u, opts);
  }

  /** A `#p` filter that matches a gift wrap is always routed by DM relays too. */
  lemma WrapNeedsDm(f: Filter, e: Event, opts: MatchOptions)
    requires ValidFilter(f) && PValues(f).Some? && MatchEvent(f, e, opts) && e.kind == GIFT_WRAP
    ensures NeedsDm(f)
  {
    MatchSplit(f, e, opts);
    var k :| 0 <= k < |e.tags| && TagHit(e.tags[k], P_TAG, PValues(f).value);
  }

  lemma SentToDmRelays(g: Graph, e: Event, k: nat, u: RelayUrl)
    requires e.kind == GIFT_WRAP && k < |e.tags| && PTagKey(g, e.tags[k]).Some?
    requires u in DmChoice(g)(PTagKey(g, e.tags[k]).value)
    ensures Decide(RouteEvent(g, e)).SendTo? && u in Decide(RouteEvent(g, e)).relays
  {
    var pk := PTagKey(g, e.tags[k]).value;
    assert pk in Recipients(g, e);
    AllRelaysFacts(DmChoice(g), Recipients(g, e));
  }

  /** The `k`-th tag is the only `p` tag, and names `v`. */
  predicate OnlyRecipient(e: Event, k: nat, v: Text) {
    && k < |e.tags| && TagLetter(e.tags[k]) == Some(P_TAG) && |e.tags[k]| > 1 && e.tags[k][1] == v
    && forall j :: 0 <= j < |e.tags| && j != k ==> TagLetter(e.tags[j]) != Some(P_TAG)
  }

  /** The part of a relay that serves the recipient matches exactly when the tag is spelled canonically. */
  lemma AskedAtDmRelay(
    g: Graph, f: Filter, a: Choice, b: Choice, e: Event, k: nat, v: Text, u: RelayUrl, opts: MatchOptions)
    requires ValidFilter(f) && f.authors.None? && PValues(f).Some? && MatchEvent(f, e, opts) && OnlyRecipient(e, k, v)
    requires v in PValues(f).value && ParseKey(g, v).Some? && u in b(ParseKey(g, v).value)
    ensures Has(BrokenWith(g, f, a, b), u)
    ensures MatchEvent(BrokenWith(g, f, a, b).filters[u], e, opts) <==> Hex.Encode(ParseKey(g, v).value) == v
  {
    var w := Hex.Encode(ParseKey(g, v).value);
    assert ServesBy(g, f, b, u, w, v);
    ServingIsListed(g, f, a, b, u, w);
    PTagsMeaning(g, f, a, b, u, e, opts);
    MatchSplit(f, e, opts);
    if w == v {
      assert PTagFor(e.tags[k], g, f, b, u);
    }
    if j :| 0 <= j < |e.tags| && PTagFor(e.tags[j], g, f, b, u) {
      assert j == k && Asked(g, f, b, v);
      AskedIsCanonical(g, f, b, v);
    }
  }

  /** A gift wrap for one recipient is sent to every DM relay of the recipient, and every such relay is asked by whoever
      filters for that recipient; the question matches the wrap if and only if its tag is spelled canonically. */
  lemma GiftWrapMeetsIff(g: Graph, f: Filter, e: Event, k: nat, v: Text, u: RelayUrl, opts: MatchOptions)
    requires ValidFilter(f) && f.authors.None? && PValues(f).Some? && MatchEvent(f, e, opts)
    requires e.kind == GIFT_WRAP && OnlyRecipient(e, k, v)
    requires ParseKey(g, v).Some? && u in DmChoice(g)(ParseKey(g, v).value)
    ensures Decide(RouteEvent(g, e)).SendTo? && u in Decide(RouteEvent(g, e)).relays && Has(BrokenDown(g, f), u)
    ensures Meet(g, f, e, u, opts) <==> Hex.Encode(ParseKey(g, v).value) == v
  {
    SentToDmRelays(g, e, k, u);
    WrapNeedsDm(f, e, opts);
    NamedValue(f, e, k, v, opts);
    var a, b := ChoiceOf(g, Outbox, NeedsDm(f)), ChoiceOf(g, Inbox, NeedsDm(f));
    assert u in b(ParseKey(g, v).value);
    AskedAtDmRelay(g, f, a, b, e, k, v, u, opts);
  }

  /** What the filter matches is the value of the only tag. */
  lemma NamedValue(f: Filter, e: Event, k: nat, v: Text, opts: MatchOptions)
    requires ValidFilter(f) && PValues(f).Some? && MatchEvent(f, e, opts) && OnlyRecipient(e, k, v)
    ensures v in PValues(f).value
  {
    MatchSplit(f, e, opts);
    var j :| 0 <= j < |e.tags| && TagHit(e.tags[j], P_TAG, PValues(f).value);
  }
}
