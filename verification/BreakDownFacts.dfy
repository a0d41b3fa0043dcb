/** Exactly when splitting a `#p` filter keeps its meaning, and an event it loses. */
module BreakDownFacts {
  import opened Bytes
  import opened Filters
  import opened Routes
  import opened Selection
  import opened BreakDown
  import Hex
  import Order
  import WireLimits

  // ----- what each case asks -----

  /** Both slots: every relay is asked the original question. */
  lemma BothSlotsMeaning(g: Graph, f: Filter, a: Choice, b: Choice, u: RelayUrl, e: Event, opts: MatchOptions)
    requires f.authors.Some? && PValues(f).Some? && Has(BrokenWith(g, f, a, b), u)
    ensures BrokenWith(g, f, a, b).filters[u] == f
    ensures MatchEvent(BrokenWith(g, f, a, b).filters[u], e, opts) <==> MatchEvent(f, e, opts)
  {
  }

  /** Narrowing touches one slot: times, limit, search and everything else is asked as before. */
  lemma AuthorsPartKeepsRest(g: Graph, f: Filter, a: Choice, b: Choice, u: RelayUrl)
    requires f.authors.Some? && PValues(f).None? && Has(BrokenWith(g, f, a, b), u)
    ensures BrokenWith(g, f, a, b).filters[u].(authors := f.authors) == f
  {
  }

  lemma PTagsPartKeepsRest(g: Graph, f: Filter, a: Choice, b: Choice, u: RelayUrl, letter: byte)
    requires ValidFilter(f) && f.authors.None? && PValues(f).Some? && Has(BrokenWith(g, f, a, b), u)
    ensures BrokenWith(g, f, a, b).filters[u].(tags := f.tags) == f
    ensures letter != 0x70 ==> Lookup(BrokenWith(g, f, a, b).filters[u].tags, letter) == Lookup(f.tags, letter)
  {
    var values := HexSeq(Ascending(ByRelay(b, PKeys(g, PValues(f).value))[u]));
    assert BrokenWith(g, f, a, b).filters[u] == f.(tags := Put(f.tags, P_TAG, values));
    OtherLetters(f, values, letter);
  }

  lemma OtherLetters(f: Filter, values: seq<Text>, letter: byte)
    requires ValidFilter(f)
    ensures letter != 0x70 ==> Lookup(Put(f.tags, P_TAG, values), letter) == Lookup(f.tags, letter)
  {
    PutFacts(f.tags, P_TAG, values);
  }

  /** DM relays are added when the filter lists kind 1059, or names somebody in `#p` and pins no kinds. */
  lemma NeedsDmIff(f: Filter)
    ensures NeedsDm(f)
            <==> || (f.kinds.Some? && exists k :: 0 <= k < |f.kinds.value| && f.kinds.value[k] == 1059)
                 || ((f.kinds.None? || |f.kinds.value| == 0)
                     && Lookup(f.tags, 0x70).Some? && |Lookup(f.tags, 0x70).value| > 0)
  {
  }

  /** A key's relays are the selection for the direction, and its DM relays when those are needed. */
  lemma RelaysForIff(g: Graph, pk: PublicKey, d: Direction, dm: bool, u: RelayUrl)
    ensures u in RelaysFor(g, pk, d, dm)
            <==> && pk in g.routes
                 && (|| u in Select(g.cfg, g.routes[pk], g.limits, d)
                     || (dm && u in SelectDm(g.cfg, g.routes[pk], g.limits)))
  {
  }

  /** `s` is hex of 32 bytes, in either case, that are a key. */
  lemma ParseKeyIff(g: Graph, s: Text, pk: PublicKey)
    ensures ParseKey(g, s) == Some(pk) <==> WireLimits.Spells(s, pk) && |pk| == 32 && g.isKey(pk)
  {
    WireLimits.HexDecodeIff(s, pk);
  }

  /** The filter names `pk`: among its authors, or spelled among its `#p` values. */
  ghost predicate Names(g: Graph, f: Filter, pk: PublicKey) {
    || (f.authors.Some? && pk in f.authors.value)
    || (Lookup(f.tags, 0x70).Some? && |pk| == 32 && g.isKey(pk)
        && exists v :: v in Lookup(f.tags, 0x70).value && WireLimits.Spells(v, pk))
  }

  /** Outbox relays are asked when there is an authors slot, inbox relays when there is a `#p` slot. */
  ghost predicate AskedFor(g: Graph, f: Filter, pk: PublicKey, u: RelayUrl) {
    || (f.authors.Some? && u in RelaysFor(g, pk, Outbox, NeedsDm(f)))
    || (Lookup(f.tags, 0x70).Some? && u in RelaysFor(g, pk, Inbox, NeedsDm(f)))
  }

  lemma NamesIff(g: Graph, f: Filter, pk: PublicKey)
    ensures Names(g, f, pk) <==> pk in NamedKeys(g, f)
  {
    if PValues(f).Some? {
      var values := PValues(f).value;
      forall v | v in values
        ensures ParseKey(g, v) == Some(pk) <==> WireLimits.Spells(v, pk) && |pk| == 32 && g.isKey(pk)
      {
        ParseKeyIff(g, v, pk);
      }
      if v :| v in values && ParseKey(g, v) == Some(pk) {
        assert pk in PKeys(g, values);
      }
    }
  }

  /** Some key the filter names has the relay. */
  ghost predicate Wanted(g: Graph, f: Filter, u: RelayUrl) { exists pk :: Names(g, f, pk) && AskedFor(g, f, pk, u) }

  /** A filter that names nobody is asked everywhere; any other goes to exactly the relays of the keys it names, and to
      none if they have none. */
  lemma BrokenDownIff(g: Graph, f: Filter)
    ensures var r := BrokenDown(g, f);
            && (r.Generic? <==> f.authors.None? && Lookup(f.tags, 0x70).None?)
            && (r.Orphan? <==> !r.Generic? && forall u :: !Wanted(g, f, u))
            && (forall u :: Has(r, u) <==> Wanted(g, f, u))
            && (r.Generic? || r.Orphan? ==> r.filter == f)
  {
    var a, b := ChoiceOf(g, Outbox, NeedsDm(f)), ChoiceOf(g, Inbox, NeedsDm(f));
    OutcomeByRelay(g, f, a, b, BrokenWith(g, f, a, b));
    forall u
      ensures ServesSome(g, f, a, b, u) <==> Wanted(g, f, u)
    {
      ServesIff(g, f, a, b, u);
    }
  }

  lemma OutcomeByRelay(g: Graph, f: Filter, a: Choice, b: Choice, r: Broken)
    requires r == BrokenWith(g, f, a, b)
    ensures r.Generic? <==> f.authors.None? && Lookup(f.tags, 0x70).None?
    ensures r.Orphan? <==> !r.Generic? && forall u :: !ServesSome(g, f, a, b, u)
    ensures forall u :: Has(r, u) <==> ServesSome(g, f, a, b, u)
    ensures r.Generic? || r.Orphan? ==> r.filter == f
  {
    OutcomeIff(g, f, a, b);
    UnservedIff(g, f, a, b);
    assert r.Generic? ==> NamedKeys(g, f) == {};
  }

  lemma ServingIff(g: Graph, f: Filter, a: Choice, b: Choice, pk: PublicKey, u: RelayUrl)
    requires a == ChoiceOf(g, Outbox, NeedsDm(f)) && b == ChoiceOf(g, Inbox, NeedsDm(f))
    ensures u in Serving(f, a, b, pk) <==> AskedFor(g, f, pk, u)
  {
  }

  lemma ServesIff(g: Graph, f: Filter, a: Choice, b: Choice, u: RelayUrl)
    requires a == ChoiceOf(g, Outbox, NeedsDm(f)) && b == ChoiceOf(g, Inbox, NeedsDm(f))
    ensures ServesSome(g, f, a, b, u) <==> Wanted(g, f, u)
  {
    forall pk
      ensures pk in NamedKeys(g, f) && u in Serving(f, a, b, pk) <==> Names(g, f, pk) && AskedFor(g, f, pk, u)
    {
      NamesIff(g, f, pk);
      ServingIff(g, f, a, b, pk, u);
    }
  }

  lemma UnservedIff(g: Graph, f: Filter, a: Choice, b: Choice)
    ensures Unserved(g, f, a, b) <==> forall u :: !ServesSome(g, f, a, b, u)
  {
    if !Unserved(g, f, a, b) {
      var pk :| pk in NamedKeys(g, f) && Serving(f, a, b, pk) != {};
      var u :| u in Serving(f, a, b, pk);
      assert ServesSome(g, f, a, b, u);
    }
  }

  // ----- the exact condition -----

  /** Some part matches the event. */
  ghost predicate SomePartMatches(r: Broken, e: Event, opts: MatchOptions) {
    exists u :: Has(r, u) && MatchEvent(r.filters[u], e, opts)
  }

  ghost predicate TagsRouted(g: Graph, f: Filter, b: Choice, e: Event)
    requires PValues(f).Some?
  {
    exists k :: 0 <= k < |e.tags| && RoutedTag(e.tags[k], g, f, b)
  }

  /** On every event the parts together say what the original says, restricted to events that tag a routed key. */
  ghost predicate MeaningKept(g: Graph, f: Filter, a: Choice, b: Choice)
    requires PValues(f).Some?
  {
    forall e, opts ::
      SomePartMatches(BrokenWith(g, f, a, b), e, opts) <==> MatchEvent(f, e, opts) && TagsRouted(g, f, b, e)
  }

  /** Nothing can meet the other constraints of the filter. */
  ghost predicate Unmeetable(f: Filter) { forall e, opts :: !MatchesRest(f, e, opts) }

  /** The event with its `p` tags replaced by one for `v`. */
  function Retagged(e: Event, v: Text): Event { e.(tags := WithoutP(e.tags) + [[[P_TAG], v]]) }

  function WithoutP(tags: seq<seq<Text>>): seq<seq<Text>> {
    if tags == [] then []
    else if TagLetter(tags[0]) == Some(P_TAG) then WithoutP(tags[1..])
    else [tags[0]] + WithoutP(tags[1..])
  }

  lemma {:induction false} WithoutPMembers(tags: seq<seq<Text>>)
    ensures forall t :: t in WithoutP(tags) <==> t in tags && TagLetter(t) != Some(P_TAG)
  {
    if tags != [] {
      WithoutPMembers(tags[1..]);
      assert tags == [tags[0]] + tags[1..];
    }
  }

  /** Other letters do not notice. */
  lemma RetaggedHasTag(e: Event, v: Text, letter: byte, values: seq<Text>)
    requires letter != P_TAG && HasTag(e, letter, values)
    ensures HasTag(Retagged(e, v), letter, values)
  {
    WithoutPMembers(e.tags);
    var k :| 0 <= k < |e.tags| && TagHit(e.tags[k], letter, values);
    var kept := WithoutP(e.tags);
    assert e.tags[k] in kept;
    var j :| 0 <= j < |kept| && kept[j] == e.tags[k];
    assert Retagged(e, v).tags[j] == kept[j];
  }

  lemma RetaggedRest(f: Filter, e: Event, opts: MatchOptions, v: Text)
    requires MatchesRest(f, e, opts)
    ensures MatchesRest(f, Retagged(e, v), opts.(now := None))
  {
    forall letter: byte | letter != P_TAG
      ensures Meets(f.tags, Retagged(e, v), letter)
    {
      assert Meets(f.tags, e, letter);
      if Lookup(f.tags, letter).Some? {
        RetaggedHasTag(e, v, letter, Lookup(f.tags, letter).value);
      }
    }
  }

  /** Its only `p` tag is the new one. */
  lemma OnlyPTag(e: Event, v: Text, k: nat)
    requires k < |Retagged(e, v).tags| && TagLetter(Retagged(e, v).tags[k]) == Some(P_TAG)
    ensures Retagged(e, v).tags[k] == [[P_TAG], v]
  {
    WithoutPMembers(e.tags);
    var kept := WithoutP(e.tags);
    assert forall j :: 0 <= j < |kept| ==> kept[j] in kept;
  }

  /** An event that tags a routed value in a non-canonical spelling, and no other key, is matched by the original and by
      no part. */
  lemma LostEvent(g: Graph, f: Filter, a: Choice, b: Choice, e: Event, opts: MatchOptions, v: Text)
    requires ValidFilter(f) && f.authors.None? && PValues(f).Some? && MatchesRest(f, e, opts)
    requires v in PValues(f).value && Routed(g, b, v) && Hex.Encode(ParseKey(g, v).value) != v
    ensures var x, o := Retagged(e, v), opts.(now := None);
            MatchEvent(f, x, o) && TagsRouted(g, f, b, x) && !SomePartMatches(BrokenWith(g, f, a, b), x, o)
  {
    var x, o := Retagged(e, v), opts.(now := None);
    var n := |x.tags| - 1;
    assert x.tags[n] == [[P_TAG], v] && RoutedTag(x.tags[n], g, f, b);
    RetaggedRest(f, e, opts, v);
    RoutedTagMeets(g, f, b, x, n);
    MatchSplit(f, x, o);
    forall u | Has(BrokenWith(g, f, a, b), u)
      ensures !MatchEvent(BrokenWith(g, f, a, b).filters[u], x, o)
    {
      PartMisses(g, f, a, b, e, v, u, o);
    }
  }

  lemma PartMisses(
    g: Graph, f: Filter, a: Choice, b: Choice, e: Event, v: Text, u: RelayUrl, opts: MatchOptions)
    requires ValidFilter(f) && f.authors.None? && PValues(f).Some? && Has(BrokenWith(g, f, a, b), u)
    requires ParseKey(g, v).Some? && Hex.Encode(ParseKey(g, v).value) != v
    ensures !MatchEvent(BrokenWith(g, f, a, b).filters[u], Retagged(e, v), opts)
  {
    var x := Retagged(e, v);
    PTagsMeaning(g, f, a, b, u, x, opts);
    forall k | 0 <= k < |x.tags|
      ensures !PTagFor(x.tags[k], g, f, b, u)
    {
      if PTagFor(x.tags[k], g, f, b, u) {
        OnlyPTag(e, v, k);
        assert Asked(g, f, b, v);
        AskedIsCanonical(g, f, b, v);
      }
    }
  }

  /** `#p` only: break-down keeps the meaning of the filter, over the keys that have routes, if and only if the routed
      values are spelled canonically or nothing can match the rest of the filter anyway. */
  lemma PTagsUnionIff(g: Graph, f: Filter, a: Choice, b: Choice)
    requires ValidFilter(f) && f.authors.None? && PValues(f).Some?
    ensures MeaningKept(g, f, a, b) <==> CanonicalValues(g, f, b) || Unmeetable(f)
  {
    if CanonicalValues(g, f, b) {
      forall e, opts
        ensures SomePartMatches(BrokenWith(g, f, a, b), e, opts) <==> MatchEvent(f, e, opts) && TagsRouted(g, f, b, e)
      {
        PTagsUnion(g, f, a, b, e, opts);
      }
    } else if Unmeetable(f) {
      forall e, opts
        ensures !SomePartMatches(BrokenWith(g, f, a, b), e, opts) && !MatchEvent(f, e, opts)
      {
        NothingMatches(g, f, a, b, e, opts);
      }
    } else {
      var e, opts :| MatchesRest(f, e, opts);
      var v :| v in PValues(f).value && Routed(g, b, v) && Hex.Encode(ParseKey(g, v).value) != v;
      LostEvent(g, f, a, b, e, opts, v);
    }
  }

  lemma NothingMatches(g: Graph, f: Filter, a: Choice, b: Choice, e: Event, opts: MatchOptions)
    requires ValidFilter(f) && f.authors.None? && PValues(f).Some? && !MatchesRest(f, e, opts)
    ensures !SomePartMatches(BrokenWith(g, f, a, b), e, opts) && !MatchEvent(f, e, opts)
  {
    MatchSplit(f, e, opts);
    forall u | Has(BrokenWith(g, f, a, b), u)
      ensures !MatchEvent(BrokenWith(g, f, a, b).filters[u], e, opts)
    {
      PTagsMeaning(g, f, a, b, u, e, opts);
    }
  }

  // ----- an event that is lost -----

  /** A filter for events that tag `v`, and an event that does. */
  function AsksFor(v: Text): Filter { EMPTY.(tags := [TagConstraint(P_TAG, [v])]) }

  function Tagging(v: Text): Event { Event([], [], 0, 1, [[[P_TAG], v]], [], []) }

  lemma AsksForFacts(v: Text, opts: MatchOptions)
    requires opts.now.None?
    ensures PValues(AsksFor(v)) == Some([v]) && ValidFilter(AsksFor(v))
    ensures var e := Tagging(v).(tags := []); MatchesRest(AsksFor(v), e, opts) && Retagged(e, v) == Tagging(v)
  {
    assert WithoutP([]) + [[[P_TAG], v]] == [[[P_TAG], v]];
    forall letter: byte | letter != P_TAG
      ensures Meets(AsksFor(v).tags, Tagging(v).(tags := []), letter)
    {
      assert AsksFor(v).tags[1..] == [];
    }
  }

  /** The split filter misses an event that the original matches and whose key is routed. */
  ghost predicate Loses(g: Graph, a: Choice, b: Choice, v: Text, opts: MatchOptions) {
    && PValues(AsksFor(v)).Some? && BrokenWith(g, AsksFor(v), a, b).PerRelay?
    && MatchEvent(AsksFor(v), Tagging(v), opts) && TagsRouted(g, AsksFor(v), b, Tagging(v))
    && !SomePartMatches(BrokenWith(g, AsksFor(v), a, b), Tagging(v), opts)
  }

  /** So it is with every non-canonical spelling of a routed key. */
  lemma SpellingLost(g: Graph, a: Choice, b: Choice, v: Text, url: RelayUrl, opts: MatchOptions)
    requires ParseKey(g, v).Some? && Hex.Encode(ParseKey(g, v).value) != v && url in b(ParseKey(g, v).value)
    requires opts.now.None?
    ensures Loses(g, a, b, v, opts)
  {
    var pk, f := ParseKey(g, v).value, AsksFor(v);
    AsksForFacts(v, opts);
    assert v in [v] && opts.(now := None) == opts;
    LostEvent(g, f, a, b, Tagging(v).(tags := []), opts, v);
    assert ServesBy(g, f, b, url, Hex.Encode(pk), v);
    ServingIsListed(g, f, a, b, url, Hex.Encode(pk));
  }

  /** `n` bytes 0xAA, and their spelling in uppercase. */
  function Repeated(n: nat): Text { if n == 0 then [] else [0xAA] + Repeated(n - 1) }

  function UpperHex(n: nat): Text { if n == 0 then [] else [0x41, 0x41] + UpperHex(n - 1) }

  lemma {:induction false} UpperHexDecodes(n: nat)
    ensures Hex.Decode(UpperHex(n)) == Some(Repeated(n)) && |Repeated(n)| == n
  {
    if n > 0 {
      UpperHexDecodes(n - 1);
      assert UpperHex(n)[2..] == UpperHex(n - 1);
    }
  }

  lemma UpperIsNotCanonical(n: nat)
    requires n > 0
    ensures Hex.Encode(Repeated(n)) != UpperHex(n)
  {
    Hex.EncodeDigits(Repeated(n));
    assert UpperHex(n)[0] == 0x41;
  }

  /** A parser that finds one relay in every relay list, and a policy that allows everything. */
  function OneRelay(url: RelayUrl): Config {
    Config((e: Event) => Some(map[url := ReadWrite]), (e: Event) => None, (t: Text) => None, (u: RelayUrl) => true)
  }

  /** The graph after one relay list of `key` was processed. */
  function ListedGraph(key: PublicKey, url: RelayUrl, interval: nat, limits: Limits): Graph {
    var list := Feed(Item(Event([], key, 0, RELAY_LIST, [], [], []), None));
    Graph(OneRelay(url), RunOps(OneRelay(url), [list], interval), limits, (k: PublicKey) => true)
  }

  lemma ListedRoutes(key: PublicKey, url: RelayUrl, interval: nat, limits: Limits, dm: bool)
    requires ValidLimits(limits)
    ensures url in RelaysFor(ListedGraph(key, url, interval, limits), key, Inbox, dm)
  {
    var g := ListedGraph(key, url, interval, limits);
    var list := Item(Event([], key, 0, RELAY_LIST, [], [], []), None);
    assert [Feed(list)][..0] == [];
    assert RunOps(g.cfg, [], interval) == map[];
    assert g.routes == Process(g.cfg, map[], list);
    var r := g.routes[key];
    assert r.nip65 == Some(map[url := ReadWrite]);
    ListChoiceIsTopK(r.nip65.value, Inbox, limits.read);
    OneChoice(url, limits.read, ListChoice(r.nip65, Inbox, limits.read));
    assert key in g.routes && url in Select(g.cfg, r, limits, Inbox);
  }

  lemma OneChoice(url: RelayUrl, k: nat, chosen: set<RelayUrl>)
    requires k > 0 && IsTopK(Order.TextLeq, Marked(map[url := ReadWrite], Inbox), k, chosen)
    ensures url in chosen
  {
    assert Marked(map[url := ReadWrite], Inbox) == {url};
    assert chosen == {} || chosen == {url};
  }

  /** Over a graph that one processed relay list builds, a filter that spells a listed key in uppercase is split into
      parts that miss an event the filter itself matches. */
  lemma UppercaseValueIsLost(url: RelayUrl, interval: nat, limits: Limits, opts: MatchOptions)
    requires ValidLimits(limits) && opts.now.None?
    ensures var g, v := ListedGraph(Repeated(32), url, interval, limits), UpperHex(32);
            var dm := NeedsDm(AsksFor(v));
            && BrokenDown(g, AsksFor(v)) == BrokenWith(g, AsksFor(v), ChoiceOf(g, Outbox, dm), ChoiceOf(g, Inbox, dm))
            && Loses(g, ChoiceOf(g, Outbox, dm), ChoiceOf(g, Inbox, dm), v, opts)
  {
    UpperHexDecodes(32);
    UpperIsNotCanonical(32);
    ListedLoses(Repeated(32), UpperHex(32), url, interval, limits, opts);
  }

  lemma ListedLoses(key: PublicKey, v: Text, url: RelayUrl, interval: nat, limits: Limits, opts: MatchOptions)
    requires Hex.Decode(v) == Some(key) && |key| == 32 && Hex.Encode(key) != v
    requires ValidLimits(limits) && opts.now.None?
    ensures var g, dm := ListedGraph(key, url, interval, limits), NeedsDm(AsksFor(v));
            Loses(g, ChoiceOf(g, Outbox, dm), ChoiceOf(g, Inbox, dm), v, opts)
  {
    var g, dm := ListedGraph(key, url, interval, limits), NeedsDm(AsksFor(v));
    ListedRoutes(key, url, interval, limits, dm);
    assert ParseKey(g, v) == Some(key);
    SpellingLost(g, ChoiceOf(g, Outbox, dm), ChoiceOf(g, Inbox, dm), v, url, opts);
  }
}
