/** Splitting one filter into per-relay filters, and why that keeps its meaning. */
module BreakDown {
  import opened Bytes
  import opened Filters
  import opened Routes
  import opened Selection
  import Hex

  const P_TAG: byte := 0x70
  const GIFT_WRAP: nat := 1059

  /** What `break_down` reads: the graph, the caps, and which 32-byte strings are keys. */
  datatype Graph = Graph(cfg: Config, routes: RouteMap, limits: Limits, isKey: PublicKey -> bool)

  /** `PublicKey::parse`: hex in either case, 32 bytes, a valid key. */
  function ParseKey(g: Graph, s: Text): Option<PublicKey> {
    match Hex.Decode(s)
    case None => None
    case Some(k) => if |k| == 32 && g.isKey(k) then Some(k) else None
  }

  datatype Broken = PerRelay(filters: map<RelayUrl, Filter>) | Orphan(filter: Filter) | Generic(filter: Filter)

  function PValues(f: Filter): Option<seq<Text>> { Lookup(f.tags, P_TAG) }

  /** The keys among the `#p` values; values that do not parse are dropped. */
  function PKeys(g: Graph, values: seq<Text>): set<PublicKey> {
    set v | v in values && ParseKey(g, v).Some? :: ParseKey(g, v).value
  }

  /** `pattern_needs_dm`. */
  predicate NeedsDm(f: Filter) {
    var pPresent := PValues(f).Some? && PValues(f).value != [];
    match f.kinds
    case Some(kinds) => GIFT_WRAP in kinds || (kinds == [] && pPresent)
    case None => pPresent
  }

  /** The relays selected for one key. */
  function RelaysFor(g: Graph, pk: PublicKey, d: Direction, dm: bool): set<RelayUrl> {
    if pk !in g.routes then {}
    else Select(g.cfg, g.routes[pk], g.limits, d) + if dm then SelectDm(g.cfg, g.routes[pk], g.limits) else {}
  }

  /** A choice of relays for every key. */
  type Choice = PublicKey -> set<RelayUrl>

  function ChoiceOf(g: Graph, d: Direction, dm: bool): Choice { (pk: PublicKey) => RelaysFor(g, pk, d, dm) }

  function AllRelays(sel: Choice, keys: set<PublicKey>): set<RelayUrl> {
    set pk, u | pk in keys && u in sel(pk) :: u
  }

  /** Which of `keys` each relay serves. */
  function ByRelay(sel: Choice, keys: set<PublicKey>): map<RelayUrl, set<PublicKey>> {
    map u | u in AllRelays(sel, keys) :: set pk | pk in keys && u in sel(pk)
  }

  function NarrowAuthors(f: Filter, pks: set<PublicKey>): Filter { f.(authors := Some(Ascending(pks))) }

  function HexSeq(ks: seq<PublicKey>): (r: seq<Text>)
    ensures |r| == |ks| && forall i :: 0 <= i < |ks| ==> r[i] == Hex.Encode(ks[i])
  {
    seq(|ks|, i requires 0 <= i < |ks| => Hex.Encode(ks[i]))
  }

  function NarrowPTags(f: Filter, pks: set<PublicKey>): Filter {
    f.(tags := Put(f.tags, P_TAG, HexSeq(Ascending(pks))))
  }

  /** The outcome of `break_down`, for the outbox choice `a` and the inbox choice `b`. */
  function BrokenWith(g: Graph, f: Filter, a: Choice, b: Choice): Broken {
    match (f.authors, PValues(f))
    case (Some(authors), None) =>
      var byRelay := ByRelay(a, Elems(authors));
      if byRelay == map[] then Orphan(f) else PerRelay(map u | u in byRelay :: NarrowAuthors(f, byRelay[u]))
    case (None, Some(values)) =>
      var byRelay := ByRelay(b, PKeys(g, values));
      if byRelay == map[] then Orphan(f) else PerRelay(map u | u in byRelay :: NarrowPTags(f, byRelay[u]))
    case (Some(authors), Some(values)) =>
      var keys := Elems(authors) + PKeys(g, values);
      var relays := AllRelays(a, keys) + AllRelays(b, keys);
      if relays == {} then Orphan(f) else PerRelay(map u | u in relays :: f)
    case (None, None) => Generic(f)
  }

  function BrokenDown(g: Graph, f: Filter): Broken {
    BrokenWith(g, f, ChoiceOf(g, Outbox, NeedsDm(f)), ChoiceOf(g, Inbox, NeedsDm(f)))
  }

  // ----- the loops -----

  /** `sel` is the selection of this graph, direction and message kind. */
  ghost predicate Chooses(g: Graph, d: Direction, dm: bool, sel: Choice) {
    forall pk {:trigger RelaysFor(g, pk, d, dm)} :: sel(pk) == RelaysFor(g, pk, d, dm)
  }

  /** `collect_directional`: for every key, insert it under each of its relays. */
  method CollectDirectional(g: Graph, keys: set<PublicKey>, d: Direction, dm: bool, ghost sel: Choice)
    returns (out: map<RelayUrl, set<PublicKey>>)
    requires ValidLimits(g.limits) && Chooses(g, d, dm, sel)
    ensures out == ByRelay(sel, keys)
  {
    out := map[];
    var todo := keys;
    while todo != {}
      invariant todo <= keys && out == ByRelay(sel, keys - todo)
      decreases todo
    {
      var pk :| pk in todo;
      var relays := RelaysOfKey(g, pk, d, dm, sel);
      out := InsertKey(out, relays, pk);
      ByRelayStep(sel, keys - todo, pk);
      assert keys - (todo - {pk}) == keys - todo + {pk};
      todo := todo - {pk};
    }
    assert keys - todo == keys;
  }

  /** The per-user selection inside the snapshot; an unknown user has no routes. */
  method RelaysOfKey(g: Graph, pk: PublicKey, d: Direction, dm: bool, ghost sel: Choice) returns (relays: set<RelayUrl>)
    requires ValidLimits(g.limits) && Chooses(g, d, dm, sel)
    ensures relays == sel(pk)
  {
    assert sel(pk) == RelaysFor(g, pk, d, dm);
    relays := {};
    if pk in g.routes {
      relays := SelectRelays(g.cfg, g.routes[pk], g.limits, d);
      if dm {
        var extra := SelectDmRelays(g.cfg, g.routes[pk], g.limits);
        relays := relays + extra;
      }
    }
  }

  /** The map with `pk` filed under every relay of `relays`. */
  function Filed(m: map<RelayUrl, set<PublicKey>>, relays: set<RelayUrl>, pk: PublicKey)
    : map<RelayUrl, set<PublicKey>>
  {
    map u | u in m.Keys + relays :: (if u in m then m[u] else {}) + (if u in relays then {pk} else {})
  }

  method InsertKey(before: map<RelayUrl, set<PublicKey>>, relays: set<RelayUrl>, pk: PublicKey)
    returns (out: map<RelayUrl, set<PublicKey>>)
    ensures out == Filed(before, relays, pk)
  {
    out := before;
    var todo := relays;
    FiledNone(before, pk);
    assert relays - todo == {};
    while todo != {}
      invariant todo <= relays && out == Filed(before, relays - todo, pk)
      decreases todo
    {
      var u :| u in todo;
      FiledStep(before, relays - todo, pk, u);
      out := out[u := (if u in out then out[u] else {}) + {pk}];
      todo := todo - {u};
      assert relays - todo == relays - (todo + {u}) + {u};
    }
    assert relays - todo == relays;
  }

  lemma FiledNone(m: map<RelayUrl, set<PublicKey>>, pk: PublicKey)
    ensures Filed(m, {}, pk) == m
  {
    forall u | u in m
      ensures Filed(m, {}, pk)[u] == m[u]
    {
    }
  }

  lemma FiledStep(m: map<RelayUrl, set<PublicKey>>, done: set<RelayUrl>, pk: PublicKey, u: RelayUrl)
    requires u !in done
    ensures var out := Filed(m, done, pk);
            out[u := (if u in out then out[u] else {}) + {pk}] == Filed(m, done + {u}, pk)
  {
    var out := Filed(m, done, pk);
    var a, b := out[u := (if u in out then out[u] else {}) + {pk}], Filed(m, done + {u}, pk);
    assert a.Keys == b.Keys;
    forall v | v in b
      ensures a[v] == b[v]
    {
    }
  }

  lemma ByRelayStep(sel: Choice, done: set<PublicKey>, pk: PublicKey)
    requires pk !in done
    ensures ByRelay(sel, done + {pk}) == Filed(ByRelay(sel, done), sel(pk), pk)
  {
    assert AllRelays(sel, done + {pk}) == AllRelays(sel, done) + sel(pk);
    var a, b := ByRelay(sel, done + {pk}), Filed(ByRelay(sel, done), sel(pk), pk);
    forall u | u in a
      ensures a[u] == b[u]
    {
      ByRelayMembers(sel, done, u);
      ByRelayMembers(sel, done + {pk}, u);
    }
  }

  /** A key is filed under a relay exactly when that relay was chosen for it. */
  lemma ByRelayMembers(sel: Choice, keys: set<PublicKey>, u: RelayUrl)
    ensures u in ByRelay(sel, keys) <==> exists pk :: pk in keys && u in sel(pk)
    ensures forall pk :: (u in ByRelay(sel, keys) && pk in ByRelay(sel, keys)[u]) <==> (pk in keys && u in sel(pk))
  {
  }

  /** `collect_union_relays`. */
  method CollectUnionRelays(g: Graph, keys: set<PublicKey>, dm: bool, ghost a: Choice, ghost b: Choice)
    returns (out: set<RelayUrl>)
    requires ValidLimits(g.limits) && Chooses(g, Outbox, dm, a) && Chooses(g, Inbox, dm, b)
    ensures out == AllRelays(a, keys) + AllRelays(b, keys)
  {
    out := {};
    var todo := keys;
    while todo != {}
      invariant todo <= keys && out == AllRelays(a, keys - todo) + AllRelays(b, keys - todo)
      decreases todo
    {
      var pk :| pk in todo;
      var sent := RelaysOfKey(g, pk, Outbox, dm, a);
      var read := RelaysOfKey(g, pk, Inbox, dm, b);
      AllRelaysStep(a, keys - todo, pk);
      AllRelaysStep(b, keys - todo, pk);
      assert keys - (todo - {pk}) == keys - todo + {pk};
      out := out + sent + read;
      todo := todo - {pk};
    }
    assert keys - todo == keys;
  }

  lemma AllRelaysStep(sel: Choice, done: set<PublicKey>, pk: PublicKey)
    ensures AllRelays(sel, done + {pk}) == AllRelays(sel, done) + sel(pk)
  {
  }

  /** `break_down`. */
  method BreakDownFilter(g: Graph, f: Filter) returns (r: Broken)
    requires ValidLimits(g.limits)
    ensures r == BrokenDown(g, f)
  {
    r := BreakDownWith(g, f, ChoiceOf(g, Outbox, NeedsDm(f)), ChoiceOf(g, Inbox, NeedsDm(f)));
  }

  method BreakDownWith(g: Graph, f: Filter, ghost a: Choice, ghost b: Choice) returns (r: Broken)
    requires ValidLimits(g.limits) && Chooses(g, Outbox, NeedsDm(f), a) && Chooses(g, Inbox, NeedsDm(f), b)
    ensures r == BrokenWith(g, f, a, b)
  {
    var dm := NeedsDm(f);
    if f.authors.Some? && PValues(f).None? {
      var byRelay := CollectDirectional(g, Elems(f.authors.value), Outbox, dm, a);
      if byRelay == map[] {
        return Orphan(f);
      }
      r := PerRelay(map u | u in byRelay :: NarrowAuthors(f, byRelay[u]));
    } else if f.authors.None? && PValues(f).Some? {
      var byRelay := CollectDirectional(g, PKeys(g, PValues(f).value), Inbox, dm, b);
      if byRelay == map[] {
        return Orphan(f);
      }
      r := PerRelay(map u | u in byRelay :: NarrowPTags(f, byRelay[u]));
    } else if f.authors.Some? {
      var relays := CollectUnionRelays(g, Elems(f.authors.value) + PKeys(g, PValues(f).value), dm, a, b);
      if relays == {} {
        return Orphan(f);
      }
      r := PerRelay(map u | u in relays :: f);
    } else {
      r := Generic(f);
    }
  }

  // ----- which outcome -----

  /** The keys the filter names in its author and `#p` slots. */
  function NamedKeys(g: Graph, f: Filter): set<PublicKey> {
    (if f.authors.Some? then Elems(f.authors.value) else {})
    + (if PValues(f).Some? then PKeys(g, PValues(f).value) else {})
  }

  /** The relays that count for a named key: outbox for authors, inbox for `#p`, both when both slots are set. */
  function Serving(f: Filter, a: Choice, b: Choice, pk: PublicKey): set<RelayUrl> {
    (if f.authors.Some? then a(pk) else {}) + (if PValues(f).Some? then b(pk) else {})
  }

  /** `Generic` iff neither slot is set; otherwise `Orphan` iff no named key has a relay, and the per-relay map has
      exactly the relays that serve some named key. */
  lemma OutcomeIff(g: Graph, f: Filter, a: Choice, b: Choice)
    ensures var r := BrokenWith(g, f, a, b);
            && (r.Generic? <==> f.authors.None? && PValues(f).None?)
            && (r.Orphan? <==> !r.Generic? && Unserved(g, f, a, b))
            && (r.PerRelay? ==> forall u :: u in r.filters <==> ServesSome(g, f, a, b, u))
            && (r.Generic? || r.Orphan? ==> r.filter == f)
  {
    var keys := NamedKeys(g, f);
    if f.authors.Some? && PValues(f).None? {
      assert keys == Elems(f.authors.value);
      AllRelaysFacts(a, keys);
      assert forall pk :: Serving(f, a, b, pk) == a(pk);
    } else if f.authors.None? && PValues(f).Some? {
      assert keys == PKeys(g, PValues(f).value);
      AllRelaysFacts(b, keys);
      assert forall pk :: Serving(f, a, b, pk) == b(pk);
    } else if f.authors.Some? {
      BothFacts(g, f, a, b, keys);
    }
  }

  /** No named key has a relay. */
  ghost predicate Unserved(g: Graph, f: Filter, a: Choice, b: Choice) {
    forall pk :: pk in NamedKeys(g, f) ==> Serving(f, a, b, pk) == {}
  }

  /** The relay serves some named key. */
  ghost predicate ServesSome(g: Graph, f: Filter, a: Choice, b: Choice, u: RelayUrl) {
    exists pk :: pk in NamedKeys(g, f) && u in Serving(f, a, b, pk)
  }

  lemma BothFacts(g: Graph, f: Filter, a: Choice, b: Choice, keys: set<PublicKey>)
    requires f.authors.Some? && PValues(f).Some? && keys == NamedKeys(g, f)
    ensures forall u :: u in AllRelays(a, keys) + AllRelays(b, keys) <==> ServesSome(g, f, a, b, u)
    ensures AllRelays(a, keys) + AllRelays(b, keys) == {} <==> Unserved(g, f, a, b)
  {
    AllRelaysFacts(a, keys);
    AllRelaysFacts(b, keys);
    assert forall pk :: Serving(f, a, b, pk) == a(pk) + b(pk);
  }

  lemma AllRelaysFacts(sel: Choice, keys: set<PublicKey>)
    ensures forall u: RelayUrl :: u in AllRelays(sel, keys) <==> exists pk :: pk in keys && u in sel(pk)
    ensures AllRelays(sel, keys) == {} <==> forall pk :: pk in keys ==> sel(pk) == {}
    ensures ByRelay(sel, keys) == map[] <==> AllRelays(sel, keys) == {}
  {
    if AllRelays(sel, keys) == {} {
      forall pk | pk in keys
        ensures sel(pk) == {}
      {
        assert forall u :: u in sel(pk) ==> u in AllRelays(sel, keys);
      }
    }
    assert ByRelay(sel, keys).Keys == AllRelays(sel, keys);
  }

  // ----- what the parts mean -----

  /** Authors only: a relay's filter matches exactly the events the original matches whose author it was chosen for. */
  lemma AuthorsMeaning(g: Graph, f: Filter, a: Choice, b: Choice, u: RelayUrl, e: Event, opts: MatchOptions)
    requires f.authors.Some? && PValues(f).None? && Has(BrokenWith(g, f, a, b), u)
    ensures MatchEvent(BrokenWith(g, f, a, b).filters[u], e, opts) <==> MatchEvent(f, e, opts) && u in a(e.pubkey)
  {
    var keys := Elems(f.authors.value);
    ByRelayMembers(a, keys, u);
    var pks := ByRelay(a, keys)[u];
    assert e.pubkey in Ascending(pks) <==> e.pubkey in Elems(Ascending(pks));
    assert BrokenWith(g, f, a, b).filters[u] == NarrowAuthors(f, pks);
  }

  /** So the parts together are the original, restricted to the authors that have a relay. */
  lemma AuthorsUnion(g: Graph, f: Filter, a: Choice, b: Choice, e: Event, opts: MatchOptions)
    requires f.authors.Some? && PValues(f).None?
    ensures var r := BrokenWith(g, f, a, b);
            (exists u :: Has(r, u) && MatchEvent(r.filters[u], e, opts))
            <==> MatchEvent(f, e, opts) && a(e.pubkey) != {}
  {
    var r := BrokenWith(g, f, a, b);
    if u :| Has(r, u) && MatchEvent(r.filters[u], e, opts) {
      AuthorsMeaning(g, f, a, b, u, e, opts);
    }
    if MatchEvent(f, e, opts) && a(e.pubkey) != {} {
      var u :| u in a(e.pubkey);
      ByRelayMembers(a, Elems(f.authors.value), u);
      AuthorsMeaning(g, f, a, b, u, e, opts);
    }
  }

  /** The relay gets a filter of its own. */
  predicate Has(r: Broken, u: RelayUrl) { r.PerRelay? && u in r.filters }

  /** `w` is a `#p` value whose key the relay was chosen for, and `v` is that key's canonical spelling. */
  predicate ServesBy(g: Graph, f: Filter, b: Choice, u: RelayUrl, v: Text, w: Text)
    requires PValues(f).Some?
  {
    && w in PValues(f).value && ParseKey(g, w).Some?
    && u in b(ParseKey(g, w).value) && v == Hex.Encode(ParseKey(g, w).value)
  }

  ghost predicate PServes(g: Graph, f: Filter, b: Choice, u: RelayUrl, v: Text)
    requires PValues(f).Some?
  {
    exists w :: ServesBy(g, f, b, u, v, w)
  }

  lemma NarrowedValues(g: Graph, f: Filter, b: Choice, u: RelayUrl, v: Text)
    requires PValues(f).Some? && u in ByRelay(b, PKeys(g, PValues(f).value))
    ensures v in HexSeq(Ascending(ByRelay(b, PKeys(g, PValues(f).value))[u])) <==> PServes(g, f, b, u, v)
  {
    var keys := PKeys(g, PValues(f).value);
    var pks := ByRelay(b, keys)[u];
    ByRelayMembers(b, keys, u);
    HexSeqMembers(pks, v);
    if v in HexSeq(Ascending(pks)) {
      var pk :| pk in pks && v == Hex.Encode(pk);
      var w := KeyNamed(g, PValues(f).value, pk);
      assert ServesBy(g, f, b, u, v, w);
    }
    if PServes(g, f, b, u, v) {
      var w :| ServesBy(g, f, b, u, v, w);
      assert ParseKey(g, w).value in pks;
    }
  }

  lemma KeyNamed(g: Graph, values: seq<Text>, pk: PublicKey) returns (w: Text)
    requires pk in PKeys(g, values)
    ensures w in values && ParseKey(g, w) == Some(pk)
  {
    w :| w in values && ParseKey(g, w) == Some(pk);
  }

  lemma HexSeqMembers(pks: set<PublicKey>, v: Text)
    ensures v in HexSeq(Ascending(pks)) <==> exists pk :: pk in pks && v == Hex.Encode(pk)
  {
    var ks := Ascending(pks);
    if v in HexSeq(ks) {
      var i :| 0 <= i < |ks| && HexSeq(ks)[i] == v;
      assert ks[i] in Elems(ks);
    }
    if pk :| pk in pks && v == Hex.Encode(pk) {
      assert pk in Elems(ks);
      var i :| 0 <= i < |ks| && ks[i] == pk;
      assert HexSeq(ks)[i] == v;
    }
  }

  /** The filter without its `#p` slot. */
  predicate MatchesRest(f: Filter, e: Event, opts: MatchOptions) {
    && MatchEvent(f.(tags := []), e, opts)
    && forall letter: byte :: letter != P_TAG ==> Meets(f.tags, e, letter)
  }

  lemma MatchSplit(f: Filter, e: Event, opts: MatchOptions)
    requires ValidFilter(f)
    ensures MatchEvent(f, e, opts) <==> MatchesRest(f, e, opts) && Meets(f.tags, e, P_TAG)
  {
    TagsMatchIff(f.tags, e);
  }

  /** `#p` only: a relay's filter asks for the rest of the original and a `p` tag naming a key it was chosen for. */
  lemma PTagsMeaning(g: Graph, f: Filter, a: Choice, b: Choice, u: RelayUrl, e: Event, opts: MatchOptions)
    requires ValidFilter(f) && f.authors.None? && PValues(f).Some?
    ensures Has(BrokenWith(g, f, a, b), u) ==>
              (MatchEvent(BrokenWith(g, f, a, b).filters[u], e, opts)
               <==> MatchesRest(f, e, opts) && exists k :: 0 <= k < |e.tags| && PTagFor(e.tags[k], g, f, b, u))
  {
    if Has(BrokenWith(g, f, a, b), u) {
      var pks := ByRelay(b, PKeys(g, PValues(f).value))[u];
      var values := HexSeq(Ascending(pks));
      assert BrokenWith(g, f, a, b).filters[u] == NarrowPTags(f, pks);
      NarrowedMatch(f, values, e, opts);
      forall k | 0 <= k < |e.tags|
        ensures TagHit(e.tags[k], P_TAG, values) <==> PTagFor(e.tags[k], g, f, b, u)
      {
        if |e.tags[k]| > 1 {
          NarrowedValues(g, f, b, u, e.tags[k][1]);
        }
      }
    }
  }

  /** Replacing the `#p` values touches no other constraint. */
  lemma NarrowedMatch(f: Filter, values: seq<Text>, e: Event, opts: MatchOptions)
    requires ValidFilter(f)
    ensures MatchEvent(f.(tags := Put(f.tags, P_TAG, values)), e, opts)
            <==> MatchesRest(f, e, opts) && HasTag(e, P_TAG, values)
  {
    var n := f.(tags := Put(f.tags, P_TAG, values));
    PutFacts(f.tags, P_TAG, values);
    MatchSplit(n, e, opts);
    forall letter: byte
      ensures Meets(n.tags, e, letter)
              <==> if letter == P_TAG then HasTag(e, P_TAG, values) else Meets(f.tags, e, letter)
    {
      assert Lookup(n.tags, letter) == if letter == P_TAG then Some(values) else Lookup(f.tags, letter);
    }
    assert n.(tags := []) == f.(tags := []);
  }

  /** The tag is a `p` tag whose value names, canonically, a key of the filter that `u` was chosen for. */
  ghost predicate PTagFor(tag: seq<Text>, g: Graph, f: Filter, b: Choice, u: RelayUrl)
    requires PValues(f).Some?
  {
    TagLetter(tag) == Some(P_TAG) && |tag| > 1 && PServes(g, f, b, u, tag[1])
  }

  // ----- when nothing is lost or gained among routed keys -----

  /** Some relay was chosen for the key `v` names. */
  predicate Routed(g: Graph, b: Choice, v: Text) { ParseKey(g, v).Some? && b(ParseKey(g, v).value) != {} }

  /** Routed values are spelled in lowercase, as `to_hex` writes them. */
  predicate CanonicalValues(g: Graph, f: Filter, b: Choice)
    requires PValues(f).Some?
  {
    forall v :: v in PValues(f).value && Routed(g, b, v) ==> Hex.Encode(ParseKey(g, v).value) == v
  }

  /** Some part asks for the value `v`. */
  ghost predicate Asked(g: Graph, f: Filter, b: Choice, v: Text)
    requires PValues(f).Some?
  {
    exists u :: PServes(g, f, b, u, v)
  }

  /** The parts together ask for exactly the routed `#p` values of the original if and only if those are canonical. */
  lemma AskedIff(g: Graph, f: Filter, b: Choice)
    requires PValues(f).Some?
    ensures CanonicalValues(g, f, b)
            <==> forall v: Text :: Asked(g, f, b, v) <==> v in PValues(f).value && Routed(g, b, v)
  {
    if CanonicalValues(g, f, b) {
      forall v: Text
        ensures Asked(g, f, b, v) <==> v in PValues(f).value && Routed(g, b, v)
      {
        CanonicalAsked(g, f, b, v);
      }
    }
    if forall v: Text :: Asked(g, f, b, v) <==> v in PValues(f).value && Routed(g, b, v) {
      forall v | v in PValues(f).value && Routed(g, b, v)
        ensures Hex.Encode(ParseKey(g, v).value) == v
      {
        AskedIsCanonical(g, f, b, v);
      }
    }
  }

  lemma CanonicalAsked(g: Graph, f: Filter, b: Choice, v: Text)
    requires PValues(f).Some? && CanonicalValues(g, f, b)
    ensures Asked(g, f, b, v) <==> v in PValues(f).value && Routed(g, b, v)
  {
    if Asked(g, f, b, v) {
      var u :| PServes(g, f, b, u, v);
      var w :| ServesBy(g, f, b, u, v, w);
      assert Routed(g, b, w);
    }
    if v in PValues(f).value && Routed(g, b, v) {
      var u :| u in b(ParseKey(g, v).value);
      assert ServesBy(g, f, b, u, v, v);
      assert PServes(g, f, b, u, v);
    }
  }

  /** Whatever the parts ask for is spelled canonically. */
  lemma AskedIsCanonical(g: Graph, f: Filter, b: Choice, v: Text)
    requires PValues(f).Some? && Asked(g, f, b, v)
    ensures ParseKey(g, v).Some? && Hex.Encode(ParseKey(g, v).value) == v
  {
    var u :| PServes(g, f, b, u, v);
    var w :| ServesBy(g, f, b, u, v, w);
    Hex.DecodeEncode(ParseKey(g, w).value);
  }

  /** A `p` tag that names a routed key of the filter. */
  predicate RoutedTag(tag: seq<Text>, g: Graph, f: Filter, b: Choice)
    requires PValues(f).Some?
  {
    TagLetter(tag) == Some(P_TAG) && |tag| > 1 && tag[1] in PValues(f).value && Routed(g, b, tag[1])
  }

  /** So for canonical `#p` values the parts together are the original, restricted to events that tag a routed key. */
  lemma PTagsUnion(g: Graph, f: Filter, a: Choice, b: Choice, e: Event, opts: MatchOptions)
    requires ValidFilter(f) && f.authors.None? && PValues(f).Some? && CanonicalValues(g, f, b)
    ensures var r := BrokenWith(g, f, a, b);
            (exists u :: Has(r, u) && MatchEvent(r.filters[u], e, opts))
            <==> MatchEvent(f, e, opts) && exists k :: 0 <= k < |e.tags| && RoutedTag(e.tags[k], g, f, b)
  {
    var r := BrokenWith(g, f, a, b);
    if u :| Has(r, u) && MatchEvent(r.filters[u], e, opts) {
      PTagsMeaning(g, f, a, b, u, e, opts);
      var k :| 0 <= k < |e.tags| && PTagFor(e.tags[k], g, f, b, u);
      CanonicalAsked(g, f, b, e.tags[k][1]);
      assert RoutedTag(e.tags[k], g, f, b);
      RoutedTagMeets(g, f, b, e, k);
      MatchSplit(f, e, opts);
    }
    if MatchEvent(f, e, opts) && exists k :: 0 <= k < |e.tags| && RoutedTag(e.tags[k], g, f, b) {
      var k :| 0 <= k < |e.tags| && RoutedTag(e.tags[k], g, f, b);
      CanonicalAsked(g, f, b, e.tags[k][1]);
      var u :| PServes(g, f, b, u, e.tags[k][1]);
      ServingIsListed(g, f, a, b, u, e.tags[k][1]);
      MatchSplit(f, e, opts);
      PTagsMeaning(g, f, a, b, u, e, opts);
      assert PTagFor(e.tags[k], g, f, b, u);
    }
  }

  lemma RoutedTagMeets(g: Graph, f: Filter, b: Choice, e: Event, k: nat)
    requires PValues(f).Some? && k < |e.tags| && RoutedTag(e.tags[k], g, f, b)
    ensures Meets(f.tags, e, P_TAG)
  {
    assert TagHit(e.tags[k], P_TAG, PValues(f).value);
  }

  lemma ServingIsListed(g: Graph, f: Filter, a: Choice, b: Choice, u: RelayUrl, v: Text)
    requires f.authors.None? && PValues(f).Some?
    ensures PServes(g, f, b, u, v) ==> Has(BrokenWith(g, f, a, b), u)
  {
    if PServes(g, f, b, u, v) {
      var w :| ServesBy(g, f, b, u, v, w);
      ByRelayMembers(b, PKeys(g, PValues(f).value), u);
    }
  }
}
