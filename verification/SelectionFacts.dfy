/** Which relays a selection picks, counted out. */
module SelectionFacts {
  import opened Bytes
  import opened Order
  import opened Routes
  import opened Selection

  // ----- a top-k by rank -----

  /** The elements of the pool that come before `u`. */
  ghost function Ahead<T>(leq: (T, T) -> bool, pool: set<T>, u: T): set<T> {
    set v | v in pool && v != u && leq(v, u)
  }

  lemma Included<T>(a: set<T>, b: set<T>)
    requires a <= b
    ensures |a| <= |b| && (|a| == |b| ==> a == b)
  {
    assert b == a + (b - a);
  }

  /** An element is chosen exactly when fewer than `k` others come before it. */
  lemma TopKRank<T(!new)>(leq: (T, T) -> bool, pool: set<T>, k: nat, chosen: set<T>, u: T)
    requires IsTopK(leq, pool, k, chosen) && u in pool
    requires forall a, b :: a in pool && b in pool && leq(a, b) && leq(b, a) ==> a == b
    ensures u in chosen <==> |Ahead(leq, pool, u)| < k
  {
    var ahead := Ahead(leq, pool, u);
    if u in chosen {
      assert ahead <= chosen - {u};
      Included(ahead, chosen - {u});
    } else {
      assert chosen <= ahead;
      Included(chosen, ahead);
      Included(chosen, pool);
    }
  }

  // ----- the three buckets -----

  /** The relay serves the direction: not marked for the other one only. */
  predicate Serves(d: Direction, m: RelayMarker) { if d == Outbox then m != Read else m != Write }

  lemma WantsIff(d: Direction, m: RelayMarker)
    ensures Wants(d, m) <==> Serves(d, m)
  {
  }

  /** The entries that serve the direction and have a smaller URL. */
  ghost function EarlierEntries(list: map<RelayUrl, RelayMarker>, d: Direction, u: RelayUrl): set<RelayUrl> {
    set v | v in list && Serves(d, list[v]) && Smaller(v, u)
  }

  /** `u` is among the first `k` entries of the list, in URL order, that serve the direction. */
  ghost predicate ListedWithin(list: map<RelayUrl, RelayMarker>, d: Direction, k: nat, u: RelayUrl) {
    u in list && Serves(d, list[u]) && |EarlierEntries(list, d, u)| < k
  }

  /** The relays with a higher count, or the same count and a smaller URL. */
  ghost function BetterRelays(hist: map<RelayUrl, nat>, u: RelayUrl): set<RelayUrl>
    requires u in hist
  {
    set v | v in hist && (hist[v] > hist[u] || (hist[v] == hist[u] && Smaller(v, u)))
  }

  /** Fewer than `k` relays are better. */
  ghost predicate RankedWithin(hist: map<RelayUrl, nat>, k: nat, u: RelayUrl) {
    u in hist && |BetterRelays(hist, u)| < k
  }

  lemma TextsSeparated()
    ensures forall a, b :: TextLeq(a, b) && TextLeq(b, a) ==> a == b
  {
    forall a, b | TextLeq(a, b) && TextLeq(b, a)
      ensures a == b
    {
      TextLeqAntisymmetric(a, b);
    }
  }

  lemma AheadInList(list: map<RelayUrl, RelayMarker>, d: Direction, u: RelayUrl)
    ensures Ahead(TextLeq, Marked(list, d), u) == EarlierEntries(list, d, u)
  {
    forall v
      ensures v in Ahead(TextLeq, Marked(list, d), u) <==> v in EarlierEntries(list, d, u)
    {
      StrictlyLess(v, u);
    }
  }

  lemma ListChoiceIff(list: map<RelayUrl, RelayMarker>, d: Direction, k: nat, u: RelayUrl)
    ensures u in ListChoice(Some(list), d, k) <==> ListedWithin(list, d, k, u)
  {
    ListChoiceIsTopK(list, d, k);
    TextsSeparated();
    AheadInList(list, d, u);
    ByRank(TextLeq, Marked(list, d), k, ListChoice(Some(list), d, k), u);
    assert u in Marked(list, d) <==> u in list && Serves(d, list[u]);
  }

  lemma ByRank<T(!new)>(leq: (T, T) -> bool, pool: set<T>, k: nat, chosen: set<T>, u: T)
    requires IsTopK(leq, pool, k, chosen)
    requires forall a, b :: leq(a, b) && leq(b, a) ==> a == b
    ensures u in chosen <==> u in pool && |Ahead(leq, pool, u)| < k
  {
    if u in pool {
      TopKRank(leq, pool, k, chosen, u);
    }
  }

  lemma AheadInHistogram(hist: map<RelayUrl, nat>, u: RelayUrl)
    requires u in hist
    ensures Ahead(Rank(hist), hist.Keys, u) == BetterRelays(hist, u)
  {
    forall v
      ensures v in Ahead(Rank(hist), hist.Keys, u) <==> v in BetterRelays(hist, u)
    {
      StrictlyLess(v, u);
    }
  }

  lemma HistogramChoiceIff(hist: map<RelayUrl, nat>, k: nat, u: RelayUrl)
    ensures u in HistogramChoice(hist, k) <==> RankedWithin(hist, k, u)
  {
    HistogramChoiceIsTopK(hist, k);
    RankOrder(hist);
    ByRank(Rank(hist), hist.Keys, k, HistogramChoice(hist, k), u);
    if u in hist {
      AheadInHistogram(hist, u);
    }
  }

  // ----- the selection -----

  /** A relay is picked exactly when the policy allows it and it makes it into one of the three buckets: the list within
      the write or read cap, the hints, or the deliveries. */
  lemma SelectIff(cfg: Config, r: UserRoutes, l: Limits, d: Direction, u: RelayUrl)
    ensures u in Select(cfg, r, l, d)
            <==> && cfg.allowed(u)
                 && (|| (r.nip65.Some? && ListedWithin(r.nip65.value, d, if d == Outbox then l.write else l.read, u))
                     || RankedWithin(r.hints, l.hint, u) || RankedWithin(r.received, l.received, u))
  {
    if r.nip65.Some? {
      ListChoiceIff(r.nip65.value, d, Cap(l, d), u);
    }
    HistogramChoiceIff(r.hints, l.hint, u);
    HistogramChoiceIff(r.received, l.received, u);
  }

  /** For direct messages: among the first entries of the stored list, and allowed. */
  lemma SelectDmIff(cfg: Config, r: UserRoutes, l: Limits, u: RelayUrl)
    ensures u in SelectDm(cfg, r, l)
            <==> cfg.allowed(u) && exists i :: 0 <= i < l.dm && i < |r.nip17| && r.nip17[i] == u
  {
    var t := Take(r.nip17, l.dm);
    if u in t {
      var i :| 0 <= i < |t| && t[i] == u;
      assert r.nip17[i] == u;
    }
    if i :| 0 <= i < l.dm && i < |r.nip17| && r.nip17[i] == u {
      assert t[i] == u;
    }
  }
}
