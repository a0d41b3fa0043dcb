/** Which relays are picked for a user: a bounded top-k from each signal, filtered by the policy. */
module Selection {
  import opened Bytes
  import opened Order
  import opened Routes

  /** Per-bucket caps, all at least one. */
  datatype Limits = Limits(read: nat, write: nat, hint: nat, received: nat, dm: nat)

  predicate ValidLimits(l: Limits) { l.read > 0 && l.write > 0 && l.hint > 0 && l.received > 0 && l.dm > 0 }

  function Take<T>(s: seq<T>, k: nat): seq<T> { if k <= |s| then s[..k] else s }

  // ----- what a top-k is -----

  /** `chosen` are the `k` least elements of `pool`, or all of it when there are fewer. */
  ghost predicate IsTopK<T>(leq: (T, T) -> bool, pool: set<T>, k: nat, chosen: set<T>) {
    && chosen <= pool
    && |chosen| == (if k <= |pool| then k else |pool|)
    && (forall a, b :: a in chosen && b in pool && b !in chosen ==> leq(a, b))
  }

  lemma {:induction false} ElemsSize<T>(s: seq<T>)
    requires Distinct(s)
    ensures |Elems(s)| == |s|
  {
    if s != [] {
      var n := |s| - 1;
      ElemsSize(s[..n]);
      assert s == s[..n] + [s[n]];
      assert Elems(s) == Elems(s[..n]) + {s[n]};
    }
  }

  /** The head of a sorted duplicate-free listing is a top-k. */
  lemma TakeIsTopK<T>(leq: (T, T) -> bool, s: seq<T>, k: nat)
    requires Sorted(leq, s) && Distinct(s)
    ensures IsTopK(leq, Elems(s), k, Elems(Take(s, k)))
  {
    var t := Take(s, k);
    ElemsSize(s);
    ElemsSize(t);
    forall a, b | a in Elems(t) && b in Elems(s) && b !in Elems(t)
      ensures leq(a, b)
    {
      var i :| 0 <= i < |t| && t[i] == a;
      var j :| 0 <= j < |s| && s[j] == b;
      assert j >= |t|;
      assert s[i] == a;
    }
  }

  /** There is only one when the order tells the pool's elements apart. */
  lemma TopKUnique<T>(leq: (T, T) -> bool, pool: set<T>, k: nat, c: set<T>, d: set<T>)
    requires IsTopK(leq, pool, k, c) && IsTopK(leq, pool, k, d)
    requires forall a, b :: a in pool && b in pool && leq(a, b) && leq(b, a) ==> a == b
    ensures c == d
  {
    if c != d {
      if c - d == {} {
        assert forall x :: x in c ==> x in c - d || x in d;
        SubsetSize(c, d);
      } else if d - c == {} {
        assert forall x :: x in d ==> x in d - c || x in c;
        SubsetSize(d, c);
      } else {
        assert false;
      }
    }
  }

  lemma SubsetSize<T>(c: set<T>, d: set<T>)
    requires c < d
    ensures |c| < |d|
  {
    assert d == c + (d - c);
    assert |d| == |c| + |d - c|;
  }

  // ----- ordered iteration of a `BTreeMap` -----

  predicate IsLeast(s: set<Text>, m: Text) { m in s && forall y :: y in s ==> TextLeq(m, y) }

  lemma {:induction false} LeastExists(s: set<Text>)
    requires s != {}
    ensures exists m :: IsLeast(s, m)
    decreases |s|
  {
    var x :| x in s;
    if s == {x} {
      TextLeqTotal(x, x);
      assert IsLeast(s, x);
    } else {
      LeastExists(s - {x});
      var m :| IsLeast(s - {x}, m);
      LeastWith(s, x, m);
    }
  }

  lemma LeastWith(s: set<Text>, x: Text, m: Text)
    requires x in s && IsLeast(s - {x}, m)
    ensures IsLeast(s, x) || IsLeast(s, m)
  {
    TextLeqTotal(x, m);
    TextLeqTotal(x, x);
    forall y | y in s && TextLeq(x, m)
      ensures TextLeq(x, y)
    {
      if y != x {
        TextLeqTransitive(x, m, y);
      }
    }
  }

  lemma LeastUnique(s: set<Text>)
    ensures forall m, n :: IsLeast(s, m) && IsLeast(s, n) ==> m == n
  {
    forall m, n | IsLeast(s, m) && IsLeast(s, n)
      ensures m == n
    {
      TextLeqAntisymmetric(m, n);
    }
  }

  /** The elements of a set of URLs in ascending order. */
  function Ascending(s: set<Text>): (r: seq<Text>)
    ensures Elems(r) == s && Distinct(r) && |r| == |s|
    decreases |s|
  {
    if s == {} then []
    else
      LeastExists(s);
      LeastUnique(s);
      var m :| IsLeast(s, m);
      assert s == {m} + (s - {m});
      [m] + Ascending(s - {m})
  }

  lemma {:induction false} AscendingSorted(s: set<Text>)
    ensures Sorted(TextLeq, Ascending(s))
    decreases |s|
  {
    if s != {} {
      var r := Ascending(s);
      AscendingSorted(s - {r[0]});
      assert r[1..] == Ascending(s - {r[0]});
      forall i, j | 0 <= i < j < |r|
        ensures TextLeq(r[i], r[j])
      {
        assert r[j] in Elems(r);
        if i > 0 {
          assert r[i] == r[1..][i - 1] && r[j] == r[1..][j - 1];
        }
      }
    }
  }

  // ----- the list bucket -----

  datatype Direction = Outbox | Inbox

  /** `is_write` for the outbox, `is_read` for the inbox; an unmarked relay serves both. */
  predicate Wants(d: Direction, m: RelayMarker) { m == ReadWrite || (if d.Outbox? then m == Write else m == Read) }

  function Marked(list: map<RelayUrl, RelayMarker>, d: Direction): set<RelayUrl> {
    set u | u in list && Wants(d, list[u])
  }

  function KeepMarked(list: map<RelayUrl, RelayMarker>, d: Direction, urls: seq<RelayUrl>): (r: seq<RelayUrl>)
    ensures |r| <= |urls|
  {
    if urls == [] then []
    else
      var n := |urls| - 1;
      var rest := KeepMarked(list, d, urls[..n]);
      if urls[n] in list && Wants(d, list[urls[n]]) then rest + [urls[n]] else rest
  }

  /** The first `k` correctly marked entries in URL order. */
  function ListChoice(list: Option<map<RelayUrl, RelayMarker>>, d: Direction, k: nat): set<RelayUrl> {
    match list
    case None => {}
    case Some(m) => Elems(Take(KeepMarked(m, d, Ascending(m.Keys)), k))
  }

  lemma {:induction false} KeepMarkedFacts(list: map<RelayUrl, RelayMarker>, d: Direction, urls: seq<RelayUrl>)
    requires Distinct(urls) && Sorted(TextLeq, urls)
    ensures var r := KeepMarked(list, d, urls);
            && Distinct(r) && Sorted(TextLeq, r)
            && (forall u :: u in r <==> u in urls && u in list && Wants(d, list[u]))
  {
    if urls != [] {
      var n := |urls| - 1;
      KeepMarkedFacts(list, d, urls[..n]);
      assert urls == urls[..n] + [urls[n]];
      var rest := KeepMarked(list, d, urls[..n]);
      forall u | u in rest
        ensures TextLeq(u, urls[n]) && u != urls[n]
      {
        var i :| 0 <= i < n && urls[i] == u;
      }
    }
  }

  /** The list bucket is the exact top-k of the marked entries under URL order. */
  lemma ListChoiceIsTopK(m: map<RelayUrl, RelayMarker>, d: Direction, k: nat)
    ensures IsTopK(TextLeq, Marked(m, d), k, ListChoice(Some(m), d, k))
  {
    var keys := Ascending(m.Keys);
    AscendingSorted(m.Keys);
    KeepMarkedFacts(m, d, keys);
    var r := KeepMarked(m, d, keys);
    assert forall u :: u in m <==> u in Elems(keys);
    assert Elems(r) == Marked(m, d);
    TakeIsTopK(TextLeq, r, k);
  }

  // ----- a histogram bucket -----

  function CountIn(hist: map<RelayUrl, nat>, u: RelayUrl): nat { if u in hist then hist[u] else 0 }

  /** Higher count first, then smaller URL. */
  predicate Beats(hist: map<RelayUrl, nat>, a: RelayUrl, b: RelayUrl) {
    CountIn(hist, a) > CountIn(hist, b) || (CountIn(hist, a) == CountIn(hist, b) && TextLeq(a, b))
  }

  function Rank(hist: map<RelayUrl, nat>): (RelayUrl, RelayUrl) -> bool { (a, b) => Beats(hist, a, b) }

  lemma RankOrder(hist: map<RelayUrl, nat>)
    ensures TotalPreorder(Rank(hist))
    ensures forall a, b :: Rank(hist)(a, b) && Rank(hist)(b, a) ==> a == b
  {
    forall a, b
      ensures Beats(hist, a, b) || Beats(hist, b, a)
      ensures Beats(hist, a, b) && Beats(hist, b, a) ==> a == b
    {
      TextLeqTotal(a, b);
      if TextLeq(a, b) && TextLeq(b, a) {
        TextLeqAntisymmetric(a, b);
      }
    }
    forall a, b, c | Beats(hist, a, b) && Beats(hist, b, c)
      ensures Beats(hist, a, c)
    {
      if TextLeq(a, b) && TextLeq(b, c) {
        TextLeqTransitive(a, b, c);
      }
    }
  }

  function HistogramChoice(hist: map<RelayUrl, nat>, k: nat): set<RelayUrl> {
    Elems(Take(Sort(Rank(hist), Ascending(hist.Keys)), k))
  }

  lemma {:induction false} DistinctFromMultiset<T>(s: seq<T>, t: seq<T>)
    requires multiset(s) == multiset(t) && Distinct(s)
    ensures Distinct(t)
  {
    forall i, j | 0 <= i < j < |t|
      ensures t[i] != t[j]
    {
      if t[i] == t[j] {
        TwiceCounts(t, i, j);
        OnceCounts(s, t[i]);
        assert false;
      }
    }
  }

  lemma TwiceCounts<T>(t: seq<T>, i: nat, j: nat)
    requires i < j < |t| && t[i] == t[j]
    ensures multiset(t)[t[i]] >= 2
  {
    assert t == t[..j] + ([t[j]] + t[j + 1..]);
    assert multiset(t) == multiset(t[..j]) + (multiset{t[j]} + multiset(t[j + 1..]));
    assert t[..j][i] == t[i] && t[i] in multiset(t[..j]);
  }

  lemma {:induction false} OnceCounts<T>(s: seq<T>, x: T)
    requires Distinct(s)
    ensures multiset(s)[x] <= 1
  {
    if s != [] {
      var n := |s| - 1;
      OnceCounts(s[..n], x);
      assert s == s[..n] + [s[n]];
      if x == s[n] {
        assert x !in s[..n];
        assert x !in multiset(s[..n]);
      }
    }
  }

  /** A histogram bucket is the exact top-k under (higher count, then smaller URL). */
  lemma HistogramChoiceIsTopK(hist: map<RelayUrl, nat>, k: nat)
    ensures IsTopK(Rank(hist), hist.Keys, k, HistogramChoice(hist, k))
  {
    var keys := Ascending(hist.Keys);
    var ranked := Sort(Rank(hist), keys);
    RankOrder(hist);
    SortSorts(Rank(hist), keys);
    SortPermutes(Rank(hist), keys);
    DistinctFromMultiset(keys, ranked);
    assert Elems(ranked) == Elems(keys);
    TakeIsTopK(Rank(hist), ranked, k);
  }

  /** A top-k is determined by its pool, so both buckets are characterised exactly. */
  lemma ChoicesIff(m: map<RelayUrl, RelayMarker>, d: Direction, hist: map<RelayUrl, nat>, k: nat, c: set<RelayUrl>)
    ensures IsTopK(TextLeq, Marked(m, d), k, c) <==> c == ListChoice(Some(m), d, k)
    ensures IsTopK(Rank(hist), hist.Keys, k, c) <==> c == HistogramChoice(hist, k)
  {
    ListChoiceIsTopK(m, d, k);
    HistogramChoiceIsTopK(hist, k);
    RankOrder(hist);
    TextSeparates(multiset(Marked(m, d)));
    if IsTopK(TextLeq, Marked(m, d), k, c) {
      assert forall u :: u in Marked(m, d) <==> u in multiset(Marked(m, d));
      TopKUnique(TextLeq, Marked(m, d), k, c, ListChoice(Some(m), d, k));
    }
    if IsTopK(Rank(hist), hist.Keys, k, c) {
      TopKUnique(Rank(hist), hist.Keys, k, c, HistogramChoice(hist, k));
    }
  }

  // ----- the whole selection -----

  function Permitted(cfg: Config, s: set<RelayUrl>): set<RelayUrl> { set u | u in s && cfg.allowed(u) }

  function Cap(l: Limits, d: Direction): nat { if d.Outbox? then l.write else l.read }

  /** `outbox` / `inbox`. */
  function Select(cfg: Config, r: UserRoutes, l: Limits, d: Direction): set<RelayUrl> {
    Permitted(cfg, ListChoice(r.nip65, d, Cap(l, d)) + HistogramChoice(r.hints, l.hint)
                   + HistogramChoice(r.received, l.received))
  }

  /** `dm_relays`: the first entries of an already ordered list. */
  function SelectDm(cfg: Config, r: UserRoutes, l: Limits): set<RelayUrl> {
    Permitted(cfg, Elems(Take(r.nip17, l.dm)))
  }

  lemma TakeSize<T>(s: seq<T>, k: nat)
    ensures |Elems(Take(s, k))| <= k
  {
    ElemsBound(Take(s, k));
  }

  lemma {:induction false} ElemsBound<T>(s: seq<T>)
    ensures |Elems(s)| <= |s|
  {
    if s != [] {
      var n := |s| - 1;
      ElemsBound(s[..n]);
      assert s == s[..n] + [s[n]];
      assert Elems(s) == Elems(s[..n]) + {s[n]};
    }
  }

  lemma {:induction false} PermittedSize(cfg: Config, s: set<RelayUrl>)
    ensures |Permitted(cfg, s)| <= |s|
  {
    if Permitted(cfg, s) < s {
      SubsetSize(Permitted(cfg, s), s);
    } else {
      assert Permitted(cfg, s) == s;
    }
  }

  /** Every pick passes the policy and comes from one of the buckets, and there are no more than the caps add up to. */
  lemma SelectBounded(cfg: Config, r: UserRoutes, l: Limits, d: Direction)
    ensures forall u :: u in Select(cfg, r, l, d) ==>
              && cfg.allowed(u)
              && (u in r.hints || u in r.received || (r.nip65.Some? && u in Marked(r.nip65.value, d)))
    ensures |Select(cfg, r, l, d)| <= Cap(l, d) + l.hint + l.received
    ensures |SelectDm(cfg, r, l)| <= l.dm
  {
    var a := ListChoice(r.nip65, d, Cap(l, d));
    var b, c := HistogramChoice(r.hints, l.hint), HistogramChoice(r.received, l.received);
    if r.nip65.Some? {
      ListChoiceIsTopK(r.nip65.value, d, Cap(l, d));
    }
    HistogramChoiceIsTopK(r.hints, l.hint);
    HistogramChoiceIsTopK(r.received, l.received);
    PermittedSize(cfg, a + b + c);
    assert |a + b| <= |a| + |b|;
    assert |a + b + c| <= |a + b| + |c|;
    TakeSize(r.nip17, l.dm);
    PermittedSize(cfg, Elems(Take(r.nip17, l.dm)));
  }

  // ----- the loops -----

  /** The scan over the relay list, which stops as soon as the bucket is full. */
  method CollectList(list: Option<map<RelayUrl, RelayMarker>>, d: Direction, limit: nat) returns (out: set<RelayUrl>)
    requires limit > 0
    ensures out == ListChoice(list, d, limit)
  {
    if list.None? {
      return {};
    }
    var m := list.value;
    AscendingSorted(m.Keys);
    out := CollectMarked(m, d, limit, Ascending(m.Keys));
  }

  method CollectMarked(m: map<RelayUrl, RelayMarker>, d: Direction, limit: nat, keys: seq<RelayUrl>)
    returns (out: set<RelayUrl>)
    requires limit > 0 && Distinct(keys) && Sorted(TextLeq, keys) && Elems(keys) == m.Keys
    ensures out == Elems(Take(KeepMarked(m, d, keys), limit))
  {
    out := {};
    ghost var kept: seq<RelayUrl> := [];
    var i := 0;
    while i < |keys|
      invariant 0 <= i <= |keys|
      invariant kept == KeepMarked(m, d, keys[..i]) && out == Elems(kept)
      invariant |kept| < limit
    {
      PrefixStep(m, d, keys, i);
      if Wants(d, m[keys[i]]) {
        ElemsSnoc(kept, keys[i]);
        out := out + {keys[i]};
        kept := kept + [keys[i]];
      }
      assert kept == KeepMarked(m, d, keys[..i + 1]);
      i := i + 1;
      if |out| >= limit {
        break;
      }
    }
    FullPrefix(m, d, keys, i, limit);
  }

  lemma ElemsSnoc<T>(s: seq<T>, x: T)
    ensures Elems(s + [x]) == Elems(s) + {x}
  {
  }

  lemma PrefixStep(m: map<RelayUrl, RelayMarker>, d: Direction, keys: seq<RelayUrl>, i: nat)
    requires i < |keys| && Distinct(keys) && Sorted(TextLeq, keys) && Elems(keys) == m.Keys
    ensures keys[i] in m
    ensures var kept := KeepMarked(m, d, keys[..i + 1]);
            && (Wants(d, m[keys[i]]) ==> kept == KeepMarked(m, d, keys[..i]) + [keys[i]])
            && (!Wants(d, m[keys[i]]) ==> kept == KeepMarked(m, d, keys[..i]))
            && |Elems(kept)| == |kept|
  {
    assert keys[i] in Elems(keys);
    assert keys[..i + 1][..i] == keys[..i];
    KeepMarkedFacts(m, d, keys[..i + 1]);
    ElemsSize(KeepMarked(m, d, keys[..i + 1]));
  }

  /** Later keys cannot displace the first `limit` marked ones. */
  lemma FullPrefix(m: map<RelayUrl, RelayMarker>, d: Direction, keys: seq<RelayUrl>, i: nat, limit: nat)
    requires i <= |keys| && |KeepMarked(m, d, keys[..i])| <= limit
    requires i == |keys| || |KeepMarked(m, d, keys[..i])| == limit
    ensures Take(KeepMarked(m, d, keys), limit) == KeepMarked(m, d, keys[..i])
  {
    if i == |keys| {
      assert keys[..i] == keys;
    } else {
      KeepMarkedPrefix(m, d, keys, i);
    }
  }

  lemma {:induction false} KeepMarkedPrefix(m: map<RelayUrl, RelayMarker>, d: Direction, keys: seq<RelayUrl>, i: nat)
    requires i <= |keys|
    ensures KeepMarked(m, d, keys[..i]) <= KeepMarked(m, d, keys)
    decreases |keys|
  {
    if i < |keys| {
      var n := |keys| - 1;
      assert keys[..n][..i] == keys[..i];
      KeepMarkedPrefix(m, d, keys[..n], i);
    } else {
      assert keys[..i] == keys;
    }
  }

  /** `extend_from_histogram`: rank, then insert the head of the ranking. */
  method ExtendFromHistogram(before: set<RelayUrl>, hist: map<RelayUrl, nat>, limit: nat) returns (out: set<RelayUrl>)
    ensures out == before + HistogramChoice(hist, limit)
  {
    if hist == map[] {
      assert Ascending(hist.Keys) == [];
      return before;
    }
    out := InsertAll(before, Take(Sort(Rank(hist), Ascending(hist.Keys)), limit));
  }

  method InsertAll(before: set<RelayUrl>, urls: seq<RelayUrl>) returns (out: set<RelayUrl>)
    ensures out == before + Elems(urls)
  {
    out := before;
    for i := 0 to |urls|
      invariant out == before + Elems(urls[..i])
    {
      assert urls[..i + 1] == urls[..i] + [urls[i]];
      out := out + {urls[i]};
    }
    assert urls[..|urls|] == urls;
  }

  /** `outbox` and `inbox`. */
  method SelectRelays(cfg: Config, r: UserRoutes, l: Limits, d: Direction) returns (out: set<RelayUrl>)
    requires ValidLimits(l)
    ensures out == Select(cfg, r, l, d)
  {
    var listed := CollectList(r.nip65, d, Cap(l, d));
    var hinted := ExtendFromHistogram(listed, r.hints, l.hint);
    var all := ExtendFromHistogram(hinted, r.received, l.received);
    out := Permitted(cfg, all);
  }

  /** `dm_relays`. */
  method SelectDmRelays(cfg: Config, r: UserRoutes, l: Limits) returns (out: set<RelayUrl>)
    ensures out == SelectDm(cfg, r, l)
  {
    out := InsertAll({}, Take(r.nip17, l.dm));
    out := Permitted(cfg, out);
  }
}
