/** The canonical result set: deduplicated, newest first, whatever order the events arrived in. */
module EventSet {
  import opened Bytes
  import opened Filters
  import opened Order

  /** The comparator of `from_unsorted`: later `created_at` first, then smaller id. */
  predicate NewestFirst(a: Event, b: Event) {
    a.createdAt > b.createdAt || (a.createdAt == b.createdAt && TextLeq(a.id, b.id))
  }

  /** The same order, strictly. */
  predicate Precedes(a: Event, b: Event) { NewestFirst(a, b) && !NewestFirst(b, a) }

  lemma NewestFirstOrder()
    ensures TotalPreorder(NewestFirst)
  {
    TextOrder();
    assert forall a: Event, b: Event :: TextLeq(a.id, b.id) || TextLeq(b.id, a.id);
  }

  ghost predicate DistinctIds(s: seq<Event>) {
    forall i, j :: 0 <= i < j < |s| ==> s[i].id != s[j].id
  }

  /** Equal ids mean equal events, as they do when ids are verified hashes. */
  ghost predicate Coherent(s: seq<Event>) {
    forall x, y :: x in s && y in s && x.id == y.id ==> x == y
  }

  // ----- what the result should be -----

  /** `r` lists exactly one event of `s` for every id in `s`, strictly ordered. */
  ghost predicate IsCanonical(s: seq<Event>, r: seq<Event>) {
    && (forall e :: e in r ==> e in s)
    && (forall e :: e in s ==> HasId(r, e.id))
    && DistinctIds(r)
    && (forall i, j :: 0 <= i < j < |r| ==> Precedes(r[i], r[j]))
  }

  ghost predicate HasId(s: seq<Event>, id: Text) { exists e :: e in s && e.id == id }

  /** What "newest first" means: a later timestamp, or the same one and an id that is smaller byte by byte. */
  ghost predicate ComesBefore(a: Event, b: Event) {
    a.createdAt > b.createdAt || (a.createdAt == b.createdAt && Smaller(a.id, b.id))
  }

  ghost predicate NewestToOldest(r: seq<Event>) { forall i, j :: 0 <= i < j < |r| ==> ComesBefore(r[i], r[j]) }

  lemma PrecedesIff(a: Event, b: Event)
    ensures Precedes(a, b) <==> ComesBefore(a, b)
  {
    StrictlyLess(a.id, b.id);
    TextLeqTotal(a.id, b.id);
    if TextLeq(a.id, b.id) && TextLeq(b.id, a.id) {
      TextLeqAntisymmetric(a.id, b.id);
    }
  }

  lemma CanonicalOrder(s: seq<Event>, r: seq<Event>)
    requires IsCanonical(s, r)
    ensures NewestToOldest(r)
  {
    forall i, j | 0 <= i < j < |r|
      ensures ComesBefore(r[i], r[j])
    {
      PrecedesIff(r[i], r[j]);
    }
  }

  // ----- what the code computes -----

  /** The first event under each id, in order of arrival. */
  function Firsts(s: seq<Event>): seq<Event> {
    if s == [] then []
    else
      var before := Firsts(s[..|s| - 1]);
      var e := s[|s| - 1];
      if LastIsRepeat(s) then before else before + [e]
  }

  function Canonical(s: seq<Event>): seq<Event> { Sort(NewestFirst, Firsts(s)) }

  /** `Events::from_unsorted`. */
  method FromUnsorted(stream: seq<Event>) returns (inner: seq<Event>)
    ensures inner == Canonical(stream)
    ensures IsCanonical(stream, inner) && NewestToOldest(inner)
  {
    var seen: set<Text> := {};
    inner := [];
    for k := 0 to |stream|
      invariant seen == set i | 0 <= i < k :: stream[i].id
      invariant inner == Firsts(stream[..k])
    {
      assert stream[..k + 1][..k] == stream[..k];
      if stream[k].id !in seen {
        seen := seen + {stream[k].id};
        inner := inner + [stream[k]];
      }
    }
    assert stream[..|stream|] == stream;
    inner := Sort(NewestFirst, inner);
    CanonicalIs(stream);
    CanonicalOrder(stream, inner);
  }

  /** `first_owned`: `swap_remove(0)` takes the head out and moves the last event into the freed slot. */
  method FirstOwned(inner: seq<Event>) returns (first: Option<Event>, rest: seq<Event>)
    ensures first.None? <==> inner == []
    ensures first.None? ==> rest == []
    ensures first.Some? ==> multiset(inner) == multiset(rest) + multiset{first.value}
    ensures first.Some? && NewestToOldest(inner) ==>
              forall e :: e in rest ==> ComesBefore(first.value, e) && first.value.createdAt >= e.createdAt
  {
    first, rest := None, inner;
    if inner != [] {
      first := Some(inner[0]);
      var last := inner[|inner| - 1];
      rest := if |inner| == 1 then [] else [last] + inner[1..|inner| - 1];
      SwapRemove(inner, rest);
    }
  }

  lemma SwapRemove(inner: seq<Event>, rest: seq<Event>)
    requires inner != []
    requires rest == if |inner| == 1 then [] else [inner[|inner| - 1]] + inner[1..|inner| - 1]
    ensures multiset(inner) == multiset(rest) + multiset{inner[0]}
  {
    if |inner| == 1 {
      assert inner == [inner[0]];
    } else {
      assert inner == [inner[0]] + inner[1..|inner| - 1] + [inner[|inner| - 1]];
    }
  }

  /** The head of the result is at least as new as everything that was given, and of equally new events it has the
      smallest id. */
  lemma HeadIsNewest(s: seq<Event>, e: Event)
    requires Coherent(s) && e in s
    ensures Canonical(s) != [] && Canonical(s)[0] in s
    ensures Canonical(s)[0].createdAt >= e.createdAt && (Canonical(s)[0] == e || ComesBefore(Canonical(s)[0], e))
  {
    CanonicalIs(s);
    var r := Canonical(s);
    CanonicalOrder(s, r);
    assert HasId(r, e.id);
    var i :| 0 <= i < |r| && r[i] == e;
    assert r[0] in r;
  }

  // ----- it is canonical -----

  /** Some event of `s` before the last carries its id. */
  predicate LastIsRepeat(s: seq<Event>)
    requires s != []
  {
    exists k :: 0 <= k < |s| - 1 && s[k].id == s[|s| - 1].id
  }

  lemma {:induction false} FirstsFacts(s: seq<Event>)
    ensures DistinctIds(Firsts(s))
    ensures forall e :: e in Firsts(s) ==> e in s
    ensures forall e :: e in s ==> HasId(Firsts(s), e.id)
    decreases |s|
  {
    if s != [] {
      var before, e := s[..|s| - 1], s[|s| - 1];
      FirstsFacts(before);
      assert s == before + [e];
      if LastIsRepeat(s) {
        var k :| 0 <= k < |s| - 1 && s[k].id == e.id;
        assert s[k] in before;
      } else {
        NewId(before, e, Firsts(before));
      }
    }
  }

  /** An event with a new id joins the first occurrences. */
  lemma NewId(before: seq<Event>, e: Event, kept: seq<Event>)
    requires DistinctIds(kept) && (forall f :: f in kept ==> f in before)
    requires (forall f :: f in before ==> HasId(kept, f.id))
    requires forall f :: f in before ==> f.id != e.id
    ensures DistinctIds(kept + [e])
    ensures forall f :: f in kept + [e] ==> f in before + [e]
    ensures forall f :: f in before + [e] ==> HasId(kept + [e], f.id)
  {
    assert forall k :: 0 <= k < |kept| ==> kept[k] in before;
    forall f | f in before + [e]
      ensures HasId(kept + [e], f.id)
    {
      if f in before {
        var g :| g in kept && g.id == f.id;
        assert g in kept + [e];
      } else {
        assert e in kept + [e];
      }
    }
  }

  lemma PermutedIdsDistinct(s: seq<Event>, r: seq<Event>)
    requires DistinctIds(s) && multiset(s) == multiset(r)
    ensures DistinctIds(r)
  {
    forall i, j | 0 <= i < j < |r|
      ensures r[i].id != r[j].id
    {
      if r[i].id == r[j].id {
        assert r[i] in multiset(r) && r[j] in multiset(r);
        var a :| 0 <= a < |s| && s[a] == r[i];
        var b :| 0 <= b < |s| && s[b] == r[j];
        OccursOnce(s, a);
        OccursTwice(r, i, j);
      }
    }
  }

  lemma OccursOnce(s: seq<Event>, a: nat)
    requires DistinctIds(s) && a < |s|
    ensures multiset(s)[s[a]] == 1
  {
    assert s == s[..a] + [s[a]] + s[a + 1..];
    assert s[a] !in s[..a] && s[a] !in s[a + 1..];
  }

  lemma OccursTwice(r: seq<Event>, i: nat, j: nat)
    requires i < j < |r| && r[i] == r[j]
    ensures multiset(r)[r[i]] >= 2
  {
    assert r == r[..i] + [r[i]] + r[i + 1..j] + [r[j]] + r[j + 1..];
  }

  /** Sorted with distinct ids is strictly sorted. */
  lemma StrictlySorted(r: seq<Event>)
    requires Sorted(NewestFirst, r) && DistinctIds(r)
    ensures forall i, j :: 0 <= i < j < |r| ==> Precedes(r[i], r[j])
  {
    forall i, j | 0 <= i < j < |r|
      ensures Precedes(r[i], r[j])
    {
      if NewestFirst(r[j], r[i]) {
        TextLeqAntisymmetric(r[i].id, r[j].id);
      }
    }
  }

  lemma CanonicalIs(s: seq<Event>)
    ensures IsCanonical(s, Canonical(s))
  {
    FirstsFacts(s);
    NewestFirstOrder();
    SortSorts(NewestFirst, Firsts(s));
    SortPermutes(NewestFirst, Firsts(s));
    PermutedIdsDistinct(Firsts(s), Canonical(s));
    StrictlySorted(Canonical(s));
    forall e | e in s
      ensures HasId(Canonical(s), e.id)
    {
      assert HasId(Firsts(s), e.id);
    }
  }

  // ----- and nothing but the events themselves decides it -----

  /** A canonical listing of coherent events holds exactly those events. */
  lemma CanonicalElements(s: seq<Event>, r: seq<Event>)
    requires IsCanonical(s, r) && Coherent(s)
    ensures forall e :: e in r <==> e in s
  {
    forall e | e in s
      ensures e in r
    {
      assert HasId(r, e.id);
    }
  }

  /** Strictly ordered listings of the same events are equal. */
  lemma {:induction false} StrictUnique(r: seq<Event>, q: seq<Event>)
    requires forall e :: e in r <==> e in q
    requires forall i, j :: 0 <= i < j < |r| ==> Precedes(r[i], r[j])
    requires forall i, j :: 0 <= i < j < |q| ==> Precedes(q[i], q[j])
    ensures r == q
    decreases |r|
  {
    assert r != [] ==> r[0] in q;
    assert q != [] ==> q[0] in r;
    if r != [] && q != [] {
      assert q[0] in r;
      var i :| 0 <= i < |q| && q[i] == r[0];
      var j :| 0 <= j < |r| && r[j] == q[0];
      assert r[0] == q[0];
      TailElements(r);
      TailElements(q);
      StrictUnique(r[1..], q[1..]);
      assert r == [r[0]] + r[1..] && q == [q[0]] + q[1..];
    }
  }

  lemma TailElements(r: seq<Event>)
    requires r != [] && forall i, j :: 0 <= i < j < |r| ==> Precedes(r[i], r[j])
    ensures forall e :: e in r[1..] <==> e in r && e != r[0]
  {
    assert r == [r[0]] + r[1..];
    forall e | e in r[1..]
      ensures e != r[0]
    {
      var i :| 0 <= i < |r[1..]| && r[1..][i] == e;
      assert r[1..][i] == r[i + 1];
    }
  }

  /** Any interleaving, reordering or repetition of coherent streams gives the same sequence, and different sets of
      events give different ones. */
  lemma CanonicalIff(s: seq<Event>, t: seq<Event>)
    requires Coherent(s) && Coherent(t)
    ensures Canonical(s) == Canonical(t) <==> (forall e :: e in s <==> e in t)
  {
    CanonicalIs(s);
    CanonicalIs(t);
    CanonicalElements(s, Canonical(s));
    CanonicalElements(t, Canonical(t));
    if forall e :: e in s <==> e in t {
      StrictUnique(Canonical(s), Canonical(t));
    } else {
      var e :| !(e in s <==> e in t);
      assert !(e in Canonical(s) <==> e in Canonical(t));
    }
  }

  /** The listing is idempotent: a canonical sequence is its own canonical form. */
  lemma CanonicalAgain(s: seq<Event>)
    ensures Canonical(Canonical(s)) == Canonical(s)
  {
    CanonicalIs(s);
    CanonicalIs(Canonical(s));
    OwnCanonical(s, Canonical(s), Canonical(Canonical(s)));
  }

  lemma OwnCanonical(s: seq<Event>, r: seq<Event>, q: seq<Event>)
    requires IsCanonical(s, r) && IsCanonical(r, q)
    ensures q == r
  {
    forall x, y | x in r && y in r && x.id == y.id
      ensures x == y
    {
      OnePerId(s, r, x, y);
    }
    CanonicalElements(r, q);
    StrictUnique(q, r);
  }

  lemma OnePerId(s: seq<Event>, r: seq<Event>, x: Event, y: Event)
    requires IsCanonical(s, r) && x in r && y in r && x.id == y.id
    ensures x == y
  {
    var i :| 0 <= i < |r| && r[i] == x;
    var j :| 0 <= j < |r| && r[j] == y;
  }

  /** The first arrival under an id is the one kept. */
  lemma {:induction false} FirstArrivalWins(s: seq<Event>, k: nat)
    requires k < |s| && forall i :: 0 <= i < k ==> s[i].id != s[k].id
    ensures s[k] in Firsts(s)
    decreases |s|
  {
    if k < |s| - 1 {
      FirstArrivalWins(s[..|s| - 1], k);
    }
  }

  /** Independence of arrival order is exactly coherence: two different events under one id make it matter which of
      them came first. */
  lemma OrderIndependentIff(s: seq<Event>)
    ensures OrderIndependent(s) <==> Coherent(s)
  {
    if Coherent(s) {
      forall t | multiset(t) == multiset(s)
        ensures Canonical(t) == Canonical(s)
      {
        SameElements(s, t);
        CanonicalIff(s, t);
      }
    } else {
      var x, y :| x in s && y in s && x.id == y.id && x != y;
      var t := BroughtToFront(s, x);
      var u := BroughtToFront(s, y);
      CanonicalIs(s);
      if OrderIndependent(s) {
        OnePerId(s, Canonical(s), x, y);
      }
    }
  }

  ghost predicate OrderIndependent(s: seq<Event>) {
    forall t :: multiset(t) == multiset(s) ==> Canonical(t) == Canonical(s)
  }

  lemma SameElements(s: seq<Event>, t: seq<Event>)
    requires multiset(s) == multiset(t)
    ensures forall e :: e in s <==> e in t
  {
    assert forall e :: e in t <==> e in multiset(t);
    assert forall e :: e in s <==> e in multiset(s);
  }

  lemma BroughtToFront(s: seq<Event>, x: Event) returns (t: seq<Event>)
    requires x in s
    ensures multiset(t) == multiset(s) && x in Canonical(t)
  {
    var k :| 0 <= k < |s| && s[k] == x;
    t := [x] + s[..k] + s[k + 1..];
    assert s == s[..k] + [x] + s[k + 1..];
    FirstArrivalWins(t, 0);
    SortPermutes(NewestFirst, Firsts(t));
  }

  /** Two different events that claim one id: the first to arrive is kept. */
  lemma ClashingIds(id: Text)
    ensures var x, y := Event(id, [], 1, 1, [], [1], []), Event(id, [], 1, 1, [], [2], []);
            Canonical([x, y]) == [x] && Canonical([y, x]) == [y] && !OrderIndependent([x, y])
  {
    var x, y := Event(id, [], 1, 1, [], [1], []), Event(id, [], 1, 1, [], [2], []);
    FirstOfTwo(x, y);
    FirstOfTwo(y, x);
    assert x in [x, y] && y in [x, y];
    OrderIndependentIff([x, y]);
  }

  lemma FirstOfTwo(x: Event, y: Event)
    requires x.id == y.id
    ensures Canonical([x, y]) == [x]
  {
    var s := [x, y];
    assert s[..1] == [x] && [x][..0] == [];
    assert Firsts([]) == [];
    assert Firsts([x]) == [x];
    assert s[0].id == s[1].id;
    assert Firsts(s) == [x];
    assert [x][1..] == [];
    assert Sort(NewestFirst, []) == [];
  }

  lemma Singleton(e: Event)
    ensures Canonical([e]) == [e] && DistinctIds([e])
  {
    assert [e][..0] == [] && Firsts([]) == [];
    assert Firsts([e]) == [e];
    assert [e][1..] == [] && Sort(NewestFirst, []) == [];
    assert Insert(NewestFirst, e, []) == [e];
  }
}
