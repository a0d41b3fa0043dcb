/** Sorting, and why a sorted sequence is determined by its elements. */
module Order {
  import opened Bytes

  /** A comparator that `sort_by` accepts: total and transitive. */
  ghost predicate TotalPreorder<T(!new)>(leq: (T, T) -> bool) {
    && (forall x, y :: leq(x, y) || leq(y, x))
    && (forall x, y, z :: leq(x, y) && leq(y, z) ==> leq(x, z))
  }

  /** It tells the elements of `s` apart. */
  ghost predicate Separates<T>(leq: (T, T) -> bool, s: multiset<T>) {
    forall x, y :: x in s && y in s && leq(x, y) && leq(y, x) ==> x == y
  }

  ghost predicate Sorted<T>(leq: (T, T) -> bool, s: seq<T>) {
    forall i, j :: 0 <= i < j < |s| ==> leq(s[i], s[j])
  }

  function Insert<T>(leq: (T, T) -> bool, x: T, s: seq<T>): seq<T> {
    if s == [] || leq(x, s[0]) then [x] + s else [s[0]] + Insert(leq, x, s[1..])
  }

  /** The result of `slice::sort_by`, whichever algorithm computes it. */
  function Sort<T>(leq: (T, T) -> bool, s: seq<T>): seq<T> {
    if s == [] then [] else Insert(leq, s[0], Sort(leq, s[1..]))
  }

  lemma {:induction false} InsertPermutes<T>(leq: (T, T) -> bool, x: T, s: seq<T>)
    ensures multiset(Insert(leq, x, s)) == multiset{x} + multiset(s)
  {
    if s == [] || leq(x, s[0]) {
    } else {
      InsertPermutes(leq, x, s[1..]);
      assert s == [s[0]] + s[1..];
    }
  }

  lemma {:induction false} SortPermutes<T>(leq: (T, T) -> bool, s: seq<T>)
    ensures multiset(Sort(leq, s)) == multiset(s)
    ensures |Sort(leq, s)| == |s|
    ensures forall x :: x in Sort(leq, s) <==> x in s
  {
    if s != [] {
      SortPermutes(leq, s[1..]);
      InsertPermutes(leq, s[0], Sort(leq, s[1..]));
      assert s == [s[0]] + s[1..];
    }
    assert |multiset(Sort(leq, s))| == |multiset(s)|;
    forall x
      ensures x in Sort(leq, s) <==> x in s
    {
      assert x in Sort(leq, s) <==> x in multiset(Sort(leq, s));
      assert x in s <==> x in multiset(s);
    }
  }

  lemma {:induction false} InsertSorts<T(!new)>(leq: (T, T) -> bool, x: T, s: seq<T>)
    requires TotalPreorder(leq) && Sorted(leq, s)
    ensures Sorted(leq, Insert(leq, x, s))
  {
    if s == [] || leq(x, s[0]) {
    } else {
      InsertSorts(leq, x, s[1..]);
      var t := Insert(leq, x, s[1..]);
      InsertPermutes(leq, x, s[1..]);
      forall j | 0 <= j < |t|
        ensures leq(s[0], t[j])
      {
        assert t[j] in multiset(t);
      }
    }
  }

  lemma {:induction false} SortSorts<T(!new)>(leq: (T, T) -> bool, s: seq<T>)
    requires TotalPreorder(leq)
    ensures Sorted(leq, Sort(leq, s))
  {
    if s != [] {
      SortSorts(leq, s[1..]);
      InsertSorts(leq, s[0], Sort(leq, s[1..]));
    }
  }

  /** Two sorted arrangements of the same separated elements are the same sequence. */
  lemma {:induction false} SortedUnique<T(!new)>(leq: (T, T) -> bool, s: seq<T>, t: seq<T>)
    requires (forall x :: leq(x, x)) && Separates(leq, multiset(s))
    requires Sorted(leq, s) && Sorted(leq, t) && multiset(s) == multiset(t)
    ensures s == t
    decreases |s|
  {
    assert |s| == |multiset(s)| == |multiset(t)| == |t|;
    if s != [] {
      SortedStep(leq, s, t);
      SortedUnique(leq, s[1..], t[1..]);
      assert s == [s[0]] + s[1..] && t == [t[0]] + t[1..];
    }
  }

  lemma SortedStep<T(!new)>(leq: (T, T) -> bool, s: seq<T>, t: seq<T>)
    requires (forall x :: leq(x, x)) && Separates(leq, multiset(s)) && s != [] && t != []
    requires Sorted(leq, s) && Sorted(leq, t) && multiset(s) == multiset(t)
    ensures s[0] == t[0] && multiset(s[1..]) == multiset(t[1..])
    ensures Sorted(leq, s[1..]) && Sorted(leq, t[1..]) && Separates(leq, multiset(s[1..]))
  {
    HeadIsLeast(leq, s, t);
    TailSorted(leq, s);
    TailSorted(leq, t);
  }

  lemma TailSorted<T>(leq: (T, T) -> bool, s: seq<T>)
    requires s != [] && Sorted(leq, s) && Separates(leq, multiset(s))
    ensures Sorted(leq, s[1..]) && Separates(leq, multiset(s[1..]))
    ensures multiset(s[1..]) == multiset(s) - multiset{s[0]}
  {
    assert s == [s[0]] + s[1..];
    assert forall x :: x in multiset(s[1..]) ==> x in multiset(s);
  }

  lemma HeadIsLeast<T(!new)>(leq: (T, T) -> bool, s: seq<T>, t: seq<T>)
    requires (forall x :: leq(x, x)) && Separates(leq, multiset(s)) && s != [] && t != []
    requires Sorted(leq, s) && Sorted(leq, t) && multiset(s) == multiset(t)
    ensures s[0] == t[0]
  {
    assert s[0] in multiset(t) && t[0] in multiset(s);
    var i :| 0 <= i < |t| && t[i] == s[0];
    var j :| 0 <= j < |s| && s[j] == t[0];
    assert leq(s[0], s[0]) && leq(t[0], t[0]);
    assert leq(t[0], t[i]) && leq(s[0], s[j]);
  }

  /** Sorting forgets order and nothing else. */
  lemma SortEqualIff<T(!new)>(leq: (T, T) -> bool, s: seq<T>, t: seq<T>)
    requires TotalPreorder(leq) && Separates(leq, multiset(s))
    ensures Sort(leq, s) == Sort(leq, t) <==> multiset(s) == multiset(t)
  {
    SortPermutes(leq, s);
    SortPermutes(leq, t);
    SortSorts(leq, s);
    SortSorts(leq, t);
    if multiset(s) == multiset(t) {
      SortedUnique(leq, Sort(leq, s), Sort(leq, t));
    }
  }

  // ----- the orders the sources sort by -----

  predicate NatLeq(a: nat, b: nat) { a <= b }

  /** `Ord` for strings: byte-wise lexicographic. */
  predicate TextLeq(a: Text, b: Text) {
    a == [] || (b != [] && (a[0] < b[0] || (a[0] == b[0] && TextLeq(a[1..], b[1..]))))
  }

  lemma {:induction false} TextLeqTotal(a: Text, b: Text)
    ensures TextLeq(a, b) || TextLeq(b, a)
  {
    if a != [] && b != [] && a[0] == b[0] {
      TextLeqTotal(a[1..], b[1..]);
    }
  }

  lemma {:induction false} TextLeqTransitive(a: Text, b: Text, c: Text)
    requires TextLeq(a, b) && TextLeq(b, c)
    ensures TextLeq(a, c)
  {
    if a != [] && a[0] == b[0] == c[0] {
      TextLeqTransitive(a[1..], b[1..], c[1..]);
    }
  }

  lemma {:induction false} TextLeqAntisymmetric(a: Text, b: Text)
    requires TextLeq(a, b) && TextLeq(b, a)
    ensures a == b
  {
    if a != [] && b != [] {
      TextLeqAntisymmetric(a[1..], b[1..]);
      assert a == [a[0]] + a[1..] && b == [b[0]] + b[1..];
    }
  }

  /** `a` comes strictly first: the texts agree up to some place, where `a` ends or has the smaller byte. */
  ghost predicate Smaller(a: Text, b: Text) { exists i :: SmallerAt(a, b, i) }

  predicate SmallerAt(a: Text, b: Text, i: int) {
    0 <= i <= |a| && i < |b| && a[..i] == b[..i] && (i == |a| || a[i] < b[i])
  }

  lemma {:induction false} SmallerShift(a: Text, b: Text)
    requires a != [] && b != [] && a[0] == b[0]
    ensures Smaller(a, b) <==> Smaller(a[1..], b[1..])
  {
    if i :| SmallerAt(a, b, i) {
      assert i > 0;
      assert a[1..][..i - 1] == a[..i][1..] && b[1..][..i - 1] == b[..i][1..];
      assert SmallerAt(a[1..], b[1..], i - 1);
    }
    if i :| SmallerAt(a[1..], b[1..], i) {
      assert a[..i + 1] == [a[0]] + a[1..][..i] && b[..i + 1] == [b[0]] + b[1..][..i];
      assert SmallerAt(a, b, i + 1);
    }
  }

  lemma SmallerHead(a: Text, b: Text)
    requires a != [] && b != [] && a[0] != b[0]
    ensures Smaller(a, b) <==> a[0] < b[0]
  {
    if a[0] < b[0] {
      assert SmallerAt(a, b, 0);
    }
    if i :| SmallerAt(a, b, i) {
      if i > 0 {
        assert a[..i][0] == a[0] && b[..i][0] == b[0];
      }
    }
  }

  lemma SmallerEmpty(a: Text, b: Text)
    requires a == [] || b == []
    ensures Smaller(a, b) <==> a == [] && b != []
  {
    if a == [] && b != [] {
      assert SmallerAt(a, b, 0);
    }
  }

  /** Which is what the recursive comparison decides. */
  lemma {:induction false} TextLeqIff(a: Text, b: Text)
    ensures TextLeq(a, b) <==> a == b || Smaller(a, b)
    decreases |a|
  {
    if a == [] || b == [] {
      SmallerEmpty(a, b);
    } else if a[0] != b[0] {
      SmallerHead(a, b);
    } else {
      TextLeqIff(a[1..], b[1..]);
      SmallerShift(a, b);
      assert a == [a[0]] + a[1..] && b == [b[0]] + b[1..];
    }
  }

  lemma StrictlyLess(a: Text, b: Text)
    ensures Smaller(a, b) <==> TextLeq(a, b) && a != b
  {
    TextLeqIff(a, b);
    if a == b {
      if i :| SmallerAt(a, b, i) {
        assert false;
      }
    }
  }

  lemma TextOrder()
    ensures TotalPreorder(TextLeq)
  {
    forall a: Text, b: Text
      ensures TextLeq(a, b) || TextLeq(b, a)
    {
      TextLeqTotal(a, b);
    }
    forall a: Text, b: Text, c: Text | TextLeq(a, b) && TextLeq(b, c)
      ensures TextLeq(a, c)
    {
      TextLeqTransitive(a, b, c);
    }
  }

  lemma TextSeparates(s: multiset<Text>)
    ensures Separates(TextLeq, s)
  {
    forall a: Text, b: Text | TextLeq(a, b) && TextLeq(b, a)
      ensures a == b
    {
      TextLeqAntisymmetric(a, b);
    }
  }

  lemma SortTextsIff(s: seq<Text>, t: seq<Text>)
    ensures Sort(TextLeq, s) == Sort(TextLeq, t) <==> multiset(s) == multiset(t)
  {
    TextOrder();
    TextSeparates(multiset(s));
    SortEqualIff(TextLeq, s, t);
  }
}
