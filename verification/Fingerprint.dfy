/** The order-independent cache key of a filter. */
module Fingerprint {
  import opened Bytes
  import opened Filters
  import opened Json
  import opened Order
  import opened CanonicalEvent
  import Hex

  // ----- the key -----

  function HexAll(xs: seq<Text>): (r: seq<Text>)
    ensures |r| == |xs|
  {
    if xs == [] then [] else [Hex.Encode(xs[0])] + HexAll(xs[1..])
  }

  function NumItems(ns: seq<nat>): (r: seq<Json>)
    ensures |r| == |ns| && forall i :: 0 <= i < |ns| ==> r[i] == JNum(ns[i])
  {
    seq(|ns|, i requires 0 <= i < |ns| => JNum(ns[i]))
  }

  /** "ids:", "authors:", "kinds:", "since:", "until:", "limit:", "search:" */
  const IDS: Text := [0x69, 0x64, 0x73, 0x3A]
  const AUTHORS: Text := [0x61, 0x75, 0x74, 0x68, 0x6F, 0x72, 0x73, 0x3A]
  const KINDS: Text := [0x6B, 0x69, 0x6E, 0x64, 0x73, 0x3A]
  const SINCE: Text := [0x73, 0x69, 0x6E, 0x63, 0x65, 0x3A]
  const UNTIL: Text := [0x75, 0x6E, 0x74, 0x69, 0x6C, 0x3A]
  const LIMIT: Text := [0x6C, 0x69, 0x6D, 0x69, 0x74, 0x3A]
  const SEARCH: Text := [0x73, 0x65, 0x61, 0x72, 0x63, 0x68, 0x3A]

  function KeysPart(prefix: Text, keys: Option<seq<Text>>): seq<Text> {
    match keys
    case None => []
    case Some(xs) => [prefix + Print(JArr(StrItems(Sort(TextLeq, HexAll(xs)))))]
  }

  function KindsPart(kinds: Option<seq<nat>>): seq<Text> {
    match kinds
    case None => []
    case Some(ns) => [KINDS + Print(JArr(NumItems(Sort(NatLeq, ns))))]
  }

  function NumPart(prefix: Text, n: Option<nat>): seq<Text> {
    match n case None => [] case Some(v) => [prefix + Decimal(v)]
  }

  function SearchPart(search: Option<Text>): seq<Text> {
    match search case None => [] case Some(t) => [SEARCH + Print(JArr([JStr(t)]))]
  }

  /** `#<letter>:[sorted values]` */
  function TagPart(c: TagConstraint): Text {
    [HASH, c.letter, COLON] + Print(JArr(StrItems(Sort(TextLeq, c.values))))
  }

  function TagParts(tags: seq<TagConstraint>): (r: seq<Text>)
    ensures |r| == |tags| && forall i :: 0 <= i < |tags| ==> r[i] == TagPart(tags[i])
  {
    seq(|tags|, i requires 0 <= i < |tags| => TagPart(tags[i]))
  }

  function Scalars(f: Filter): seq<Text> {
    NumPart(SINCE, f.since) + (NumPart(UNTIL, f.until) + (NumPart(LIMIT, f.limit)
    + (SearchPart(f.search) + Sort(TextLeq, TagParts(f.tags)))))
  }

  function Parts(f: Filter): seq<Text> {
    KeysPart(IDS, f.ids) + (KeysPart(AUTHORS, f.authors) + (KindsPart(f.kinds) + Scalars(f)))
  }

  /** `parts.join("\n")` */
  function Join(ps: seq<Text>): Text {
    if ps == [] then [] else if |ps| == 1 then ps[0] else ps[0] + [NEWLINE] + Join(ps[1..])
  }

  function KeyOf(f: Filter): Text { Join(Parts(f)) }

  /** `Filter::fingerprint`: the parts are pushed one by one, the tag parts sorted and appended. */
  method ComputeFingerprint(f: Filter) returns (key: Text)
    ensures key == KeyOf(f)
  {
    var keys := KeyParts(f);
    var scalars := ScalarParts(f);
    Reassociate(KeysPart(IDS, f.ids), KeysPart(AUTHORS, f.authors), KindsPart(f.kinds), scalars);
    key := Join(keys + scalars);
  }

  lemma Reassociate(a: seq<Text>, b: seq<Text>, c: seq<Text>, d: seq<Text>)
    ensures a + (b + c) + d == a + (b + (c + d))
  {
  }

  method KeyParts(f: Filter) returns (parts: seq<Text>)
    ensures parts == KeysPart(IDS, f.ids) + (KeysPart(AUTHORS, f.authors) + KindsPart(f.kinds))
  {
    parts := [];
    if f.ids.Some? {
      parts := parts + [IDS + Print(JArr(StrItems(Sort(TextLeq, HexAll(f.ids.value)))))];
    }
    if f.authors.Some? {
      parts := parts + [AUTHORS + Print(JArr(StrItems(Sort(TextLeq, HexAll(f.authors.value)))))];
    }
    if f.kinds.Some? {
      parts := parts + [KINDS + Print(JArr(NumItems(Sort(NatLeq, f.kinds.value))))];
    }
  }

  method ScalarParts(f: Filter) returns (parts: seq<Text>)
    ensures parts == Scalars(f)
  {
    parts := [];
    if f.since.Some? {
      parts := parts + [SINCE + Decimal(f.since.value)];
    }
    if f.until.Some? {
      parts := parts + [UNTIL + Decimal(f.until.value)];
    }
    if f.limit.Some? {
      parts := parts + [LIMIT + Decimal(f.limit.value)];
    }
    if f.search.Some? {
      parts := parts + [SEARCH + Print(JArr([JStr(f.search.value)]))];
    }
    var tagParts := CollectTagParts(f.tags);
    parts := parts + Sort(TextLeq, tagParts);
  }

  method CollectTagParts(tags: seq<TagConstraint>) returns (parts: seq<Text>)
    ensures parts == TagParts(tags)
  {
    parts := [];
    for i := 0 to |tags|
      invariant parts == TagParts(tags)[..i]
    {
      var v := Sort(TextLeq, tags[i].values);
      parts := parts + [[HASH, tags[i].letter, COLON] + Print(JArr(StrItems(v)))];
    }
  }

  // ----- joining loses nothing -----

  /** A part is not empty and holds no separator. */
  predicate IsPart(p: Text) { p != [] && Visible(p) }

  predicate NotNewline(b: byte) { b != NEWLINE }

  lemma JoinHead(ps: seq<Text>)
    requires ps != [] && (forall p :: p in ps ==> IsPart(p))
    ensures SkipWhile(NotNewline, Join(ps), 0) == |ps[0]| && Join(ps)[..|ps[0]|] == ps[0]
    ensures |ps| == 1 <==> |Join(ps)| == |ps[0]|
    ensures |ps| > 1 ==> Join(ps)[|ps[0]| + 1..] == Join(ps[1..])
  {
    assert IsPart(ps[0]);
    var s := Join(ps);
    assert forall k :: 0 <= k < |ps[0]| ==> s[k] == ps[0][k];
    SkipWhileIs(NotNewline, s, 0, |ps[0]|);
  }

  lemma {:induction false} JoinInjective(ps: seq<Text>, qs: seq<Text>)
    requires (forall p :: p in ps ==> IsPart(p)) && (forall q :: q in qs ==> IsPart(q))
    requires Join(ps) == Join(qs)
    ensures ps == qs
    decreases |ps|
  {
    if ps == [] || qs == [] {
      assert ps == [] <==> Join(ps) == [] by {
        assert ps != [] ==> IsPart(ps[0]);
      }
      assert qs == [] <==> Join(qs) == [] by {
        assert qs != [] ==> IsPart(qs[0]);
      }
    } else {
      JoinHead(ps);
      JoinHead(qs);
      assert ps[0] == qs[0];
      if |ps| > 1 {
        JoinInjective(ps[1..], qs[1..]);
      }
      assert ps == [ps[0]] + ps[1..] && qs == [qs[0]] + qs[1..];
    }
  }

  // ----- telling the parts apart -----

  /** The slot a part belongs to, read off its first two bytes. */
  function Slot(p: Text): nat {
    if |p| < 2 then 8
    else if p[0] == 0x69 then 0
    else if p[0] == 0x61 then 1
    else if p[0] == 0x6B then 2
    else if p[0] == 0x73 && p[1] == 0x69 then 3
    else if p[0] == 0x75 then 4
    else if p[0] == 0x6C then 5
    else if p[0] == 0x73 then 6
    else 7
  }

  /** At most one part, in slot `k`. */
  predicate InSlot(ps: seq<Text>, k: nat) { |ps| <= 1 && forall p :: p in ps ==> IsPart(p) && Slot(p) == k }

  predicate Beyond(ps: seq<Text>, k: nat) { forall p :: p in ps ==> IsPart(p) && Slot(p) > k }

  lemma Peel(a: seq<Text>, b: seq<Text>, x: seq<Text>, y: seq<Text>, k: nat)
    requires InSlot(a, k) && InSlot(b, k) && Beyond(x, k) && Beyond(y, k) && a + x == b + y
    ensures a == b && x == y
  {
    HeadSlot(a, x, k);
    HeadSlot(b, y, k);
    assert a == (a + x)[..|a|] && b == (b + y)[..|b|];
    assert x == (a + x)[|a|..] && y == (b + y)[|b|..];
  }

  /** Whether the first slot is filled shows in the first part. */
  lemma HeadSlot(a: seq<Text>, x: seq<Text>, k: nat)
    requires InSlot(a, k) && Beyond(x, k)
    ensures a != [] <==> a + x != [] && Slot((a + x)[0]) == k
  {
    if a == [] && x != [] {
      assert (a + x)[0] == x[0] && x[0] in x;
    }
  }

  lemma PartSlots(f: Filter)
    ensures InSlot(KeysPart(IDS, f.ids), 0) && InSlot(KeysPart(AUTHORS, f.authors), 1) && InSlot(KindsPart(f.kinds), 2)
  {
    if f.ids.Some? {
      PrintVisible(JArr(StrItems(Sort(TextLeq, HexAll(f.ids.value)))));
    }
    if f.authors.Some? {
      PrintVisible(JArr(StrItems(Sort(TextLeq, HexAll(f.authors.value)))));
    }
    if f.kinds.Some? {
      PrintVisible(JArr(NumItems(Sort(NatLeq, f.kinds.value))));
    }
  }

  lemma ScalarSlots(f: Filter)
    ensures InSlot(NumPart(SINCE, f.since), 3) && InSlot(NumPart(UNTIL, f.until), 4)
    ensures InSlot(NumPart(LIMIT, f.limit), 5) && InSlot(SearchPart(f.search), 6)
  {
    if f.since.Some? {
      PrintVisible(JNum(f.since.value));
    }
    if f.until.Some? {
      PrintVisible(JNum(f.until.value));
    }
    if f.limit.Some? {
      PrintVisible(JNum(f.limit.value));
    }
    if f.search.Some? {
      PrintVisible(JArr([JStr(f.search.value)]));
    }
  }

  lemma TagPartSlots(f: Filter)
    requires ValidFilter(f)
    ensures Beyond(Sort(TextLeq, TagParts(f.tags)), 6)
  {
    SortPermutes(TextLeq, TagParts(f.tags));
    forall p | p in Sort(TextLeq, TagParts(f.tags))
      ensures IsPart(p) && Slot(p) > 6
    {
      var i :| 0 <= i < |f.tags| && p == TagPart(f.tags[i]);
      TagPartSlot(f.tags[i]);
    }
  }

  lemma TagPartSlot(c: TagConstraint)
    requires IsAlphabetic(c.letter)
    ensures IsPart(TagPart(c)) && Slot(TagPart(c)) == 7
  {
    PrintVisible(JArr(StrItems(Sort(TextLeq, c.values))));
  }

  lemma BeyondCons(a: seq<Text>, x: seq<Text>, k: nat)
    requires InSlot(a, k + 1) && Beyond(x, k + 1)
    ensures Beyond(a + x, k)
  {
  }

  lemma AllBeyond(f: Filter)
    requires ValidFilter(f)
    ensures var t := Sort(TextLeq, TagParts(f.tags));
            var s6 := SearchPart(f.search) + t;
            var s5 := NumPart(LIMIT, f.limit) + s6;
            var s4 := NumPart(UNTIL, f.until) + s5;
            var s2 := KindsPart(f.kinds) + Scalars(f);
            var s1 := KeysPart(AUTHORS, f.authors) + s2;
            Beyond(t, 6) && Beyond(s6, 5) && Beyond(s5, 4) && Beyond(s4, 3) && Beyond(Scalars(f), 2)
            && Beyond(s2, 1) && Beyond(s1, 0)
  {
    PartSlots(f);
    ScalarSlots(f);
    TagPartSlots(f);
    var t := Sort(TextLeq, TagParts(f.tags));
    var s6 := SearchPart(f.search) + t;
    var s5 := NumPart(LIMIT, f.limit) + s6;
    var s4 := NumPart(UNTIL, f.until) + s5;
    var s2 := KindsPart(f.kinds) + Scalars(f);
    BeyondCons(SearchPart(f.search), t, 5);
    BeyondCons(NumPart(LIMIT, f.limit), s6, 4);
    BeyondCons(NumPart(UNTIL, f.until), s5, 3);
    BeyondCons(NumPart(SINCE, f.since), s4, 2);
    BeyondCons(KindsPart(f.kinds), Scalars(f), 1);
    BeyondCons(KeysPart(AUTHORS, f.authors), s2, 0);
  }

  /** Equal keys have equal parts, slot by slot. */
  lemma KeyDeterminesParts(f: Filter, g: Filter)
    requires ValidFilter(f) && ValidFilter(g) && KeyOf(f) == KeyOf(g)
    ensures KeysPart(IDS, f.ids) == KeysPart(IDS, g.ids) && KeysPart(AUTHORS, f.authors) == KeysPart(AUTHORS, g.authors)
    ensures KindsPart(f.kinds) == KindsPart(g.kinds) && Scalars(f) == Scalars(g)
  {
    AllBeyond(f);
    AllBeyond(g);
    PartSlots(f);
    PartSlots(g);
    JoinInjective(Parts(f), Parts(g));
    Peel(KeysPart(IDS, f.ids), KeysPart(IDS, g.ids), KeysPart(AUTHORS, f.authors) + (KindsPart(f.kinds) + Scalars(f)),
         KeysPart(AUTHORS, g.authors) + (KindsPart(g.kinds) + Scalars(g)), 0);
    Peel(KeysPart(AUTHORS, f.authors), KeysPart(AUTHORS, g.authors), KindsPart(f.kinds) + Scalars(f),
         KindsPart(g.kinds) + Scalars(g), 1);
    Peel(KindsPart(f.kinds), KindsPart(g.kinds), Scalars(f), Scalars(g), 2);
  }

  lemma ScalarsDetermineParts(f: Filter, g: Filter)
    requires ValidFilter(f) && ValidFilter(g) && Scalars(f) == Scalars(g)
    ensures NumPart(SINCE, f.since) == NumPart(SINCE, g.since) && NumPart(UNTIL, f.until) == NumPart(UNTIL, g.until)
    ensures NumPart(LIMIT, f.limit) == NumPart(LIMIT, g.limit) && SearchPart(f.search) == SearchPart(g.search)
    ensures Sort(TextLeq, TagParts(f.tags)) == Sort(TextLeq, TagParts(g.tags))
  {
    AllBeyond(f);
    AllBeyond(g);
    ScalarSlots(f);
    ScalarSlots(g);
    var t, u := Sort(TextLeq, TagParts(f.tags)), Sort(TextLeq, TagParts(g.tags));
    var ft, gt := SearchPart(f.search) + t, SearchPart(g.search) + u;
    var fl, gl := NumPart(LIMIT, f.limit) + ft, NumPart(LIMIT, g.limit) + gt;
    var fu, gu := NumPart(UNTIL, f.until) + fl, NumPart(UNTIL, g.until) + gl;
    Peel(NumPart(SINCE, f.since), NumPart(SINCE, g.since), fu, gu, 3);
    Peel(NumPart(UNTIL, f.until), NumPart(UNTIL, g.until), fl, gl, 4);
    Peel(NumPart(LIMIT, f.limit), NumPart(LIMIT, g.limit), ft, gt, 5);
    Peel(SearchPart(f.search), SearchPart(g.search), t, u, 6);
  }

  // ----- what each part determines -----

  lemma LabelCancels(prefix: Text, a: Text, b: Text)
    requires prefix + a == prefix + b
    ensures a == b
  {
    assert a == (prefix + a)[|prefix|..] && b == (prefix + b)[|prefix|..];
  }

  lemma StrItemsInjective(a: seq<Text>, b: seq<Text>)
    requires Print(JArr(StrItems(a))) == Print(JArr(StrItems(b)))
    ensures a == b
  {
    PrintInjective(JArr(StrItems(a)), JArr(StrItems(b)));
    assert forall i :: 0 <= i < |a| ==> StrItems(a)[i] == StrItems(b)[i];
  }

  lemma NumItemsInjective(a: seq<nat>, b: seq<nat>)
    requires Print(JArr(NumItems(a))) == Print(JArr(NumItems(b)))
    ensures a == b
  {
    PrintInjective(JArr(NumItems(a)), JArr(NumItems(b)));
    assert forall i :: 0 <= i < |a| ==> NumItems(a)[i] == NumItems(b)[i];
  }

  /** What `y` is the hex of, if anything. */
  function Spelled(y: Text): Option<Text> {
    match Hex.Decode(y) case None => None case Some(x) => if Hex.Encode(x) == y then Some(x) else None
  }

  lemma SpelledIff(x: Text, y: Text)
    ensures Hex.Encode(x) == y <==> Spelled(y) == Some(x)
  {
    Hex.DecodeEncode(x);
  }

  lemma ConsCount(x: Text, rest: seq<Text>, y: Text)
    ensures multiset([x] + rest)[y] == multiset(rest)[y] + if x == y then 1 else 0
  {
  }

  /** Hex is injective, so it keeps multiplicities. */
  lemma {:induction false} HexAllCount(xs: seq<Text>, y: Text)
    ensures multiset(HexAll(xs))[y] == match Spelled(y) case None => 0 case Some(x) => multiset(xs)[x]
  {
    if xs != [] {
      HexAllCount(xs[1..], y);
      SpelledIff(xs[0], y);
      ConsCount(Hex.Encode(xs[0]), HexAll(xs[1..]), y);
      if Spelled(y).Some? {
        ConsCount(xs[0], xs[1..], Spelled(y).value);
      }
      assert xs == [xs[0]] + xs[1..];
    }
  }

  lemma HexAllIff(xs: seq<Text>, ys: seq<Text>)
    ensures multiset(HexAll(xs)) == multiset(HexAll(ys)) <==> multiset(xs) == multiset(ys)
  {
    forall y
      ensures multiset(xs) == multiset(ys) ==> multiset(HexAll(xs))[y] == multiset(HexAll(ys))[y]
    {
      HexAllCount(xs, y);
      HexAllCount(ys, y);
    }
    forall x
      ensures multiset(HexAll(xs)) == multiset(HexAll(ys)) ==> multiset(xs)[x] == multiset(ys)[x]
    {
      HexAllCount(xs, Hex.Encode(x));
      HexAllCount(ys, Hex.Encode(x));
      SpelledIff(x, Hex.Encode(x));
    }
  }

  lemma KeysPartIff(prefix: Text, a: Option<seq<Text>>, b: Option<seq<Text>>)
    ensures KeysPart(prefix, a) == KeysPart(prefix, b) <==> SamePermutation(a, b)
  {
    if a.Some? && b.Some? {
      var x, y := Sort(TextLeq, HexAll(a.value)), Sort(TextLeq, HexAll(b.value));
      if KeysPart(prefix, a) == KeysPart(prefix, b) {
        LabelCancels(prefix, Print(JArr(StrItems(x))), Print(JArr(StrItems(y))));
        StrItemsInjective(x, y);
      }
      SortTextsIff(HexAll(a.value), HexAll(b.value));
      HexAllIff(a.value, b.value);
    }
  }

  lemma KindsPartIff(a: Option<seq<nat>>, b: Option<seq<nat>>)
    ensures KindsPart(a) == KindsPart(b) <==> SamePermutation(a, b)
  {
    if a.Some? && b.Some? {
      var x, y := Sort(NatLeq, a.value), Sort(NatLeq, b.value);
      if KindsPart(a) == KindsPart(b) {
        LabelCancels(KINDS, Print(JArr(NumItems(x))), Print(JArr(NumItems(y))));
        NumItemsInjective(x, y);
      }
      SortEqualIff(NatLeq, a.value, b.value);
    }
  }

  lemma NumPartIff(prefix: Text, a: Option<nat>, b: Option<nat>)
    ensures NumPart(prefix, a) == NumPart(prefix, b) <==> a == b
  {
    if a.Some? && b.Some? && NumPart(prefix, a) == NumPart(prefix, b) {
      LabelCancels(prefix, Decimal(a.value), Decimal(b.value));
      DecimalDigits(a.value);
      DecimalDigits(b.value);
    }
  }

  lemma SearchPartIff(a: Option<Text>, b: Option<Text>)
    ensures SearchPart(a) == SearchPart(b) <==> a == b
  {
    if a.Some? && b.Some? && SearchPart(a) == SearchPart(b) {
      LabelCancels(SEARCH, Print(JArr([JStr(a.value)])), Print(JArr([JStr(b.value)])));
      PrintInjective(JArr([JStr(a.value)]), JArr([JStr(b.value)]));
      assert [JStr(a.value)][0] == [JStr(b.value)][0];
    }
  }

  lemma TagPartIff(c: TagConstraint, d: TagConstraint)
    ensures TagPart(c) == TagPart(d) <==> c.letter == d.letter && multiset(c.values) == multiset(d.values)
  {
    var x, y := Sort(TextLeq, c.values), Sort(TextLeq, d.values);
    if TagPart(c) == TagPart(d) {
      assert TagPart(c)[1] == c.letter && TagPart(d)[1] == d.letter;
      LabelCancels([HASH, c.letter, COLON], Print(JArr(StrItems(x))), Print(JArr(StrItems(y))));
      StrItemsInjective(x, y);
    }
    SortTextsIff(c.values, d.values);
  }

  /** Every tag part of `a` is one of `b`: then `b` constrains every letter of `a`, with permuted values. */
  lemma TagPartsCover(a: seq<TagConstraint>, b: seq<TagConstraint>, letter: byte)
    requires ValidTags(a) && ValidTags(b) && Lookup(a, letter).Some?
    requires forall p :: p in TagParts(a) ==> p in TagParts(b)
    ensures Lookup(b, letter).Some? && multiset(Lookup(a, letter).value) == multiset(Lookup(b, letter).value)
  {
    var values := Lookup(a, letter).value;
    LookupIff(a, letter, values);
    var i :| 0 <= i < |a| && a[i] == TagConstraint(letter, values);
    assert TagParts(a)[i] in TagParts(b);
    var j :| 0 <= j < |b| && TagPart(b[j]) == TagPart(a[i]);
    TagPartIff(a[i], b[j]);
    LookupIff(b, letter, b[j].values);
  }

  /** Letters occur once, so no tag part occurs twice. */
  lemma TagPartsDistinct(a: seq<TagConstraint>, p: Text)
    requires ValidTags(a)
    ensures multiset(TagParts(a))[p] == if p in TagParts(a) then 1 else 0
  {
    var ps := TagParts(a);
    forall i, j | 0 <= i < j < |ps|
      ensures ps[i] != ps[j]
    {
      TagPartIff(a[i], a[j]);
    }
    DistinctCount(ps, p);
  }

  lemma {:induction false} DistinctCount(ps: seq<Text>, p: Text)
    requires forall i, j :: 0 <= i < j < |ps| ==> ps[i] != ps[j]
    ensures multiset(ps)[p] == if p in ps then 1 else 0
  {
    if ps != [] {
      DistinctCount(ps[1..], p);
      assert ps == [ps[0]] + ps[1..];
    }
  }

  lemma TagPartsIff(a: seq<TagConstraint>, b: seq<TagConstraint>)
    requires ValidTags(a) && ValidTags(b)
    ensures Sort(TextLeq, TagParts(a)) == Sort(TextLeq, TagParts(b)) <==> SameTags(a, b)
  {
    SortTextsIff(TagParts(a), TagParts(b));
    if multiset(TagParts(a)) == multiset(TagParts(b)) {
      forall p
        ensures p in TagParts(a) <==> p in TagParts(b)
      {
        PermutationMembers(TagParts(a), TagParts(b), p);
      }
      forall letter: byte
        ensures SamePermutation(Lookup(a, letter), Lookup(b, letter))
      {
        if Lookup(a, letter).Some? {
          TagPartsCover(a, b, letter);
        }
        if Lookup(b, letter).Some? {
          TagPartsCover(b, a, letter);
        }
      }
    }
    if SameTags(a, b) {
      forall p
        ensures multiset(TagParts(a))[p] == multiset(TagParts(b))[p]
      {
        TagPartsDistinct(a, p);
        TagPartsDistinct(b, p);
        if p in TagParts(a) {
          SamePart(a, b, p);
        }
        if p in TagParts(b) {
          SameTagsSymmetric(a, b);
          SamePart(b, a, p);
        }
      }
    }
  }

  lemma SameTagsSymmetric(a: seq<TagConstraint>, b: seq<TagConstraint>)
    requires SameTags(a, b)
    ensures SameTags(b, a)
  {
    forall letter: byte
      ensures SamePermutation(Lookup(b, letter), Lookup(a, letter))
    {
      assert SamePermutation(Lookup(a, letter), Lookup(b, letter));
    }
  }

  lemma SamePart(a: seq<TagConstraint>, b: seq<TagConstraint>, p: Text)
    requires ValidTags(a) && ValidTags(b) && SameTags(a, b) && p in TagParts(a)
    ensures p in TagParts(b)
  {
    var i :| 0 <= i < |a| && p == TagPart(a[i]);
    LookupIff(a, a[i].letter, a[i].values);
    assert SamePermutation(Lookup(a, a[i].letter), Lookup(b, a[i].letter));
    var values := Lookup(b, a[i].letter).value;
    LookupIff(b, a[i].letter, values);
    var j :| 0 <= j < |b| && b[j] == TagConstraint(a[i].letter, values);
    TagPartIff(a[i], b[j]);
    assert TagParts(b)[j] == p;
  }

  /** The words of the key, as text; one part a line. */
  lemma PartNames()
    ensures IDS == Ascii("ids:") && AUTHORS == Ascii("authors:") && KINDS == Ascii("kinds:")
    ensures SINCE == Ascii("since:") && UNTIL == Ascii("until:") && LIMIT == Ascii("limit:")
    ensures SEARCH == Ascii("search:") && [HASH] == Ascii("#") && [COLON] == Ascii(":") && [NEWLINE] == Ascii("\n")
  {
  }

  // ----- the key is exact -----

  /** Two filters share a key if and only if they state the same constraints, lists up to order. */
  lemma FingerprintIff(f: Filter, g: Filter)
    requires ValidFilter(f) && ValidFilter(g)
    ensures KeyOf(f) == KeyOf(g) <==> SameConstraints(f, g)
  {
    if KeyOf(f) == KeyOf(g) {
      KeyDeterminesParts(f, g);
      ScalarsDetermineParts(f, g);
    }
    KeysPartIff(IDS, f.ids, g.ids);
    KeysPartIff(AUTHORS, f.authors, g.authors);
    KindsPartIff(f.kinds, g.kinds);
    NumPartIff(SINCE, f.since, g.since);
    NumPartIff(UNTIL, f.until, g.until);
    NumPartIff(LIMIT, f.limit, g.limit);
    SearchPartIff(f.search, g.search);
    TagPartsIff(f.tags, g.tags);
  }

  /** So a cache keyed by it never confuses filters that behave differently. */
  lemma EqualKeysSameVerdict(f: Filter, g: Filter, e: Event, opts: MatchOptions)
    requires ValidFilter(f) && ValidFilter(g) && KeyOf(f) == KeyOf(g)
    ensures MatchEvent(f, e, opts) == MatchEvent(g, e, opts)
  {
    FingerprintIff(f, g);
    SameVerdict(f, g, e, opts);
  }
}
