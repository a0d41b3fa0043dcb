/** Events, filters, and what a filter means. */
module Filters {
  import opened Bytes

  /** A signed event; keys, ids and signatures are their raw bytes. */
  datatype Event = Event(
    id: Text, pubkey: Text, createdAt: nat, kind: nat, tags: seq<seq<Text>>, content: Text, sig: Text)

  /** One `#<letter>` constraint. */
  datatype TagConstraint = TagConstraint(letter: byte, values: seq<Text>)

  /** `Filter`; `tags` is the insertion-ordered map from letters to values. */
  datatype Filter = Filter(
    ids: Option<seq<Text>>, authors: Option<seq<Text>>, kinds: Option<seq<nat>>,
    since: Option<nat>, until: Option<nat>, limit: Option<nat>, search: Option<Text>,
    tags: seq<TagConstraint>)

  const EMPTY := Filter(None, None, None, None, None, None, None, [])

  /** Map keys are letters and occur once. */
  predicate ValidTags(tags: seq<TagConstraint>) {
    && (forall k :: 0 <= k < |tags| ==> IsAlphabetic(tags[k].letter))
    && (forall j, k :: 0 <= j < k < |tags| ==> tags[j].letter != tags[k].letter)
  }

  predicate ValidFilter(f: Filter) { ValidTags(f.tags) }

  /** `IndexMap::get`. */
  function Lookup(tags: seq<TagConstraint>, letter: byte): Option<seq<Text>> {
    if tags == [] then None
    else if tags[0].letter == letter then Some(tags[0].values)
    else Lookup(tags[1..], letter)
  }

  /** `IndexMap::insert`: an existing key keeps its place. */
  function Put(tags: seq<TagConstraint>, letter: byte, values: seq<Text>): seq<TagConstraint> {
    if tags == [] then [TagConstraint(letter, values)]
    else if tags[0].letter == letter then [TagConstraint(letter, values)] + tags[1..]
    else [tags[0]] + Put(tags[1..], letter, values)
  }

  lemma {:induction false} LookupIff(tags: seq<TagConstraint>, letter: byte, values: seq<Text>)
    requires ValidTags(tags)
    ensures Lookup(tags, letter) == Some(values) <==> TagConstraint(letter, values) in tags
  {
    if tags != [] {
      LookupIff(tags[1..], letter, values);
      assert tags == [tags[0]] + tags[1..];
    }
  }

  lemma {:induction false} PutFacts(tags: seq<TagConstraint>, letter: byte, values: seq<Text>)
    requires ValidTags(tags) && IsAlphabetic(letter)
    ensures ValidTags(Put(tags, letter, values))
    ensures forall k :: 0 <= k < |Put(tags, letter, values)| ==>
              Put(tags, letter, values)[k].letter == letter
              || exists j :: 0 <= j < |tags| && tags[j].letter == Put(tags, letter, values)[k].letter
    ensures forall x: byte ::
              Lookup(Put(tags, letter, values), x) == if x == letter then Some(values) else Lookup(tags, x)
  {
    if tags == [] {
    } else if tags[0].letter == letter {
      var r := Put(tags, letter, values);
      assert forall k :: 0 < k < |r| ==> r[k] == tags[k];
    } else {
      PutFacts(tags[1..], letter, values);
      var r := Put(tags, letter, values);
      assert r == [tags[0]] + Put(tags[1..], letter, values);
    }
  }

  // ----- matching -----

  /** The letter of a tag whose head is exactly one ASCII letter. */
  function TagLetter(tag: seq<Text>): Option<byte> {
    if tag != [] && |tag[0]| == 1 && IsAlphabetic(tag[0][0]) then Some(tag[0][0]) else None
  }

  /** The tag carries `letter` and one of `values` as its first argument. */
  predicate TagHit(tag: seq<Text>, letter: byte, values: seq<Text>) {
    TagLetter(tag) == Some(letter) && |tag| > 1 && tag[1] in values
  }

  predicate HasTag(e: Event, letter: byte, values: seq<Text>) {
    exists k :: 0 <= k < |e.tags| && TagHit(e.tags[k], letter, values)
  }

  /** `MatchEventOptions`, with the event's expiration supplied. */
  datatype MatchOptions = MatchOptions(
    allowExpired: bool, allowFuture: bool, now: Option<nat>, expiration: Event -> Option<nat>)

  /** `Filter::match_event`. */
  predicate MatchEvent(f: Filter, e: Event, opts: MatchOptions) {
    && (f.ids.Some? ==> e.id in f.ids.value)
    && (f.authors.Some? ==> e.pubkey in f.authors.value)
    && (f.kinds.Some? ==> e.kind in f.kinds.value)
    && (f.since.Some? ==> f.since.value <= e.createdAt)
    && (f.until.Some? ==> e.createdAt <= f.until.value)
    && TagsMatch(f.tags, e)
    && (opts.now.Some? ==>
          && (opts.allowFuture || e.createdAt <= opts.now.value)
          && (opts.allowExpired || opts.expiration(e).None? || opts.now.value < opts.expiration(e).value))
  }

  /** `generic_tags_match`: every constraint is met by some tag. */
  predicate TagsMatch(tags: seq<TagConstraint>, e: Event) {
    forall k :: 0 <= k < |tags| ==> HasTag(e, tags[k].letter, tags[k].values)
  }

  /** The constraint on one letter, if there is one, is met. */
  predicate Meets(tags: seq<TagConstraint>, e: Event, letter: byte) {
    match Lookup(tags, letter) case None => true case Some(values) => HasTag(e, letter, values)
  }

  /** The constraints seen through the map rather than the order of its entries. */
  lemma TagsMatchIff(tags: seq<TagConstraint>, e: Event)
    requires ValidTags(tags)
    ensures TagsMatch(tags, e) <==> forall letter: byte :: Meets(tags, e, letter)
  {
    forall k | 0 <= k < |tags| && Meets(tags, e, tags[k].letter)
      ensures HasTag(e, tags[k].letter, tags[k].values)
    {
      LookupIff(tags, tags[k].letter, tags[k].values);
    }
    forall letter: byte | TagsMatch(tags, e)
      ensures Meets(tags, e, letter)
    {
      if Lookup(tags, letter).Some? {
        LookupIff(tags, letter, Lookup(tags, letter).value);
      }
    }
  }

  // ----- same constraints -----

  ghost predicate SamePermutation<T>(a: Option<seq<T>>, b: Option<seq<T>>) {
    a.Some? == b.Some? && (a.Some? ==> multiset(a.value) == multiset(b.value))
  }

  ghost predicate SameTags(a: seq<TagConstraint>, b: seq<TagConstraint>) {
    forall letter: byte :: SamePermutation(Lookup(a, letter), Lookup(b, letter))
  }

  /** The filters say the same thing up to the order of their lists. */
  ghost predicate SameConstraints(f: Filter, g: Filter) {
    && f.since == g.since && f.until == g.until && f.limit == g.limit && f.search == g.search
    && SamePermutation(f.ids, g.ids) && SamePermutation(f.authors, g.authors) && SamePermutation(f.kinds, g.kinds)
    && SameTags(f.tags, g.tags)
  }

  lemma PermutationMembers<T>(a: seq<T>, b: seq<T>, x: T)
    requires multiset(a) == multiset(b)
    ensures x in a <==> x in b
  {
    assert x in a <==> x in multiset(a);
    assert x in b <==> x in multiset(b);
  }

  lemma HasTagPermuted(e: Event, letter: byte, a: seq<Text>, b: seq<Text>)
    requires multiset(a) == multiset(b) && HasTag(e, letter, a)
    ensures HasTag(e, letter, b)
  {
    var k :| 0 <= k < |e.tags| && TagHit(e.tags[k], letter, a);
    PermutationMembers(a, b, e.tags[k][1]);
    assert TagHit(e.tags[k], letter, b);
  }

  lemma TagsMatchPermuted(a: seq<TagConstraint>, b: seq<TagConstraint>, e: Event)
    requires ValidTags(a) && ValidTags(b) && SameTags(a, b) && TagsMatch(a, e)
    ensures TagsMatch(b, e)
  {
    TagsMatchIff(a, e);
    forall letter: byte
      ensures Meets(b, e, letter)
    {
      assert SamePermutation(Lookup(a, letter), Lookup(b, letter));
      assert Meets(a, e, letter);
      if Lookup(b, letter).Some? {
        HasTagPermuted(e, letter, Lookup(a, letter).value, Lookup(b, letter).value);
      }
    }
    TagsMatchIff(b, e);
  }

  /** Filters with the same constraints give the same verdict on every event. */
  lemma SameVerdict(f: Filter, g: Filter, e: Event, opts: MatchOptions)
    requires ValidFilter(f) && ValidFilter(g) && SameConstraints(f, g)
    ensures MatchEvent(f, e, opts) == MatchEvent(g, e, opts)
  {
    if f.ids.Some? {
      PermutationMembers(f.ids.value, g.ids.value, e.id);
    }
    if f.authors.Some? {
      PermutationMembers(f.authors.value, g.authors.value, e.pubkey);
    }
    if f.kinds.Some? {
      PermutationMembers(f.kinds.value, g.kinds.value, e.kind);
    }
    if TagsMatch(f.tags, e) {
      TagsMatchPermuted(f.tags, g.tags, e);
    }
    if TagsMatch(g.tags, e) {
      assert SameTags(g.tags, f.tags) by {
        forall letter: byte
          ensures SamePermutation(Lookup(g.tags, letter), Lookup(f.tags, letter))
        {
          assert SamePermutation(Lookup(f.tags, letter), Lookup(g.tags, letter));
        }
      }
      TagsMatchPermuted(g.tags, f.tags, e);
    }
  }
}
