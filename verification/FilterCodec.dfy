/** Filters on the wire: `Serialize`, the field-by-field `visit_map`, and what comes back. */
module FilterCodec {
  import opened Bytes
  import opened Filters
  import opened Json
  import opened Wire
  import Hex

  /** What an object key means to `deserialize_filter_entry`. */
  datatype Key = Ids | Authors | Kinds | Since | Until | Limit | Search | Tag(letter: byte) | BadTag | Unknown

  /** The name of a known key. */
  function Name(key: Key): Text {
    match key
    case Ids => [0x69, 0x64, 0x73]
    case Authors => [0x61, 0x75, 0x74, 0x68, 0x6F, 0x72, 0x73]
    case Kinds => [0x6B, 0x69, 0x6E, 0x64, 0x73]
    case Since => [0x73, 0x69, 0x6E, 0x63, 0x65]
    case Until => [0x75, 0x6E, 0x74, 0x69, 0x6C]
    case Limit => [0x6C, 0x69, 0x6D, 0x69, 0x74]
    case Search => [0x73, 0x65, 0x61, 0x72, 0x63, 0x68]
    case Tag(letter) => [HASH, letter]
    case BadTag => [HASH]
    case Unknown => []
  }

  function KeyOf(name: Text): Key {
    if name != [] && name[0] == HASH then
      if |name| == 2 && IsAlphabetic(name[1]) then Tag(name[1]) else BadTag
    else if name == Name(Ids) then Ids
    else if name == Name(Authors) then Authors
    else if name == Name(Kinds) then Kinds
    else if name == Name(Since) then Since
    else if name == Name(Until) then Until
    else if name == Name(Limit) then Limit
    else if name == Name(Search) then Search
    else Unknown
  }

  lemma KeyOfName(key: Key)
    requires key.Tag? ==> IsAlphabetic(key.letter)
    ensures KeyOf(Name(key)) == key
  {
  }

  // ----- duplicates -----

  /** The first occurrence of each value, in order. */
  function Deduped(values: seq<Text>): seq<Text> {
    if values == [] then []
    else
      var before := Deduped(values[..|values| - 1]);
      if values[|values| - 1] in before then before else before + [values[|values| - 1]]
  }

  /** `dedup_preserving_order`. */
  method DedupPreservingOrder(values: seq<Text>) returns (seen: seq<Text>)
    ensures seen == Deduped(values)
    ensures Distinct(seen) && forall x :: x in seen <==> x in values
  {
    seen := [];
    for k := 0 to |values|
      invariant seen == Deduped(values[..k])
    {
      assert values[..k + 1][..k] == values[..k];
      if values[k] !in seen {
        seen := seen + [values[k]];
      }
    }
    assert values[..|values|] == values;
    DedupedFacts(values);
  }

  lemma {:induction false} DedupedFacts(values: seq<Text>)
    ensures Distinct(Deduped(values)) && forall x :: x in Deduped(values) <==> x in values
    ensures Distinct(values) ==> Deduped(values) == values
    decreases |values|
  {
    if values != [] {
      DedupedFacts(values[..|values| - 1]);
      assert values == values[..|values| - 1] + [values[|values| - 1]];
    }
  }

  // ----- one entry -----

  /** `is_lowercase_hex_64`. */
  predicate IsLowercaseHex64(s: Text) { |s| == 64 && forall k :: 0 <= k < |s| ==> Hex.IsLowerHex(s[k]) }

  predicate NeedsHex(letter: byte) { letter == 0x65 || letter == 0x70 }

  /** `validate_hex_filter_values`. */
  predicate ValidValues(letter: byte, values: seq<Text>) {
    NeedsHex(letter) ==> forall k :: 0 <= k < |values| ==> IsLowercaseHex64(values[k])
  }

  /** The filter after one more value under a key. */
  function Set(curve: Curve, f: Filter, key: Key, j: Json): Option<Filter> {
    match key
    case Ids => (match DecodeBlobs(AnyBytes, j) case None => None case Some(v) => Some(f.(ids := Some(v))))
    case Authors => (match DecodeBlobs(curve, j) case None => None case Some(v) => Some(f.(authors := Some(v))))
    case Kinds => (match DecodeKinds(j) case None => None case Some(v) => Some(f.(kinds := Some(v))))
    case Since => (match DecodeNum(U64_LIMIT, j) case None => None case Some(v) => Some(f.(since := Some(v))))
    case Until => (match DecodeNum(U64_LIMIT, j) case None => None case Some(v) => Some(f.(until := Some(v))))
    case Limit => (match DecodeNum(U64_LIMIT, j) case None => None case Some(v) => Some(f.(limit := Some(v))))
    case Search => (match DecodeText(j) case None => None case Some(v) => Some(f.(search := Some(v))))
    case Tag(letter) =>
      (match DecodeTexts(j)
       case None => None
       case Some(v) => if ValidValues(letter, v) then Some(f.(tags := Put(f.tags, letter, Deduped(v)))) else None)
    case BadTag => None
    case Unknown => Some(f)
  }

  /** `deserialize_filter_entry`. */
  function Entry(curve: Curve, f: Filter, field: Field): Option<Filter> { Set(curve, f, KeyOf(field.key), field.value) }

  /** The filter after all entries, in order. */
  function DecodeInto(curve: Curve, f: Filter, fields: seq<Field>): Option<Filter>
    decreases |fields|
  {
    if fields == [] then Some(f)
    else match Entry(curve, f, fields[0]) case None => None case Some(g) => DecodeInto(curve, g, fields[1..])
  }

  function DecodeFilter(curve: Curve, j: Json): Option<Filter> {
    if j.JObj? then DecodeInto(curve, EMPTY, j.fields) else None
  }

  /** `deserialize_filter_entry`: it fails exactly for a malformed tag key and for a value its key cannot take;
      otherwise the key's own slot holds the value as it would be written back, and every other slot is as before. */
  method DeserializeFilterEntry(curve: Curve, filter: Filter, field: Field) returns (r: Option<Filter>)
    ensures r.None? <==> KeyOf(field.key) == BadTag
                         || (KeyOf(field.key) != Unknown && Rewritten(curve, KeyOf(field.key), field.value).None?)
    ensures r.Some? ==> SetsOnly(curve, filter, r.value, KeyOf(field.key), field.value)
    ensures r == Entry(curve, filter, field)
  {
    var name, value := field.key, field.value;
    KeyOfKnown();
    if name != [] && name[0] == HASH {
      if !(|name| == 2 && IsAlphabetic(name[1])) {
        return None;
      }
      r := DeserializeTag(filter, name[1], value);
    } else if name == Name(Ids) {
      var v := DecodeBlobs(AnyBytes, value);
      r := if v.Some? then Some(filter.(ids := v)) else None;
    } else if name == Name(Authors) {
      var v := DecodeBlobs(curve, value);
      r := if v.Some? then Some(filter.(authors := v)) else None;
    } else if name == Name(Kinds) {
      var v := DecodeKinds(value);
      r := if v.Some? then Some(filter.(kinds := v)) else None;
    } else if name == Name(Since) {
      var v := DecodeNum(U64_LIMIT, value);
      r := if v.Some? then Some(filter.(since := v)) else None;
    } else if name == Name(Until) {
      var v := DecodeNum(U64_LIMIT, value);
      r := if v.Some? then Some(filter.(until := v)) else None;
    } else if name == Name(Limit) {
      var v := DecodeNum(U64_LIMIT, value);
      r := if v.Some? then Some(filter.(limit := v)) else None;
    } else if name == Name(Search) {
      var v := DecodeText(value);
      r := if v.Some? then Some(filter.(search := v)) else None;
    } else {
      r := Some(filter);
    }
    EntryFacts(curve, filter, field);
  }

  /** From `f` to `g` the slot of `own` was rewritten with `j` and every other slot kept. */
  ghost predicate SetsOnly(curve: Curve, f: Filter, g: Filter, own: Key, j: Json) {
    forall key :: Slot(g, key) == if own == key then Rewritten(curve, key, j) else Slot(f, key)
  }

  /** The `#<letter>` branch. */
  method DeserializeTag(filter: Filter, letter: byte, value: Json) returns (r: Option<Filter>)
    ensures forall curve :: r == Set(curve, filter, Tag(letter), value)
  {
    var values := DecodeTexts(value);
    if values.None? {
      return None;
    }
    var k := 0;
    while k < |values.value| && NeedsHex(letter)
      invariant 0 <= k <= |values.value|
      invariant NeedsHex(letter) ==> forall j :: 0 <= j < k ==> IsLowercaseHex64(values.value[j])
    {
      if !IsLowercaseHex64(values.value[k]) {
        return None;
      }
      k := k + 1;
    }
    var distinct := DedupPreservingOrder(values.value);
    r := Some(filter.(tags := Put(filter.tags, letter, distinct)));
  }

  lemma KeyOfKnown()
    ensures KeyOf(Name(Ids)) == Ids && KeyOf(Name(Authors)) == Authors && KeyOf(Name(Kinds)) == Kinds
    ensures KeyOf(Name(Since)) == Since && KeyOf(Name(Until)) == Until && KeyOf(Name(Limit)) == Limit
    ensures KeyOf(Name(Search)) == Search
  {
  }

  lemma EntryFacts(curve: Curve, f: Filter, field: Field)
    ensures Entry(curve, f, field).None?
            <==> KeyOf(field.key) == BadTag
                 || (KeyOf(field.key) != Unknown && Rewritten(curve, KeyOf(field.key), field.value).None?)
    ensures Entry(curve, f, field).Some? ==>
              SetsOnly(curve, f, Entry(curve, f, field).value, KeyOf(field.key), field.value)
  {
    SetFails(curve, f, KeyOf(field.key), field.value);
    if Entry(curve, f, field).Some? {
      forall key
        ensures Slot(Entry(curve, f, field).value, key)
                == if KeyOf(field.key) == key then Rewritten(curve, key, field.value) else Slot(f, key)
      {
        SetSlot(curve, f, KeyOf(field.key), field.value, key);
      }
    }
  }

  lemma SetFails(curve: Curve, f: Filter, key: Key, j: Json)
    ensures Set(curve, f, key, j).None? <==> key == BadTag || (key != Unknown && Rewritten(curve, key, j).None?)
  {
  }

  /** `visit_map`. */
  method VisitMap(curve: Curve, fields: seq<Field>) returns (r: Option<Filter>)
    ensures r == DecodeFilter(curve, JObj(fields))
    ensures r.Some? ==> WellFormed(curve, r.value)
  {
    var filter := EMPTY;
    for k := 0 to |fields|
      invariant DecodeInto(curve, EMPTY, fields) == DecodeInto(curve, filter, fields[k..])
      invariant WellFormed(curve, filter)
    {
      var next := DeserializeFilterEntry(curve, filter, fields[k]);
      assert fields[k..][1..] == fields[k + 1..];
      if next.None? {
        return None;
      }
      EntryKeeps(curve, filter, fields[k]);
      filter := next.value;
    }
    r := Some(filter);
  }

  // ----- what can come out -----

  predicate WellFormedTags(tags: seq<TagConstraint>) {
    && ValidTags(tags)
    && (forall k :: 0 <= k < |tags| ==> Distinct(tags[k].values) && ValidValues(tags[k].letter, tags[k].values))
  }

  predicate BlobsIn(ok: Text -> bool, xs: Option<seq<Text>>) { xs.Some? ==> AllBlobs(ok, xs.value) }

  predicate KindsIn(xs: Option<seq<nat>>) { xs.Some? ==> AllBelow(U16_LIMIT, xs.value) }

  predicate NumberIn(n: Option<nat>) { n.Some? ==> n.value < U64_LIMIT }

  /** In range for the types of the fields, with duplicate-free tag lists and hex `#e` and `#p` values. */
  predicate WellFormed(curve: Curve, f: Filter) {
    && BlobsIn(AnyBytes, f.ids) && BlobsIn(curve, f.authors) && KindsIn(f.kinds)
    && NumberIn(f.since) && NumberIn(f.until) && NumberIn(f.limit)
    && WellFormedTags(f.tags)
  }

  lemma {:induction false} PutWellFormed(tags: seq<TagConstraint>, letter: byte, values: seq<Text>)
    requires WellFormedTags(tags) && IsAlphabetic(letter) && Distinct(values) && ValidValues(letter, values)
    ensures WellFormedTags(Put(tags, letter, values))
  {
    PutFacts(tags, letter, values);
    PutElements(tags, letter, values);
    forall k | 0 <= k < |Put(tags, letter, values)|
      ensures var c := Put(tags, letter, values)[k]; Distinct(c.values) && ValidValues(c.letter, c.values)
    {
      var c := Put(tags, letter, values)[k];
      assert c in Put(tags, letter, values);
      if c in tags {
        var j :| 0 <= j < |tags| && tags[j] == c;
      }
    }
  }

  lemma {:induction false} PutElements(tags: seq<TagConstraint>, letter: byte, values: seq<Text>)
    ensures forall c :: c in Put(tags, letter, values) ==> c == TagConstraint(letter, values) || c in tags
  {
    if tags != [] && tags[0].letter != letter {
      PutElements(tags[1..], letter, values);
    }
  }

  lemma EntryKeeps(curve: Curve, f: Filter, field: Field)
    requires WellFormed(curve, f) && Entry(curve, f, field).Some?
    ensures WellFormed(curve, Entry(curve, f, field).value)
  {
    KeyValid(field.key);
    SetKeeps(curve, f, KeyOf(field.key), field.value);
  }

  lemma KeyValid(name: Text)
    ensures KeyOf(name).Tag? ==> IsAlphabetic(KeyOf(name).letter)
  {
  }

  lemma SetKeeps(curve: Curve, f: Filter, key: Key, j: Json)
    requires WellFormed(curve, f) && Set(curve, f, key, j).Some? && (key.Tag? ==> IsAlphabetic(key.letter))
    ensures WellFormed(curve, Set(curve, f, key, j).value)
  {
    match key
    case Ids => BlobsProduced(AnyBytes, j);
    case Authors => BlobsProduced(curve, j);
    case Kinds => KindsProduced(j);
    case Tag(letter) => TagKeeps(f.tags, letter, DecodeTexts(j).value);
    case _ =>
  }

  lemma TagKeeps(tags: seq<TagConstraint>, letter: byte, v: seq<Text>)
    requires WellFormedTags(tags) && IsAlphabetic(letter) && ValidValues(letter, v)
    ensures WellFormedTags(Put(tags, letter, Deduped(v)))
  {
    DedupedFacts(v);
    DedupedValid(letter, v);
    PutWellFormed(tags, letter, Deduped(v));
  }

  lemma DedupedValid(letter: byte, values: seq<Text>)
    requires ValidValues(letter, values)
    ensures ValidValues(letter, Deduped(values))
  {
    DedupedFacts(values);
    forall k | 0 <= k < |Deduped(values)| && NeedsHex(letter)
      ensures IsLowercaseHex64(Deduped(values)[k])
    {
      assert Deduped(values)[k] in values;
    }
  }

  lemma {:induction false} DecodeKeeps(curve: Curve, f: Filter, fields: seq<Field>)
    requires WellFormed(curve, f) && DecodeInto(curve, f, fields).Some?
    ensures WellFormed(curve, DecodeInto(curve, f, fields).value)
    decreases |fields|
  {
    if fields != [] {
      EntryKeeps(curve, f, fields[0]);
      DecodeKeeps(curve, Entry(curve, f, fields[0]).value, fields[1..]);
    }
  }

  // ----- writing -----

  function OptionalField(key: Key, value: Option<Json>): seq<Field> {
    match value case None => [] case Some(j) => [Field(Name(key), j)]
  }

  function EncodeNum(n: nat): Json { JNum(n) }

  function EncodeText(s: Text): Json { JStr(s) }

  function Map<T>(e: T -> Json, x: Option<T>): Option<Json> {
    match x case None => None case Some(v) => Some(e(v))
  }

  function TagFields(tags: seq<TagConstraint>): seq<Field> {
    if tags == [] then [] else [Field(Name(Tag(tags[0].letter)), EncodeTexts(tags[0].values))] + TagFields(tags[1..])
  }

  /** `Serialize for Filter`: the set fields in declaration order, then the tags in map order. */
  function FilterFields(f: Filter): seq<Field> {
    OptionalField(Ids, Map(EncodeBlobs, f.ids)) + (
      OptionalField(Authors, Map(EncodeBlobs, f.authors)) + (
        OptionalField(Kinds, Map(EncodeNums, f.kinds)) + (
          OptionalField(Since, Map(EncodeNum, f.since)) + (
            OptionalField(Until, Map(EncodeNum, f.until)) + (
              OptionalField(Limit, Map(EncodeNum, f.limit)) + (
                OptionalField(Search, Map(EncodeText, f.search)) + TagFields(f.tags)))))))
  }

  function EncodeFilter(f: Filter): Json { JObj(FilterFields(f)) }

  // ----- the round trip -----

  lemma DecodeFirst(curve: Curve, f: Filter, g: Filter, fields: seq<Field>, rest: seq<Field>)
    requires |fields| <= 1
    requires fields == [] ==> g == f
    requires fields != [] ==> Entry(curve, f, fields[0]) == Some(g)
    ensures DecodeInto(curve, f, fields + rest) == DecodeInto(curve, g, rest)
  {
    if fields == [] {
      assert fields + rest == rest;
    } else {
      assert (fields + rest)[1..] == rest;
    }
  }

  lemma PutNew(tags: seq<TagConstraint>, letter: byte, values: seq<Text>)
    requires forall k :: 0 <= k < |tags| ==> tags[k].letter != letter
    ensures Put(tags, letter, values) == tags + [TagConstraint(letter, values)]
  {
    if tags != [] {
      PutNew(tags[1..], letter, values);
      assert tags == [tags[0]] + tags[1..];
    }
  }

  lemma {:induction false} TagsRoundTrip(curve: Curve, f: Filter, done: seq<TagConstraint>, todo: seq<TagConstraint>)
    requires WellFormedTags(done + todo)
    ensures DecodeInto(curve, f.(tags := done), TagFields(todo)) == Some(f.(tags := done + todo))
    decreases |todo|
  {
    if todo == [] {
      assert done + todo == done;
    } else {
      var c := todo[0];
      assert (done + todo)[|done|] == c;
      assert forall k :: 0 <= k < |done| ==> (done + todo)[k] == done[k];
      OneTag(curve, f, done, c);
      assert done + todo == (done + [c]) + todo[1..];
      TagsRoundTrip(curve, f, done + [c], todo[1..]);
    }
  }

  lemma OneTag(curve: Curve, f: Filter, done: seq<TagConstraint>, c: TagConstraint)
    requires IsAlphabetic(c.letter) && Distinct(c.values) && ValidValues(c.letter, c.values)
    requires forall k :: 0 <= k < |done| ==> done[k].letter != c.letter
    ensures Entry(curve, f.(tags := done), Field(Name(Tag(c.letter)), EncodeTexts(c.values)))
            == Some(f.(tags := done + [c]))
  {
    KeyOfName(Tag(c.letter));
    TextsRoundTrip(c.values);
    DedupedFacts(c.values);
    PutNew(done, c.letter, c.values);
  }

  /** The scalar entries, one after the other; each hides what the earlier ones did behind `g`. */
  lemma ListsRoundTrip(curve: Curve, f: Filter, rest: seq<Field>)
    requires WellFormed(curve, f)
    ensures DecodeInto(curve, EMPTY,
              OptionalField(Ids, Map(EncodeBlobs, f.ids)) + (
                OptionalField(Authors, Map(EncodeBlobs, f.authors)) + (
                  OptionalField(Kinds, Map(EncodeNums, f.kinds)) + rest)))
            == DecodeInto(curve, EMPTY.(ids := f.ids, authors := f.authors, kinds := f.kinds), rest)
  {
    var f1 := EMPTY.(ids := f.ids);
    var f2 := f1.(authors := f.authors);
    var f3 := f2.(kinds := f.kinds);
    var rest2 := OptionalField(Kinds, Map(EncodeNums, f.kinds)) + rest;
    var rest1 := OptionalField(Authors, Map(EncodeBlobs, f.authors)) + rest2;
    IdsEntry(curve, EMPTY, f.ids);
    DecodeFirst(curve, EMPTY, f1, OptionalField(Ids, Map(EncodeBlobs, f.ids)), rest1);
    AuthorsEntry(curve, f1, f.authors);
    DecodeFirst(curve, f1, f2, OptionalField(Authors, Map(EncodeBlobs, f.authors)), rest2);
    KindsEntry(curve, f2, f.kinds);
    DecodeFirst(curve, f2, f3, OptionalField(Kinds, Map(EncodeNums, f.kinds)), rest);
  }

  lemma IdsEntry(curve: Curve, f: Filter, ids: Option<seq<Text>>)
    requires ids.Some? ==> AllBlobs(AnyBytes, ids.value)
    ensures var fields := OptionalField(Ids, Map(EncodeBlobs, ids));
            fields != [] ==> Entry(curve, f, fields[0]) == Some(f.(ids := ids))
  {
    KeyOfName(Ids);
    if ids.Some? {
      BlobsRoundTrip(AnyBytes, ids.value);
    }
  }

  lemma AuthorsEntry(curve: Curve, f: Filter, authors: Option<seq<Text>>)
    requires authors.Some? ==> AllBlobs(curve, authors.value)
    ensures var fields := OptionalField(Authors, Map(EncodeBlobs, authors));
            fields != [] ==> Entry(curve, f, fields[0]) == Some(f.(authors := authors))
  {
    KeyOfName(Authors);
    if authors.Some? {
      BlobsRoundTrip(curve, authors.value);
    }
  }

  lemma KindsEntry(curve: Curve, f: Filter, kinds: Option<seq<nat>>)
    requires kinds.Some? ==> AllBelow(U16_LIMIT, kinds.value)
    ensures var fields := OptionalField(Kinds, Map(EncodeNums, kinds));
            fields != [] ==> Entry(curve, f, fields[0]) == Some(f.(kinds := kinds))
  {
    KeyOfName(Kinds);
    if kinds.Some? {
      KindsRoundTrip(kinds.value);
    }
  }

  lemma TimesRoundTrip(curve: Curve, g: Filter, f: Filter, rest: seq<Field>)
    requires WellFormed(curve, f) && g.since.None? && g.until.None?
    ensures DecodeInto(curve, g,
              OptionalField(Since, Map(EncodeNum, f.since)) + (OptionalField(Until, Map(EncodeNum, f.until)) + rest))
            == DecodeInto(curve, g.(since := f.since, until := f.until), rest)
  {
    var g1 := g.(since := f.since);
    var g2 := g1.(until := f.until);
    KeyOfName(Since);
    KeyOfName(Until);
    var later := OptionalField(Until, Map(EncodeNum, f.until)) + rest;
    DecodeFirst(curve, g, g1, OptionalField(Since, Map(EncodeNum, f.since)), later);
    DecodeFirst(curve, g1, g2, OptionalField(Until, Map(EncodeNum, f.until)), rest);
  }

  lemma LimitsRoundTrip(curve: Curve, g: Filter, f: Filter, rest: seq<Field>)
    requires WellFormed(curve, f) && g.limit.None? && g.search.None?
    ensures DecodeInto(curve, g,
              OptionalField(Limit, Map(EncodeNum, f.limit)) + (OptionalField(Search, Map(EncodeText, f.search)) + rest))
            == DecodeInto(curve, g.(limit := f.limit, search := f.search), rest)
  {
    var g1 := g.(limit := f.limit);
    var g2 := g1.(search := f.search);
    KeyOfName(Limit);
    KeyOfName(Search);
    var later := OptionalField(Search, Map(EncodeText, f.search)) + rest;
    DecodeFirst(curve, g, g1, OptionalField(Limit, Map(EncodeNum, f.limit)), later);
    DecodeFirst(curve, g1, g2, OptionalField(Search, Map(EncodeText, f.search)), rest);
  }

  /** A filter survives the wire if and only if it is well formed. */
  lemma FilterRoundTripIff(curve: Curve, f: Filter)
    ensures DecodeFilter(curve, EncodeFilter(f)) == Some(f) <==> WellFormed(curve, f)
  {
    if WellFormed(curve, f) {
      FilterRoundTrip(curve, f);
    }
    if DecodeFilter(curve, EncodeFilter(f)) == Some(f) {
      DecodeKeeps(curve, EMPTY, FilterFields(f));
    }
  }

  lemma FilterRoundTrip(curve: Curve, f: Filter)
    requires WellFormed(curve, f)
    ensures DecodeFilter(curve, EncodeFilter(f)) == Some(f)
  {
    var limits :=
      OptionalField(Limit, Map(EncodeNum, f.limit)) + (
        OptionalField(Search, Map(EncodeText, f.search)) + TagFields(f.tags));
    var times :=
      OptionalField(Since, Map(EncodeNum, f.since)) + (OptionalField(Until, Map(EncodeNum, f.until)) + limits);
    ListsRoundTrip(curve, f, times);
    var g := EMPTY.(ids := f.ids, authors := f.authors, kinds := f.kinds);
    TimesRoundTrip(curve, g, f, limits);
    var h := g.(since := f.since, until := f.until);
    LimitsRoundTrip(curve, h, f, TagFields(f.tags));
    assert [] + f.tags == f.tags;
    TagsRoundTrip(curve, f, [], f.tags);
  }

  /** Whatever parses, with repeated keys, repeated values and unknown entries, is written so that it parses back to
      the same filter, also through the text. */
  lemma FilterReparse(curve: Curve, j: Json, f: Filter)
    requires DecodeFilter(curve, j) == Some(f)
    ensures DecodeFilter(curve, EncodeFilter(f)) == Some(f)
    ensures ReadText(Print(EncodeFilter(f))) == Some(EncodeFilter(f))
    ensures WellFormed(curve, f)
  {
    DecodeKeeps(curve, EMPTY, j.fields);
    FilterRoundTrip(curve, f);
    TextRoundTrip(EncodeFilter(f));
  }

  // ----- repeated keys -----

  /** The last value under a key. */
  function Last(fields: seq<Field>, key: Key): Option<Json> {
    if fields == [] then None
    else if KeyOf(fields[|fields| - 1].key) == key then Some(fields[|fields| - 1].value)
    else Last(fields[..|fields| - 1], key)
  }

  lemma {:induction false} DecodeSnoc(curve: Curve, f: Filter, fields: seq<Field>)
    requires fields != []
    ensures DecodeInto(curve, f, fields)
            == match DecodeInto(curve, f, fields[..|fields| - 1])
               case None => None
               case Some(g) => Entry(curve, g, fields[|fields| - 1])
    decreases |fields|
  {
    if |fields| == 1 {
      assert fields[1..] == [] && fields[..0] == [];
    } else if Entry(curve, f, fields[0]).Some? {
      DecodeSnoc(curve, Entry(curve, f, fields[0]).value, fields[1..]);
      assert fields[1..][..|fields| - 2] == fields[..|fields| - 1][1..];
    }
  }

  /** What the filter holds for a key, as it would be written. */
  function Slot(f: Filter, key: Key): Option<Json> {
    match key
    case Ids => Map(EncodeBlobs, f.ids)
    case Authors => Map(EncodeBlobs, f.authors)
    case Kinds => Map(EncodeNums, f.kinds)
    case Since => Map(EncodeNum, f.since)
    case Until => Map(EncodeNum, f.until)
    case Limit => Map(EncodeNum, f.limit)
    case Search => Map(EncodeText, f.search)
    case Tag(letter) => Map(EncodeTexts, Lookup(f.tags, letter))
    case BadTag => None
    case Unknown => None
  }

  /** The value of an entry as it would be written back. */
  function Rewritten(curve: Curve, key: Key, j: Json): Option<Json> {
    match key
    case Ids => Map(EncodeBlobs, DecodeBlobs(AnyBytes, j))
    case Authors => Map(EncodeBlobs, DecodeBlobs(curve, j))
    case Kinds => Map(EncodeNums, DecodeKinds(j))
    case Since => Map(EncodeNum, DecodeNum(U64_LIMIT, j))
    case Until => Map(EncodeNum, DecodeNum(U64_LIMIT, j))
    case Limit => Map(EncodeNum, DecodeNum(U64_LIMIT, j))
    case Search => Map(EncodeText, DecodeText(j))
    case Tag(letter) =>
      (match DecodeTexts(j)
       case None => None
       case Some(v) => if ValidValues(letter, v) then Some(EncodeTexts(Deduped(v))) else None)
    case BadTag => None
    case Unknown => None
  }

  /** A value sets its own slot and leaves the others alone. */
  lemma SetSlot(curve: Curve, f: Filter, own: Key, j: Json, key: Key)
    requires Set(curve, f, own, j).Some?
    ensures Slot(Set(curve, f, own, j).value, key) == if own == key then Rewritten(curve, key, j) else Slot(f, key)
  {
    if own.Tag? {
      TagSlot(f, own.letter, Deduped(DecodeTexts(j).value), key);
    } else if own == key {
      OwnSlot(curve, f, own, j);
    } else {
      OtherSlot(curve, f, own, j, key);
    }
  }

  lemma OwnSlot(curve: Curve, f: Filter, own: Key, j: Json)
    requires Set(curve, f, own, j).Some? && !own.Tag?
    ensures Slot(Set(curve, f, own, j).value, own) == Rewritten(curve, own, j)
  {
  }

  lemma OtherSlot(curve: Curve, f: Filter, own: Key, j: Json, key: Key)
    requires Set(curve, f, own, j).Some? && !own.Tag? && own != key
    ensures Slot(Set(curve, f, own, j).value, key) == Slot(f, key)
  {
    var g := Set(curve, f, own, j).value;
    match own
    case Ids => assert g == f.(ids := g.ids);
    case Authors => assert g == f.(authors := g.authors);
    case Kinds => assert g == f.(kinds := g.kinds);
    case Since => assert g == f.(since := g.since);
    case Until => assert g == f.(until := g.until);
    case Limit => assert g == f.(limit := g.limit);
    case Search => assert g == f.(search := g.search);
    case _ =>
  }

  lemma TagSlot(f: Filter, letter: byte, values: seq<Text>, key: Key)
    ensures Slot(f.(tags := Put(f.tags, letter, values)), key)
            == if key == Tag(letter) then Some(EncodeTexts(values)) else Slot(f, key)
  {
    if key.Tag? {
      PutLookup(f.tags, letter, values, key.letter);
    }
  }

  lemma {:induction false} PutLookup(tags: seq<TagConstraint>, letter: byte, values: seq<Text>, x: byte)
    ensures Lookup(Put(tags, letter, values), x) == if x == letter then Some(values) else Lookup(tags, x)
  {
    if tags != [] && tags[0].letter != letter {
      PutLookup(tags[1..], letter, values, x);
      assert Put(tags, letter, values)[1..] == Put(tags[1..], letter, values);
    }
  }

  /** Of a repeated key only the last value counts, for scalars, lists and tags alike. */
  lemma {:induction false} LastEntryWins(curve: Curve, fields: seq<Field>, f: Filter, key: Key)
    requires DecodeInto(curve, EMPTY, fields) == Some(f)
    ensures Slot(f, key) == match Last(fields, key) case None => None case Some(j) => Rewritten(curve, key, j)
    decreases |fields|
  {
    if fields != [] {
      var front, last := fields[..|fields| - 1], fields[|fields| - 1];
      DecodeSnoc(curve, EMPTY, fields);
      var g := DecodeInto(curve, EMPTY, front).value;
      LastEntryWins(curve, front, g, key);
      SetSlot(curve, g, KeyOf(last.key), last.value, key);
    }
  }
}
