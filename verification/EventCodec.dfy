/** Signed events on the wire: the derived field-by-field codec. */
module EventCodec {
  import opened Bytes
  import opened Filters
  import opened Json
  import opened Wire

  datatype Key = Id | Pubkey | CreatedAt | Kind | Tags | Content | Sig | Unknown

  function Name(key: Key): Text {
    match key
    case Id => [0x69, 0x64]
    case Pubkey => [0x70, 0x75, 0x62, 0x6B, 0x65, 0x79]
    case CreatedAt => [0x63, 0x72, 0x65, 0x61, 0x74, 0x65, 0x64, 0x5F, 0x61, 0x74]
    case Kind => [0x6B, 0x69, 0x6E, 0x64]
    case Tags => [0x74, 0x61, 0x67, 0x73]
    case Content => [0x63, 0x6F, 0x6E, 0x74, 0x65, 0x6E, 0x74]
    case Sig => [0x73, 0x69, 0x67]
    case Unknown => []
  }

  function KeyOf(name: Text): Key {
    if name == Name(Id) then Id
    else if name == Name(Pubkey) then Pubkey
    else if name == Name(CreatedAt) then CreatedAt
    else if name == Name(Kind) then Kind
    else if name == Name(Tags) then Tags
    else if name == Name(Content) then Content
    else if name == Name(Sig) then Sig
    else Unknown
  }

  lemma KeyOfName(key: Key)
    ensures KeyOf(Name(key)) == key
  {
  }

  // ----- tags -----

  /** A tag is a non-empty array of strings. */
  function DecodeTag(j: Json): Option<seq<Text>> {
    match DecodeTexts(j) case None => None case Some(v) => if v == [] then None else Some(v)
  }

  function EncodeTags(tags: seq<seq<Text>>): Json { JArr(EncodeAll(EncodeTexts, tags)) }

  function DecodeTags(j: Json): Option<seq<seq<Text>>> { DecodeList(DecodeTag, j) }

  predicate NonEmpty(tags: seq<seq<Text>>) { forall k :: 0 <= k < |tags| ==> tags[k] != [] }

  lemma TagsRoundTrip(tags: seq<seq<Text>>)
    requires NonEmpty(tags)
    ensures DecodeTags(EncodeTags(tags)) == Some(tags)
  {
    forall k | 0 <= k < |tags|
      ensures DecodeTag(EncodeTexts(tags[k])) == Some(tags[k])
    {
      TextsRoundTrip(tags[k]);
    }
    AllRoundTrip(DecodeTag, EncodeTexts, tags);
  }

  lemma TagsProduced(j: Json)
    requires DecodeTags(j).Some?
    ensures NonEmpty(DecodeTags(j).value)
  {
    DecodeAllProduces(DecodeTag, j.items);
  }

  // ----- reading -----

  /** The fields read so far. */
  datatype Draft = Draft(
    id: Option<Text>, pubkey: Option<Text>, createdAt: Option<nat>, kind: Option<nat>, tags: Option<seq<seq<Text>>>,
    content: Option<Text>, sig: Option<Text>)

  const BLANK := Draft(None, None, None, None, None, None, None)

  /** One more field: a repeated one and an unreadable one are errors, an unknown one is skipped. */
  function Fill(curve: Curve, d: Draft, key: Key, j: Json): Option<Draft> {
    match key
    case Id => var v := DecodeId(j); if d.id.Some? || v.None? then None else Some(d.(id := v))
    case Pubkey => var v := DecodeKey(curve, j); if d.pubkey.Some? || v.None? then None else Some(d.(pubkey := v))
    case CreatedAt =>
      var v := DecodeNum(U64_LIMIT, j);
      if d.createdAt.Some? || v.None? then None else Some(d.(createdAt := v))
    case Kind => var v := DecodeNum(U16_LIMIT, j); if d.kind.Some? || v.None? then None else Some(d.(kind := v))
    case Tags => var v := DecodeTags(j); if d.tags.Some? || v.None? then None else Some(d.(tags := v))
    case Content => var v := DecodeText(j); if d.content.Some? || v.None? then None else Some(d.(content := v))
    case Sig => var v := DecodeBytes(64, AnyBytes, j); if d.sig.Some? || v.None? then None else Some(d.(sig := v))
    case Unknown => Some(d)
  }

  datatype Item = Item(key: Key, value: Json)

  /** The draft after the items from `k` on. */
  function FillFrom(curve: Curve, d: Draft, items: seq<Item>, k: nat): Option<Draft>
    requires k <= |items|
    decreases |items| - k
  {
    if k == |items| then Some(d)
    else
      match Fill(curve, d, items[k].key, items[k].value)
      case None => None
      case Some(e) => FillFrom(curve, e, items, k + 1)
  }

  /** A missing field is an error. */
  function Finish(d: Draft): Option<Event> {
    if && d.id.Some? && d.pubkey.Some? && d.createdAt.Some? && d.kind.Some?
       && d.tags.Some? && d.content.Some? && d.sig.Some?
    then
      Some(Event(d.id.value, d.pubkey.value, d.createdAt.value, d.kind.value,
                 d.tags.value, d.content.value, d.sig.value))
    else None
  }

  function Keyed(fields: seq<Field>): seq<Item> {
    if fields == [] then [] else [Item(KeyOf(fields[0].key), fields[0].value)] + Keyed(fields[1..])
  }

  /** Fields by position. */
  function Positional(items: seq<Json>): seq<Item>
    requires |items| == 7
  {
    [Item(Id, items[0]), Item(Pubkey, items[1]), Item(CreatedAt, items[2]), Item(Kind, items[3]), Item(Tags, items[4]),
     Item(Content, items[5]), Item(Sig, items[6])]
  }

  function FromItems(curve: Curve, items: seq<Item>): Option<Event> {
    match FillFrom(curve, BLANK, items, 0) case None => None case Some(d) => Finish(d)
  }

  /** An object, or an array of the seven fields in order. */
  function DecodeEvent(curve: Curve, j: Json): Option<Event> {
    match j
    case JObj(fields) => FromItems(curve, Keyed(fields))
    case JArr(items) => if |items| == 7 then FromItems(curve, Positional(items)) else None
    case _ => None
  }

  // ----- writing -----

  function EventItems(e: Event): seq<Item> {
    Positional([EncodeBytes(e.id), EncodeBytes(e.pubkey), JNum(e.createdAt), JNum(e.kind), EncodeTags(e.tags),
                JStr(e.content), EncodeBytes(e.sig)])
  }

  function Named(items: seq<Item>): seq<Field> {
    if items == [] then [] else [Field(Name(items[0].key), items[0].value)] + Named(items[1..])
  }

  function EncodeEvent(e: Event): Json { JObj(Named(EventItems(e))) }

  lemma {:induction false} KeyedNamed(items: seq<Item>)
    ensures Keyed(Named(items)) == items
  {
    if items != [] {
      KeyedNamed(items[1..]);
      KeyOfName(items[0].key);
      assert Named(items)[1..] == Named(items[1..]);
      assert items == [items[0]] + items[1..];
    }
  }

  // ----- the round trip -----

  /** In range for the types of the fields. */
  predicate WellFormed(curve: Curve, e: Event) {
    && |e.id| == 32 && |e.pubkey| == 32 && curve(e.pubkey) && |e.sig| == 64
    && e.createdAt < U64_LIMIT && e.kind < U16_LIMIT && NonEmpty(e.tags)
  }

  predicate BytesIn(size: nat, ok: Text -> bool, b: Option<Text>) { b.Some? ==> |b.value| == size && ok(b.value) }

  predicate NumberIn(limit: nat, n: Option<nat>) { n.Some? ==> n.value < limit }

  predicate TagsIn(tags: Option<seq<seq<Text>>>) { tags.Some? ==> NonEmpty(tags.value) }

  predicate GoodDraft(curve: Curve, d: Draft) {
    && BytesIn(32, AnyBytes, d.id) && BytesIn(32, curve, d.pubkey) && BytesIn(64, AnyBytes, d.sig)
    && NumberIn(U64_LIMIT, d.createdAt) && NumberIn(U16_LIMIT, d.kind) && TagsIn(d.tags)
  }

  lemma BytesProduced(size: nat, ok: Text -> bool, j: Json)
    ensures BytesIn(size, ok, DecodeBytes(size, ok, j))
  {
  }

  lemma FillKeeps(curve: Curve, d: Draft, key: Key, j: Json)
    requires GoodDraft(curve, d) && Fill(curve, d, key, j).Some?
    ensures GoodDraft(curve, Fill(curve, d, key, j).value)
  {
    match key
    case Id => BytesProduced(32, AnyBytes, j);
    case Pubkey => BytesProduced(32, curve, j);
    case Sig => BytesProduced(64, AnyBytes, j);
    case Tags => TagsProduced(j);
    case _ =>
  }

  lemma {:induction false} FillFromKeeps(curve: Curve, d: Draft, items: seq<Item>, k: nat)
    requires k <= |items| && GoodDraft(curve, d) && FillFrom(curve, d, items, k).Some?
    ensures GoodDraft(curve, FillFrom(curve, d, items, k).value)
    decreases |items| - k
  {
    if k < |items| {
      FillKeeps(curve, d, items[k].key, items[k].value);
      FillFromKeeps(curve, Fill(curve, d, items[k].key, items[k].value).value, items, k + 1);
    }
  }

  lemma DecodedWellFormed(curve: Curve, j: Json)
    requires DecodeEvent(curve, j).Some?
    ensures WellFormed(curve, DecodeEvent(curve, j).value)
  {
    if j.JObj? {
      FillFromKeeps(curve, BLANK, Keyed(j.fields), 0);
    } else {
      FillFromKeeps(curve, BLANK, Positional(j.items), 0);
    }
  }

  /** The seven fields, filled in one after the other. */
  lemma FilledEvent(curve: Curve, e: Event)
    requires WellFormed(curve, e)
    ensures FromItems(curve, EventItems(e)) == Some(e)
  {
    BytesRoundTrip(32, AnyBytes, e.id);
    BytesRoundTrip(32, curve, e.pubkey);
    BytesRoundTrip(64, AnyBytes, e.sig);
    TagsRoundTrip(e.tags);
    var items := EventItems(e);
    var d2 := BLANK.(id := Some(e.id), pubkey := Some(e.pubkey));
    var d4 := d2.(createdAt := Some(e.createdAt), kind := Some(e.kind));
    var d6 := d4.(tags := Some(e.tags), content := Some(e.content));
    assert FillFrom(curve, BLANK, items, 0) == FillFrom(curve, d2, items, 2);
    assert FillFrom(curve, d2, items, 2) == FillFrom(curve, d4, items, 4);
    assert FillFrom(curve, d4, items, 4) == FillFrom(curve, d6, items, 6);
    assert FillFrom(curve, d6, items, 6) == Some(d6.(sig := Some(e.sig)));
  }

  /** An event survives the wire if and only if it is in range, as an object or as an array. */
  lemma EventRoundTripIff(curve: Curve, e: Event)
    ensures DecodeEvent(curve, EncodeEvent(e)) == Some(e) <==> WellFormed(curve, e)
  {
    KeyedNamed(EventItems(e));
    if WellFormed(curve, e) {
      FilledEvent(curve, e);
    }
    if DecodeEvent(curve, EncodeEvent(e)) == Some(e) {
      DecodedWellFormed(curve, EncodeEvent(e));
    }
  }
}
