/** The names the protocol uses, as text: object keys, array heads and the shape of every message. */
module WireNames {
  import opened Bytes
  import opened Filters
  import opened Json
  import opened Wire
  import FilterCodec
  import EventCodec
  import Messages
  import RelayMessages

  // ----- filters -----

  lemma FilterNames()
    ensures FilterCodec.Name(FilterCodec.Ids) == Ascii("ids")
    ensures FilterCodec.Name(FilterCodec.Authors) == Ascii("authors")
    ensures FilterCodec.Name(FilterCodec.Kinds) == Ascii("kinds")
    ensures FilterCodec.Name(FilterCodec.Since) == Ascii("since")
    ensures FilterCodec.Name(FilterCodec.Until) == Ascii("until")
    ensures FilterCodec.Name(FilterCodec.Limit) == Ascii("limit")
    ensures FilterCodec.Name(FilterCodec.Search) == Ascii("search")
    ensures forall letter :: FilterCodec.Name(FilterCodec.Tag(letter)) == Ascii("#") + [letter]
  {
  }

  /** The entries a filter is written as: one under its own name for every slot that is set, one per tag letter. */
  ghost predicate FilterEntry(f: Filter, x: Field) {
    || (f.ids.Some? && x == Field(Ascii("ids"), EncodeBlobs(f.ids.value)))
    || (f.authors.Some? && x == Field(Ascii("authors"), EncodeBlobs(f.authors.value)))
    || (f.kinds.Some? && x == Field(Ascii("kinds"), EncodeNums(f.kinds.value)))
    || (f.since.Some? && x == Field(Ascii("since"), JNum(f.since.value)))
    || (f.until.Some? && x == Field(Ascii("until"), JNum(f.until.value)))
    || (f.limit.Some? && x == Field(Ascii("limit"), JNum(f.limit.value)))
    || (f.search.Some? && x == Field(Ascii("search"), JStr(f.search.value)))
    || exists k :: 0 <= k < |f.tags| && x == TagEntry(f.tags[k])
  }

  function TagEntry(c: TagConstraint): Field { Field(Ascii("#") + [c.letter], EncodeTexts(c.values)) }

  lemma {:induction false} TagEntries(tags: seq<TagConstraint>, x: Field)
    ensures x in FilterCodec.TagFields(tags) <==> exists k :: 0 <= k < |tags| && x == TagEntry(tags[k])
  {
    if tags != [] {
      FilterNames();
      TagEntries(tags[1..], x);
      assert FilterCodec.TagFields(tags)[0] == TagEntry(tags[0]);
      assert tags == [tags[0]] + tags[1..];
      if k :| 0 <= k < |tags[1..]| && x == TagEntry(tags[1..][k]) {
        assert x == TagEntry(tags[k + 1]);
      }
      if k :| 0 <= k < |tags| && x == TagEntry(tags[k]) {
        if k > 0 {
          assert tags[1..][k - 1] == tags[k];
        }
      }
    }
  }

  lemma OptionalEntry(key: FilterCodec.Key, value: Option<Json>, rest: seq<Field>, x: Field)
    ensures x in FilterCodec.OptionalField(key, value) + rest
            <==> (value.Some? && x == Field(FilterCodec.Name(key), value.value)) || x in rest
  {
  }

  /** Nothing else is written, and nothing under another name. */
  lemma FilterObject(f: Filter, x: Field)
    ensures x in FilterCodec.FilterFields(f) <==> FilterEntry(f, x)
  {
    var limits := LimitEntries(f, x);
    var times := TimeEntries(f, limits, x);
    ListEntries(f, times, x);
  }

  lemma LimitEntries(f: Filter, x: Field) returns (limits: seq<Field>)
    ensures limits == FilterCodec.OptionalField(FilterCodec.Limit, FilterCodec.Map(FilterCodec.EncodeNum, f.limit)) + (
                        FilterCodec.OptionalField(FilterCodec.Search, FilterCodec.Map(FilterCodec.EncodeText, f.search))
                        + FilterCodec.TagFields(f.tags))
    ensures x in limits
            <==> || (f.limit.Some? && x == Field(Ascii("limit"), JNum(f.limit.value)))
                 || (f.search.Some? && x == Field(Ascii("search"), JStr(f.search.value)))
                 || exists k :: 0 <= k < |f.tags| && x == TagEntry(f.tags[k])
  {
    FilterNames();
    TagEntries(f.tags, x);
    var tags := FilterCodec.TagFields(f.tags);
    var search := FilterCodec.Map(FilterCodec.EncodeText, f.search);
    var limit := FilterCodec.Map(FilterCodec.EncodeNum, f.limit);
    OptionalEntry(FilterCodec.Search, search, tags, x);
    OptionalEntry(FilterCodec.Limit, limit, FilterCodec.OptionalField(FilterCodec.Search, search) + tags, x);
    limits := FilterCodec.OptionalField(FilterCodec.Limit, limit) + (
      FilterCodec.OptionalField(FilterCodec.Search, search) + tags);
  }

  lemma TimeEntries(f: Filter, rest: seq<Field>, x: Field) returns (times: seq<Field>)
    ensures times == FilterCodec.OptionalField(FilterCodec.Since, FilterCodec.Map(FilterCodec.EncodeNum, f.since)) + (
                       FilterCodec.OptionalField(FilterCodec.Until, FilterCodec.Map(FilterCodec.EncodeNum, f.until))
                       + rest)
    ensures x in times
            <==> || (f.since.Some? && x == Field(Ascii("since"), JNum(f.since.value)))
                 || (f.until.Some? && x == Field(Ascii("until"), JNum(f.until.value)))
                 || x in rest
  {
    FilterNames();
    var since := FilterCodec.Map(FilterCodec.EncodeNum, f.since);
    var until := FilterCodec.Map(FilterCodec.EncodeNum, f.until);
    OptionalEntry(FilterCodec.Until, until, rest, x);
    OptionalEntry(FilterCodec.Since, since, FilterCodec.OptionalField(FilterCodec.Until, until) + rest, x);
    times := FilterCodec.OptionalField(FilterCodec.Since, since) + (
      FilterCodec.OptionalField(FilterCodec.Until, until) + rest);
  }

  lemma ListEntries(f: Filter, rest: seq<Field>, x: Field)
    ensures x in FilterCodec.OptionalField(FilterCodec.Ids, FilterCodec.Map(EncodeBlobs, f.ids)) + (
                   FilterCodec.OptionalField(FilterCodec.Authors, FilterCodec.Map(EncodeBlobs, f.authors)) + (
                     FilterCodec.OptionalField(FilterCodec.Kinds, FilterCodec.Map(EncodeNums, f.kinds)) + rest))
            <==> || (f.ids.Some? && x == Field(Ascii("ids"), EncodeBlobs(f.ids.value)))
                 || (f.authors.Some? && x == Field(Ascii("authors"), EncodeBlobs(f.authors.value)))
                 || (f.kinds.Some? && x == Field(Ascii("kinds"), EncodeNums(f.kinds.value)))
                 || x in rest
  {
    FilterNames();
    var ids := FilterCodec.Map(EncodeBlobs, f.ids);
    var authors := FilterCodec.Map(EncodeBlobs, f.authors);
    var kinds := FilterCodec.Map(EncodeNums, f.kinds);
    var later := FilterCodec.OptionalField(FilterCodec.Kinds, kinds) + rest;
    OptionalEntry(FilterCodec.Kinds, kinds, rest, x);
    OptionalEntry(FilterCodec.Authors, authors, later, x);
    OptionalEntry(FilterCodec.Ids, ids, FilterCodec.OptionalField(FilterCodec.Authors, authors) + later, x);
  }

  // ----- events -----

  /** The seven fields, in this order, under these names. */
  lemma EventObject(e: Event)
    ensures EventCodec.EncodeEvent(e)
            == JObj([Field(Ascii("id"), EncodeBytes(e.id)), Field(Ascii("pubkey"), EncodeBytes(e.pubkey)),
                     Field(Ascii("created_at"), JNum(e.createdAt)), Field(Ascii("kind"), JNum(e.kind)),
                     Field(Ascii("tags"), EventCodec.EncodeTags(e.tags)), Field(Ascii("content"), JStr(e.content)),
                     Field(Ascii("sig"), EncodeBytes(e.sig))])
  {
    EventNames();
    NamedSeven(EventCodec.EventItems(e));
  }

  lemma EventNames()
    ensures EventCodec.Name(EventCodec.Id) == Ascii("id") && EventCodec.Name(EventCodec.Pubkey) == Ascii("pubkey")
    ensures EventCodec.Name(EventCodec.CreatedAt) == Ascii("created_at")
    ensures EventCodec.Name(EventCodec.Kind) == Ascii("kind")
    ensures EventCodec.Name(EventCodec.Tags) == Ascii("tags") && EventCodec.Name(EventCodec.Content) == Ascii("content")
    ensures EventCodec.Name(EventCodec.Sig) == Ascii("sig")
  {
  }

  lemma NamedSeven(items: seq<EventCodec.Item>)
    requires |items| == 7
    ensures |EventCodec.Named(items)| == 7
    ensures forall i :: 0 <= i < 7 ==>
              EventCodec.Named(items)[i] == Field(EventCodec.Name(items[i].key), items[i].value)
  {
    NamedAt(items);
  }

  lemma {:induction false} NamedAt(items: seq<EventCodec.Item>)
    ensures |EventCodec.Named(items)| == |items|
    ensures forall i :: 0 <= i < |items| ==>
              EventCodec.Named(items)[i] == Field(EventCodec.Name(items[i].key), items[i].value)
  {
    if items != [] {
      NamedAt(items[1..]);
      assert EventCodec.Named(items)
          == [Field(EventCodec.Name(items[0].key), items[0].value)] + EventCodec.Named(items[1..]);
    }
  }

  // ----- messages -----

  /** The head of a client message. */
  function ClientHead(m: Messages.ClientMessage): string {
    match m
    case Publish(_) => "EVENT"
    case Req(_, _) => "REQ"
    case Close(_) => "CLOSE"
    case Authenticate(_) => "AUTH"
    case CountRequest(_, _) => "COUNT"
    case NegOpen(_, _, _) => "NEG-OPEN"
    case NegMsg(_, _) => "NEG-MSG"
    case NegClose(_) => "NEG-CLOSE"
  }

  /** What follows it. */
  function ClientTail(m: Messages.ClientMessage): seq<Json> {
    match m
    case Publish(e) => [EventCodec.EncodeEvent(e)]
    case Req(id, filters) => [JStr(id)] + EncodeAll(FilterCodec.EncodeFilter, filters)
    case Close(id) => [JStr(id)]
    case Authenticate(e) => [EventCodec.EncodeEvent(e)]
    case CountRequest(id, f) => [JStr(id), FilterCodec.EncodeFilter(f)]
    case NegOpen(id, f, payload) => [JStr(id), FilterCodec.EncodeFilter(f), JStr(payload)]
    case NegMsg(id, payload) => [JStr(id), JStr(payload)]
    case NegClose(id) => [JStr(id)]
  }

  lemma ClientHeads()
    ensures Messages.EVENT == Ascii("EVENT") && Messages.REQ == Ascii("REQ") && Messages.CLOSE == Ascii("CLOSE")
    ensures Messages.AUTH == Ascii("AUTH") && Messages.COUNT == Ascii("COUNT")
    ensures Messages.NEG_OPEN == Ascii("NEG-OPEN") && Messages.NEG_MSG == Ascii("NEG-MSG")
    ensures Messages.NEG_CLOSE == Ascii("NEG-CLOSE")
  {
  }

  lemma ClientWire(m: Messages.ClientMessage)
    ensures Messages.EncodeClient(m) == JArr([JStr(Ascii(ClientHead(m)))] + ClientTail(m))
  {
    ClientHeads();
    assert Messages.ClientTagName(Messages.TagOfClient(m)) == Ascii(ClientHead(m));
    assert Messages.ClientArguments(m) == ClientTail(m);
  }

  /** The head of a relay message. */
  function RelayHead(m: RelayMessages.RelayMessage): string {
    match m
    case Match(_, _) => "EVENT"
    case Ok(_, _, _) => "OK"
    case EndOfStoredEvents(_) => "EOSE"
    case Closed(_, _) => "CLOSED"
    case Notice(_) => "NOTICE"
    case Challenge(_) => "AUTH"
    case CountReply(_, _) => "COUNT"
    case NegReply(_, _) => "NEG-MSG"
    case NegErr(_, _) => "NEG-ERR"
  }

  /** What follows it. */
  function RelayTail(m: RelayMessages.RelayMessage): seq<Json> {
    match m
    case Match(id, e) => [JStr(id), EventCodec.EncodeEvent(e)]
    case Ok(id, accepted, message) => [EncodeBytes(id), JBool(accepted), JStr(message)]
    case EndOfStoredEvents(id) => [JStr(id)]
    case Closed(id, message) => [JStr(id), JStr(message)]
    case Notice(message) => [JStr(message)]
    case Challenge(message) => [JStr(message)]
    case CountReply(id, n) => [JStr(id), JObj([Field(Ascii("count"), JNum(n))])]
    case NegReply(id, message) => [JStr(id), JStr(message)]
    case NegErr(id, message) => [JStr(id), JStr(message)]
  }

  lemma RelayHeads()
    ensures RelayMessages.OK == Ascii("OK") && RelayMessages.EOSE == Ascii("EOSE")
    ensures RelayMessages.CLOSED == Ascii("CLOSED") && RelayMessages.NOTICE == Ascii("NOTICE")
    ensures RelayMessages.NEG_ERR == Ascii("NEG-ERR") && RelayMessages.COUNT_KEY == Ascii("count")
  {
  }

  lemma RelayWire(m: RelayMessages.RelayMessage)
    ensures RelayMessages.EncodeRelay(m) == JArr([JStr(Ascii(RelayHead(m)))] + RelayTail(m))
  {
    ClientHeads();
    RelayHeads();
    assert RelayMessages.TagName(RelayMessages.TagOfMessage(m)) == Ascii(RelayHead(m));
    assert RelayMessages.Arguments(m) == RelayTail(m);
  }

  // ----- ranges -----

  /** In numbers: 32-byte ids and keys, 64-byte signatures, 16-bit kinds and 64-bit times. */
  lemma EventRanges(curve: Curve, e: Event)
    ensures EventCodec.DecodeEvent(curve, EventCodec.EncodeEvent(e)) == Some(e)
            <==> && |e.id| == 32 && |e.pubkey| == 32 && curve(e.pubkey) && |e.sig| == 64
                 && e.createdAt <= 18_446_744_073_709_551_615 && e.kind <= 65_535
                 && forall k :: 0 <= k < |e.tags| ==> |e.tags[k]| > 0
  {
    EventCodec.EventRoundTripIff(curve, e);
  }
}
