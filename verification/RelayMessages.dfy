/** The message arrays relays send, and their round trips. */
module RelayMessages {
  import opened Bytes
  import opened Json
  import opened Wire
  import Filters
  import EventCodec
  import Messages

  datatype RelayMessage =
    | Match(subscription: Text, event: Filters.Event)
    | Ok(eventId: Text, accepted: bool, message: Text)
    | EndOfStoredEvents(subscription: Text)
    | Closed(subscription: Text, message: Text)
    | Notice(message: Text)
    | Challenge(message: Text)
    | CountReply(subscription: Text, count: nat)
    | NegReply(subscription: Text, message: Text)
    | NegErr(subscription: Text, message: Text)

  datatype RelayTag = EventTag | OkTag | EoseTag | ClosedTag | NoticeTag | AuthTag | CountTag | NegMsgTag | NegErrTag

  const OK: Text := [0x4F, 0x4B]
  const EOSE: Text := [0x45, 0x4F, 0x53, 0x45]
  const CLOSED: Text := [0x43, 0x4C, 0x4F, 0x53, 0x45, 0x44]
  const NOTICE: Text := [0x4E, 0x4F, 0x54, 0x49, 0x43, 0x45]
  const NEG_ERR: Text := [0x4E, 0x45, 0x47, 0x2D, 0x45, 0x52, 0x52]

  function TagName(tag: RelayTag): Text {
    match tag
    case EventTag => Messages.EVENT
    case OkTag => OK
    case EoseTag => EOSE
    case ClosedTag => CLOSED
    case NoticeTag => NOTICE
    case AuthTag => Messages.AUTH
    case CountTag => Messages.COUNT
    case NegMsgTag => Messages.NEG_MSG
    case NegErrTag => NEG_ERR
  }

  function TagOf(s: Text): Option<RelayTag> {
    if s == Messages.EVENT then Some(EventTag)
    else if s == OK then Some(OkTag)
    else if s == EOSE then Some(EoseTag)
    else if s == CLOSED then Some(ClosedTag)
    else if s == NOTICE then Some(NoticeTag)
    else if s == Messages.AUTH then Some(AuthTag)
    else if s == Messages.COUNT then Some(CountTag)
    else if s == Messages.NEG_MSG then Some(NegMsgTag)
    else if s == NEG_ERR then Some(NegErrTag)
    else None
  }

  lemma TagOfName(tag: RelayTag)
    ensures TagOf(TagName(tag)) == Some(tag)
  {
  }

  // ----- the count payload -----

  /** "count" */
  const COUNT_KEY: Text := [0x63, 0x6F, 0x75, 0x6E, 0x74]

  function ValuesUnder(fields: seq<Field>, key: Text): seq<Json> {
    if fields == [] then []
    else (if fields[0].key == key then [fields[0].value] else []) + ValuesUnder(fields[1..], key)
  }

  function EncodeCount(n: nat): Json { JObj([Field(COUNT_KEY, JNum(n))]) }

  /** An object with the field exactly once, or an array holding just the number. */
  function DecodeCount(j: Json): Option<nat> {
    match j
    case JObj(fields) =>
      var values := ValuesUnder(fields, COUNT_KEY);
      if |values| == 1 then DecodeNum(U64_LIMIT, values[0]) else None
    case JArr(items) => if |items| == 1 then DecodeNum(U64_LIMIT, items[0]) else None
    case _ => None
  }

  lemma CountRoundTrip(n: nat)
    ensures DecodeCount(EncodeCount(n)) == if n < U64_LIMIT then Some(n) else None
  {
    assert ValuesUnder([Field(COUNT_KEY, JNum(n))], COUNT_KEY) == [JNum(n)];
  }

  // ----- writing -----

  function TagOfMessage(m: RelayMessage): RelayTag {
    match m
    case Match(_, _) => EventTag
    case Ok(_, _, _) => OkTag
    case EndOfStoredEvents(_) => EoseTag
    case Closed(_, _) => ClosedTag
    case Notice(_) => NoticeTag
    case Challenge(_) => AuthTag
    case CountReply(_, _) => CountTag
    case NegReply(_, _) => NegMsgTag
    case NegErr(_, _) => NegErrTag
  }

  function Arguments(m: RelayMessage): seq<Json> {
    match m
    case Match(id, e) => [JStr(id), EventCodec.EncodeEvent(e)]
    case Ok(id, accepted, message) => [EncodeBytes(id), JBool(accepted), JStr(message)]
    case EndOfStoredEvents(id) => [JStr(id)]
    case Closed(id, message) => [JStr(id), JStr(message)]
    case Notice(message) => [JStr(message)]
    case Challenge(message) => [JStr(message)]
    case CountReply(id, n) => [JStr(id), EncodeCount(n)]
    case NegReply(id, message) => [JStr(id), JStr(message)]
    case NegErr(id, message) => [JStr(id), JStr(message)]
  }

  /** `Serialize for RelayMessage`. */
  function EncodeRelay(m: RelayMessage): Json { JArr([JStr(TagName(TagOfMessage(m)))] + Arguments(m)) }

  // ----- reading -----

  /** A subscription id followed by a string. */
  predicate IdAndText(args: seq<Json>) { |args| == 2 && Messages.DecodeSubscription(args[0]).Some? && args[1].JStr? }

  /** The arguments after the tag; missing and surplus elements are errors, except that `CLOSED` may omit its reason. */
  function DecodeArguments(curve: Curve, tag: RelayTag, args: seq<Json>): Option<RelayMessage> {
    match tag
    case EventTag =>
      if |args| == 2 && Messages.DecodeSubscription(args[0]).Some? && EventCodec.DecodeEvent(curve, args[1]).Some? then
        Some(Match(args[0].s, EventCodec.DecodeEvent(curve, args[1]).value))
      else None
    case OkTag =>
      if |args| == 3 && DecodeId(args[0]).Some? && args[1].JBool? && args[2].JStr? then
        Some(Ok(DecodeId(args[0]).value, args[1].b, args[2].s))
      else None
    case EoseTag =>
      if |args| == 1 && Messages.DecodeSubscription(args[0]).Some? then Some(EndOfStoredEvents(args[0].s)) else None
    case ClosedTag =>
      if |args| == 1 && Messages.DecodeSubscription(args[0]).Some? then Some(Closed(args[0].s, []))
      else if IdAndText(args) then Some(Closed(args[0].s, args[1].s))
      else None
    case NoticeTag => if |args| == 1 && args[0].JStr? then Some(Notice(args[0].s)) else None
    case AuthTag => if |args| == 1 && args[0].JStr? then Some(Challenge(args[0].s)) else None
    case CountTag =>
      if |args| == 2 && Messages.DecodeSubscription(args[0]).Some? && DecodeCount(args[1]).Some? then
        Some(CountReply(args[0].s, DecodeCount(args[1]).value))
      else None
    case NegMsgTag => if IdAndText(args) then Some(NegReply(args[0].s, args[1].s)) else None
    case NegErrTag => if IdAndText(args) then Some(NegErr(args[0].s, args[1].s)) else None
  }

  /** `Deserialize for RelayMessage`. */
  function DecodeRelay(curve: Curve, j: Json): Option<RelayMessage> {
    if !j.JArr? || j.items == [] || !j.items[0].JStr? then None
    else
      match TagOf(j.items[0].s)
      case None => None
      case Some(tag) => DecodeArguments(curve, tag, j.items[1..])
  }

  // ----- the round trip -----

  /** What the types of the fields promise. */
  predicate WellFormed(curve: Curve, m: RelayMessage) {
    match m
    case Match(id, e) => Messages.ValidSubscription(id) && EventCodec.WellFormed(curve, e)
    case Ok(id, _, _) => |id| == 32
    case EndOfStoredEvents(id) => Messages.ValidSubscription(id)
    case Closed(id, _) => Messages.ValidSubscription(id)
    case Notice(_) => true
    case Challenge(_) => true
    case CountReply(id, n) => Messages.ValidSubscription(id) && n < U64_LIMIT
    case NegReply(id, _) => Messages.ValidSubscription(id)
    case NegErr(id, _) => Messages.ValidSubscription(id)
  }

  lemma ArgumentsRoundTrip(curve: Curve, m: RelayMessage)
    requires WellFormed(curve, m)
    ensures DecodeArguments(curve, TagOfMessage(m), Arguments(m)) == Some(m)
  {
    match m
    case Match(id, e) =>
      EventCodec.EventRoundTripIff(curve, e);
      MatchArguments(curve, id, e, EventCodec.EncodeEvent(e));
    case Ok(id, accepted, message) => BytesRoundTrip(32, AnyBytes, id);
    case CountReply(id, n) =>
      CountRoundTrip(n);
      CountArguments(curve, id, n, EncodeCount(n));
    case _ =>
  }

  lemma MatchArguments(curve: Curve, id: Text, e: Filters.Event, j: Json)
    requires Messages.ValidSubscription(id) && EventCodec.DecodeEvent(curve, j) == Some(e)
    ensures DecodeArguments(curve, EventTag, [JStr(id), j]) == Some(Match(id, e))
  {
  }

  lemma CountArguments(curve: Curve, id: Text, n: nat, j: Json)
    requires Messages.ValidSubscription(id) && DecodeCount(j) == Some(n)
    ensures DecodeArguments(curve, CountTag, [JStr(id), j]) == Some(CountReply(id, n))
  {
  }

  lemma ArgumentsProduced(curve: Curve, tag: RelayTag, args: seq<Json>)
    requires DecodeArguments(curve, tag, args).Some?
    ensures WellFormed(curve, DecodeArguments(curve, tag, args).value)
  {
    match tag
    case EventTag => EventCodec.DecodedWellFormed(curve, args[1]);
    case _ =>
  }

  /** Every constructed message whose values are within their types survives the wire, and no other. */
  lemma RelayRoundTripIff(curve: Curve, m: RelayMessage)
    ensures DecodeRelay(curve, EncodeRelay(m)) == Some(m) <==> WellFormed(curve, m)
  {
    TagOfName(TagOfMessage(m));
    var items := EncodeRelay(m).items;
    assert items[0] == JStr(TagName(TagOfMessage(m))) && items[1..] == Arguments(m);
    if WellFormed(curve, m) {
      ArgumentsRoundTrip(curve, m);
    }
    if DecodeRelay(curve, EncodeRelay(m)) == Some(m) {
      ArgumentsProduced(curve, TagOfMessage(m), Arguments(m));
    }
  }

  /** Whatever parses, an omitted `CLOSED` reason included, is written so that it parses back to the same message, also
      through the text. */
  lemma RelayReparse(curve: Curve, j: Json, m: RelayMessage)
    requires DecodeRelay(curve, j) == Some(m)
    ensures DecodeRelay(curve, EncodeRelay(m)) == Some(m)
    ensures ReadText(Print(EncodeRelay(m))) == Some(EncodeRelay(m))
  {
    ArgumentsProduced(curve, TagOf(j.items[0].s).value, j.items[1..]);
    RelayRoundTripIff(curve, m);
    TextRoundTrip(EncodeRelay(m));
  }
}
