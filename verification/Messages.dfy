/** The message arrays clients and relays exchange, and their round trips. */
module Messages {
  import opened Bytes
  import opened Filters
  import opened Json
  import opened Wire
  import FilterCodec
  import EventCodec

  // ----- subscription ids -----

  const MAX_SUBSCRIPTION_ID: nat := 64

  /** The number of characters of a UTF-8 string: its bytes that are not continuations. */
  function CharCount(s: Text): nat {
    if s == [] then 0 else (if 0x80 <= s[0] < 0xC0 then 0 else 1) + CharCount(s[1..])
  }

  /** `SubscriptionId::validate`. */
  predicate ValidSubscription(s: Text) { s != [] && CharCount(s) <= MAX_SUBSCRIPTION_ID }

  function DecodeSubscription(j: Json): Option<Text> {
    if j.JStr? && ValidSubscription(j.s) then Some(j.s) else None
  }

  // ----- client messages -----

  datatype ClientMessage =
    | Publish(event: Event)
    | Req(subscription: Text, filters: seq<Filter>)
    | Close(subscription: Text)
    | Authenticate(event: Event)
    | CountRequest(subscription: Text, filter: Filter)
    | NegOpen(subscription: Text, filter: Filter, payload: Text)
    | NegMsg(subscription: Text, payload: Text)
    | NegClose(subscription: Text)

  datatype ClientTag = EventTag | ReqTag | CloseTag | AuthTag | CountTag | NegOpenTag | NegMsgTag | NegCloseTag

  const EVENT: Text := [0x45, 0x56, 0x45, 0x4E, 0x54]
  const REQ: Text := [0x52, 0x45, 0x51]
  const CLOSE: Text := [0x43, 0x4C, 0x4F, 0x53, 0x45]
  const AUTH: Text := [0x41, 0x55, 0x54, 0x48]
  const COUNT: Text := [0x43, 0x4F, 0x55, 0x4E, 0x54]
  const NEG_OPEN: Text := [0x4E, 0x45, 0x47, 0x2D, 0x4F, 0x50, 0x45, 0x4E]
  const NEG_MSG: Text := [0x4E, 0x45, 0x47, 0x2D, 0x4D, 0x53, 0x47]
  const NEG_CLOSE: Text := [0x4E, 0x45, 0x47, 0x2D, 0x43, 0x4C, 0x4F, 0x53, 0x45]

  function ClientTagName(tag: ClientTag): Text {
    match tag
    case EventTag => EVENT
    case ReqTag => REQ
    case CloseTag => CLOSE
    case AuthTag => AUTH
    case CountTag => COUNT
    case NegOpenTag => NEG_OPEN
    case NegMsgTag => NEG_MSG
    case NegCloseTag => NEG_CLOSE
  }

  function ClientTagOf(s: Text): Option<ClientTag> {
    if s == EVENT then Some(EventTag)
    else if s == REQ then Some(ReqTag)
    else if s == CLOSE then Some(CloseTag)
    else if s == AUTH then Some(AuthTag)
    else if s == COUNT then Some(CountTag)
    else if s == NEG_OPEN then Some(NegOpenTag)
    else if s == NEG_MSG then Some(NegMsgTag)
    else if s == NEG_CLOSE then Some(NegCloseTag)
    else None
  }

  lemma ClientTagOfName(tag: ClientTag)
    ensures ClientTagOf(ClientTagName(tag)) == Some(tag)
  {
  }

  function TagOfClient(m: ClientMessage): ClientTag {
    match m
    case Publish(_) => EventTag
    case Req(_, _) => ReqTag
    case Close(_) => CloseTag
    case Authenticate(_) => AuthTag
    case CountRequest(_, _) => CountTag
    case NegOpen(_, _, _) => NegOpenTag
    case NegMsg(_, _) => NegMsgTag
    case NegClose(_) => NegCloseTag
  }

  /** The elements after the tag. */
  function ClientArguments(m: ClientMessage): seq<Json> {
    match m
    case Publish(e) => [EventCodec.EncodeEvent(e)]
    case Req(id, filters) => [JStr(id)] + EncodeAll(FilterCodec.EncodeFilter, filters)
    case Close(id) => [JStr(id)]
    case Authenticate(e) => [EventCodec.EncodeEvent(e)]
    case CountRequest(id, f) => [JStr(id), FilterCodec.EncodeFilter(f)]
    case NegOpen(id, f, payload) => [JStr(id), FilterCodec.EncodeFilter(f), JStr(payload)]
    case NegMsg(id, payload) => [JStr(id), JStr(payload)]
    case NegClose(id) => [JStr(id)]
  }

  /** `Serialize for ClientMessage`. */
  function EncodeClient(m: ClientMessage): Json { JArr([JStr(ClientTagName(TagOfClient(m)))] + ClientArguments(m)) }

  function DecodeFilters(curve: Curve, items: seq<Json>): Option<seq<Filter>> {
    DecodeAll(j => FilterCodec.DecodeFilter(curve, j), items)
  }

  /** Filters decoded by the `REQ` loop: at least one, and every one readable. */
  function DecodeReq(curve: Curve, args: seq<Json>): Option<ClientMessage> {
    if args == [] || DecodeSubscription(args[0]).None? then None
    else
      match DecodeFilters(curve, args[1..])
      case None => None
      case Some(filters) => if filters == [] then None else Some(Req(DecodeSubscription(args[0]).value, filters))
  }

  /** The arguments after the tag; missing and surplus elements are errors. */
  function DecodeClientArguments(curve: Curve, tag: ClientTag, args: seq<Json>): Option<ClientMessage> {
    match tag
    case EventTag =>
      if |args| == 1 && EventCodec.DecodeEvent(curve, args[0]).Some? then
        Some(Publish(EventCodec.DecodeEvent(curve, args[0]).value))
      else None
    case AuthTag =>
      if |args| == 1 && EventCodec.DecodeEvent(curve, args[0]).Some? then
        Some(Authenticate(EventCodec.DecodeEvent(curve, args[0]).value))
      else None
    case ReqTag => DecodeReq(curve, args)
    case CloseTag => if |args| == 1 && DecodeSubscription(args[0]).Some? then Some(Close(args[0].s)) else None
    case NegCloseTag => if |args| == 1 && DecodeSubscription(args[0]).Some? then Some(NegClose(args[0].s)) else None
    case CountTag =>
      if |args| == 2 && DecodeSubscription(args[0]).Some? && FilterCodec.DecodeFilter(curve, args[1]).Some? then
        Some(CountRequest(args[0].s, FilterCodec.DecodeFilter(curve, args[1]).value))
      else None
    case NegOpenTag =>
      if && |args| == 3 && DecodeSubscription(args[0]).Some?
         && FilterCodec.DecodeFilter(curve, args[1]).Some? && args[2].JStr?
      then
        Some(NegOpen(args[0].s, FilterCodec.DecodeFilter(curve, args[1]).value, args[2].s))
      else None
    case NegMsgTag =>
      if |args| == 2 && DecodeSubscription(args[0]).Some? && args[1].JStr? then Some(NegMsg(args[0].s, args[1].s))
      else None
  }

  /** `Deserialize for ClientMessage`. */
  function DecodeClient(curve: Curve, j: Json): Option<ClientMessage> {
    if !j.JArr? || j.items == [] || !j.items[0].JStr? then None
    else
      match ClientTagOf(j.items[0].s)
      case None => None
      case Some(tag) => DecodeClientArguments(curve, tag, j.items[1..])
  }

  /** `decode_req`. */
  method DecodeReqLoop(curve: Curve, args: seq<Json>) returns (r: Option<ClientMessage>)
    ensures r == DecodeReq(curve, args)
    ensures r.Some? ==> r.value.Req? && |r.value.filters| == |args| - 1 > 0
  {
    if args == [] || DecodeSubscription(args[0]).None? {
      return None;
    }
    var rest := args[1..];
    var filters: seq<Filter> := [];
    var k := 0;
    ContinuedNone(curve, rest);
    while k < |rest|
      invariant 0 <= k <= |rest| && |filters| == k
      invariant Continued(curve, filters, rest[k..]) == DecodeFilters(curve, rest)
    {
      assert rest[k..][1..] == rest[k + 1..];
      var f := FilterCodec.DecodeFilter(curve, rest[k]);
      ContinuedStep(curve, filters, rest[k..]);
      if f.None? {
        return None;
      }
      filters := filters + [f.value];
      k := k + 1;
    }
    assert rest[k..] == [] && filters + [] == filters;
    if filters == [] {
      return None;
    }
    r := Some(Req(DecodeSubscription(args[0]).value, filters));
  }

  /** What the loop ends with, given the filters so far and the elements still to come. */
  function Continued(curve: Curve, filters: seq<Filter>, rest: seq<Json>): Option<seq<Filter>> {
    match DecodeFilters(curve, rest) case None => None case Some(more) => Some(filters + more)
  }

  lemma ContinuedNone(curve: Curve, rest: seq<Json>)
    ensures Continued(curve, [], rest) == DecodeFilters(curve, rest)
    ensures rest[0..] == rest
  {
    if DecodeFilters(curve, rest).Some? {
      assert [] + DecodeFilters(curve, rest).value == DecodeFilters(curve, rest).value;
    }
  }

  lemma ContinuedStep(curve: Curve, filters: seq<Filter>, rest: seq<Json>)
    requires rest != []
    ensures Continued(curve, filters, rest)
            == match FilterCodec.DecodeFilter(curve, rest[0])
               case None => None
               case Some(f) => Continued(curve, filters + [f], rest[1..])
  {
    if FilterCodec.DecodeFilter(curve, rest[0]).Some? && DecodeFilters(curve, rest[1..]).Some? {
      var f, more := FilterCodec.DecodeFilter(curve, rest[0]).value, DecodeFilters(curve, rest[1..]).value;
      assert filters + ([f] + more) == filters + [f] + more;
    }
  }

  predicate AllWellFormed(curve: Curve, filters: seq<Filter>) {
    forall k :: 0 <= k < |filters| ==> FilterCodec.WellFormed(curve, filters[k])
  }

  /** What the types of the fields promise, and a `REQ` that asks for something. */
  predicate ClientWellFormed(curve: Curve, m: ClientMessage) {
    match m
    case Publish(e) => EventCodec.WellFormed(curve, e)
    case Authenticate(e) => EventCodec.WellFormed(curve, e)
    case Req(id, filters) => ValidSubscription(id) && AllWellFormed(curve, filters) && filters != []
    case Close(id) => ValidSubscription(id)
    case NegClose(id) => ValidSubscription(id)
    case CountRequest(id, f) => ValidSubscription(id) && FilterCodec.WellFormed(curve, f)
    case NegOpen(id, f, _) => ValidSubscription(id) && FilterCodec.WellFormed(curve, f)
    case NegMsg(id, _) => ValidSubscription(id)
  }

  lemma FiltersRoundTrip(curve: Curve, filters: seq<Filter>)
    requires AllWellFormed(curve, filters)
    ensures DecodeFilters(curve, EncodeAll(FilterCodec.EncodeFilter, filters)) == Some(filters)
  {
    var d := (j: Json) => FilterCodec.DecodeFilter(curve, j);
    forall k | 0 <= k < |filters|
      ensures d(FilterCodec.EncodeFilter(filters[k])) == Some(filters[k])
    {
      FilterCodec.FilterRoundTrip(curve, filters[k]);
    }
    AllRoundTrip(d, FilterCodec.EncodeFilter, filters);
  }

  lemma FiltersProduced(curve: Curve, items: seq<Json>)
    requires DecodeFilters(curve, items).Some?
    ensures AllWellFormed(curve, DecodeFilters(curve, items).value)
  {
    var d := (j: Json) => FilterCodec.DecodeFilter(curve, j);
    DecodeAllProduces(d, items);
    var filters := DecodeAll(d, items).value;
    forall k | 0 <= k < |filters|
      ensures FilterCodec.WellFormed(curve, filters[k])
    {
      var j :| d(j) == Some(filters[k]);
      FilterCodec.FilterReparse(curve, j, filters[k]);
    }
  }

  lemma ReqRoundTrip(curve: Curve, id: Text, filters: seq<Filter>)
    requires ValidSubscription(id) && AllWellFormed(curve, filters) && filters != []
    ensures DecodeReq(curve, [JStr(id)] + EncodeAll(FilterCodec.EncodeFilter, filters)) == Some(Req(id, filters))
  {
    FiltersRoundTrip(curve, filters);
    var args := [JStr(id)] + EncodeAll(FilterCodec.EncodeFilter, filters);
    assert args[0] == JStr(id) && args[1..] == EncodeAll(FilterCodec.EncodeFilter, filters);
  }

  lemma ClientArgumentsRoundTrip(curve: Curve, m: ClientMessage)
    requires ClientWellFormed(curve, m)
    ensures DecodeClientArguments(curve, TagOfClient(m), ClientArguments(m)) == Some(m)
  {
    match m
    case Publish(e) =>
      EventCodec.EventRoundTripIff(curve, e);
      EventArgument(curve, e, EventCodec.EncodeEvent(e));
    case Authenticate(e) =>
      EventCodec.EventRoundTripIff(curve, e);
      EventArgument(curve, e, EventCodec.EncodeEvent(e));
    case Req(id, filters) => ReqRoundTrip(curve, id, filters);
    case CountRequest(id, f) =>
      FilterCodec.FilterRoundTrip(curve, f);
      FilterArgument(curve, id, f, FilterCodec.EncodeFilter(f), []);
    case NegOpen(id, f, payload) =>
      FilterCodec.FilterRoundTrip(curve, f);
      FilterArgument(curve, id, f, FilterCodec.EncodeFilter(f), payload);
    case Close(id) => SubscriptionArgument(curve, id, []);
    case NegMsg(id, payload) => SubscriptionArgument(curve, id, payload);
    case NegClose(id) => SubscriptionArgument(curve, id, []);
  }

  lemma EventArgument(curve: Curve, e: Event, j: Json)
    requires EventCodec.DecodeEvent(curve, j) == Some(e)
    ensures DecodeClientArguments(curve, EventTag, [j]) == Some(Publish(e))
    ensures DecodeClientArguments(curve, AuthTag, [j]) == Some(Authenticate(e))
  {
  }

  lemma FilterArgument(curve: Curve, id: Text, f: Filter, j: Json, payload: Text)
    requires ValidSubscription(id) && FilterCodec.DecodeFilter(curve, j) == Some(f)
    ensures DecodeClientArguments(curve, CountTag, [JStr(id), j]) == Some(CountRequest(id, f))
    ensures DecodeClientArguments(curve, NegOpenTag, [JStr(id), j, JStr(payload)]) == Some(NegOpen(id, f, payload))
  {
  }

  lemma SubscriptionArgument(curve: Curve, id: Text, payload: Text)
    requires ValidSubscription(id)
    ensures DecodeClientArguments(curve, CloseTag, [JStr(id)]) == Some(Close(id))
    ensures DecodeClientArguments(curve, NegCloseTag, [JStr(id)]) == Some(NegClose(id))
    ensures DecodeClientArguments(curve, NegMsgTag, [JStr(id), JStr(payload)]) == Some(NegMsg(id, payload))
  {
  }

  lemma ClientArgumentsProduced(curve: Curve, tag: ClientTag, args: seq<Json>)
    requires DecodeClientArguments(curve, tag, args).Some?
    ensures ClientWellFormed(curve, DecodeClientArguments(curve, tag, args).value)
  {
    match tag
    case EventTag => EventCodec.DecodedWellFormed(curve, args[0]);
    case AuthTag => EventCodec.DecodedWellFormed(curve, args[0]);
    case ReqTag => FiltersProduced(curve, args[1..]);
    case CountTag => FilterCodec.FilterReparse(curve, args[1], FilterCodec.DecodeFilter(curve, args[1]).value);
    case NegOpenTag => FilterCodec.FilterReparse(curve, args[1], FilterCodec.DecodeFilter(curve, args[1]).value);
    case _ =>
  }

  /** Every constructed message survives the wire, except exactly a `REQ` with no filters and values outside their
      types. */
  lemma ClientRoundTripIff(curve: Curve, m: ClientMessage)
    ensures DecodeClient(curve, EncodeClient(m)) == Some(m) <==> ClientWellFormed(curve, m)
  {
    ClientTagOfName(TagOfClient(m));
    var items := EncodeClient(m).items;
    assert items[0] == JStr(ClientTagName(TagOfClient(m))) && items[1..] == ClientArguments(m);
    if ClientWellFormed(curve, m) {
      ClientArgumentsRoundTrip(curve, m);
    }
    if DecodeClient(curve, EncodeClient(m)) == Some(m) {
      ClientArgumentsProduced(curve, TagOfClient(m), ClientArguments(m));
    }
  }

  /** Whatever parses is written so that it parses back to the same message, also through the text. */
  lemma ClientReparse(curve: Curve, j: Json, m: ClientMessage)
    requires DecodeClient(curve, j) == Some(m)
    ensures DecodeClient(curve, EncodeClient(m)) == Some(m)
    ensures ReadText(Print(EncodeClient(m))) == Some(EncodeClient(m))
  {
    ClientArgumentsProduced(curve, ClientTagOf(j.items[0].s).value, j.items[1..]);
    ClientRoundTripIff(curve, m);
    TextRoundTrip(EncodeClient(m));
  }

  /** The one message that can be built and sent but never read. */
  lemma EmptyReqIsLost(curve: Curve, id: Text)
    requires ValidSubscription(id)
    ensures DecodeClient(curve, EncodeClient(Req(id, []))).None?
  {
    ClientTagOfName(ReqTag);
    var items := EncodeClient(Req(id, [])).items;
    assert items[0] == JStr(ClientTagName(ReqTag)) && items[1..] == [JStr(id)];
    assert [JStr(id)][1..] == [];
  }
}
