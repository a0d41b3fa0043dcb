/** Where an outgoing event is published, and that a private message never leaks. */
module SendPath {
  import opened Bytes
  import opened Filters
  import opened Routes
  import RouteFacts
  import opened Selection
  import opened BreakDown

  const CONTACTS: nat := 3

  /** `EventRoute`. */
  datatype Route = Relays(relays: set<RelayUrl>) | NoRoute(privateMessage: bool)

  /** `Tags::public_keys`: the keys of the `p` tags that parse. */
  function Recipients(g: Graph, e: Event): set<PublicKey> {
    set k | 0 <= k < |e.tags| && PTagKey(g, e.tags[k]).Some? :: PTagKey(g, e.tags[k]).value
  }

  function PTagKey(g: Graph, tag: seq<Text>): Option<PublicKey> {
    if TagLetter(tag) == Some(P_TAG) && |tag| > 1 then ParseKey(g, tag[1]) else None
  }

  /** The DM relays of one user, if known. */
  function DmChoice(g: Graph): Choice {
    (pk: PublicKey) => if pk in g.routes then SelectDm(g.cfg, g.routes[pk], g.limits) else {}
  }

  /** The routing table: gift wraps by recipients' DM relays, contact lists by the author's outbox, anything else by
      the author's outbox and the recipients' inboxes. */
  function TargetsWith(kind: nat, author: PublicKey, recipients: set<PublicKey>, dm: Choice, a: Choice, b: Choice)
    : set<RelayUrl>
  {
    if kind == GIFT_WRAP then AllRelays(dm, recipients)
    else a(author) + if kind == CONTACTS then {} else AllRelays(b, recipients)
  }

  function RouteOf(kind: nat, targets: set<RelayUrl>): Route {
    if targets == {} then NoRoute(kind == GIFT_WRAP) else Relays(targets)
  }

  function Targets(g: Graph, e: Event): set<RelayUrl> {
    TargetsWith(e.kind, e.pubkey, Recipients(g, e), DmChoice(g), ChoiceOf(g, Outbox, false), ChoiceOf(g, Inbox, false))
  }

  function RouteEvent(g: Graph, e: Event): Route { RouteOf(e.kind, Targets(g, e)) }

  // ----- the loops of `break_down_event` -----

  method DmTargets(g: Graph, recipients: set<PublicKey>, ghost dm: Choice) returns (relays: set<RelayUrl>)
    requires dm == DmChoice(g)
    ensures relays == AllRelays(dm, recipients)
  {
    relays := {};
    var todo := recipients;
    while todo != {}
      invariant todo <= recipients && relays == AllRelays(dm, recipients - todo)
      decreases todo
    {
      var pk :| pk in todo;
      AllRelaysStep(dm, recipients - todo, pk);
      assert recipients - (todo - {pk}) == recipients - todo + {pk};
      if pk in g.routes {
        var extra := SelectDmRelays(g.cfg, g.routes[pk], g.limits);
        relays := relays + extra;
      }
      todo := todo - {pk};
    }
    assert recipients - todo == recipients;
  }

  method InboxTargets(g: Graph, before: set<RelayUrl>, recipients: set<PublicKey>, ghost b: Choice)
    returns (relays: set<RelayUrl>)
    requires ValidLimits(g.limits) && Chooses(g, Inbox, false, b)
    ensures relays == before + AllRelays(b, recipients)
  {
    relays := before;
    var todo := recipients;
    while todo != {}
      invariant todo <= recipients && relays == before + AllRelays(b, recipients - todo)
      decreases todo
    {
      var pk :| pk in todo;
      var extra := RelaysOfKey(g, pk, Inbox, false, b);
      AllRelaysStep(b, recipients - todo, pk);
      assert recipients - (todo - {pk}) == recipients - todo + {pk};
      relays := relays + extra;
      todo := todo - {pk};
    }
    assert recipients - todo == recipients;
  }

  /** `break_down_event`. */
  method BreakDownEvent(g: Graph, e: Event, ghost dm: Choice, ghost a: Choice, ghost b: Choice) returns (r: Route)
    requires ValidLimits(g.limits) && dm == DmChoice(g)
    requires Chooses(g, Outbox, false, a) && Chooses(g, Inbox, false, b)
    ensures r == RouteOf(e.kind, TargetsWith(e.kind, e.pubkey, Recipients(g, e), dm, a, b))
  {
    var recipients := Recipients(g, e);
    var relays: set<RelayUrl>;
    if e.kind == GIFT_WRAP {
      relays := DmTargets(g, recipients, dm);
      return if relays == {} then NoRoute(true) else Relays(relays);
    }
    relays := RelaysOfKey(g, e.pubkey, Outbox, false, a);
    if e.kind != CONTACTS {
      relays := InboxTargets(g, relays, recipients, b);
    }
    r := if relays == {} then NoRoute(false) else Relays(relays);
  }

  // ----- who gets it -----

  /** Some `p` tag of the event names the key. */
  ghost predicate Mentions(g: Graph, e: Event, pk: PublicKey) {
    exists k :: 0 <= k < |e.tags| && |e.tags[k]| >= 2 && e.tags[k][0] == [0x70] && ParseKey(g, e.tags[k][1]) == Some(pk)
  }

  lemma RecipientsIff(g: Graph, e: Event, pk: PublicKey)
    ensures pk in Recipients(g, e) <==> Mentions(g, e, pk)
  {
    if pk in Recipients(g, e) {
      var k :| 0 <= k < |e.tags| && PTagKey(g, e.tags[k]) == Some(pk);
      assert e.tags[k][0] == [0x70];
    }
    if k :| 0 <= k < |e.tags| && |e.tags[k]| >= 2 && e.tags[k][0] == [0x70] && ParseKey(g, e.tags[k][1]) == Some(pk) {
      assert PTagKey(g, e.tags[k]) == Some(pk);
    }
  }

  /** The relay takes direct messages for the user. */
  predicate DmRelayOf(g: Graph, pk: PublicKey, u: RelayUrl) {
    pk in g.routes && u in SelectDm(g.cfg, g.routes[pk], g.limits)
  }

  /** The relay takes what the user writes, or reads. */
  predicate RelayOf(g: Graph, pk: PublicKey, d: Direction, u: RelayUrl) {
    pk in g.routes && u in Select(g.cfg, g.routes[pk], g.limits, d)
  }

  /** Where an event belongs: a gift wrap (kind 1059) at the DM relays of those it mentions; anything else at its
      author's outbox and, unless it is a contact list (kind 3), at the inboxes of those it mentions. */
  ghost predicate BelongsAt(g: Graph, e: Event, u: RelayUrl) {
    if e.kind == 1059 then exists pk :: Mentions(g, e, pk) && DmRelayOf(g, pk, u)
    else
      || RelayOf(g, e.pubkey, Outbox, u)
      || (e.kind != 3 && exists pk :: Mentions(g, e, pk) && RelayOf(g, pk, Inbox, u))
  }

  /** The decision names exactly those relays; without any, a gift wrap is refused and anything else is broadcast. */
  ghost predicate Decided(g: Graph, e: Event, d: Decision) {
    && (forall u :: d.SendTo? && u in d.relays <==> BelongsAt(g, e, u))
    && (d.Refuse? <==> e.kind == 1059 && forall u :: !BelongsAt(g, e, u))
    && (d.Broadcast? <==> e.kind != 1059 && forall u :: !BelongsAt(g, e, u))
  }

  /** The routing table, relay by relay. */
  lemma TargetsWithIff(
    kind: nat, author: PublicKey, recipients: set<PublicKey>, dm: Choice, a: Choice, b: Choice, u: RelayUrl)
    ensures u in TargetsWith(kind, author, recipients, dm, a, b)
            <==> if kind == 1059 then exists pk :: pk in recipients && u in dm(pk)
                 else u in a(author) || (kind != 3 && exists pk :: pk in recipients && u in b(pk))
  {
    AllRelaysFacts(dm, recipients);
    AllRelaysFacts(b, recipients);
  }

  lemma ChoicesMean(g: Graph, pk: PublicKey, u: RelayUrl)
    ensures u in DmChoice(g)(pk) <==> DmRelayOf(g, pk, u)
    ensures u in ChoiceOf(g, Outbox, false)(pk) <==> RelayOf(g, pk, Outbox, u)
    ensures u in ChoiceOf(g, Inbox, false)(pk) <==> RelayOf(g, pk, Inbox, u)
  {
  }

  lemma TargetsIff(g: Graph, e: Event, u: RelayUrl)
    ensures u in Targets(g, e) <==> BelongsAt(g, e, u)
  {
    var dm, a, b := DmChoice(g), ChoiceOf(g, Outbox, false), ChoiceOf(g, Inbox, false);
    TargetsWithIff(e.kind, e.pubkey, Recipients(g, e), dm, a, b, u);
    TranslateTargets(g, e, u, Recipients(g, e), dm, a, b);
  }

  lemma TranslateTargets(g: Graph, e: Event, u: RelayUrl, recipients: set<PublicKey>, dm: Choice, a: Choice, b: Choice)
    requires recipients == Recipients(g, e) && dm == DmChoice(g)
    requires a == ChoiceOf(g, Outbox, false) && b == ChoiceOf(g, Inbox, false)
    ensures BelongsAt(g, e, u)
            <==> if e.kind == 1059 then exists pk :: pk in recipients && u in dm(pk)
                 else u in a(e.pubkey) || (e.kind != 3 && exists pk :: pk in recipients && u in b(pk))
  {
    forall pk
      ensures pk in recipients <==> Mentions(g, e, pk)
      ensures u in dm(pk) <==> DmRelayOf(g, pk, u)
      ensures (u in a(pk) <==> RelayOf(g, pk, Outbox, u)) && (u in b(pk) <==> RelayOf(g, pk, Inbox, u))
    {
      RecipientsIff(g, e, pk);
      ChoicesMean(g, pk, u);
    }
  }

  lemma DecisionIff(g: Graph, e: Event)
    ensures Decided(g, e, Decide(RouteEvent(g, e)))
  {
    forall u
      ensures u in Targets(g, e) <==> BelongsAt(g, e, u)
    {
      TargetsIff(g, e, u);
    }
    DecisionOf(g, e, Targets(g, e));
  }

  lemma DecisionOf(g: Graph, e: Event, targets: set<RelayUrl>)
    requires forall u :: u in targets <==> BelongsAt(g, e, u)
    ensures Decided(g, e, Decide(RouteOf(e.kind, targets)))
  {
  }

  // ----- the send decision -----

  /** What `gossip_send_event` does with the route. */
  datatype Decision = SendTo(relays: set<RelayUrl>) | Refuse | Broadcast

  function Decide(r: Route): Decision {
    match r
    case Relays(relays) => SendTo(relays)
    case NoRoute(true) => Refuse
    case NoRoute(false) => Broadcast
  }

  /** The three arms of `gossip_send_event`. */
  method Dispose(route: Route) returns (d: Decision)
    ensures d == Decide(route)
  {
    match route
    case Relays(relays) => d := SendTo(relays);
    case NoRoute(true) => d := Refuse;
    case NoRoute(false) => d := Broadcast;
  }

  /** `gossip_send_event`, up to handing the event to the pool. */
  method SendEvent(g: Graph, e: Event) returns (d: Decision)
    requires ValidLimits(g.limits)
    ensures d == Decide(RouteEvent(g, e)) && Decided(g, e, d)
  {
    var route := BreakDownEvent(g, e, DmChoice(g), ChoiceOf(g, Outbox, false), ChoiceOf(g, Inbox, false));
    d := Dispose(route);
    DecisionIff(g, e);
  }

  /** The graph after a run of `process` and `refresh` calls. */
  function GraphAfter(cfg: Config, ops: seq<Op>, interval: nat, limits: Limits, isKey: PublicKey -> bool): Graph {
    Graph(cfg, RunOps(cfg, ops, interval), limits, isKey)
  }

  /** `u` is an allowed relay of the newest DM list of `pk` among what was processed, the one at `i`. */
  ghost predicate ListedFor(cfg: Config, h: seq<Item>, pk: PublicKey, u: RelayUrl, i: int) {
    && IsChosen(cfg, h, pk, Nip17, i) && h[i].event.kind == 10050 && h[i].event.pubkey == pk
    && u in cfg.dmRelays(h[i].event).value && cfg.allowed(u)
  }

  lemma DmRelayIsListed(
    cfg: Config, ops: seq<Op>, interval: nat, limits: Limits, isKey: PublicKey -> bool, pk: PublicKey, u: RelayUrl)
    returns (i: int)
    requires u in DmChoice(GraphAfter(cfg, ops, interval, limits, isKey))(pk)
    ensures ListedFor(cfg, Processed(cfg, ops, interval), pk, u, i)
  {
    i := RouteFacts.StoredListAfter(cfg, ops, interval, pk, Nip17);
    var r := Entry(RunOps(cfg, ops, interval), pk);
    assert u in r.nip17;
  }

  /** A gift wrap `e` goes only to allowed relays that the newest processed DM list of one of its recipients names; when
      there is none it is refused, and it is never broadcast. */
  ghost predicate KeptPrivate(g: Graph, e: Event, h: seq<Item>) {
    var d := Decide(RouteEvent(g, e));
    && !d.Broadcast?
    && (d.Refuse? <==> forall pk :: pk in Recipients(g, e) ==> DmChoice(g)(pk) == {})
    && (d.SendTo? ==> d.relays != {} && forall u :: u in d.relays ==>
          exists pk, i :: pk in Recipients(g, e) && ListedFor(g.cfg, h, pk, u, i))
  }

  lemma PrivateIfListed(g: Graph, e: Event, h: seq<Item>)
    requires e.kind == GIFT_WRAP
    requires forall pk, u :: u in DmChoice(g)(pk) ==> exists i :: ListedFor(g.cfg, h, pk, u, i)
    ensures KeptPrivate(g, e, h)
  {
    var rs := AllRelays(DmChoice(g), Recipients(g, e));
    AllRelaysFacts(DmChoice(g), Recipients(g, e));
    forall u | u in rs
      ensures exists pk, i :: pk in Recipients(g, e) && ListedFor(g.cfg, h, pk, u, i)
    {
      var pk :| pk in Recipients(g, e) && u in DmChoice(g)(pk);
      var i :| ListedFor(g.cfg, h, pk, u, i);
    }
  }

  /** Over every run of `process` and `refresh` calls, private messages are kept private. */
  lemma GiftWrapNeverLeaks(
    cfg: Config, ops: seq<Op>, interval: nat, limits: Limits, isKey: PublicKey -> bool, e: Event)
    requires e.kind == 1059
    ensures KeptPrivate(GraphAfter(cfg, ops, interval, limits, isKey), e, Processed(cfg, ops, interval))
  {
    var g := GraphAfter(cfg, ops, interval, limits, isKey);
    var h := Processed(cfg, ops, interval);
    forall pk, u | u in DmChoice(g)(pk)
      ensures exists i :: ListedFor(g.cfg, h, pk, u, i)
    {
      var i := DmRelayIsListed(cfg, ops, interval, limits, isKey, pk, u);
    }
    PrivateIfListed(g, e, h);
  }

  /** In particular nothing is sent for recipients who never published a readable DM list. */
  lemma NoListNoSend(
    cfg: Config, ops: seq<Op>, interval: nat, limits: Limits, isKey: PublicKey -> bool, e: Event)
    requires e.kind == 1059
    requires forall pk, i :: pk in Recipients(GraphAfter(cfg, ops, interval, limits, isKey), e) ==>
               !Candidate(cfg, Processed(cfg, ops, interval), pk, Nip17, i)
    ensures Decide(RouteEvent(GraphAfter(cfg, ops, interval, limits, isKey), e)) == Refuse
  {
    var g := GraphAfter(cfg, ops, interval, limits, isKey);
    GiftWrapNeverLeaks(cfg, ops, interval, limits, isKey, e);
    RefusedWithoutLists(g, e, Processed(cfg, ops, interval));
  }

  lemma RefusedWithoutLists(g: Graph, e: Event, h: seq<Item>)
    requires KeptPrivate(g, e, h) && forall pk, i :: pk in Recipients(g, e) ==> !Candidate(g.cfg, h, pk, Nip17, i)
    ensures Decide(RouteEvent(g, e)) == Refuse
  {
  }
}
