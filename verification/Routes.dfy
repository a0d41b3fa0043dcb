/** The per-user routing state and how processed events fold into it. */
module Routes {
  import opened Bytes
  import opened Filters

  type PublicKey = Text
  type RelayUrl = Text

  const U32_MAX: nat := 0xFFFF_FFFF
  const RELAY_LIST: nat := 10002
  const DM_RELAYS: nat := 10050

  datatype RelayMarker = ReadWrite | Read | Write

  /** The foreign parsers, and the relay policy gate. */
  datatype Config = Config(
    relayList: Event -> Option<map<RelayUrl, RelayMarker>>,
    dmRelays: Event -> Option<seq<RelayUrl>>,
    parseUrl: Text -> Option<RelayUrl>,
    allowed: RelayUrl -> bool)

  datatype UserRoutes = UserRoutes(
    nip65: Option<map<RelayUrl, RelayMarker>>, nip65At: Option<nat>, nip65Fetched: Option<nat>,
    nip17: seq<RelayUrl>, nip17At: Option<nat>, nip17Fetched: Option<nat>,
    hints: map<RelayUrl, nat>, received: map<RelayUrl, nat>)

  const NO_ROUTES := UserRoutes(None, None, None, [], None, None, map[], map[])

  type RouteMap = map<PublicKey, UserRoutes>

  // ----- one event -----

  /** `bump`: a counter that starts at one and saturates. */
  function Bump(m: map<RelayUrl, nat>, url: RelayUrl): map<RelayUrl, nat> {
    m[url := if url in m then (if m[url] >= U32_MAX then U32_MAX else m[url] + 1) else 1]
  }

  function BumpAll(m: map<RelayUrl, nat>, urls: seq<RelayUrl>): map<RelayUrl, nat>
    decreases |urls|
  {
    if urls == [] then m else BumpAll(Bump(m, urls[0]), urls[1..])
  }

  /** The relay an `r` tag hints at, when it parses and the policy allows it. */
  function TagHint(cfg: Config, tag: seq<Text>): Option<RelayUrl> {
    if TagLetter(tag) != Some(0x72) || |tag| < 2 then None
    else
      match cfg.parseUrl(tag[1])
      case None => None
      case Some(url) => if cfg.allowed(url) then Some(url) else None
  }

  function HintUrls(cfg: Config, tags: seq<seq<Text>>): seq<RelayUrl> {
    if tags == [] then []
    else
      match TagHint(cfg, tags[0])
      case None => HintUrls(cfg, tags[1..])
      case Some(url) => [url] + HintUrls(cfg, tags[1..])
  }

  function Allowed(cfg: Config, urls: seq<RelayUrl>): (r: seq<RelayUrl>)
    ensures forall u :: u in r <==> u in urls && cfg.allowed(u)
  {
    if urls == [] then []
    else if cfg.allowed(urls[0]) then [urls[0]] + Allowed(cfg, urls[1..])
    else Allowed(cfg, urls[1..])
  }

  predicate Newer(at: Option<nat>, createdAt: nat) { at.None? || at.value < createdAt }

  /** `apply_event_to_entry`. */
  function Apply(cfg: Config, r: UserRoutes, e: Event): UserRoutes {
    if e.kind == RELAY_LIST then
      if cfg.relayList(e).Some? && Newer(r.nip65At, e.createdAt)
      then r.(nip65 := cfg.relayList(e), nip65At := Some(e.createdAt)) else r
    else if e.kind == DM_RELAYS then
      if cfg.dmRelays(e).Some? && Newer(r.nip17At, e.createdAt)
      then r.(nip17 := Allowed(cfg, cfg.dmRelays(e).value), nip17At := Some(e.createdAt)) else r
    else r.(hints := BumpAll(r.hints, HintUrls(cfg, e.tags)))
  }

  /** What a source relay adds. */
  function Receive(cfg: Config, r: UserRoutes, source: Option<RelayUrl>): UserRoutes {
    if source.Some? && cfg.allowed(source.value) then r.(received := Bump(r.received, source.value)) else r
  }

  function Entry(m: RouteMap, user: PublicKey): UserRoutes { if user in m then m[user] else NO_ROUTES }

  /** An event as it was fed to `process`, with the relay that delivered it. */
  datatype Item = Item(event: Event, source: Option<RelayUrl>)

  function Process(cfg: Config, m: RouteMap, x: Item): RouteMap {
    m[x.event.pubkey := Receive(cfg, Apply(cfg, Entry(m, x.event.pubkey), x.event), x.source)]
  }

  /** The state after a history, oldest item first. */
  function Replay(cfg: Config, h: seq<Item>): RouteMap {
    if h == [] then map[] else Process(cfg, Replay(cfg, h[..|h| - 1]), h[|h| - 1])
  }

  // ----- refreshing -----

  datatype ListKind = Nip65 | Nip17

  function EventKind(k: ListKind): nat { if k.Nip65? then RELAY_LIST else DM_RELAYS }

  function Fetched(r: UserRoutes, k: ListKind): Option<nat> { if k.Nip65? then r.nip65Fetched else r.nip17Fetched }

  /** `saturating_sub` on timestamps. */
  function Since(now: nat, past: nat): nat { if now < past then 0 else now - past }

  /** The debounce test: no stamp, no readable clock, or the interval has passed. */
  predicate MayFetch(fetched: Option<nat>, now: Option<nat>, interval: nat) {
    fetched.None? || now.None? || Since(now.value, fetched.value) >= interval
  }

  function Stamp(m: RouteMap, user: PublicKey, k: ListKind, now: Option<nat>): RouteMap {
    if now.None? then m
    else
      var r := Entry(m, user);
      m[user := if k.Nip65? then r.(nip65Fetched := now) else r.(nip17Fetched := now)]
  }

  /** One `refresh` call: whether relays are contacted, and the state it leaves when they answer with `pulled`. */
  datatype RefreshCall = RefreshCall(
    user: PublicKey, k: ListKind, now: Option<nat>, discovery: bool, pulled: Option<Event>)

  predicate Contacts(m: RouteMap, c: RefreshCall, interval: nat) {
    c.discovery && MayFetch(Fetched(Entry(m, c.user), c.k), c.now, interval)
  }

  function AfterRefresh(cfg: Config, m: RouteMap, c: RefreshCall, interval: nat): RouteMap {
    if !Contacts(m, c, interval) then m
    else
      var stamped := Stamp(m, c.user, c.k, c.now);
      if c.pulled.None? then stamped else Process(cfg, stamped, Item(c.pulled.value, None))
  }

  // ----- whole runs -----

  /** What can happen to the graph: an event is processed, or a list is refreshed. */
  datatype Op = Feed(item: Item) | Call(call: RefreshCall)

  function StepOp(cfg: Config, m: RouteMap, op: Op, interval: nat): RouteMap {
    match op case Feed(x) => Process(cfg, m, x) case Call(c) => AfterRefresh(cfg, m, c, interval)
  }

  /** The state after a run of operations, for a given debounce interval. */
  function RunOps(cfg: Config, ops: seq<Op>, interval: nat): RouteMap {
    if ops == [] then map[] else StepOp(cfg, RunOps(cfg, ops[..|ops| - 1], interval), ops[|ops| - 1], interval)
  }

  /** The item an operation feeds into the graph, if any. */
  function FedBy(m: RouteMap, op: Op, interval: nat): seq<Item> {
    match op
    case Feed(x) => [x]
    case Call(c) => if Contacts(m, c, interval) && c.pulled.Some? then [Item(c.pulled.value, None)] else []
  }

  /** Everything a run processed, in order. */
  function Processed(cfg: Config, ops: seq<Op>, interval: nat): seq<Item> {
    if ops == [] then []
    else
      var before := ops[..|ops| - 1];
      Processed(cfg, before, interval) + FedBy(RunOps(cfg, before, interval), ops[|ops| - 1], interval)
  }

  // ----- the shared graph -----

  class Gossip {
    const cfg: Config
    var routes: RouteMap

    constructor (cfg: Config)
      ensures this.cfg == cfg && routes == map[]
    {
      this.cfg := cfg;
      routes := map[];
    }

    /** `Gossip::process`: one write under the lock. */
    method ProcessEvent(event: Event, source: Option<RelayUrl>)
      modifies this
      ensures routes == Process(cfg, old(routes), Item(event, source))
    {
      var entry := if event.pubkey in routes then routes[event.pubkey] else NO_ROUTES;
      entry := ApplyEvent(event, entry);
      if source.Some? && cfg.allowed(source.value) {
        entry := entry.(received := Bump(entry.received, source.value));
      }
      routes := routes[event.pubkey := entry];
    }

    /** `Gossip::refresh`, one call at a time: debounce, stamp, fetch, fold in what came back. */
    method Refresh(c: RefreshCall, interval: nat) returns (contacted: bool)
      modifies this
      ensures contacted == Contacts(old(routes), c, interval)
      ensures routes == AfterRefresh(cfg, old(routes), c, interval)
    {
      if !c.discovery {
        return false;
      }
      var prev := if c.user in routes then Fetched(routes[c.user], c.k) else None;
      contacted := prev.None? || c.now.None? || Since(c.now.value, prev.value) >= interval;
      if !contacted {
        return;
      }
      if c.now.Some? {
        var entry := if c.user in routes then routes[c.user] else NO_ROUTES;
        match c.k
        case Nip65 => routes := routes[c.user := entry.(nip65Fetched := c.now)];
        case Nip17 => routes := routes[c.user := entry.(nip17Fetched := c.now)];
      }
      if c.pulled.Some? {
        var event := c.pulled.value;
        var entry := if event.pubkey in routes then routes[event.pubkey] else NO_ROUTES;
        entry := ApplyEvent(event, entry);
        routes := routes[event.pubkey := entry];
      }
    }

    method ApplyEvent(event: Event, entry: UserRoutes) returns (r: UserRoutes)
      ensures r == Apply(cfg, entry, event)
    {
      r := entry;
      if event.kind == RELAY_LIST {
        var list := cfg.relayList(event);
        if list.Some? && (entry.nip65At.None? || entry.nip65At.value < event.createdAt) {
          r := r.(nip65 := list, nip65At := Some(event.createdAt));
        }
      } else if event.kind == DM_RELAYS {
        var relays := cfg.dmRelays(event);
        if relays.Some? && (entry.nip17At.None? || entry.nip17At.value < event.createdAt) {
          r := r.(nip17 := Allowed(cfg, relays.value), nip17At := Some(event.createdAt));
        }
      } else {
        var hints := HarvestRelayHints(event, entry.hints);
        r := r.(hints := hints);
      }
    }

    /** The tag loop of `harvest_relay_hints`. */
    method HarvestRelayHints(event: Event, before: map<RelayUrl, nat>) returns (hints: map<RelayUrl, nat>)
      ensures hints == BumpAll(before, HintUrls(cfg, event.tags))
    {
      hints := before;
      for i := 0 to |event.tags|
        invariant BumpAll(hints, HintUrls(cfg, event.tags[i..])) == BumpAll(before, HintUrls(cfg, event.tags))
      {
        var tag := event.tags[i];
        assert event.tags[i..][0] == tag && event.tags[i..][1..] == event.tags[i + 1..];
        if TagLetter(tag) != Some(0x72) || |tag| < 2 {
          continue;
        }
        var url := cfg.parseUrl(tag[1]);
        if url.Some? && cfg.allowed(url.value) {
          hints := Bump(hints, url.value);
        }
      }
      assert event.tags[|event.tags|..] == [];
    }
  }

  /** Any run of `process` and `refresh` calls leaves the graph in the state of the run. */
  method Carry(cfg: Config, ops: seq<Op>, interval: nat) returns (g: Gossip)
    ensures fresh(g) && g.cfg == cfg && g.routes == RunOps(cfg, ops, interval)
  {
    g := new Gossip(cfg);
    for k := 0 to |ops|
      invariant fresh(g) && g.cfg == cfg && g.routes == RunOps(cfg, ops[..k], interval)
    {
      assert ops[..k + 1][..k] == ops[..k];
      match ops[k] {
        case Feed(x) => g.ProcessEvent(x.event, x.source);
        case Call(c) => var _ := g.Refresh(c, interval);
      }
    }
    assert ops[..|ops|] == ops;
  }

  // ----- which list is stored -----

  /** A list event of this kind that parses. */
  predicate IsList(cfg: Config, e: Event, k: ListKind) {
    e.kind == EventKind(k) && (if k.Nip65? then cfg.relayList(e).Some? else cfg.dmRelays(e).Some?)
  }

  predicate Candidate(cfg: Config, h: seq<Item>, user: PublicKey, k: ListKind, i: int) {
    0 <= i < |h| && h[i].event.pubkey == user && IsList(cfg, h[i].event, k)
  }

  /** The earliest processed among the newest candidates. */
  ghost predicate IsChosen(cfg: Config, h: seq<Item>, user: PublicKey, k: ListKind, i: int) {
    && Candidate(cfg, h, user, k, i)
    && (forall j :: Candidate(cfg, h, user, k, j) ==>
          h[j].event.createdAt < h[i].event.createdAt
          || (h[j].event.createdAt == h[i].event.createdAt && i <= j))
  }

  function ListAt(r: UserRoutes, k: ListKind): Option<nat> { if k.Nip65? then r.nip65At else r.nip17At }

  /** The entry holds the list of event `e`. */
  predicate HoldsList(cfg: Config, r: UserRoutes, k: ListKind, e: Event) {
    && ListAt(r, k) == Some(e.createdAt)
    && (k.Nip65? ==> r.nip65 == cfg.relayList(e))
    && (k.Nip17? ==> cfg.dmRelays(e).Some? && r.nip17 == Allowed(cfg, cfg.dmRelays(e).value))
  }

  predicate HoldsNone(r: UserRoutes, k: ListKind) {
    ListAt(r, k) == None && (if k.Nip65? then r.nip65 == None else r.nip17 == [])
  }

  predicate SameList(r: UserRoutes, s: UserRoutes, k: ListKind) {
    ListAt(r, k) == ListAt(s, k) && (if k.Nip65? then r.nip65 == s.nip65 else r.nip17 == s.nip17)
  }

  /** One item replaces the list exactly when it is a strictly newer candidate of that user. */
  lemma ListStep(cfg: Config, m: RouteMap, x: Item, user: PublicKey, k: ListKind)
    ensures var before := Entry(m, user);
            var after := Entry(Process(cfg, m, x), user);
            if x.event.pubkey == user && IsList(cfg, x.event, k) && Newer(ListAt(before, k), x.event.createdAt)
            then HoldsList(cfg, after, k, x.event)
            else SameList(before, after, k)
  {
  }

  /** After any history the stored list is the chosen candidate's; `i < 0` stands for "there is none". */
  lemma {:induction false} StoredList(cfg: Config, h: seq<Item>, user: PublicKey, k: ListKind) returns (i: int)
    ensures i < 0 ==> (forall j :: !Candidate(cfg, h, user, k, j)) && HoldsNone(Entry(Replay(cfg, h), user), k)
    ensures i >= 0 ==> IsChosen(cfg, h, user, k, i) && HoldsList(cfg, Entry(Replay(cfg, h), user), k, h[i].event)
  {
    i := -1;
    if h != [] {
      var n := |h| - 1;
      var pre := h[..n];
      var before := StoredList(cfg, pre, user, k);
      ListStep(cfg, Replay(cfg, pre), h[n], user, k);
      i := before;
      if Candidate(cfg, h, user, k, n) && (before < 0 || pre[before].event.createdAt < h[n].event.createdAt) {
        i := n;
      }
      ChosenStep(cfg, h, pre, user, k, before, i);
    }
  }

  lemma ChosenStep(cfg: Config, h: seq<Item>, pre: seq<Item>, user: PublicKey, k: ListKind, before: int, i: int)
    requires h != [] && pre == h[..|h| - 1]
    requires before < 0 ==> forall j :: !Candidate(cfg, pre, user, k, j)
    requires before >= 0 ==> IsChosen(cfg, pre, user, k, before)
    requires i == if Candidate(cfg, h, user, k, |h| - 1)
                     && (before < 0 || h[before].event.createdAt < h[|h| - 1].event.createdAt)
                  then |h| - 1 else before
    ensures i < 0 ==> forall j :: !Candidate(cfg, h, user, k, j)
    ensures i >= 0 ==> IsChosen(cfg, h, user, k, i)
  {
    assert forall j :: 0 <= j < |h| - 1 ==>
      (Candidate(cfg, h, user, k, j) <==> Candidate(cfg, pre, user, k, j));
  }
}
