/** What a history determines about the routing state, and what it does not depend on. */
module RouteFacts {
  import opened Bytes
  import opened Filters
  import opened Routes

  // ----- histograms count occurrences -----

  function CountOf(url: RelayUrl, urls: seq<RelayUrl>): nat {
    if urls == [] then 0 else (if urls[0] == url then 1 else 0) + CountOf(url, urls[1..])
  }

  /** The histogram shows `c` occurrences of `url`: an entry exists from the first on, and saturates. */
  predicate Shows(m: map<RelayUrl, nat>, url: RelayUrl, c: nat) {
    (url in m <==> c > 0) && (url in m ==> m[url] == if c > 4_294_967_295 then 4_294_967_295 else c)
  }

  lemma {:induction false} BumpAllShows(m: map<RelayUrl, nat>, urls: seq<RelayUrl>, url: RelayUrl, c: nat)
    requires Shows(m, url, c)
    ensures Shows(BumpAll(m, urls), url, c + CountOf(url, urls))
    decreases |urls|
  {
    if urls != [] {
      BumpAllShows(Bump(m, urls[0]), urls[1..], url, c + if urls[0] == url then 1 else 0);
    }
  }

  /** The tag is an `r` tag whose URL parses to `url`, which the policy allows. */
  predicate HintsAt(cfg: Config, tag: seq<Text>, url: RelayUrl) {
    |tag| >= 2 && tag[0] == [0x72] && cfg.parseUrl(tag[1]) == Some(url) && cfg.allowed(url)
  }

  /** How many tags hint at `url`. */
  function HintTags(cfg: Config, tags: seq<seq<Text>>, url: RelayUrl): nat {
    if tags == [] then 0 else (if HintsAt(cfg, tags[0], url) then 1 else 0) + HintTags(cfg, tags[1..], url)
  }

  lemma TagHintIff(cfg: Config, tag: seq<Text>, url: RelayUrl)
    ensures TagHint(cfg, tag) == Some(url) <==> HintsAt(cfg, tag, url)
  {
    if TagLetter(tag) == Some(0x72) {
      assert tag[0] == [0x72];
    }
  }

  lemma {:induction false} HintUrlsCount(cfg: Config, tags: seq<seq<Text>>, url: RelayUrl)
    ensures CountOf(url, HintUrls(cfg, tags)) == HintTags(cfg, tags, url)
  {
    if tags != [] {
      HintUrlsCount(cfg, tags[1..], url);
      TagHintIff(cfg, tags[0], url);
      if TagHint(cfg, tags[0]).Some? {
        assert HintUrls(cfg, tags)[1..] == HintUrls(cfg, tags[1..]);
      }
    }
  }

  /** How often an item hints at `url` on behalf of `user`: list events do not. */
  function HintWeight(cfg: Config, user: PublicKey, url: RelayUrl, x: Item): nat {
    if x.event.pubkey == user && x.event.kind != 10002 && x.event.kind != 10050
    then HintTags(cfg, x.event.tags, url) else 0
  }

  /** Whether an item of `user` was delivered by the allowed relay `url`. */
  function ReceivedWeight(cfg: Config, user: PublicKey, url: RelayUrl, x: Item): nat {
    if x.event.pubkey == user && x.source == Some(url) && cfg.allowed(url) then 1 else 0
  }

  function Hints(cfg: Config, user: PublicKey, url: RelayUrl): Item -> nat { x => HintWeight(cfg, user, url, x) }

  function Deliveries(cfg: Config, user: PublicKey, url: RelayUrl): Item -> nat {
    x => ReceivedWeight(cfg, user, url, x)
  }

  function Total(w: Item -> nat, h: seq<Item>): nat {
    if h == [] then 0 else Total(w, h[..|h| - 1]) + w(h[|h| - 1])
  }

  lemma HintStep(cfg: Config, m: RouteMap, x: Item, user: PublicKey, url: RelayUrl, c: nat)
    requires Shows(Entry(m, user).hints, url, c)
    ensures Shows(Entry(Process(cfg, m, x), user).hints, url, c + HintWeight(cfg, user, url, x))
  {
    HintUrlsCount(cfg, x.event.tags, url);
    BumpAllShows(Entry(m, user).hints, HintUrls(cfg, x.event.tags), url, c);
  }

  lemma ReceivedStep(cfg: Config, m: RouteMap, x: Item, user: PublicKey, url: RelayUrl, d: nat)
    requires Shows(Entry(m, user).received, url, d)
    ensures Shows(Entry(Process(cfg, m, x), user).received, url, d + ReceivedWeight(cfg, user, url, x))
  {
    assert Apply(cfg, Entry(m, user), x.event).received == Entry(m, user).received;
  }

  /** After any history every histogram entry is the number of occurrences, saturated at `u32::MAX`. */
  lemma {:induction false} HistogramsCount(cfg: Config, h: seq<Item>, user: PublicKey, url: RelayUrl)
    ensures Shows(Entry(Replay(cfg, h), user).hints, url, Total(Hints(cfg, user, url), h))
    ensures Shows(Entry(Replay(cfg, h), user).received, url, Total(Deliveries(cfg, user, url), h))
  {
    if h != [] {
      var pre := h[..|h| - 1];
      HistogramsCount(cfg, pre, user, url);
      HintStep(cfg, Replay(cfg, pre), h[|h| - 1], user, url, Total(Hints(cfg, user, url), pre));
      ReceivedStep(cfg, Replay(cfg, pre), h[|h| - 1], user, url, Total(Deliveries(cfg, user, url), pre));
    }
  }

  // ----- totals forget order -----

  lemma {:induction false} TotalSplit(w: Item -> nat, a: seq<Item>, b: seq<Item>)
    ensures Total(w, a + b) == Total(w, a) + Total(w, b)
  {
    if b == [] {
      assert a + b == a;
    } else {
      assert (a + b)[..|a + b| - 1] == a + b[..|b| - 1];
      TotalSplit(w, a, b[..|b| - 1]);
    }
  }

  lemma {:induction false} TotalPermuted(w: Item -> nat, h: seq<Item>, g: seq<Item>)
    requires multiset(h) == multiset(g)
    ensures Total(w, h) == Total(w, g)
    decreases |h|
  {
    assert |h| == |multiset(h)| == |multiset(g)| == |g|;
    if h != [] {
      var front, x := h[..|h| - 1], h[|h| - 1];
      LastOut(h);
      var rest := TotalWithout(w, g, x);
      TotalPermuted(w, front, rest);
    }
  }

  lemma LastOut(h: seq<Item>)
    requires h != []
    ensures h[|h| - 1] in multiset(h) && multiset(h[..|h| - 1]) == multiset(h) - multiset{h[|h| - 1]}
  {
    assert h == h[..|h| - 1] + [h[|h| - 1]];
  }

  /** Taking one occurrence of `x` out takes its weight out. */
  lemma TotalWithout(w: Item -> nat, g: seq<Item>, x: Item) returns (rest: seq<Item>)
    requires x in multiset(g)
    ensures multiset(rest) == multiset(g) - multiset{x} && Total(w, g) == Total(w, rest) + w(x)
  {
    var i :| 0 <= i < |g| && g[i] == x;
    var before, after := g[..i], g[i + 1..];
    rest := before + after;
    SplitAt(g, i);
    WithoutOne(before, x, after);
    TotalWithoutOne(w, before, x, after);
  }

  lemma SplitAt(g: seq<Item>, i: nat)
    requires i < |g|
    ensures g == g[..i] + ([g[i]] + g[i + 1..])
  {
  }

  lemma WithoutOne(a: seq<Item>, x: Item, b: seq<Item>)
    ensures multiset(a + b) == multiset(a + ([x] + b)) - multiset{x}
  {
  }

  lemma TotalWithoutOne(w: Item -> nat, a: seq<Item>, x: Item, b: seq<Item>)
    ensures Total(w, a + ([x] + b)) == Total(w, a + b) + w(x)
  {
    TotalSplit(w, a, [x] + b);
    TotalSplit(w, [x], b);
    TotalSplit(w, a, b);
    assert Total(w, [x]) == Total(w, []) + w(x);
  }

  // ----- the state forgets order -----

  /** A list event of `x`'s author that no other one in the history is newer than. */
  ghost predicate Newest(cfg: Config, h: seq<Item>, x: Item, k: ListKind) {
    && x in h && IsList(cfg, x.event, k)
    && forall y :: y in h && y.event.pubkey == x.event.pubkey && IsList(cfg, y.event, k) ==>
         y.event.createdAt <= x.event.createdAt
  }

  /** Among the newest list events of an author, ties carry the same list. In particular this holds when same-author
      same-kind timestamps are distinct. */
  ghost predicate TiesAgree(cfg: Config, h: seq<Item>) {
    forall x, y, k :: Newest(cfg, h, x, k) && Newest(cfg, h, y, k) && x.event.pubkey == y.event.pubkey ==>
      SameContent(cfg, x.event, y.event, k)
  }

  /** The two events store the same list. */
  predicate SameContent(cfg: Config, a: Event, b: Event, k: ListKind)
    requires IsList(cfg, a, k) && IsList(cfg, b, k)
  {
    if k.Nip65? then cfg.relayList(a) == cfg.relayList(b)
    else Allowed(cfg, cfg.dmRelays(a).value) == Allowed(cfg, cfg.dmRelays(b).value)
  }

  lemma DistinctStampsAgree(cfg: Config, h: seq<Item>)
    requires forall x, y, k :: x in h && y in h && SameStamp(cfg, x.event, y.event, k) ==> x.event == y.event
    ensures TiesAgree(cfg, h)
  {
    forall x, y, k | Newest(cfg, h, x, k) && Newest(cfg, h, y, k) && x.event.pubkey == y.event.pubkey
      ensures SameContent(cfg, x.event, y.event, k)
    {
      assert SameStamp(cfg, x.event, y.event, k);
    }
  }

  /** Two list events of one author and kind with the same timestamp. */
  predicate SameStamp(cfg: Config, a: Event, b: Event, k: ListKind) {
    a.pubkey == b.pubkey && IsList(cfg, a, k) && IsList(cfg, b, k) && a.createdAt == b.createdAt
  }

  lemma {:induction false} KeysOf(cfg: Config, h: seq<Item>, user: PublicKey)
    ensures user in Replay(cfg, h) <==> exists x :: x in h && x.event.pubkey == user
  {
    if h != [] {
      KeysOf(cfg, h[..|h| - 1], user);
      assert h == h[..|h| - 1] + [h[|h| - 1]];
    }
  }

  lemma {:induction false} NeverFetched(cfg: Config, h: seq<Item>, user: PublicKey)
    ensures Entry(Replay(cfg, h), user).nip65Fetched == None && Entry(Replay(cfg, h), user).nip17Fetched == None
  {
    if h != [] {
      NeverFetched(cfg, h[..|h| - 1], user);
    }
  }

  lemma SameHistograms(cfg: Config, h: seq<Item>, g: seq<Item>, user: PublicKey)
    requires multiset(h) == multiset(g)
    ensures Entry(Replay(cfg, h), user).hints == Entry(Replay(cfg, g), user).hints
    ensures Entry(Replay(cfg, h), user).received == Entry(Replay(cfg, g), user).received
  {
    var r, s := Entry(Replay(cfg, h), user), Entry(Replay(cfg, g), user);
    forall url: RelayUrl
      ensures url in r.hints <==> url in s.hints
      ensures url in r.hints ==> r.hints[url] == s.hints[url]
      ensures url in r.received <==> url in s.received
      ensures url in r.received ==> r.received[url] == s.received[url]
    {
      HistogramsCount(cfg, h, user, url);
      HistogramsCount(cfg, g, user, url);
      TotalPermuted(Hints(cfg, user, url), h, g);
      TotalPermuted(Deliveries(cfg, user, url), h, g);
    }
  }

  lemma SameStoredList(cfg: Config, h: seq<Item>, g: seq<Item>, user: PublicKey, k: ListKind)
    requires multiset(h) == multiset(g) && TiesAgree(cfg, h)
    ensures SameList(Entry(Replay(cfg, h), user), Entry(Replay(cfg, g), user), k)
  {
    var i := StoredList(cfg, h, user, k);
    var j := StoredList(cfg, g, user, k);
    if i >= 0 {
      var j' := Find(g, h, i);
      assert Candidate(cfg, g, user, k, j');
      ChosenIsNewest(cfg, h, h, user, k, i);
    }
    if j >= 0 {
      var i' := Find(h, g, j);
      assert Candidate(cfg, h, user, k, i');
      ChosenIsNewest(cfg, g, h, user, k, j);
    }
    if i >= 0 && j >= 0 {
      assert SameContent(cfg, h[i].event, g[j].event, k);
    }
  }

  /** Being newest depends on the items alone. */
  lemma ChosenIsNewest(cfg: Config, g: seq<Item>, h: seq<Item>, user: PublicKey, k: ListKind, j: int)
    requires multiset(h) == multiset(g) && IsChosen(cfg, g, user, k, j)
    ensures Newest(cfg, h, g[j], k)
  {
    assert g[j] in multiset(h);
    forall y | y in h && y.event.pubkey == g[j].event.pubkey && IsList(cfg, y.event, k)
      ensures y.event.createdAt <= g[j].event.createdAt
    {
      assert y in multiset(g);
      var n :| 0 <= n < |g| && g[n] == y;
      assert Candidate(cfg, g, user, k, n);
    }
  }

  /** Where the item `h[i]` stands in a permutation `g` of `h`. */
  lemma Find(g: seq<Item>, h: seq<Item>, i: int) returns (j: int)
    requires multiset(h) == multiset(g) && 0 <= i < |h|
    ensures 0 <= j < |g| && g[j] == h[i]
  {
    assert h[i] in multiset(g);
    j :| 0 <= j < |g| && g[j] == h[i];
  }

  /** The routing state does not depend on the order in which events arrived. */
  lemma OrderIndependent(cfg: Config, h: seq<Item>, g: seq<Item>)
    requires multiset(h) == multiset(g) && TiesAgree(cfg, h)
    ensures Replay(cfg, h) == Replay(cfg, g)
  {
    var m, n := Replay(cfg, h), Replay(cfg, g);
    forall user: PublicKey
      ensures user in m <==> user in n
      ensures user in m ==> m[user] == n[user]
    {
      KeysOf(cfg, h, user);
      KeysOf(cfg, g, user);
      NeverFetched(cfg, h, user);
      NeverFetched(cfg, g, user);
      assert forall x :: x in h <==> x in multiset(h);
      assert forall x :: x in g <==> x in multiset(g);
      SameHistograms(cfg, h, g, user);
      SameStoredList(cfg, h, g, user, Nip65);
      SameStoredList(cfg, h, g, user, Nip17);
    }
  }

  /** The routing state is the same under every arrival order. */
  ghost predicate Unordered(cfg: Config, h: seq<Item>) {
    forall g :: multiset(g) == multiset(h) ==> Replay(cfg, g) == Replay(cfg, h)
  }

  /** That is so if and only if ties among newest lists agree. */
  lemma OrderIndependentIff(cfg: Config, h: seq<Item>)
    ensures Unordered(cfg, h) <==> TiesAgree(cfg, h)
  {
    if TiesAgree(cfg, h) {
      forall g | multiset(g) == multiset(h)
        ensures Replay(cfg, g) == Replay(cfg, h)
      {
        OrderIndependent(cfg, h, g);
      }
    } else {
      var x, y, k :| Newest(cfg, h, x, k) && Newest(cfg, h, y, k) && x.event.pubkey == y.event.pubkey
                     && !SameContent(cfg, x.event, y.event, k);
      var g := FirstOfTies(cfg, h, x, k);
      var f := FirstOfTies(cfg, h, y, k);
      assert Entry(Replay(cfg, g), x.event.pubkey) != Entry(Replay(cfg, f), x.event.pubkey);
    }
  }

  /** The order in which `x` arrives first stores the list of `x`. */
  lemma FirstOfTies(cfg: Config, h: seq<Item>, x: Item, k: ListKind) returns (g: seq<Item>)
    requires Newest(cfg, h, x, k)
    ensures multiset(g) == multiset(h) && HoldsList(cfg, Entry(Replay(cfg, g), x.event.pubkey), k, x.event)
  {
    var n :| 0 <= n < |h| && h[n] == x;
    g := [x] + h[..n] + h[n + 1..];
    assert h == h[..n] + [x] + h[n + 1..];
    assert multiset(g) == multiset(h);
    var i := StoredList(cfg, g, x.event.pubkey, k);
    assert Candidate(cfg, g, x.event.pubkey, k, 0);
    assert g[i] in multiset(h);
    assert g[i] in h;
  }

  // ----- runs with refreshes -----

  function WithoutStamps(r: UserRoutes): UserRoutes { r.(nip65Fetched := None, nip17Fetched := None) }

  lemma ProcessIgnoresStamps(cfg: Config, m: RouteMap, n: RouteMap, x: Item, user: PublicKey)
    requires forall u :: WithoutStamps(Entry(m, u)) == WithoutStamps(Entry(n, u))
    ensures WithoutStamps(Entry(Process(cfg, m, x), user)) == WithoutStamps(Entry(Process(cfg, n, x), user))
  {
    var u := x.event.pubkey;
    assert WithoutStamps(Entry(m, user)) == WithoutStamps(Entry(n, user));
    assert WithoutStamps(Entry(m, u)) == WithoutStamps(Entry(n, u));
    ApplyIgnoresStamps(cfg, Entry(m, u), x);
    ApplyIgnoresStamps(cfg, Entry(n, u), x);
  }

  lemma ApplyIgnoresStamps(cfg: Config, r: UserRoutes, x: Item)
    ensures WithoutStamps(Receive(cfg, Apply(cfg, r, x.event), x.source))
            == Receive(cfg, Apply(cfg, WithoutStamps(r), x.event), x.source)
  {
    ApplyKeepsStamps(cfg, r, x.event);
    ReceiveKeepsStamps(cfg, Apply(cfg, r, x.event), x.source);
  }

  lemma ApplyKeepsStamps(cfg: Config, r: UserRoutes, e: Event)
    ensures WithoutStamps(Apply(cfg, r, e)) == Apply(cfg, WithoutStamps(r), e)
  {
  }

  lemma ReceiveKeepsStamps(cfg: Config, r: UserRoutes, source: Option<RelayUrl>)
    ensures WithoutStamps(Receive(cfg, r, source)) == Receive(cfg, WithoutStamps(r), source)
  {
  }

  lemma StampOnlyStamps(m: RouteMap, user: PublicKey, k: ListKind, now: Option<nat>, u: PublicKey)
    ensures WithoutStamps(Entry(Stamp(m, user, k, now), u)) == WithoutStamps(Entry(m, u))
  {
  }

  /** The run and the history agree on everything but the debounce stamps. */
  ghost predicate Agree(m: RouteMap, n: RouteMap) {
    forall u :: WithoutStamps(Entry(m, u)) == WithoutStamps(Entry(n, u))
  }

  lemma AgreeProcess(cfg: Config, m: RouteMap, n: RouteMap, x: Item)
    requires Agree(m, n)
    ensures Agree(Process(cfg, m, x), Process(cfg, n, x))
  {
    forall u
      ensures WithoutStamps(Entry(Process(cfg, m, x), u)) == WithoutStamps(Entry(Process(cfg, n, x), u))
    {
      ProcessIgnoresStamps(cfg, m, n, x, u);
    }
  }

  lemma AgreeStamp(m: RouteMap, n: RouteMap, user: PublicKey, k: ListKind, now: Option<nat>)
    requires Agree(m, n)
    ensures Agree(Stamp(m, user, k, now), n)
  {
    forall u
      ensures WithoutStamps(Entry(Stamp(m, user, k, now), u)) == WithoutStamps(Entry(n, u))
    {
      StampOnlyStamps(m, user, k, now, u);
    }
  }

  lemma ReplaySnoc(cfg: Config, h: seq<Item>, x: Item)
    ensures Replay(cfg, h + [x]) == Process(cfg, Replay(cfg, h), x)
  {
    assert (h + [x])[..|h|] == h;
  }

  /** In every run of `process` and `refresh` calls the graph is, up to the stamps, the fold of what was processed. */
  lemma {:induction false} RunIsReplay(cfg: Config, ops: seq<Op>, interval: nat)
    ensures Agree(RunOps(cfg, ops, interval), Replay(cfg, Processed(cfg, ops, interval)))
  {
    if ops != [] {
      var before, op := ops[..|ops| - 1], ops[|ops| - 1];
      RunIsReplay(cfg, before, interval);
      AgreeOp(cfg, RunOps(cfg, before, interval), Processed(cfg, before, interval), op, interval);
    }
  }

  lemma AgreeOp(cfg: Config, m: RouteMap, h: seq<Item>, op: Op, interval: nat)
    requires Agree(m, Replay(cfg, h))
    ensures Agree(StepOp(cfg, m, op, interval), Replay(cfg, h + FedBy(m, op, interval)))
  {
    match op
    case Feed(x) =>
      AgreeProcess(cfg, m, Replay(cfg, h), x);
      ReplaySnoc(cfg, h, x);
    case Call(c) =>
      assert h + [] == h;
      if Contacts(m, c, interval) {
        var stamped := Stamp(m, c.user, c.k, c.now);
        AgreeStamp(m, Replay(cfg, h), c.user, c.k, c.now);
        if c.pulled.Some? {
          var x := Item(c.pulled.value, None);
          AgreeProcess(cfg, stamped, Replay(cfg, h), x);
          ReplaySnoc(cfg, h, x);
        }
      }
  }

  /** So after any run the stored list is that of the earliest processed among the newest parseable list events, whether
      it was fed in or pulled by a refresh; `i < 0` stands for "there is none". */
  lemma StoredListAfter(cfg: Config, ops: seq<Op>, interval: nat, user: PublicKey, k: ListKind) returns (i: int)
    ensures var h := Processed(cfg, ops, interval);
            var r := Entry(RunOps(cfg, ops, interval), user);
            && (i < 0 ==> (forall j :: !Candidate(cfg, h, user, k, j)) && HoldsNone(r, k))
            && (i >= 0 ==> IsChosen(cfg, h, user, k, i) && HoldsList(cfg, r, k, h[i].event))
  {
    var h := Processed(cfg, ops, interval);
    i := StoredList(cfg, h, user, k);
    RunIsReplay(cfg, ops, interval);
    assert WithoutStamps(Entry(RunOps(cfg, ops, interval), user)) == WithoutStamps(Entry(Replay(cfg, h), user));
  }

  /** And every histogram entry counts the occurrences in what was processed. */
  lemma HistogramsAfter(cfg: Config, ops: seq<Op>, interval: nat, user: PublicKey, url: RelayUrl)
    ensures var h := Processed(cfg, ops, interval);
            var r := Entry(RunOps(cfg, ops, interval), user);
            && Shows(r.hints, url, Total(Hints(cfg, user, url), h))
            && Shows(r.received, url, Total(Deliveries(cfg, user, url), h))
  {
    var h := Processed(cfg, ops, interval);
    HistogramsCount(cfg, h, user, url);
    RunIsReplay(cfg, ops, interval);
    assert WithoutStamps(Entry(RunOps(cfg, ops, interval), user)) == WithoutStamps(Entry(Replay(cfg, h), user));
  }

  /** Entries are never removed. */
  lemma StepKeepsKeys(cfg: Config, m: RouteMap, op: Op, interval: nat)
    ensures m.Keys <= StepOp(cfg, m, op, interval).Keys
    ensures forall x :: x in FedBy(m, op, interval) ==> x.event.pubkey in StepOp(cfg, m, op, interval)
  {
  }

  lemma {:induction false} ProcessedKeys(cfg: Config, ops: seq<Op>, interval: nat, x: Item)
    requires x in Processed(cfg, ops, interval)
    ensures x.event.pubkey in RunOps(cfg, ops, interval)
  {
    var before := ops[..|ops| - 1];
    StepKeepsKeys(cfg, RunOps(cfg, before, interval), ops[|ops| - 1], interval);
    if x in Processed(cfg, before, interval) {
      ProcessedKeys(cfg, before, interval, x);
    }
  }

  /** An event that is no newer than the stored list of its kind, or does not parse, leaves the entry alone. */
  lemma OldListIgnored(cfg: Config, r: UserRoutes, e: Event, k: ListKind)
    requires e.kind == EventKind(k) && (IsList(cfg, e, k) ==> !Newer(ListAt(r, k), e.createdAt))
    ensures Apply(cfg, r, e) == r
  {
  }

  /** In every run of `process` and `refresh` calls, processing an already processed list event again, with no source
      relay, changes nothing. */
  lemma ListReplayIsNoop(cfg: Config, ops: seq<Op>, interval: nat, n: nat, k: ListKind)
    requires n < |Processed(cfg, ops, interval)| && Processed(cfg, ops, interval)[n].event.kind == EventKind(k)
    ensures var m := RunOps(cfg, ops, interval);
            Process(cfg, m, Item(Processed(cfg, ops, interval)[n].event, None)) == m
  {
    var h, m := Processed(cfg, ops, interval), RunOps(cfg, ops, interval);
    var e := h[n].event;
    assert h[n] in h;
    ProcessedKeys(cfg, ops, interval, h[n]);
    var i := StoredListAfter(cfg, ops, interval, e.pubkey, k);
    if IsList(cfg, e, k) {
      assert Candidate(cfg, h, e.pubkey, k, n);
    }
    OldListIgnored(cfg, Entry(m, e.pubkey), e, k);
    assert m[e.pubkey := Entry(m, e.pubkey)] == m;
  }

  // ----- the failing side of order independence -----

  /** Two relay lists of one author with one timestamp and different relays. */
  function TiedList(author: PublicKey, url: RelayUrl): Item {
    Item(Event([], author, 7, RELAY_LIST, [[[0x72], url]], [], []), None)
  }

  /** A parser that reads the `r` tags of a list with one entry. */
  function OneEntry(): Config {
    Config((e: Event) => if |e.tags| == 1 && |e.tags[0]| == 2 then Some(map[e.tags[0][1] := ReadWrite]) else None,
           (e: Event) => None, (t: Text) => Some(t), (u: RelayUrl) => true)
  }

  /** The first of them to arrive stays. */
  lemma TiedListsDisagree(author: PublicKey, a: RelayUrl, b: RelayUrl)
    requires a != b
    ensures !Unordered(OneEntry(), [TiedList(author, a), TiedList(author, b)])
  {
    var cfg, x, y := OneEntry(), TiedList(author, a), TiedList(author, b);
    var h := [x, y];
    assert x in h && y in h && IsList(cfg, x.event, Nip65) && IsList(cfg, y.event, Nip65);
    assert Newest(cfg, h, x, Nip65) && Newest(cfg, h, y, Nip65);
    assert cfg.relayList(x.event) == Some(map[a := ReadWrite]) && cfg.relayList(y.event) == Some(map[b := ReadWrite]);
    assert a in map[a := ReadWrite] && a !in map[b := ReadWrite];
    assert !SameContent(cfg, x.event, y.event, Nip65);
    OrderIndependentIff(cfg, h);
  }
}
