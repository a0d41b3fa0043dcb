/** Which stored lists are stale, in what order they are offered for refresh, and how often relays are asked. */
module Freshness {
  import opened Bytes
  import opened Order
  import opened Routes
  import RouteFacts
  import opened Selection

  /** `PublicKeyStatus`. */
  datatype Status = Missing | Updated | Outdated(observedAt: nat)

  /** `Gossip::status`; an unreadable clock counts as stale. */
  function StatusOf(m: RouteMap, user: PublicKey, k: ListKind, ttl: nat, now: Option<nat>): Status {
    match ListAt(Entry(m, user), k)
    case None => Missing
    case Some(at) => if now.None? || Since(now.value, at) > ttl then Outdated(at) else Updated
  }

  /** After any run, the status says whether a readable list was processed and how old the newest one is: `Missing`
      without one, `Updated` up to and including its age `ttl`, `Outdated` beyond that or without a clock. */
  lemma StatusMeans(
    cfg: Config, ops: seq<Op>, interval: nat, user: PublicKey, k: ListKind, ttl: nat, now: Option<nat>) returns (i: int)
    ensures var h := Processed(cfg, ops, interval);
            var status := StatusOf(RunOps(cfg, ops, interval), user, k, ttl, now);
            && (i < 0 ==> (forall j :: !Candidate(cfg, h, user, k, j)) && status == Missing)
            && (i >= 0 ==>
                  && IsChosen(cfg, h, user, k, i)
                  && status == if now.Some? && now.value <= h[i].event.createdAt + ttl then Updated
                               else Outdated(h[i].event.createdAt))
  {
    i := RouteFacts.StoredListAfter(cfg, ops, interval, user, k);
  }

  /** `OutdatedKey`. */
  datatype OutdatedKey = OutdatedKey(key: PublicKey, observedAt: Option<nat>)

  /** Its `Ord`: missing first, then older first, then by key. */
  predicate KeyLeq(a: OutdatedKey, b: OutdatedKey) {
    match (a.observedAt, b.observedAt)
    case (None, None) => TextLeq(a.key, b.key)
    case (None, Some(_)) => true
    case (Some(_), None) => false
    case (Some(s), Some(t)) => s < t || (s == t && TextLeq(a.key, b.key))
  }

  /** The order is total, transitive and consistent with equality, as a `BTreeSet` needs it to be. */
  lemma KeyOrder()
    ensures TotalPreorder(KeyLeq)
    ensures forall a, b :: KeyLeq(a, b) && KeyLeq(b, a) ==> a == b
  {
    forall a, b
      ensures KeyLeq(a, b) || KeyLeq(b, a)
      ensures KeyLeq(a, b) && KeyLeq(b, a) ==> a == b
    {
      TextLeqTotal(a.key, b.key);
      if TextLeq(a.key, b.key) && TextLeq(b.key, a.key) {
        TextLeqAntisymmetric(a.key, b.key);
      }
    }
    forall a, b, c | KeyLeq(a, b) && KeyLeq(b, c)
      ensures KeyLeq(a, c)
    {
      if TextLeq(a.key, b.key) && TextLeq(b.key, c.key) {
        TextLeqTransitive(a.key, b.key, c.key);
      }
    }
  }

  /** The stale entry of a user, if any. */
  type Probe = PublicKey -> Option<OutdatedKey>

  /** The test inside the scan, at one instant. */
  function ProbeOf(m: RouteMap, k: ListKind, ttl: nat, now: nat): Probe {
    (user: PublicKey) =>
      match ListAt(Entry(m, user), k)
      case None => None
      case Some(at) => if Since(now, at) > ttl then Some(OutdatedKey(user, Some(at))) else None
  }

  /** Entries carry the key they were found under. */
  ghost predicate Keyed(st: Probe) { forall u :: st(u).Some? ==> st(u).value.key == u }

  /** The stale entries among `users`, in the order they are met. */
  function StaleAmong(st: Probe, users: seq<PublicKey>): seq<OutdatedKey> {
    if users == [] then []
    else
      var n := |users| - 1;
      StaleAmong(st, users[..n]) + match st(users[n]) case None => [] case Some(x) => [x]
  }

  lemma {:induction false} StaleAmongFacts(st: Probe, users: seq<PublicKey>)
    requires Keyed(st) && Distinct(users)
    ensures Distinct(StaleAmong(st, users))
    ensures forall x :: x in StaleAmong(st, users) <==> x.key in users && st(x.key) == Some(x)
  {
    if users != [] {
      var n := |users| - 1;
      StaleAmongFacts(st, users[..n]);
      assert users == users[..n] + [users[n]];
    }
  }

  /** The scan stopped after `n` users: at the end, or as soon as the batch was full. */
  predicate Scanned(st: Probe, limit: nat, order: seq<PublicKey>, n: nat, met: seq<OutdatedKey>) {
    && n <= |order| && met == StaleAmong(st, order[..n])
    && |met| <= limit && (n == |order| || |met| == limit)
  }

  /** The loop of `outdated`, over whichever order the hash map is iterated in. */
  method ScanStale(st: Probe, limit: nat, order: seq<PublicKey>) returns (met: seq<OutdatedKey>, n: nat)
    requires limit > 0
    ensures Scanned(st, limit, order, n, met)
  {
    met := [];
    n := 0;
    while n < |order|
      invariant 0 <= n <= |order| && |met| < limit && met == StaleAmong(st, order[..n])
    {
      assert order[..n + 1][..n] == order[..n];
      var entry := st(order[n]);
      if entry.Some? {
        met := met + [entry.value];
      }
      n := n + 1;
      if |met| >= limit {
        break;
      }
    }
  }

  /** Older observations first, and of equally old ones the smaller key. */
  ghost predicate OldestFirst(out: seq<OutdatedKey>) {
    forall i, j :: 0 <= i < j < |out| && out[i].observedAt.Some? && out[j].observedAt.Some? ==>
      || out[i].observedAt.value < out[j].observedAt.value
      || (out[i].observedAt.value == out[j].observedAt.value && Smaller(out[i].key, out[j].key))
  }

  lemma SortedOldestFirst(out: seq<OutdatedKey>)
    requires Sorted(KeyLeq, out) && Distinct(out)
    ensures OldestFirst(out)
  {
    forall i, j | 0 <= i < j < |out|
      ensures Smaller(out[i].key, out[j].key) <==> TextLeq(out[i].key, out[j].key) && out[i].key != out[j].key
    {
      StrictlyLess(out[i].key, out[j].key);
    }
  }

  /** `Gossip::outdated`: at most `limit` keys, each stale at this instant, oldest first; all of them when fewer than
      `limit` come back. */
  method OutdatedKeys(m: RouteMap, k: ListKind, ttl: nat, now: Option<nat>, limit: nat, order: seq<PublicKey>)
    returns (out: seq<OutdatedKey>)
    requires limit > 0 && Distinct(order) && Elems(order) == m.Keys
    ensures |out| <= limit && Distinct(out) && OldestFirst(out)
    ensures now.None? ==> out == []
    ensures forall x :: x in out ==>
              x.observedAt.Some? && StatusOf(m, x.key, k, ttl, now) == Outdated(x.observedAt.value)
    ensures |out| < limit && now.Some? ==>
              forall user :: StatusOf(m, user, k, ttl, now).Outdated? ==>
                OutdatedKey(user, Some(StatusOf(m, user, k, ttl, now).observedAt)) in out
  {
    if now.None? {
      return [];
    }
    var st := ProbeOf(m, k, ttl, now.value);
    var met, n := ScanStale(st, limit, order);
    out := Sort(KeyLeq, met);
    BatchFacts(st, limit, order, n, met);
    SortedOldestFirst(out);
    forall user | |out| < limit && StatusOf(m, user, k, ttl, now).Outdated?
      ensures OutdatedKey(user, Some(StatusOf(m, user, k, ttl, now).observedAt)) in out
    {
      assert user in Elems(order);
      assert st(user) == Some(OutdatedKey(user, Some(StatusOf(m, user, k, ttl, now).observedAt)));
    }
  }

  lemma {:induction false} BatchFacts(st: Probe, limit: nat, order: seq<PublicKey>, n: nat, met: seq<OutdatedKey>)
    requires Keyed(st) && Distinct(order) && Scanned(st, limit, order, n, met)
    ensures var out := Sort(KeyLeq, met);
            && |out| == |met| && Distinct(out) && Sorted(KeyLeq, out)
            && (forall x :: x in out ==> st(x.key) == Some(x))
            && (|out| < limit ==> forall u :: u in order && st(u).Some? ==> st(u).value in out)
  {
    StaleAmongFacts(st, order[..n]);
    KeyOrder();
    SortSorts(KeyLeq, met);
    SortPermutes(KeyLeq, met);
    DistinctFromMultiset(met, Sort(KeyLeq, met));
    if |met| < limit {
      assert order[..n] == order;
    }
  }

  // ----- the batch need not be the stalest one -----

  /** Everything stale among the users of the map. */
  ghost function AllStale(st: Probe, users: set<PublicKey>): set<OutdatedKey> {
    set u | u in users && st(u).Some? :: st(u).value
  }

  /** Every way of iterating the map yields the `limit` stalest entries. */
  ghost predicate AlwaysStalest(st: Probe, users: set<PublicKey>, limit: nat) {
    forall order: seq<PublicKey>, n: nat, met: seq<OutdatedKey> ::
      Distinct(order) && Elems(order) == users && Scanned(st, limit, order, n, met)
      ==> IsTopK(KeyLeq, AllStale(st, users), limit, Elems(met))
  }

  /** The early exit follows the map's order, not the age order: the batch is the stalest one under every iteration
      order if and only if all stale entries fit into it. */
  lemma StalestIff(st: Probe, users: set<PublicKey>, limit: nat)
    requires limit > 0 && Keyed(st)
    ensures AlwaysStalest(st, users, limit) <==> |AllStale(st, users)| <= limit
  {
    var all := AllStale(st, users);
    if |all| <= limit {
      forall order: seq<PublicKey>, n: nat, met: seq<OutdatedKey>
        | Distinct(order) && Elems(order) == users && Scanned(st, limit, order, n, met)
        ensures IsTopK(KeyLeq, all, limit, Elems(met))
      {
        FitsMeansAll(st, users, limit, order, n, met);
      }
    } else {
      var order, n, met := NewestFirst(st, users, limit);
      assert !IsTopK(KeyLeq, all, limit, Elems(met));
    }
  }

  /** What a scan met is stale, and is everything stale when it ran to the end. */
  lemma {:induction false} ScanCovers(
    st: Probe, users: set<PublicKey>, limit: nat, order: seq<PublicKey>, n: nat, met: seq<OutdatedKey>)
    requires Keyed(st) && Distinct(order) && Elems(order) == users && Scanned(st, limit, order, n, met)
    ensures Elems(met) <= AllStale(st, users) && |Elems(met)| == |met|
    ensures n == |order| ==> Elems(met) == AllStale(st, users)
  {
    StaleAmongFacts(st, order[..n]);
    ElemsSize(met);
    assert forall u :: u in order[..n] ==> u in Elems(order);
    if n == |order| {
      assert order[..n] == order;
      assert forall u :: u in users ==> u in order;
    }
  }

  lemma {:induction false} FitsMeansAll(
    st: Probe, users: set<PublicKey>, limit: nat, order: seq<PublicKey>, n: nat, met: seq<OutdatedKey>)
    requires Keyed(st) && Distinct(order) && Elems(order) == users && Scanned(st, limit, order, n, met)
    requires |AllStale(st, users)| <= limit
    ensures Elems(met) == AllStale(st, users)
  {
    ScanCovers(st, users, limit, order, n, met);
    if Elems(met) != AllStale(st, users) {
      SubsetSize(Elems(met), AllStale(st, users));
    }
  }

  /** An iteration order that starts with the youngest stale entry. */
  lemma NewestFirst(st: Probe, users: set<PublicKey>, limit: nat)
    returns (order: seq<PublicKey>, n: nat, met: seq<OutdatedKey>)
    requires limit > 0 && Keyed(st) && |AllStale(st, users)| > limit
    ensures Distinct(order) && Elems(order) == users && Scanned(st, limit, order, n, met)
    ensures !IsTopK(KeyLeq, AllStale(st, users), limit, Elems(met))
  {
    var all := AllStale(st, users);
    var top := Youngest(all);
    order := Starting(users, top.key);
    n, met := RunScan(st, limit, order);
    ScanCovers(st, users, limit, order, n, met);
    FirstIsMet(st, limit, order, n, met, top);
    if IsTopK(KeyLeq, all, limit, Elems(met)) {
      NotStalest(all, Elems(met), limit, top);
    }
  }

  /** A proper part of the stale entries that holds the youngest cannot be the stalest part. */
  lemma NotStalest(all: set<OutdatedKey>, part: set<OutdatedKey>, limit: nat, top: OutdatedKey)
    requires top in part && part <= all && |part| < |all| && (forall x :: x in all ==> KeyLeq(x, top))
    ensures !IsTopK(KeyLeq, all, limit, part)
  {
    assert part != all;
    var b :| b in all && b !in part;
    KeyOrder();
  }

  lemma Starting(users: set<PublicKey>, first: PublicKey) returns (order: seq<PublicKey>)
    requires first in users
    ensures Distinct(order) && Elems(order) == users && order[0] == first
  {
    var rest := Ascending(users - {first});
    order := [first] + rest;
    ConsElems(first, rest);
    ConsDistinct(first, rest);
    assert {first} + (users - {first}) == users;
  }

  lemma ConsDistinct<T>(x: T, s: seq<T>)
    requires Distinct(s) && x !in Elems(s)
    ensures Distinct([x] + s)
  {
    assert forall j :: 0 <= j < |s| ==> s[j] in Elems(s);
  }

  lemma ConsElems<T>(x: T, s: seq<T>)
    ensures Elems([x] + s) == {x} + Elems(s)
  {
  }

  lemma {:induction false} Youngest(s: set<OutdatedKey>) returns (top: OutdatedKey)
    requires s != {}
    ensures top in s && forall x :: x in s ==> KeyLeq(x, top)
    decreases |s|
  {
    KeyOrder();
    top :| top in s;
    if s != {top} {
      var t := Youngest(s - {top});
      if KeyLeq(top, t) {
        top := t;
      }
    }
  }

  /** The scan as a computation on values. */
  lemma RunScan(st: Probe, limit: nat, order: seq<PublicKey>) returns (n: nat, met: seq<OutdatedKey>)
    requires limit > 0
    ensures Scanned(st, limit, order, n, met)
  {
    n := 0;
    met := [];
    while n < |order| && |met| < limit
      invariant n <= |order| && |met| <= limit && met == StaleAmong(st, order[..n])
    {
      assert order[..n + 1][..n] == order[..n];
      if st(order[n]).Some? {
        met := met + [st(order[n]).value];
      }
      n := n + 1;
    }
  }

  lemma {:induction false} FirstIsMet(
    st: Probe, limit: nat, order: seq<PublicKey>, n: nat, met: seq<OutdatedKey>, top: OutdatedKey)
    requires limit > 0 && Keyed(st) && Distinct(order) && order != [] && Scanned(st, limit, order, n, met)
    requires st(top.key) == Some(top) && order[0] == top.key
    ensures top in Elems(met)
  {
    StaleAmongFacts(st, order[..n]);
    assert n > 0;
    assert order[..n][0] == top.key;
  }

  /** Two stale users, the first one staler. */
  function TwoStale(): RouteMap { map[[1] := NO_ROUTES.(nip65At := Some(0)), [2] := NO_ROUTES.(nip65At := Some(5))] }

  /** If the map happens to be iterated the other way round, a batch of one holds the fresher of the two. */
  lemma {:induction false} FresherComesFirst()
    ensures var st := ProbeOf(TwoStale(), Nip65, 10, 100);
            && Scanned(st, 1, [[2], [1]], 1, [OutdatedKey([2], Some(5))])
            && st([1]) == Some(OutdatedKey([1], Some(0)))
            && !IsTopK(KeyLeq, AllStale(st, {[1], [2]}), 1, {OutdatedKey([2], Some(5))})
  {
    var st := ProbeOf(TwoStale(), Nip65, 10, 100);
    var order: seq<PublicKey> := [[2], [1]];
    assert order[..1] == [[2]] && order[..1][..0] == [];
    assert StaleAmong(st, []) == [];
    assert StaleAmong(st, order[..1]) == [] + [OutdatedKey([2], Some(5))];
    var staler, fresher := OutdatedKey([1], Some(0)), OutdatedKey([2], Some(5));
    assert st([1]) == Some(staler) && st([2]) == Some(fresher);
    assert staler in AllStale(st, {[1], [2]}) && staler !in {fresher};
    assert !KeyLeq(fresher, staler);
  }

  // ----- debounce -----

  /** The `i`-th operation contacts relays for this list at clock reading `t`. */
  predicate ContactAt(cfg: Config, ops: seq<Op>, interval: nat, i: nat, user: PublicKey, k: ListKind, t: nat)
    requires i < |ops|
  {
    && ops[i].Call? && ops[i].call.user == user && ops[i].call.k == k && ops[i].call.now == Some(t)
    && Contacts(RunOps(cfg, ops[..i], interval), ops[i].call, interval)
  }

  lemma {:induction false} StampKept(
    cfg: Config, m: RouteMap, op: Op, interval: nat, user: PublicKey, k: ListKind, t: nat)
    requires interval > 0 && Fetched(Entry(m, user), k).Some? && t <= Fetched(Entry(m, user), k).value
    ensures var f := Fetched(Entry(StepOp(cfg, m, op, interval), user), k); f.Some? && t <= f.value
  {
    match op
    case Feed(x) => ProcessKeepsStamps(cfg, m, x, user, k);
    case Call(c) =>
      if Contacts(m, c, interval) && c.pulled.Some? {
        ProcessKeepsStamps(cfg, Stamp(m, c.user, c.k, c.now), Item(c.pulled.value, None), user, k);
      }
  }

  lemma ProcessKeepsStamps(cfg: Config, m: RouteMap, x: Item, user: PublicKey, k: ListKind)
    ensures Fetched(Entry(Process(cfg, m, x), user), k) == Fetched(Entry(m, user), k)
  {
  }

  lemma {:induction false} StampAfterContact(
    cfg: Config, ops: seq<Op>, interval: nat, i: nat, j: nat, user: PublicKey, k: ListKind, t: nat)
    requires interval > 0 && i < j <= |ops| && ContactAt(cfg, ops, interval, i, user, k, t)
    ensures var f := Fetched(Entry(RunOps(cfg, ops[..j], interval), user), k); f.Some? && t <= f.value
    decreases j
  {
    var before := RunOps(cfg, ops[..j - 1], interval);
    RunStep(cfg, ops, interval, j);
    if i + 1 < j {
      StampAfterContact(cfg, ops, interval, i, j - 1, user, k, t);
      StampKept(cfg, before, ops[j - 1], interval, user, k, t);
    } else {
      StampSet(cfg, before, ops[i].call, interval, t);
    }
  }

  lemma {:induction false} RunStep(cfg: Config, ops: seq<Op>, interval: nat, j: nat)
    requires 0 < j <= |ops|
    ensures RunOps(cfg, ops[..j], interval) == StepOp(cfg, RunOps(cfg, ops[..j - 1], interval), ops[j - 1], interval)
  {
    assert ops[..j][..j - 1] == ops[..j - 1] && ops[..j][j - 1] == ops[j - 1];
  }

  lemma StampSet(cfg: Config, m: RouteMap, c: RefreshCall, interval: nat, t: nat)
    requires Contacts(m, c, interval) && c.now == Some(t)
    ensures Fetched(Entry(AfterRefresh(cfg, m, c, interval), c.user), c.k) == Some(t)
  {
    if c.pulled.Some? {
      ProcessKeepsStamps(cfg, Stamp(m, c.user, c.k, c.now), Item(c.pulled.value, None), c.user, c.k);
    }
  }

  /** In every run, two contacts for the same list lie at least one interval apart on the clock: never twice within
      it, and never while the clock has stepped back. */
  lemma {:induction false} ContactsSpaced(
    cfg: Config, ops: seq<Op>, interval: nat, i: nat, j: nat, user: PublicKey, k: ListKind, t: nat, u: nat)
    requires interval > 0 && i < j < |ops|
    requires ContactAt(cfg, ops, interval, i, user, k, t) && ContactAt(cfg, ops, interval, j, user, k, u)
    ensures t + interval <= u
  {
    StampAfterContact(cfg, ops, interval, i, j, user, k, t);
  }

  /** The clock reading of the last contact for a list, from the calls alone: a call contacts relays when there are
      discovery relays and no earlier contact is less than an interval old. */
  function LastContact(ops: seq<Op>, interval: nat, user: PublicKey, k: ListKind): Option<nat> {
    if ops == [] then None
    else
      var before := LastContact(ops[..|ops| - 1], interval, user, k);
      match ops[|ops| - 1]
      case Feed(_) => before
      case Call(c) =>
        if c.user == user && c.k == k && c.now.Some? && DueAt(before, interval, c) then c.now else before
  }

  /** The call is due: it can ask somebody, and the clock is unreadable, or nobody was asked before, or an interval has
      passed since. */
  predicate DueAt(last: Option<nat>, interval: nat, c: RefreshCall) {
    c.discovery && (c.now.None? || last.None? || interval == 0 || last.value + interval <= c.now.value)
  }

  lemma DueIff(m: RouteMap, c: RefreshCall, interval: nat)
    ensures Contacts(m, c, interval) <==> DueAt(Fetched(Entry(m, c.user), c.k), interval, c)
  {
  }

  lemma FetchedStep(cfg: Config, m: RouteMap, op: Op, interval: nat, user: PublicKey, k: ListKind)
    ensures var last := Fetched(Entry(m, user), k);
            Fetched(Entry(StepOp(cfg, m, op, interval), user), k)
            == match op
               case Feed(_) => last
               case Call(c) =>
                 if c.user == user && c.k == k && c.now.Some? && DueAt(last, interval, c) then c.now else last
  {
    match op
    case Feed(x) => ProcessKeepsStamps(cfg, m, x, user, k);
    case Call(c) =>
      DueIff(m, c, interval);
      var stamped := Stamp(m, c.user, c.k, c.now);
      if c.pulled.Some? {
        ProcessKeepsStamps(cfg, stamped, Item(c.pulled.value, None), user, k);
      }
  }

  lemma {:induction false} FetchedIsLastContact(cfg: Config, ops: seq<Op>, interval: nat, user: PublicKey, k: ListKind)
    ensures Fetched(Entry(RunOps(cfg, ops, interval), user), k) == LastContact(ops, interval, user, k)
  {
    if ops != [] {
      var front := ops[..|ops| - 1];
      FetchedIsLastContact(cfg, front, interval, user, k);
      FetchedStep(cfg, RunOps(cfg, front, interval), ops[|ops| - 1], interval, user, k);
    }
  }

  /** In every run, a refresh contacts relays if and only if it is due by the calls before it. */
  lemma ContactsIff(cfg: Config, ops: seq<Op>, interval: nat, c: RefreshCall)
    ensures Contacts(RunOps(cfg, ops, interval), c, interval)
            <==> DueAt(LastContact(ops, interval, c.user, c.k), interval, c)
  {
    FetchedIsLastContact(cfg, ops, interval, c.user, c.k);
    DueIff(RunOps(cfg, ops, interval), c, interval);
  }
}
