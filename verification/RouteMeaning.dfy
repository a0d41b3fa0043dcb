/** What a run of the gossip graph takes in, from its operations alone, and the order DM relays are kept in. */
module RouteMeaning {
  import opened Bytes
  import opened Filters
  import opened Routes
  import opened Freshness

  // ----- DM relays -----

  /** `r` holds the relays of `urls` the policy allows, found at the positions `at`. */
  ghost predicate Passes(cfg: Config, urls: seq<RelayUrl>, at: seq<nat>, r: seq<RelayUrl>) {
    Picks(urls, at, r) && forall k: nat :: k < |urls| ==> (k in at <==> cfg.allowed(urls[k]))
  }

  ghost predicate InListOrder(cfg: Config, urls: seq<RelayUrl>, r: seq<RelayUrl>) {
    exists at: seq<nat> :: Passes(cfg, urls, at, r)
  }

  lemma InListOrderNext(cfg: Config, urls: seq<RelayUrl>, r: seq<RelayUrl>, u: RelayUrl)
    requires InListOrder(cfg, urls, r)
    ensures InListOrder(cfg, urls + [u], if cfg.allowed(u) then r + [u] else r)
  {
    var at: seq<nat> :| Passes(cfg, urls, at, r);
    PicksStep(urls, at, r, u);
    var longer: seq<nat> := if cfg.allowed(u) then at + [|urls|] else at;
    forall k: nat | k < |urls + [u]|
      ensures k in longer <==> cfg.allowed((urls + [u])[k])
    {
      if k == |urls| && cfg.allowed(u) {
        assert longer[k - |urls| + |at|] == k;
      }
    }
    assert Passes(cfg, urls + [u], longer, if cfg.allowed(u) then r + [u] else r);
  }

  lemma {:induction false} AllowedSnoc(cfg: Config, urls: seq<RelayUrl>, u: RelayUrl)
    ensures Allowed(cfg, urls + [u]) == if cfg.allowed(u) then Allowed(cfg, urls) + [u] else Allowed(cfg, urls)
  {
    if urls == [] {
      assert [u][1..] == [];
    } else {
      AllowedSnoc(cfg, urls[1..], u);
      assert (urls + [u])[1..] == urls[1..] + [u];
    }
  }

  /** The DM relays that are kept stand in the order of the list, which decides who is asked under a cap. */
  lemma {:induction false} AllowedAre(cfg: Config, urls: seq<RelayUrl>)
    ensures InListOrder(cfg, urls, Allowed(cfg, urls))
    decreases |urls|
  {
    if urls == [] {
      assert Passes(cfg, urls, [], []);
    } else {
      var front, u := urls[..|urls| - 1], urls[|urls| - 1];
      AllowedAre(cfg, front);
      InListOrderNext(cfg, front, Allowed(cfg, front), u);
      AllowedSnoc(cfg, front, u);
      assert front + [u] == urls;
    }
  }

  // ----- what a run takes in -----

  /** The `i`-th operation brings `x`: it was fed, or a refresh that was due pulled it. */
  ghost predicate Brings(ops: seq<Op>, interval: nat, i: nat, x: Item)
    requires i < |ops|
  {
    match ops[i]
    case Feed(y) => x == y
    case Call(c) =>
      && DueAt(LastContact(ops[..i], interval, c.user, c.k), interval, c)
      && c.pulled.Some? && x == Item(c.pulled.value, None)
  }

  ghost predicate BringsSome(ops: seq<Op>, interval: nat, i: nat)
    requires i < |ops|
  {
    exists x :: Brings(ops, interval, i, x)
  }

  /** `h` holds what the operations at the positions `at` bring, and the others bring nothing. */
  ghost predicate Intake(ops: seq<Op>, interval: nat, at: seq<nat>, h: seq<Item>) {
    && Rising(at, |ops|) && |at| == |h| && (forall i :: 0 <= i < |at| ==> Brings(ops, interval, at[i], h[i]))
    && forall k: nat :: k < |ops| && BringsSome(ops, interval, k) ==> k in at
  }

  ghost predicate TakenIn(ops: seq<Op>, interval: nat, h: seq<Item>) {
    exists at: seq<nat> :: Intake(ops, interval, at, h)
  }

  lemma BringsEarlier(ops: seq<Op>, op: Op, interval: nat, i: nat)
    requires i < |ops|
    ensures forall x :: Brings(ops + [op], interval, i, x) <==> Brings(ops, interval, i, x)
    ensures BringsSome(ops + [op], interval, i) <==> BringsSome(ops, interval, i)
  {
    assert (ops + [op])[..i] == ops[..i] && (ops + [op])[i] == ops[i];
    forall x
      ensures Brings(ops + [op], interval, i, x) <==> Brings(ops, interval, i, x)
    {
    }
  }

  lemma IntakeNext(ops: seq<Op>, op: Op, interval: nat, at: seq<nat>, h: seq<Item>, fed: seq<Item>)
    requires Intake(ops, interval, at, h) && |fed| <= 1
    requires forall x :: Brings(ops + [op], interval, |ops|, x) <==> x in fed
    ensures TakenIn(ops + [op], interval, h + fed)
  {
    var all, longer: seq<nat> := ops + [op], if fed == [] then at else at + [|ops|];
    RisingStep(at, |ops|);
    forall i | 0 <= i < |longer|
      ensures Brings(all, interval, longer[i], (h + fed)[i])
    {
      if i < |at| {
        BringsEarlier(ops, op, interval, at[i]);
        assert Brings(ops, interval, at[i], h[i]);
      } else {
        assert fed[0] in fed;
      }
    }
    forall k: nat | k < |all| && BringsSome(all, interval, k)
      ensures k in longer
    {
      if k < |ops| {
        BringsEarlier(ops, op, interval, k);
        assert k in at;
      } else {
        var x :| Brings(all, interval, k, x);
        assert x in fed && longer[|at|] == k;
      }
    }
    assert Intake(all, interval, longer, h + fed);
  }

  lemma FedIs(cfg: Config, ops: seq<Op>, op: Op, interval: nat)
    ensures var fed := FedBy(RunOps(cfg, ops, interval), op, interval);
            |fed| <= 1 && forall x :: Brings(ops + [op], interval, |ops|, x) <==> x in fed
  {
    assert (ops + [op])[..|ops|] == ops;
    if op.Call? {
      ContactsIff(cfg, ops, interval, op.call);
    }
  }

  /** In every run, what is folded into the graph is exactly what was fed to it and what due refreshes pulled, in
      order. */
  lemma {:induction false} ProcessedAre(cfg: Config, ops: seq<Op>, interval: nat)
    ensures TakenIn(ops, interval, Processed(cfg, ops, interval))
    decreases |ops|
  {
    if ops == [] {
      assert Intake(ops, interval, [], []);
    } else {
      var front, op := ops[..|ops| - 1], ops[|ops| - 1];
      ProcessedAre(cfg, front, interval);
      var at: seq<nat> :| Intake(front, interval, at, Processed(cfg, front, interval));
      FedIs(cfg, front, op, interval);
      IntakeNext(front, op, interval, at, Processed(cfg, front, interval),
                 FedBy(RunOps(cfg, front, interval), op, interval));
      assert front + [op] == ops;
    }
  }
}
