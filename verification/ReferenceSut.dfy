/**
 The reference SUT in place (src/psv/reference_sut/server.py): a dictionary of order objects whose fields the
 requests update. Every method is proved against the step functions of module Protocol, so what holds of their
 runs holds of it. The node's chain is a field the environment moves; the clock and its answers come in as Env.
 */
module ReferenceSut {
  import opened Common
  import opened Evidence
  import opened QuoteOption
  import T = Token
  import C = Chain
  import F = Confirmer
  import P = Protocol
  import R = Reconciliation

  class Order {
    var amount: nat
    var expiresAt: int
    var quotedFairPrice: nat
    var nonceSeen: Option<T.Nonce>
    var paid: bool
    var submittedTx: Option<Hash>
    var resource: Option<P.Resource>
    var createdBlock: nat
    var recovered: bool
    var settleAttempts: nat
    var pendingTx: Option<Hash>
    var pendingAuthorization: Option<T.Authorization>
    var settlementIdentity: Option<R.SettlementIdentity>

    function View(): P.Order
      reads this
    {
      P.Order(amount, expiresAt, quotedFairPrice, nonceSeen, paid, submittedTx, resource, createdBlock, recovered, settleAttempts,
              pendingTx, pendingAuthorization, settlementIdentity)
    }

    constructor (o: P.Order)
      ensures View() == o
    {
      amount, expiresAt, quotedFairPrice, nonceSeen := o.amount, o.expiresAt, o.quotedFairPrice, o.nonceSeen;
      paid, submittedTx, resource, createdBlock := o.paid, o.submittedTx, o.resource, o.createdBlock;
      recovered, settleAttempts, pendingTx := o.recovered, o.settleAttempts, o.pendingTx;
      pendingAuthorization, settlementIdentity := o.pendingAuthorization, o.identity;
    }
  }

  type Orders = map<P.OrderId, Order>

  /** No two ids share an order object. */
  ghost predicate Separate(orders: Orders) {
    forall a, b :: a in orders && b in orders && a != b ==> orders[a] != orders[b]
  }

  ghost function Contents(orders: Orders): P.Ledger
    reads orders.Values
  {
    map id | id in orders :: orders[id].View()
  }

  class ReferenceSut {
    const cfg: P.Config
    var orders: Orders
    var node: C.Chain
    var fairPrice: nat
    ghost var sent: seq<P.Sent>
    ghost var issued: set<P.OrderId>

    ghost predicate Valid()
      reads this
    {
      Separate(orders)
    }

    /** The world this SUT sits in; backups are in the hands of its callers. */
    ghost function World(): P.World
      reads this, orders.Values
    {
      P.World(node, Contents(orders), fairPrice, sent, [], issued)
    }

    constructor (config: P.Config, chain: C.Chain)
      ensures Valid() && cfg == config
      ensures World() == P.World(chain, map[], config.price, [], [], {})
    {
      cfg := config;
      orders, node, fairPrice := map[], chain, config.price;
      sent, issued := [], {};
    }

    /** A quote under a fresh random id: its terms are those of the order kept for it. */
    method Quote(n: nat, now: int) returns (offer: P.Offer)
      requires Valid() && P.Ordinary(n) !in issued
      modifies this
      ensures Valid() && World() == old(P.Quote(World(), cfg, n, now))
      ensures P.Ordinary(n) in orders
      ensures var o := World().orders[P.Ordinary(n)];
              offer == P.Offer(P.Ordinary(n), o.amount, cfg.merchant, cfg.token, cfg.chainId, o.expiresAt)
    {
      var order := new Order(P.Order(cfg.price, now + cfg.quoteTtl, fairPrice, None, false, None, None, node.Height(), false, 0, None, None, None));
      orders := orders[P.Ordinary(n) := order];
      issued := issued + {P.Ordinary(n)};
      offer := P.Offer(P.Ordinary(n), order.amount, cfg.merchant, cfg.token, cfg.chainId, order.expiresAt);
      assert Contents(orders) == old(Contents(orders))[P.Ordinary(n) := order.View()];
    }

    method Pay(id: P.OrderId, auth: T.Authorization, env: P.Env) returns (answer: P.Answer)
      requires Valid()
      modifies this, orders.Values
      ensures Valid() && orders == old(orders)
      ensures (World(), answer) == old(P.Pay(World(), cfg, id, auth, env))
    {
      hide P.Confirm, P.SafeToSubmit, P.Broadcast, P.Attempted, QuoteIsStale, C.Next;
      if id !in orders {
        return P.Refused(P.UnknownOrder);
      }
      var order := orders[id];
      if order.paid && cfg.idempotent {
        return P.AlreadySettled(order.submittedTx);
      }
      if order.pendingTx.Some? && order.pendingAuthorization.Some? && cfg.idempotent {
        answer := ConfirmOrder(id, order.pendingAuthorization.value, order.pendingTx.value, env);
        return;
      }
      if env.now > order.expiresAt {
        return P.Refused(P.QuoteExpired);
      }
      if cfg.repriceOnPay && QuoteIsStale(order.amount, fairPrice, cfg.tolerance) {
        return P.Refused(P.StaleQuote);
      }
      answer := Settle(id, auth, env);
    }

    /** The attempt proper: count it, run the guards, broadcast, confirm. */
    method Settle(id: P.OrderId, auth: T.Authorization, env: P.Env) returns (answer: P.Answer)
      requires Valid() && id in orders
      modifies this, orders.Values
      ensures Valid() && orders == old(orders)
      ensures old(!P.SafeToSubmit(World(), cfg, auth, env)) ==>
                answer == P.Raised && World() == old(P.WithOrder(World(), id, P.Attempted(World().orders[id], auth)))
      ensures old(P.SafeToSubmit(World(), cfg, auth, env)) ==>
                (World(), answer) == old(P.Confirm(P.Broadcast(World(), id, auth, env.tx), cfg, id, auth, env.tx, env))
    {
      hide P.Confirm, P.SafeToSubmit, C.Next;
      ghost var w := World();
      var safe := SafeToSubmit(auth, env);
      CountAttempt(id, auth);
      if !safe {
        return P.Raised;
      }
      BroadcastFor(id, auth, env.tx);
      assert World() == P.Broadcast(w, id, auth, env.tx);
      answer := ConfirmOrder(id, auth, env.tx, env);
    }

    method CountAttempt(id: P.OrderId, auth: T.Authorization)
      requires Valid() && id in orders
      modifies orders[id]
      ensures Valid() && World() == old(P.WithOrder(World(), id, P.Attempted(World().orders[id], auth)))
    {
      orders[id].nonceSeen := Some(auth.nonce);
      orders[id].settleAttempts := orders[id].settleAttempts + 1;
      OneChanged(old(Contents(orders)), orders, id);
    }

    /** Send the transaction and note its hash. */
    method BroadcastFor(id: P.OrderId, auth: T.Authorization, tx: Hash)
      requires Valid() && id in orders
      modifies this, orders[id]
      ensures Valid() && orders == old(orders)
      ensures World() == old(World().(chain := C.Next(node, C.Submit(tx, T.TransferWithAuthorization(auth))),
                                      sent := sent + [P.Sent(id, tx, auth)],
                                      orders := Contents(orders)[id := orders[id].View().(submittedTx := Some(tx))]))
    {
      hide C.Next;
      node := C.Next(node, C.Submit(tx, T.TransferWithAuthorization(auth)));
      sent := sent + [P.Sent(id, tx, auth)];
      orders[id].submittedTx := Some(tx);
      OneChanged(old(Contents(orders)), orders, id);
    }

    /** The safety policy and the calldata checks. */
    method SafeToSubmit(auth: T.Authorization, env: P.Env) returns (safe: bool)
      ensures safe <==> P.SafeToSubmit(World(), cfg, auth, env)
    {
      safe := && env.safe && env.tx !in node.pool
              && auth.from != T.ZERO && cfg.merchant != T.ZERO && auth.to == cfg.merchant
              && 0 < cfg.price && auth.value == cfg.price && auth.validAfter < auth.validBefore;
    }

    method Park(id: P.OrderId, auth: T.Authorization, tx: Hash)
      requires Valid() && id in orders
      modifies orders[id]
      ensures Valid() && World() == old(P.WithOrder(World(), id, P.Parked(World().orders[id], auth, tx)))
    {
      orders[id].pendingTx := Some(tx);
      orders[id].pendingAuthorization := Some(auth);
      OneChanged(old(Contents(orders)), orders, id);
    }

    method ClearSlot(id: P.OrderId)
      requires Valid() && id in orders
      modifies orders[id]
      ensures Valid() && World() == old(P.WithOrder(World(), id, P.Cleared(World().orders[id])))
    {
      orders[id].pendingTx := None;
      orders[id].pendingAuthorization := None;
      OneChanged(old(Contents(orders)), orders, id);
    }

    /** Unlock the resource and remember the settlement's identity. */
    method Unlock(id: P.OrderId, tx: Hash, index: Uint256)
      requires Valid() && id in orders && orders[id].View() == P.Cleared(orders[id].View())
      modifies orders[id]
      ensures Valid() && World() == old(P.WithOrder(World(), id, P.Credited(World().orders[id], id, P.IdentityOf(cfg, tx, index))))
    {
      hide P.IdentityOf;
      orders[id].paid := true;
      orders[id].resource := Some(P.Premium(id));
      orders[id].settlementIdentity := Some(P.IdentityOf(cfg, tx, index));
      OneChanged(old(Contents(orders)), orders, id);
    }

    /** _confirm: wait for the receipt; park the order while none is known. */
    method ConfirmOrder(id: P.OrderId, auth: T.Authorization, tx: Hash, env: P.Env) returns (answer: P.Answer)
      requires Valid() && id in orders
      modifies this, orders[id]
      ensures Valid() && orders == old(orders)
      ensures (World(), answer) == old(P.Confirm(World(), cfg, id, auth, tx, env))
    {
      hide C.Run, P.Receipt, P.Confirm, Decided, Contents, P.Parked, Separate;
      ghost var w := World();
      node := C.Run(node, env.during);
      ViewOf(orders, id);
      ConfirmCases(w, World(), cfg, id, auth, tx, env);
      var receipt := None;
      if !cfg.confirmWithoutWaiting {
        receipt := if env.receiptArrives then P.Receipt(node, cfg.token, tx) else None;
        if receipt.None? {
          Park(id, auth, tx);
          return P.SettlementPending(tx);
        }
      }
      answer := Decide(id, auth, tx, receipt, env);
    }

    /** The rest of _confirm: free the pending slot, then ask the confirmer. */
    method Decide(id: P.OrderId, auth: T.Authorization, tx: Hash, receipt: Option<RawReceipt>, env: P.Env) returns (answer: P.Answer)
      requires Valid() && id in orders
      requires receipt == if cfg.confirmWithoutWaiting then None else P.Receipt(node, cfg.token, tx)
      modifies orders[id]
      ensures Valid() && (World(), answer) == old(Decided(World(), orders[id].View(), cfg, id, auth, tx, env))
    {
      hide P.Receipt, P.QueriesLogs, P.LogIndex, P.IdentityOf, Contents, Separate;
      ghost var v, o := World(), orders[id].View();
      ViewOf(orders, id);
      ClearSlot(id);
      ViewOf(orders, id);
      assert orders[id].View() == P.Cleared(o) && World() == P.WithOrder(v, id, P.Cleared(o));
      var queries := P.QueriesLogs(node, cfg, auth, orders[id].View(), tx);
      if queries && !env.logsArrive {
        return P.Raised;
      }
      var index := AskConfirmer(id, auth, tx, receipt);
      if index.Some? {
        ViewOf(orders, id);
        Unlock(id, tx, index.value);
        CreditAfterClearing(v, o, id, P.IdentityOf(cfg, tx, index.value));
      }
      return P.Confirmed(tx, index.Some?);
    }

    /** The confirmer's answer on the node's receipt and logs. */
    method AskConfirmer(id: P.OrderId, auth: T.Authorization, tx: Hash, receipt: Option<RawReceipt>) returns (index: Option<Uint256>)
      requires id in orders
      requires receipt == if cfg.confirmWithoutWaiting then None else P.Receipt(node, cfg.token, tx)
      ensures index == P.LogIndex(node, cfg, auth, orders[id].View(), tx)
    {
      hide F.Decision, P.Receipt, P.FetchedTransfers, F.TruthOrder;
      var order := orders[id];
      var fromBlock := if tx in node.included && node.included[tx] < |node.entries| then node.entries[node.included[tx]].block else 0;
      var found := F.SettlementLogIndex(
        F.TruthOrder(cfg.token, cfg.merchant, auth, order.amount, tx, order.createdBlock), receipt,
        P.FetchedTransfers(node, cfg, auth.from, fromBlock));
      index := if found.Some? && 0 <= found.value <= UINT256_MAX then Some(found.value) else None;
    }

    // ------------------------------------------------------------ backup, restore, reconcile

    /** backup_ledger: a copy that later payments cannot reach. */
    method BackupLedger() returns (backup: Orders)
      requires Valid()
      ensures Contents(backup) == Contents(orders) && Separate(backup) && fresh(backup.Values)
    {
      backup := CopyOf(orders);
    }

    /** restore_ledger: the ledger becomes a copy of the backup, which stays the caller's own. */
    method RestoreLedger(backup: Orders)
      requires Separate(backup)
      modifies this
      ensures Valid() && fresh(orders.Values)
      ensures World() == old(World().(orders := Contents(backup)))
    {
      orders := CopyOf(backup);
    }

    /** The settlement identities of the paid orders. */
    method KnownIdentities() returns (known: set<R.LedgerEntry>)
      ensures R.KnownIdentities(known) == P.PaidIdentities(Contents(orders))
    {
      known := {};
      var rest := orders.Keys;
      ghost var seen: set<P.OrderId> := {};
      while rest != {}
        invariant rest + seen == orders.Keys && rest !! seen
        invariant forall id :: id in seen && orders[id].paid && orders[id].settlementIdentity.Some? ==>
                    R.Identity(orders[id].settlementIdentity.value) in known
        invariant forall e :: e in known ==>
                    e.Identity? && exists id :: id in seen && orders[id].paid && orders[id].settlementIdentity == Some(e.identity)
      {
        var id :| id in rest;
        if orders[id].paid && orders[id].settlementIdentity.Some? {
          known := known + {R.Identity(orders[id].settlementIdentity.value)};
        }
        rest, seen := rest - {id}, seen + {id};
      }
      KnownIsPaid(known, orders);
    }

    /** reconcile: report the merchant's credits the ledger does not know, and book them when healing is on. */
    method Reconcile(fromBlock: nat) returns (r: Result<seq<R.OnChainCredit>, R.Failure>)
      requires Valid()
      modifies this
      ensures Valid()
      ensures r.Ok? <==> old(P.Gap(node, cfg, Contents(orders), fromBlock)).Some?
      ensures r.Ok? ==> old(P.Gap(node, cfg, Contents(orders), fromBlock)) == Some(r.value)
      ensures World() == old(P.Reconcile(World(), cfg, fromBlock))
    {
      hide P.Gap, P.MerchantLogs, HexAddress, R.Unreconciled, R.Inconclusive, P.PaidIdentities, Contents, P.Heal, Separate;
      var known := KnownIdentities();
      var logs := EncodeLogs(cfg.token, P.MerchantLogs(node, cfg, fromBlock));
      r := R.FindUnreconciled(logs, known, cfg.chainId, Some(HexAddress(cfg.token)), Some(HexAddress(cfg.merchant)));
      GapOfSnapshot(node, cfg, Contents(orders), fromBlock);
      if r.Ok? && cfg.healing {
        Book(r.value);
      }
    }

    /** A recovered, paid order for every credit, in list order. */
    method Book(credits: seq<R.OnChainCredit>)
      requires Valid()
      modifies this`orders
      ensures Valid() && Contents(orders) == old(P.Heal(Contents(orders), credits))
    {
      hide P.RecoveredOrder, P.RecoveredId;
      for i := 0 to |credits|
        invariant Valid() && Contents(orders) == old(P.Heal(Contents(orders), credits[..i]))
      {
        var id := P.RecoveredId(credits[i]);
        ghost var before := Contents(orders);
        var order := new Order(P.RecoveredOrder(credits[i]));
        orders := orders[id := order];
        assert Contents(orders) == before[id := order.View()];
        assert credits[..i + 1][..i] == credits[..i];
      }
      assert credits[..|credits|] == credits;
    }
  }

  /** A copy with its own objects. */
  method CopyOf(orders: Orders) returns (copy: Orders)
    requires Separate(orders)
    ensures Contents(copy) == Contents(orders) && Separate(copy) && fresh(copy.Values)
  {
    copy := map[];
    var rest := orders.Keys;
    while rest != {}
      invariant rest <= orders.Keys && copy.Keys == orders.Keys - rest
      invariant forall id :: id in copy ==> fresh(copy[id]) && copy[id].View() == orders[id].View()
      invariant Separate(copy)
    {
      var id :| id in rest;
      var order := new Order(orders[id].View());
      copy := copy[id := order];
      rest := rest - {id};
    }
  }

  lemma KnownIsPaid(known: set<R.LedgerEntry>, orders: Orders)
    requires forall id :: id in orders && orders[id].paid && orders[id].settlementIdentity.Some? ==>
               R.Identity(orders[id].settlementIdentity.value) in known
    requires forall e :: e in known ==>
               e.Identity? && exists id :: id in orders && orders[id].paid && orders[id].settlementIdentity == Some(e.identity)
    ensures R.KnownIdentities(known) == P.PaidIdentities(Contents(orders))
  {
    forall identity ensures identity in R.KnownIdentities(known) <==> identity in P.PaidIdentities(Contents(orders)) {
      if identity in R.KnownIdentities(known) {
        assert R.Identity(identity) in known;
        var id :| id in orders && orders[id].paid && orders[id].settlementIdentity == Some(identity);
        assert Contents(orders)[id].paid && Contents(orders)[id].identity == Some(identity);
      }
      if identity in P.PaidIdentities(Contents(orders)) {
        var id :| id in orders && Contents(orders)[id].paid && Contents(orders)[id].identity == Some(identity);
        assert R.Identity(identity) in known;
      }
    }
  }

  /** The reconciliation's snapshot is the one module Protocol describes. */
  lemma GapOfSnapshot(c: C.Chain, cfg: P.Config, orders: P.Ledger, fromBlock: nat)
    ensures R.Expectation(Some(HexAddress(cfg.token))) == Common.Ok(Some(HexAddress(cfg.token)))
    ensures R.Expectation(Some(HexAddress(cfg.merchant))) == Common.Ok(Some(HexAddress(cfg.merchant)))
    ensures var logs := EncodeLogs(cfg.token, P.MerchantLogs(c, cfg, fromBlock));
              && P.Gap(c, cfg, orders, fromBlock) == R.Unreconciled(logs, P.PaidIdentities(orders), P.MerchantScope(cfg))
              && (P.Gap(c, cfg, orders, fromBlock).None? <==> R.Inconclusive(logs, P.MerchantScope(cfg)))
  {
    hide HexAddress, R.ExactHex, P.MerchantLogs, R.Inconclusive;
    R.ExactHexOfAddress(cfg.token);
    R.ExactHexOfAddress(cfg.merchant);
    HexAddressShape(cfg.token);
    HexAddressShape(cfg.merchant);
  }

  /** Changing one order object changes one entry of the ledger. */
  lemma OneChanged(before: P.Ledger, orders: Orders, id: P.OrderId)
    requires before.Keys == orders.Keys && id in orders
    requires forall other :: other in orders && other != id ==> orders[other].View() == before[other]
    ensures Contents(orders) == before[id := orders[id].View()]
  {
  }

  lemma ViewOf(orders: Orders, id: P.OrderId)
    requires id in orders
    ensures id in Contents(orders) && Contents(orders)[id] == orders[id].View()
  {
  }

  /** Crediting the cleared order is crediting the order. */
  lemma CreditAfterClearing(v: P.World, o: P.Order, id: P.OrderId, identity: R.SettlementIdentity)
    ensures P.WithOrder(P.WithOrder(v, id, P.Cleared(o)), id, P.Credited(P.Cleared(o), id, identity)) == P.WithOrder(v, id, P.Credited(o, id, identity))
  {
    assert v.orders[id := P.Cleared(o)][id := P.Credited(o, id, identity)] == v.orders[id := P.Credited(o, id, identity)];
  }

  /** The outcome of _confirm from the moment the slot is freed. */
  function Decided(v: P.World, o: P.Order, cfg: P.Config, id: P.OrderId, auth: T.Authorization, tx: Hash, env: P.Env): (P.World, P.Answer) {
    if P.QueriesLogs(v.chain, cfg, auth, P.Cleared(o), tx) && !env.logsArrive then (P.WithOrder(v, id, P.Cleared(o)), P.Raised)
    else
      match P.LogIndex(v.chain, cfg, auth, P.Cleared(o), tx)
      case Some(index) => (P.WithOrder(v, id, P.Credited(o, id, P.IdentityOf(cfg, tx, index))), P.Confirmed(tx, true))
      case None => (P.WithOrder(v, id, P.Cleared(o)), P.Confirmed(tx, false))
  }

  lemma ConfirmCases(w: P.World, v: P.World, cfg: P.Config, id: P.OrderId, auth: T.Authorization, tx: Hash, env: P.Env)
    requires id in w.orders && v == w.(chain := C.Run(w.chain, env.during))
    ensures P.Confirm(w, cfg, id, auth, tx, env)
         == if !cfg.confirmWithoutWaiting && !(env.receiptArrives && P.Receipt(v.chain, cfg.token, tx).Some?)
            then (P.WithOrder(v, id, P.Parked(v.orders[id], auth, tx)), P.SettlementPending(tx))
            else Decided(v, v.orders[id], cfg, id, auth, tx, env)
  {
    hide C.Run, P.Receipt, P.QueriesLogs, P.LogIndex, P.IdentityOf;
    QueryIgnoresSlot(v.chain, cfg, auth, v.orders[id], tx);
  }

  /** The confirmer does not look at the pending slot. */
  lemma QueryIgnoresSlot(c: C.Chain, cfg: P.Config, auth: T.Authorization, o: P.Order, tx: Hash)
    ensures P.QueriesLogs(c, cfg, auth, P.Cleared(o), tx) <==> P.QueriesLogs(c, cfg, auth, o, tx)
    ensures P.LogIndex(c, cfg, auth, P.Cleared(o), tx) == P.LogIndex(c, cfg, auth, o, tx)
  {
    hide F.Decision, F.ReceiptBlock, F.TruthOrder, P.Receipt, P.FetchedTransfers;
  }
}
