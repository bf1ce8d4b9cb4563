/**
 At-most-once funding: in a run of an idempotent, waiting SUT on the legacy event, without restores
 and with log queries that answer, at most one of all the transactions ever broadcast for an order
 succeeds, whatever authorizations the retries carry.
 */
module Funding {
  import opened Common
  import opened Evidence
  import opened Protocol
  import opened ChainTruth
  import opened NoPhantomCredit
  import T = Token
  import C = Chain
  import R = Reconciliation

  // ---------------------------------------------------------------- the runs meant

  predicate WaitingAndIdempotent(cfg: Config) { cfg.idempotent && !cfg.confirmWithoutWaiting }

  /** The log query of a payment answers, or its failing would change nothing because it is never made. */
  ghost predicate QueryAnswers(w: World, cfg: Config, id: OrderId, auth: T.Authorization, env: Env) {
    env.logsArrive || Pay(w, cfg, id, auth, env) == Pay(w, cfg, id, auth, env.(logsArrive := true))
  }

  /** No restore, and no log query fails. */
  ghost predicate Quiet(w: World, cfg: Config, step: Step) {
    && !step.Restore?
    && (step.PayStep? ==> QueryAnswers(w, cfg, step.id, step.auth, step.env))
  }

  ghost predicate QuietRun(w: World, cfg: Config, steps: seq<Step>)
    decreases |steps|
  {
    steps != [] ==> Quiet(w, cfg, steps[0]) && QuietRun(Next(w, cfg, steps[0]), cfg, steps[1..])
  }

  /** The token emitted the legacy event all along. */
  ghost predicate Legacy(c: C.Chain) {
    && c.genesis.eventMode == 0
    && forall i :: 0 <= i < |c.entries| ==> c.entries[i].Post().eventMode == 0
  }

  ghost predicate Known(c: C.Chain, tx: Hash) { tx in c.included && c.included[tx] < |c.entries| }

  ghost predicate Failed(c: C.Chain, tx: Hash) { Known(c, tx) && !c.entries[c.included[tx]].Succeeded() }

  ghost predicate Succeeded(c: C.Chain, tx: Hash) { Known(c, tx) && c.entries[c.included[tx]].Succeeded() }

  // ---------------------------------------------------------------- the invariant

  /** Every broadcast is its order's submitted transaction or has failed on chain. */
  ghost predicate SentFate(c: C.Chain, cfg: Config, s: Sent, o: Order) {
    && s.order.Ordinary?
    && o.amount == cfg.price
    && (o.submittedTx == Some(s.tx) || Failed(c, s.tx))
    && (Known(c, s.tx) ==> o.createdBlock <= c.entries[c.included[s.tx]].block)
  }

  ghost predicate OrderFate(c: C.Chain, sent: seq<Sent>, cfg: Config, id: OrderId, o: Order) {
    && o.createdBlock <= c.Height()
    && (id.Recovered? ==> o.paid)
    && (id.Ordinary? ==>
          && o.amount == cfg.price
          && (o.submittedTx.Some? ==> exists s :: s in sent && s.order == id && s.tx == o.submittedTx.value)
          && (o.paid ==> o.submittedTx.Some? && Succeeded(c, o.submittedTx.value)))
  }

  ghost predicate Fate(w: World, cfg: Config) {
    && (forall s :: s in w.sent ==> s.order in w.orders && SentFate(w.chain, cfg, s, w.orders[s.order]))
    && (forall id :: id in w.orders ==> OrderFate(w.chain, w.sent, cfg, id, w.orders[id]))
  }

  /** Between requests, an unpaid order with nothing pending has seen its last broadcast fail. */
  ghost predicate Resolved(c: C.Chain, id: OrderId, o: Order) {
    id.Ordinary? && !o.paid && o.pendingTx.None? && o.submittedTx.Some? ==> Failed(c, o.submittedTx.value)
  }

  ghost predicate AllResolved(w: World) {
    forall id :: id in w.orders ==> Resolved(w.chain, id, w.orders[id])
  }

  // ---------------------------------------------------------------- the chain moving on

  lemma {:induction false} LaterEntries(c: C.Chain, steps: seq<C.ChainStep>, i: nat)
    requires C.Valid(c) && |c.entries| <= i < |C.Run(c, steps).entries|
    ensures c.Height() <= C.Run(c, steps).entries[i].block
    decreases |steps|
  {
    if steps != [] {
      var d := C.Next(c, steps[0]);
      C.NextKeepsValid(c, steps[0]);
      C.RunKeepsValid(d, steps[1..]);
      if i < |d.entries| {
        assert d.entries[i] == C.Run(d, steps[1..]).entries[i];
      } else {
        LaterEntries(d, steps[1..], i);
      }
    }
  }

  lemma FateOfTxPersists(c: C.Chain, d: C.Chain, tx: Hash)
    requires C.Extends(c, d)
    ensures Failed(c, tx) ==> Failed(d, tx)
    ensures Succeeded(c, tx) ==> Succeeded(d, tx)
  {
    if Known(c, tx) {
      assert c.entries[c.included[tx]] == d.entries[d.included[tx]];
    }
  }

  lemma SentFateMoves(c: C.Chain, steps: seq<C.ChainStep>, cfg: Config, s: Sent, o: Order)
    requires C.Valid(c) && o.createdBlock <= c.Height() && SentFate(c, cfg, s, o)
    ensures SentFate(C.Run(c, steps), cfg, s, o)
  {
    var d := C.Run(c, steps);
    C.RunKeepsValid(c, steps);
    FateOfTxPersists(c, d, s.tx);
    if Known(d, s.tx) {
      var i := d.included[s.tx];
      if i >= |c.entries| {
        LaterEntries(c, steps, i);
      } else {
        hide C.Run;
        assert d.entries[i] == c.entries[i];
        assert C.EntryOk(c, i);
      }
    }
  }

  lemma OrderFateMoves(c: C.Chain, d: C.Chain, sent: seq<Sent>, cfg: Config, id: OrderId, o: Order)
    requires C.Extends(c, d) && OrderFate(c, sent, cfg, id, o)
    ensures OrderFate(d, sent, cfg, id, o)
    ensures Resolved(c, id, o) ==> Resolved(d, id, o)
  {
    if o.submittedTx.Some? {
      FateOfTxPersists(c, d, o.submittedTx.value);
    }
  }

  lemma FateMoves(w: World, cfg: Config, steps: seq<C.ChainStep>)
    requires C.Valid(w.chain) && Fate(w, cfg)
    ensures var v := w.(chain := C.Run(w.chain, steps));
            && Fate(v, cfg)
            && forall id :: id in w.orders && Resolved(w.chain, id, w.orders[id]) ==> Resolved(v.chain, id, w.orders[id])
  {
    var v := w.(chain := C.Run(w.chain, steps));
    C.RunKeepsValid(w.chain, steps);
    hide C.Run, C.Valid, SentFate, OrderFate, Resolved;
    forall s | s in w.sent ensures SentFate(v.chain, cfg, s, w.orders[s.order]) {
      CreatedInTime(w, cfg, s.order);
      SentFateMoves(w.chain, steps, cfg, s, w.orders[s.order]);
    }
    forall id | id in w.orders
      ensures OrderFate(v.chain, v.sent, cfg, id, w.orders[id])
      ensures Resolved(w.chain, id, w.orders[id]) ==> Resolved(v.chain, id, w.orders[id])
    {
      OrderFateMoves(w.chain, v.chain, w.sent, cfg, id, w.orders[id]);
    }
  }

  lemma CreatedInTime(w: World, cfg: Config, id: OrderId)
    requires Fate(w, cfg) && id in w.orders
    ensures w.orders[id].createdBlock <= w.chain.Height()
  {
    assert OrderFate(w.chain, w.sent, cfg, id, w.orders[id]);
  }

  // ---------------------------------------------------------------- a success is always recognized

  lemma LegacyBefore(c: C.Chain, i: nat)
    requires Legacy(c) && i <= |c.entries|
    ensures c.Before(i).eventMode == 0
  {
  }

  /** On the legacy event, a successful broadcast of an order is confirmed as soon as its receipt is read. */
  lemma SuccessIsConfirmed(c: C.Chain, cfg: Config, auth: T.Authorization, o: Order, tx: Hash)
    requires C.Valid(c) && Legacy(c) && !cfg.confirmWithoutWaiting && Succeeded(c, tx)
    requires c.entries[c.included[tx]].call == T.TransferWithAuthorization(auth)
    requires auth.to == cfg.merchant && auth.value == o.amount && o.createdBlock <= c.entries[c.included[tx]].block
    ensures LogIndex(c, cfg, auth, o, tx).Some?
  {
    hide LogIndex;
    LogIndexIsTrue(c, cfg, auth, o, tx);
    var i := c.included[tx];
    assert C.EntryOk(c, i);
    LegacyBefore(c, i);
    var e := c.entries[i];
    assert e.Events() == T.SettlementEvents(auth, 0);
  }

  lemma CallOfTx(w: World, cfg: Config, s: Sent)
    requires C.Valid(w.chain) && SentOk(w, cfg) && s in w.sent && Known(w.chain, s.tx)
    ensures w.chain.entries[w.chain.included[s.tx]].call == T.TransferWithAuthorization(s.auth)
  {
    assert C.EntryOk(w.chain, w.chain.included[s.tx]);
  }

  // ---------------------------------------------------------------- the requests

  /** An order whose last broadcast is about to be confirmed. */
  ghost predicate Waiting(w: World, cfg: Config, id: OrderId, auth: T.Authorization, tx: Hash) {
    && Inv(w, cfg) && Fate(w, cfg)
    && id in w.orders && id.Ordinary? && !w.orders[id].paid && w.orders[id].submittedTx == Some(tx)
    && Sent(id, tx, auth) in w.sent
  }

  /** Nothing that was resolved elsewhere is disturbed. */
  ghost predicate OthersStay(w: World, v: World, id: OrderId) {
    && v.orders.Keys == w.orders.Keys
    && forall other :: other in w.orders && other != id && Resolved(w.chain, other, w.orders[other]) ==>
         Resolved(v.chain, other, v.orders[other])
  }

  /** Only the slot fields, or a payment backed by a success, change: the fates stand. */
  lemma WithOrderKeepsFate(w: World, cfg: Config, id: OrderId, o: Order)
    requires Fate(w, cfg) && id in w.orders && id.Ordinary?
    requires o.amount == w.orders[id].amount && o.createdBlock == w.orders[id].createdBlock
    requires o.submittedTx == w.orders[id].submittedTx
    requires o.paid ==> o.submittedTx.Some? && Succeeded(w.chain, o.submittedTx.value)
    ensures Fate(WithOrder(w, id, o), cfg)
  {
    var v := WithOrder(w, id, o);
    assert OrderFate(w.chain, w.sent, cfg, id, w.orders[id]);
    forall s | s in v.sent ensures s.order in v.orders && SentFate(v.chain, cfg, s, v.orders[s.order]) {
      assert SentFate(w.chain, cfg, s, w.orders[s.order]);
    }
    assert OrderFate(v.chain, v.sent, cfg, id, o);
    forall other | other in v.orders ensures OrderFate(v.chain, v.sent, cfg, other, v.orders[other]) {
      hide OrderFate, SentFate;
    }
  }

  /** After confirming, the order is parked, paid by a success, or known to have failed. */
  lemma ConfirmedOrder(v: World, cfg: Config, id: OrderId, auth: T.Authorization, tx: Hash)
    requires Waiting(v, cfg, id, auth, tx) && WaitingAndIdempotent(cfg) && Legacy(v.chain)
    ensures LogIndex(v.chain, cfg, auth, v.orders[id], tx).Some? ==> Succeeded(v.chain, tx)
    ensures LogIndex(v.chain, cfg, auth, v.orders[id], tx).None? && Known(v.chain, tx) ==> Failed(v.chain, tx)
  {
    var s := Sent(id, tx, auth);
    assert SentFate(v.chain, cfg, s, v.orders[id]);
    hide LogIndex, OrderFate, Resolved, LedgerOk;
    if LogIndex(v.chain, cfg, auth, v.orders[id], tx).Some? {
      var l := DecisionIsLog(v.chain, cfg, auth, v.orders[id], tx);
      LogIndexIsTrue(v.chain, cfg, auth, v.orders[id], tx);
    } else if Succeeded(v.chain, tx) {
      CallOfTx(v, cfg, s);
      SuccessIsConfirmed(v.chain, cfg, auth, v.orders[id], tx);
    }
  }

  lemma ReceiptMeansKnown(c: C.Chain, token: Address, tx: Hash)
    ensures Receipt(c, token, tx).Some? <==> Known(c, tx)
  {
    hide EncodeReceipt;
  }

  lemma WaitingMoves(w: World, cfg: Config, id: OrderId, auth: T.Authorization, tx: Hash, steps: seq<C.ChainStep>)
    requires Waiting(w, cfg, id, auth, tx)
    ensures var v := w.(chain := C.Run(w.chain, steps)); Waiting(v, cfg, id, auth, tx) && OthersStay(w, v, id)
  {
    FateMoves(w, cfg, steps);
    ChainMovesKeepsInv(w, cfg, steps);
    hide C.Run, Inv, Fate, Resolved;
  }

  lemma ConfirmResolves(w: World, cfg: Config, id: OrderId, auth: T.Authorization, tx: Hash, env: Env)
    requires Waiting(w, cfg, id, auth, tx) && WaitingAndIdempotent(cfg) && env.logsArrive
    requires Legacy(Confirm(w, cfg, id, auth, tx, env).0.chain)
    ensures var v := Confirm(w, cfg, id, auth, tx, env).0;
            Fate(v, cfg) && OthersStay(w, v, id) && Resolved(v.chain, id, v.orders[id])
  {
    var v := w.(chain := C.Run(w.chain, env.during));
    WaitingMoves(w, cfg, id, auth, tx, env.during);
    ReceiptMeansKnown(v.chain, cfg.token, tx);
    var w' := Confirm(w, cfg, id, auth, tx, env).0;
    ConfirmOutcome(w, cfg, id, auth, tx, env);
    ConfirmBranch(w, cfg, id, auth, tx, env);
    hide Confirm, LogIndex, C.Run, Inv, Receipt, IdentityOf, Fate, OthersStay, Known;
    ConfirmedOrder(v, cfg, id, auth, tx);
    WithOrderKeepsFate(v, cfg, id, w'.orders[id]);
    WithOrderStays(w, v, id, w'.orders[id]);
  }

  lemma WithOrderStays(w: World, v: World, id: OrderId, o: Order)
    requires OthersStay(w, v, id) && id in w.orders
    ensures OthersStay(w, WithOrder(v, id, o), id)
  {
    hide Resolved;
  }

  /** With the log query answering, the slot is cleared only after the receipt was read and the decision made. */
  lemma ConfirmBranch(w: World, cfg: Config, id: OrderId, auth: T.Authorization, tx: Hash, env: Env)
    requires id in w.orders && env.logsArrive && !cfg.confirmWithoutWaiting
    ensures var v := w.(chain := C.Run(w.chain, env.during));
            var o' := Confirm(w, cfg, id, auth, tx, env).0.orders[id];
            o' == Parked(v.orders[id], auth, tx)
            || (Receipt(v.chain, cfg.token, tx).Some? && LogIndex(v.chain, cfg, auth, v.orders[id], tx).None? && o' == Cleared(v.orders[id]))
            || (LogIndex(v.chain, cfg, auth, v.orders[id], tx).Some?
                && o' == Credited(v.orders[id], id, IdentityOf(cfg, tx, LogIndex(v.chain, cfg, auth, v.orders[id], tx).value)))
  {
    hide LogIndex, QueriesLogs, Receipt, C.Run, IdentityOf;
  }

  lemma SubmitKeepsFates(c: C.Chain, tx: Hash, call: T.Call)
    ensures var d := C.Next(c, C.Submit(tx, call));
            && d.entries == c.entries && d.included == c.included && d.heads == c.heads
  {
  }

  /** A broadcast is made only once everything broadcast before for the order has failed. */
  lemma BroadcastWaits(w: World, cfg: Config, id: OrderId, auth: T.Authorization, env: Env)
    requires Inv(w, cfg) && Fate(w, cfg)
    requires id in w.orders && SafeToSubmit(w, cfg, auth, env)
    requires !w.orders[id].paid && w.orders[id].pendingTx.None? && Resolved(w.chain, id, w.orders[id])
    ensures Waiting(Broadcast(w, id, auth, env.tx), cfg, id, auth, env.tx) && OthersStay(w, Broadcast(w, id, auth, env.tx), id)
  {
    var v := Broadcast(w, id, auth, env.tx);
    BroadcastKeepsInv(w, cfg, id, auth, env);
    SubmitKeepsFates(w.chain, env.tx, T.TransferWithAuthorization(auth));
    assert v.sent[|w.sent|] == Sent(id, env.tx, auth);
    BroadcastKeepsFate(w, cfg, id, auth, env);
    hide Inv, Fate, C.Next, SafeToSubmit;
    FateIsOrdinary(w, cfg, id);
    hide Broadcast, OthersStay;
    BroadcastStays(w, cfg, id, auth, env);
  }

  lemma BroadcastStays(w: World, cfg: Config, id: OrderId, auth: T.Authorization, env: Env)
    requires id in w.orders
    ensures OthersStay(w, Broadcast(w, id, auth, env.tx), id)
  {
    SubmitKeepsFates(w.chain, env.tx, T.TransferWithAuthorization(auth));
    hide C.Next;
  }

  lemma FateIsOrdinary(w: World, cfg: Config, id: OrderId)
    requires Fate(w, cfg) && id in w.orders && !w.orders[id].paid
    ensures id.Ordinary?
  {
    assert OrderFate(w.chain, w.sent, cfg, id, w.orders[id]);
  }

  lemma BroadcastKeepsFate(w: World, cfg: Config, id: OrderId, auth: T.Authorization, env: Env)
    requires Inv(w, cfg) && Fate(w, cfg)
    requires id in w.orders && SafeToSubmit(w, cfg, auth, env)
    requires !w.orders[id].paid && w.orders[id].pendingTx.None? && Resolved(w.chain, id, w.orders[id])
    ensures Fate(Broadcast(w, id, auth, env.tx), cfg)
  {
    hide C.Next, SentFate, OrderFate, Resolved, LedgerOk, SentOk, C.Valid, Known;
    var v := Broadcast(w, id, auth, env.tx);
    SubmitKeepsFates(w.chain, env.tx, T.TransferWithAuthorization(auth));
    NotYetKnown(w, env.tx);
    hide Inv, SafeToSubmit;
    forall s | s in v.sent ensures s.order in v.orders && SentFate(v.chain, cfg, s, v.orders[s.order]) {
      BroadcastKeepsSentFate(w, v, cfg, id, auth, env.tx, s);
    }
    forall other | other in v.orders ensures OrderFate(v.chain, v.sent, cfg, other, v.orders[other]) {
      BroadcastKeepsOrderFate(w, v, cfg, id, auth, env.tx, other);
    }
  }

  lemma BroadcastKeepsOrderFate(w: World, v: World, cfg: Config, id: OrderId, auth: T.Authorization, tx: Hash, other: OrderId)
    requires Fate(w, cfg) && id in w.orders && !w.orders[id].paid && v == Broadcast(w, id, auth, tx) && other in v.orders
    requires v.chain.entries == w.chain.entries && v.chain.included == w.chain.included && v.chain.heads == w.chain.heads
    ensures OrderFate(v.chain, v.sent, cfg, other, v.orders[other])
  {
    hide C.Next, SentFate;
    assert OrderFate(w.chain, w.sent, cfg, other, w.orders[other]);
    if other == id {
      assert v.sent[|w.sent|] == Sent(id, tx, auth);
    }
  }

  lemma BroadcastKeepsSentFate(w: World, v: World, cfg: Config, id: OrderId, auth: T.Authorization, tx: Hash, s: Sent)
    requires Fate(w, cfg) && id in w.orders && !w.orders[id].paid && w.orders[id].pendingTx.None?
    requires Resolved(w.chain, id, w.orders[id]) && v == Broadcast(w, id, auth, tx) && !Known(w.chain, tx) && s in v.sent
    requires v.chain.entries == w.chain.entries && v.chain.included == w.chain.included
    ensures s.order in v.orders && SentFate(v.chain, cfg, s, v.orders[s.order])
  {
    hide C.Next;
    assert OrderFate(w.chain, w.sent, cfg, id, w.orders[id]);
    if s in w.sent {
      assert SentFate(w.chain, cfg, s, w.orders[s.order]);
    } else {
      assert s == Sent(id, tx, auth);
    }
  }

  lemma NotYetKnown(w: World, tx: Hash)
    requires C.Valid(w.chain) && tx !in w.chain.pool
    ensures !Known(w.chain, tx)
  {
    assert Known(w.chain, tx) ==> C.EntryOk(w.chain, w.chain.included[tx]);
  }

  lemma PayResolves(w: World, cfg: Config, id: OrderId, auth: T.Authorization, env: Env)
    requires Inv(w, cfg) && Fate(w, cfg) && AllResolved(w) && WaitingAndIdempotent(cfg) && env.logsArrive
    requires Legacy(Pay(w, cfg, id, auth, env).0.chain)
    ensures var v := Pay(w, cfg, id, auth, env).0; Fate(v, cfg) && AllResolved(v)
  {
    if id in w.orders && !w.orders[id].paid {
      var o := w.orders[id];
      assert OrderOk(w.chain, w.sent, cfg, id, o);
      FateIsOrdinary(w, cfg, id);
      if o.pendingTx.Some? {
        hide Confirm, C.Valid, Backed;
        ConfirmResolves(w, cfg, id, o.pendingAuthorization.value, o.pendingTx.value, env);
        StayingResolves(w, Pay(w, cfg, id, auth, env).0, id);
      } else {
        hide Confirm, Inv, SafeToSubmit, Broadcast, Fate;
        AttemptResolves(w, cfg, id, auth);
        if SafeToSubmit(w, cfg, auth, env) && Pay(w, cfg, id, auth, env) == Confirm(Broadcast(w, id, auth, env.tx), cfg, id, auth, env.tx, env) {
          assert Resolved(w.chain, id, w.orders[id]);
          BroadcastWaits(w, cfg, id, auth, env);
          ConfirmResolves(Broadcast(w, id, auth, env.tx), cfg, id, auth, env.tx, env);
          StayingResolves(w, Pay(w, cfg, id, auth, env).0, id);
        }
      }
    }
  }

  lemma StayingResolves(w: World, v: World, id: OrderId)
    requires AllResolved(w) && OthersStay(w, v, id) && id in v.orders && Resolved(v.chain, id, v.orders[id])
    ensures AllResolved(v)
  {
    forall other | other in v.orders ensures Resolved(v.chain, other, v.orders[other]) {
      assert other in w.orders && Resolved(w.chain, other, w.orders[other]);
    }
  }

  /** An attempt refused before broadcasting changes no fate. */
  lemma AttemptResolves(w: World, cfg: Config, id: OrderId, auth: T.Authorization)
    requires Fate(w, cfg) && AllResolved(w) && id in w.orders && id.Ordinary? && !w.orders[id].paid
    ensures var v := WithOrder(w, id, Attempted(w.orders[id], auth)); Fate(v, cfg) && AllResolved(v)
  {
    WithOrderKeepsFate(w, cfg, id, Attempted(w.orders[id], auth));
    hide Fate;
    assert Resolved(w.chain, id, w.orders[id]);
    var v := WithOrder(w, id, Attempted(w.orders[id], auth));
    forall other | other in v.orders ensures Resolved(v.chain, other, v.orders[other]) {
      assert Resolved(w.chain, other, w.orders[other]);
    }
  }

  // ---------------------------------------------------------------- the other steps

  lemma {:induction false} HealedOrders(orders: Ledger, credits: seq<R.OnChainCredit>, id: OrderId)
    requires id in Heal(orders, credits)
    ensures id.Ordinary? ==> id in orders && Heal(orders, credits)[id] == orders[id]
    ensures id.Recovered? ==>
              || (id in orders && Heal(orders, credits)[id] == orders[id])
              || exists c :: c in credits && Heal(orders, credits)[id] == RecoveredOrder(c)
  {
    hide RecoveredOrder, IdentityKey;
    if credits != [] {
      var last := credits[|credits| - 1];
      if id != RecoveredId(last) {
        HealedOrders(orders, credits[..|credits| - 1], id);
      } else {
        assert last in credits;
      }
    }
  }

  lemma {:induction false} HealKeepsOrders(orders: Ledger, credits: seq<R.OnChainCredit>, id: OrderId)
    requires id in orders
    ensures id in Heal(orders, credits)
  {
    hide RecoveredOrder, IdentityKey;
    if credits != [] {
      HealKeepsOrders(orders, credits[..|credits| - 1], id);
    }
  }

  /** Old ordinary orders stand, and no order becomes unresolved. */
  ghost predicate OnlyAdds(w: World, v: World) {
    && w.orders.Keys <= v.orders.Keys
    && (forall id :: id in w.orders && id.Ordinary? ==> v.orders[id] == w.orders[id])
    && (forall id :: id in v.orders && (id in w.orders ==> Resolved(w.chain, id, w.orders[id])) ==> Resolved(v.chain, id, v.orders[id]))
  }

  lemma HealResolves(w: World, cfg: Config, credits: seq<R.OnChainCredit>)
    requires Fate(w, cfg)
    ensures var v := w.(orders := Heal(w.orders, credits)); Fate(v, cfg) && OnlyAdds(w, v)
  {
    var v := w.(orders := Heal(w.orders, credits));
    forall s | s in v.sent ensures s.order in v.orders && SentFate(v.chain, cfg, s, v.orders[s.order]) {
      assert SentFate(w.chain, cfg, s, w.orders[s.order]);
      HealKeepsOrders(w.orders, credits, s.order);
      HealedOrders(w.orders, credits, s.order);
    }
    forall id | id in v.orders ensures OrderFate(v.chain, v.sent, cfg, id, v.orders[id]) {
      HealedOrders(w.orders, credits, id);
      if id in w.orders {
        assert OrderFate(w.chain, w.sent, cfg, id, w.orders[id]);
      }
    }
    HealOnlyAdds(w, credits);
  }

  lemma HealOnlyAdds(w: World, credits: seq<R.OnChainCredit>)
    ensures OnlyAdds(w, w.(orders := Heal(w.orders, credits)))
  {
    hide Heal;
    var v := w.(orders := Heal(w.orders, credits));
    forall id | id in w.orders ensures id in v.orders && (id.Ordinary? ==> v.orders[id] == w.orders[id]) {
      HealKeepsOrders(w.orders, credits, id);
      HealedOrders(w.orders, credits, id);
    }
    forall id | id in v.orders ensures id.Ordinary? ==> id in w.orders {
      HealedOrders(w.orders, credits, id);
    }
  }

  lemma QuoteResolves(w: World, cfg: Config, n: nat, now: int)
    requires Inv(w, cfg) && Fate(w, cfg)
    ensures var v := Quote(w, cfg, n, now); Fate(v, cfg) && OnlyAdds(w, v)
  {
    var v := Quote(w, cfg, n, now);
    hide C.Valid, OrderOk, SentOk;
    if v != w {
      assert Ordinary(n) !in w.orders;
      forall s | s in v.sent ensures s.order in v.orders && SentFate(v.chain, cfg, s, v.orders[s.order]) {
        assert SentFate(w.chain, cfg, s, w.orders[s.order]);
      }
      forall id | id in v.orders ensures OrderFate(v.chain, v.sent, cfg, id, v.orders[id]) {
        if id in w.orders {
          assert OrderFate(w.chain, w.sent, cfg, id, w.orders[id]);
        }
      }
    }
  }

  lemma NextResolves(w: World, cfg: Config, step: Step)
    requires Inv(w, cfg) && Fate(w, cfg) && AllResolved(w) && WaitingAndIdempotent(cfg) && Quiet(w, cfg, step)
    requires Legacy(Next(w, cfg, step).chain)
    ensures Fate(Next(w, cfg, step), cfg) && AllResolved(Next(w, cfg, step))
  {
    hide Pay, Gap, Heal, OrderFate, SentFate, Quote, C.Run;
    match step
    case QuoteStep(n, now) => QuoteResolves(w, cfg, n, now);
    case PayStep(id, auth, env) => PayResolves(w, cfg, id, auth, env.(logsArrive := true));
    case ChainMoves(steps) => FateMoves(w, cfg, steps);
    case ReconcileStep(fromBlock) =>
      if Gap(w.chain, cfg, w.orders, fromBlock).Some? {
        HealResolves(w, cfg, Gap(w.chain, cfg, w.orders, fromBlock).value);
      }
    case SetFairPrice(_) =>
    case Backup =>
  }

  lemma LegacyOfPrefix(c: C.Chain, d: C.Chain)
    requires C.Extends(c, d) && Legacy(d)
    ensures Legacy(c)
  {
    forall i | 0 <= i < |c.entries| ensures c.entries[i].Post().eventMode == 0 {
      assert d.entries[i] == c.entries[i];
    }
  }

  lemma {:induction false} RunResolves(w: World, cfg: Config, steps: seq<Step>)
    requires Inv(w, cfg) && Fate(w, cfg) && AllResolved(w) && WaitingAndIdempotent(cfg)
    requires QuietRun(w, cfg, steps)
    requires Legacy(Run(w, cfg, steps).chain)
    ensures Fate(Run(w, cfg, steps), cfg) && AllResolved(Run(w, cfg, steps))
    decreases |steps|
  {
    if steps != [] {
      var v := Next(w, cfg, steps[0]);
      NextKeepsInv(w, cfg, steps[0]);
      hide Inv, Next, Fate, AllResolved, Legacy, Quiet;
      RunKeepsInv(v, cfg, steps[1..]);
      LegacyOfPrefix(v.chain, Run(v, cfg, steps[1..]).chain);
      NextResolves(w, cfg, steps[0]);
      RunResolves(v, cfg, steps[1..]);
    }
  }

  // ---------------------------------------------------------------- the theorem

  /** Whether a run is of the kind the guarantee is for. */
  ghost predicate GuaranteedRun(cfg: Config, admin: Address, genesisHead: C.Head, steps: seq<Step>) {
    && ValidConfig(cfg) && WaitingAndIdempotent(cfg)
    && QuietRun(Launch(cfg, admin, genesisHead), cfg, steps)
    && Legacy(Run(Launch(cfg, admin, genesisHead), cfg, steps).chain)
  }

  lemma GuaranteedRunFate(cfg: Config, admin: Address, genesisHead: C.Head, steps: seq<Step>)
    requires GuaranteedRun(cfg, admin, genesisHead, steps)
    ensures var w := Run(Launch(cfg, admin, genesisHead), cfg, steps); Inv(w, cfg) && Fate(w, cfg) && AllResolved(w)
  {
    LaunchInv(cfg, admin, genesisHead);
    RunKeepsInv(Launch(cfg, admin, genesisHead), cfg, steps);
    RunResolves(Launch(cfg, admin, genesisHead), cfg, steps);
  }

  /**
   At most one of all the transactions ever broadcast for an order succeeds on chain, and one that
   succeeds is the transaction the order records: paid by it, or still pending on it.
   */
  lemma FundedAtMostOnce(cfg: Config, admin: Address, genesisHead: C.Head, steps: seq<Step>, s: Sent, t: Sent)
    requires GuaranteedRun(cfg, admin, genesisHead, steps)
    requires var w := Run(Launch(cfg, admin, genesisHead), cfg, steps);
             s in w.sent && t in w.sent && s.order == t.order && Succeeded(w.chain, s.tx) && Succeeded(w.chain, t.tx)
    ensures s == t
    ensures var w := Run(Launch(cfg, admin, genesisHead), cfg, steps);
            && s.order in w.orders
            && w.orders[s.order].submittedTx == Some(s.tx)
            && (w.orders[s.order].paid || w.orders[s.order].pendingTx == Some(s.tx))
  {
    GuaranteedRunFate(cfg, admin, genesisHead, steps);
    hide Run, Launch, OrderFate, Legacy;
    var w := Run(Launch(cfg, admin, genesisHead), cfg, steps);
    var o := w.orders[s.order];
    assert SentFate(w.chain, cfg, s, o) && SentFate(w.chain, cfg, t, o);
    OneOrderPerTransaction(w, cfg, s, t);
    assert Resolved(w.chain, s.order, o);
    assert OrderOk(w.chain, w.sent, cfg, s.order, o);
  }
}
