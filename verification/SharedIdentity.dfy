/**
 Two orders, one settlement. Ordinary orders never share a settlement, but a recovered order can name the one of
 an ordinary order: when healing books a landed payment whose order is still pending and the order is confirmed
 afterwards. That is the only way it happens.
 */
module SharedIdentity {
  import opened Common
  import opened Evidence
  import opened QuoteOption
  import opened Protocol
  import opened ChainTruth
  import opened NoPhantomCredit
  import opened Funding
  import opened LostLogQuery
  import opened Healing
  import T = Token
  import C = Chain
  import R = Reconciliation

  /** Two orders of a ledger, both paid by the same settlement. */
  ghost predicate Shares(orders: Ledger, a: OrderId, b: OrderId) {
    && a != b && a in orders && b in orders && orders[a].paid && orders[b].paid
    && orders[a].identity.Some? && orders[a].identity == orders[b].identity
  }

  // ---------------------------------------------------------------- one ordinary, one recovered

  lemma LedgerInv(w: World, cfg: Config, b: Ledger)
    requires Inv(w, cfg) && (b == w.orders || b in w.backups)
    ensures Inv(w.(orders := b), cfg)
  {
    hide OrderOk, C.Valid;
    var v := w.(orders := b);
    assert forall d :: LedgerOk(w, cfg, d) ==> LedgerOk(v, cfg, d);
  }

  lemma OrdinariesDiffer(w: World, cfg: Config, a: OrderId, b: OrderId)
    requires Inv(w, cfg) && a.Ordinary? && b.Ordinary?
    ensures !Shares(w.orders, a, b)
  {
    hide LedgerOk, SentOk, C.Valid, HexWord;
    if Shares(w.orders, a, b) {
      var s := OwnBroadcast(w, cfg, a);
      var t := OwnBroadcast(w, cfg, b);
      HexWordInjective(s.tx, t.tx);
      OneOrderPerTransaction(w, cfg, s, t);
    }
  }

  /** Sharing takes one ordinary and one recovered order. */
  lemma SharingKinds(w: World, cfg: Config, b: Ledger, x: OrderId, y: OrderId)
    requires Inv(w, cfg) && KeyedWorld(w, cfg) && (b == w.orders || b in w.backups) && Shares(b, x, y)
    ensures x.Ordinary? <==> y.Recovered?
  {
    LedgerInv(w, cfg, b);
    assert Keyed(cfg, b);
    hide Inv, IdentityKey, Normalized;
    if x.Ordinary? && y.Ordinary? {
      OrdinariesDiffer(w.(orders := b), cfg, x, y);
    }
  }

  // ---------------------------------------------------------------- how sharing starts

  /** A payment of order a leaves it paid by the settlement that recovered order b already books. */
  ghost predicate ConfirmsBooked(w: World, cfg: Config, step: Step, a: OrderId, b: OrderId) {
    && a.Ordinary? && b.Recovered? && step.PayStep? && step.id == a && !Shares(w.orders, a, b)
    && b in w.orders && w.orders[b].paid && w.orders[b].identity.Some?
    && var v := Pay(w, cfg, a, step.auth, step.env).0;
       a in v.orders && v.orders[a].paid && v.orders[a].identity == w.orders[b].identity
  }

  /** Two ledgers that agree but on one order. */
  ghost predicate AgreeBut(orders: Ledger, after: Ledger, id: OrderId) {
    orders.Keys == after.Keys && forall other :: other in orders && other != id ==> after[other] == orders[other]
  }

  lemma ConfirmChangesOne(w: World, cfg: Config, id: OrderId, auth: T.Authorization, tx: Hash, env: Env)
    requires id in w.orders
    ensures AgreeBut(w.orders, Confirm(w, cfg, id, auth, tx, env).0.orders, id)
  {
    ConfirmOutcome(w, cfg, id, auth, tx, env);
    hide Confirm, LogIndex, C.Run, Parked, Cleared, Credited, IdentityOf;
  }

  lemma BroadcastChangesOne(w: World, id: OrderId, auth: T.Authorization, tx: Hash)
    requires id in w.orders
    ensures id in Broadcast(w, id, auth, tx).orders && AgreeBut(w.orders, Broadcast(w, id, auth, tx).orders, id)
  {
    hide C.Next;
  }

  lemma PayChangesOne(w: World, cfg: Config, id: OrderId, auth: T.Authorization, env: Env)
    ensures AgreeBut(w.orders, Pay(w, cfg, id, auth, env).0.orders, id)
    ensures id in w.orders && w.orders[id].paid && (cfg.idempotent || env.now > w.orders[id].expiresAt) ==>
              Pay(w, cfg, id, auth, env).0.orders == w.orders
  {
    if id in w.orders {
      hide Confirm, C.Next, QuoteIsStale, SafeToSubmit, AgreeBut, Broadcast;
      var o := w.orders[id];
      if o.pendingTx.Some? && o.pendingAuthorization.Some? {
        ConfirmChangesOne(w, cfg, id, o.pendingAuthorization.value, o.pendingTx.value, env);
      }
      BroadcastChangesOne(w, id, auth, env.tx);
      var b := Broadcast(w, id, auth, env.tx);
      ConfirmChangesOne(b, cfg, id, auth, env.tx, env);
      AgreeTwice(w.orders, b.orders, Confirm(b, cfg, id, auth, env.tx, env).0.orders, id);
      AttemptAgrees(w.orders, id, Attempted(o, auth));
    }
  }

  lemma AgreeTwice(a: Ledger, b: Ledger, c: Ledger, id: OrderId)
    requires AgreeBut(a, b, id) && AgreeBut(b, c, id)
    ensures AgreeBut(a, c, id)
  {
  }

  lemma AttemptAgrees(orders: Ledger, id: OrderId, o: Order)
    requires id in orders
    ensures AgreeBut(orders, orders, id) && AgreeBut(orders, orders[id := o], id)
  {
  }

  /** What is booked names settlements no paid order named. */
  lemma BookingSharesNothing(orders: Ledger, healed: Ledger, credits: seq<R.OnChainCredit>, a: OrderId, b: OrderId)
    requires Booked(orders, healed, credits) && a.Ordinary? && b.Recovered?
    requires forall c :: c in credits ==> c.identity !in PaidIdentities(orders)
    ensures Shares(healed, a, b) <==> Shares(orders, a, b)
  {
    hide IdentityKey, HashOfText;
    if b in healed && b !in orders {
      var c :| c in credits && b == RecoveredId(c);
      assert healed[b] == RecoveredOrder(c);
    }
    if a in healed && a !in orders {
      var c :| c in credits && a == RecoveredId(c);
    }
  }

  /** A reconciliation leaves the ledger, or books the gap. */
  lemma ReconciledLedger(w: World, cfg: Config, fromBlock: nat)
    requires Inv(w, cfg) && Keyed(cfg, w.orders)
    ensures Gap(w.chain, cfg, w.orders, fromBlock).Some?
    ensures var v, credits := Next(w, cfg, ReconcileStep(fromBlock)), Gap(w.chain, cfg, w.orders, fromBlock).value;
            v.orders == w.orders || Booked(w.orders, v.orders, credits)
  {
    GapAnswers(w.chain, cfg, w.orders, fromBlock);
    if cfg.healing {
      HealedLedger(w, cfg, fromBlock);
    } else {
      NoHealingNoChange(w, cfg, fromBlock);
    }
    hide Inv, Gap, Keyed, Next, Booked;
  }

  lemma HealingSharesNothing(w: World, cfg: Config, fromBlock: nat, a: OrderId, b: OrderId)
    requires Inv(w, cfg) && KeyedWorld(w, cfg) && a.Ordinary? && b.Recovered?
    ensures Shares(Next(w, cfg, ReconcileStep(fromBlock)).orders, a, b) <==> Shares(w.orders, a, b)
  {
    hide Inv, Gap, Keyed, Next, PaidIdentities, Booked, Shares;
    ReconciledLedger(w, cfg, fromBlock);
    var credits := Gap(w.chain, cfg, w.orders, fromBlock).value;
    forall c | c in credits ensures c.identity !in PaidIdentities(w.orders) {
      GapUnknown(w.chain, cfg, w.orders, fromBlock, c);
    }
    if Booked(w.orders, Next(w, cfg, ReconcileStep(fromBlock)).orders, credits) {
      BookingSharesNothing(w.orders, Next(w, cfg, ReconcileStep(fromBlock)).orders, credits, a, b);
    }
  }

  lemma PayShares(w: World, cfg: Config, step: Step, a: OrderId, b: OrderId)
    requires Keyed(cfg, w.orders) && step.PayStep? && ClockRuns(step) && a.Ordinary? && b.Recovered?
    ensures Shares(Next(w, cfg, step).orders, a, b) && !Shares(w.orders, a, b) <==> ConfirmsBooked(w, cfg, step, a, b)
  {
    PayChangesOne(w, cfg, step.id, step.auth, step.env);
    hide Pay, IdentityKey, Normalized;
  }

  /** Among all steps but a restore, sharing starts exactly with the confirmation of what healing booked before. */
  lemma SharingStartsExactlyWhen(w: World, cfg: Config, step: Step, a: OrderId, b: OrderId)
    requires Inv(w, cfg) && KeyedWorld(w, cfg) && ClockRuns(step) && !step.Restore? && a.Ordinary? && b.Recovered?
    ensures Shares(Next(w, cfg, step).orders, a, b) && !Shares(w.orders, a, b) <==> ConfirmsBooked(w, cfg, step, a, b)
  {
    if step.PayStep? {
      PayShares(w, cfg, step, a, b);
    } else if step.ReconcileStep? {
      HealingSharesNothing(w, cfg, step.fromBlock, a, b);
    }
    hide Inv, Pay, Reconcile, C.Run;
  }

  // ---------------------------------------------------------------- over runs

  lemma {:induction false} RunLast(w: World, cfg: Config, steps: seq<Step>)
    requires steps != []
    ensures Run(w, cfg, steps) == Next(Run(w, cfg, steps[..|steps| - 1]), cfg, steps[|steps| - 1])
    decreases |steps|
  {
    hide Next;
    if |steps| > 1 {
      RunLast(Next(w, cfg, steps[0]), cfg, steps[1..]);
      assert steps[1..][..|steps| - 2] == steps[..|steps| - 1][1..];
    } else {
      assert steps[..0] == [] && steps[1..] == [];
    }
  }

  /** At step n of the run, order a was confirmed with the settlement that recovered order b already booked. */
  ghost predicate ConfirmedAfterBooking(w: World, cfg: Config, steps: seq<Step>, n: nat, a: OrderId, b: OrderId) {
    n < |steps| && ConfirmsBooked(Run(w, cfg, steps[..n]), cfg, steps[n], a, b)
  }

  lemma EarlierConfirmation(w: World, cfg: Config, steps: seq<Step>, n: nat, a: OrderId, b: OrderId)
    requires steps != [] && ConfirmedAfterBooking(w, cfg, steps[..|steps| - 1], n, a, b)
    ensures ConfirmedAfterBooking(w, cfg, steps, n, a, b)
  {
    hide ConfirmsBooked;
    assert steps[..|steps| - 1][..n] == steps[..n];
  }

  ghost predicate SharesNothing(w: World) {
    forall b, x, y :: (b == w.orders || b in w.backups) ==> !Shares(b, x, y)
  }

  /** In any run, restores included, sharing in the ledger or a backup has such a beginning. */
  lemma {:induction false} SharingBegan(w0: World, cfg: Config, steps: seq<Step>, ledger: Ledger, a: OrderId, b: OrderId)
    returns (n: nat)
    requires Inv(w0, cfg) && KeyedWorld(w0, cfg) && SharesNothing(w0) && forall s :: s in steps ==> ClockRuns(s)
    requires var w := Run(w0, cfg, steps); ledger == w.orders || ledger in w.backups
    requires Shares(ledger, a, b) && a.Ordinary? && b.Recovered?
    ensures ConfirmedAfterBooking(w0, cfg, steps, n, a, b)
    decreases |steps|
  {
    if steps == [] {
      assert false;
    } else {
      var init, last := steps[..|steps| - 1], steps[|steps| - 1];
      var w := Run(w0, cfg, init);
      assert last in steps && forall s :: s in init ==> s in steps;
      hide Inv, KeyedWorld, Shares, ConfirmsBooked, Next;
      RunLast(w0, cfg, steps);
      RunKeepsInv(w0, cfg, init);
      RunKeepsKeyed(w0, cfg, init);
      if ledger == w.orders || ledger in w.backups {
        n := SharingBegan(w0, cfg, init, ledger, a, b);
        EarlierConfirmation(w0, cfg, steps, n, a, b);
      } else {
        KeptLedgers(w, cfg, last, ledger);
        SharingStartsExactlyWhen(w, cfg, last, a, b);
        if Shares(w.orders, a, b) {
          n := SharingBegan(w0, cfg, init, w.orders, a, b);
          EarlierConfirmation(w0, cfg, steps, n, a, b);
        } else {
          n := |steps| - 1;
        }
      }
    }
  }

  /** A ledger that a step makes is the current one, and not by a restore. */
  lemma KeptLedgers(w: World, cfg: Config, step: Step, ledger: Ledger)
    requires var v := Next(w, cfg, step); ledger == v.orders || ledger in v.backups
    requires ledger != w.orders && ledger !in w.backups
    ensures !step.Restore? && ledger == Next(w, cfg, step).orders
  {
    hide Gap, Heal, Confirm, SafeToSubmit, C.Run, C.Next;
    if step.PayStep? {
      PayKeepsBackups(w, cfg, step.id, step.auth, step.env);
    }
    hide Pay;
  }

  /** An idempotent SUT never changes a paid order, except by a restore. */
  lemma PaidStays(w: World, cfg: Config, step: Step, id: OrderId)
    requires Inv(w, cfg) && Keyed(cfg, w.orders) && cfg.idempotent && !step.Restore? && id in w.orders && w.orders[id].paid
    ensures id in Next(w, cfg, step).orders && Next(w, cfg, step).orders[id] == w.orders[id]
  {
    hide Pay, Gap, Heal, Keyed, OrderOk, SentOk, C.Valid, C.Run;
    match step {
      case PayStep(other, auth, env) => PayChangesOne(w, cfg, other, auth, env);
      case ReconcileStep(fromBlock) => ReconciledLedger(w, cfg, fromBlock);
      case QuoteStep(n, _) => assert id == Ordinary(n) ==> id in w.issued;
      case _ =>
    }
    hide Inv, Reconcile;
  }

  lemma {:induction false} SharingStays(w: World, cfg: Config, steps: seq<Step>, a: OrderId, b: OrderId)
    requires Inv(w, cfg) && KeyedWorld(w, cfg) && cfg.idempotent && Shares(w.orders, a, b)
    requires forall s :: s in steps ==> ClockRuns(s) && !s.Restore?
    ensures Shares(Run(w, cfg, steps).orders, a, b)
    decreases |steps|
  {
    if steps != [] {
      assert steps[0] in steps;
      PaidStays(w, cfg, steps[0], a);
      PaidStays(w, cfg, steps[0], b);
      NextKeepsInv(w, cfg, steps[0]);
      NextKeepsKeyed(w, cfg, steps[0]);
      hide Inv, Next, KeyedWorld;
      SharingStays(Next(w, cfg, steps[0]), cfg, steps[1..], a, b);
    }
  }

  lemma {:induction false} RunSplit(w: World, cfg: Config, steps: seq<Step>, n: nat)
    requires n <= |steps|
    ensures Run(w, cfg, steps) == Run(Run(w, cfg, steps[..n]), cfg, steps[n..])
    decreases n
  {
    hide Next;
    if n == 0 {
      assert steps[..0] == [] && steps[0..] == steps;
    } else {
      RunSplit(Next(w, cfg, steps[0]), cfg, steps[1..], n - 1);
      assert steps[1..][..n - 1] == steps[..n][1..] && steps[1..][n - 1..] == steps[n..];
    }
  }

  lemma ConfirmationShares(w0: World, cfg: Config, steps: seq<Step>, n: nat, a: OrderId, b: OrderId)
    requires Inv(w0, cfg) && KeyedWorld(w0, cfg) && cfg.idempotent && forall s :: s in steps ==> ClockRuns(s) && !s.Restore?
    requires ConfirmedAfterBooking(w0, cfg, steps, n, a, b)
    ensures Shares(Run(w0, cfg, steps).orders, a, b)
  {
    hide Inv, Next, KeyedWorld, Shares;
    var w := Run(w0, cfg, steps[..n]);
    assert steps[n] in steps && (forall s :: s in steps[..n] ==> s in steps) && (forall s :: s in steps[n + 1..] ==> s in steps);
    RunKeepsInv(w0, cfg, steps[..n]);
    RunKeepsKeyed(w0, cfg, steps[..n]);
    SharingStartsExactlyWhen(w, cfg, steps[n], a, b);
    hide ConfirmsBooked;
    NextKeepsInv(w, cfg, steps[n]);
    NextKeepsKeyed(w, cfg, steps[n]);
    SharingStays(Next(w, cfg, steps[n]), cfg, steps[n + 1..], a, b);
    RunSplit(w0, cfg, steps, n);
    RunStep(w, cfg, steps, n);
  }

  lemma LaunchSharesNothing(cfg: Config, admin: Address, genesisHead: C.Head)
    requires ValidConfig(cfg)
    ensures var w := Launch(cfg, admin, genesisHead); Inv(w, cfg) && KeyedWorld(w, cfg) && SharesNothing(w)
  {
    LaunchInv(cfg, admin, genesisHead);
    hide Inv;
  }

  /**
   In any run two paid orders name the same settlement only if one is recovered and had booked it before the
   other, an ordinary one, was confirmed by it; for an idempotent SUT that is never restored, if and only if.
   */
  lemma SharesExactlyWhen(cfg: Config, admin: Address, genesisHead: C.Head, steps: seq<Step>, a: OrderId, b: OrderId)
    requires ValidConfig(cfg) && forall s :: s in steps ==> ClockRuns(s)
    ensures var w := Launch(cfg, admin, genesisHead);
            && (Shares(Run(w, cfg, steps).orders, a, b) ==>
                  exists n :: ConfirmedAfterBooking(w, cfg, steps, n, a, b) || ConfirmedAfterBooking(w, cfg, steps, n, b, a))
            && (cfg.idempotent && (forall s :: s in steps ==> !s.Restore?) ==>
                  (exists n :: ConfirmedAfterBooking(w, cfg, steps, n, a, b) || ConfirmedAfterBooking(w, cfg, steps, n, b, a)) ==>
                    Shares(Run(w, cfg, steps).orders, a, b))
  {
    LaunchSharesNothing(cfg, admin, genesisHead);
    var w := Launch(cfg, admin, genesisHead);
    hide Launch, Inv, KeyedWorld, ConfirmsBooked, Run, SharesNothing;
    var v := Run(w, cfg, steps);
    RunKeepsInv(w, cfg, steps);
    RunKeepsKeyed(w, cfg, steps);
    if Shares(v.orders, a, b) {
      SharingKinds(v, cfg, v.orders, a, b);
      if a.Ordinary? {
        var n := SharingBegan(w, cfg, steps, v.orders, a, b);
      } else {
        var n := SharingBegan(w, cfg, steps, v.orders, b, a);
      }
    }
    if cfg.idempotent && forall s :: s in steps ==> !s.Restore? {
      forall n: nat | ConfirmedAfterBooking(w, cfg, steps, n, a, b) || ConfirmedAfterBooking(w, cfg, steps, n, b, a)
        ensures Shares(v.orders, a, b)
      {
        if ConfirmedAfterBooking(w, cfg, steps, n, a, b) {
          ConfirmationShares(w, cfg, steps, n, a, b);
        } else {
          ConfirmationShares(w, cfg, steps, n, b, a);
        }
      }
    }
  }

  // ---------------------------------------------------------------- healing before a confirmation

  lemma DecidedLogIsLive(c: C.Chain, cfg: Config, auth: T.Authorization, o: Order, tx: Hash, fromBlock: nat)
    requires C.Valid(c) && LogIndex(c, cfg, auth, o, tx).Some?
    requires Known(c, tx) ==> fromBlock <= c.entries[c.included[tx]].block
    ensures Known(c, tx)
    ensures IdentityOf(cfg, tx, LogIndex(c, cfg, auth, o, tx).value) in LiveIdentities(c, cfg, fromBlock)
  {
    hide LogIndex, MerchantLogs, IdentityOf, C.AllLogs;
    var l := DecisionIsLog(c, cfg, auth, o, tx);
    C.LogsAreEvents(c, l);
    var i: nat, j: nat :| C.IsLog(c, l, i, j);
    assert C.EntryOk(c, i);
    hide C.Valid;
    MerchantTransfers(c, cfg, fromBlock, l);
  }

  /** A payment of a pending order whose settlement can be confirmed confirms it. */
  lemma PendingIsConfirmed(w: World, cfg: Config, id: OrderId, auth: T.Authorization, env: Env)
    requires C.Valid(w.chain) && WaitingAndIdempotent(cfg) && id in w.orders && !w.orders[id].paid
    requires w.orders[id].pendingTx.Some? && w.orders[id].pendingAuthorization.Some?
    requires LogIndex(w.chain, cfg, w.orders[id].pendingAuthorization.value, w.orders[id], w.orders[id].pendingTx.value).Some?
    requires env.during == [] && env.receiptArrives && env.logsArrive
    ensures var o, tx := w.orders[id], w.orders[id].pendingTx.value;
            var index := LogIndex(w.chain, cfg, o.pendingAuthorization.value, o, tx).value;
            Pay(w, cfg, id, auth, env).0.orders == w.orders[id := Credited(o, id, IdentityOf(cfg, tx, index))]
  {
    var o, tx := w.orders[id], w.orders[id].pendingTx.value;
    hide Pay, Confirm, LogIndex, Receipt, IdentityOf, C.Run, C.Valid, Succeeded, Credited;
    PayResumes(w, cfg, id, auth, env);
    IndexMeansSuccess(w, cfg, o.pendingAuthorization.value, o, tx);
    SuccessHasReceipt(w.chain, cfg, tx);
    RunNothing(w.chain);
    ConfirmDecides(w, cfg, id, o.pendingAuthorization.value, tx, env);
  }

  /** With receipt and logs at hand, the confirmer's index settles the order. */
  lemma ConfirmDecides(w: World, cfg: Config, id: OrderId, auth: T.Authorization, tx: Hash, env: Env)
    requires id in w.orders && env.receiptArrives && env.logsArrive && C.Run(w.chain, env.during) == w.chain
    requires Receipt(w.chain, cfg.token, tx).Some? && LogIndex(w.chain, cfg, auth, w.orders[id], tx).Some?
    ensures var index := LogIndex(w.chain, cfg, auth, w.orders[id], tx).value;
            Confirm(w, cfg, id, auth, tx, env).0.orders == w.orders[id := Credited(w.orders[id], id, IdentityOf(cfg, tx, index))]
  {
    hide LogIndex, Receipt, QueriesLogs, IdentityOf, C.Run, Credited;
  }

  lemma RunNothing(c: C.Chain)
    ensures C.Run(c, []) == c
  {
  }

  lemma SuccessHasReceipt(c: C.Chain, cfg: Config, tx: Hash)
    requires Succeeded(c, tx)
    ensures Receipt(c, cfg.token, tx).Some?
  {
    ReceiptMeansKnown(c, cfg.token, tx);
  }

  lemma PayResumes(w: World, cfg: Config, id: OrderId, auth: T.Authorization, env: Env)
    requires cfg.idempotent && id in w.orders && !w.orders[id].paid
    requires w.orders[id].pendingTx.Some? && w.orders[id].pendingAuthorization.Some?
    ensures Pay(w, cfg, id, auth, env) == Confirm(w, cfg, id, w.orders[id].pendingAuthorization.value, w.orders[id].pendingTx.value, env)
  {
    hide Confirm;
  }

  /**
   The failing family: healing runs while a landed payment is pending. Its later confirmation then leaves two
   paid orders for the one settlement.
   */
  lemma HealThenConfirmShares(w: World, cfg: Config, id: OrderId, fromBlock: nat, auth: T.Authorization, env: Env) returns (b: OrderId)
    requires Inv(w, cfg) && Keyed(cfg, w.orders) && cfg.healing && WaitingAndIdempotent(cfg)
    requires id in w.orders && !w.orders[id].paid && w.orders[id].pendingTx.Some? && w.orders[id].pendingAuthorization.Some?
    requires LogIndex(w.chain, cfg, w.orders[id].pendingAuthorization.value, w.orders[id], w.orders[id].pendingTx.value).Some?
    requires var tx := w.orders[id].pendingTx.value; Known(w.chain, tx) ==> fromBlock <= w.chain.entries[w.chain.included[tx]].block
    requires env.during == [] && env.receiptArrives && env.logsArrive
    ensures Shares(Next(Next(w, cfg, ReconcileStep(fromBlock)), cfg, PayStep(id, auth, env)).orders, id, b)
  {
    var o, tx := w.orders[id], w.orders[id].pendingTx.value;
    assert C.Valid(w.chain);
    hide LogIndex, LiveIdentities, Inv, Keyed, IdentityOf, Next, C.Valid, Known, PaidIdentities;
    DecidedLogIsLive(w.chain, cfg, o.pendingAuthorization.value, o, tx, fromBlock);
    var identity := IdentityOf(cfg, tx, LogIndex(w.chain, cfg, o.pendingAuthorization.value, o, tx).value);
    HealingBooks(w, cfg, fromBlock, id, identity);
    var v := Next(w, cfg, ReconcileStep(fromBlock));
    b := PaidBy(v.orders, identity);
    ConfirmingShares(v, cfg, id, b, auth, env);
  }

  lemma PaidBy(orders: Ledger, identity: R.SettlementIdentity) returns (b: OrderId)
    requires identity in PaidIdentities(orders)
    ensures b in orders && orders[b].paid && orders[b].identity == Some(identity)
  {
    b :| b in orders && orders[b].paid && orders[b].identity.Some? && orders[b].identity.value == identity;
  }

  lemma HealingBooks(w: World, cfg: Config, fromBlock: nat, id: OrderId, identity: R.SettlementIdentity)
    requires Inv(w, cfg) && Keyed(cfg, w.orders) && cfg.healing && id in w.orders
    requires identity in LiveIdentities(w.chain, cfg, fromBlock)
    ensures var v := Next(w, cfg, ReconcileStep(fromBlock));
            id in v.orders && v.orders[id] == w.orders[id] && v.chain == w.chain && identity in PaidIdentities(v.orders)
  {
    hide Gap, Keyed, Heal, LiveIdentities, Worth, PaidIdentities, SentOk, LedgerOk, C.Valid;
    GapAnswers(w.chain, cfg, w.orders, fromBlock);
    ReconcileClosesGap(w, cfg, fromBlock);
    hide Inv;
  }

  lemma ConfirmingShares(v: World, cfg: Config, id: OrderId, b: OrderId, auth: T.Authorization, env: Env)
    requires C.Valid(v.chain) && WaitingAndIdempotent(cfg) && id in v.orders && !v.orders[id].paid
    requires v.orders[id].pendingTx.Some? && v.orders[id].pendingAuthorization.Some?
    requires var o, tx := v.orders[id], v.orders[id].pendingTx.value;
             var index := LogIndex(v.chain, cfg, o.pendingAuthorization.value, o, tx);
             && index.Some?
             && b in v.orders && v.orders[b].paid && v.orders[b].identity == Some(IdentityOf(cfg, tx, index.value))
    requires env.during == [] && env.receiptArrives && env.logsArrive
    ensures Shares(Next(v, cfg, PayStep(id, auth, env)).orders, id, b)
  {
    hide LogIndex, Pay, IdentityOf, C.Valid;
    PendingIsConfirmed(v, cfg, id, auth, env);
  }

  // ---------------------------------------------------------------- from a fresh deployment

  /** Pay and time out after the payment landed, reconcile, and retry. */
  function SharedRun(): seq<Step> {
    DoubleRun()[..2] +
    [PayStep(Ordinary(0), Auth(1), Env(1, true, 101, [C.Include(101)], false, true)), ReconcileStep(0),
     PayStep(Ordinary(0), Auth(2), Env(2, true, 102, [], true, true))]
  }

  lemma LandedIsConfirmable(b: World)
    requires Inv(b, CFG) && C.CanInclude(b.chain, 101) && b.chain.pool[101] == T.TransferWithAuthorization(Auth(1))
    requires b.chain.Now() == MintedState() && b.chain.heads == MintedChain().heads && b.chain.entries == [MintedEntry()]
    requires Ordinary(0) in b.orders && b.orders[Ordinary(0)].amount == 1 && b.orders[Ordinary(0)].createdBlock == 1
    ensures var c := C.Run(b.chain, [C.Include(101)]); C.Valid(c) && LogIndex(c, CFG, Auth(1), b.orders[Ordinary(0)], 101).Some?
  {
    BothAuthorized();
    ValidOf(b);
    HeadsOf(b);
    assert MintedEntry().Post().eventMode == 0;
    hide Inv, LogIndex, T.Authorized, T.After, MintedChain, MintedState, C.Run, AfterFirst, C.CanInclude;
    TransferIncluded(b.chain, 101, Auth(1));
    var c := C.Run(b.chain, [C.Include(101)]);
    C.RunKeepsValid(b.chain, [C.Include(101)]);
    assert C.EntryOk(c, 1) && c.entries[0] == MintedEntry();
    BlockOne(c, 101);
    LogIndexIsTrue(c, CFG, Auth(1), b.orders[Ordinary(0)], 101);
    SettlementDecision(c, 1, 2, Auth(1), 1, 1);
  }

  /** The order is pending on a payment that has landed. */
  ghost predicate PendingLanded(w: World) {
    && Ordinary(0) in w.orders && !w.orders[Ordinary(0)].paid
    && w.orders[Ordinary(0)].pendingTx == Some(101) && w.orders[Ordinary(0)].pendingAuthorization == Some(Auth(1))
    && LogIndex(w.chain, CFG, Auth(1), w.orders[Ordinary(0)], 101).Some?
  }

  lemma TimedOutPay(w: World, env: Env)
    requires Inv(w, CFG) && Quoted(w) && env == Env(1, true, 101, [C.Include(101)], false, true)
    ensures PendingLanded(Pay(w, CFG, Ordinary(0), Auth(1), env).0)
  {
    var safe := Env(1, true, 101, [C.Include(101)], true, false);
    FirstBroadcast(w, safe);
    PayIsBroadcast(w, CFG, Ordinary(0), Auth(1), env);
    var b := Broadcast(w, Ordinary(0), Auth(1), 101);
    var o := b.orders[Ordinary(0)];
    assert o.amount == 1 && o.createdBlock == 1 && !o.paid;
    LandedIsConfirmable(b);
    var c := C.Run(b.chain, env.during);
    SlotIsIgnored(c, CFG, Auth(1), o, 101);
    hide LogIndex, C.Run, Inv, Broadcast, SafeToSubmit, Receipt, QueriesLogs, MintedChain;
    assert Confirm(b, CFG, Ordinary(0), Auth(1), 101, env).0 == WithOrder(b.(chain := c), Ordinary(0), Parked(o, Auth(1), 101));
    hide Confirm, Pay;
  }

  lemma SlotIsIgnored(c: C.Chain, cfg: Config, auth: T.Authorization, o: Order, tx: Hash)
    ensures LogIndex(c, cfg, auth, Parked(o, auth, tx), tx) == LogIndex(c, cfg, auth, o, tx)
  {
  }

  lemma SharedRunIs()
    ensures Run(Launch(CFG, 9, C.Head(0, 0)), CFG, SharedRun())
         == Next(Next(Pay(QuotedStart(), CFG, Ordinary(0), Auth(1), SharedRun()[2].env).0, CFG, ReconcileStep(0)), CFG, SharedRun()[4])
  {
    hide Pay, Launch, Quote, C.Run, Reconcile;
    var steps := SharedRun();
    var w0 := Launch(CFG, 9, C.Head(0, 0));
    var w1 := Next(w0, CFG, steps[0]);
    var w2 := Next(w1, CFG, steps[1]);
    var w3 := Next(w2, CFG, steps[2]);
    var w4 := Next(w3, CFG, steps[3]);
    RunStep(w0, CFG, steps, 0);
    RunStep(w1, CFG, steps, 1);
    RunStep(w2, CFG, steps, 2);
    RunStep(w3, CFG, steps, 3);
    RunStep(w4, CFG, steps, 4);
    assert steps[0..] == steps && steps[5..] == [];
    assert w2 == QuotedStart();
    hide Next, QuotedStart;
  }

  lemma QuotedIsKeyed(w: World, env: Env)
    requires Quoted(w) && env.now > 0
    ensures Keyed(CFG, Pay(w, CFG, Ordinary(0), Auth(1), env).0.orders)
  {
    PayTouchesNoRecovered(w, CFG, Ordinary(0), Auth(1), env);
    hide Pay;
  }

  lemma LandedShares(w: World, env: Env) returns (b: OrderId)
    requires Inv(w, CFG) && Keyed(CFG, w.orders) && PendingLanded(w) && env.during == [] && env.receiptArrives && env.logsArrive
    ensures Shares(Next(Next(w, CFG, ReconcileStep(0)), CFG, PayStep(Ordinary(0), Auth(2), env)).orders, Ordinary(0), b)
  {
    hide Inv, Next, Keyed, LogIndex, Shares;
    b := HealThenConfirmShares(w, CFG, Ordinary(0), 0, Auth(2), env);
  }

  /** Concretely, from deployment: one payment, two paid orders. */
  lemma SharedFromDeployment() returns (b: OrderId)
    ensures Shares(Run(Launch(CFG, 9, C.Head(0, 0)), CFG, SharedRun()).orders, Ordinary(0), b)
  {
    var first, second := SharedRun()[2].env, SharedRun()[4].env;
    assert SharedRun()[4] == PayStep(Ordinary(0), Auth(2), second);
    hide Inv, Pay, Quoted, Launch, Run, Next, QuotedStart, Keyed, PendingLanded, Shares;
    QuotedStarts();
    SharedRunIs();
    var w := QuotedStart();
    TimedOutPay(w, first);
    QuotedIsKeyed(w, first);
    PayKeepsInv(w, CFG, Ordinary(0), Auth(1), first);
    b := LandedShares(Pay(w, CFG, Ordinary(0), Auth(1), first).0, second);
  }

  lemma QuotedStarts()
    ensures Inv(QuotedStart(), CFG) && Quoted(QuotedStart())
  {
    QuotedWorld();
    hide Inv, Quoted, Next;
  }
}
