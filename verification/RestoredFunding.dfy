/**
 Funding and restores. Restoring a backup forgets what was funded since: an order it holds open that has a success
 can be funded again, and healing does not close that. Restoring only backups that know every broadcast still
 alive keeps funding at most once.
 */
module RestoredFunding {
  import opened Common
  import opened QuoteOption
  import opened Protocol
  import opened NoPhantomCredit
  import opened Funding
  import opened LostLogQuery
  import T = Token
  import C = Chain

  // ---------------------------------------------------------------- what a restore forgets

  /** A ledger that holds the order of a success open: unpaid, with nothing pending. */
  ghost predicate Forgets(w: World, b: Ledger, s: Sent) {
    && s in w.sent && Succeeded(w.chain, s.tx)
    && s.order in b && !b[s.order].paid && b[s.order].pendingTx.None?
  }

  /** Restoring loses the slot exactly of the successes the backup forgets. */
  lemma RestoreLosesExactly(w: World, cfg: Config, i: nat, s: Sent)
    requires i < |w.backups|
    ensures LostSlot(Next(w, cfg, Restore(i)), s.order, s) <==> Forgets(w, w.backups[i], s)
  {
  }

  /** Healing books the success as another, recovered order, and leaves the slot lost. */
  lemma HealingKeepsLostSlot(w: World, cfg: Config, fromBlock: nat, s: Sent)
    requires s.order.Ordinary?
    ensures LostSlot(Next(w, cfg, ReconcileStep(fromBlock)), s.order, s) <==> LostSlot(w, s.order, s)
  {
    hide Gap, Heal, Succeeded;
    if Gap(w.chain, cfg, w.orders, fromBlock).Some? && cfg.healing {
      var credits := Gap(w.chain, cfg, w.orders, fromBlock).value;
      HealOnlyAdds(w, credits);
      if s.order in Heal(w.orders, credits) {
        HealedOrders(w.orders, credits, s.order);
      }
    }
  }

  /** After restoring such a backup and healing, a funded payer's retry funds the order a second time. */
  lemma RestoreHealFundsTwice(w: World, cfg: Config, i: nat, fromBlock: nat, s: Sent, payer: Address, nonce: T.Nonce, tx: Hash, now: int)
    returns (retry: Step, t: Sent)
    requires Inv(w, cfg) && i < |w.backups| && Forgets(w, w.backups[i], s) && s.order.Ordinary?
    requires RetryPossible(Next(Next(w, cfg, Restore(i)), cfg, ReconcileStep(fromBlock)), cfg, s.order, payer, nonce, tx, now)
    ensures retry.PayStep?
    ensures var v := Run(w, cfg, [Restore(i), ReconcileStep(fromBlock), retry]);
            && s in v.sent && t in v.sent && s != t && s.order == t.order
            && Succeeded(v.chain, s.tx) && Succeeded(v.chain, t.tx)
  {
    hide Inv, RetryPossible, Forgets, LostSlot, Succeeded, Next;
    var u := Next(w, cfg, Restore(i));
    var v := Next(u, cfg, ReconcileStep(fromBlock));
    RestoreLosesExactly(w, cfg, i, s);
    NextKeepsInv(w, cfg, Restore(i));
    HealingKeepsLostSlot(u, cfg, fromBlock, s);
    NextKeepsInv(u, cfg, ReconcileStep(fromBlock));
    retry, t := FundedPayerFundsTwice(v, cfg, s.order, s, payer, nonce, tx, now);
    ThreeSteps(w, cfg, Restore(i), ReconcileStep(fromBlock), retry);
  }

  lemma ThreeSteps(w: World, cfg: Config, x: Step, y: Step, z: Step)
    ensures Run(w, cfg, [x, y, z]) == Next(Next(Next(w, cfg, x), cfg, y), cfg, z)
  {
    hide Next;
    var steps := [x, y, z];
    RunStep(w, cfg, steps, 0);
    RunStep(Next(w, cfg, x), cfg, steps, 1);
    RunStep(Next(Next(w, cfg, x), cfg, y), cfg, steps, 2);
    assert steps[0..] == steps && steps[3..] == [];
  }

  // ---------------------------------------------------------------- the runs meant

  /** The ledger holds every order a payment was broadcast for, and every broadcast that has not failed is its order's, paid or pending. */
  ghost predicate Knows(w: World, b: Ledger) {
    forall s :: s in w.sent ==>
      && s.order in b
      && (|| Failed(w.chain, s.tx)
          || (b[s.order].submittedTx == Some(s.tx) && (b[s.order].paid || b[s.order].pendingTx == Some(s.tx))))
  }

  /** No log query that is made fails, and a restored backup knows every broadcast that has not failed. */
  ghost predicate Careful(w: World, cfg: Config, step: Step) {
    if step.Restore? then step.i < |w.backups| ==> Knows(w, w.backups[step.i]) else Quiet(w, cfg, step)
  }

  ghost predicate CarefulRun(w: World, cfg: Config, steps: seq<Step>)
    decreases |steps|
  {
    steps != [] ==> Careful(w, cfg, steps[0]) && CarefulRun(Next(w, cfg, steps[0]), cfg, steps[1..])
  }

  // ---------------------------------------------------------------- backups keep good fates

  /** What the fates of broadcasts say of a ledger kept aside. */
  ghost predicate LedgerFate(w: World, cfg: Config, b: Ledger) {
    && (forall id :: id in b ==> OrderFate(w.chain, w.sent, cfg, id, b[id]))
    && (forall s :: s in w.sent && s.order in b ==> InTime(w.chain, s, b[s.order]))
  }

  ghost predicate InTime(c: C.Chain, s: Sent, o: Order) {
    Known(c, s.tx) ==> o.createdBlock <= c.entries[c.included[s.tx]].block
  }

  /** Entries are only added to the tip, and a new broadcast was not on chain before. */
  ghost predicate Later(w: World, v: World) {
    && Grows(w, v)
    && (forall i :: |w.chain.entries| <= i < |v.chain.entries| ==> w.chain.Height() <= v.chain.entries[i].block)
    && (forall s :: s in v.sent && s !in w.sent ==> !Known(w.chain, s.tx))
  }

  lemma InTimeLater(w: World, v: World, s: Sent, o: Order)
    requires C.Valid(w.chain) && C.Valid(v.chain) && Later(w, v) && s in v.sent && o.createdBlock <= w.chain.Height()
    requires s in w.sent ==> InTime(w.chain, s, o)
    ensures InTime(v.chain, s, o)
  {
    if Known(v.chain, s.tx) {
      var i := v.chain.included[s.tx];
      if i < |w.chain.entries| {
        AlreadyIncluded(w.chain, v.chain, s.tx);
        assert v.chain.entries[i] == w.chain.entries[i];
      }
    }
  }

  /** A transaction in the old part of the chain was known there. */
  lemma AlreadyIncluded(c: C.Chain, d: C.Chain, tx: Hash)
    requires C.Valid(c) && C.Valid(d) && C.Extends(c, d) && Known(d, tx) && d.included[tx] < |c.entries|
    ensures Known(c, tx)
  {
    var i := d.included[tx];
    assert C.EntryOk(c, i) && C.EntryOk(d, i);
    assert d.entries[i] == c.entries[i];
  }

  lemma LedgerFateLater(w: World, v: World, cfg: Config, b: Ledger)
    requires C.Valid(w.chain) && C.Valid(v.chain) && Later(w, v) && LedgerFate(w, cfg, b)
    ensures LedgerFate(v, cfg, b)
  {
    hide C.Valid, InTime;
    forall id | id in b ensures OrderFate(v.chain, v.sent, cfg, id, b[id]) {
      OrderFateLater(w, v, cfg, id, b[id]);
    }
    hide Later;
    forall s | s in v.sent && s.order in b ensures InTime(v.chain, s, b[s.order]) {
      assert OrderFate(w.chain, w.sent, cfg, s.order, b[s.order]);
      InTimeLater(w, v, s, b[s.order]);
    }
  }

  lemma OrderFateLater(w: World, v: World, cfg: Config, id: OrderId, o: Order)
    requires Grows(w, v) && OrderFate(w.chain, w.sent, cfg, id, o)
    ensures OrderFate(v.chain, v.sent, cfg, id, o)
  {
    OrderFateMoves(w.chain, v.chain, w.sent, cfg, id, o);
    forall s | s in w.sent ensures s in v.sent {
      var i :| 0 <= i < |w.sent| && w.sent[i] == s;
      assert v.sent[i] == s;
    }
    hide C.Extends;
  }

  // ---------------------------------------------------------------- every step is later

  lemma RunIsLater(w: World, v: World, c: C.Chain, steps: seq<C.ChainStep>)
    requires C.Valid(c) && c.entries == w.chain.entries && c.heads == w.chain.heads && v.chain == C.Run(c, steps)
    ensures forall i :: |w.chain.entries| <= i < |v.chain.entries| ==> w.chain.Height() <= v.chain.entries[i].block
  {
    hide C.Run, C.Valid;
    forall i | |w.chain.entries| <= i < |v.chain.entries| ensures w.chain.Height() <= v.chain.entries[i].block {
      LaterEntries(c, steps, i);
    }
  }

  /** A payment only lets the chain run, after broadcasting at most one transaction that was not in the pool. */
  ghost predicate PaysOnce(w: World, v: World, id: OrderId, auth: T.Authorization, env: Env) {
    || (v.chain == w.chain && v.sent == w.sent)
    || (v.chain == C.Run(w.chain, env.during) && v.sent == w.sent)
    || (&& env.tx !in w.chain.pool && v.sent == w.sent + [Sent(id, env.tx, auth)]
        && v.chain == C.Run(C.Next(w.chain, C.Submit(env.tx, T.TransferWithAuthorization(auth))), env.during))
  }

  lemma PayPaysOnce(w: World, cfg: Config, id: OrderId, auth: T.Authorization, env: Env)
    ensures PaysOnce(w, Pay(w, cfg, id, auth, env).0, id, auth, env)
  {
    if id in w.orders {
      var o := w.orders[id];
      hide Confirm, C.Run, C.Next, QuoteIsStale;
      if o.pendingTx.Some? && o.pendingAuthorization.Some? {
        ConfirmRuns(w, cfg, id, o.pendingAuthorization.value, o.pendingTx.value, env);
      }
      BroadcastSends(w, id, auth, env.tx);
      ConfirmRuns(Broadcast(w, id, auth, env.tx), cfg, id, auth, env.tx, env);
      hide Broadcast;
    }
  }

  lemma ConfirmRuns(w: World, cfg: Config, id: OrderId, auth: T.Authorization, tx: Hash, env: Env)
    requires id in w.orders
    ensures var v := Confirm(w, cfg, id, auth, tx, env).0; v.chain == C.Run(w.chain, env.during) && v.sent == w.sent
  {
    ConfirmOutcome(w, cfg, id, auth, tx, env);
    hide Confirm, LogIndex, C.Run, Parked, Cleared, Credited, IdentityOf;
  }

  lemma BroadcastSends(w: World, id: OrderId, auth: T.Authorization, tx: Hash)
    requires id in w.orders
    ensures var v := Broadcast(w, id, auth, tx);
            && id in v.orders && v.sent == w.sent + [Sent(id, tx, auth)]
            && v.chain == C.Next(w.chain, C.Submit(tx, T.TransferWithAuthorization(auth)))
  {
    hide C.Next;
  }

  /** The entries a payment adds are added to the tip. */
  lemma PaidEntries(w: World, v: World, id: OrderId, auth: T.Authorization, env: Env)
    requires C.Valid(w.chain) && PaysOnce(w, v, id, auth, env)
    ensures forall i :: |w.chain.entries| <= i < |v.chain.entries| ==> w.chain.Height() <= v.chain.entries[i].block
  {
    hide C.Valid, C.Next, C.Run;
    var submitted := C.Next(w.chain, C.Submit(env.tx, T.TransferWithAuthorization(auth)));
    if v.chain == C.Run(w.chain, env.during) {
      RunIsLater(w, v, w.chain, env.during);
    } else if v.chain != w.chain {
      SubmitKeepsFates(w.chain, env.tx, T.TransferWithAuthorization(auth));
      C.NextKeepsValid(w.chain, C.Submit(env.tx, T.TransferWithAuthorization(auth)));
      RunIsLater(w, v, submitted, env.during);
    }
  }

  lemma PayIsLater(w: World, cfg: Config, id: OrderId, auth: T.Authorization, env: Env)
    requires Inv(w, cfg)
    ensures Later(w, Pay(w, cfg, id, auth, env).0)
  {
    var v := Pay(w, cfg, id, auth, env).0;
    PayKeepsInv(w, cfg, id, auth, env);
    PayPaysOnce(w, cfg, id, auth, env);
    hide Pay, LedgerOk, SentOk, C.Valid, C.Next, C.Run, Grows, Known;
    PaidEntries(w, v, id, auth, env);
    if env.tx !in w.chain.pool {
      NotYetKnown(w, env.tx);
    }
  }

  lemma NextIsLater(w: World, cfg: Config, step: Step)
    requires Inv(w, cfg)
    ensures Later(w, Next(w, cfg, step))
  {
    hide Pay, Gap, Heal, LedgerOk, SentOk, C.Valid, C.Run;
    NextKeepsInv(w, cfg, step);
    match step
    case PayStep(id, auth, env) => PayIsLater(w, cfg, id, auth, env);
    case ChainMoves(steps) => RunIsLater(w, Next(w, cfg, step), w.chain, steps);
    case _ =>
  }

  // ---------------------------------------------------------------- the invariant

  ghost predicate BackupsFate(w: World, cfg: Config) { forall b :: b in w.backups ==> LedgerFate(w, cfg, b) }

  /** The current ledger may be kept aside. */
  lemma CurrentFate(w: World, cfg: Config)
    requires Fate(w, cfg)
    ensures LedgerFate(w, cfg, w.orders)
  {
    hide OrderFate;
    forall s | s in w.sent && s.order in w.orders ensures InTime(w.chain, s, w.orders[s.order]) {
      assert SentFate(w.chain, cfg, s, w.orders[s.order]);
    }
  }

  lemma NextKeepsBackupsFate(w: World, cfg: Config, step: Step)
    requires Inv(w, cfg) && Fate(w, cfg) && BackupsFate(w, cfg)
    ensures BackupsFate(Next(w, cfg, step), cfg)
  {
    var v := Next(w, cfg, step);
    NextIsLater(w, cfg, step);
    NextKeepsInv(w, cfg, step);
    NewBackups(w, cfg, step);
    CurrentFate(w, cfg);
    hide Next, Fate, LedgerFate, Later, C.Valid, SentOk, LedgerOk, Grows;
    forall b | b in v.backups ensures LedgerFate(v, cfg, b) {
      LedgerFateLater(w, v, cfg, b);
    }
  }

  lemma NewBackups(w: World, cfg: Config, step: Step)
    ensures forall b :: b in Next(w, cfg, step).backups ==> b in w.backups || b == w.orders
  {
    hide Gap, Heal, Confirm, SafeToSubmit, QuoteIsStale, C.Run, C.Next;
    if step.PayStep? {
      PayKeepsBackups(w, cfg, step.id, step.auth, step.env);
    }
    hide Pay;
  }

  lemma RestoredSentFate(w: World, cfg: Config, b: Ledger, s: Sent)
    requires Fate(w, cfg) && LedgerFate(w, cfg, b) && Knows(w, b) && s in w.sent
    ensures s.order in b && SentFate(w.chain, cfg, s, b[s.order])
  {
    assert SentFate(w.chain, cfg, s, w.orders[s.order]);
    assert OrderFate(w.chain, w.sent, cfg, s.order, b[s.order]);
    assert InTime(w.chain, s, b[s.order]);
  }

  lemma RestoredResolved(w: World, cfg: Config, b: Ledger, id: OrderId)
    requires LedgerFate(w, cfg, b) && Knows(w, b) && id in b
    ensures Resolved(w.chain, id, b[id])
  {
    assert OrderFate(w.chain, w.sent, cfg, id, b[id]);
    if id.Ordinary? && b[id].submittedTx.Some? {
      var s :| s in w.sent && s.order == id && s.tx == b[id].submittedTx.value;
      assert Failed(w.chain, s.tx) || b[id].paid || b[id].pendingTx == Some(s.tx);
    }
  }

  lemma KnowsFromFate(w: World, cfg: Config, b: Ledger, s: Sent)
    requires cfg.idempotent && LedgerOk(w, cfg, b) && s in w.sent
    requires var v := w.(orders := b); Fate(v, cfg) && AllResolved(v)
    ensures s.order in b
    ensures Failed(w.chain, s.tx) || (b[s.order].submittedTx == Some(s.tx) && (b[s.order].paid || b[s.order].pendingTx == Some(s.tx)))
  {
    hide OrderFate;
    var v := w.(orders := b);
    assert SentFate(v.chain, cfg, s, v.orders[s.order]);
    assert Resolved(v.chain, s.order, v.orders[s.order]);
    assert OrderOk(w.chain, w.sent, cfg, s.order, b[s.order]);
  }

  /** A restore keeps what at-most-once rests on exactly when the backup knows every broadcast still alive. */
  lemma RestoreKeepsExactlyWhen(w: World, cfg: Config, i: nat)
    requires Inv(w, cfg) && Fate(w, cfg) && BackupsFate(w, cfg) && cfg.idempotent && i < |w.backups|
    ensures var v := Next(w, cfg, Restore(i)); Fate(v, cfg) && AllResolved(v) <==> Knows(w, w.backups[i])
  {
    hide C.Valid, SentOk, OrderOk, SentFate, OrderFate, Resolved, Failed, InTime;
    var b := w.backups[i];
    var v := w.(orders := b);
    assert LedgerFate(w, cfg, b);
    if Knows(w, b) {
      forall s | s in v.sent ensures s.order in b && SentFate(v.chain, cfg, s, b[s.order]) {
        RestoredSentFate(w, cfg, b, s);
      }
      forall id | id in b ensures Resolved(v.chain, id, b[id]) {
        RestoredResolved(w, cfg, b, id);
      }
    } else if Fate(v, cfg) && AllResolved(v) {
      assert LedgerOk(w, cfg, b);
      forall s | s in w.sent
        ensures s.order in b
        ensures Failed(w.chain, s.tx) || (b[s.order].submittedTx == Some(s.tx) && (b[s.order].paid || b[s.order].pendingTx == Some(s.tx)))
      {
        KnowsFromFate(w, cfg, b, s);
      }
    }
  }

  // ---------------------------------------------------------------- any careful run

  ghost predicate CarefulOk(w: World, cfg: Config) { Inv(w, cfg) && Fate(w, cfg) && AllResolved(w) && BackupsFate(w, cfg) }

  lemma NextKeepsCareful(w: World, cfg: Config, step: Step)
    requires CarefulOk(w, cfg) && WaitingAndIdempotent(cfg) && Careful(w, cfg, step) && Legacy(Next(w, cfg, step).chain)
    ensures CarefulOk(Next(w, cfg, step), cfg)
  {
    NextKeepsInv(w, cfg, step);
    NextKeepsBackupsFate(w, cfg, step);
    hide Inv, Fate, AllResolved, BackupsFate, Knows, Quiet, Legacy, Grows;
    if step.Restore? {
      if step.i < |w.backups| {
        RestoreKeepsExactlyWhen(w, cfg, step.i);
      }
    } else {
      hide Next;
      NextResolves(w, cfg, step);
    }
  }

  lemma {:induction false} CarefulRunKeeps(w: World, cfg: Config, steps: seq<Step>)
    requires CarefulOk(w, cfg) && WaitingAndIdempotent(cfg) && CarefulRun(w, cfg, steps) && Legacy(Run(w, cfg, steps).chain)
    ensures CarefulOk(Run(w, cfg, steps), cfg)
    decreases |steps|
  {
    if steps != [] {
      var v := Next(w, cfg, steps[0]);
      assert Inv(w, cfg);
      hide Inv, Next, Fate, AllResolved, Legacy, Careful, BackupsFate;
      NextKeepsInv(w, cfg, steps[0]);
      RunKeepsInv(v, cfg, steps[1..]);
      LegacyOfPrefix(v.chain, Run(v, cfg, steps[1..]).chain);
      NextKeepsCareful(w, cfg, steps[0]);
      CarefulRunKeeps(v, cfg, steps[1..]);
    }
  }

  /** At most one broadcast of an order ever succeeds, over any run that restores only backups that know. */
  lemma FundedAtMostOnceWithRestores(cfg: Config, admin: Address, genesisHead: C.Head, steps: seq<Step>, s: Sent, t: Sent)
    requires ValidConfig(cfg) && WaitingAndIdempotent(cfg) && CarefulRun(Launch(cfg, admin, genesisHead), cfg, steps)
    requires Legacy(Run(Launch(cfg, admin, genesisHead), cfg, steps).chain)
    requires var w := Run(Launch(cfg, admin, genesisHead), cfg, steps);
             s in w.sent && t in w.sent && s.order == t.order && Succeeded(w.chain, s.tx) && Succeeded(w.chain, t.tx)
    ensures s == t
    ensures var w := Run(Launch(cfg, admin, genesisHead), cfg, steps);
            && s.order in w.orders
            && w.orders[s.order].submittedTx == Some(s.tx)
            && (w.orders[s.order].paid || w.orders[s.order].pendingTx == Some(s.tx))
  {
    LaunchInv(cfg, admin, genesisHead);
    assert CarefulOk(Launch(cfg, admin, genesisHead), cfg) by {
      hide Inv;
    }
    CarefulRunKeeps(Launch(cfg, admin, genesisHead), cfg, steps);
    hide Run, Launch, OrderFate, Legacy, CarefulRun, BackupsFate;
    var w := Run(Launch(cfg, admin, genesisHead), cfg, steps);
    var o := w.orders[s.order];
    assert SentFate(w.chain, cfg, s, o) && SentFate(w.chain, cfg, t, o);
    OneOrderPerTransaction(w, cfg, s, t);
    assert Resolved(w.chain, s.order, o);
    assert OrderOk(w.chain, w.sent, cfg, s.order, o);
  }
}
