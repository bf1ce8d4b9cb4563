/**
 When the SUT broadcasts and what it refuses. A payment reaches the chain only for a known order, not paid and not
 pending where idempotency counts, before its quote expired, at a price still within tolerance, and with an
 authorization for exactly this payment; over any run nothing else is ever sent.
 */
module PayGuards {
  import opened Common
  import opened QuoteOption
  import opened Protocol
  import opened NoPhantomCredit
  import opened Funding
  import T = Token
  import C = Chain

  // ---------------------------------------------------------------- the guards, in plain terms

  /** The authorization pays this SUT's price to its merchant, from somebody, within some window. */
  ghost predicate PaysThePrice(cfg: Config, auth: T.Authorization) {
    && auth.from != 0 && cfg.merchant != 0 && auth.to == cfg.merchant
    && auth.value == cfg.price && cfg.price > 0 && auth.validAfter < auth.validBefore
  }

  /** Everything a broadcast of a payment for this order takes. */
  ghost predicate MaySend(w: World, cfg: Config, id: OrderId, auth: T.Authorization, env: Env)
    requires cfg.tolerance.den > 0
  {
    && id in w.orders
    && var o := w.orders[id];
       && (cfg.idempotent ==> !o.paid && (o.pendingTx.None? || o.pendingAuthorization.None?))
       && env.now <= o.expiresAt
       && (cfg.repriceOnPay ==> !OutOfTolerance(o.amount, w.fairPrice, cfg.tolerance))
       && PaysThePrice(cfg, auth) && env.safe && env.tx !in w.chain.pool
  }

  /** The order is waiting for a broadcast that an idempotent SUT resumes. */
  predicate Resumes(w: World, cfg: Config, id: OrderId) {
    && cfg.idempotent && id in w.orders && !w.orders[id].paid
    && w.orders[id].pendingTx.Some? && w.orders[id].pendingAuthorization.Some?
  }

  // ---------------------------------------------------------------- what one payment sends

  /** A payment broadcasts exactly when it may, and then exactly this authorization for this order. */
  lemma PaySendsExactlyWhen(w: World, cfg: Config, id: OrderId, auth: T.Authorization, env: Env)
    requires cfg.tolerance.den > 0
    ensures var v := Pay(w, cfg, id, auth, env).0;
            && v.sent == (if MaySend(w, cfg, id, auth, env) then w.sent + [Sent(id, env.tx, auth)] else w.sent)
            && (MaySend(w, cfg, id, auth, env) ==>
                  env.tx in v.chain.pool && v.chain.pool[env.tx] == T.TransferWithAuthorization(auth)
                  && v.orders.Keys == w.orders.Keys && v.orders[id].submittedTx == Some(env.tx)
                  && v.orders[id].nonceSeen == Some(auth.nonce) && v.orders[id].settleAttempts == w.orders[id].settleAttempts + 1)
            && (!MaySend(w, cfg, id, auth, env) && !Resumes(w, cfg, id) ==> v.chain == w.chain)
  {
    if id in w.orders {
      var o := w.orders[id];
      StaleMeans(o.amount, w.fairPrice, cfg.tolerance);
      hide Confirm, QuoteIsStale, OutOfTolerance, Broadcast, C.Next, LogIndex, C.Run;
      if Resumes(w, cfg, id) {
        ResumedSends(w, cfg, id, o.pendingAuthorization.value, o.pendingTx.value, env);
      } else if MaySend(w, cfg, id, auth, env) {
        BroadcastSends(w, cfg, id, auth, env);
      }
    }
  }

  lemma ResumedSends(w: World, cfg: Config, id: OrderId, auth: T.Authorization, tx: Hash, env: Env)
    requires id in w.orders
    ensures Confirm(w, cfg, id, auth, tx, env).0.sent == w.sent
  {
    ConfirmOutcome(w, cfg, id, auth, tx, env);
    hide Confirm, LogIndex, C.Run, Parked, Cleared, Credited, IdentityOf;
  }

  lemma BroadcastSends(w: World, cfg: Config, id: OrderId, auth: T.Authorization, env: Env)
    requires id in w.orders && env.tx !in w.chain.pool
    ensures var b := Broadcast(w, id, auth, env.tx);
            && id in b.orders
            && var v := Confirm(b, cfg, id, auth, env.tx, env).0;
               && v.sent == w.sent + [Sent(id, env.tx, auth)]
               && env.tx in v.chain.pool && v.chain.pool[env.tx] == T.TransferWithAuthorization(auth)
               && v.orders.Keys == w.orders.Keys && v.orders[id].submittedTx == Some(env.tx)
               && v.orders[id].nonceSeen == Some(auth.nonce) && v.orders[id].settleAttempts == w.orders[id].settleAttempts + 1
  {
    var b := Broadcast(w, id, auth, env.tx);
    assert b.chain.pool[env.tx] == T.TransferWithAuthorization(auth);
    ConfirmOutcome(b, cfg, id, auth, env.tx, env);
    hide Confirm, LogIndex, C.Run, IdentityOf, C.Next;
    PoolStays(b.chain, env.during, env.tx);
  }

  lemma {:induction false} PoolStays(c: C.Chain, steps: seq<C.ChainStep>, tx: Hash)
    requires tx in c.pool
    ensures tx in C.Run(c, steps).pool && C.Run(c, steps).pool[tx] == c.pool[tx]
    decreases |steps|
  {
    if steps != [] {
      PoolStays(C.Next(c, steps[0]), steps[1..], tx);
    }
  }

  // ---------------------------------------------------------------- what is refused, and why

  /** Each refusal has exactly its reason, and leaves the world as it was. */
  lemma RefusalsExactly(w: World, cfg: Config, id: OrderId, auth: T.Authorization, env: Env)
    requires cfg.tolerance.den > 0
    ensures var (v, answer) := Pay(w, cfg, id, auth, env);
            && (answer == Refused(UnknownOrder) <==> id !in w.orders)
            && (answer.AlreadySettled? <==> id in w.orders && cfg.idempotent && w.orders[id].paid)
            && (answer.AlreadySettled? ==> answer.submittedTx == w.orders[id].submittedTx)
            && (answer == Refused(QuoteExpired) <==>
                  && id in w.orders && !(cfg.idempotent && w.orders[id].paid) && !Resumes(w, cfg, id)
                  && env.now > w.orders[id].expiresAt)
            && (answer == Refused(StaleQuote) <==>
                  && id in w.orders && !(cfg.idempotent && w.orders[id].paid) && !Resumes(w, cfg, id)
                  && env.now <= w.orders[id].expiresAt
                  && cfg.repriceOnPay && OutOfTolerance(w.orders[id].amount, w.fairPrice, cfg.tolerance))
            && (answer.Refused? || answer.AlreadySettled? ==> v == w)
  {
    if id in w.orders {
      var o := w.orders[id];
      StaleMeans(o.amount, w.fairPrice, cfg.tolerance);
      hide QuoteIsStale, OutOfTolerance, Confirm, Broadcast, SafeToSubmit;
      if Resumes(w, cfg, id) {
        ConfirmAnswers(w, cfg, id, o.pendingAuthorization.value, o.pendingTx.value, env);
      }
      BroadcastKnows(w, id, auth, env.tx);
      ConfirmAnswers(Broadcast(w, id, auth, env.tx), cfg, id, auth, env.tx, env);
    }
  }

  lemma BroadcastKnows(w: World, id: OrderId, auth: T.Authorization, tx: Hash)
    requires id in w.orders
    ensures id in Broadcast(w, id, auth, tx).orders
  {
    hide C.Next;
  }

  /** Confirming never refuses and never claims an earlier settlement. */
  lemma ConfirmAnswers(w: World, cfg: Config, id: OrderId, auth: T.Authorization, tx: Hash, env: Env)
    requires id in w.orders
    ensures var answer := Confirm(w, cfg, id, auth, tx, env).1; !answer.Refused? && !answer.AlreadySettled?
  {
    hide LogIndex, QueriesLogs, Receipt, C.Run, IdentityOf;
  }

  /** An attempt that passes the price checks but not the submission's counts, and sends nothing. */
  lemma RefusedSubmission(w: World, cfg: Config, id: OrderId, auth: T.Authorization, env: Env)
    requires cfg.tolerance.den > 0 && id in w.orders && !(cfg.idempotent && w.orders[id].paid) && !Resumes(w, cfg, id)
    requires env.now <= w.orders[id].expiresAt
    requires cfg.repriceOnPay ==> !OutOfTolerance(w.orders[id].amount, w.fairPrice, cfg.tolerance)
    requires !(PaysThePrice(cfg, auth) && env.safe && env.tx !in w.chain.pool)
    ensures var o := w.orders[id];
            Pay(w, cfg, id, auth, env)
            == (w.(orders := w.orders[id := o.(nonceSeen := Some(auth.nonce), settleAttempts := o.settleAttempts + 1)]), Raised)
  {
    StaleMeans(w.orders[id].amount, w.fairPrice, cfg.tolerance);
    hide QuoteIsStale, OutOfTolerance, Confirm, Broadcast;
  }

  // ---------------------------------------------------------------- waiting and deciding

  /** How confirming ends: it waits, or the log query fails, or the confirmer decides; and what each leaves of the order. */
  lemma ConfirmExactly(w: World, cfg: Config, id: OrderId, auth: T.Authorization, tx: Hash, env: Env)
    requires id in w.orders
    ensures var c := C.Run(w.chain, env.during);
            var o, index := w.orders[id], LogIndex(c, cfg, auth, w.orders[id], tx);
            var (v, answer) := Confirm(w, cfg, id, auth, tx, env);
            var waits := !cfg.confirmWithoutWaiting && !(env.receiptArrives && Known(c, tx));
            && v.chain == c && v.sent == w.sent && v.issued == w.issued && v.backups == w.backups && v.fairPrice == w.fairPrice
            && v.orders.Keys == w.orders.Keys && (forall other :: other in w.orders && other != id ==> v.orders[other] == w.orders[other])
            && (answer.SettlementPending? <==> waits)
            && (waits ==> answer.tx == tx && v.orders[id] == o.(pendingTx := Some(tx), pendingAuthorization := Some(auth)))
            && (!waits ==> v.orders[id].pendingTx.None? && v.orders[id].pendingAuthorization.None?)
            && (answer.Confirmed? ==> answer.tx == tx && (answer.settled <==> index.Some?))
            && (answer == Confirmed(tx, true) ==>
                  v.orders[id] == o.(pendingTx := None, pendingAuthorization := None, paid := true, resource := Some(Premium(id)),
                                     identity := Some(IdentityOf(cfg, tx, index.value))))
            && (!waits && answer != Confirmed(tx, true) ==> v.orders[id] == o.(pendingTx := None, pendingAuthorization := None))
            && (answer.Raised? <==> !waits && QueriesLogs(c, cfg, auth, o, tx) && !env.logsArrive)
            && (!waits && !answer.Raised? ==> answer.Confirmed?)
  {
    ReceiptMeansKnown(C.Run(w.chain, env.during), cfg.token, tx);
    hide LogIndex, QueriesLogs, Receipt, C.Run, IdentityOf, Known;
  }

  // ---------------------------------------------------------------- over runs

  /** At step n of the run, a payment that might be sent sent this. */
  ghost predicate SentAt(w: World, cfg: Config, steps: seq<Step>, n: nat, s: Sent)
    requires cfg.tolerance.den > 0
  {
    && n < |steps| && steps[n].PayStep? && s == Sent(steps[n].id, steps[n].env.tx, steps[n].auth)
    && MaySend(Run(w, cfg, steps[..n]), cfg, s.order, s.auth, steps[n].env)
  }

  lemma NextSends(w: World, cfg: Config, step: Step, s: Sent)
    requires cfg.tolerance.den > 0 && s in Next(w, cfg, step).sent && s !in w.sent
    ensures step.PayStep? && s == Sent(step.id, step.env.tx, step.auth) && MaySend(w, cfg, step.id, step.auth, step.env)
  {
    if step.PayStep? {
      PaySendsExactlyWhen(w, cfg, step.id, step.auth, step.env);
    }
    hide Pay, MaySend, Gap, Heal, C.Run;
  }

  /** Whatever a run has sent, it sent at a step whose guards held then. */
  lemma {:induction false} EverySendPassedTheGuards(w: World, cfg: Config, steps: seq<Step>, s: Sent) returns (n: nat)
    requires cfg.tolerance.den > 0 && s in Run(w, cfg, steps).sent && s !in w.sent
    ensures SentAt(w, cfg, steps, n, s)
    decreases |steps|
  {
    assert steps != [];
    var v := Next(w, cfg, steps[0]);
    if s in v.sent {
      n := 0;
      NextSends(w, cfg, steps[0], s);
      assert steps[..0] == [];
    } else {
      n := EverySendPassedTheGuards(v, cfg, steps[1..], s);
      hide Next, MaySend;
      n := n + 1;
      assert steps[..n][1..] == steps[1..][..n - 1];
    }
  }

  /** From deployment: every broadcast was made before its order's quote expired, for the quoted price to the merchant. */
  lemma NothingSentLate(cfg: Config, admin: Address, genesisHead: C.Head, steps: seq<Step>, s: Sent) returns (n: nat)
    requires cfg.tolerance.den > 0 && s in Run(Launch(cfg, admin, genesisHead), cfg, steps).sent
    ensures n < |steps| && steps[n].PayStep?
    ensures var w := Run(Launch(cfg, admin, genesisHead), cfg, steps[..n]);
            && s.order in w.orders && steps[n].env.now <= w.orders[s.order].expiresAt
            && (cfg.repriceOnPay ==> !OutOfTolerance(w.orders[s.order].amount, w.fairPrice, cfg.tolerance))
            && (cfg.idempotent ==> !w.orders[s.order].paid)
    ensures s.auth.to == cfg.merchant && s.auth.value == cfg.price
  {
    n := EverySendPassedTheGuards(Launch(cfg, admin, genesisHead), cfg, steps, s);
    hide Run, Launch, OutOfTolerance;
  }

  // ---------------------------------------------------------------- the other steps

  /** Price changes, backups and restores change only what they are for. */
  lemma OtherStepsExactly(w: World, cfg: Config, price: nat, i: nat)
    ensures Next(w, cfg, SetFairPrice(price)) == World(w.chain, w.orders, price, w.sent, w.backups, w.issued)
    ensures Next(w, cfg, Backup) == World(w.chain, w.orders, w.fairPrice, w.sent, w.backups + [w.orders], w.issued)
    ensures i < |w.backups| ==> Next(w, cfg, Restore(i)) == World(w.chain, w.backups[i], w.fairPrice, w.sent, w.backups, w.issued)
  {
  }

  // ---------------------------------------------------------------- the quote

  /** A new quote is for the configured price, valid for the time to live from now on, and touches no other order. */
  lemma QuoteExactly(w: World, cfg: Config, n: nat, now: int)
    ensures Ordinary(n) in w.issued ==> Quote(w, cfg, n, now) == w
    ensures Ordinary(n) !in w.issued ==>
              var v := Quote(w, cfg, n, now);
              && v.orders.Keys == w.orders.Keys + {Ordinary(n)} && v.issued == w.issued + {Ordinary(n)}
              && (forall id :: id in w.orders && id != Ordinary(n) ==> v.orders[id] == w.orders[id])
              && (var o := v.orders[Ordinary(n)];
                  && o.amount == cfg.price && o.expiresAt == now + cfg.quoteTtl && o.quotedFairPrice == w.fairPrice
                  && o.createdBlock == w.chain.Height() && o.settleAttempts == 0 && !o.paid && !o.recovered
                  && o.nonceSeen.None? && o.submittedTx.None? && o.resource.None? && o.pendingTx.None?
                  && o.pendingAuthorization.None? && o.identity.None?)
              && v.chain == w.chain && v.sent == w.sent && v.fairPrice == w.fairPrice && v.backups == w.backups
  {
  }
}
