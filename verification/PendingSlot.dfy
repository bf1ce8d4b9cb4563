/**
 The pending slot of an idempotent SUT, in every run including backups and restores: what a pending
 order looks like, that paying it never broadcasts again, and what each answer means.
 */
module PendingSlot {
  import opened Common
  import opened Evidence
  import opened Protocol
  import opened NoPhantomCredit
  import T = Token
  import C = Chain
  import S = SutAnswers
  import Json

  /** A pending order is unpaid, its pending transaction is its submitted one, and it carries the authorization it was broadcast with. */
  ghost predicate SlotHolds(w: World, id: OrderId) {
    id in w.orders && w.orders[id].pendingTx.Some? ==>
      var o := w.orders[id];
      && !o.paid
      && o.submittedTx == o.pendingTx
      && o.pendingAuthorization.Some?
      && Sent(id, o.pendingTx.value, o.pendingAuthorization.value) in w.sent
      && o.pendingTx.value in w.chain.pool
      && w.chain.pool[o.pendingTx.value] == T.TransferWithAuthorization(o.pendingAuthorization.value)
  }

  lemma PendingOrdersAreInFlight(cfg: Config, admin: Address, genesisHead: C.Head, steps: seq<Step>, id: OrderId)
    requires ValidConfig(cfg) && cfg.idempotent
    ensures SlotHolds(Run(Launch(cfg, admin, genesisHead), cfg, steps), id)
  {
    LaunchInv(cfg, admin, genesisHead);
    RunKeepsInv(Launch(cfg, admin, genesisHead), cfg, steps);
    hide Run, Launch, C.Valid, Backed;
    var w := Run(Launch(cfg, admin, genesisHead), cfg, steps);
    if id in w.orders && w.orders[id].pendingTx.Some? {
      assert OrderOk(w.chain, w.sent, cfg, id, w.orders[id]);
    }
  }

  lemma PendingFacts(w: World, cfg: Config, id: OrderId)
    requires Inv(w, cfg) && cfg.idempotent && id in w.orders
    ensures var o := w.orders[id];
            o.pendingTx.Some? ==> o.pendingAuthorization.Some? && !o.paid && o.submittedTx == o.pendingTx
    ensures w.orders[id].paid ==> w.orders[id].pendingTx.None? && w.orders[id].submittedTx.Some?
  {
    assert OrderOk(w.chain, w.sent, cfg, id, w.orders[id]);
    hide C.Valid, Backed, SentOk, HexWord;
  }

  lemma RetryConfirms(w: World, cfg: Config, id: OrderId, auth: T.Authorization, env: Env)
    requires cfg.idempotent && id in w.orders && !w.orders[id].paid && w.orders[id].pendingTx.Some?
    requires w.orders[id].pendingAuthorization.Some?
    ensures Pay(w, cfg, id, auth, env) == Confirm(w, cfg, id, w.orders[id].pendingAuthorization.value, w.orders[id].pendingTx.value, env)
  {
    hide Confirm, SafeToSubmit, Broadcast;
  }

  /** Paying a pending order, with any authorization, neither broadcasts nor counts a new attempt. */
  lemma RetryNeverBroadcasts(w: World, cfg: Config, id: OrderId, auth: T.Authorization, env: Env)
    requires Inv(w, cfg) && cfg.idempotent && id in w.orders && w.orders[id].pendingTx.Some?
    ensures var v := Pay(w, cfg, id, auth, env).0;
            && v.sent == w.sent
            && v.orders[id].settleAttempts == w.orders[id].settleAttempts
            && v.orders[id].submittedTx == w.orders[id].submittedTx
            && (v.orders[id].pendingTx.Some? ==>
                  && v.orders[id].pendingTx == w.orders[id].pendingTx
                  && v.orders[id].pendingAuthorization == w.orders[id].pendingAuthorization)
  {
    hide Inv, Pay, Confirm, LogIndex, C.Run, IdentityOf;
    var o := w.orders[id];
    PendingFacts(w, cfg, id);
    RetryConfirms(w, cfg, id, auth, env);
    ConfirmOutcome(w, cfg, id, o.pendingAuthorization.value, o.pendingTx.value, env);
  }

  /** What each answer about a known order says of the ledger it leaves. */
  lemma AnswerReflectsOrder(w: World, cfg: Config, id: OrderId, auth: T.Authorization, env: Env)
    requires Inv(w, cfg) && cfg.idempotent && id in w.orders && !Pay(w, cfg, id, auth, env).1.Raised?
    ensures var (v, answer) := Pay(w, cfg, id, auth, env);
            && id in v.orders
            && (v.orders[id].paid <==> answer.AlreadySettled? || (answer.Confirmed? && answer.settled))
            && (if answer.SettlementPending? then v.orders[id].pendingTx == Some(answer.tx) else v.orders[id].pendingTx.None?)
  {
    hide Inv, LogIndex, QueriesLogs, Receipt, C.Run, HexWord, SafeToSubmit, C.Next, IdentityOf;
    PendingFacts(w, cfg, id);
  }

  /**
   Every answer about a known order parses, and means what it says: settled exactly when the order is
   now paid, pending exactly when the transaction it names is now the order's pending one.
   */
  lemma AnswersMeanTheLedger(w: World, cfg: Config, id: OrderId, auth: T.Authorization, env: Env, text: string)
    requires Inv(w, cfg) && cfg.idempotent && id in w.orders && S.OrderIdText(text)
    requires !Pay(w, cfg, id, auth, env).1.Raised?
    ensures var (v, answer) := Pay(w, cfg, id, auth, env);
            var parsed := S.ParsePay(Json.Obj(S.AnswerMembers(text, answer)), Some(text));
            && id in v.orders && parsed.Ok? && parsed.value.orderId == text
            && (parsed.value.Outcome() == S.SETTLED <==> v.orders[id].paid)
            && (parsed.value.Outcome() == S.PENDING <==>
                  v.orders[id].pendingTx.Some? && parsed.value.submittedTx == Some(HexWord(v.orders[id].pendingTx.value)))
  {
    hide Inv, Pay, S.ParsePay, S.AnswerMembers, S.OrderIdText, HexWord;
    AnswerReflectsOrder(w, cfg, id, auth, env);
    S.AnswerParses(text, Pay(w, cfg, id, auth, env).1);
  }
}
