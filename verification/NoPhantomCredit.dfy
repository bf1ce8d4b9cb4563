/**
 No phantom credit, in every configuration, event mode and backup/restore history: every paid order
 names a real Transfer to the merchant over its own amount, and no two ordinary orders name the same one.
 */
module NoPhantomCredit {
  import opened Common
  import opened Evidence
  import opened Protocol
  import opened ChainTruth
  import T = Token
  import C = Chain
  import R = Reconciliation

  // ---------------------------------------------------------------- the invariant

  /** A Transfer log to the merchant that an order of this amount may name. */
  ghost predicate Settles(c: C.Chain, cfg: Config, o: Order, l: C.LogEntry) {
    && l in C.AllLogs(c)
    && l.event.Transfer? && l.event.to == cfg.merchant && l.event.value == o.amount
    && o.identity == Some(IdentityOf(cfg, l.tx, l.index))
  }

  ghost predicate Backed(c: C.Chain, cfg: Config, o: Order) {
    o.paid ==> exists l :: Settles(c, cfg, o, l)
  }

  /** An ordinary order's identity, pending transaction and pending authorization come from its own broadcasts. */
  ghost predicate Linked(sent: seq<Sent>, id: OrderId, o: Order) {
    && (o.pendingTx.Some? ==> o.pendingAuthorization.Some? && Sent(id, o.pendingTx.value, o.pendingAuthorization.value) in sent)
    && (id.Ordinary? && o.paid ==> exists s :: s in sent && s.order == id && o.identity.Some? && o.identity.value.txHash == HexWord(s.tx))
  }

  /** A pending order of an idempotent SUT is unpaid and its pending transaction is the submitted one. */
  ghost predicate SlotOk(cfg: Config, o: Order) {
    && (o.paid ==> o.submittedTx.Some?)
    && (cfg.idempotent && o.pendingTx.Some? ==> !o.paid && o.submittedTx == o.pendingTx)
  }

  ghost predicate OrderOk(c: C.Chain, sent: seq<Sent>, cfg: Config, id: OrderId, o: Order) {
    Backed(c, cfg, o) && Linked(sent, id, o) && SlotOk(cfg, o)
  }

  ghost predicate LedgerOk(w: World, cfg: Config, orders: Ledger) {
    forall id :: id in orders ==> OrderOk(w.chain, w.sent, cfg, id, orders[id]) && (id.Ordinary? ==> id in w.issued)
  }

  /** Every broadcast has its own transaction, carrying exactly the recorded authorization over the price. */
  ghost predicate SentOk(w: World, cfg: Config) {
    && (forall i, j :: 0 <= i < j < |w.sent| ==> w.sent[i].tx != w.sent[j].tx)
    && (forall s :: s in w.sent ==>
          && s.tx in w.chain.pool && w.chain.pool[s.tx] == T.TransferWithAuthorization(s.auth)
          && s.auth.to == cfg.merchant && s.auth.value == cfg.price && s.auth.from != T.ZERO)
  }

  ghost predicate Inv(w: World, cfg: Config) {
    && ValidConfig(cfg)
    && C.Valid(w.chain)
    && SentOk(w, cfg)
    && LedgerOk(w, cfg, w.orders)
    && (forall b :: b in w.backups ==> LedgerOk(w, cfg, b))
  }

  /** What every step keeps of the world besides the ledger. */
  ghost predicate Grows(w: World, v: World) {
    && C.Extends(w.chain, v.chain)
    && w.sent <= v.sent
    && w.issued <= v.issued
    && w.backups <= v.backups
  }

  // ---------------------------------------------------------------- growth

  lemma OrderOkGrows(w: World, v: World, cfg: Config, id: OrderId, o: Order)
    requires C.Valid(w.chain) && C.Valid(v.chain) && Grows(w, v) && OrderOk(w.chain, w.sent, cfg, id, o)
    ensures OrderOk(v.chain, v.sent, cfg, id, o)
  {
    forall s | s in w.sent ensures s in v.sent {
      var i :| 0 <= i < |w.sent| && w.sent[i] == s;
      assert v.sent[i] == s;
    }
    if o.paid {
      var l :| Settles(w.chain, cfg, o, l);
      C.LogsPersist(w.chain, v.chain, l);
      assert Settles(v.chain, cfg, o, l);
    }
  }

  lemma LedgerOkGrows(w: World, v: World, cfg: Config, orders: Ledger)
    requires C.Valid(w.chain) && C.Valid(v.chain) && Grows(w, v) && LedgerOk(w, cfg, orders)
    ensures LedgerOk(v, cfg, orders)
  {
    hide OrderOk;
    forall id | id in orders ensures OrderOk(v.chain, v.sent, cfg, id, orders[id]) {
      OrderOkGrows(w, v, cfg, id, orders[id]);
    }
  }

  /** The chain moving on disturbs nothing. */
  lemma ChainMovesKeepsInv(w: World, cfg: Config, steps: seq<C.ChainStep>)
    requires Inv(w, cfg)
    ensures Inv(w.(chain := C.Run(w.chain, steps)), cfg) && Grows(w, w.(chain := C.Run(w.chain, steps)))
  {
    hide OrderOk, C.Valid;
    var v := w.(chain := C.Run(w.chain, steps));
    C.RunKeepsValid(w.chain, steps);
    LedgerOkGrows(w, v, cfg, w.orders);
    forall b | b in w.backups ensures LedgerOk(v, cfg, b) {
      LedgerOkGrows(w, v, cfg, b);
    }
  }

  /** Replacing one order by a good one keeps the ledger good. */
  lemma WithOrderKeepsInv(w: World, cfg: Config, id: OrderId, o: Order)
    requires Inv(w, cfg) && id in w.orders && OrderOk(w.chain, w.sent, cfg, id, o)
    ensures Inv(WithOrder(w, id, o), cfg) && Grows(w, WithOrder(w, id, o))
  {
    hide OrderOk, C.Valid;
    var v := WithOrder(w, id, o);
    forall b | LedgerOk(w, cfg, b) ensures LedgerOk(v, cfg, b) {
    }
  }

  // ---------------------------------------------------------------- the requests

  /** The world right after the broadcast, before the order is touched. */
  ghost function Announced(w: World, id: OrderId, auth: T.Authorization, tx: Hash): World {
    w.(chain := C.Next(w.chain, C.Submit(tx, T.TransferWithAuthorization(auth))), sent := w.sent + [Sent(id, tx, auth)])
  }

  lemma AnnouncedSentOk(w: World, cfg: Config, id: OrderId, auth: T.Authorization, env: Env)
    requires SentOk(w, cfg) && SafeToSubmit(w, cfg, auth, env)
    ensures SentOk(Announced(w, id, auth, env.tx), cfg)
  {
    var v := Announced(w, id, auth, env.tx);
    forall s | s in v.sent
      ensures s.tx in v.chain.pool && v.chain.pool[s.tx] == T.TransferWithAuthorization(s.auth)
      ensures s.auth.to == cfg.merchant && s.auth.value == cfg.price && s.auth.from != T.ZERO
    {
      if s !in w.sent {
        assert s == Sent(id, env.tx, auth);
      }
    }
    forall i, j | 0 <= i < j < |v.sent| ensures v.sent[i].tx != v.sent[j].tx {
      assert v.sent[i] in w.sent;
    }
  }

  lemma AnnouncedKeepsInv(w: World, cfg: Config, id: OrderId, auth: T.Authorization, env: Env)
    requires Inv(w, cfg) && SafeToSubmit(w, cfg, auth, env)
    ensures Inv(Announced(w, id, auth, env.tx), cfg) && Grows(w, Announced(w, id, auth, env.tx))
  {
    C.NextKeepsValid(w.chain, C.Submit(env.tx, T.TransferWithAuthorization(auth)));
    AnnouncedSentOk(w, cfg, id, auth, env);
    hide C.Valid, OrderOk, SentOk, SafeToSubmit, C.Next;
    var v := Announced(w, id, auth, env.tx);
    LedgerOkGrows(w, v, cfg, w.orders);
    forall b | b in w.backups ensures LedgerOk(v, cfg, b) {
      LedgerOkGrows(w, v, cfg, b);
    }
  }

  /** Only fields the order's own evidence does not depend on change with a new attempt. */
  lemma AttemptedOrderOk(c: C.Chain, sent: seq<Sent>, cfg: Config, id: OrderId, o: Order, auth: T.Authorization, tx: Hash)
    requires OrderOk(c, sent, cfg, id, o)
    ensures OrderOk(c, sent, cfg, id, Attempted(o, auth))
    ensures (cfg.idempotent ==> o.pendingTx.None?) ==> OrderOk(c, sent, cfg, id, Attempted(o, auth).(submittedTx := Some(tx)))
  {
    if o.paid {
      var l :| Settles(c, cfg, o, l);
      assert Settles(c, cfg, Attempted(o, auth), l);
      assert Settles(c, cfg, Attempted(o, auth).(submittedTx := Some(tx)), l);
    }
  }

  lemma BroadcastKeepsInv(w: World, cfg: Config, id: OrderId, auth: T.Authorization, env: Env)
    requires Inv(w, cfg) && id in w.orders && SafeToSubmit(w, cfg, auth, env)
    requires cfg.idempotent ==> w.orders[id].pendingTx.None?
    ensures Inv(Broadcast(w, id, auth, env.tx), cfg) && Grows(w, Broadcast(w, id, auth, env.tx))
  {
    AnnouncedKeepsInv(w, cfg, id, auth, env);
    var v := Announced(w, id, auth, env.tx);
    AttemptedOrderOk(v.chain, v.sent, cfg, id, v.orders[id], auth, env.tx);
    hide C.Valid, OrderOk, SentOk, SafeToSubmit, C.Next;
    WithOrderKeepsInv(v, cfg, id, Attempted(v.orders[id], auth).(submittedTx := Some(env.tx)));
  }

  lemma ClearedOrderOk(c: C.Chain, sent: seq<Sent>, cfg: Config, id: OrderId, o: Order)
    requires OrderOk(c, sent, cfg, id, o)
    ensures OrderOk(c, sent, cfg, id, Cleared(o))
  {
    if o.paid {
      var l :| Settles(c, cfg, o, l);
      assert Settles(c, cfg, Cleared(o), l);
    }
  }

  lemma ParkedOrderOk(c: C.Chain, sent: seq<Sent>, cfg: Config, id: OrderId, o: Order, auth: T.Authorization, tx: Hash)
    requires OrderOk(c, sent, cfg, id, o) && Sent(id, tx, auth) in sent
    requires cfg.idempotent ==> !o.paid && o.submittedTx == Some(tx)
    ensures OrderOk(c, sent, cfg, id, Parked(o, auth, tx))
  {
    if o.paid {
      var l :| Settles(c, cfg, o, l);
      assert Settles(c, cfg, Parked(o, auth, tx), l);
    }
  }

  lemma CreditedOrderOk(c: C.Chain, sent: seq<Sent>, cfg: Config, id: OrderId, o: Order, auth: T.Authorization, tx: Hash)
    requires C.Valid(c) && Sent(id, tx, auth) in sent && o.submittedTx.Some?
    requires LogIndex(c, cfg, auth, o, tx).Some?
    ensures OrderOk(c, sent, cfg, id, Credited(o, id, IdentityOf(cfg, tx, LogIndex(c, cfg, auth, o, tx).value)))
  {
    hide LogIndex, C.Valid, HexWord, HexAddress;
    var l := DecisionIsLog(c, cfg, auth, o, tx);
    var credited := Credited(o, id, IdentityOf(cfg, tx, LogIndex(c, cfg, auth, o, tx).value));
    assert Settles(c, cfg, credited, l);
    var s := Sent(id, tx, auth);
    assert s in sent && s.order == id && credited.identity.value.txHash == HexWord(s.tx);
  }

  /** Confirming one of an order's own broadcasts. */
  lemma ConfirmKeepsInv(w: World, cfg: Config, id: OrderId, auth: T.Authorization, tx: Hash, env: Env)
    requires Inv(w, cfg) && id in w.orders && Sent(id, tx, auth) in w.sent
    requires w.orders[id].submittedTx.Some?
    requires cfg.idempotent ==> !w.orders[id].paid && w.orders[id].submittedTx == Some(tx)
    ensures Inv(Confirm(w, cfg, id, auth, tx, env).0, cfg) && Grows(w, Confirm(w, cfg, id, auth, tx, env).0)
  {
    ChainMovesKeepsInv(w, cfg, env.during);
    var v := w.(chain := C.Run(w.chain, env.during));
    var o := v.orders[id];
    assert OrderOk(v.chain, v.sent, cfg, id, o);
    ConfirmOutcome(w, cfg, id, auth, tx, env);
    ClearedOrderOk(v.chain, v.sent, cfg, id, o);
    ParkedOrderOk(v.chain, v.sent, cfg, id, o, auth, tx);
    if LogIndex(v.chain, cfg, auth, o, tx).Some? {
      CreditedOrderOk(v.chain, v.sent, cfg, id, o, auth, tx);
    }
    var w' := Confirm(w, cfg, id, auth, tx, env).0;
    hide Inv, Confirm, OrderOk, LogIndex, C.Run, Parked, Cleared, Credited, IdentityOf;
    WithOrderKeepsInv(v, cfg, id, w'.orders[id]);
    GrowsTransitive(w, v, w');
  }

  lemma ConfirmOutcome(w: World, cfg: Config, id: OrderId, auth: T.Authorization, tx: Hash, env: Env)
    requires id in w.orders
    ensures var v := w.(chain := C.Run(w.chain, env.during));
            var o := v.orders[id];
            var w' := Confirm(w, cfg, id, auth, tx, env).0;
            && id in w'.orders && w' == WithOrder(v, id, w'.orders[id])
            && (|| w'.orders[id] == Parked(o, auth, tx)
                || w'.orders[id] == Cleared(o)
                || (LogIndex(v.chain, cfg, auth, o, tx).Some?
                    && w'.orders[id] == Credited(o, id, IdentityOf(cfg, tx, LogIndex(v.chain, cfg, auth, o, tx).value))))
  {
    hide LogIndex, QueriesLogs, Receipt, C.Run, IdentityOf;
  }

  lemma PayKeepsInv(w: World, cfg: Config, id: OrderId, auth: T.Authorization, env: Env)
    requires Inv(w, cfg)
    ensures Inv(Pay(w, cfg, id, auth, env).0, cfg) && Grows(w, Pay(w, cfg, id, auth, env).0)
  {
    if id in w.orders {
      var o := w.orders[id];
      assert OrderOk(w.chain, w.sent, cfg, id, o);
      if o.pendingTx.Some? && o.pendingAuthorization.Some? && cfg.idempotent && !o.paid {
        hide C.Valid, Confirm, SentOk;
        ConfirmKeepsInv(w, cfg, id, o.pendingAuthorization.value, o.pendingTx.value, env);
      } else {
        AttemptedOrderOk(w.chain, w.sent, cfg, id, o, auth, env.tx);
        hide C.Valid, Confirm, SentOk, OrderOk, SafeToSubmit;
        WithOrderKeepsInv(w, cfg, id, Attempted(o, auth));
        if SafeToSubmit(w, cfg, auth, env) && (cfg.idempotent ==> !o.paid && o.pendingTx.None?) {
          FreshPayKeepsInv(w, cfg, id, auth, env);
        }
      }
    }
  }

  lemma FreshPayKeepsInv(w: World, cfg: Config, id: OrderId, auth: T.Authorization, env: Env)
    requires Inv(w, cfg) && id in w.orders && SafeToSubmit(w, cfg, auth, env)
    requires cfg.idempotent ==> !w.orders[id].paid && w.orders[id].pendingTx.None?
    ensures var v := Confirm(Broadcast(w, id, auth, env.tx), cfg, id, auth, env.tx, env).0; Inv(v, cfg) && Grows(w, v)
  {
    hide Inv, Confirm, SafeToSubmit;
    BroadcastKeepsInv(w, cfg, id, auth, env);
    var v := Broadcast(w, id, auth, env.tx);
    assert v.sent[|w.sent|] == Sent(id, env.tx, auth);
    ConfirmKeepsInv(v, cfg, id, auth, env.tx, env);
    GrowsTransitive(w, v, Confirm(v, cfg, id, auth, env.tx, env).0);
  }

  lemma GrowsTransitive(u: World, v: World, w: World)
    requires Grows(u, v) && Grows(v, w)
    ensures Grows(u, w)
  {
    C.ExtendsTransitive(u.chain, v.chain, w.chain);
  }

  // ---------------------------------------------------------------- reconciliation

  lemma MerchantTransfers(c: C.Chain, cfg: Config, fromBlock: nat, l: C.LogEntry)
    requires C.Valid(c)
    ensures l in MerchantLogs(c, cfg, fromBlock)
       <==> l in C.AllLogs(c) && fromBlock <= l.block && l.event.Transfer? && l.event.to == cfg.merchant
  {
    FilterMeaning(cfg, l.event);
    if l in C.AllLogs(c) {
      LogBounds(c, l);
    }
    hide TopicsMatch, MerchantFilter, EventTopics;
  }

  lemma LogBounds(c: C.Chain, l: C.LogEntry)
    requires C.Valid(c) && l in C.AllLogs(c)
    ensures l.block <= c.Height() && l.block <= UINT256_MAX && l.index < UINT256_MAX
  {
    C.LogsAreEvents(c, l);
    var i: nat, j: nat :| C.IsLog(c, l, i, j);
    assert C.EntryOk(c, i);
  }

  lemma FilterTransfer(cfg: Config, from: Address, to: Address, value: Uint256)
    ensures TopicsMatch(MerchantFilter(cfg), EventTopics(T.Transfer(from, to, value))) <==> to == cfg.merchant
  {
    hide HexWord;
    HexWordInjective(to, cfg.merchant);
    var filter, topics := MerchantFilter(cfg), EventTopics(T.Transfer(from, to, value));
    assert filter[0] == Some(topics[0]) && filter[1] == None && filter[2] == Some(HexWord(cfg.merchant)) && topics[2] == HexWord(to);
  }

  lemma FilterMeaning(cfg: Config, event: T.Event)
    ensures TopicsMatch(MerchantFilter(cfg), EventTopics(event)) <==> event.Transfer? && event.to == cfg.merchant
  {
    TopicsDiffer();
    hide HexWord;
    if event.Transfer? {
      FilterTransfer(cfg, event.from, event.to, event.value);
    } else {
      var filter, topics := MerchantFilter(cfg), EventTopics(event);
      assert |topics| < 3 || (filter[0] == Some(TOPIC_TRANSFER) && topics[0] != TOPIC_TRANSFER);
    }
  }

  /** Every credit the reconciliation reports is a Transfer to the merchant, exactly as the chain logged it. */
  lemma CreditIsLog(c: C.Chain, cfg: Config, fromBlock: nat, orders: Ledger, credit: R.OnChainCredit) returns (l: C.LogEntry)
    requires ValidConfig(cfg) && C.Valid(c)
    requires Gap(c, cfg, orders, fromBlock).Some? && credit in Gap(c, cfg, orders, fromBlock).value
    ensures l in MerchantLogs(c, cfg, fromBlock) && l.event.Transfer? && l.event.to == cfg.merchant
    ensures l.block <= UINT256_MAX && l.index <= UINT256_MAX
    ensures credit == R.CreditOf(cfg.token, cfg.chainId, l)
  {
    hide R.DecodeTransferLog, EncodeLog, MerchantLogs, R.CreditLess, HexWord, HexAddress;
    var logs := MerchantLogs(c, cfg, fromBlock);
    var raws := EncodeLogs(cfg.token, logs);
    R.MissingArranged(raws, PaidIdentities(orders), MerchantScope(cfg));
    var raw :| raw in raws && R.Observe(raw, MerchantScope(cfg)) == Common.Ok(credit);
    var i :| 0 <= i < |raws| && raws[i] == raw;
    l := logs[i];
    MerchantTransfers(c, cfg, fromBlock, l);
    LogBounds(c, l);
    R.DecodeOfTransfer(cfg.token, cfg.chainId, l);
  }

  lemma RecoveredOrderOk(w: World, cfg: Config, fromBlock: nat, credit: R.OnChainCredit)
    requires Inv(w, cfg) && Gap(w.chain, cfg, w.orders, fromBlock).Some?
    requires credit in Gap(w.chain, cfg, w.orders, fromBlock).value
    ensures OrderOk(w.chain, w.sent, cfg, RecoveredId(credit), RecoveredOrder(credit))
  {
    hide Gap, MerchantLogs, HashOfText, IdentityKey, LedgerOk;
    var l := CreditIsLog(w.chain, cfg, fromBlock, w.orders, credit);
    MerchantTransfers(w.chain, cfg, fromBlock, l);
    assert Settles(w.chain, cfg, RecoveredOrder(credit), l);
  }

  lemma {:induction false} HealKeepsInv(w: World, cfg: Config, fromBlock: nat, credits: seq<R.OnChainCredit>)
    requires Inv(w, cfg) && Gap(w.chain, cfg, w.orders, fromBlock).Some?
    requires forall c :: c in credits ==> c in Gap(w.chain, cfg, w.orders, fromBlock).value
    ensures LedgerOk(w, cfg, Heal(w.orders, credits))
  {
    hide Gap, OrderOk, C.Valid, SentOk, RecoveredOrder, IdentityKey;
    if credits != [] {
      var last := credits[|credits| - 1];
      HealKeepsInv(w, cfg, fromBlock, credits[..|credits| - 1]);
      assert last in credits;
      RecoveredOrderOk(w, cfg, fromBlock, last);
    }
  }

  lemma NextKeepsInv(w: World, cfg: Config, step: Step)
    requires Inv(w, cfg)
    ensures Inv(Next(w, cfg, step), cfg) && Grows(w, Next(w, cfg, step))
  {
    hide C.Valid, Pay, Gap, Heal;
    var v := Next(w, cfg, step);
    match step
    case PayStep(id, auth, env) => PayKeepsInv(w, cfg, id, auth, env);
    case ChainMoves(steps) => ChainMovesKeepsInv(w, cfg, steps);
    case ReconcileStep(fromBlock) =>
      if Gap(w.chain, cfg, w.orders, fromBlock).Some? && cfg.healing {
        HealKeepsInv(w, cfg, fromBlock, Gap(w.chain, cfg, w.orders, fromBlock).value);
        OthersUntouched(w, v, cfg);
      }
    case QuoteStep(_, _) => OthersUntouched(w, v, cfg);
    case SetFairPrice(_) => OthersUntouched(w, v, cfg);
    case Backup => OthersUntouched(w, v, cfg);
    case Restore(_) => OthersUntouched(w, v, cfg);
  }

  /** Steps that leave the chain and the broadcasts alone keep every good ledger good. */
  lemma OthersUntouched(w: World, v: World, cfg: Config)
    requires v.chain == w.chain && v.sent == w.sent && w.issued <= v.issued
    ensures forall b :: LedgerOk(w, cfg, b) ==> LedgerOk(v, cfg, b)
    ensures SentOk(w, cfg) ==> SentOk(v, cfg)
  {
    hide OrderOk;
  }

  lemma {:induction false} RunKeepsInv(w: World, cfg: Config, steps: seq<Step>)
    requires Inv(w, cfg)
    ensures Inv(Run(w, cfg, steps), cfg) && Grows(w, Run(w, cfg, steps))
    decreases |steps|
  {
    if steps != [] {
      var v := Next(w, cfg, steps[0]);
      NextKeepsInv(w, cfg, steps[0]);
      hide Inv, Next;
      RunKeepsInv(v, cfg, steps[1..]);
      GrowsTransitive(w, v, Run(v, cfg, steps[1..]));
    }
  }

  lemma LaunchInv(cfg: Config, admin: Address, genesisHead: C.Head)
    requires ValidConfig(cfg)
    ensures Inv(Launch(cfg, admin, genesisHead), cfg)
  {
    C.LaunchedIsValid(admin, genesisHead);
  }

  // ---------------------------------------------------------------- the theorem

  /**
   In any run, each paid order names a Transfer log of the token to the merchant over its own amount,
   emitted by a transaction that succeeded.
   */
  lemma PaidOrdersAreFunded(cfg: Config, admin: Address, genesisHead: C.Head, steps: seq<Step>, id: OrderId)
    returns (l: C.LogEntry)
    requires ValidConfig(cfg)
    requires var w := Run(Launch(cfg, admin, genesisHead), cfg, steps); id in w.orders && w.orders[id].paid
    ensures var w := Run(Launch(cfg, admin, genesisHead), cfg, steps);
            && Settles(w.chain, cfg, w.orders[id], l)
            && l.tx in w.chain.included && w.chain.included[l.tx] < |w.chain.entries|
            && w.chain.entries[w.chain.included[l.tx]].Succeeded()
  {
    LaunchInv(cfg, admin, genesisHead);
    RunKeepsInv(Launch(cfg, admin, genesisHead), cfg, steps);
    hide Run, Launch;
    var w := Run(Launch(cfg, admin, genesisHead), cfg, steps);
    l :| Settles(w.chain, cfg, w.orders[id], l);
    C.LogsAreEvents(w.chain, l);
    var i: nat, j: nat :| C.IsLog(w.chain, l, i, j);
    assert C.EntryOk(w.chain, i);
  }

  lemma OwnBroadcast(w: World, cfg: Config, id: OrderId) returns (s: Sent)
    requires Inv(w, cfg) && id.Ordinary? && id in w.orders && w.orders[id].paid
    ensures s in w.sent && s.order == id && w.orders[id].identity.Some?
    ensures w.orders[id].identity.value.txHash == HexWord(s.tx)
  {
    hide Backed, SlotOk, C.Valid, SentOk;
    assert Linked(w.sent, id, w.orders[id]);
    var o := w.orders[id];
    s :| s in w.sent && s.order == id && o.identity.Some? && o.identity.value.txHash == HexWord(s.tx);
  }

  lemma OneOrderPerTransaction(w: World, cfg: Config, s: Sent, t: Sent)
    requires SentOk(w, cfg) && s in w.sent && t in w.sent && s.tx == t.tx
    ensures s == t
  {
    var i :| 0 <= i < |w.sent| && w.sent[i] == s;
    var j :| 0 <= j < |w.sent| && w.sent[j] == t;
  }

  /** In any run, two different ordinary paid orders never name the same settlement. */
  lemma PaidOrdersAreDistinct(cfg: Config, admin: Address, genesisHead: C.Head, steps: seq<Step>, a: OrderId, b: OrderId)
    requires ValidConfig(cfg) && a.Ordinary? && b.Ordinary? && a != b
    requires var w := Run(Launch(cfg, admin, genesisHead), cfg, steps);
             a in w.orders && b in w.orders && w.orders[a].paid && w.orders[b].paid
    ensures var w := Run(Launch(cfg, admin, genesisHead), cfg, steps); w.orders[a].identity != w.orders[b].identity
  {
    LaunchInv(cfg, admin, genesisHead);
    RunKeepsInv(Launch(cfg, admin, genesisHead), cfg, steps);
    hide Run, Launch, LedgerOk, SentOk, C.Valid, HexWord;
    var w := Run(Launch(cfg, admin, genesisHead), cfg, steps);
    var s := OwnBroadcast(w, cfg, a);
    var t := OwnBroadcast(w, cfg, b);
    HexWordInjective(s.tx, t.tx);
    if s.tx == t.tx {
      OneOrderPerTransaction(w, cfg, s, t);
    }
  }
}
