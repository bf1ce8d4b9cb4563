/**
 The one gap in at-most-once funding. _confirm clears the pending slot before it queries the logs; if
 that query fails after a successful settlement, the order is unpaid with nothing pending, and a retry
 with a new authorization is broadcast and funds the order a second time.
 */
module LostLogQuery {
  import opened Common
  import opened Evidence
  import opened QuoteOption
  import opened Protocol
  import opened ChainTruth
  import opened NoPhantomCredit
  import opened Funding
  import T = Token
  import C = Chain
  import F = Confirmer

  lemma QueryFollowsSuccess(c: C.Chain, cfg: Config, auth: T.Authorization, o: Order, tx: Hash)
    requires C.Valid(c) && !cfg.confirmWithoutWaiting
    requires Known(c, tx) ==> o.createdBlock <= c.entries[c.included[tx]].block
    ensures QueriesLogs(c, cfg, auth, o, tx) <==> Succeeded(c, tx)
  {
    ReceiptMeansKnown(c, cfg.token, tx);
    if Known(c, tx) {
      var e := c.entries[c.included[tx]];
      assert e.hash == tx;
      F.ReceiptBlockOnTruth(cfg.token, cfg.merchant, auth, o.amount, e, C.BlockHash(c.heads, e.block), o.createdBlock);
    }
    hide F.ReceiptBlock, EncodeReceipt, F.TruthOrder;
  }

  /** What the decision on a success of this authorization comes to. */
  lemma SettlementDecision(c: C.Chain, i: nat, merchant: Address, auth: T.Authorization, amount: nat, fromBlock: nat)
    requires C.Valid(c) && i < |c.entries| && c.entries[i].Succeeded() && c.entries[i].call == T.TransferWithAuthorization(auth)
    requires auth.to == merchant && auth.value == amount && fromBlock <= c.entries[i].block
    ensures F.TrueDecision(c.entries[i], merchant, auth, amount, fromBlock).Some? <==> c.entries[i].pre.eventMode == 0
  {
    assert C.EntryOk(c, i);
    assert c.entries[i].Events() == T.SettlementEvents(auth, c.entries[i].pre.eventMode);
  }

  /** A success of the order's own broadcast is recognized exactly when the token emitted the legacy event. */
  lemma SuccessIsSeen(v: World, cfg: Config, id: OrderId, auth: T.Authorization, tx: Hash)
    requires Waiting(v, cfg, id, auth, tx) && !cfg.confirmWithoutWaiting && Succeeded(v.chain, tx)
    ensures LogIndex(v.chain, cfg, auth, v.orders[id], tx).Some? <==> v.chain.entries[v.chain.included[tx]].pre.eventMode == 0
  {
    hide LogIndex, LedgerOk, OrderFate, C.Valid, F.TrueDecision;
    var s := Sent(id, tx, auth);
    assert SentFate(v.chain, cfg, s, v.orders[id]);
    CallOfTx(v, cfg, s);
    LogIndexIsTrue(v.chain, cfg, auth, v.orders[id], tx);
    SettlementDecision(v.chain, v.chain.included[tx], cfg.merchant, auth, v.orders[id].amount, v.orders[id].createdBlock);
  }

  lemma IndexMeansSuccess(v: World, cfg: Config, auth: T.Authorization, o: Order, tx: Hash)
    requires C.Valid(v.chain) && LogIndex(v.chain, cfg, auth, o, tx).Some?
    ensures Succeeded(v.chain, tx)
  {
    hide LogIndex;
    var l := DecisionIsLog(v.chain, cfg, auth, o, tx);
  }

  /**
   Exactly when the slot is lost, on any event: confirming an order's broadcast leaves it unpaid, with
   nothing pending and its broadcast not failed, if and only if the receipt of a success was read and
   either the log query failed or the token had drifted off the legacy event.
   */
  lemma SlotLostExactlyWhen(w: World, cfg: Config, id: OrderId, auth: T.Authorization, tx: Hash, env: Env)
    requires Waiting(w, cfg, id, auth, tx) && WaitingAndIdempotent(cfg)
    ensures var v := Confirm(w, cfg, id, auth, tx, env).0;
            && id in v.orders
            && (!Resolved(v.chain, id, v.orders[id]) <==>
                  && env.receiptArrives && Succeeded(v.chain, tx)
                  && (!env.logsArrive || v.chain.entries[v.chain.included[tx]].pre.eventMode != 0))
  {
    hide LogIndex, C.Run, Receipt, IdentityOf, QueriesLogs;
    var v := w.(chain := C.Run(w.chain, env.during));
    WaitingMoves(w, cfg, id, auth, tx, env.during);
    assert SentFate(v.chain, cfg, Sent(id, tx, auth), v.orders[id]);
    QueryFollowsSuccess(v.chain, cfg, auth, v.orders[id], tx);
    ReceiptMeansKnown(v.chain, cfg.token, tx);
    if Succeeded(v.chain, tx) {
      SuccessIsSeen(v, cfg, id, auth, tx);
    } else if LogIndex(v.chain, cfg, auth, v.orders[id], tx).Some? {
      IndexMeansSuccess(v, cfg, auth, v.orders[id], tx);
    }
    hide Inv, Fate;
  }

  // ---------------------------------------------------------------- a lost slot lets any funded retry through

  /** An order left unpaid with nothing pending although one of its broadcasts succeeded. */
  ghost predicate LostSlot(w: World, id: OrderId, s: Sent) {
    && s in w.sent && s.order == id && Succeeded(w.chain, s.tx)
    && id in w.orders && !w.orders[id].paid && w.orders[id].pendingTx.None?
  }

  /** The guards a payment of this order passes right now. */
  ghost predicate PassesGuards(w: World, cfg: Config, id: OrderId, auth: T.Authorization, env: Env)
    requires id in w.orders
  {
    && env.now <= w.orders[id].expiresAt
    && !(cfg.repriceOnPay && QuoteIsStale(w.orders[id].amount, w.fairPrice, cfg.tolerance))
    && SafeToSubmit(w, cfg, auth, env)
  }

  /** The token would execute this authorization in the open block. */
  ghost predicate Executable(c: C.Chain, auth: T.Authorization) {
    && 0 < c.Height() < |c.heads| && C.NextLog(c.entries, c.Height()) + 2 <= UINT256_MAX
    && T.Authorized(c.Now(), auth, c.heads[c.Height()].time) && auth.value * c.Now().feeBps <= UINT256_MAX
  }

  lemma PayIsBroadcast(w: World, cfg: Config, id: OrderId, auth: T.Authorization, env: Env)
    requires id in w.orders && !w.orders[id].paid && w.orders[id].pendingTx.None? && PassesGuards(w, cfg, id, auth, env)
    ensures Pay(w, cfg, id, auth, env) == Confirm(Broadcast(w, id, auth, env.tx), cfg, id, auth, env.tx, env)
  {
    hide Confirm, Broadcast, SafeToSubmit;
  }

  lemma PayKeepsBackups(w: World, cfg: Config, id: OrderId, auth: T.Authorization, env: Env)
    ensures Pay(w, cfg, id, auth, env).0.backups == w.backups
  {
    hide LogIndex, QueriesLogs, Receipt, SafeToSubmit, QuoteIsStale, C.Run, C.Next;
  }

  /** Including a pooled, authorized transfer succeeds. */
  lemma TransferIncluded(c: C.Chain, tx: Hash, auth: T.Authorization)
    requires C.Valid(c) && C.CanInclude(c, tx) && c.pool[tx] == T.TransferWithAuthorization(auth)
    requires T.Authorized(c.Now(), auth, c.heads[c.Height()].time) && auth.value * c.Now().feeBps <= UINT256_MAX
    ensures Succeeded(C.Run(c, [C.Include(tx)]), tx)
    ensures C.Run(c, [C.Include(tx)]).Now() == T.After(c.Now(), T.TransferWithAuthorization(auth), c.heads[c.Height()].time)
    ensures C.Run(c, [C.Include(tx)]).heads == c.heads
    ensures |C.Run(c, [C.Include(tx)]).entries| == |c.entries| + 1
    ensures C.Run(c, [C.Include(tx)]).pool == c.pool && C.Run(c, [C.Include(tx)]).included == c.included[tx := |c.entries|]
    ensures C.NextLog(C.Run(c, [C.Include(tx)]).entries, c.Height()) <= C.NextLog(c.entries, c.Height()) + 2
  {
    C.StatesAreValid(c, |c.entries|);
    T.CreditsCannotOverflow(c.Now(), auth, c.heads[c.Height()].time);
    var d := C.Next(c, C.Include(tx));
    assert [C.Include(tx)][1..] == [];
    assert C.Run(c, [C.Include(tx)]) == d;
    hide T.ExecTransfer, C.Valid;
    assert d.entries[|c.entries|] == C.NewEntry(c, tx);
  }

  /** A broadcast of an executable authorization can be included, and then succeeds. */
  lemma BroadcastLands(w: World, cfg: Config, id: OrderId, auth: T.Authorization, tx: Hash)
    requires C.Valid(w.chain) && id in w.orders && tx !in w.chain.pool && Executable(w.chain, auth)
    ensures var b := Broadcast(w, id, auth, tx);
            && C.Valid(b.chain) && C.CanInclude(b.chain, tx)
            && Succeeded(C.Run(b.chain, [C.Include(tx)]), tx)
  {
    hide T.Authorized;
    NotYetKnown(w, tx);
    C.NextKeepsValid(w.chain, C.Submit(tx, T.TransferWithAuthorization(auth)));
    var b := Broadcast(w, id, auth, tx);
    hide C.Valid;
    TransferIncluded(b.chain, tx, auth);
  }

  lemma PaySends(w: World, cfg: Config, id: OrderId, auth: T.Authorization, env: Env)
    requires id in w.orders && !w.orders[id].paid && w.orders[id].pendingTx.None? && PassesGuards(w, cfg, id, auth, env)
    ensures var v := Pay(w, cfg, id, auth, env).0;
            && v.sent == w.sent + [Sent(id, env.tx, auth)]
            && v.chain == C.Run(Broadcast(w, id, auth, env.tx).chain, env.during)
  {
    PayIsBroadcast(w, cfg, id, auth, env);
    hide Pay, Confirm, PassesGuards, C.Run, LogIndex;
    ConfirmOutcome(Broadcast(w, id, auth, env.tx), cfg, id, auth, env.tx, env);
  }

  /**
   From any world with a lost slot, every retry that passes the guards with an authorization the token
   would execute funds the order a second time as soon as it is mined.
   */
  lemma LostSlotFundsTwice(w: World, cfg: Config, id: OrderId, s: Sent, auth: T.Authorization, env: Env)
    requires Inv(w, cfg) && LostSlot(w, id, s)
    requires PassesGuards(w, cfg, id, auth, env) && Executable(w.chain, auth) && env.during == [C.Include(env.tx)]
    ensures var v, t := Pay(w, cfg, id, auth, env).0, Sent(id, env.tx, auth);
            && s in v.sent && t in v.sent && s != t
            && Succeeded(v.chain, s.tx) && Succeeded(v.chain, t.tx)
  {
    hide LedgerOk, Pay, C.Run, Executable, C.Valid;
    BroadcastLands(w, cfg, id, auth, env.tx);
    PaySends(w, cfg, id, auth, env);
    PayKeepsInv(w, cfg, id, auth, env);
    var v := Pay(w, cfg, id, auth, env).0;
    assert v.sent[|w.sent|] == Sent(id, env.tx, auth);
    assert s in v.sent by {
      var i :| 0 <= i < |w.sent| && w.sent[i] == s;
      assert v.sent[i] == s;
    }
    FateOfTxPersists(w.chain, v.chain, s.tx);
  }

  /** What it takes for some retry to exist: an open quote, a fresh hash, an unused nonce and a funded payer. */
  ghost predicate RetryPossible(w: World, cfg: Config, id: OrderId, payer: Address, nonce: T.Nonce, tx: Hash, now: int) {
    var c := w.chain;
    && id in w.orders && now <= w.orders[id].expiresAt
    && !(cfg.repriceOnPay && QuoteIsStale(w.orders[id].amount, w.fairPrice, cfg.tolerance))
    && tx !in c.pool && payer != T.ZERO && cfg.merchant != T.ZERO
    && 0 < cfg.price <= UINT256_MAX && T.Balance(c.Now().balances, payer) >= cfg.price && (payer, nonce) !in c.Now().used
    && cfg.price * c.Now().feeBps <= UINT256_MAX
    && 0 < c.Height() < |c.heads| && C.NextLog(c.entries, c.Height()) + 2 <= UINT256_MAX
    && 0 < c.heads[c.Height()].time < UINT256_MAX
  }

  lemma PossibleRetry(w: World, cfg: Config, id: OrderId, payer: Address, nonce: T.Nonce, tx: Hash, now: int)
    returns (auth: T.Authorization)
    requires RetryPossible(w, cfg, id, payer, nonce, tx, now)
    ensures id in w.orders
    ensures PassesGuards(w, cfg, id, auth, Env(now, true, tx, [C.Include(tx)], true, true)) && Executable(w.chain, auth)
  {
    hide QuoteIsStale, C.NextLog;
    auth := T.Authorization(payer, cfg.merchant, cfg.price, 0, w.chain.heads[w.chain.Height()].time + 1, nonce, payer);
  }

  lemma LostOrder(w: World, id: OrderId, s: Sent)
    requires LostSlot(w, id, s)
    ensures s.order == id
  {
  }

  /**
   In any world that keeps the invariant, so in every reachable one, a lost slot and a funded payer are
   enough: one more payment funds the order a second time.
   */
  lemma FundedPayerFundsTwice(w: World, cfg: Config, id: OrderId, s: Sent, payer: Address, nonce: T.Nonce, tx: Hash, now: int)
    returns (retry: Step, t: Sent)
    requires Inv(w, cfg) && LostSlot(w, id, s) && RetryPossible(w, cfg, id, payer, nonce, tx, now)
    ensures retry.PayStep?
    ensures var v := Next(w, cfg, retry);
            && s in v.sent && t in v.sent && s != t && s.order == t.order == id
            && Succeeded(v.chain, s.tx) && Succeeded(v.chain, t.tx)
  {
    hide Inv, LostSlot, Pay, PassesGuards, Executable, RetryPossible, Succeeded;
    LostOrder(w, id, s);
    var auth := PossibleRetry(w, cfg, id, payer, nonce, tx, now);
    retry, t := PayStep(id, auth, Env(now, true, tx, [C.Include(tx)], true, true)), Sent(id, tx, auth);
    LostSlotFundsTwice(w, cfg, id, s, auth, retry.env);
  }

  // ---------------------------------------------------------------- a run that funds one order twice

  const CFG: Config := Config(1, 2, 1, 1, 100, true, false, Tolerance(0, 1), true, false)

  function Auth(nonce: T.Nonce): T.Authorization { T.Authorization(3, 2, 1, 0, 100, nonce, 3) }

  /** Fund the payer, quote, pay while the log query fails, and retry with a second authorization. */
  function DoubleRun(): seq<Step> {
    [ChainMoves([C.NewBlock(C.Head(1, 10)), C.Submit(100, T.Mint(3, 2)), C.Include(100)]),
     QuoteStep(0, 0),
     PayStep(Ordinary(0), Auth(1), Env(1, true, 101, [C.Include(101)], true, false)),
     PayStep(Ordinary(0), Auth(2), Env(1, true, 102, [C.Include(102)], true, true))]
  }

  function StartChain(): C.Chain { C.Launched(9, C.Head(0, 0)) }

  function MintedState(): T.TokenState { T.Deployed(9).(balances := map[3 := 2], totalSupply := 2) }

  function MintedEntry(): C.Entry {
    C.Entry(100, T.Mint(3, 2), 1, 0, T.Deployed(9), T.Done(MintedState(), [T.Transfer(0, 3, 2)]))
  }

  function MintedChain(): C.Chain {
    C.Chain(T.Deployed(9), [C.Head(0, 0), C.Head(1, 10)], [MintedEntry()], map[100 := T.Mint(3, 2)], map[100 := 0])
  }

  lemma MintStep()
    ensures C.Run(StartChain(), [C.NewBlock(C.Head(1, 10)), C.Submit(100, T.Mint(3, 2)), C.Include(100)]) == MintedChain()
  {
    var c1 := C.Next(StartChain(), C.NewBlock(C.Head(1, 10)));
    var c2 := C.Next(c1, C.Submit(100, T.Mint(3, 2)));
    assert T.Exec(T.Deployed(9), T.Mint(3, 2), 10) == T.Done(MintedState(), [T.Transfer(0, 3, 2)]);
    assert C.Next(c2, C.Include(100)) == MintedChain();
    var steps := [C.NewBlock(C.Head(1, 10)), C.Submit(100, T.Mint(3, 2)), C.Include(100)];
    assert steps[1..] == [C.Submit(100, T.Mint(3, 2)), C.Include(100)];
    assert steps[1..][1..] == [C.Include(100)];
    assert steps[1..][1..][1..] == [];
  }

  ghost function AfterFirst(): T.TokenState { T.After(MintedState(), T.TransferWithAuthorization(Auth(1)), 10) }

  lemma BothAuthorized()
    ensures T.Authorized(MintedState(), Auth(1), 10) && MintedState().feeBps == 0
    ensures T.Authorized(AfterFirst(), Auth(2), 10) && AfterFirst().feeBps == 0
  {
    assert T.Fee(1, 0) == 0;
    assert (3, 2) !in MintedState().used + {(3, 1)};
  }

  /** The world after a payment attempt whose transaction landed but whose order stayed unpaid. */
  ghost predicate OneFunded(v: World) {
    && v.sent == [Sent(Ordinary(0), 101, Auth(1))] && Succeeded(v.chain, 101)
    && Ordinary(0) in v.orders
    && (var o := v.orders[Ordinary(0)]; !o.paid && o.pendingTx.None? && o.expiresAt == 100)
    && v.chain.heads == MintedChain().heads
    && v.chain.pool.Keys == {100, 101} && v.chain.included.Keys == {100, 101}
    && C.NextLog(v.chain.entries, 1) <= 10
    && v.chain.Now() == AfterFirst()
  }

  ghost predicate Quoted(w: World) {
    && w.chain == MintedChain() && w.sent == []
    && w.orders == map[Ordinary(0) := Order(1, 100, 1, None, false, None, None, 1, false, 0, None, None, None)]
  }

  lemma FirstBroadcast(w: World, env: Env)
    requires Inv(w, CFG) && Quoted(w) && env == Env(1, true, 101, [C.Include(101)], true, false)
    ensures SafeToSubmit(w, CFG, Auth(1), env)
    ensures var b := Broadcast(w, Ordinary(0), Auth(1), 101);
            && Inv(b, CFG) && C.CanInclude(b.chain, 101) && b.chain.pool[101] == T.TransferWithAuthorization(Auth(1))
            && b.chain.Now() == MintedState() && b.chain.heads == MintedChain().heads && b.chain.entries == [MintedEntry()]
            && b.chain.pool.Keys == {100, 101} && b.chain.included == map[100 := 0]
  {
    hide Inv;
    BroadcastKeepsInv(w, CFG, Ordinary(0), Auth(1), env);
    assert C.NextLog([MintedEntry()], 1) == 1;
  }

  lemma FirstPay(w: World, env: Env)
    requires Inv(w, CFG) && Quoted(w) && env == Env(1, true, 101, [C.Include(101)], true, false)
    ensures OneFunded(Pay(w, CFG, Ordinary(0), Auth(1), env).0)
  {
    hide LogIndex, QueriesLogs, Receipt;
    FirstBroadcast(w, env);
    PayIsBroadcast(w, CFG, Ordinary(0), Auth(1), env);
    BothAuthorized();
    var b := Broadcast(w, Ordinary(0), Auth(1), 101);
    var o := b.orders[Ordinary(0)];
    assert o.expiresAt == 100 && o.createdBlock == 1 && !o.paid && o.pendingTx.None?;
    assert b.sent == [Sent(Ordinary(0), 101, Auth(1))];
    hide SafeToSubmit, Inv, T.Authorized, MintedState, MintedEntry, AfterFirst, Broadcast, C.CanInclude, MintedChain;
    ValidOf(b);
    HeadsOf(b);
    TransferIncluded(b.chain, 101, Auth(1));
    ChainMovesKeepsInv(b, CFG, env.during);
    var v := b.(chain := C.Run(b.chain, env.during));
    ValidOf(v);
    BlockOne(v.chain, 101);
    QueryFollowsSuccess(v.chain, CFG, Auth(1), o, 101);
    ReceiptMeansKnown(v.chain, CFG.token, 101);
    hide C.Run;
    assert Confirm(b, CFG, Ordinary(0), Auth(1), 101, env).0 == WithOrder(v, Ordinary(0), Cleared(o));
    FirstLogs(b);
  }

  lemma ValidOf(w: World)
    requires Inv(w, CFG)
    ensures C.Valid(w.chain)
  {
  }

  lemma HeadsOf(w: World)
    requires w.chain.heads == MintedChain().heads
    ensures w.chain.Height() == 1 && w.chain.heads[1].time == 10
  {
  }

  lemma FirstLogs(w: World)
    requires w.chain.entries == [MintedEntry()]
    ensures C.NextLog(w.chain.entries, 1) == 1
  {
  }

  lemma BlockOne(c: C.Chain, tx: Hash)
    requires C.Valid(c) && Known(c, tx)
    ensures 1 <= c.entries[c.included[tx]].block
  {
    assert C.EntryOk(c, c.included[tx]);
  }

  lemma SecondRetry(w: World, env: Env)
    requires Inv(w, CFG) && OneFunded(w) && env == Env(1, true, 102, [C.Include(102)], true, true)
    ensures LostSlot(w, Ordinary(0), Sent(Ordinary(0), 101, Auth(1)))
    ensures PassesGuards(w, CFG, Ordinary(0), Auth(2), env) && Executable(w.chain, Auth(2))
  {
    hide Inv, AfterFirst, T.Authorized;
    HeadsOf(w);
    BothAuthorized();
  }

  lemma QuotedWorld()
    ensures var w2 := Next(Next(Launch(CFG, 9, C.Head(0, 0)), CFG, DoubleRun()[0]), CFG, DoubleRun()[1]);
            Inv(w2, CFG) && Quoted(w2)
  {
    hide Inv, C.Run;
    var w0 := Launch(CFG, 9, C.Head(0, 0));
    LaunchInv(CFG, 9, C.Head(0, 0));
    MintStep();
    NextKeepsInv(w0, CFG, DoubleRun()[0]);
    NextKeepsInv(Next(w0, CFG, DoubleRun()[0]), CFG, DoubleRun()[1]);
  }

  lemma RunStep(w: World, cfg: Config, steps: seq<Step>, n: nat)
    requires n < |steps|
    ensures Run(w, cfg, steps[n..]) == Run(Next(w, cfg, steps[n]), cfg, steps[n + 1..])
  {
    hide Next;
    assert steps[n..][1..] == steps[n + 1..];
  }

  ghost function QuotedStart(): World { Next(Next(Launch(CFG, 9, C.Head(0, 0)), CFG, DoubleRun()[0]), CFG, DoubleRun()[1]) }

  /** The run is the two payments, one after the other. */
  lemma DoubleRunIsTwoPayments()
    ensures var first, second := DoubleRun()[2].env, DoubleRun()[3].env;
            Run(Launch(CFG, 9, C.Head(0, 0)), CFG, DoubleRun())
            == Pay(Pay(QuotedStart(), CFG, Ordinary(0), Auth(1), first).0, CFG, Ordinary(0), Auth(2), second).0
  {
    hide Pay, Launch, Quote, C.Run;
    var steps := DoubleRun();
    var w0 := Launch(CFG, 9, C.Head(0, 0));
    var w1 := Next(w0, CFG, steps[0]);
    var w2 := Next(w1, CFG, steps[1]);
    var w3 := Next(w2, CFG, steps[2]);
    RunStep(w0, CFG, steps, 0);
    RunStep(w1, CFG, steps, 1);
    RunStep(w2, CFG, steps, 2);
    RunStep(w3, CFG, steps, 3);
    assert steps[0..] == steps && steps[4..] == [];
  }

  /** Every step of the run but one keeps the promises of module Funding; the order is still funded twice. */
  lemma FundedTwice() returns (s: Sent, t: Sent)
    ensures var w := Run(Launch(CFG, 9, C.Head(0, 0)), CFG, DoubleRun());
            && s in w.sent && t in w.sent && s != t && s.order == t.order == Ordinary(0)
            && Succeeded(w.chain, s.tx) && Succeeded(w.chain, t.tx)
  {
    hide Inv, Next, Pay, Quoted, Launch, Run;
    QuotedWorld();
    DoubleRunIsTwoPayments();
    var first, second := DoubleRun()[2].env, DoubleRun()[3].env;
    var w2 := QuotedStart();
    var w3 := Pay(w2, CFG, Ordinary(0), Auth(1), first).0;
    var w4 := Pay(w3, CFG, Ordinary(0), Auth(2), second).0;
    FirstPay(w2, first);
    PayKeepsInv(w2, CFG, Ordinary(0), Auth(1), first);
    SecondRetry(w3, second);
    s, t := Sent(Ordinary(0), 101, Auth(1)), Sent(Ordinary(0), 102, Auth(2));
    LostSlotFundsTwice(w3, CFG, Ordinary(0), s, Auth(2), second);
  }
}
