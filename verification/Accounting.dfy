/**
 What the merchant gained from the SUT's broadcasts is what the ledger accounts for: the net amounts of
 the paid ordinary orders, plus those of orders whose pending transaction has landed but is not confirmed.
 */
module Accounting {
  import opened Common
  import opened Protocol
  import opened NoPhantomCredit
  import opened Funding
  import A = Amounts
  import T = Token
  import C = Chain

  // ---------------------------------------------------------------- the two sides

  /** What one transaction changed on the merchant's balance. */
  ghost function MerchantDelta(c: C.Chain, merchant: Address, tx: Hash): int {
    if Known(c, tx) then
      var e := c.entries[c.included[tx]];
      T.Balance(e.Post().balances, merchant) - T.Balance(e.pre.balances, merchant)
    else 0
  }

  /** The merchant's growth from a list of broadcasts. */
  ghost function Growth(c: C.Chain, merchant: Address, sent: seq<Sent>): int {
    if sent == [] then 0
    else Growth(c, merchant, sent[..|sent| - 1]) + MerchantDelta(c, merchant, sent[|sent| - 1].tx)
  }

  /** The fee rate in force when a transaction was executed. */
  ghost function FeeBpsAt(c: C.Chain, tx: Hash): nat
    requires C.Valid(c) && Known(c, tx)
    ensures FeeBpsAt(c, tx) <= T.MAX_FEE_BPS
  {
    C.StatesAreValid(c, c.included[tx]);
    assert C.EntryOk(c, c.included[tx]);
    c.entries[c.included[tx]].pre.feeBps
  }

  /** What an order brought in: its net amount once paid, or once its pending transaction has landed. */
  ghost function BroughtIn(w: World, id: OrderId): int
    requires C.Valid(w.chain)
  {
    if id !in w.orders || id.Recovered? then 0
    else
      var o := w.orders[id];
      if (o.paid || o.pendingTx.Some?) && o.submittedTx.Some? && Succeeded(w.chain, o.submittedTx.value)
      then A.NetAfterFee(o.amount, FeeBpsAt(w.chain, o.submittedTx.value))
      else 0
  }

  ghost function SumOver(ids: set<OrderId>, f: OrderId -> int): int
    decreases |ids|
  {
    if ids == {} then 0
    else
      var id :| id in ids;
      f(id) + SumOver(ids - {id}, f)
  }

  // ---------------------------------------------------------------- sums over a set of orders

  lemma {:induction false} SumPick(ids: set<OrderId>, f: OrderId -> int, id: OrderId)
    requires id in ids
    ensures SumOver(ids, f) == f(id) + SumOver(ids - {id}, f)
    decreases |ids|
  {
    var other :| other in ids && SumOver(ids, f) == f(other) + SumOver(ids - {other}, f);
    if other != id {
      SumPick(ids - {other}, f, id);
      SumPick(ids - {id}, f, other);
      assert ids - {other} - {id} == ids - {id} - {other};
    }
  }

  lemma {:induction false} SumAgrees(ids: set<OrderId>, f: OrderId -> int, g: OrderId -> int)
    requires forall id :: id in ids ==> f(id) == g(id)
    ensures SumOver(ids, f) == SumOver(ids, g)
    decreases |ids|
  {
    if ids != {} {
      var id :| id in ids;
      SumPick(ids, f, id);
      SumPick(ids, g, id);
      SumAgrees(ids - {id}, f, g);
    }
  }

  lemma SumBump(ids: set<OrderId>, f: OrderId -> int, g: OrderId -> int, k: OrderId, d: int)
    requires k in ids && g(k) == f(k) + d
    requires forall id :: id in ids && id != k ==> g(id) == f(id)
    ensures SumOver(ids, g) == SumOver(ids, f) + d
  {
    SumPick(ids, f, k);
    SumPick(ids, g, k);
    SumAgrees(ids - {k}, f, g);
  }

  // ---------------------------------------------------------------- grouping the broadcasts by order

  ghost function GrowthOf(c: C.Chain, merchant: Address, sent: seq<Sent>, id: OrderId): int {
    if sent == [] then 0
    else
      var last := sent[|sent| - 1];
      GrowthOf(c, merchant, sent[..|sent| - 1], id) + (if last.order == id then MerchantDelta(c, merchant, last.tx) else 0)
  }

  lemma {:induction false} GrowthByOrder(c: C.Chain, merchant: Address, sent: seq<Sent>, ids: set<OrderId>)
    requires forall s :: s in sent ==> s.order in ids
    ensures Growth(c, merchant, sent) == SumOver(ids, (id: OrderId) => GrowthOf(c, merchant, sent, id))
  {
    hide MerchantDelta;
    if sent == [] {
      NothingSent(c, merchant, ids);
    } else {
      var init, last := sent[..|sent| - 1], sent[|sent| - 1];
      assert forall s :: s in init ==> s in sent;
      GrowthByOrder(c, merchant, init, ids);
      assert last in sent;
      SumBump(ids, (id: OrderId) => GrowthOf(c, merchant, init, id), (id: OrderId) => GrowthOf(c, merchant, sent, id),
              last.order, MerchantDelta(c, merchant, last.tx));
    }
  }

  lemma {:induction false} NothingSent(c: C.Chain, merchant: Address, ids: set<OrderId>)
    ensures SumOver(ids, (id: OrderId) => GrowthOf(c, merchant, [], id)) == 0
    decreases |ids|
  {
    if ids != {} {
      var id :| id in ids;
      SumPick(ids, (id: OrderId) => GrowthOf(c, merchant, [], id), id);
      NothingSent(c, merchant, ids - {id});
    }
  }

  // ---------------------------------------------------------------- what one broadcast brings

  lemma FailureBringsNothing(c: C.Chain, merchant: Address, tx: Hash)
    requires !Succeeded(c, tx)
    ensures MerchantDelta(c, merchant, tx) == 0
  {
  }

  lemma TransferBringsNet(s: T.TokenState, auth: T.Authorization, time: nat)
    requires T.Valid(s) && T.ExecTransfer(s, auth, time).Done?
    requires auth.from != auth.to && s.admin != auth.to
    ensures T.Balance(T.ExecTransfer(s, auth, time).state.balances, auth.to)
         == T.Balance(s.balances, auth.to) + A.NetAfterFee(auth.value, s.feeBps)
  {
  }

  lemma SuccessBringsNet(w: World, cfg: Config, s: Sent)
    requires Inv(w, cfg) && s in w.sent && Succeeded(w.chain, s.tx)
    requires s.auth.from != cfg.merchant && w.chain.genesis.admin != cfg.merchant
    ensures MerchantDelta(w.chain, cfg.merchant, s.tx) == A.NetAfterFee(cfg.price, FeeBpsAt(w.chain, s.tx))
  {
    hide LedgerOk;
    var i := w.chain.included[s.tx];
    CallOfTx(w, cfg, s);
    C.StatesAreValid(w.chain, i);
    assert C.EntryOk(w.chain, i);
    var e := w.chain.entries[i];
    assert e.outcome == T.ExecTransfer(e.pre, s.auth, w.chain.heads[e.block].time);
    hide C.Valid, SentOk, T.ExecTransfer;
    TransferBringsNet(e.pre, s.auth, w.chain.heads[e.block].time);
  }

  /** Over any prefix of the broadcasts, an order has gained nothing, or exactly what its one success brought. */
  lemma {:induction false} OneSuccessCounts(w: World, cfg: Config, id: OrderId, n: nat, tx: Hash)
    requires n <= |w.sent|
    requires forall s :: s in w.sent && s.order == id && Succeeded(w.chain, s.tx) ==> s.tx == tx
    requires SentOk(w, cfg)
    ensures GrowthOf(w.chain, cfg.merchant, w.sent[..n], id)
         == if exists i :: 0 <= i < n && w.sent[i].order == id && w.sent[i].tx == tx
            then MerchantDelta(w.chain, cfg.merchant, tx) else 0
  {
    if n > 0 {
      var s := w.sent[n - 1];
      assert s in w.sent;
      assert w.sent[..n][..n - 1] == w.sent[..n - 1];
      OneSuccessCounts(w, cfg, id, n - 1, tx);
      if s.order == id && s.tx != tx {
        FailureBringsNothing(w.chain, cfg.merchant, s.tx);
      }
    }
  }

  lemma SubmittedIsSent(w: World, cfg: Config, id: OrderId) returns (s: Sent)
    requires Fate(w, cfg) && id in w.orders && id.Ordinary? && w.orders[id].submittedTx.Some?
    ensures s in w.sent && s.order == id && s.tx == w.orders[id].submittedTx.value
  {
    assert OrderFate(w.chain, w.sent, cfg, id, w.orders[id]);
    s :| s in w.sent && s.order == id && s.tx == w.orders[id].submittedTx.value;
  }

  /** An order none of whose broadcasts succeeded gained nothing. */
  lemma {:induction false} NoSuccessBringsNothing(w: World, cfg: Config, id: OrderId, n: nat)
    requires n <= |w.sent| && forall s :: s in w.sent && s.order == id ==> !Succeeded(w.chain, s.tx)
    ensures GrowthOf(w.chain, cfg.merchant, w.sent[..n], id) == 0
  {
    if n > 0 {
      var s := w.sent[n - 1];
      assert s in w.sent;
      assert w.sent[..n][..n - 1] == w.sent[..n - 1];
      NoSuccessBringsNothing(w, cfg, id, n - 1);
      if s.order == id {
        FailureBringsNothing(w.chain, cfg.merchant, s.tx);
      }
    }
  }

  /** A successful broadcast is the one its order records. */
  lemma SuccessIsRecorded(w: World, cfg: Config, s: Sent)
    requires Fate(w, cfg) && s in w.sent && Succeeded(w.chain, s.tx)
    ensures s.order in w.orders && s.order.Ordinary? && w.orders[s.order].submittedTx == Some(s.tx)
    ensures w.orders[s.order].amount == cfg.price
  {
    assert SentFate(w.chain, cfg, s, w.orders[s.order]);
  }

  lemma FundedOrderBringsNet(w: World, cfg: Config, s: Sent)
    requires Inv(w, cfg) && Fate(w, cfg) && AllResolved(w) && s in w.sent && Succeeded(w.chain, s.tx)
    requires w.chain.genesis.admin != cfg.merchant && s.auth.from != cfg.merchant
    ensures s.order in w.orders && BroughtIn(w, s.order) == MerchantDelta(w.chain, cfg.merchant, s.tx)
  {
    SuccessIsRecorded(w, cfg, s);
    SuccessBringsNet(w, cfg, s);
    assert Resolved(w.chain, s.order, w.orders[s.order]);
    hide Inv, Fate, MerchantDelta, A.NetAfterFee;
  }

  lemma UnfundedOrderBringsNothing(w: World, cfg: Config, id: OrderId)
    requires Inv(w, cfg) && Fate(w, cfg) && id in w.orders
    requires forall s :: s in w.sent && s.order == id ==> !Succeeded(w.chain, s.tx)
    ensures BroughtIn(w, id) == 0
  {
    hide LedgerOk, SentOk, A.NetAfterFee;
    if id.Ordinary? && w.orders[id].submittedTx.Some? {
      var s := SubmittedIsSent(w, cfg, id);
    }
  }

  lemma OrderBringsItsNet(w: World, cfg: Config, id: OrderId)
    requires Inv(w, cfg) && Fate(w, cfg) && AllResolved(w) && id in w.orders
    requires w.chain.genesis.admin != cfg.merchant && forall s :: s in w.sent ==> s.auth.from != cfg.merchant
    ensures GrowthOf(w.chain, cfg.merchant, w.sent, id) == BroughtIn(w, id)
  {
    assert w.sent[..|w.sent|] == w.sent;
    hide LedgerOk, C.Valid, MerchantDelta, BroughtIn, Fate, AllResolved;
    if s :| s in w.sent && s.order == id && Succeeded(w.chain, s.tx) {
      forall t | t in w.sent && t.order == id && Succeeded(w.chain, t.tx) ensures t.tx == s.tx {
        SuccessIsRecorded(w, cfg, s);
        SuccessIsRecorded(w, cfg, t);
      }
      OneSuccessCounts(w, cfg, id, |w.sent|, s.tx);
      FundedOrderBringsNet(w, cfg, s);
    } else {
      NoSuccessBringsNothing(w, cfg, id, |w.sent|);
      UnfundedOrderBringsNothing(w, cfg, id);
    }
  }

  /**
   With the merchant neither paying itself nor administering the token, its growth from everything the
   SUT broadcast equals the sum of what the orders account for.
   */
  lemma MerchantGrowthIsAccountedFor(cfg: Config, admin: Address, genesisHead: C.Head, steps: seq<Step>)
    requires GuaranteedRun(cfg, admin, genesisHead, steps) && admin != cfg.merchant
    requires forall s :: s in Run(Launch(cfg, admin, genesisHead), cfg, steps).sent ==> s.auth.from != cfg.merchant
    ensures var w := Run(Launch(cfg, admin, genesisHead), cfg, steps);
            && C.Valid(w.chain)
            && Growth(w.chain, cfg.merchant, w.sent) == SumOver(w.orders.Keys, (id: OrderId) => BroughtIn(w, id))
  {
    GuaranteedRunFate(cfg, admin, genesisHead, steps);
    LaunchInv(cfg, admin, genesisHead);
    RunKeepsInv(Launch(cfg, admin, genesisHead), cfg, steps);
    var w := Run(Launch(cfg, admin, genesisHead), cfg, steps);
    hide Run, GuaranteedRun, LedgerOk, C.Valid, SentFate, OrderFate;
    GrowthByOrder(w.chain, cfg.merchant, w.sent, w.orders.Keys);
    forall id | id in w.orders.Keys ensures GrowthOf(w.chain, cfg.merchant, w.sent, id) == BroughtIn(w, id) {
      OrderBringsItsNet(w, cfg, id);
    }
    SumAgrees(w.orders.Keys, (id: OrderId) => GrowthOf(w.chain, cfg.merchant, w.sent, id), (id: OrderId) => BroughtIn(w, id));
  }
}
