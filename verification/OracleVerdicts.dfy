/**
 What an accepted verdict of the strict oracle says about the money, which honest settlements it accepts,
 and the one thing its balance check cannot see: a drifted transfer of the payer in the same block.
 */
module OracleVerdicts {
  import opened Common
  import opened Evidence
  import opened Rails
  import opened RailsOnChain
  import T = Token
  import C = Chain

  // ---------------------------------------------------------------- the transactions of one block

  function First(c: C.Chain, block: nat): nat
    requires block > 0
  {
    Through(c, |c.entries|, block - 1)
  }

  function Last(c: C.Chain, block: nat): nat { Through(c, |c.entries|, block) }

  lemma InBlock(c: C.Chain, block: nat, i: nat)
    requires C.Valid(c) && block > 0 && i < |c.entries|
    ensures First(c, block) <= i < Last(c, block) <==> c.entries[i].block == block
  {
    ThroughMeaning(c, |c.entries|, block - 1, i);
    ThroughMeaning(c, |c.entries|, block, i);
  }

  /** What an account gained, and paid out unseen on the drifted event, over one block. */
  function BlockIn(c: C.Chain, block: nat, who: Address): nat
    requires block > 0 && First(c, block) <= Last(c, block)
  {
    Sum(c, In, who, First(c, block), Last(c, block))
  }

  function BlockDrifted(c: C.Chain, block: nat, who: Address): nat
    requires block > 0 && First(c, block) <= Last(c, block)
  {
    Sum(c, DriftedOut, who, First(c, block), Last(c, block))
  }

  function BlockLegacy(c: C.Chain, block: nat, who: Address): nat
    requires block > 0 && First(c, block) <= Last(c, block)
  {
    Sum(c, LegacyOut, who, First(c, block), Last(c, block))
  }

  lemma BlockBalance(c: C.Chain, block: nat, who: Address)
    requires C.Valid(c) && block > 0
    ensures First(c, block) <= Last(c, block)
    ensures T.Balance(StateAt(c, block).balances, who) + BlockLegacy(c, block, who) + BlockDrifted(c, block, who)
         == T.Balance(StateAt(c, block - 1).balances, who) + BlockIn(c, block, who)
  {
    ThroughMonotone(c, block - 1, block);
    BalanceChange(c, who, First(c, block), Last(c, block));
  }

  lemma TruthBalances(c: C.Chain, k: nat, token: Address, chainId: int, payer: Address, payee: Address, nonce: T.Nonce, top: nat)
    requires k < |c.entries| && c.entries[k].block > 0
    ensures var o, b := Truth(c, k, token, chainId, payer, payee, nonce, top), c.entries[k].block;
              && o.payerParent == T.Balance(StateAt(c, b - 1).balances, payer) && o.payerAfter == T.Balance(StateAt(c, b).balances, payer)
              && o.payeeParent == T.Balance(StateAt(c, b - 1).balances, payee) && o.payeeAfter == T.Balance(StateAt(c, b).balances, payee)
  {
    hide EncodeReceipt, EncodeLogs, SelectLogs, StateAt, C.AllLogs, T.Balance;
  }

  // ---------------------------------------------------------------- soundness

  /** The lone settlement is the payer's only legacy payment in its block. */
  lemma LoneLegacyOut(c: C.Chain, k: nat, payer: Address, payee: Address, nonce: T.Nonce, logIndex: int)
    requires C.Valid(c) && k < |c.entries| && c.entries[k].block > 0
    requires Settled(c, k, payer, payee, nonce, logIndex) && Alone(c, LogOf(c, c.entries[k], 1), payer, payee)
    ensures First(c, c.entries[k].block) <= Last(c, c.entries[k].block)
    ensures BlockLegacy(c, c.entries[k].block, payer) == c.entries[k].call.auth.value
  {
    hide C.Valid, C.AllLogs;
    var b := c.entries[k].block;
    var i, j := First(c, b), Last(c, b);
    ThroughMonotone(c, b - 1, b);
    InBlock(c, b, k);
    SuccessEvents(c, k);
    forall m | i <= m < j && m != k ensures LegacyOut(c.entries[m], payer) == 0 {
      InBlock(c, b, m);
      var e := c.entries[m];
      if Moves(e) && e.pre.eventMode == 0 && e.call.auth.from == payer {
        SuccessEvents(c, m);
        LogInChain(c, m, 1);
        assert Races(c, LogOf(c, e, 1), b, payer, payee);
        DistinctHashes(c, k, m);
      }
    }
    SumOne(c, LegacyOut, payer, i, j, k);
  }

  lemma DistinctHashes(c: C.Chain, i: nat, j: nat)
    requires C.Valid(c) && i < |c.entries| && j < |c.entries| && c.entries[i].hash == c.entries[j].hash
    ensures i == j
  {
    assert C.EntryOk(c, i) && C.EntryOk(c, j);
  }

  /** No transfer of this account drifted onto the other event in this block. */
  ghost predicate NoDriftedPayment(c: C.Chain, block: nat, who: Address) {
    forall i :: 0 <= i < |c.entries| && c.entries[i].block == block ==> DriftedOut(c.entries[i], who) == 0
  }

  lemma {:induction false} SumPositive(c: C.Chain, f: (C.Entry, Address) -> nat, who: Address, i: nat, j: nat, k: nat)
    requires i <= k < j <= |c.entries|
    ensures Sum(c, f, who, i, j) >= f(c.entries[k], who)
    decreases j
  {
    if k < j - 1 {
      SumPositive(c, f, who, i, j - 1, k);
    }
  }

  lemma DriftedZero(c: C.Chain, block: nat, who: Address)
    requires C.Valid(c) && block > 0 && First(c, block) <= Last(c, block)
    ensures BlockDrifted(c, block, who) == 0 <==> NoDriftedPayment(c, block, who)
  {
    hide C.Valid, DriftedOut;
    var i, j := First(c, block), Last(c, block);
    if NoDriftedPayment(c, block, who) {
      forall m | i <= m < j ensures DriftedOut(c.entries[m], who) == 0 {
        InBlock(c, block, m);
      }
      SumZero(c, DriftedOut, who, i, j);
    } else {
      var m :| 0 <= m < |c.entries| && c.entries[m].block == block && DriftedOut(c.entries[m], who) != 0;
      InBlock(c, block, m);
      SumPositive(c, DriftedOut, who, i, j, m);
    }
  }

  /**
   An accepted success: the selected Transfer is the only one out of the payer or into the payee in its
   block, the nonce was spent there and not before, the payer fell by exactly its value, and the verdict is
   consistent_paid exactly when the SUT believes paid and the payee gained the required amount. The payer's
   inflow in the block equals its drifted outflow, so there is none exactly when no payment of its drifted.
   */
  lemma AcceptedSettlement(rail: Rail, q: Request, c: C.Chain, k: nat, token: Address, payer: Address, payee: Address, nonce: T.Nonce, top: nat)
    requires C.Valid(c) && ValidRail(rail) && k < |c.entries| && c.entries[k].block > 0 && c.entries[k].Succeeded()
    requires Asks(q, token, payer, payee, nonce, c.entries[k].hash)
    requires Verdict(rail, q, Truth(c, k, token, rail.chainId, payer, payee, nonce, top)).Ok?
    ensures Settled(c, k, payer, payee, nonce, q.logIndex) && Alone(c, LogOf(c, c.entries[k], 1), payer, payee)
    ensures var parent, after := StateAt(c, c.entries[k].block - 1), StateAt(c, c.entries[k].block);
              && T.Balance(parent.balances, payer) == T.Balance(after.balances, payer) + c.entries[k].call.auth.value
              && (payer, nonce) !in parent.used && (payer, nonce) in after.used
              && (Verdict(rail, q, Truth(c, k, token, rail.chainId, payer, payee, nonce, top)).value.kind.ConsistentPaid?
                  <==> q.believesPaid && T.Balance(after.balances, payee) >= T.Balance(parent.balances, payee) + q.requiredAmount)
    ensures First(c, c.entries[k].block) <= Last(c, c.entries[k].block)
    ensures BlockIn(c, c.entries[k].block, payer) == BlockDrifted(c, c.entries[k].block, payer)
    ensures BlockIn(c, c.entries[k].block, payer) == 0 <==> NoDriftedPayment(c, c.entries[k].block, payer)
  {
    hide Verdict, Truth, Alone, Settled, C.Valid, Asks, Acceptable, BlockIn, BlockDrifted, BlockLegacy, StateAt, NoDriftedPayment, First,
         Last;
    VerdictOnSuccess(rail, q, c, k, token, payer, payee, nonce, top);
    VerdictGrades(rail, q, Truth(c, k, token, rail.chainId, payer, payee, nonce, top));
    TruthBalances(c, k, token, rail.chainId, payer, payee, nonce, top);
    LoneLegacyOut(c, k, payer, payee, nonce, q.logIndex);
    BlockBalance(c, c.entries[k].block, payer);
    DriftedZero(c, c.entries[k].block, payer);
    NonceStaysSpent(c, k, payer, payee, nonce, q.logIndex);
    NonceWasFree(c, k, payer, payee, nonce, q.logIndex);
  }

  lemma NonceWasFree(c: C.Chain, k: nat, payer: Address, payee: Address, nonce: T.Nonce, logIndex: int)
    requires C.Valid(c) && k < |c.entries| && c.entries[k].block > 0 && Settled(c, k, payer, payee, nonce, logIndex)
    ensures (payer, nonce) !in StateAt(c, c.entries[k].block - 1).used
  {
    assert C.EntryOk(c, k);
    var b := c.entries[k].block;
    ThroughMeaning(c, |c.entries|, b - 1, k);
    C.UsedGrows(c, First(c, b), k);
  }

  // ---------------------------------------------------------------- completeness

  /** A successful call that names the account as payer, payee or mint target. */
  predicate Touches(e: C.Entry, who: Address) {
    && e.Succeeded()
    && (|| (e.call.Mint? && e.call.to == who)
        || (e.call.TransferWithAuthorization? && (e.call.auth.from == who || e.call.auth.to == who)))
  }

  /** The settlement is the only token activity of payer and payee in its block. */
  ghost predicate OnlyActivity(c: C.Chain, k: nat, payer: Address, payee: Address)
    requires k < |c.entries|
  {
    forall i :: 0 <= i < |c.entries| && i != k && c.entries[i].block == c.entries[k].block ==>
      !Touches(c.entries[i], payer) && !Touches(c.entries[i], payee)
  }

  lemma AdminIsFixed(c: C.Chain, i: nat)
    requires C.Valid(c) && i < |c.entries|
    ensures c.entries[i].pre.admin == c.genesis.admin && c.entries[i].pre.feeBps <= T.MAX_FEE_BPS
  {
    C.StatesAreValid(c, i);
    assert C.EntryOk(c, i);
  }

  lemma UntouchedMovesNothing(c: C.Chain, i: nat, who: Address)
    requires C.Valid(c) && i < |c.entries| && !Touches(c.entries[i], who) && who != c.genesis.admin
    ensures In(c.entries[i], who) == 0 && LegacyOut(c.entries[i], who) == 0 && DriftedOut(c.entries[i], who) == 0
  {
    hide C.Valid;
    AdminIsFixed(c, i);
  }

  /** Over the block, only the settlement moves the account. */
  lemma OnlyActivitySums(c: C.Chain, k: nat, payer: Address, payee: Address, who: Address)
    requires C.Valid(c) && k < |c.entries| && c.entries[k].block > 0
    requires OnlyActivity(c, k, payer, payee) && who in {payer, payee} && who != c.genesis.admin
    ensures First(c, c.entries[k].block) <= Last(c, c.entries[k].block)
    ensures BlockIn(c, c.entries[k].block, who) == In(c.entries[k], who)
    ensures BlockLegacy(c, c.entries[k].block, who) == LegacyOut(c.entries[k], who)
    ensures BlockDrifted(c, c.entries[k].block, who) == DriftedOut(c.entries[k], who)
  {
    hide C.Valid, In, LegacyOut, DriftedOut, Touches;
    var b := c.entries[k].block;
    var i, j := First(c, b), Last(c, b);
    ThroughMonotone(c, b - 1, b);
    InBlock(c, b, k);
    forall m | i <= m < j && m != k
      ensures In(c.entries[m], who) == 0 && LegacyOut(c.entries[m], who) == 0 && DriftedOut(c.entries[m], who) == 0
    {
      InBlock(c, b, m);
      UntouchedMovesNothing(c, m, who);
    }
    SumOne(c, In, who, i, j, k);
    SumOne(c, LegacyOut, who, i, j, k);
    SumOne(c, DriftedOut, who, i, j, k);
  }

  lemma OnlyActivityIsAlone(c: C.Chain, k: nat, payer: Address, payee: Address, nonce: T.Nonce, logIndex: int)
    requires C.Valid(c) && k < |c.entries| && Settled(c, k, payer, payee, nonce, logIndex) && OnlyActivity(c, k, payer, payee)
    ensures Alone(c, LogOf(c, c.entries[k], 1), payer, payee)
  {
    hide C.Valid, C.AllLogs;
    var l := LogOf(c, c.entries[k], 1);
    PayerIsNotZero(c, k);
    forall m | Races(c, m, l.block, payer, payee) ensures m == l {
      C.LogsAreEvents(c, m);
      var i: nat, j: nat :| C.IsLog(c, m, i, j);
      TransferEvent(c, i, j);
      assert Touches(c.entries[i], payer) || Touches(c.entries[i], payee);
    }
  }

  lemma PayerIsNotZero(c: C.Chain, k: nat)
    requires C.Valid(c) && k < |c.entries| && Moves(c.entries[k])
    ensures c.entries[k].call.auth.from != T.ZERO
  {
    assert C.EntryOk(c, k);
  }

  /** A Transfer event is a mint's or a settlement's second. */
  lemma TransferEvent(c: C.Chain, i: nat, j: nat)
    requires C.Valid(c) && i < |c.entries| && j < |c.entries[i].Events()| && c.entries[i].Events()[j].Transfer?
    ensures c.entries[i].Succeeded()
    ensures var e, event := c.entries[i], c.entries[i].Events()[j];
              || (e.call.Mint? && event.from == T.ZERO && event.to == e.call.to)
              || (e.call.TransferWithAuthorization? && j == 1 && event.from == e.call.auth.from && event.to == e.call.auth.to)
  {
    assert C.EntryOk(c, i);
  }

  lemma HonestBalances(c: C.Chain, k: nat, payer: Address, payee: Address, nonce: T.Nonce, logIndex: int)
    requires C.Valid(c) && k < |c.entries| && c.entries[k].block > 0
    requires Settled(c, k, payer, payee, nonce, logIndex) && OnlyActivity(c, k, payer, payee)
    requires payer != payee && c.genesis.admin !in {payer, payee}
    ensures var parent, after, e := StateAt(c, c.entries[k].block - 1), StateAt(c, c.entries[k].block), c.entries[k];
              && T.Balance(parent.balances, payer) == T.Balance(after.balances, payer) + e.call.auth.value
              && T.Balance(after.balances, payee) == T.Balance(parent.balances, payee) + e.call.auth.value - T.Fee(e.call.auth.value, e.pre.feeBps)
              && T.Fee(e.call.auth.value, e.pre.feeBps) <= e.call.auth.value
              && (e.call.auth.value > 0 ==> T.Fee(e.call.auth.value, e.pre.feeBps) < e.call.auth.value)
  {
    hide C.Valid, OnlyActivity, T.Fee, BlockIn, BlockLegacy, BlockDrifted, First, Last, StateAt, T.Balance;
    var e := c.entries[k];
    SuccessEvents(c, k);
    AdminIsFixed(c, k);
    T.FeeWithinValue(e.call.auth.value, e.pre.feeBps);
    OnlyActivitySums(c, k, payer, payee, payer);
    OnlyActivitySums(c, k, payer, payee, payee);
    BlockBalance(c, e.block, payer);
    BlockBalance(c, e.block, payee);
  }

  lemma HonestAttributable(c: C.Chain, k: nat, token: Address, chainId: int, payer: Address, payee: Address, nonce: T.Nonce, top: nat,
                           logIndex: int)
    requires C.Valid(c) && k < |c.entries| && c.entries[k].block > 0
    requires Settled(c, k, payer, payee, nonce, logIndex) && OnlyActivity(c, k, payer, payee)
    requires c.entries[k].call.auth.value > 0 && payer != payee && c.genesis.admin !in {payer, payee}
    ensures var o, e := Truth(c, k, token, chainId, payer, payee, nonce, top), c.entries[k];
              && Attributable(e.call.auth.value, o)
              && o.payeeAfter - o.payeeParent == e.call.auth.value - T.Fee(e.call.auth.value, e.pre.feeBps)
  {
    hide Truth, C.Valid, StateAt, OnlyActivity, T.Fee, T.Balance;
    HonestBalances(c, k, payer, payee, nonce, logIndex);
    TruthBalances(c, k, token, chainId, payer, payee, nonce, top);
  }

  /**
   Completeness: a calibrated, confirmed settlement on the legacy event of a positive value, which is the
   only token activity of its distinct parties in its block, is accepted and graded by what the payee netted.
   */
  lemma HonestSettlementAccepted(rail: Rail, q: Request, c: C.Chain, k: nat, token: Address, payer: Address, payee: Address, nonce: T.Nonce,
                                 top: nat)
    requires C.Valid(c) && ValidRail(rail) && k < |c.entries| && c.entries[k].block > 0
    requires Asks(q, token, payer, payee, nonce, c.entries[k].hash)
    requires Settled(c, k, payer, payee, nonce, q.logIndex) && OnlyActivity(c, k, payer, payee)
    requires c.entries[k].call.auth.value > 0 && payer != payee && c.genesis.admin !in {payer, payee}
    requires Acceptable(rail, q, Truth(c, k, token, rail.chainId, payer, payee, nonce, top), c.entries[k].block, top)
    ensures var v, e := Verdict(rail, q, Truth(c, k, token, rail.chainId, payer, payee, nonce, top)), c.entries[k];
              && v.Ok? && v.value.settlement.status == 1
              && v.value.eventValue == Some(e.call.auth.value)
              && v.value.receivedAmount == e.call.auth.value - T.Fee(e.call.auth.value, e.pre.feeBps)
              && (v.value.kind.ConsistentPaid? <==> q.believesPaid && v.value.receivedAmount >= q.requiredAmount)
  {
    assert Moves(c.entries[k]);
    hide Verdict, Truth, Alone, Settled, C.Valid, Asks, Acceptable, OnlyActivity, T.Fee, Attributable;
    OnlyActivityIsAlone(c, k, payer, payee, nonce, q.logIndex);
    HonestAttributable(c, k, token, rail.chainId, payer, payee, nonce, top, q.logIndex);
    VerdictOnSuccess(rail, q, c, k, token, payer, payee, nonce, top);
    VerdictGrades(rail, q, Truth(c, k, token, rail.chainId, payer, payee, nonce, top));
  }
}
