/**
 What an accepted verdict reports as received, against what the settlement itself brought the payee: its value
 less the fee. The race query keeps mints and legacy payments into the payee out of the block, so the two differ
 exactly by drifted payments, fees earned by an admin payee, and what the payee paid out.
 */
module PayeeIncome {
  import opened Common
  import opened Rails
  import opened RailsOnChain
  import opened OracleVerdicts
  import T = Token
  import C = Chain

  // ---------------------------------------------------------------- what the race query does not see

  /** A payment on the drifted event into the account, and a fee the account earned as admin. */
  function DriftedIn(e: C.Entry, who: Address): nat {
    if Moves(e) && e.pre.eventMode != 0 && e.call.auth.to == who then Net(e) else 0
  }

  function FeeIn(e: C.Entry, who: Address): nat {
    if Moves(e) && e.pre.admin == who then T.Fee(e.call.auth.value, e.pre.feeBps) else 0
  }

  function UnseenIn(e: C.Entry, who: Address): nat { DriftedIn(e, who) + FeeIn(e, who) }

  /** A payment's value less its fee. */
  function Net(e: C.Entry): nat
    requires e.call.TransferWithAuthorization?
  {
    var fee := T.Fee(e.call.auth.value, e.pre.feeBps);
    if fee <= e.call.auth.value then e.call.auth.value - fee else 0
  }

  /** Whatever else of its block reached the payee came unseen: a mint or a legacy payment would race. */
  lemma OthersComeUnseen(c: C.Chain, k: nat, m: nat, payer: Address, payee: Address, nonce: T.Nonce, logIndex: int)
    requires C.Valid(c) && k < |c.entries| && m < |c.entries| && m != k && c.entries[m].block == c.entries[k].block
    requires Settled(c, k, payer, payee, nonce, logIndex) && Alone(c, LogOf(c, c.entries[k], 1), payer, payee)
    ensures In(c.entries[m], payee) == UnseenIn(c.entries[m], payee)
  {
    hide C.Valid, C.AllLogs, T.Fee, Alone;
    var e := c.entries[m];
    if Seen(e, payee) {
      SeenRaces(c, m, payer, payee);
      var l := if Moves(e) then LogOf(c, e, 1) else LogOf(c, e, 0);
      AloneMeans(c, LogOf(c, c.entries[k], 1), l, payer, payee);
      DistinctHashes(c, k, m);
    }
  }

  /** A mint or a legacy payment into the account. */
  predicate Seen(e: C.Entry, who: Address) {
    && e.Succeeded()
    && (|| (e.call.Mint? && e.call.to == who)
        || (e.call.TransferWithAuthorization? && e.pre.eventMode == 0 && e.call.auth.to == who))
  }

  lemma SeenRaces(c: C.Chain, m: nat, payer: Address, payee: Address)
    requires C.Valid(c) && m < |c.entries| && Seen(c.entries[m], payee)
    ensures var e := c.entries[m];
            if Moves(e) then |e.Events()| == 2 && Races(c, LogOf(c, e, 1), e.block, payer, payee)
            else |e.Events()| == 1 && Races(c, LogOf(c, e, 0), e.block, payer, payee)
  {
    var e := c.entries[m];
    SuccessEvents(c, m);
    assert C.EntryOk(c, m);
    hide C.Valid, C.AllLogs;
    LogInChain(c, m, if Moves(e) then 1 else 0);
  }

  lemma AloneMeans(c: C.Chain, l: C.LogEntry, m: C.LogEntry, payer: Address, payee: Address)
    requires Alone(c, l, payer, payee) && Races(c, m, l.block, payer, payee)
    ensures m == l
  {
  }

  /** What the settlement itself brought the payee: its value less the fee, and the fee too if the payee is the admin. */
  lemma OwnInflow(c: C.Chain, k: nat, payer: Address, payee: Address, nonce: T.Nonce, logIndex: int)
    requires C.Valid(c) && k < |c.entries| && Settled(c, k, payer, payee, nonce, logIndex)
    ensures var e := c.entries[k]; var fee := T.Fee(e.call.auth.value, e.pre.feeBps);
              && fee <= e.call.auth.value
              && In(e, payee) == e.call.auth.value - fee + UnseenIn(e, payee)
              && UnseenIn(e, payee) == if payee == c.genesis.admin then fee else 0
  {
    SuccessEvents(c, k);
    hide C.Valid, T.Fee;
    AdminIsFixed(c, k);
    T.FeeWithinValue(c.entries[k].call.auth.value, c.entries[k].pre.feeBps);
  }

  // ---------------------------------------------------------------- over the block

  function BlockUnseen(c: C.Chain, block: nat, who: Address): nat
    requires block > 0 && First(c, block) <= Last(c, block)
  {
    Sum(c, UnseenIn, who, First(c, block), Last(c, block))
  }

  /** Two sums that differ in one summand. */
  lemma {:induction false} SumBut(c: C.Chain, f: (C.Entry, Address) -> nat, g: (C.Entry, Address) -> nat, who: Address, i: nat, j: nat, k: nat)
    requires i <= j <= |c.entries|
    requires forall m :: i <= m < j && m != k ==> f(c.entries[m], who) == g(c.entries[m], who)
    ensures Sum(c, f, who, i, j) + (if i <= k < j then g(c.entries[k], who) else 0)
         == Sum(c, g, who, i, j) + (if i <= k < j then f(c.entries[k], who) else 0)
    decreases j
  {
    if i < j {
      SumBut(c, f, g, who, i, j - 1, k);
    }
  }

  lemma BlockIncome(c: C.Chain, k: nat, payer: Address, payee: Address, nonce: T.Nonce, logIndex: int)
    requires C.Valid(c) && k < |c.entries| && c.entries[k].block > 0
    requires Settled(c, k, payer, payee, nonce, logIndex) && Alone(c, LogOf(c, c.entries[k], 1), payer, payee)
    ensures First(c, c.entries[k].block) <= Last(c, c.entries[k].block)
    ensures var e := c.entries[k]; var fee := T.Fee(e.call.auth.value, e.pre.feeBps);
              && fee <= e.call.auth.value
              && BlockIn(c, e.block, payee) == e.call.auth.value - fee + BlockUnseen(c, e.block, payee)
  {
    hide C.Valid, In, UnseenIn, Settled, Alone, T.Fee;
    var b := c.entries[k].block;
    ThroughMonotone(c, b - 1, b);
    var i, j := First(c, b), Last(c, b);
    InBlock(c, b, k);
    forall m | i <= m < j && m != k ensures In(c.entries[m], payee) == UnseenIn(c.entries[m], payee) {
      InBlock(c, b, m);
      OthersComeUnseen(c, k, m, payer, payee, nonce, logIndex);
    }
    SumBut(c, In, UnseenIn, payee, i, j, k);
    OwnInflow(c, k, payer, payee, nonce, logIndex);
  }

  // ---------------------------------------------------------------- what is reported as received

  /** The settlement's own share of the payee's gain. */
  function OwnShare(c: C.Chain, k: nat, payee: Address): nat
    requires k < |c.entries| && c.entries[k].call.TransferWithAuthorization?
  {
    if payee == c.genesis.admin then c.entries[k].call.auth.value else Net(c.entries[k])
  }

  /** No payment of the account in the block, on either event. */
  ghost predicate PaysNothing(c: C.Chain, block: nat, who: Address) {
    forall m :: 0 <= m < |c.entries| && c.entries[m].block == block && Moves(c.entries[m]) ==> c.entries[m].call.auth.from != who
  }

  /** Nothing of the block but its k-th transaction brought the account drifted money or a fee. */
  ghost predicate NothingUnseen(c: C.Chain, k: nat, who: Address)
    requires k < |c.entries|
  {
    forall m :: 0 <= m < |c.entries| && m != k && c.entries[m].block == c.entries[k].block ==> UnseenIn(c.entries[m], who) == 0
  }

  lemma PaysNothingSums(c: C.Chain, block: nat, who: Address)
    requires C.Valid(c) && block > 0 && First(c, block) <= Last(c, block) && PaysNothing(c, block, who)
    ensures BlockLegacy(c, block, who) == 0 && BlockDrifted(c, block, who) == 0
  {
    hide C.Valid;
    var i, j := First(c, block), Last(c, block);
    forall m | i <= m < j ensures LegacyOut(c.entries[m], who) == 0 && DriftedOut(c.entries[m], who) == 0 {
      InBlock(c, block, m);
    }
    SumZero(c, LegacyOut, who, i, j);
    SumZero(c, DriftedOut, who, i, j);
  }

  lemma {:induction false} SumTwo(c: C.Chain, f: (C.Entry, Address) -> nat, who: Address, i: nat, j: nat, k: nat, m: nat)
    requires i <= k < j <= |c.entries| && i <= m < j && k != m
    ensures Sum(c, f, who, i, j) >= f(c.entries[k], who) + f(c.entries[m], who)
    decreases j
  {
    if k < j - 1 && m < j - 1 {
      SumTwo(c, f, who, i, j - 1, k, m);
    } else {
      SumPositive(c, f, who, i, j - 1, if k < j - 1 then k else m);
    }
  }

  lemma UnseenSums(c: C.Chain, k: nat, who: Address)
    requires C.Valid(c) && k < |c.entries| && c.entries[k].block > 0
    ensures First(c, c.entries[k].block) <= Last(c, c.entries[k].block)
    ensures UnseenIn(c.entries[k], who) <= BlockUnseen(c, c.entries[k].block, who)
    ensures UnseenIn(c.entries[k], who) == BlockUnseen(c, c.entries[k].block, who) <==> NothingUnseen(c, k, who)
  {
    hide C.Valid, UnseenIn;
    var b := c.entries[k].block;
    ThroughMonotone(c, b - 1, b);
    var i, j := First(c, b), Last(c, b);
    InBlock(c, b, k);
    SumPositive(c, UnseenIn, who, i, j, k);
    if NothingUnseen(c, k, who) {
      forall m | i <= m < j && m != k ensures UnseenIn(c.entries[m], who) == 0 {
        InBlock(c, b, m);
      }
      SumOne(c, UnseenIn, who, i, j, k);
    } else {
      var m :| 0 <= m < |c.entries| && m != k && c.entries[m].block == b && UnseenIn(c.entries[m], who) != 0;
      InBlock(c, b, m);
      SumTwo(c, UnseenIn, who, i, j, k, m);
    }
  }

  /** An accepted verdict's balances, at the ends of the settlement's block. */
  lemma ReceivedIsGain(rail: Rail, q: Request, c: C.Chain, k: nat, token: Address, payer: Address, payee: Address, nonce: T.Nonce, top: nat)
    requires C.Valid(c) && ValidRail(rail) && k < |c.entries| && c.entries[k].block > 0 && c.entries[k].Succeeded()
    requires Asks(q, token, payer, payee, nonce, c.entries[k].hash)
    requires Verdict(rail, q, Truth(c, k, token, rail.chainId, payer, payee, nonce, top)).Ok?
    ensures payer != payee && First(c, c.entries[k].block) <= Last(c, c.entries[k].block)
    ensures Settled(c, k, payer, payee, nonce, q.logIndex) && Alone(c, LogOf(c, c.entries[k], 1), payer, payee)
    ensures var v, b := Verdict(rail, q, Truth(c, k, token, rail.chainId, payer, payee, nonce, top)).value, c.entries[k].block;
              && v.receivedAmount + BlockLegacy(c, b, payee) + BlockDrifted(c, b, payee) == BlockIn(c, b, payee)
              && (v.kind.ConsistentPaid? <==> q.believesPaid && v.receivedAmount >= q.requiredAmount)
  {
    hide Verdict, Truth, Alone, Settled, C.Valid, Asks, Acceptable, BlockIn, BlockDrifted, BlockLegacy, StateAt, First, Last;
    VerdictOnSuccess(rail, q, c, k, token, payer, payee, nonce, top);
    VerdictGrades(rail, q, Truth(c, k, token, rail.chainId, payer, payee, nonce, top));
    TruthBalances(c, k, token, rail.chainId, payer, payee, nonce, top);
    BlockBalance(c, c.entries[k].block, payee);
  }

  /**
   What an accepted verdict reports as received, less what the payee paid out in the block, is the settlement's
   net value plus the drifted payments into the payee and the fees it earned as admin. It is the settlement's
   net value exactly when those two make up for what the payee paid out.
   */
  lemma ReceivedAccounted(rail: Rail, q: Request, c: C.Chain, k: nat, token: Address, payer: Address, payee: Address, nonce: T.Nonce, top: nat)
    requires C.Valid(c) && ValidRail(rail) && k < |c.entries| && c.entries[k].block > 0 && c.entries[k].Succeeded()
    requires Asks(q, token, payer, payee, nonce, c.entries[k].hash)
    requires Verdict(rail, q, Truth(c, k, token, rail.chainId, payer, payee, nonce, top)).Ok?
    ensures payer != payee && Moves(c.entries[k]) && First(c, c.entries[k].block) <= Last(c, c.entries[k].block)
    ensures var received, e := Verdict(rail, q, Truth(c, k, token, rail.chainId, payer, payee, nonce, top)).value.receivedAmount, c.entries[k];
            var net := e.call.auth.value - T.Fee(e.call.auth.value, e.pre.feeBps);
            var paidOut := BlockLegacy(c, e.block, payee) + BlockDrifted(c, e.block, payee);
              && received + paidOut == net + BlockUnseen(c, e.block, payee)
              && (received == net <==> BlockUnseen(c, e.block, payee) == paidOut)
  {
    hide Verdict, Truth, Alone, C.Valid, Asks, BlockIn, BlockDrifted, BlockLegacy, BlockUnseen, First, Last, T.Fee;
    ReceivedIsGain(rail, q, c, k, token, payer, payee, nonce, top);
    BlockIncome(c, k, payer, payee, nonce, q.logIndex);
  }

  /**
   For a payee that paid nothing out in the block: the verdict reports at least the settlement's own share, and
   exactly it if and only if nothing else of the block reached the payee drifted or as a fee.
   */
  lemma ReceivedOwnExactlyWhen(rail: Rail, q: Request, c: C.Chain, k: nat, token: Address, payer: Address, payee: Address, nonce: T.Nonce,
                               top: nat)
    requires C.Valid(c) && ValidRail(rail) && k < |c.entries| && c.entries[k].block > 0 && c.entries[k].Succeeded()
    requires Asks(q, token, payer, payee, nonce, c.entries[k].hash)
    requires Verdict(rail, q, Truth(c, k, token, rail.chainId, payer, payee, nonce, top)).Ok?
    requires PaysNothing(c, c.entries[k].block, payee)
    ensures Moves(c.entries[k])
    ensures var received := Verdict(rail, q, Truth(c, k, token, rail.chainId, payer, payee, nonce, top)).value.receivedAmount;
              && received >= OwnShare(c, k, payee)
              && (received == OwnShare(c, k, payee) <==> NothingUnseen(c, k, payee))
  {
    hide Verdict, Truth, Alone, C.Valid, Asks, BlockDrifted, BlockLegacy, BlockUnseen, BlockIn, First, Last, T.Fee, UnseenIn, PaysNothing,
         NothingUnseen;
    ReceivedAccounted(rail, q, c, k, token, payer, payee, nonce, top);
    ReceivedIsGain(rail, q, c, k, token, payer, payee, nonce, top);
    PaysNothingSums(c, c.entries[k].block, payee);
    UnseenSums(c, k, payee);
    OwnInflow(c, k, payer, payee, nonce, q.logIndex);
  }

  /** A payee that is not the admin and that no other payment of the block names, but for legacy ones, which would race. */
  ghost predicate LonePayee(c: C.Chain, k: nat, payee: Address)
    requires k < |c.entries|
  {
    && payee != c.genesis.admin
    && forall m :: 0 <= m < |c.entries| && m != k && c.entries[m].block == c.entries[k].block && Moves(c.entries[m]) ==>
         c.entries[m].call.auth.from != payee && (c.entries[m].pre.eventMode != 0 ==> c.entries[m].call.auth.to != payee)
  }

  lemma LonePayeeUnseen(c: C.Chain, k: nat, payer: Address, payee: Address, nonce: T.Nonce, logIndex: int)
    requires C.Valid(c) && k < |c.entries| && LonePayee(c, k, payee) && Settled(c, k, payer, payee, nonce, logIndex) && payer != payee
    ensures PaysNothing(c, c.entries[k].block, payee) && NothingUnseen(c, k, payee)
  {
    hide C.Valid, T.Fee;
    forall m | 0 <= m < |c.entries| && m != k && c.entries[m].block == c.entries[k].block ensures UnseenIn(c.entries[m], payee) == 0 {
      AdminIsFixed(c, m);
    }
  }

  /** For such a payee the verdict is exact: it reports the settlement's net value and grades by it. */
  lemma LonePayeeIsExact(rail: Rail, q: Request, c: C.Chain, k: nat, token: Address, payer: Address, payee: Address, nonce: T.Nonce, top: nat)
    requires C.Valid(c) && ValidRail(rail) && k < |c.entries| && c.entries[k].block > 0 && c.entries[k].Succeeded()
    requires Asks(q, token, payer, payee, nonce, c.entries[k].hash)
    requires Verdict(rail, q, Truth(c, k, token, rail.chainId, payer, payee, nonce, top)).Ok?
    requires LonePayee(c, k, payee)
    ensures Moves(c.entries[k])
    ensures var v, e := Verdict(rail, q, Truth(c, k, token, rail.chainId, payer, payee, nonce, top)).value, c.entries[k];
              && v.receivedAmount == e.call.auth.value - T.Fee(e.call.auth.value, e.pre.feeBps)
              && (v.kind.ConsistentPaid? <==>
                    q.believesPaid && e.call.auth.value - T.Fee(e.call.auth.value, e.pre.feeBps) >= q.requiredAmount)
  {
    hide Verdict, Truth, Alone, C.Valid, Asks, BlockDrifted, BlockLegacy, BlockIn, First, Last, T.Fee, PaysNothing, NothingUnseen;
    ReceivedIsGain(rail, q, c, k, token, payer, payee, nonce, top);
    LonePayeeUnseen(c, k, payer, payee, nonce, q.logIndex);
    ReceivedOwnExactlyWhen(rail, q, c, k, token, payer, payee, nonce, top);
    OwnInflow(c, k, payer, payee, nonce, q.logIndex);
  }
}
