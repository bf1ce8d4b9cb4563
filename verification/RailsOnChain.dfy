/**
 The strict oracle against the token's real semantics: on the truthful answers for a valid chain it
 proves exactly the settlements that happened alone in their block, and grades them by what moved.
 */
module RailsOnChain {
  import opened Common
  import opened Numerals
  import opened Json
  import opened Evidence
  import opened Divergence
  import opened Rails
  import T = Token
  import C = Chain
  import F = Confirmer
  import R = Reconciliation
  import ChainTruth

  // ---------------------------------------------------------------- the state at a block

  /** How many included transactions are in blocks up to b. */
  function Through(c: C.Chain, n: nat, b: nat): (r: nat)
    requires n <= |c.entries|
    ensures r <= n
  {
    if n == 0 then 0 else if c.entries[n - 1].block <= b then n else Through(c, n - 1, b)
  }

  function StateAt(c: C.Chain, b: nat): T.TokenState { c.Before(Through(c, |c.entries|, b)) }

  lemma {:induction false} ThroughMeaning(c: C.Chain, n: nat, b: nat, i: nat)
    requires C.Valid(c) && i < n <= |c.entries|
    ensures i < Through(c, n, b) <==> c.entries[i].block <= b
  {
    if c.entries[n - 1].block <= b {
      C.BlocksAscend(c, i, n - 1);
    } else if i < n - 1 {
      ThroughMeaning(c, n - 1, b, i);
    }
  }

  lemma ThroughMonotone(c: C.Chain, b: nat, d: nat)
    requires C.Valid(c) && b <= d
    ensures Through(c, |c.entries|, b) <= Through(c, |c.entries|, d)
  {
    var m := Through(c, |c.entries|, b);
    if m > 0 {
      ThroughMeaning(c, |c.entries|, b, m - 1);
      ThroughMeaning(c, |c.entries|, d, m - 1);
    }
  }

  // ---------------------------------------------------------------- what one transaction moves

  predicate Moves(e: C.Entry) { e.Succeeded() && e.call.TransferWithAuthorization? }

  /** What an included transaction takes from an account on the legacy event, and what it takes unseen. */
  function LegacyOut(e: C.Entry, who: Address): nat {
    if Moves(e) && e.pre.eventMode == 0 && e.call.auth.from == who then e.call.auth.value else 0
  }

  function DriftedOut(e: C.Entry, who: Address): nat {
    if Moves(e) && e.pre.eventMode != 0 && e.call.auth.from == who then e.call.auth.value else 0
  }

  /** What it adds: a mint, a payment net of the fee, or the fee itself. */
  function In(e: C.Entry, who: Address): nat {
    if e.Succeeded() && e.call.Mint? && e.call.to == who then e.call.amount
    else if Moves(e) then
      var fee := T.Fee(e.call.auth.value, e.pre.feeBps);
      (if e.call.auth.to == who && fee <= e.call.auth.value then e.call.auth.value - fee else 0) + (if e.pre.admin == who then fee else 0)
    else 0
  }

  lemma EntryBalance(c: C.Chain, i: nat, who: Address)
    requires C.Valid(c) && i < |c.entries|
    ensures T.Balance(c.Before(i + 1).balances, who) + LegacyOut(c.entries[i], who) + DriftedOut(c.entries[i], who)
         == T.Balance(c.Before(i).balances, who) + In(c.entries[i], who)
  {
    assert C.EntryOk(c, i);
    hide C.Valid, T.Fee, T.SettlementEvents;
  }

  function Sum(c: C.Chain, f: (C.Entry, Address) -> nat, who: Address, i: nat, j: nat): nat
    requires i <= j <= |c.entries|
    decreases j
  {
    if i == j then 0 else Sum(c, f, who, i, j - 1) + f(c.entries[j - 1], who)
  }

  /** Balances change by exactly what the transactions in between moved. */
  lemma {:induction false} BalanceChange(c: C.Chain, who: Address, i: nat, j: nat)
    requires C.Valid(c) && i <= j <= |c.entries|
    ensures T.Balance(c.Before(j).balances, who) + Sum(c, LegacyOut, who, i, j) + Sum(c, DriftedOut, who, i, j)
         == T.Balance(c.Before(i).balances, who) + Sum(c, In, who, i, j)
    decreases j
  {
    if i < j {
      BalanceChange(c, who, i, j - 1);
      EntryBalance(c, j - 1, who);
    }
  }

  lemma {:induction false} SumZero(c: C.Chain, f: (C.Entry, Address) -> nat, who: Address, i: nat, j: nat)
    requires i <= j <= |c.entries|
    requires forall m :: i <= m < j ==> f(c.entries[m], who) == 0
    ensures Sum(c, f, who, i, j) == 0
    decreases j
  {
    if i < j {
      SumZero(c, f, who, i, j - 1);
    }
  }

  lemma {:induction false} SumOne(c: C.Chain, f: (C.Entry, Address) -> nat, who: Address, i: nat, j: nat, k: nat)
    requires i <= k < j <= |c.entries|
    requires forall m :: i <= m < j && m != k ==> f(c.entries[m], who) == 0
    ensures Sum(c, f, who, i, j) == f(c.entries[k], who)
    decreases j
  {
    if k == j - 1 {
      SumZero(c, f, who, i, j - 1);
    } else {
      SumOne(c, f, who, i, j - 1, k);
    }
  }

  // ---------------------------------------------------------------- the truthful answers

  /** A request for these parties, in any letter case. */
  ghost predicate Asks(q: Request, token: Address, payer: Address, payee: Address, nonce: T.Nonce, tx: Hash) {
    && Spells(q.token, 20, token) && Spells(q.payer, 20, payer) && Spells(q.payee, 20, payee)
    && Spells(q.nonce, 32, nonce) && Spells(q.txHash, 32, tx)
  }

  ghost predicate Spells(text: string, size: nat, n: nat) { IsHexText(text, size) && Value(text[2..], 16) == n }

  predicate ValidRail(rail: Rail) {
    rail.chainId > 0 && IsHexText(rail.tokenAddress, 20) && rail.minimumConfirmations >= 1
  }

  function InboundFilter(payee: Address): seq<Option<string>> { [Some(TOPIC_TRANSFER), None, Some(AddressTopic(payee))] }

  function OutboundFilter(payer: Address): seq<Option<string>> { [Some(TOPIC_TRANSFER), Some(AddressTopic(payer)), None] }

  /** What a node of this chain answers when its block `top` is the finality block. */
  function Truth(c: C.Chain, k: nat, token: Address, chainId: int, payer: Address, payee: Address, nonce: T.Nonce, top: nat): Observation
    requires k < |c.entries| && c.entries[k].block > 0
  {
    var e := c.entries[k];
    var hash := C.BlockHash(c.heads, e.block);
    var block := RawBlock(Str(HexQuantity(e.block)), Str(HexWord(hash)));
    var parent, after := StateAt(c, e.block - 1), StateAt(c, e.block);
    Observation(
      chainId, true, RawBlock(Str(HexQuantity(top)), Str(HexWord(C.BlockHash(c.heads, top)))),
      EncodeReceipt(token, e, hash), block, true,
      T.Balance(parent.balances, payer), T.Balance(parent.balances, payee),
      T.Balance(after.balances, payer), T.Balance(after.balances, payee), (payer, nonce) in after.used,
      EncodeLogs(token, SelectLogs(C.AllLogs(c), InboundFilter(payee), e.block, e.block)),
      EncodeLogs(token, SelectLogs(C.AllLogs(c), OutboundFilter(payer), e.block, e.block)),
      EncodeReceipt(token, e, hash), block)
  }

  // ---------------------------------------------------------------- text facts

  lemma SpelledAddress(text: string, a: Address)
    requires Spells(text, 20, a)
    ensures Lower(text) == HexAddress(a) && PaddedTopic(text) == AddressTopic(a)
  {
    PaddedOfValue(text[2..], 16);
    assert text == text[..2] + text[2..];
    LowerConcat(text[..2], text[2..]);
    assert Lower("0x") == "0x";
    AddressTopicShape(a);
    PaddedZero(16, 24);
    assert Padded(0, 16, 24) == seq(24, _ => '0');
    assert Lower(text)[2..] == HexAddress(a)[2..];
  }

  lemma SpelledWord(text: string, n: Uint256)
    requires Spells(text, 32, n)
    ensures Lower(text) == HexWord(n)
  {
    PaddedOfValue(text[2..], 16);
    assert text == text[..2] + text[2..];
    LowerConcat(text[..2], text[2..]);
    assert Lower("0x") == "0x";
  }

  lemma StrictHash(n: Uint256)
    ensures ExactHash(Str(HexWord(n))) == Some(HexWord(n))
  {
    HexWordShape(n);
  }

  lemma StrictQuantity(n: nat)
    ensures Quantity(Str(HexQuantity(n))) == Some(n)
  {
    HexQuantityShape(n);
    NumeralShape(n, 16);
    assert HexQuantity(n)[2] == Numeral(n, 16)[0];
  }

  // ---------------------------------------------------------------- before the branch

  /** What a caller can check about the request and the rail. */
  ghost predicate Acceptable(rail: Rail, q: Request, o: Observation, block: nat, top: nat) {
    && Lower(q.token) == Lower(rail.tokenAddress) && InRange(q)
    && o.chainId == rail.chainId && (rail.mainnet ==> rail.calibrated)
    && top - block + 1 >= rail.minimumConfirmations
    && q.payerBefore == o.payerParent && q.payeeBefore == o.payeeParent
  }

  /** The fields of the truthful answers that the preflight and the recheck read. */
  ghost predicate TruthFields(c: C.Chain, e: C.Entry, top: nat, o: Observation) {
    var block := RawBlock(Str(HexQuantity(e.block)), Str(HexWord(C.BlockHash(c.heads, e.block))));
    && o.anchorHolds && o.codeMatches
    && o.finality == RawBlock(Str(HexQuantity(top)), Str(HexWord(C.BlockHash(c.heads, top))))
    && o.canonical == block && o.canonicalAfter == block && o.receiptAfter == o.receipt
    && o.receipt.transactionHash == Str(HexWord(e.hash)) && o.receipt.blockHash == block.hash && o.receipt.blockNumber == block.number
    && o.receipt.status == Str(if e.Succeeded() then "0x1" else "0x0")
  }

  lemma TruthHasFields(c: C.Chain, k: nat, token: Address, chainId: int, payer: Address, payee: Address, nonce: T.Nonce, top: nat)
    requires k < |c.entries| && c.entries[k].block > 0
    ensures TruthFields(c, c.entries[k], top, Truth(c, k, token, chainId, payer, payee, nonce, top))
  {
    hide HexWord, HexAddress, HexQuantity, EncodeLogs, SelectLogs, StateAt, C.BlockHash, C.AllLogs, C.EntryLogs, T.Balance;
  }

  lemma PreflightOnTruth(rail: Rail, q: Request, c: C.Chain, e: C.Entry, token: Address, payer: Address, payee: Address, nonce: T.Nonce,
                         top: nat, o: Observation)
    requires e.block > 0 && Asks(q, token, payer, payee, nonce, e.hash) && TruthFields(c, e, top, o)
    ensures Preflight(rail, q, o).Ok? <==> Acceptable(rail, q, o, e.block, top)
    ensures Preflight(rail, q, o).Ok? ==>
              Preflight(rail, q, o) == Common.Ok(Settlement(e.block, HexWord(C.BlockHash(c.heads, e.block)),
                                                            if e.Succeeded() then 1 else 0, top - e.block + 1))
  {
    hide HexWord, HexQuantity, Quantity, ExactHash, Lower, IsHexText, C.BlockHash, Value;
    SpelledWord(q.txHash, e.hash);
    StrictHash(e.hash);
    StrictHash(C.BlockHash(c.heads, e.block));
    StrictHash(C.BlockHash(c.heads, top));
    StrictQuantity(e.block);
    StrictQuantity(top);
    StrictStatus();
  }

  lemma RecheckedOnTruth(c: C.Chain, e: C.Entry, top: nat, o: Observation, s: Settlement)
    requires TruthFields(c, e, top, o) && s.hash == HexWord(C.BlockHash(c.heads, e.block))
    ensures Rechecked(o, s)
  {
    hide HexWord, HexQuantity, Quantity, ExactHash, C.BlockHash;
    StrictHash(C.BlockHash(c.heads, e.block));
    StrictQuantity(e.block);
  }

  lemma StrictStatus()
    ensures Quantity(Str("0x1")) == Some(1) && Quantity(Str("0x0")) == Some(0)
  {
    assert HexQuantity(1) == "0x1" && HexQuantity(0) == "0x0";
    StrictQuantity(1);
    StrictQuantity(0);
  }

  // ---------------------------------------------------------------- the receipt's logs

  lemma MatchingShort(logs: seq<Option<RawLog>>, test: RawLog -> bool)
    requires |logs| <= 2 && forall i :: 0 <= i < |logs| ==> logs[i].Some?
    ensures Matching(logs, test)
         == (if |logs| >= 1 && test(logs[0].value) then [logs[0].value] else [])
          + (if |logs| >= 2 && test(logs[1].value) then [logs[1].value] else [])
  {
    if |logs| == 2 {
      assert logs[..1][..0] == [];
      assert logs[..1][0] == logs[0];
    } else if |logs| == 1 {
      assert logs[..0] == [];
    }
  }

  ghost function DecodedFor(log: RawLog, chainId: int, token: string): Option<R.OnChainCredit> {
    match R.DecodeTransferLog(log, chainId)
    case Some(credit) => if credit.identity.asset == Lower(token) then Some(credit) else None
    case None => None
  }

  lemma SelectedOfPair(a: RawLog, b: RawLog, n: nat, chainId: int, logIndex: int, token: string)
    requires Quantity(a.logIndex) == Some(n) && Quantity(b.logIndex) == Some(n + 1)
    ensures SelectedCredit([Some(a), Some(b)], chainId, logIndex, token)
         == if logIndex == n then DecodedFor(a, chainId, token)
            else if logIndex == n + 1 then DecodedFor(b, chainId, token) else None
  {
    hide Quantity, R.DecodeTransferLog;
    MatchingShort([Some(a), Some(b)], (l: RawLog) => Quantity(l.logIndex) == Some(logIndex));
    hide Matching;
  }

  lemma AuthorizationOfShort(logs: seq<Option<RawLog>>, token: string, payer: string, nonce: string)
    requires 1 <= |logs| <= 2 && forall i :: 0 <= i < |logs| ==> logs[i].Some?
    requires |logs| == 2 ==> !IsAuthorization(logs[1].value, token, payer, nonce)
    ensures AuthorizationIndex(logs, token, payer, nonce)
         == if IsAuthorization(logs[0].value, token, payer, nonce) && logs[0].value.removed == Bool(false)
            then Quantity(logs[0].value.logIndex) else None
  {
    hide Quantity, IsAuthorization;
    MatchingShort(logs, (l: RawLog) => IsAuthorization(l, token, payer, nonce));
    hide Matching;
  }

  /** The strict authorization test on an honest log asks exactly for the event. */
  lemma AuthorizationTest(token: Address, l: C.LogEntry, q: Request, payer: Address, payee: Address, nonce: T.Nonce)
    requires Asks(q, token, payer, payee, nonce, l.tx)
    ensures IsAuthorization(EncodeLog(token, l), q.token, q.payer, q.nonce) <==> l.event == T.AuthorizationUsed(payer, nonce)
  {
    hide HexWord, HexAddress, PaddedTopic, Lower, EventTopics, Strings, Spells, HexQuantity, EventData;
    SpelledAddress(q.token, token);
    SpelledAddress(q.payer, payer);
    SpelledWord(q.nonce, nonce);
    HexAddressShape(token);
    AuthorizationTopics(l.event, payer, nonce);
  }

  lemma StrictIndex(token: Address, l: C.LogEntry)
    ensures Quantity(EncodeLog(token, l).logIndex) == Some(l.index) && EncodeLog(token, l).removed == Bool(false)
  {
    hide HexQuantity, Quantity, HexWord, HexAddress, Strings;
    StrictQuantity(l.index);
  }

  lemma StringsEqual(s: seq<string>, a: string, b: string, c: string)
    ensures Strings(s) == [Str(a), Str(b), Str(c)] <==> s == [a, b, c]
  {
    var r := Strings(s);
    assert |r| == |s| && forall i :: 0 <= i < |s| ==> r[i] == Str(s[i]);
    if r == [Str(a), Str(b), Str(c)] {
      assert r[0] == Str(a) && r[1] == Str(b) && r[2] == Str(c);
    }
  }

  lemma AuthorizationTopics(event: T.Event, payer: Address, nonce: T.Nonce)
    ensures Strings(EventTopics(event)) == [Str(TOPIC_AUTHORIZATION_USED), Str(AddressTopic(payer)), Str(HexWord(nonce))]
       <==> event == T.AuthorizationUsed(payer, nonce)
  {
    hide HexWord, Strings;
    StringsEqual(EventTopics(event), TOPIC_AUTHORIZATION_USED, AddressTopic(payer), HexWord(nonce));
    TopicsDiffer();
    if event.AuthorizationUsed? {
      HexWordInjective(event.authorizer, payer);
      HexWordInjective(event.nonce, nonce);
    }
  }

  // ---------------------------------------------------------------- the settlement a receipt proves

  /** The i-th log of an included transaction. */
  function LogOf(c: C.Chain, e: C.Entry, i: nat): C.LogEntry
    requires i < |e.Events()|
  {
    C.LogEntry(e.hash, e.block, C.BlockHash(c.heads, e.block), e.firstLog + i, e.Events()[i])
  }

  /** The transaction is the requested authorization, executed on the legacy event at the requested position. */
  ghost predicate Settled(c: C.Chain, k: nat, payer: Address, payee: Address, nonce: T.Nonce, logIndex: int)
    requires k < |c.entries|
  {
    var e := c.entries[k];
    && Moves(e)
    && e.call.auth.from == payer && e.call.auth.to == payee && e.call.auth.nonce == nonce
    && e.Events() == [T.AuthorizationUsed(payer, nonce), T.Transfer(payer, payee, e.call.auth.value)]
    && logIndex == e.firstLog + 1
  }

  lemma SuccessEvents(c: C.Chain, k: nat)
    requires C.Valid(c) && k < |c.entries| && c.entries[k].Succeeded()
    ensures var e := c.entries[k];
            if Moves(e) then e.Events() == T.SettlementEvents(e.call.auth, e.pre.eventMode)
            else |e.Events()| == 1 && !e.Events()[0].AuthorizationUsed?
  {
    assert C.EntryOk(c, k);
  }

  lemma LogInChain(c: C.Chain, k: nat, i: nat)
    requires C.Valid(c) && k < |c.entries| && i < |c.entries[k].Events()|
    ensures LogOf(c, c.entries[k], i) in C.AllLogs(c)
    ensures LogOf(c, c.entries[k], i).block <= UINT256_MAX && LogOf(c, c.entries[k], i).index < UINT256_MAX
  {
    assert C.EntryOk(c, k);
    assert C.IsLog(c, LogOf(c, c.entries[k], i), k, i);
    C.LogsAreEvents(c, LogOf(c, c.entries[k], i));
  }

  lemma ReceiptOfPair(c: C.Chain, token: Address, e: C.Entry)
    requires |e.Events()| == 2
    ensures EncodeReceipt(token, e, C.BlockHash(c.heads, e.block)).logs
         == Some([Some(EncodeLog(token, LogOf(c, e, 0))), Some(EncodeLog(token, LogOf(c, e, 1)))])
  {
    hide EncodeLog, EncodeReceipt;
    F.ReceiptLog(token, e, C.BlockHash(c.heads, e.block), 0);
    F.ReceiptLog(token, e, C.BlockHash(c.heads, e.block), 1);
    var logs := EncodeReceipt(token, e, C.BlockHash(c.heads, e.block)).logs.value;
    assert logs == [logs[0], logs[1]];
  }

  lemma ReceiptOfOne(c: C.Chain, token: Address, e: C.Entry)
    requires |e.Events()| == 1
    ensures EncodeReceipt(token, e, C.BlockHash(c.heads, e.block)).logs == Some([Some(EncodeLog(token, LogOf(c, e, 0)))])
  {
    hide EncodeLog, EncodeReceipt;
    F.ReceiptLog(token, e, C.BlockHash(c.heads, e.block), 0);
    var logs := EncodeReceipt(token, e, C.BlockHash(c.heads, e.block)).logs.value;
    assert logs == [logs[0]];
  }

  /** A successful call that is not a transfer authorization proves nothing. */
  lemma NoAuthorizationNoIndex(c: C.Chain, k: nat, q: Request, token: Address, payer: Address, payee: Address, nonce: T.Nonce)
    requires C.Valid(c) && k < |c.entries| && c.entries[k].Succeeded() && !Moves(c.entries[k])
    requires Asks(q, token, payer, payee, nonce, c.entries[k].hash)
    ensures var logs := EncodeReceipt(token, c.entries[k], C.BlockHash(c.heads, c.entries[k].block)).logs;
            logs.Some? && AuthorizationIndex(logs.value, q.token, q.payer, q.nonce) == None
  {
    hide EncodeLog, EncodeReceipt, IsAuthorization, AuthorizationIndex, Asks;
    var e := c.entries[k];
    SuccessEvents(c, k);
    ReceiptOfOne(c, token, e);
    AuthorizationTest(token, LogOf(c, e, 0), q, payer, payee, nonce);
    AuthorizationOfShort([Some(EncodeLog(token, LogOf(c, e, 0)))], q.token, q.payer, q.nonce);
  }

  /** On a settlement's receipt, the authorization index is found exactly for its own payer and nonce. */
  lemma PairAuthorization(c: C.Chain, k: nat, q: Request, token: Address, payer: Address, payee: Address, nonce: T.Nonce)
    requires C.Valid(c) && k < |c.entries| && Moves(c.entries[k]) && |c.entries[k].Events()| == 2
    requires Asks(q, token, payer, payee, nonce, c.entries[k].hash)
    ensures var e := c.entries[k];
              AuthorizationIndex([Some(EncodeLog(token, LogOf(c, e, 0))), Some(EncodeLog(token, LogOf(c, e, 1)))], q.token, q.payer, q.nonce)
              == (if e.call.auth.from == payer && e.call.auth.nonce == nonce then Some(e.firstLog) else None)
  {
    hide EncodeLog, IsAuthorization, AuthorizationIndex, Asks, Quantity;
    var e := c.entries[k];
    SuccessEvents(c, k);
    AuthorizationTest(token, LogOf(c, e, 0), q, payer, payee, nonce);
    AuthorizationTest(token, LogOf(c, e, 1), q, payer, payee, nonce);
    StrictIndex(token, LogOf(c, e, 0));
    AuthorizationOfShort([Some(EncodeLog(token, LogOf(c, e, 0))), Some(EncodeLog(token, LogOf(c, e, 1)))], q.token, q.payer, q.nonce);
  }

  /** On a settlement's receipt, a credit is selected exactly at the position of a legacy Transfer. */
  lemma PairSelection(c: C.Chain, k: nat, q: Request, token: Address, chainId: int)
    requires C.Valid(c) && k < |c.entries| && Moves(c.entries[k]) && |c.entries[k].Events()| == 2
    requires chainId > 0 && Lower(q.token) == HexAddress(token)
    ensures LogOf(c, c.entries[k], 1).block <= UINT256_MAX && LogOf(c, c.entries[k], 1).index <= UINT256_MAX
    ensures var e := c.entries[k];
              SelectedCredit([Some(EncodeLog(token, LogOf(c, e, 0))), Some(EncodeLog(token, LogOf(c, e, 1)))], chainId, q.logIndex, q.token)
              == (if e.Events()[1].Transfer? && q.logIndex == e.firstLog + 1 then Some(R.CreditOf(token, chainId, LogOf(c, e, 1))) else None)
  {
    hide EncodeLog, SelectedCredit, Quantity, R.DecodeTransferLog, HexWord, HexAddress, Lower;
    var e := c.entries[k];
    SuccessEvents(c, k);
    var a, b := LogOf(c, e, 0), LogOf(c, e, 1);
    LogInChain(c, k, 1);
    StrictIndex(token, a);
    StrictIndex(token, b);
    SelectedOfPair(EncodeLog(token, a), EncodeLog(token, b), e.firstLog, chainId, q.logIndex, q.token);
    R.DecodeOfOther(token, chainId, a);
    if b.event.Transfer? {
      R.DecodeOfTransfer(token, chainId, b);
    } else {
      R.DecodeOfOther(token, chainId, b);
    }
  }

  lemma RequestedOnTruth(c: C.Chain, e: C.Entry, l: C.LogEntry, q: Request, s: Settlement, token: Address, chainId: int,
                         payer: Address, payee: Address, nonce: T.Nonce)
    requires l.event.Transfer? && l.block <= UINT256_MAX && l.index <= UINT256_MAX
    requires Asks(q, token, payer, payee, nonce, l.tx)
    requires s.number == l.block && s.hash == HexWord(l.blockHash)
    ensures IsRequested(R.CreditOf(token, chainId, l), q, s) <==> l.event.from == payer && l.event.to == payee
  {
    hide HexWord, HexAddress, Lower, PaddedTopic, Spells;
    SpelledAddress(q.payer, payer);
    SpelledAddress(q.payee, payee);
    SpelledWord(q.txHash, l.tx);
    HexAddressInjective(l.event.from, payer);
    HexAddressInjective(l.event.to, payee);
  }

  // ---------------------------------------------------------------- the same-block race

  /** A Transfer out of the payer or into the payee in this block. */
  ghost predicate Races(c: C.Chain, m: C.LogEntry, block: nat, payer: Address, payee: Address) {
    m in C.AllLogs(c) && m.block == block && m.event.Transfer? && (m.event.from == payer || m.event.to == payee)
  }

  /** The settlement's log is the only Transfer out of the payer or into the payee in its block. */
  ghost predicate Alone(c: C.Chain, l: C.LogEntry, payer: Address, payee: Address) {
    forall m :: Races(c, m, l.block, payer, payee) ==> m == l
  }

  lemma FilterMeans(a: Address, b: Address, event: T.Event)
    ensures TopicsMatch(InboundFilter(b), EventTopics(event)) <==> event.Transfer? && event.to == b
    ensures TopicsMatch(OutboundFilter(a), EventTopics(event)) <==> event.Transfer? && event.from == a
  {
    TopicsDiffer();
    hide HexWord;
    var inbound, outbound, topics := InboundFilter(b), OutboundFilter(a), EventTopics(event);
    if event.Transfer? {
      HexWordInjective(event.to, b);
      HexWordInjective(event.from, a);
      assert inbound[2] == Some(HexWord(b)) && outbound[1] == Some(HexWord(a)) && topics[1] == HexWord(event.from) && topics[2] == HexWord(event.to);
      assert inbound[0] == outbound[0] == Some(topics[0]) && inbound[1] == outbound[2] == None;
    } else {
      assert |topics| < 3 || (inbound[0] == outbound[0] == Some(TOPIC_TRANSFER) && topics[0] != TOPIC_TRANSFER);
    }
  }

  lemma RaceLogs(c: C.Chain, token: Address, payer: Address, payee: Address, block: nat, raws: seq<RawLog>)
    requires raws == EncodeLogs(token, SelectLogs(C.AllLogs(c), InboundFilter(payee), block, block))
                   + EncodeLogs(token, SelectLogs(C.AllLogs(c), OutboundFilter(payer), block, block))
    ensures forall raw :: raw in raws ==> exists m :: Races(c, m, block, payer, payee) && raw == EncodeLog(token, m)
    ensures forall m :: Races(c, m, block, payer, payee) ==> EncodeLog(token, m) in raws
  {
    hide EncodeLog, TopicsMatch, InboundFilter, OutboundFilter, EventTopics;
    var inbound := SelectLogs(C.AllLogs(c), InboundFilter(payee), block, block);
    var outbound := SelectLogs(C.AllLogs(c), OutboundFilter(payer), block, block);
    forall i: nat | i < |raws| ensures exists m :: Races(c, m, block, payer, payee) && raws[i] == EncodeLog(token, m) {
      var m := if i < |inbound| then inbound[i] else outbound[i - |inbound|];
      assert m in inbound || m in outbound;
      FilterMeans(payer, payee, m.event);
      assert Races(c, m, block, payer, payee);
    }
    forall m | Races(c, m, block, payer, payee) ensures EncodeLog(token, m) in raws {
      FilterMeans(payer, payee, m.event);
      if m in inbound {
        ChainTruth.EncodedIn(token, inbound, m);
      } else {
        ChainTruth.EncodedIn(token, outbound, m);
      }
    }
  }

  lemma RaceDecodes(c: C.Chain, token: Address, chainId: int, m: C.LogEntry)
    requires C.Valid(c) && chainId > 0 && m in C.AllLogs(c) && m.event.Transfer?
    ensures m.block <= UINT256_MAX && m.index <= UINT256_MAX
    ensures R.DecodeTransferLog(EncodeLog(token, m), chainId) == Some(R.CreditOf(token, chainId, m))
  {
    hide EncodeLog, R.DecodeTransferLog;
    C.LogsAreEvents(c, m);
    var i: nat, j: nat :| C.IsLog(c, m, i, j);
    assert C.EntryOk(c, i);
    R.DecodeOfTransfer(token, chainId, m);
  }

  lemma RaceOnTruth(c: C.Chain, token: Address, chainId: int, payer: Address, payee: Address, l: C.LogEntry, raws: seq<RawLog>)
    requires C.Valid(c) && chainId > 0 && Races(c, l, l.block, payer, payee)
    requires l.block <= UINT256_MAX && l.index <= UINT256_MAX
    requires raws == EncodeLogs(token, SelectLogs(C.AllLogs(c), InboundFilter(payee), l.block, l.block))
                   + EncodeLogs(token, SelectLogs(C.AllLogs(c), OutboundFilter(payer), l.block, l.block))
    ensures RaceFree(raws, chainId, R.CreditOf(token, chainId, l)) <==> Alone(c, l, payer, payee)
  {
    hide EncodeLog, EncodeLogs, SelectLogs, R.DecodeTransferLog, HexWord, HexAddress, C.Valid, C.AllLogs;
    RaceLogs(c, token, payer, payee, l.block, raws);
    assert EncodeLog(token, l) in raws;
    var credit := R.CreditOf(token, chainId, l);
    if RaceFree(raws, chainId, credit) {
      forall m | Races(c, m, l.block, payer, payee) ensures m == l {
        RaceDecodes(c, token, chainId, m);
        assert EncodeLog(token, m) in raws;
        HexWordInjective(m.tx, l.tx);
        C.LogIdentity(c, l, m);
      }
    } else if Alone(c, l, payer, payee) {
      var raw :| raw in raws && match R.DecodeTransferLog(raw, chainId)
                                case Some(seen) => seen.removed || seen.identity.txHash != credit.identity.txHash || seen.identity.logIndex != credit.identity.logIndex
                                case None => true;
      var m :| Races(c, m, l.block, payer, payee) && raw == EncodeLog(token, m);
      assert m == l;
      RaceDecodes(c, token, chainId, m);
    }
  }

  // ---------------------------------------------------------------- the verdict, exactly

  lemma NonceStaysSpent(c: C.Chain, k: nat, payer: Address, payee: Address, nonce: T.Nonce, logIndex: int)
    requires C.Valid(c) && k < |c.entries| && Settled(c, k, payer, payee, nonce, logIndex)
    ensures (payer, nonce) in StateAt(c, c.entries[k].block).used
  {
    assert C.EntryOk(c, k);
    assert (payer, nonce) in c.Before(k + 1).used;
    ThroughMeaning(c, |c.entries|, c.entries[k].block, k);
    C.UsedGrows(c, k + 1, Through(c, |c.entries|, c.entries[k].block));
  }

  /** What the observation holds of the receipt's logs, the race queries and the nonce. */
  ghost predicate TruthEvidence(c: C.Chain, e: C.Entry, token: Address, chainId: int, payer: Address, payee: Address, nonce: T.Nonce,
                                o: Observation) {
    && o.chainId == chainId
    && o.receipt.logs == EncodeReceipt(token, e, C.BlockHash(c.heads, e.block)).logs
    && o.inbound == EncodeLogs(token, SelectLogs(C.AllLogs(c), InboundFilter(payee), e.block, e.block))
    && o.outbound == EncodeLogs(token, SelectLogs(C.AllLogs(c), OutboundFilter(payer), e.block, e.block))
    && (o.nonceConsumed <==> (payer, nonce) in StateAt(c, e.block).used)
  }

  lemma TruthHasEvidence(c: C.Chain, k: nat, token: Address, chainId: int, payer: Address, payee: Address, nonce: T.Nonce, top: nat)
    requires k < |c.entries| && c.entries[k].block > 0
    ensures TruthEvidence(c, c.entries[k], token, chainId, payer, payee, nonce, Truth(c, k, token, chainId, payer, payee, nonce, top))
  {
    hide EncodeReceipt, EncodeLogs, SelectLogs, StateAt, C.AllLogs, T.Balance;
  }

  /** A settlement alone in its block whose value the balance changes account for. */
  ghost predicate Provable(c: C.Chain, k: nat, payer: Address, payee: Address, nonce: T.Nonce, logIndex: int, o: Observation)
    requires k < |c.entries|
  {
    && Settled(c, k, payer, payee, nonce, logIndex)
    && Alone(c, LogOf(c, c.entries[k], 1), payer, payee)
    && Attributable(c.entries[k].call.auth.value, o)
  }

  /** The status-1 branch succeeds exactly on a lone, attributable, legacy-event settlement. */
  lemma ProofOnTruth(q: Request, c: C.Chain, k: nat, token: Address, chainId: int, payer: Address, payee: Address, nonce: T.Nonce,
                     o: Observation, s: Settlement)
    requires C.Valid(c) && chainId > 0 && k < |c.entries| && c.entries[k].Succeeded()
    requires Asks(q, token, payer, payee, nonce, c.entries[k].hash)
    requires s.number == c.entries[k].block && s.hash == HexWord(C.BlockHash(c.heads, c.entries[k].block))
    requires TruthEvidence(c, c.entries[k], token, chainId, payer, payee, nonce, o)
    ensures ProveTransfer(q, o, s).Ok? <==> Provable(c, k, payer, payee, nonce, q.logIndex, o)
    ensures ProveTransfer(q, o, s).Ok? ==>
              && ProveTransfer(q, o, s).value.credit.value == c.entries[k].call.auth.value
              && ProveTransfer(q, o, s).value.credit.identity.logIndex == c.entries[k].firstLog + 1
              && ProveTransfer(q, o, s).value.authorizationIndex == c.entries[k].firstLog
  {
    hide EncodeLog, EncodeLogs, EncodeReceipt, SelectLogs, SelectedCredit, AuthorizationIndex, RaceFree, Attributable, IsRequested,
         StateAt, C.Valid, C.AllLogs, HexWord, Spells, Alone;
    var e := c.entries[k];
    SuccessEvents(c, k);
    if !Moves(e) {
      NoAuthorizationNoIndex(c, k, q, token, payer, payee, nonce);
    } else {
      var l := LogOf(c, e, 1);
      SpelledAddress(q.token, token);
      ReceiptOfPair(c, token, e);
      PairSelection(c, k, q, token, chainId);
      PairAuthorization(c, k, q, token, payer, payee, nonce);
      if l.event.Transfer? && q.logIndex == e.firstLog + 1 {
        RequestedOnTruth(c, e, l, q, s, token, chainId, payer, payee, nonce);
        if Settled(c, k, payer, payee, nonce, q.logIndex) {
          LogInChain(c, k, 1);
          NonceStaysSpent(c, k, payer, payee, nonce, q.logIndex);
          RaceOnTruth(c, token, chainId, payer, payee, l, o.inbound + o.outbound);
        }
      }
    }
  }

  /** The verdict on a status-1 receipt, by its parts. */
  lemma VerdictParts(rail: Rail, q: Request, o: Observation)
    requires Preflight(rail, q, o).Ok? ==> Preflight(rail, q, o).value.status == 1
    ensures Verdict(rail, q, o).Ok?
       <==> && Preflight(rail, q, o).Ok?
            && ProveTransfer(q, o, Preflight(rail, q, o).value).Ok?
            && Rechecked(o, Preflight(rail, q, o).value)
    ensures Verdict(rail, q, o).Ok? ==>
              var proof := ProveTransfer(q, o, Preflight(rail, q, o).value).value;
              && Verdict(rail, q, o).value.settlement == Preflight(rail, q, o).value
              && Verdict(rail, q, o).value.logIndex == Some(proof.credit.identity.logIndex)
              && Verdict(rail, q, o).value.authorizationLogIndex == Some(proof.authorizationIndex)
              && Verdict(rail, q, o).value.eventValue == Some(proof.credit.value)
              && Verdict(rail, q, o).value.receivedAmount == o.payeeAfter - o.payeeParent
  {
    hide Preflight, ProveTransfer, Rechecked, DetectPayment;
  }

  lemma VerdictOnEvidence(rail: Rail, q: Request, c: C.Chain, k: nat, token: Address, payer: Address, payee: Address, nonce: T.Nonce,
                          top: nat, o: Observation)
    requires C.Valid(c) && ValidRail(rail) && k < |c.entries| && c.entries[k].block > 0 && c.entries[k].Succeeded()
    requires Asks(q, token, payer, payee, nonce, c.entries[k].hash)
    requires TruthFields(c, c.entries[k], top, o) && TruthEvidence(c, c.entries[k], token, rail.chainId, payer, payee, nonce, o)
    ensures Verdict(rail, q, o).Ok?
       <==> Acceptable(rail, q, o, c.entries[k].block, top) && Provable(c, k, payer, payee, nonce, q.logIndex, o)
    ensures Verdict(rail, q, o).Ok? ==>
              && Verdict(rail, q, o).value.settlement.status == 1
              && Verdict(rail, q, o).value.logIndex == Some(c.entries[k].firstLog + 1)
              && Verdict(rail, q, o).value.authorizationLogIndex == Some(c.entries[k].firstLog)
              && Verdict(rail, q, o).value.eventValue == Some(c.entries[k].call.auth.value)
              && Verdict(rail, q, o).value.receivedAmount == o.payeeAfter - o.payeeParent
  {
    hide Verdict, Preflight, ProveTransfer, Acceptable, Provable, Rechecked, DetectPayment, C.Valid, HexWord, Asks,
         TruthFields, TruthEvidence, InRange;
    var e := c.entries[k];
    PreflightOnTruth(rail, q, c, e, token, payer, payee, nonce, top, o);
    VerdictParts(rail, q, o);
    if Preflight(rail, q, o).Ok? {
      var s := Preflight(rail, q, o).value;
      ProofOnTruth(q, c, k, token, rail.chainId, payer, payee, nonce, o, s);
      RecheckedOnTruth(c, e, top, o, s);
    }
  }

  /** Soundness and completeness of the verdict on a successful transaction: an exact account of what is accepted. */
  lemma VerdictOnSuccess(rail: Rail, q: Request, c: C.Chain, k: nat, token: Address, payer: Address, payee: Address, nonce: T.Nonce, top: nat)
    requires C.Valid(c) && ValidRail(rail) && k < |c.entries| && c.entries[k].block > 0 && c.entries[k].Succeeded()
    requires Asks(q, token, payer, payee, nonce, c.entries[k].hash)
    ensures var e, o := c.entries[k], Truth(c, k, token, rail.chainId, payer, payee, nonce, top);
              && (Verdict(rail, q, o).Ok? <==>
                    && Acceptable(rail, q, o, e.block, top)
                    && Settled(c, k, payer, payee, nonce, q.logIndex)
                    && Alone(c, LogOf(c, e, 1), payer, payee)
                    && Attributable(e.call.auth.value, o))
              && (Verdict(rail, q, o).Ok? ==>
                    && Verdict(rail, q, o).value.settlement.status == 1
                    && Verdict(rail, q, o).value.logIndex == Some(e.firstLog + 1)
                    && Verdict(rail, q, o).value.authorizationLogIndex == Some(e.firstLog)
                    && Verdict(rail, q, o).value.eventValue == Some(e.call.auth.value)
                    && Verdict(rail, q, o).value.receivedAmount == o.payeeAfter - o.payeeParent)
  {
    hide Verdict, Acceptable, Settled, Alone, Attributable, Truth, TruthFields, TruthEvidence, Asks, C.Valid;
    var o := Truth(c, k, token, rail.chainId, payer, payee, nonce, top);
    TruthHasFields(c, k, token, rail.chainId, payer, payee, nonce, top);
    TruthHasEvidence(c, k, token, rail.chainId, payer, payee, nonce, top);
    VerdictOnEvidence(rail, q, c, k, token, payer, payee, nonce, top, o);
  }

  lemma RevertOnEvidence(rail: Rail, q: Request, c: C.Chain, k: nat, token: Address, payer: Address, payee: Address, nonce: T.Nonce,
                         top: nat, o: Observation)
    requires ValidRail(rail) && k < |c.entries| && c.entries[k].block > 0 && !c.entries[k].Succeeded()
    requires Asks(q, token, payer, payee, nonce, c.entries[k].hash)
    requires TruthFields(c, c.entries[k], top, o) && TruthEvidence(c, c.entries[k], token, rail.chainId, payer, payee, nonce, o)
    ensures Verdict(rail, q, o).Ok?
       <==> Acceptable(rail, q, o, c.entries[k].block, top) && (payer, nonce) !in StateAt(c, c.entries[k].block).used
    ensures Verdict(rail, q, o).Ok? ==>
              && Verdict(rail, q, o).value.settlement.status == 0
              && Verdict(rail, q, o).value.kind == (if q.believesPaid then PhantomCredit else ConsistentUnpaid)
  {
    hide Preflight, ProveTransfer, Acceptable, Rechecked, HexWord, Spells, TruthFields, InRange, EncodeReceipt, EncodeLogs, SelectLogs,
         StateAt;
    PreflightOnTruth(rail, q, c, c.entries[k], token, payer, payee, nonce, top, o);
    if Preflight(rail, q, o).Ok? {
      RecheckedOnTruth(c, c.entries[k], top, o, Preflight(rail, q, o).value);
    }
  }

  /** On a reverted transaction the oracle answers exactly when nobody else spent the nonce by then, and attributes nothing. */
  lemma VerdictOnRevert(rail: Rail, q: Request, c: C.Chain, k: nat, token: Address, payer: Address, payee: Address, nonce: T.Nonce, top: nat)
    requires ValidRail(rail) && k < |c.entries| && c.entries[k].block > 0 && !c.entries[k].Succeeded()
    requires Asks(q, token, payer, payee, nonce, c.entries[k].hash)
    ensures var e, o := c.entries[k], Truth(c, k, token, rail.chainId, payer, payee, nonce, top);
              && (Verdict(rail, q, o).Ok? <==>
                    Acceptable(rail, q, o, e.block, top) && (payer, nonce) !in StateAt(c, e.block).used)
              && (Verdict(rail, q, o).Ok? ==>
                    && Verdict(rail, q, o).value.settlement.status == 0
                    && Verdict(rail, q, o).value.kind == (if q.believesPaid then PhantomCredit else ConsistentUnpaid))
  {
    hide Verdict, Acceptable, Truth, TruthFields, TruthEvidence, Asks, StateAt;
    TruthHasFields(c, k, token, rail.chainId, payer, payee, nonce, top);
    TruthHasEvidence(c, k, token, rail.chainId, payer, payee, nonce, top);
    RevertOnEvidence(rail, q, c, k, token, payer, payee, nonce, top, Truth(c, k, token, rail.chainId, payer, payee, nonce, top));
  }
}
