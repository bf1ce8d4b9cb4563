/**
 The refinement on the truthful answers of a valid chain: its receipts are well formed and its queries
 truthful, so the confirmer confirms every settlement the strict oracle accepts.
 */
module ConfirmerAgreement {
  import opened Common
  import opened Numerals
  import opened Json
  import opened Evidence
  import opened Divergence
  import opened Rails
  import opened RailsOnChain
  import opened OracleRefinement
  import T = Token
  import C = Chain
  import ChainTruth
  import F = Confirmer

  lemma WordField(n: Uint256)
    ensures HexField(Str(HexWord(n)), 32)
  {
    HexWordShape(n);
  }

  lemma TopicFields(event: T.Event)
    ensures forall t :: t in Strings(EventTopics(event)) ==> HexField(t, 32)
  {
    hide HexWord, HexField;
    WordField(TRANSFER_HASH);
    WordField(TRANSFER_V2_HASH);
    WordField(AUTHORIZATION_USED_HASH);
    WordField(FEE_BPS_CHANGED_HASH);
    WordField(EVENT_MODE_CHANGED_HASH);
    match event
    case Transfer(from, to, _) => WordField(from); WordField(to);
    case TransferV2(from, to, _, _) => WordField(from); WordField(to);
    case AuthorizationUsed(authorizer, nonce) => WordField(authorizer); WordField(nonce);
    case FeeBpsChanged(_, _) =>
    case EventModeChanged(_, _) =>
  }

  lemma DigitsExtended(s: string, t: string)
    requires |s| >= 2 && AllDigits(s[2..], 16) && AllDigits(t, 16)
    ensures AllDigits((s + t)[2..], 16)
  {
    assert (s + t)[2..] == s[2..] + t;
  }

  lemma TwoWords(m: Uint256, n: Uint256)
    ensures var data := HexWord(m) + Padded(n, 16, 64); |data| >= 2 && AllDigits(data[2..], 16)
  {
    hide HexWord, Padded, AllDigits, Value, Lower;
    HexWordShape(m);
    PaddedShape(n, 16, 64);
    DigitsExtended(HexWord(m), Padded(n, 16, 64));
  }

  lemma DataDigits(event: T.Event)
    ensures |EventData(event)| >= 2 && AllDigits(EventData(event)[2..], 16)
  {
    hide HexWord, Padded;
    match event
    case Transfer(_, _, value) => HexWordShape(value);
    case TransferV2(_, _, value, ref) => TwoWords(value, ref);
    case AuthorizationUsed(_, _) => assert "0x"[2..] == "";
    case FeeBpsChanged(p, n) => TwoWords(p, n);
    case EventModeChanged(p, n) => TwoWords(p, n);
  }

  lemma LogIsWellFormed(token: Address, e: C.Entry, blockHash: Hash, i: nat)
    requires i < |e.Events()|
    ensures WellFormedLog(EncodeLog(token, C.LogEntry(e.hash, e.block, blockHash, e.firstLog + i, e.Events()[i])),
                          EncodeReceipt(token, e, blockHash))
  {
    hide HexWord, HexAddress, HexQuantity, Quantity, ExactHash, EventTopics, EventData, Strings, EncodeLogs, AllDigits;
    HexAddressShape(token);
    TopicFields(e.Events()[i]);
    DataDigits(e.Events()[i]);
    StrictQuantity(e.firstLog + i);
    StrictQuantity(e.block);
    StrictHash(e.hash);
  }

  lemma ReceiptLogIs(token: Address, e: C.Entry, blockHash: Hash, log: Option<RawLog>) returns (i: nat)
    requires EncodeReceipt(token, e, blockHash).logs.Some? && log in EncodeReceipt(token, e, blockHash).logs.value
    ensures i < |e.Events()|
    ensures log == Some(EncodeLog(token, C.LogEntry(e.hash, e.block, blockHash, e.firstLog + i, e.Events()[i])))
  {
    hide EncodeLog, EncodeReceipt;
    F.ReceiptLogCount(token, e, blockHash);
    i :| 0 <= i < |EncodeReceipt(token, e, blockHash).logs.value| && EncodeReceipt(token, e, blockHash).logs.value[i] == log;
    F.ReceiptLog(token, e, blockHash, i);
  }

  /** Every truthful receipt is well formed. */
  lemma TruthIsWellFormed(token: Address, e: C.Entry, blockHash: Hash)
    ensures WellFormedReceipt(EncodeReceipt(token, e, blockHash))
  {
    hide EncodeLog, EncodeReceipt, WellFormedLog;
    F.ReceiptLogCount(token, e, blockHash);
    forall l | l in EncodeReceipt(token, e, blockHash).logs.value ensures l.Some? && WellFormedLog(l.value, EncodeReceipt(token, e, blockHash)) {
      var i := ReceiptLogIs(token, e, blockHash, l);
      LogIsWellFormed(token, e, blockHash, i);
    }
  }

  /** On an honest log, the payee filter asks exactly for a Transfer into the payee. */
  lemma IntoPayeeOnTruth(token: Address, l: C.LogEntry, q: Request, payer: Address, payee: Address, nonce: T.Nonce)
    requires Asks(q, token, payer, payee, nonce, l.tx) && IntoPayee(EncodeLog(token, l), q.token, q.payee)
    ensures l.event.Transfer? && l.event.to == payee
    ensures F.SameHex(F.Topics(EncodeLog(token, l))[1], F.TopicText(q.payer)) ==> l.event.from == payer
  {
    hide HexWord, HexAddress, F.TopicText, Spells, Lower, IsHexText, EncodeLog, F.Topics, PaddedTopic;
    SpelledAddress(q.payer, payer);
    SpelledAddress(q.payee, payee);
    SpelledText(q.payer, payer);
    SpelledText(q.payee, payee);
    F.SignatureTopic(token, l.event, l.block, l.blockHash, l.tx, l.index);
    if l.event.Transfer? {
      F.TransferTopics(token, l);
      F.SameWord(l.event.to, payee);
      F.SameWord(l.event.from, payer);
    }
  }

  lemma SpelledText(text: string, a: Address)
    requires Spells(text, 20, a)
    ensures F.TopicText(text) == PaddedTopic(text)
  {
    PaddedIsTopicText(text);
  }

  /** The confirmer's log query over a range of blocks. */
  function FetchedBetween(c: C.Chain, token: Address, payer: Address, payee: Address, low: nat, high: nat): seq<RawLog> {
    EncodeLogs(token, SelectLogs(C.AllLogs(c), F.TransferFilter(payer, payee), low, high))
  }

  lemma Selected(c: C.Chain, token: Address, filter: seq<Option<string>>, low: nat, high: nat, l: C.LogEntry)
    requires l in C.AllLogs(c) && low <= l.block <= high && TopicsMatch(filter, EventTopics(l.event))
    ensures EncodeLog(token, l) in EncodeLogs(token, SelectLogs(C.AllLogs(c), filter, low, high))
  {
    hide EncodeLog, TopicsMatch, EventTopics, C.AllLogs;
    ChainTruth.EncodedIn(token, SelectLogs(C.AllLogs(c), filter, low, high), l);
  }

  lemma TransferIsSelected(c: C.Chain, token: Address, payer: Address, payee: Address, low: nat, high: nat, l: C.LogEntry)
    requires l in C.AllLogs(c) && low <= l.block <= high && l.event.Transfer? && l.event.to == payee
    ensures EncodeLog(token, l) in EncodeLogs(token, SelectLogs(C.AllLogs(c), InboundFilter(payee), l.block, l.block))
    ensures l.event.from == payer ==> EncodeLog(token, l) in FetchedBetween(c, token, payer, payee, low, high)
  {
    hide EncodeLog, TopicsMatch, EventTopics, C.AllLogs, SelectLogs, EncodeLogs;
    FilterMeans(payer, payee, l.event);
    Selected(c, token, InboundFilter(payee), l.block, l.block, l);
    if l.event.from == payer {
      F.FilterAdmitsSettlement(payer, payee, l.event.value);
      Selected(c, token, F.TransferFilter(payer, payee), low, high, l);
    }
  }

  lemma LogIsTruthful(c: C.Chain, k: nat, token: Address, q: Request, payer: Address, payee: Address, nonce: T.Nonce, low: nat, high: nat,
                      raw: RawLog)
    requires C.Valid(c) && k < |c.entries| && low <= c.entries[k].block <= high && Asks(q, token, payer, payee, nonce, c.entries[k].hash)
    requires var receipt := EncodeReceipt(token, c.entries[k], C.BlockHash(c.heads, c.entries[k].block));
             receipt.logs.Some? && Some(raw) in receipt.logs.value
    requires IntoPayee(raw, q.token, q.payee)
    ensures raw in EncodeLogs(token, SelectLogs(C.AllLogs(c), InboundFilter(payee), c.entries[k].block, c.entries[k].block))
    ensures F.SameHex(F.Topics(raw)[1], F.TopicText(q.payer)) ==> raw in FetchedBetween(c, token, payer, payee, low, high)
  {
    hide EncodeLog, EncodeReceipt, EncodeLogs, SelectLogs, C.AllLogs, C.Valid, IntoPayee, Asks, F.SameHex, F.TopicText, F.Topics,
         FetchedBetween, C.BlockHash;
    var e := c.entries[k];
    var i := ReceiptLogIs(token, e, C.BlockHash(c.heads, e.block), Some(raw));
    LogInChain(c, k, i);
    IntoPayeeOnTruth(token, LogOf(c, e, i), q, payer, payee, nonce);
    TransferIsSelected(c, token, payer, payee, low, high, LogOf(c, e, i));
  }

  /** The queries over a valid chain are truthful about each of its receipts. */
  lemma TruthIsTruthful(c: C.Chain, k: nat, token: Address, q: Request, payer: Address, payee: Address, nonce: T.Nonce, low: nat, high: nat)
    requires C.Valid(c) && k < |c.entries| && low <= c.entries[k].block <= high && Asks(q, token, payer, payee, nonce, c.entries[k].hash)
    ensures var e := c.entries[k];
              var receipt := EncodeReceipt(token, e, C.BlockHash(c.heads, e.block));
              && receipt.logs.Some?
              && TruthfulQueries(receipt, q, EncodeLogs(token, SelectLogs(C.AllLogs(c), InboundFilter(payee), e.block, e.block)),
                                 FetchedBetween(c, token, payer, payee, low, high))
  {
    var e := c.entries[k];
    F.ReceiptLogCount(token, e, C.BlockHash(c.heads, e.block));
    hide EncodeReceipt, EncodeLogs, SelectLogs, C.AllLogs, C.Valid, Asks, F.TopicText, FetchedBetween, C.BlockHash, Lower;
    var receipt := EncodeReceipt(token, e, C.BlockHash(c.heads, e.block));
    forall raw | Some(raw) in receipt.logs.value && IntoPayee(raw, q.token, q.payee)
      ensures raw in EncodeLogs(token, SelectLogs(C.AllLogs(c), InboundFilter(payee), e.block, e.block))
      ensures F.SameHex(F.Topics(raw)[1], F.TopicText(q.payer)) ==> raw in FetchedBetween(c, token, payer, payee, low, high)
    {
      LogIsTruthful(c, k, token, q, payer, payee, nonce, low, high, raw);
    }
  }

  /** On any valid chain, whatever the oracle accepts as settled, the confirmer confirms at the same log. */
  lemma ConfirmerConfirmsAccepted(rail: Rail, q: Request, c: C.Chain, k: nat, token: Address, payer: Address, payee: Address,
                                  nonce: T.Nonce, top: nat, fromBlock: int, low: nat, high: nat)
    requires C.Valid(c) && ValidRail(rail) && k < |c.entries| && c.entries[k].block > 0 && c.entries[k].Succeeded()
    requires Asks(q, token, payer, payee, nonce, c.entries[k].hash)
    requires Verdict(rail, q, Truth(c, k, token, rail.chainId, payer, payee, nonce, top)).Ok?
    requires fromBlock <= c.entries[k].block && low <= c.entries[k].block <= high
    ensures var o := Truth(c, k, token, rail.chainId, payer, payee, nonce, top);
              && Settled(c, k, payer, payee, nonce, q.logIndex)
              && F.Decision(OrderOf(q, c.entries[k].call.auth.value, fromBlock), Some(o.receipt), FetchedBetween(c, token, payer, payee, low, high))
              == Some(q.logIndex)
  {
    hide Verdict, Acceptable, Settled, Alone, Attributable, Truth, Asks, C.Valid, WellFormedReceipt, TruthfulQueries, EncodeReceipt,
         EncodeLogs, SelectLogs, OrderOf, F.Decision, C.AllLogs, F.SameHex, FetchedBetween, StateAt;
    var e, o := c.entries[k], Truth(c, k, token, rail.chainId, payer, payee, nonce, top);
    var fetched := FetchedBetween(c, token, payer, payee, low, high);
    VerdictOnSuccess(rail, q, c, k, token, payer, payee, nonce, top);
    VerdictBlock(rail, q, c, k, token, payer, payee, nonce, top);
    ReceiptOfTruth(c, k, token, rail.chainId, payer, payee, nonce, top, q);
    TruthHasEvidence(c, k, token, rail.chainId, payer, payee, nonce, top);
    TruthIsWellFormed(token, e, C.BlockHash(c.heads, e.block));
    TruthIsTruthful(c, k, token, q, payer, payee, nonce, low, high);
    OracleImpliesConfirmer(rail, q, o, fromBlock, fetched);
  }

  lemma VerdictBlock(rail: Rail, q: Request, c: C.Chain, k: nat, token: Address, payer: Address, payee: Address, nonce: T.Nonce, top: nat)
    requires k < |c.entries| && c.entries[k].block > 0 && Asks(q, token, payer, payee, nonce, c.entries[k].hash)
    requires Verdict(rail, q, Truth(c, k, token, rail.chainId, payer, payee, nonce, top)).Ok?
    ensures Verdict(rail, q, Truth(c, k, token, rail.chainId, payer, payee, nonce, top)).value.settlement.number == c.entries[k].block
  {
    hide Preflight, ProveTransfer, Acceptable, Rechecked, Truth, TruthFields, Asks, DetectPayment;
    var o := Truth(c, k, token, rail.chainId, payer, payee, nonce, top);
    TruthHasFields(c, k, token, rail.chainId, payer, payee, nonce, top);
    PreflightOnTruth(rail, q, c, c.entries[k], token, payer, payee, nonce, top, o);
  }

  lemma ReceiptOfTruth(c: C.Chain, k: nat, token: Address, chainId: int, payer: Address, payee: Address, nonce: T.Nonce, top: nat, q: Request)
    requires k < |c.entries| && c.entries[k].block > 0 && Asks(q, token, payer, payee, nonce, c.entries[k].hash)
    ensures var o := Truth(c, k, token, chainId, payer, payee, nonce, top);
              && o.receipt == EncodeReceipt(token, c.entries[k], C.BlockHash(c.heads, c.entries[k].block))
              && F.SameHex(o.receipt.to, q.token)
  {
    hide EncodeLogs, SelectLogs, StateAt, C.AllLogs, T.Balance, HexWord, HexAddress, HexQuantity, Lower;
    SpelledAddress(q.token, token);
    HexAddressShape(token);
  }
}
