/**
 The strict oracle refines the brittle confirmer: whatever well-formed receipt the oracle proves a
 settlement from, the confirmer confirms the same log of it.
 */
module OracleRefinement {
  import opened Common
  import opened Numerals
  import opened PythonText
  import opened Json
  import opened Evidence
  import opened Rails
  import F = Confirmer
  import R = Reconciliation

  // ---------------------------------------------------------------- well-formed receipts and truthful queries

  predicate HexField(value: Json, size: nat) { value.Str? && IsHexText(value.s, size) }

  /** A log as a conforming node returns it: exact hex, canonical quantities, and its receipt's own coordinates. */
  ghost predicate WellFormedLog(log: RawLog, receipt: RawReceipt) {
    && HexField(log.address, 20)
    && log.topics.Arr? && (forall t :: t in log.topics.items ==> HexField(t, 32))
    && log.data.Str? && |log.data.s| >= 2 && AllDigits(log.data.s[2..], 16)
    && log.removed.Bool? && Quantity(log.logIndex).Some?
    && Quantity(log.blockNumber).Some? && Quantity(log.blockNumber) == Quantity(receipt.blockNumber)
    && ExactHash(log.transactionHash).Some? && ExactHash(log.transactionHash) == ExactHash(receipt.transactionHash)
  }

  ghost predicate WellFormedReceipt(receipt: RawReceipt) {
    receipt.logs.Some? && forall l :: l in receipt.logs.value ==> l.Some? && WellFormedLog(l.value, receipt)
  }

  /** A Transfer of the token into the payee, as a topic filter sees it. */
  predicate IntoPayee(log: RawLog, token: string, payee: string) {
    && F.SameHex(log.address, token) && |F.Topics(log)| == 3
    && F.SameHex(F.Topics(log)[0], TOPIC_TRANSFER) && F.SameHex(F.Topics(log)[2], F.TopicText(payee))
  }

  /** The log queries answer truthfully about this receipt: a matching log of it is in the answer. */
  ghost predicate TruthfulQueries(receipt: RawReceipt, q: Request, inbound: seq<RawLog>, fetched: seq<RawLog>)
    requires receipt.logs.Some?
  {
    forall l :: Some(l) in receipt.logs.value && IntoPayee(l, q.token, q.payee) ==>
      && l in inbound
      && (F.SameHex(F.Topics(l)[1], F.TopicText(q.payer)) ==> l in fetched)
  }

  /** The order the confirmer is asked about, for the same payment. */
  function OrderOf(q: Request, value: int, fromBlock: int): F.Order {
    F.Order(q.token, TOPIC_TRANSFER, q.payer, q.payee, value, q.nonce, q.txHash, fromBlock)
  }

  // ---------------------------------------------------------------- strict readings agree with lenient ones

  lemma StrictIsLenient(value: Json)
    requires Quantity(value).Some?
    ensures F.Quantity(value) == Some(Quantity(value).value)
  {
    assert value.s == "0x" + value.s[2..];
    IntOfPlainHex(value.s[2..]);
  }

  lemma StrictIsReconciled(value: Json)
    requires Quantity(value).Some? && R.Quantity(value).Some?
    ensures R.Quantity(value) == Quantity(value)
  {
    R.IntOfBareHex(value.s[2..]);
  }

  /** The topic of an exactly decoded address, read the confirmer's way. */
  lemma TopicOfDecoded(topic: Json, address: string)
    requires IsHexText(address, 20) && R.AddressOfTopic(topic) == Some(Lower(address))
    ensures F.SameHex(topic, F.TopicText(address))
  {
    var exact := Lower(topic.s);
    var text := F.TopicText(address);
    assert Lower(address)[0] == '0' && Lower(address)[1] == 'x';
    assert StartsWith(Lower(address), "0x");
    assert text == "0x" + seq(24, _ => '0') + Lower(address)[2..];
    assert exact[0] == '0' && exact[1] == 'x';
    assert Lower("0x" + exact[26..]) == Lower(address);
    assert forall i :: 2 <= i < 26 ==> exact[i] == exact[2..26][i - 2] == '0';
    forall i | 0 <= i < |text| ensures Lower(text)[i] == exact[i] {
      if i >= 26 {
        assert text[i] == Lower(address)[i - 24] == Lower("0x" + exact[26..])[i - 24];
      }
    }
    assert Lower(text) == exact;
  }

  lemma PaddedIsTopicText(address: string)
    requires IsHexText(address, 20)
    ensures PaddedTopic(address) == F.TopicText(address)
  {
    assert Lower(address)[0] == '0' && Lower(address)[1] == 'x';
    assert StartsWith(Lower(address), "0x");
  }

  lemma NonceTopic(nonce: string)
    requires IsHexText(nonce, 32)
    ensures F.TopicText(nonce) == Lower(nonce)
  {
    assert Lower(nonce)[0] == '0' && Lower(nonce)[1] == 'x';
    assert StartsWith(Lower(nonce), "0x");
  }

  /** Data that decoded to a value reads as the same value. */
  lemma DataReading(data: Json, value: nat)
    requires data.Str? && |data.s| >= 2 && AllDigits(data.s[2..], 16)
    requires R.ExactHex(data, 32).Some? && IntOfHex(R.ExactHex(data, 32).value) == Some(value)
    ensures F.Quantity(data) == Some(value)
  {
    var digits := data.s[2..];
    assert data.s == "0x" + digits;
    IntOfPlainHex(digits);
    assert Lower(data.s) == "0x" + Lower(digits) by {
      LowerConcat("0x", digits);
      assert Lower("0x") == "0x";
    }
    ValueLower(digits);
    IntOfPlainHex(Lower(digits));
  }

  // ---------------------------------------------------------------- the two events, read the confirmer's way

  /** What decoding establishes of a log. */
  lemma DecodedTopics(log: RawLog, chainId: int, q: Request)
    requires R.DecodeTransferLog(log, chainId).Some? && IsHexText(q.payer, 20) && IsHexText(q.payee, 20)
    requires R.DecodeTransferLog(log, chainId).value.payer == Lower(q.payer)
    requires R.DecodeTransferLog(log, chainId).value.payee == Lower(q.payee)
    ensures |F.Topics(log)| == 3 && F.SameHex(F.Topics(log)[0], TOPIC_TRANSFER)
    ensures F.SameHex(F.Topics(log)[1], F.TopicText(q.payer)) && F.SameHex(F.Topics(log)[2], F.TopicText(q.payee))
  {
    hide F.TopicText, IsHexText, HexWord;
    HexWordShape(TRANSFER_HASH);
    TopicOfDecoded(log.topics.items[1], q.payer);
    TopicOfDecoded(log.topics.items[2], q.payee);
  }

  lemma DecodeParts(log: RawLog, chainId: int)
    requires R.DecodeTransferLog(log, chainId).Some?
    ensures var credit := R.DecodeTransferLog(log, chainId).value;
              && R.ExactHex(log.address, 20) == Some(credit.identity.asset)
              && R.ExactHex(log.transactionHash, 32) == Some(credit.identity.txHash)
              && R.Quantity(log.logIndex) == Some(credit.identity.logIndex)
              && R.Quantity(log.blockNumber) == Some(credit.blockNumber)
              && R.ExactHex(log.data, 32).Some? && IntOfHex(R.ExactHex(log.data, 32).value) == Some(credit.value)
              && log.removed == Bool(credit.removed)
  {
    hide R.ExactHex, R.Quantity, R.AddressOfTopic, IntOfHex, HexWord;
  }

  lemma DecodedFields(log: RawLog, chainId: int, receipt: RawReceipt)
    requires R.DecodeTransferLog(log, chainId).Some? && WellFormedLog(log, receipt)
    ensures var credit := R.DecodeTransferLog(log, chainId).value;
              && log.address.Str? && Lower(log.address.s) == credit.identity.asset
              && log.transactionHash.Str? && Lower(log.transactionHash.s) == credit.identity.txHash
              && Quantity(log.logIndex) == Some(credit.identity.logIndex)
              && Quantity(log.blockNumber) == Some(credit.blockNumber)
              && F.Quantity(log.data) == Some(credit.value)
              && log.removed == Bool(credit.removed)
  {
    DecodeParts(log, chainId);
    hide R.DecodeTransferLog, IsHexText, R.Quantity, Quantity, IntOfHex, F.Quantity;
    assert Quantity(log.blockNumber).Some?;
    StrictIsReconciled(log.logIndex);
    StrictIsReconciled(log.blockNumber);
    DataReading(log.data, R.DecodeTransferLog(log, chainId).value.value);
  }

  /** The oracle's selected Transfer passes the confirmer's transfer test. */
  lemma SelectedPasses(log: RawLog, receipt: RawReceipt, chainId: int, q: Request, s: Settlement, fromBlock: int, fetched: seq<RawLog>)
    requires R.DecodeTransferLog(log, chainId).Some? && WellFormedLog(log, receipt)
    requires IsRequested(R.DecodeTransferLog(log, chainId).value, q, s)
    requires R.DecodeTransferLog(log, chainId).value.identity.asset == Lower(q.token)
    requires IsHexText(q.payer, 20) && IsHexText(q.payee, 20)
    requires log in fetched
    ensures F.IsTransfer(log, OrderOf(q, R.DecodeTransferLog(log, chainId).value.value, fromBlock), s.number, fetched)
  {
    hide R.DecodeTransferLog, F.TopicText, IsHexText, F.Quantity, Quantity, Lower, WellFormedLog;
    DecodedTopics(log, chainId, q);
    DecodedFields(log, chainId, receipt);
    WellFormedIndices(log, receipt);
    assert F.SameHex(log.transactionHash, log.transactionHash.s) && F.Quantity(log.logIndex) == F.Quantity(log.logIndex);
  }

  lemma WellFormedIndices(log: RawLog, receipt: RawReceipt)
    requires WellFormedLog(log, receipt)
    ensures Quantity(log.logIndex).Some? && F.Quantity(log.logIndex) == Some(Quantity(log.logIndex).value)
    ensures Quantity(log.blockNumber).Some? ==> F.Quantity(log.blockNumber) == Some(Quantity(log.blockNumber).value)
  {
    StrictIsLenient(log.logIndex);
    if Quantity(log.blockNumber).Some? {
      StrictIsLenient(log.blockNumber);
    }
  }

  /** The oracle's authorization log passes the confirmer's authorization test. */
  lemma AuthorizationPasses(log: RawLog, receipt: RawReceipt, q: Request, value: int, block: nat, fromBlock: int)
    requires WellFormedLog(log, receipt) && IsAuthorization(log, q.token, q.payer, q.nonce) && log.removed == Bool(false)
    requires IsHexText(q.payer, 20) && IsHexText(q.nonce, 32)
    requires Quantity(receipt.blockNumber) == Some(block) && ExactHash(receipt.transactionHash) == Some(Lower(q.txHash))
    ensures F.IsAuthorization(log, OrderOf(q, value, fromBlock), block)
  {
    hide IsHexText, HexWord, F.Quantity, Quantity;
    PaddedIsTopicText(q.payer);
    NonceTopic(q.nonce);
    WellFormedIndices(log, receipt);
    var topics := F.Topics(log);
    assert topics[0] == Str(TOPIC_AUTHORIZATION_USED) && topics[1] == Str(PaddedTopic(q.payer)) && topics[2] == Str(Lower(q.nonce));
  }

  /** Under a passed race check, any log the confirmer would take for the transfer sits at the selected index. */
  lemma OnlyOneTransfer(log: RawLog, receipt: RawReceipt, q: Request, credit: R.OnChainCredit, o: Observation, value: int, block: nat,
                        fromBlock: int, fetched: seq<RawLog>)
    requires receipt.logs.Some? && Some(log) in receipt.logs.value && WellFormedLog(log, receipt)
    requires F.IsTransfer(log, OrderOf(q, value, fromBlock), block, fetched)
    requires TruthfulQueries(receipt, q, o.inbound, fetched) && RaceFree(o.inbound + o.outbound, o.chainId, credit)
    ensures F.Quantity(log.logIndex) == Some(credit.identity.logIndex)
  {
    hide R.DecodeTransferLog, WellFormedLog, F.Quantity, F.SameHex, F.TopicText, Quantity, F.MatchesFetched;
    assert IntoPayee(log, q.token, q.payee);
    assert log in o.inbound + o.outbound;
    DecodedFields(log, o.chainId, receipt);
    WellFormedIndices(log, receipt);
  }

  lemma TestsExclude(log: RawLog, q: Request, value: int, block: nat, fromBlock: int, fetched: seq<RawLog>)
    ensures !(F.IsTransfer(log, OrderOf(q, value, fromBlock), block, fetched) && F.IsAuthorization(log, OrderOf(q, value, fromBlock), block))
  {
    HexWordShape(TRANSFER_HASH);
    HexWordShape(AUTHORIZATION_USED_HASH);
    TopicsDiffer();
    hide HexWord, F.TopicText, F.Quantity, F.MatchesFetched;
  }

  // ---------------------------------------------------------------- the refinement

  lemma {:induction false} LastIndexFound(logs: seq<Option<RawLog>>, test: RawLog -> bool, k: nat)
    requires k < |logs| && logs[k].Some? && test(logs[k].value)
    requires forall l :: l in logs ==> l.Some? && F.Quantity(l.value.logIndex).Some?
    ensures F.LastIndex(logs, test).Some?
  {
    assert logs[|logs| - 1] in logs;
    if k < |logs| - 1 {
      LastIndexFound(logs[..|logs| - 1], test, k);
    }
  }

  lemma ReceiptAccepted(q: Request, o: Observation, s: Settlement, value: int, fromBlock: int)
    requires Quantity(o.receipt.status) == Some(1) && ExactHash(o.receipt.transactionHash) == Some(Lower(q.txHash))
    requires Quantity(o.receipt.blockNumber) == Some(s.number) && fromBlock <= s.number
    requires F.SameHex(o.receipt.to, q.token)
    ensures F.ReceiptBlock(Some(o.receipt), OrderOf(q, value, fromBlock)) == Some(s.number)
  {
    StrictIsLenient(o.receipt.status);
    StrictIsLenient(o.receipt.blockNumber);
    hide F.Quantity, Quantity, IsHexText;
  }

  /** The log the oracle selected, and where it is. */
  lemma SelectedLog(logs: seq<Option<RawLog>>, chainId: int, logIndex: int, token: string) returns (i: nat)
    requires SelectedCredit(logs, chainId, logIndex, token).Some?
    ensures i < |logs| && logs[i].Some? && Quantity(logs[i].value.logIndex) == Some(logIndex)
    ensures R.DecodeTransferLog(logs[i].value, chainId) == SelectedCredit(logs, chainId, logIndex, token)
    ensures SelectedCredit(logs, chainId, logIndex, token).value.identity.asset == Lower(token)
    ensures forall j :: 0 <= j < |logs| && logs[j].Some? && Quantity(logs[j].value.logIndex) == Some(logIndex) ==> j == i
  {
    hide Quantity, R.DecodeTransferLog;
    var test := (l: RawLog) => Quantity(l.logIndex) == Some(logIndex);
    var found := Matching(logs, test);
    i := MatchingOrigin(logs, test, found[0]);
    forall j | 0 <= j < |logs| && logs[j].Some? && Quantity(logs[j].value.logIndex) == Some(logIndex) ensures j == i {
      MatchingOne(logs, test, i, j);
    }
  }

  lemma AuthorizationLog(logs: seq<Option<RawLog>>, q: Request) returns (i: nat)
    requires AuthorizationIndex(logs, q.token, q.payer, q.nonce).Some?
    ensures i < |logs| && logs[i].Some? && IsAuthorization(logs[i].value, q.token, q.payer, q.nonce)
    ensures logs[i].value.removed == Bool(false)
  {
    hide Quantity, IsAuthorization;
    var test := (l: RawLog) => IsAuthorization(l, q.token, q.payer, q.nonce);
    i := MatchingOrigin(logs, test, Matching(logs, test)[0]);
  }

  /** What a passed status-1 branch leaves the confirmer to find. */
  lemma ConfirmerFinds(q: Request, o: Observation, s: Settlement, fromBlock: int, fetched: seq<RawLog>, order: F.Order, block: int)
    requires ProveTransfer(q, o, s).Ok? && WellFormedReceipt(o.receipt) && TruthfulQueries(o.receipt, q, o.inbound, fetched)
    requires IsHexText(q.payer, 20) && IsHexText(q.payee, 20) && IsHexText(q.nonce, 32)
    requires Quantity(o.receipt.blockNumber) == Some(s.number) && ExactHash(o.receipt.transactionHash) == Some(Lower(q.txHash))
    requires order == OrderOf(q, ProveTransfer(q, o, s).value.credit.value, fromBlock) && block == s.number
    ensures F.LastIndex(o.receipt.logs.value, (l: RawLog) => F.IsTransfer(l, order, block, fetched)) == Some(q.logIndex)
    ensures F.LastIndex(o.receipt.logs.value, (l: RawLog) => F.IsAuthorization(l, order, block)).Some?
    ensures F.LastIndex(o.receipt.logs.value, (l: RawLog) => F.IsAuthorization(l, order, block)) != Some(q.logIndex)
  {
    hide R.DecodeTransferLog, WellFormedLog, Quantity, F.Quantity, IsHexText, F.IsTransfer, F.IsAuthorization, IsAuthorization,
         RaceFree, IsRequested, Attributable, SelectedCredit, AuthorizationIndex, ExactHash, TruthfulQueries, OrderOf;
    var logs := o.receipt.logs.value;
    var credit := ProveTransfer(q, o, s).value.credit;
    var i := SelectedLog(logs, o.chainId, q.logIndex, q.token);
    var k := AuthorizationLog(logs, q);
    assert logs[i] in logs && logs[k] in logs;
    SelectedIsTruthful(logs[i].value, q, o, s, fetched);
    SelectedPasses(logs[i].value, o.receipt, o.chainId, q, s, fromBlock, fetched);
    AuthorizationPasses(logs[k].value, o.receipt, q, credit.value, s.number, fromBlock);
    forall l | l in logs ensures l.Some? && Quantity(l.value.logIndex).Some? && F.Quantity(l.value.logIndex) == Some(Quantity(l.value.logIndex).value) {
      WellFormedIndices(l.value, o.receipt);
    }
    var transfer, authorization := (l: RawLog) => F.IsTransfer(l, order, block, fetched), (l: RawLog) => F.IsAuthorization(l, order, block);
    SelectedIndex(logs[i].value, o.receipt, o.chainId, credit);
    forall j | 0 <= j < |logs| && logs[j].Some? && transfer(logs[j].value) ensures F.Quantity(logs[j].value.logIndex) == Some(q.logIndex) {
      assert logs[j] in logs;
      OnlyOneTransfer(logs[j].value, o.receipt, q, credit, o, credit.value, s.number, fromBlock, fetched);
    }
    F.LastIndexOf(logs, transfer, i, q.logIndex);
    LastIndexFound(logs, authorization, k);
    var m := F.LastIndexWitness(logs, authorization);
    assert logs[m] in logs;
    TestsExclude(logs[i].value, q, credit.value, s.number, fromBlock, fetched);
  }

  lemma SelectedIndex(log: RawLog, receipt: RawReceipt, chainId: int, credit: R.OnChainCredit)
    requires WellFormedLog(log, receipt) && R.DecodeTransferLog(log, chainId) == Some(credit)
    ensures Quantity(log.logIndex) == Some(credit.identity.logIndex)
  {
    hide R.DecodeTransferLog, WellFormedLog, Quantity, F.Quantity;
    DecodedFields(log, chainId, receipt);
  }

  lemma SelectedIsTruthful(log: RawLog, q: Request, o: Observation, s: Settlement, fetched: seq<RawLog>)
    requires o.receipt.logs.Some? && Some(log) in o.receipt.logs.value && WellFormedLog(log, o.receipt)
    requires R.DecodeTransferLog(log, o.chainId).Some? && IsRequested(R.DecodeTransferLog(log, o.chainId).value, q, s)
    requires R.DecodeTransferLog(log, o.chainId).value.identity.asset == Lower(q.token)
    requires IsHexText(q.payer, 20) && IsHexText(q.payee, 20) && TruthfulQueries(o.receipt, q, o.inbound, fetched)
    ensures log in fetched
  {
    DecodedTopics(log, o.chainId, q);
    DecodedFields(log, o.chainId, o.receipt);
    hide R.DecodeTransferLog, F.TopicText, IsHexText, F.Quantity, Quantity, Lower, WellFormedLog;
    assert IntoPayee(log, q.token, q.payee);
  }

  /**
   Whenever the oracle passes its success branch on a well-formed receipt sent to the token, the confirmer,
   asked about the proved value no later than the settlement block, returns exactly the same log index.
   */
  lemma OracleImpliesConfirmer(rail: Rail, q: Request, o: Observation, fromBlock: int, fetched: seq<RawLog>)
    requires Verdict(rail, q, o).Ok? && Verdict(rail, q, o).value.settlement.status == 1
    requires WellFormedReceipt(o.receipt) && TruthfulQueries(o.receipt, q, o.inbound, fetched)
    requires F.SameHex(o.receipt.to, q.token) && fromBlock <= Verdict(rail, q, o).value.settlement.number
    ensures var v := Verdict(rail, q, o).value;
              && v.eventValue.Some? && v.logIndex == Some(q.logIndex)
              && F.Decision(OrderOf(q, v.eventValue.value, fromBlock), Some(o.receipt), fetched) == v.logIndex
  {
    hide ProveTransfer, Rechecked, IsHexText, Quantity, ExactHash, BlockIdentity, WellFormedLog, TruthfulQueries, F.IsTransfer,
         F.IsAuthorization, F.ReceiptBlock, OrderOf, F.SameHex;
    var s := Preflight(rail, q, o).value;
    var credit := ProveTransfer(q, o, s).value.credit;
    var order := OrderOf(q, credit.value, fromBlock);
    ReceiptAccepted(q, o, s, credit.value, fromBlock);
    ConfirmerFinds(q, o, s, fromBlock, fetched, order, s.number);
    DecisionFrom(order, o.receipt, fetched, s.number, q.logIndex);
    CreditAtRequestedIndex(q, o, s);
  }

  lemma DecisionFrom(order: F.Order, receipt: RawReceipt, fetched: seq<RawLog>, block: int, index: int)
    requires F.ReceiptBlock(Some(receipt), order) == Some(block) && receipt.logs.Some?
    requires F.LastIndex(receipt.logs.value, (l: RawLog) => F.IsTransfer(l, order, block, fetched)) == Some(index)
    requires F.LastIndex(receipt.logs.value, (l: RawLog) => F.IsAuthorization(l, order, block)).Some?
    requires F.LastIndex(receipt.logs.value, (l: RawLog) => F.IsAuthorization(l, order, block)) != Some(index)
    ensures F.Decision(order, Some(receipt), fetched) == Some(index)
  {
    hide F.LastIndex, F.IsTransfer, F.IsAuthorization, F.ReceiptBlock;
  }

  lemma CreditAtRequestedIndex(q: Request, o: Observation, s: Settlement)
    requires ProveTransfer(q, o, s).Ok? && WellFormedReceipt(o.receipt)
    ensures ProveTransfer(q, o, s).value.credit.identity.logIndex == q.logIndex
  {
    hide R.DecodeTransferLog, WellFormedLog, Quantity, IsRequested, RaceFree, Attributable, SelectedCredit, AuthorizationIndex;
    var i := SelectedLog(o.receipt.logs.value, o.chainId, q.logIndex, q.token);
    assert o.receipt.logs.value[i] in o.receipt.logs.value;
    SelectedIndex(o.receipt.logs.value[i].value, o.receipt, o.chainId, ProveTransfer(q, o, s).value.credit);
  }
}
