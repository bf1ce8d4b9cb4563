/**
 Settlement confirmation by event-watching (src/psv/reference_sut/confirmer.py): the deliberately
 brittle decision, and what it decides on the truthful evidence of a chain.
 */
module Confirmer {
  import opened Common
  import opened Numerals
  import opened PythonText
  import opened Json
  import opened Evidence
  import T = Token
  import C = Chain

  // ---------------------------------------------------------------- lenient field readings

  predicate SameHex(left: Json, right: string) {
    left.Str? && Lower(left.s) == Lower(right)
  }

  /** A Python bool is an int, so true and false read as 1 and 0. */
  function Quantity(value: Json): Option<int> {
    match value
    case Int(n) => Some(n)
    case Bool(b) => Some(if b then 1 else 0)
    case Str(s) => IntOfHex(s)
    case _ => None
  }

  /** An address or nonce as a topic: lower case, prefix dropped, padded to 64 characters. */
  function TopicText(text: string): string {
    var lower := Lower(text);
    var digits := if StartsWith(lower, "0x") then lower[2..] else lower;
    "0x" + seq(if |digits| < 64 then 64 - |digits| else 0, _ => '0') + digits
  }

  function Topics(log: RawLog): seq<Json> {
    if log.topics.Arr? then log.topics.items else []
  }

  predicate MatchesFetched(log: RawLog, fetched: seq<RawLog>) {
    && log.transactionHash.Str? && Quantity(log.logIndex).Some?
    && exists f :: f in fetched && SameHex(f.transactionHash, log.transactionHash.s) && Quantity(f.logIndex) == Quantity(log.logIndex)
  }

  // ---------------------------------------------------------------- the two events a settlement must show

  datatype Order = Order(
    token: string, watchedTopic: string, payer: string, payee: string, expectedValue: int,
    nonce: string, submittedTx: string, fromBlock: int)

  /** A live log of the token in the submitted transaction, with a readable index. */
  predicate Relevant(log: RawLog, order: Order, block: int) {
    && log.removed != Bool(true)
    && SameHex(log.address, order.token)
    && SameHex(log.transactionHash, order.submittedTx)
    && Quantity(log.blockNumber) == Some(block)
    && Quantity(log.logIndex).Some?
  }

  predicate IsTransfer(log: RawLog, order: Order, block: int, fetched: seq<RawLog>) {
    && Relevant(log, order, block)
    && |Topics(log)| == 3
    && SameHex(Topics(log)[0], order.watchedTopic)
    && SameHex(Topics(log)[1], TopicText(order.payer))
    && SameHex(Topics(log)[2], TopicText(order.payee))
    && Quantity(log.data) == Some(order.expectedValue)
    && MatchesFetched(log, fetched)
  }

  predicate IsAuthorization(log: RawLog, order: Order, block: int) {
    && Relevant(log, order, block)
    && |Topics(log)| == 3
    && SameHex(Topics(log)[0], TOPIC_AUTHORIZATION_USED)
    && SameHex(Topics(log)[1], TopicText(order.payer))
    && SameHex(Topics(log)[2], TopicText(order.nonce))
  }

  /** The log index of the last log that satisfies a test. */
  function LastIndex(logs: seq<Option<RawLog>>, test: RawLog -> bool): Option<int> {
    if logs == [] then None
    else
      var last := logs[|logs| - 1];
      if last.Some? && test(last.value) then Quantity(last.value.logIndex) else LastIndex(logs[..|logs| - 1], test)
  }

  /** The block of a successful receipt of the submitted transaction, not older than the order. */
  function ReceiptBlock(receipt: Option<RawReceipt>, order: Order): Option<int> {
    if receipt.None? || Quantity(receipt.value.status) != Some(1) then None
    else if !SameHex(receipt.value.transactionHash, order.submittedTx) || !SameHex(receipt.value.to, order.token) then None
    else
      match Quantity(receipt.value.blockNumber)
      case Some(block) => if block < order.fromBlock then None else Some(block)
      case None => None
  }

  function Decision(order: Order, receipt: Option<RawReceipt>, fetched: seq<RawLog>): Option<int> {
    match ReceiptBlock(receipt, order)
    case None => None
    case Some(block) =>
      if receipt.value.logs.None? then None
      else
        var logs := receipt.value.logs.value;
        var transfer := LastIndex(logs, (l: RawLog) => IsTransfer(l, order, block, fetched));
        var authorization := LastIndex(logs, (l: RawLog) => IsAuthorization(l, order, block));
        if transfer.Some? && authorization.Some? && transfer != authorization then transfer else None
  }

  /** The scan over the receipt's logs. `fetched` is the answer of the one log query, made only when it is needed. */
  method SettlementLogIndex(order: Order, receipt: Option<RawReceipt>, fetched: seq<RawLog>) returns (r: Option<int>)
    ensures r == Decision(order, receipt, fetched)
  {
    hide IsTransfer, IsAuthorization;
    var block := ReceiptBlock(receipt, order);
    if block.None? || receipt.value.logs.None? {
      return None;
    }
    var logs := receipt.value.logs.value;
    var transferIndex: Option<int>, authorizationIndex: Option<int> := None, None;
    for i := 0 to |logs|
      invariant transferIndex == LastIndex(logs[..i], (l: RawLog) => IsTransfer(l, order, block.value, fetched))
      invariant authorizationIndex == LastIndex(logs[..i], (l: RawLog) => IsAuthorization(l, order, block.value))
    {
      assert logs[..i + 1][..i] == logs[..i];
      if logs[i].Some? {
        var log := logs[i].value;
        if IsTransfer(log, order, block.value, fetched) {
          transferIndex := Quantity(log.logIndex);
        }
        if IsAuthorization(log, order, block.value) {
          authorizationIndex := Quantity(log.logIndex);
        }
      }
    }
    assert logs[..|logs|] == logs;
    if transferIndex.Some? && authorizationIndex.Some? && transferIndex != authorizationIndex {
      return transferIndex;
    }
    return None;
  }

  lemma {:induction false} LastIndexWitness(logs: seq<Option<RawLog>>, test: RawLog -> bool) returns (k: nat)
    requires LastIndex(logs, test).Some?
    ensures k < |logs| && logs[k].Some? && test(logs[k].value)
    ensures LastIndex(logs, test) == Quantity(logs[k].value.logIndex)
  {
    var last := logs[|logs| - 1];
    if last.Some? && test(last.value) {
      k := |logs| - 1;
    } else {
      k := LastIndexWitness(logs[..|logs| - 1], test);
    }
  }

  /** If every log that passes the test carries index n, and some log passes, the last one's index is n. */
  lemma {:induction false} LastIndexOf(logs: seq<Option<RawLog>>, test: RawLog -> bool, k: nat, n: int)
    requires k < |logs| && logs[k].Some? && test(logs[k].value)
    requires forall i :: 0 <= i < |logs| && logs[i].Some? && test(logs[i].value) ==> Quantity(logs[i].value.logIndex) == Some(n)
    ensures LastIndex(logs, test) == Some(n)
  {
    if k < |logs| - 1 {
      LastIndexOf(logs[..|logs| - 1], test, k, n);
    }
  }

  /** A confirmation always rests on a matching Transfer and a matching AuthorizationUsed at different positions. */
  lemma DecisionMeansBothEvents(order: Order, receipt: Option<RawReceipt>, fetched: seq<RawLog>) returns (t: RawLog, a: RawLog)
    requires Decision(order, receipt, fetched).Some?
    ensures receipt.Some? && receipt.value.logs.Some? && ReceiptBlock(receipt, order).Some?
    ensures Some(t) in receipt.value.logs.value && Some(a) in receipt.value.logs.value
    ensures IsTransfer(t, order, ReceiptBlock(receipt, order).value, fetched)
    ensures IsAuthorization(a, order, ReceiptBlock(receipt, order).value)
    ensures Quantity(t.logIndex) == Decision(order, receipt, fetched) != Quantity(a.logIndex)
  {
    hide IsTransfer, IsAuthorization;
    var block := ReceiptBlock(receipt, order).value;
    var logs := receipt.value.logs.value;
    var k := LastIndexWitness(logs, (l: RawLog) => IsTransfer(l, order, block, fetched));
    var m := LastIndexWitness(logs, (l: RawLog) => IsAuthorization(l, order, block));
    t, a := logs[k].value, logs[m].value;
  }

  // ---------------------------------------------------------------- on truthful evidence

  /** The filter the confirmer's log query uses. */
  function TransferFilter(payer: Address, payee: Address): seq<Option<string>> {
    [Some(TOPIC_TRANSFER), Some(AddressTopic(payer)), Some(AddressTopic(payee))]
  }

  function TruthOrder(token: Address, merchant: Address, auth: T.Authorization, amount: nat, tx: Hash, fromBlock: nat): Order {
    Order(HexAddress(token), TOPIC_TRANSFER, HexAddress(auth.from), HexAddress(merchant), amount,
          HexWord(auth.nonce), HexWord(tx), fromBlock)
  }

  lemma TopicTextOfWord(n: Uint256)
    ensures TopicText(HexWord(n)) == HexWord(n)
  {
    hide HexWord, Value;
    HexWordShape(n);
    assert StartsWith(HexWord(n), "0x");
  }

  lemma TopicTextOfAddress(a: Address)
    ensures TopicText(HexAddress(a)) == AddressTopic(a)
  {
    HexAddressShape(a);
    AddressTopicShape(a);
    PaddedZero(16, 24);
    assert StartsWith(HexAddress(a), "0x");
    assert Padded(0, 16, 24) == seq(24, _ => '0');
  }

  lemma SameWord(m: Uint256, n: Uint256)
    ensures SameHex(Str(HexWord(m)), HexWord(n)) <==> m == n
  {
    HexWordShape(m);
    HexWordShape(n);
  }

  lemma SameAddress(a: Address, b: Address)
    ensures SameHex(Str(HexAddress(a)), HexAddress(b)) <==> a == b
  {
    HexAddressShape(a);
    HexAddressShape(b);
  }

  lemma QuantityOfText(n: nat)
    ensures Quantity(Str(HexQuantity(n))) == Some(n)
  {
    HexQuantityShape(n);
    assert HexQuantity(n) == "0x" + HexQuantity(n)[2..];
    IntOfPlainHex(HexQuantity(n)[2..]);
  }

  lemma QuantityOfWord(n: Uint256)
    ensures Quantity(Str(HexWord(n))) == Some(n)
  {
    hide HexWord, IntOfHex, Value;
    HexWordShape(n);
    assert HexWord(n) == "0x" + HexWord(n)[2..];
    IntOfPlainHex(HexWord(n)[2..]);
  }

  ghost predicate SettlesFor(event: T.Event, merchant: Address, auth: T.Authorization, amount: nat) {
    event.Transfer? && event.from == auth.from && event.to == merchant && event.value == amount
  }

  lemma RelevantOnTruth(token: Address, order: Order, l: C.LogEntry)
    requires order.token == HexAddress(token) && order.submittedTx == HexWord(l.tx)
    ensures Relevant(EncodeLog(token, l), order, l.block)
    ensures Quantity(EncodeLog(token, l).logIndex) == Some(l.index)
  {
    QuantityOfText(l.block);
    QuantityOfText(l.index);
    hide Quantity, HexQuantity, HexWord, HexAddress, Lower, EventTopics, EventData, Strings;
  }

  /** The signature topic of each event, compared the way the confirmer compares it. */
  lemma SignatureTopic(token: Address, event: T.Event, block: nat, blockHash: Hash, tx: Hash, index: nat)
    ensures var topics := Topics(EncodeLog(token, C.LogEntry(tx, block, blockHash, index, event)));
            && (|topics| == 3 && SameHex(topics[0], TOPIC_TRANSFER) <==> event.Transfer?)
            && (|topics| == 3 && SameHex(topics[0], TOPIC_AUTHORIZATION_USED) <==> event.AuthorizationUsed?)
  {
    SameWord(TRANSFER_HASH, TRANSFER_HASH);
    SameWord(TRANSFER_V2_HASH, TRANSFER_HASH);
    SameWord(AUTHORIZATION_USED_HASH, TRANSFER_HASH);
    SameWord(TRANSFER_HASH, AUTHORIZATION_USED_HASH);
    SameWord(TRANSFER_V2_HASH, AUTHORIZATION_USED_HASH);
    SameWord(AUTHORIZATION_USED_HASH, AUTHORIZATION_USED_HASH);
    hide HexWord, SameHex;
  }

  lemma FetchedOnTruth(token: Address, l: C.LogEntry, fetched: seq<RawLog>)
    requires EncodeLog(token, l) in fetched
    ensures MatchesFetched(EncodeLog(token, l), fetched)
  {
    var f := EncodeLog(token, l);
    QuantityOfText(l.index);
    SameWord(l.tx, l.tx);
    hide Quantity, HexWord, HexQuantity;
    assert SameHex(f.transactionHash, f.transactionHash.s) && Quantity(f.logIndex) == Quantity(f.logIndex);
  }

  lemma TransferTopics(token: Address, l: C.LogEntry)
    requires l.event.Transfer?
    ensures Topics(EncodeLog(token, l)) == [Str(TOPIC_TRANSFER), Str(AddressTopic(l.event.from)), Str(AddressTopic(l.event.to))]
  {
    hide HexWord, HexAddress, HexQuantity, EventData, EventTopics;
    var topics := EventTopics(l.event);
    TransferEventTopics(l.event);
    assert Strings(topics) == [Str(topics[0]), Str(topics[1]), Str(topics[2])];
  }

  lemma TransferEventTopics(event: T.Event)
    requires event.Transfer?
    ensures EventTopics(event) == [TOPIC_TRANSFER, AddressTopic(event.from), AddressTopic(event.to)]
  {
  }

  lemma TransferPartiesOnTruth(token: Address, payer: Address, payee: Address, l: C.LogEntry)
    requires l.event.Transfer?
    ensures |Topics(EncodeLog(token, l))| == 3
    ensures SameHex(Topics(EncodeLog(token, l))[1], TopicText(HexAddress(payer))) <==> l.event.from == payer
    ensures SameHex(Topics(EncodeLog(token, l))[2], TopicText(HexAddress(payee))) <==> l.event.to == payee
  {
    TopicTextOfAddress(payer);
    TopicTextOfAddress(payee);
    SameWord(l.event.from, payer);
    SameWord(l.event.to, payee);
    TransferTopics(token, l);
    hide HexWord, HexAddress, TopicText, SameHex, Topics, EncodeLog;
  }

  lemma TransferValueOnTruth(token: Address, l: C.LogEntry)
    requires l.event.Transfer?
    ensures Quantity(EncodeLog(token, l).data) == Some(l.event.value)
  {
    QuantityOfWord(l.event.value);
    hide HexWord, HexAddress, HexQuantity, Quantity;
  }

  /** On an honest log, the transfer test asks exactly for the order's Transfer event. */
  lemma TransferTestOnTruth(token: Address, merchant: Address, auth: T.Authorization, amount: nat, l: C.LogEntry, fromBlock: nat, fetched: seq<RawLog>)
    requires EncodeLog(token, l) in fetched || !SettlesFor(l.event, merchant, auth, amount)
    ensures IsTransfer(EncodeLog(token, l), TruthOrder(token, merchant, auth, amount, l.tx, fromBlock), l.block, fetched)
       <==> SettlesFor(l.event, merchant, auth, amount)
  {
    var order := TruthOrder(token, merchant, auth, amount, l.tx, fromBlock);
    RelevantOnTruth(token, order, l);
    SignatureTopic(token, l.event, l.block, l.blockHash, l.tx, l.index);
    if l.event.Transfer? {
      TransferPartiesOnTruth(token, auth.from, merchant, l);
      TransferValueOnTruth(token, l);
    }
    if SettlesFor(l.event, merchant, auth, amount) {
      FetchedOnTruth(token, l, fetched);
    }
    hide EncodeLog, HexWord, HexAddress, TopicText, Quantity, SameHex, Relevant, MatchesFetched, Topics;
  }

  /** Likewise for the authorization test. */
  lemma AuthorizationTestOnTruth(token: Address, merchant: Address, auth: T.Authorization, amount: nat, l: C.LogEntry, fromBlock: nat)
    ensures IsAuthorization(EncodeLog(token, l), TruthOrder(token, merchant, auth, amount, l.tx, fromBlock), l.block)
       <==> l.event == T.AuthorizationUsed(auth.from, auth.nonce)
  {
    RelevantOnTruth(token, TruthOrder(token, merchant, auth, amount, l.tx, fromBlock), l);
    SignatureTopic(token, l.event, l.block, l.blockHash, l.tx, l.index);
    TopicTextOfAddress(auth.from);
    TopicTextOfWord(auth.nonce);
    if l.event.AuthorizationUsed? {
      SameWord(l.event.authorizer, auth.from);
      SameWord(l.event.nonce, auth.nonce);
    }
    hide HexWord, HexAddress, HexQuantity, TopicText, Quantity, SameHex, Relevant;
  }

  /** What the decision comes to on the honest receipt of an included token transaction. */
  ghost function TrueDecision(e: C.Entry, merchant: Address, auth: T.Authorization, amount: nat, fromBlock: nat): Option<int> {
    if && e.Succeeded() && e.block >= fromBlock
       && |e.Events()| == 2
       && e.Events()[0] == T.AuthorizationUsed(auth.from, auth.nonce)
       && SettlesFor(e.Events()[1], merchant, auth, amount)
    then Some(e.firstLog + 1) else None
  }

  /** Every event list the token can emit. */
  ghost predicate TokenEvents(events: seq<T.Event>) {
    || events == []
    || (|events| == 1 && !events[0].AuthorizationUsed?)
    || (|events| == 2 && events[0].AuthorizationUsed? && !events[1].AuthorizationUsed?)
  }

  /** The log query answered truthfully: it holds every log of this receipt that matches the filter. */
  ghost predicate FetchedCovers(token: Address, e: C.Entry, blockHash: Hash, fetched: seq<RawLog>, merchant: Address, auth: T.Authorization) {
    forall l :: && l in C.EntryLogs(e, blockHash)
                && TopicsMatch(TransferFilter(auth.from, merchant), EventTopics(l.event))
            ==> EncodeLog(token, l) in fetched
  }

  lemma StatusQuantities()
    ensures Quantity(Str("0x1")) == Some(1) && Quantity(Str("0x0")) == Some(0)
  {
    assert HexQuantity(1) == "0x1" && HexQuantity(0) == "0x0";
    QuantityOfText(1);
    QuantityOfText(0);
  }

  lemma ReceiptBlockOnTruth(token: Address, merchant: Address, auth: T.Authorization, amount: nat, e: C.Entry, blockHash: Hash, fromBlock: nat)
    ensures ReceiptBlock(Some(EncodeReceipt(token, e, blockHash)), TruthOrder(token, merchant, auth, amount, e.hash, fromBlock))
         == if e.Succeeded() && e.block >= fromBlock then Some(e.block) else None
  {
    QuantityOfText(e.block);
    StatusQuantities();
    SameWord(e.hash, e.hash);
    SameAddress(token, token);
    hide Quantity, HexQuantity, EncodeLogs, HexWord, HexAddress, SameHex;
  }

  /** The decision on a receipt shaped like the token's: an authorization first, a transfer second. */
  lemma DecisionOfPair(order: Order, receipt: RawReceipt, fetched: seq<RawLog>, block: int)
    requires ReceiptBlock(Some(receipt), order) == Some(block)
    requires receipt.logs.Some? && |receipt.logs.value| <= 2
    requires forall i :: 0 <= i < |receipt.logs.value| ==>
               receipt.logs.value[i].Some? && Quantity(receipt.logs.value[i].value.logIndex).Some?
    requires |receipt.logs.value| == 2 ==>
               && !IsTransfer(receipt.logs.value[0].value, order, block, fetched)
               && !IsAuthorization(receipt.logs.value[1].value, order, block)
               && Quantity(receipt.logs.value[0].value.logIndex) != Quantity(receipt.logs.value[1].value.logIndex)
    requires |receipt.logs.value| == 1 ==> !IsAuthorization(receipt.logs.value[0].value, order, block)
    ensures Decision(order, Some(receipt), fetched)
         == if && |receipt.logs.value| == 2
               && IsAuthorization(receipt.logs.value[0].value, order, block)
               && IsTransfer(receipt.logs.value[1].value, order, block, fetched)
            then Quantity(receipt.logs.value[1].value.logIndex) else None
  {
    hide IsTransfer, IsAuthorization, ReceiptBlock, Quantity;
    LastIndexOfShort(receipt.logs.value, (l: RawLog) => IsTransfer(l, order, block, fetched));
    LastIndexOfShort(receipt.logs.value, (l: RawLog) => IsAuthorization(l, order, block));
    hide LastIndex;
  }

  lemma ReceiptLog(token: Address, e: C.Entry, blockHash: Hash, i: nat)
    requires i < |e.Events()|
    ensures EncodeReceipt(token, e, blockHash).logs.Some? && |EncodeReceipt(token, e, blockHash).logs.value| == |e.Events()|
    ensures EncodeReceipt(token, e, blockHash).logs.value[i]
         == Some(EncodeLog(token, C.LogEntry(e.hash, e.block, blockHash, e.firstLog + i, e.Events()[i])))
  {
    hide EncodeLog, HexWord, HexAddress, HexQuantity;
  }

  lemma SettlementIsFetched(token: Address, e: C.Entry, blockHash: Hash, fetched: seq<RawLog>, merchant: Address,
                            auth: T.Authorization, amount: nat, i: nat)
    requires FetchedCovers(token, e, blockHash, fetched, merchant, auth)
    requires i < |e.Events()| && SettlesFor(e.Events()[i], merchant, auth, amount)
    ensures EncodeLog(token, C.LogEntry(e.hash, e.block, blockHash, e.firstLog + i, e.Events()[i])) in fetched
  {
    hide EncodeLog, TopicsMatch, EventTopics, TransferFilter;
    var l := C.LogEntry(e.hash, e.block, blockHash, e.firstLog + i, e.Events()[i]);
    assert C.EntryLogs(e, blockHash)[i] == l;
    assert l in C.EntryLogs(e, blockHash);
    FilterAdmitsSettlement(auth.from, merchant, l.event.value);
    assert l.event == T.Transfer(auth.from, merchant, l.event.value);
  }

  lemma FilterAdmitsSettlement(payer: Address, payee: Address, value: Uint256)
    ensures TopicsMatch(TransferFilter(payer, payee), EventTopics(T.Transfer(payer, payee, value)))
  {
    hide AddressTopic;
  }

  /** What the two tests say about each log of an honest receipt. */
  lemma LogTestsOnTruth(token: Address, merchant: Address, auth: T.Authorization, amount: nat, e: C.Entry, blockHash: Hash,
                        fromBlock: nat, fetched: seq<RawLog>, i: nat)
    requires i < |e.Events()|
    requires FetchedCovers(token, e, blockHash, fetched, merchant, auth)
    ensures var log := EncodeLog(token, C.LogEntry(e.hash, e.block, blockHash, e.firstLog + i, e.Events()[i]));
            var order := TruthOrder(token, merchant, auth, amount, e.hash, fromBlock);
            && (IsTransfer(log, order, e.block, fetched) <==> SettlesFor(e.Events()[i], merchant, auth, amount))
            && (IsAuthorization(log, order, e.block) <==> e.Events()[i] == T.AuthorizationUsed(auth.from, auth.nonce))
            && Quantity(log.logIndex) == Some(e.firstLog + i)
  {
    hide IsTransfer, IsAuthorization, Quantity, EncodeLog, TruthOrder, FetchedCovers;
    var l := C.LogEntry(e.hash, e.block, blockHash, e.firstLog + i, e.Events()[i]);
    if SettlesFor(l.event, merchant, auth, amount) {
      SettlementIsFetched(token, e, blockHash, fetched, merchant, auth, amount, i);
    }
    TransferTestOnTruth(token, merchant, auth, amount, l, fromBlock, fetched);
    AuthorizationTestOnTruth(token, merchant, auth, amount, l, fromBlock);
    QuantityOfLogIndex(token, l);
  }

  lemma QuantityOfLogIndex(token: Address, l: C.LogEntry)
    ensures Quantity(EncodeLog(token, l).logIndex) == Some(l.index)
  {
    QuantityOfText(l.index);
    hide Quantity, HexQuantity;
  }

  lemma DecisionOnTruth(token: Address, merchant: Address, auth: T.Authorization, amount: nat, e: C.Entry, blockHash: Hash,
                        fromBlock: nat, fetched: seq<RawLog>)
    requires TokenEvents(e.Events())
    requires FetchedCovers(token, e, blockHash, fetched, merchant, auth)
    ensures Decision(TruthOrder(token, merchant, auth, amount, e.hash, fromBlock), Some(EncodeReceipt(token, e, blockHash)), fetched)
         == TrueDecision(e, merchant, auth, amount, fromBlock)
  {
    ReceiptBlockOnTruth(token, merchant, auth, amount, e, blockHash, fromBlock);
    hide IsTransfer, IsAuthorization, Quantity, EncodeReceipt, EncodeLog, ReceiptBlock, TruthOrder, TopicsMatch, FetchedCovers;
    if e.Succeeded() && e.block >= fromBlock {
      var order, receipt := TruthOrder(token, merchant, auth, amount, e.hash, fromBlock), EncodeReceipt(token, e, blockHash);
      forall i: nat | i < |e.Events()|
        ensures receipt.logs.Some? && |receipt.logs.value| == |e.Events()| && receipt.logs.value[i].Some?
        ensures IsTransfer(receipt.logs.value[i].value, order, e.block, fetched) <==> SettlesFor(e.Events()[i], merchant, auth, amount)
        ensures IsAuthorization(receipt.logs.value[i].value, order, e.block) <==> e.Events()[i] == T.AuthorizationUsed(auth.from, auth.nonce)
        ensures Quantity(receipt.logs.value[i].value.logIndex) == Some(e.firstLog + i)
      {
        ReceiptLog(token, e, blockHash, i);
        LogTestsOnTruth(token, merchant, auth, amount, e, blockHash, fromBlock, fetched, i);
      }
      ReceiptLogCount(token, e, blockHash);
      DecisionOfPair(order, receipt, fetched, e.block);
      hide Decision;
    }
  }

  lemma ReceiptLogCount(token: Address, e: C.Entry, blockHash: Hash)
    ensures EncodeReceipt(token, e, blockHash).logs.Some? && |EncodeReceipt(token, e, blockHash).logs.value| == |e.Events()|
  {
    hide EncodeLog, HexWord, HexAddress, HexQuantity;
  }

  /** The scan over at most two logs, unrolled. */
  lemma LastIndexOfShort(logs: seq<Option<RawLog>>, test: RawLog -> bool)
    requires |logs| <= 2 && forall i :: 0 <= i < |logs| ==> logs[i].Some?
    ensures LastIndex(logs, test)
         == if |logs| >= 2 && test(logs[1].value) then Quantity(logs[1].value.logIndex)
            else if |logs| >= 1 && test(logs[0].value) then Quantity(logs[0].value.logIndex)
            else None
  {
    if |logs| == 2 {
      assert logs[..1][..0] == [];
    }
  }
}
