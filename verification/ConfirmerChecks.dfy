/**
 What the event-watching confirmer checks on arbitrary evidence: a confirmation takes a successful receipt of the
 submitted transaction to the token, not older than the order, and in it a live Transfer of the order, also found by the
 log query, and a live authorization event of the order's nonce at another index. The last of each counts.
 */
module ConfirmerChecks {
  import opened Common
  import opened Numerals
  import opened PythonText
  import opened Json
  import opened Evidence
  import opened Confirmer

  // ---------------------------------------------------------------- fields, leniently read

  /** The same text in any letter case. */
  predicate SameText(value: Json, text: string) { value.Str? && Lower(value.s) == Lower(text) }

  /** The value is the number, or spells it in hex; a truth value counts as zero or one. */
  predicate Reads(value: Json, n: int) {
    value == Int(n) || (value == Bool(true) && n == 1) || (value == Bool(false) && n == 0) || (value.Str? && IntOfHex(value.s) == Some(n))
  }

  lemma QuantityReads(value: Json, n: int)
    ensures Quantity(value) == Some(n) <==> Reads(value, n)
  {
    hide IntOfHex;
  }

  ghost predicate Readable(value: Json) { exists n: int :: Reads(value, n) }

  lemma ReadableMeans(value: Json)
    ensures Readable(value) <==> Quantity(value).Some?
  {
    hide Quantity, Reads;
    if Quantity(value).Some? {
      QuantityReads(value, Quantity(value).value);
    }
    if Readable(value) {
      var n: int :| Reads(value, n);
      QuantityReads(value, n);
    }
  }

  /** An address or nonce as the topic of 32 bytes it is compared with. */
  function AsTopic(text: string): string {
    var digits := if |text| >= 2 && Lower(text)[..2] == "0x" then Lower(text)[2..] else Lower(text);
    "0x" + seq(if |digits| < 64 then 64 - |digits| else 0, _ => '0') + digits
  }

  lemma TopicTextIs(text: string)
    ensures TopicText(text) == AsTopic(text)
  {
    assert StartsWith(Lower(text), "0x") <==> |text| >= 2 && Lower(text)[..2] == "0x";
  }

  // ---------------------------------------------------------------- the two events, field by field

  /** Not removed, from the token, of the submitted transaction, in the receipt's block, with a readable index. */
  ghost predicate Live(log: RawLog, order: Order, block: int) {
    && log.removed != Bool(true)
    && SameText(log.address, order.token) && SameText(log.transactionHash, order.submittedTx)
    && Reads(log.blockNumber, block) && Readable(log.logIndex)
  }

  ghost predicate HasTopics(log: RawLog, first: string, second: string, third: string) {
    && log.topics.Arr? && |log.topics.items| == 3
    && SameText(log.topics.items[0], first) && SameText(log.topics.items[1], second) && SameText(log.topics.items[2], third)
  }

  /** The log query returned a log of the same transaction and index. */
  ghost predicate AlsoFetched(log: RawLog, fetched: seq<RawLog>) {
    && log.transactionHash.Str?
    && exists k, n: int :: 0 <= k < |fetched| && SameText(fetched[k].transactionHash, log.transactionHash.s)
                           && Reads(log.logIndex, n) && Reads(fetched[k].logIndex, n)
  }

  ghost predicate ShowsTransfer(log: RawLog, order: Order, block: int, fetched: seq<RawLog>) {
    && Live(log, order, block) && HasTopics(log, order.watchedTopic, AsTopic(order.payer), AsTopic(order.payee))
    && Reads(log.data, order.expectedValue) && AlsoFetched(log, fetched)
  }

  ghost predicate ShowsAuthorization(log: RawLog, order: Order, block: int) {
    && Live(log, order, block)
    && HasTopics(log, HexWord(AUTHORIZATION_USED_HASH), AsTopic(order.payer), AsTopic(order.nonce))
  }

  lemma RelevantMeans(log: RawLog, order: Order, block: int)
    ensures Relevant(log, order, block) <==> Live(log, order, block)
  {
    hide Quantity, Reads, Readable;
    QuantityReads(log.blockNumber, block);
    ReadableMeans(log.logIndex);
  }

  lemma FetchedMeans(log: RawLog, fetched: seq<RawLog>)
    ensures MatchesFetched(log, fetched) <==> AlsoFetched(log, fetched)
  {
    hide Quantity, Reads;
    if MatchesFetched(log, fetched) {
      var f :| f in fetched && SameHex(f.transactionHash, log.transactionHash.s) && Quantity(f.logIndex) == Quantity(log.logIndex);
      var k :| 0 <= k < |fetched| && fetched[k] == f;
      var n := Quantity(log.logIndex).value;
      QuantityReads(log.logIndex, n);
      QuantityReads(fetched[k].logIndex, n);
    }
    if AlsoFetched(log, fetched) {
      var k, n: int :| 0 <= k < |fetched| && SameText(fetched[k].transactionHash, log.transactionHash.s)
                       && Reads(log.logIndex, n) && Reads(fetched[k].logIndex, n);
      QuantityReads(log.logIndex, n);
      QuantityReads(fetched[k].logIndex, n);
      assert fetched[k] in fetched;
    }
  }

  lemma TransferMeans(log: RawLog, order: Order, block: int, fetched: seq<RawLog>)
    ensures IsTransfer(log, order, block, fetched) <==> ShowsTransfer(log, order, block, fetched)
  {
    hide Quantity, Reads, Relevant, Live, MatchesFetched, AlsoFetched, TopicText, AsTopic;
    RelevantMeans(log, order, block);
    FetchedMeans(log, fetched);
    TopicTextIs(order.payer);
    TopicTextIs(order.payee);
    QuantityReads(log.data, order.expectedValue);
  }

  lemma AuthorizationMeans(log: RawLog, order: Order, block: int)
    ensures IsAuthorization(log, order, block) <==> ShowsAuthorization(log, order, block)
  {
    hide Quantity, Relevant, Live, TopicText, AsTopic, HexWord;
    RelevantMeans(log, order, block);
    TopicTextIs(order.payer);
    TopicTextIs(order.nonce);
  }

  // ---------------------------------------------------------------- the last one counts

  lemma {:induction false} LastPosition(logs: seq<Option<RawLog>>, test: RawLog -> bool) returns (k: nat)
    requires LastIndex(logs, test).Some?
    ensures k < |logs| && logs[k].Some? && test(logs[k].value) && Quantity(logs[k].value.logIndex) == LastIndex(logs, test)
    ensures forall m :: k < m < |logs| && logs[m].Some? ==> !test(logs[m].value)
  {
    hide Quantity;
    var last := logs[|logs| - 1];
    if last.Some? && test(last.value) {
      k := |logs| - 1;
    } else {
      var init := logs[..|logs| - 1];
      k := LastPosition(init, test);
      assert forall m :: k < m < |init| ==> init[m] == logs[m];
    }
  }

  lemma {:induction false} LastPositionCounts(logs: seq<Option<RawLog>>, test: RawLog -> bool, k: nat)
    requires k < |logs| && logs[k].Some? && test(logs[k].value)
    requires forall m :: k < m < |logs| && logs[m].Some? ==> !test(logs[m].value)
    ensures LastIndex(logs, test) == Quantity(logs[k].value.logIndex)
  {
    hide Quantity;
    if k < |logs| - 1 {
      LastPositionCounts(logs[..|logs| - 1], test, k);
    }
  }

  // ---------------------------------------------------------------- the decision, exactly

  /** A successful receipt of the submitted transaction to the token, in a block not before the order's. */
  ghost predicate GoodReceipt(receipt: RawReceipt, order: Order, block: int) {
    && Reads(receipt.status, 1) && SameText(receipt.transactionHash, order.submittedTx) && SameText(receipt.to, order.token)
    && Reads(receipt.blockNumber, block) && block >= order.fromBlock
  }

  lemma ReceiptMeans(receipt: RawReceipt, order: Order, block: int)
    ensures ReceiptBlock(Some(receipt), order) == Some(block) <==> GoodReceipt(receipt, order, block)
  {
    hide Quantity, Reads;
    QuantityReads(receipt.status, 1);
    QuantityReads(receipt.blockNumber, block);
  }

  /** The last Transfer of the order is at position t and has index n; its last authorization event is at a, with another index. */
  ghost predicate ConfirmedBy(order: Order, receipt: RawReceipt, fetched: seq<RawLog>, n: int, block: int, t: nat, a: nat) {
    && GoodReceipt(receipt, order, block) && receipt.logs.Some?
    && var logs := receipt.logs.value;
       && t < |logs| && logs[t].Some? && ShowsTransfer(logs[t].value, order, block, fetched) && Reads(logs[t].value.logIndex, n)
       && (forall m :: t < m < |logs| && logs[m].Some? ==> !ShowsTransfer(logs[m].value, order, block, fetched))
       && a < |logs| && logs[a].Some? && ShowsAuthorization(logs[a].value, order, block) && !Reads(logs[a].value.logIndex, n)
       && (forall m :: a < m < |logs| && logs[m].Some? ==> !ShowsAuthorization(logs[m].value, order, block))
  }

  /** Every confirmation has that evidence. */
  lemma ConfirmationHasEvidence(order: Order, receipt: Option<RawReceipt>, fetched: seq<RawLog>) returns (block: int, t: nat, a: nat)
    requires Decision(order, receipt, fetched).Some?
    ensures receipt.Some? && ConfirmedBy(order, receipt.value, fetched, Decision(order, receipt, fetched).value, block, t, a)
  {
    hide Quantity, Reads, IsTransfer, IsAuthorization, ShowsTransfer, ShowsAuthorization, GoodReceipt, ReceiptBlock, LastIndex;
    NoReceiptNoBlock(order);
    block := ReceiptBlock(receipt, order).value;
    ReceiptMeans(receipt.value, order, block);
    var logs := receipt.value.logs.value;
    var n := Decision(order, receipt, fetched).value;
    t := LastPosition(logs, (l: RawLog) => IsTransfer(l, order, block, fetched));
    a := LastPosition(logs, (l: RawLog) => IsAuthorization(l, order, block));
    forall m | 0 <= m < |logs| && logs[m].Some?
      ensures IsTransfer(logs[m].value, order, block, fetched) <==> ShowsTransfer(logs[m].value, order, block, fetched)
      ensures IsAuthorization(logs[m].value, order, block) <==> ShowsAuthorization(logs[m].value, order, block)
    {
      TransferMeans(logs[m].value, order, block, fetched);
      AuthorizationMeans(logs[m].value, order, block);
    }
    QuantityReads(logs[t].value.logIndex, n);
    QuantityReads(logs[a].value.logIndex, n);
  }

  lemma NoReceiptNoBlock(order: Order)
    ensures ReceiptBlock(None, order) == None
  {
  }

  /** And that evidence is confirmed. */
  lemma EvidenceIsConfirmed(order: Order, receipt: RawReceipt, fetched: seq<RawLog>, n: int, block: int, t: nat, a: nat)
    requires ConfirmedBy(order, receipt, fetched, n, block, t, a)
    ensures Decision(order, Some(receipt), fetched) == Some(n)
  {
    hide Quantity, Reads, IsTransfer, IsAuthorization, ShowsTransfer, ShowsAuthorization, GoodReceipt, ReceiptBlock, LastIndex;
    ReceiptMeans(receipt, order, block);
    var logs := receipt.logs.value;
    forall m | 0 <= m < |logs| && logs[m].Some?
      ensures IsTransfer(logs[m].value, order, block, fetched) <==> ShowsTransfer(logs[m].value, order, block, fetched)
      ensures IsAuthorization(logs[m].value, order, block) <==> ShowsAuthorization(logs[m].value, order, block)
    {
      TransferMeans(logs[m].value, order, block, fetched);
      AuthorizationMeans(logs[m].value, order, block);
    }
    LastPositionCounts(logs, (l: RawLog) => IsTransfer(l, order, block, fetched), t);
    LastPositionCounts(logs, (l: RawLog) => IsAuthorization(l, order, block), a);
    QuantityReads(logs[t].value.logIndex, n);
    QuantityReads(logs[a].value.logIndex, n);
    ShownIsReadable(logs[a].value, order, block);
  }

  lemma ShownIsReadable(log: RawLog, order: Order, block: int)
    requires ShowsAuthorization(log, order, block)
    ensures Quantity(log.logIndex).Some?
  {
    ReadableMeans(log.logIndex);
    hide HasTopics, Quantity;
  }
}
