/**
 What a reconciliation answers, in plain terms: when it fails, which credits it returns, and in which order, stated
 about the decoded logs alone.
 */
module GapExplained {
  import opened Common
  import Numerals
  import PythonText
  import opened Ordering
  import opened Json
  import opened Evidence
  import opened Reconciliation

  /**
   Decoding, field by field: a Transfer of two address topics, of which the first is the payer and the second the payee,
   with the amount in its data. Texts are read by the strict decoders.
   */
  lemma DecodesExactly(log: RawLog, chainId: int, c: OnChainCredit)
    ensures DecodeTransferLog(log, chainId) == Some(c)
       <==> && chainId > 0 && c.identity.chainId == chainId
            && log.topics.Arr? && |log.topics.items| == 3
            && ExactHex(log.topics.items[0], 32) == Some(HexWord(TRANSFER_HASH))
            && TopicNames(log.topics.items[1], c.payer) && TopicNames(log.topics.items[2], c.payee)
            && ExactHex(log.data, 32).Some? && PythonText.IntOfHex(ExactHex(log.data, 32).value) == Some(c.value) && c.value <= UINT256_MAX
            && ExactHex(log.address, 20) == Some(c.identity.asset) && ExactHex(log.transactionHash, 32) == Some(c.identity.txHash)
            && ExactHex(log.blockHash, 32) == Some(c.blockHash)
            && Quantity(log.logIndex) == Some(c.identity.logIndex) && Quantity(log.blockNumber) == Some(c.blockNumber)
            && log.removed == Bool(c.removed)
  {
    hide ExactHex, Quantity, PythonText.IntOfHex, HexWord, AddressOfTopic, TopicNames;
    if log.topics.Arr? && |log.topics.items| == 3 {
      TopicMeans(log.topics.items[1], c.payer);
      TopicMeans(log.topics.items[2], c.payee);
    }
  }

  /** A topic of twelve zero bytes and an address. */
  ghost predicate TopicNames(topic: Json, address: string) {
    && ExactHex(topic, 32).Some? && |ExactHex(topic, 32).value| == 66
    && ExactHex(topic, 32).value[2..26] == "000000000000000000000000"
    && ExactHex(Str("0x" + ExactHex(topic, 32).value[26..]), 20) == Some(address)
  }

  lemma TopicMeans(topic: Json, address: string)
    ensures AddressOfTopic(topic) == Some(address) <==> TopicNames(topic, address)
  {
    assert seq(24, _ => '0') == "000000000000000000000000";
    ExactLength(topic, 32);
    hide ExactHex;
  }

  lemma ExactLength(value: Json, size: nat)
    ensures ExactHex(value, size).Some? ==> |ExactHex(value, size).value| == 2 + 2 * size
  {
  }

  /** A log that is no complete Transfer, or one of another asset or to another payee than expected. */
  ghost predicate OutOfPlace(l: RawLog, chainId: int, asset: Option<string>, payee: Option<string>) {
    || DecodeTransferLog(l, chainId).None?
    || (var c := DecodeTransferLog(l, chainId).value;
        (asset.Some? && c.identity.asset != asset.value) || (payee.Some? && c.payee != payee.value))
  }

  /** Two logs that decode to one settlement with different contents. */
  ghost predicate Contradict(l: RawLog, m: RawLog, chainId: int) {
    && DecodeTransferLog(l, chainId).Some? && DecodeTransferLog(m, chainId).Some?
    && DecodeTransferLog(l, chainId).value.identity == DecodeTransferLog(m, chainId).value.identity
    && DecodeTransferLog(l, chainId) != DecodeTransferLog(m, chainId)
  }

  /** A reconciliation fails exactly on a log out of place or on two logs that contradict each other. */
  lemma FailsExactlyWhen(logs: seq<RawLog>, known: set<SettlementIdentity>, chainId: int, asset: Option<string>, payee: Option<string>)
    ensures Unreconciled(logs, known, Scope(chainId, asset, payee)).None?
       <==> || (exists l :: l in logs && OutOfPlace(l, chainId, asset, payee))
            || (exists l, m :: l in logs && m in logs && Contradict(l, m, chainId))
  {
    hide DecodeTransferLog, CreditLess;
    var scope := Scope(chainId, asset, payee);
    if l :| l in logs && OutOfPlace(l, chainId, asset, payee) {
      assert Observe(l, scope).Err?;
    } else {
      assert forall l :: l in logs ==> !OutOfPlace(l, chainId, asset, payee);
      forall l, m | l in logs && m in logs ensures Contradict(l, m, chainId) <==> Conflict(l, m, scope) {
        assert Observe(l, scope).Ok? && Observe(m, scope).Ok?;
      }
    }
  }

  /** It returns exactly the live credits the ledger does not know. */
  lemma AnswerHolds(logs: seq<RawLog>, known: set<SettlementIdentity>, scope: Scope, c: OnChainCredit)
    requires Unreconciled(logs, known, scope).Some?
    ensures c in Unreconciled(logs, known, scope).value
       <==> (exists l :: l in logs && DecodeTransferLog(l, scope.chainId) == Some(c)) && !c.removed && c.identity !in known
  {
    MissingArranged(logs, known, scope);
    FailsExactlyWhen(logs, known, scope.chainId, scope.asset, scope.payee);
    hide DecodeTransferLog, CreditLess, Arranged;
    if l :| l in logs && DecodeTransferLog(l, scope.chainId) == Some(c) {
      assert !OutOfPlace(l, scope.chainId, scope.asset, scope.payee);
      assert Observe(l, scope) == Ok(c);
    }
    if c in Missing(logs, known, scope) {
      var l :| l in logs && Observe(l, scope) == Ok(c);
      assert DecodeTransferLog(l, scope.chainId) == Some(c);
    }
  }

  /** By block, then log index, then transaction hash, then asset. */
  ghost predicate Precedes(a: OnChainCredit, b: OnChainCredit) {
    || a.blockNumber < b.blockNumber
    || (a.blockNumber == b.blockNumber
        && (|| a.identity.logIndex < b.identity.logIndex
            || (a.identity.logIndex == b.identity.logIndex
                && (|| FirstDiffersBelow(a.identity.txHash, b.identity.txHash)
                    || (a.identity.txHash == b.identity.txHash && FirstDiffersBelow(a.identity.asset, b.identity.asset))))))
  }

  lemma LessMeans(a: OnChainCredit, b: OnChainCredit)
    ensures CreditLess(a, b) <==> Precedes(a, b)
  {
    TextLessMeans(a.identity.txHash, b.identity.txHash);
    TextLessMeans(a.identity.asset, b.identity.asset);
    TextLessIrreflexive(a.identity.txHash);
    hide TextLess, FirstDiffersBelow;
  }

  /** The answer is in that order: block numbers never fall, and ties ascend. */
  lemma AnswerOrdered(logs: seq<RawLog>, known: set<SettlementIdentity>, scope: Scope, i: nat, j: nat)
    requires Unreconciled(logs, known, scope).Some? && i < j < |Unreconciled(logs, known, scope).value|
    ensures var r := Unreconciled(logs, known, scope).value;
            Precedes(r[i], r[j]) && r[i].blockNumber <= r[j].blockNumber && r[i].identity != r[j].identity
  {
    MissingArranged(logs, known, scope);
    hide CreditLess, Inconclusive, Arranged, Missing;
    var r := Unreconciled(logs, known, scope).value;
    assert CreditLess(r[i], r[j]);
    LessMeans(r[i], r[j]);
    if r[i].identity == r[j].identity {
      AnswerHolds(logs, known, scope, r[i]);
      AnswerHolds(logs, known, scope, r[j]);
      OneCredit(logs, known, scope, r[i], r[j]);
      LessMeans(r[i], r[i]);
      CreditOrder();
    }
  }

  lemma OneCredit(logs: seq<RawLog>, known: set<SettlementIdentity>, scope: Scope, c: OnChainCredit, d: OnChainCredit)
    requires Unreconciled(logs, known, scope).Some? && c.identity == d.identity
    requires exists l :: l in logs && DecodeTransferLog(l, scope.chainId) == Some(c)
    requires exists l :: l in logs && DecodeTransferLog(l, scope.chainId) == Some(d)
    ensures c == d
  {
    FailsExactlyWhen(logs, known, scope.chainId, scope.asset, scope.payee);
    hide DecodeTransferLog, Unreconciled;
    var l :| l in logs && DecodeTransferLog(l, scope.chainId) == Some(c);
    var m :| m in logs && DecodeTransferLog(m, scope.chainId) == Some(d);
    assert !Contradict(l, m, scope.chainId);
  }

  // ---------------------------------------------------------------- scoped to one asset

  /** A complete Transfer of the asset. */
  ghost predicate OfTheAsset(l: RawLog, chainId: int, asset: string) {
    DecodeTransferLog(l, chainId).Some? && DecodeTransferLog(l, chainId).value.identity.asset == asset
  }

  /**
   The scoped call fails on a malformed expectation, on any log that is no complete Transfer, whatever its asset, and among
   the logs of the asset on one to another payee or two that contradict each other; and on nothing else.
   */
  lemma ScopedFailsExactlyWhen(logs: seq<RawLog>, known: set<SettlementIdentity>, chainId: int, expectedAsset: string,
                               expectedPayee: Option<string>)
    ensures AssetScoped(logs, known, chainId, expectedAsset, expectedPayee).None?
       <==> || ExactHex(Str(expectedAsset), 20).None? || Expectation(expectedPayee).Err?
            || (exists l :: l in logs && DecodeTransferLog(l, chainId).None?)
            || (var asset, payee := ExactHex(Str(expectedAsset), 20).value, Expectation(expectedPayee).value;
                || (exists l :: l in logs && OfTheAsset(l, chainId, asset) && OutOfPlace(l, chainId, Some(asset), payee))
                || (exists l, m :: l in logs && m in logs && OfTheAsset(l, chainId, asset) && OfTheAsset(m, chainId, asset)
                                   && Contradict(l, m, chainId)))
  {
    hide DecodeTransferLog, ExactHex, Expectation, Unreconciled, Contradict, OutOfPlace;
    if ExactHex(Str(expectedAsset), 20).Some? && Expectation(expectedPayee).Ok? {
      var asset := ExactHex(Str(expectedAsset), 20);
      FailsExactlyWhen(OfAsset(logs, chainId, asset.value), known, chainId, asset, Expectation(expectedPayee).value);
    }
  }

  /** It returns exactly the live credits of the asset that the ledger does not know. */
  lemma ScopedAnswerHolds(logs: seq<RawLog>, known: set<SettlementIdentity>, chainId: int, expectedAsset: string, expectedPayee: Option<string>,
                          c: OnChainCredit)
    requires AssetScoped(logs, known, chainId, expectedAsset, expectedPayee).Some?
    ensures c in AssetScoped(logs, known, chainId, expectedAsset, expectedPayee).value
       <==> && (exists l :: l in logs && DecodeTransferLog(l, chainId) == Some(c))
            && Some(c.identity.asset) == ExactHex(Str(expectedAsset), 20) && !c.removed && c.identity !in known
  {
    hide DecodeTransferLog, ExactHex, Expectation, Unreconciled;
    var asset := ExactHex(Str(expectedAsset), 20);
    var scoped := OfAsset(logs, chainId, asset.value);
    AnswerHolds(scoped, known, Scope(chainId, asset, Expectation(expectedPayee).value), c);
    if l :| l in logs && DecodeTransferLog(l, chainId) == Some(c) && c.identity.asset == asset.value {
      assert l in scoped;
    }
  }

  // ---------------------------------------------------------------- what is known and expected

  /** The identities a ledger knows: those it lists, and those of the credits it lists. */
  lemma KnownExactly(entries: set<LedgerEntry>, identity: SettlementIdentity)
    ensures identity in KnownIdentities(entries)
       <==> Identity(identity) in entries || exists c :: Credit(c) in entries && c.identity == identity
  {
    if identity in KnownIdentities(entries) {
      var e :| e in entries && (match e case Identity(i) => i case Credit(c) => c.identity) == identity;
      assert e.Credit? ==> Credit(e.credit) in entries;
    }
    if Identity(identity) in entries {
      assert (match Identity(identity) case Identity(i) => i case Credit(c) => c.identity) == identity;
    }
    if c :| Credit(c) in entries && c.identity == identity {
      assert (match Credit(c) case Identity(i) => i case Credit(d) => d.identity) == identity;
    }
  }

  /** An expectation is absent or empty, or a 20-byte address that it normalizes; anything else is refused. */
  lemma ExpectationExactly(address: Option<string>)
    ensures address.None? || address.value == "" ==> Expectation(address) == Ok(None)
    ensures address.Some? && address.value != "" ==>
              (Expectation(address) == if ExactHex(Str(address.value), 20).Some? then Ok(Some(ExactHex(Str(address.value), 20).value))
                                       else Err(BadExpectation))
    ensures Expectation(address).Ok? && Expectation(address).value.Some? ==>
              address.Some? && Expectation(address).value.value == Numerals.Lower(address.value) && |address.value| == 42
  {
  }
}
