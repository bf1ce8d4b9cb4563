/**
 Strict settlement identities and ledger reconciliation (src/psv/reconciliation.py).
 */
module Reconciliation {
  import opened Common
  import opened Numerals
  import opened PythonText
  import opened Ordering
  import opened Json
  import opened Evidence
  import C = Chain

  datatype SettlementIdentity = SettlementIdentity(chainId: int, asset: string, txHash: string, logIndex: nat)

  datatype OnChainCredit = OnChainCredit(
    identity: SettlementIdentity, blockHash: string, blockNumber: nat,
    payer: string, payee: string, value: nat, removed: bool)

  datatype LedgerEntry = Identity(identity: SettlementIdentity) | Credit(credit: OnChainCredit)

  /** Why a snapshot cannot be reconciled. */
  datatype Failure = BadExpectation | Malformed | CrossAsset | CrossRecipient | Conflicting

  // ---------------------------------------------------------------- decoding

  /** Fixed-size hex, normalized to lower case. Whitespace between the bytes passes, as bytes.fromhex lets it. */
  function ExactHex(value: Json, size: nat): Option<string> {
    if !value.Str? || !StartsWith(value.s, "0x") || |value.s| != 2 + size * 2 || !FromHexAccepts(value.s[2..]) then None
    else Some(Lower(value.s))
  }

  function Quantity(value: Json): Option<nat> {
    if !value.Str? || !StartsWith(value.s, "0x") || value.s == "0x" || (|value.s| > 3 && value.s[2] == '0') then None
    else
      match IntOfHex(value.s[2..])
      case Some(n) => if 0 <= n <= UINT256_MAX then Some(n) else None
      case None => None
  }

  function AddressOfTopic(topic: Json): Option<string> {
    match ExactHex(topic, 32)
    case Some(exact) =>
      if exact[2..26] != seq(24, _ => '0') then None
      else ExactHex(Str("0x" + exact[26..]), 20)
    case None => None
  }

  function TopicOfAddress(address: string): Option<string> {
    match ExactHex(Str(address), 20)
    case Some(exact) => Some("0x" + seq(24, _ => '0') + exact[2..])
    case None => None
  }

  /** A complete Transfer log as a credit; None where the source raises. */
  function DecodeTransferLog(log: RawLog, chainId: int): Option<OnChainCredit> {
    if chainId <= 0 || !log.topics.Arr? || |log.topics.items| != 3 then None
    else
      var topics := log.topics.items;
      var asset, txHash, blockHash := ExactHex(log.address, 20), ExactHex(log.transactionHash, 32), ExactHex(log.blockHash, 32);
      var logIndex, blockNumber := Quantity(log.logIndex), Quantity(log.blockNumber);
      var payer, payee := AddressOfTopic(topics[1]), AddressOfTopic(topics[2]);
      var data := ExactHex(log.data, 32);
      if ExactHex(topics[0], 32) != Some(TOPIC_TRANSFER) || data.None? || !log.removed.Bool? then None
      else if asset.None? || txHash.None? || logIndex.None? || blockHash.None? || blockNumber.None? then None
      else if payer.None? || payee.None? then None
      else
        match IntOfHex(data.value)
        case Some(value) =>
          if value < 0 || value > UINT256_MAX then None
          else
            Some(OnChainCredit(
              SettlementIdentity(chainId, asset.value, txHash.value, logIndex.value),
              blockHash.value, blockNumber.value, payer.value, payee.value, value, log.removed.b))
        case None => None
  }

  // ---------------------------------------------------------------- what the answer must be

  /** The snapshot's chain, and the asset and payee its logs are confined to. */
  datatype Scope = Scope(chainId: int, asset: Option<string>, payee: Option<string>)

  function Observe(log: RawLog, scope: Scope): Result<OnChainCredit, Failure> {
    match DecodeTransferLog(log, scope.chainId)
    case None => Err(Malformed)
    case Some(credit) =>
      if scope.asset.Some? && credit.identity.asset != scope.asset.value then Err(CrossAsset)
      else if scope.payee.Some? && credit.payee != scope.payee.value then Err(CrossRecipient)
      else Ok(credit)
  }

  ghost predicate Conflict(l: RawLog, m: RawLog, scope: Scope) {
    && Observe(l, scope).Ok? && Observe(m, scope).Ok?
    && Observe(l, scope).value.identity == Observe(m, scope).value.identity
    && Observe(l, scope).value != Observe(m, scope).value
  }

  /** The snapshot is inconclusive: a log is malformed or out of scope, or two logs of one identity disagree. */
  ghost predicate Inconclusive(logs: seq<RawLog>, scope: Scope) {
    || (exists l :: l in logs && Observe(l, scope).Err?)
    || (exists l, m :: l in logs && m in logs && Conflict(l, m, scope))
  }

  ghost function Observed(logs: seq<RawLog>, scope: Scope): set<OnChainCredit> {
    set l | l in logs && Observe(l, scope).Ok? :: Observe(l, scope).value
  }

  ghost function Missing(logs: seq<RawLog>, known: set<SettlementIdentity>, scope: Scope): set<OnChainCredit> {
    set c | c in Observed(logs, scope) && !c.removed && c.identity !in known
  }

  function KnownIdentities(entries: set<LedgerEntry>): set<SettlementIdentity> {
    set e | e in entries :: match e case Identity(identity) => identity case Credit(credit) => credit.identity
  }

  /** The source's sort key: block, log index, transaction hash, asset. */
  predicate CreditLess(a: OnChainCredit, b: OnChainCredit) {
    if a.blockNumber != b.blockNumber then a.blockNumber < b.blockNumber
    else if a.identity.logIndex != b.identity.logIndex then a.identity.logIndex < b.identity.logIndex
    else if a.identity.txHash != b.identity.txHash then TextLess(a.identity.txHash, b.identity.txHash)
    else TextLess(a.identity.asset, b.identity.asset)
  }

  /** The answer as a function of the snapshot: fails, or the missing credits in ascending order. */
  ghost function Unreconciled(logs: seq<RawLog>, known: set<SettlementIdentity>, scope: Scope): Option<seq<OnChainCredit>> {
    if Inconclusive(logs, scope) then None else Some(Arranged(Missing(logs, known, scope), CreditLess))
  }

  lemma CreditOrder()
    ensures StrictOrder(CreditLess)
  {
    forall x ensures !CreditLess(x, x) {
      TextLessIrreflexive(x.identity.asset);
    }
    forall x, y, z | CreditLess(x, y) && CreditLess(y, z) ensures CreditLess(x, z) {
      CreditLessTransitive(x, y, z);
    }
  }

  lemma CreditLessTransitive(x: OnChainCredit, y: OnChainCredit, z: OnChainCredit)
    requires CreditLess(x, y) && CreditLess(y, z)
    ensures CreditLess(x, z)
  {
    var (p, q, r) := (x.identity.txHash, y.identity.txHash, z.identity.txHash);
    if TextLess(p, q) && TextLess(q, r) {
      TextLessTransitive(p, q, r);
      TextLessIrreflexive(p);
    }
    if TextLess(x.identity.asset, y.identity.asset) && TextLess(y.identity.asset, z.identity.asset) {
      TextLessTransitive(x.identity.asset, y.identity.asset, z.identity.asset);
    }
  }

  lemma CreditsComparable(a: OnChainCredit, b: OnChainCredit)
    requires a.identity != b.identity && a.identity.chainId == b.identity.chainId
    ensures CreditLess(a, b) || CreditLess(b, a)
  {
    TextLessTotal(a.identity.txHash, b.identity.txHash);
    TextLessTotal(a.identity.asset, b.identity.asset);
  }

  lemma ObservedChain(log: RawLog, scope: Scope)
    requires Observe(log, scope).Ok?
    ensures Observe(log, scope).value.identity.chainId == scope.chainId
  {
  }

  lemma MissingArranged(logs: seq<RawLog>, known: set<SettlementIdentity>, scope: Scope)
    requires !Inconclusive(logs, scope)
    ensures Unreconciled(logs, known, scope).Some?
    ensures Ascending(Unreconciled(logs, known, scope).value, CreditLess)
    ensures forall c :: c in Unreconciled(logs, known, scope).value <==> c in Missing(logs, known, scope)
  {
    hide DecodeTransferLog, CreditLess, Sorted, Listed;
    CreditOrder();
    var missing := Missing(logs, known, scope);
    forall x, y | x in missing && y in missing && x != y ensures CreditLess(x, y) || CreditLess(y, x) {
      var l :| l in logs && Observe(l, scope) == Ok(x);
      var m :| m in logs && Observe(m, scope) == Ok(y);
      assert !Conflict(l, m, scope);
      ObservedChain(l, scope);
      ObservedChain(m, scope);
      CreditsComparable(x, y);
    }
    ArrangedAscends(missing, CreditLess);
  }

  /** Any ascending list of exactly the missing credits is the answer. */
  lemma AnswerUnique(logs: seq<RawLog>, known: set<SettlementIdentity>, scope: Scope, r: seq<OnChainCredit>)
    requires !Inconclusive(logs, scope)
    requires Ascending(r, CreditLess) && forall c :: c in r <==> c in Missing(logs, known, scope)
    ensures Unreconciled(logs, known, scope) == Some(r)
  {
    MissingArranged(logs, known, scope);
    CreditOrder();
    AscendingUnique(Unreconciled(logs, known, scope).value, r, CreditLess);
  }

  // ---------------------------------------------------------------- the loop

  /** An optional expectation, normalized. Python treats an empty string as no expectation. */
  function Expectation(address: Option<string>): Result<Option<string>, Failure> {
    if address.None? || address.value == "" then Ok(None)
    else
      match ExactHex(Str(address.value), 20)
      case Some(exact) => Ok(Some(exact))
      case None => Err(BadExpectation)
  }

  method FindUnreconciled(transfers: seq<RawLog>, ledgerEntries: set<LedgerEntry>, chainId: int,
                          expectedAsset: Option<string>, expectedPayee: Option<string>)
    returns (r: Result<seq<OnChainCredit>, Failure>)
    ensures r == Err(BadExpectation) <==> Expectation(expectedAsset).Err? || Expectation(expectedPayee).Err?
    ensures r != Err(BadExpectation) ==>
              var scope := Scope(chainId, Expectation(expectedAsset).value, Expectation(expectedPayee).value);
              && (r.Err? <==> Inconclusive(transfers, scope))
              && (r.Ok? ==> Unreconciled(transfers, KnownIdentities(ledgerEntries), scope) == Some(r.value))
  {
    hide DecodeTransferLog, ExactHex, CreditLess;
    var known := KnownIdentities(ledgerEntries);
    var asset, payee := Expectation(expectedAsset), Expectation(expectedPayee);
    if asset.Err? || payee.Err? {
      return Err(BadExpectation);
    }
    var scope := Scope(chainId, asset.value, payee.value);
    var observations: map<SettlementIdentity, OnChainCredit> := map[];
    for i := 0 to |transfers|
      invariant forall l :: l in transfers[..i] ==> Observe(l, scope).Ok?
      invariant forall l :: l in transfers[..i] ==>
                  var c := Observe(l, scope).value;
                  c.identity in observations && observations[c.identity] == c
      invariant forall k :: k in observations ==>
                  observations[k].identity == k && observations[k] in Observed(transfers[..i], scope)
    {
      assert transfers[..i + 1] == transfers[..i] + [transfers[i]];
      var observed := Observe(transfers[i], scope);
      if observed.Err? {
        assert transfers[i] in transfers;
        return Err(observed.error);
      }
      var credit := observed.value;
      if credit.identity in observations && observations[credit.identity] != credit {
        ghost var l :| l in transfers[..i] && Observe(l, scope) == Ok(observations[credit.identity]);
        assert l in transfers && transfers[i] in transfers && Conflict(l, transfers[i], scope);
        return Err(Conflicting);
      }
      observations := observations[credit.identity := credit];
    }
    assert transfers[..|transfers|] == transfers;
    var credits := CreditsOf(observations);
    assert !Inconclusive(transfers, scope);
    var open := Unknown(credits, known);
    assert forall c :: c in open <==> c in Missing(transfers, known, scope) by {
      forall c ensures c in open <==> c in Missing(transfers, known, scope) {
        if c in Missing(transfers, known, scope) {
          var l :| l in transfers && Observe(l, scope) == Ok(c);
          assert observations[c.identity] == c;
        }
      }
    }
    assert Comparable(open, CreditLess) by {
      forall i, j | 0 <= i < j < |open| ensures CreditLess(open[i], open[j]) || CreditLess(open[j], open[i]) {
        assert open[i] in open && open[j] in open;
        var l :| l in transfers && Observe(l, scope) == Ok(open[i]);
        var m :| m in transfers && Observe(m, scope) == Ok(open[j]);
        ObservedChain(l, scope);
        ObservedChain(m, scope);
        CreditsComparable(open[i], open[j]);
      }
    }
    CreditOrder();
    SortedAscends(open, CreditLess);
    AnswerUnique(transfers, known, scope, Sorted(open, CreditLess));
    return Ok(Sorted(open, CreditLess));
  }

  /** The values of the observation dictionary, each identity once. */
  method CreditsOf(observations: map<SettlementIdentity, OnChainCredit>) returns (credits: seq<OnChainCredit>)
    requires forall k :: k in observations ==> observations[k].identity == k
    ensures forall c :: c in credits <==> c.identity in observations && observations[c.identity] == c
    ensures forall i, j :: 0 <= i < j < |credits| ==> credits[i].identity != credits[j].identity
  {
    credits := [];
    var rest := observations.Keys;
    while rest != {}
      invariant rest <= observations.Keys
      invariant forall c :: c in credits <==> c.identity in observations && c.identity !in rest && observations[c.identity] == c
      invariant forall i, j :: 0 <= i < j < |credits| ==> credits[i].identity != credits[j].identity
    {
      var k :| k in rest;
      assert forall c :: c in credits ==> c.identity != k;
      credits := credits + [observations[k]];
      rest := rest - {k};
    }
  }

  function Unknown(credits: seq<OnChainCredit>, known: set<SettlementIdentity>): (r: seq<OnChainCredit>)
    ensures forall c :: c in r <==> c in credits && !c.removed && c.identity !in known
    ensures (forall i, j :: 0 <= i < j < |credits| ==> credits[i].identity != credits[j].identity)
        ==> forall i, j :: 0 <= i < j < |r| ==> r[i].identity != r[j].identity
  {
    if credits == [] then []
    else
      var rest := Unknown(credits[1..], known);
      if !credits[0].removed && credits[0].identity !in known then [credits[0]] + rest else rest
  }

  // ---------------------------------------------------------------- the answer is about the set of logs

  ghost predicate SameLogs(a: seq<RawLog>, b: seq<RawLog>) {
    forall l :: l in a <==> l in b
  }

  /** Reordering or repeating observed logs changes neither whether the call fails nor its list. */
  lemma OnlyTheSetOfLogsMatters(a: seq<RawLog>, b: seq<RawLog>, known: set<SettlementIdentity>, scope: Scope)
    requires SameLogs(a, b)
    ensures Inconclusive(a, scope) <==> Inconclusive(b, scope)
    ensures Unreconciled(a, known, scope) == Unreconciled(b, known, scope)
  {
    assert Observed(a, scope) == Observed(b, scope);
    assert Missing(a, known, scope) == Missing(b, known, scope);
  }

  /** Recording a returned credit removes exactly that credit from the answer. */
  lemma RecordingShrinksTheGap(logs: seq<RawLog>, known: set<SettlementIdentity>, scope: Scope, c: OnChainCredit)
    requires Unreconciled(logs, known, scope).Some? && c in Unreconciled(logs, known, scope).value
    ensures Unreconciled(logs, known + {c.identity}, scope).Some?
    ensures forall d :: d in Unreconciled(logs, known + {c.identity}, scope).value
                    <==> d in Unreconciled(logs, known, scope).value && d != c
  {
    hide DecodeTransferLog, CreditLess, Arranged, Observe;
    MissingArranged(logs, known, scope);
    MissingArranged(logs, known + {c.identity}, scope);
    forall d | d in Missing(logs, known, scope) && d != c ensures d.identity != c.identity {
      var l :| l in logs && Observe(l, scope) == Ok(c);
      var m :| m in logs && Observe(m, scope) == Ok(d);
      assert !Conflict(l, m, scope);
    }
  }

  // ---------------------------------------------------------------- asset scoping

  function OfAsset(logs: seq<RawLog>, chainId: int, asset: string): (r: seq<RawLog>)
    ensures forall l :: l in r <==> l in logs && DecodeTransferLog(l, chainId).Some?
                                    && DecodeTransferLog(l, chainId).value.identity.asset == asset
  {
    if logs == [] then []
    else
      var rest := OfAsset(logs[1..], chainId, asset);
      match DecodeTransferLog(logs[0], chainId)
      case Some(credit) => if credit.identity.asset == asset then [logs[0]] + rest else rest
      case None => rest
  }

  method ReconcileAssetScoped(transfers: seq<RawLog>, ledgerEntries: set<LedgerEntry>, chainId: int,
                              expectedAsset: string, expectedPayee: Option<string>)
    returns (r: Result<seq<OnChainCredit>, Failure>)
    ensures r.Ok? <==> AssetScoped(transfers, KnownIdentities(ledgerEntries), chainId, expectedAsset, expectedPayee).Some?
    ensures r.Ok? ==> AssetScoped(transfers, KnownIdentities(ledgerEntries), chainId, expectedAsset, expectedPayee) == Some(r.value)
  {
    hide DecodeTransferLog, CreditLess, Arranged, Inconclusive;
    var asset := ExactHex(Str(expectedAsset), 20);
    if asset.None? {
      return Err(BadExpectation);
    }
    var scoped := [];
    for i := 0 to |transfers|
      invariant forall l :: l in transfers[..i] ==> DecodeTransferLog(l, chainId).Some?
      invariant forall l :: l in scoped <==> l in transfers[..i] && DecodeTransferLog(l, chainId).value.identity.asset == asset.value
    {
      assert transfers[..i + 1] == transfers[..i] + [transfers[i]];
      var credit := DecodeTransferLog(transfers[i], chainId);
      if credit.None? {
        assert transfers[i] in transfers;
        return Err(Malformed);
      }
      if credit.value.identity.asset == asset.value {
        scoped := scoped + [transfers[i]];
      }
    }
    assert transfers[..|transfers|] == transfers;
    ExactHexTwice(Str(expectedAsset), 20);
    r := FindUnreconciled(scoped, ledgerEntries, chainId, Some(asset.value), expectedPayee);
    if Expectation(expectedPayee).Ok? {
      var scope := Scope(chainId, asset, Expectation(expectedPayee).value);
      assert SameLogs(scoped, OfAsset(transfers, chainId, asset.value));
      OnlyTheSetOfLogsMatters(scoped, OfAsset(transfers, chainId, asset.value), KnownIdentities(ledgerEntries), scope);
    }
  }

  lemma ExactHexTwice(value: Json, size: nat)
    requires ExactHex(value, size).Some?
    ensures ExactHex(Str(ExactHex(value, size).value), size) == ExactHex(value, size)
  {
    FromHexAcceptsLower(value.s[2..]);
    LowerTwice(value.s);
    assert Lower(value.s)[2..] == Lower(value.s[2..]);
    assert Lower(value.s)[0] == '0' && Lower(value.s)[1] == 'x';
  }

  lemma {:induction false} FromHexAcceptsLower(s: string)
    ensures FromHexAccepts(Lower(s)) <==> FromHexAccepts(s)
    decreases |s|
  {
    if s != "" {
      if IsSpace(s[0]) {
        assert Lower(s)[1..] == Lower(s[1..]);
        FromHexAcceptsLower(s[1..]);
      } else if |s| >= 2 {
        assert Lower(s)[2..] == Lower(s[2..]);
        FromHexAcceptsLower(s[2..]);
      }
    }
  }

  /** reconcile_asset_scoped as a function of the snapshot. */
  ghost function AssetScoped(logs: seq<RawLog>, known: set<SettlementIdentity>, chainId: int, expectedAsset: string,
                             expectedPayee: Option<string>): Option<seq<OnChainCredit>> {
    var asset, payee := ExactHex(Str(expectedAsset), 20), Expectation(expectedPayee);
    if asset.None? || payee.Err? || exists l :: l in logs && DecodeTransferLog(l, chainId).None? then None
    else Unreconciled(OfAsset(logs, chainId, asset.value), known, Scope(chainId, asset, payee.value))
  }

  function CreditsOfAsset(credits: seq<OnChainCredit>, asset: string): (r: seq<OnChainCredit>)
    ensures forall c :: c in r <==> c in credits && c.identity.asset == asset
  {
    if credits == [] then []
    else (if credits[0].identity.asset == asset then [credits[0]] else []) + CreditsOfAsset(credits[1..], asset)
  }

  lemma {:induction false} CreditsOfAssetAscend(credits: seq<OnChainCredit>, asset: string)
    requires Ascending(credits, CreditLess)
    ensures Ascending(CreditsOfAsset(credits, asset), CreditLess)
  {
    if credits != [] {
      CreditsOfAssetAscend(credits[1..], asset);
      var rest := CreditsOfAsset(credits[1..], asset);
      forall c | c in rest ensures CreditLess(credits[0], c) {
        assert c in credits[1..];
      }
    }
  }

  /** Whenever the unscoped call succeeds, scoping to an asset just filters its list. */
  lemma ScopingFilters(logs: seq<RawLog>, known: set<SettlementIdentity>, chainId: int, expectedAsset: string, expectedPayee: Option<string>)
    requires ExactHex(Str(expectedAsset), 20).Some? && Expectation(expectedPayee).Ok?
    requires Unreconciled(logs, known, Scope(chainId, None, Expectation(expectedPayee).value)).Some?
    ensures AssetScoped(logs, known, chainId, expectedAsset, expectedPayee)
         == Some(CreditsOfAsset(Unreconciled(logs, known, Scope(chainId, None, Expectation(expectedPayee).value)).value,
                                ExactHex(Str(expectedAsset), 20).value))
  {
    hide DecodeTransferLog, ExactHex, CreditLess, Arranged, Expectation;
    var asset := ExactHex(Str(expectedAsset), 20).value;
    var wide := Scope(chainId, None, Expectation(expectedPayee).value);
    var narrow := Scope(chainId, Some(asset), Expectation(expectedPayee).value);
    var scoped := OfAsset(logs, chainId, asset);
    forall l | l in logs ensures DecodeTransferLog(l, chainId).Some? {
      assert Observe(l, wide).Ok?;
    }
    forall l | l in scoped ensures Observe(l, narrow) == Observe(l, wide) {
    }
    assert !Inconclusive(scoped, narrow) by {
      forall l, m | l in scoped && m in scoped ensures !Conflict(l, m, narrow) {
        assert !Conflict(l, m, wide);
      }
    }
    MissingArranged(logs, known, wide);
    var r := CreditsOfAsset(Unreconciled(logs, known, wide).value, asset);
    CreditsOfAssetAscend(Unreconciled(logs, known, wide).value, asset);
    forall c ensures c in r <==> c in Missing(scoped, known, narrow) {
      if c in r {
        var l :| l in logs && Observe(l, wide) == Ok(c);
        assert l in scoped;
      }
    }
    AnswerUnique(scoped, known, narrow, r);
  }

  /** Whenever the strict asset-checked call succeeds, it and the scoped call agree. */
  lemma ScopingAgreesWithStrict(logs: seq<RawLog>, known: set<SettlementIdentity>, chainId: int, expectedAsset: string, expectedPayee: Option<string>)
    requires ExactHex(Str(expectedAsset), 20).Some? && Expectation(expectedPayee).Ok?
    requires Unreconciled(logs, known, Scope(chainId, ExactHex(Str(expectedAsset), 20), Expectation(expectedPayee).value)).Some?
    ensures AssetScoped(logs, known, chainId, expectedAsset, expectedPayee)
         == Unreconciled(logs, known, Scope(chainId, ExactHex(Str(expectedAsset), 20), Expectation(expectedPayee).value))
  {
    var asset := ExactHex(Str(expectedAsset), 20).value;
    var strict := Scope(chainId, Some(asset), Expectation(expectedPayee).value);
    forall l | l in logs ensures DecodeTransferLog(l, chainId).Some? && l in OfAsset(logs, chainId, asset) {
      assert Observe(l, strict).Ok?;
    }
    OnlyTheSetOfLogsMatters(logs, OfAsset(logs, chainId, asset), known, strict);
  }

  /** Scoping to a credit's own asset returns it. */
  lemma OwnAssetReturnsCredit(logs: seq<RawLog>, known: set<SettlementIdentity>, chainId: int, expectedPayee: Option<string>, c: OnChainCredit)
    requires Expectation(expectedPayee).Ok?
    requires Unreconciled(logs, known, Scope(chainId, None, Expectation(expectedPayee).value)).Some?
    requires c in Unreconciled(logs, known, Scope(chainId, None, Expectation(expectedPayee).value)).value
    ensures AssetScoped(logs, known, chainId, c.identity.asset, expectedPayee).Some?
    ensures c in AssetScoped(logs, known, chainId, c.identity.asset, expectedPayee).value
  {
    var wide := Scope(chainId, None, Expectation(expectedPayee).value);
    MissingArranged(logs, known, wide);
    var l :| l in logs && Observe(l, wide) == Ok(c);
    DecodedAssetIsExact(l, chainId);
    hide DecodeTransferLog, ExactHex, CreditLess, Unreconciled, AssetScoped;
    ScopingFilters(logs, known, chainId, c.identity.asset, expectedPayee);
  }

  lemma DecodedAssetIsExact(l: RawLog, chainId: int)
    requires DecodeTransferLog(l, chainId).Some?
    ensures var asset := DecodeTransferLog(l, chainId).value.identity.asset;
            ExactHex(Str(asset), 20) == Some(asset)
  {
    ExactHexTwice(l.address, 20);
  }

  /** The scoped lists over all assets partition the unscoped one: each credit is in the list of its asset and no other. */
  lemma ScopedListsPartition(logs: seq<RawLog>, known: set<SettlementIdentity>, chainId: int, expectedPayee: Option<string>, c: OnChainCredit)
    requires Expectation(expectedPayee).Ok?
    requires Unreconciled(logs, known, Scope(chainId, None, Expectation(expectedPayee).value)).Some?
    ensures c in Unreconciled(logs, known, Scope(chainId, None, Expectation(expectedPayee).value)).value
       <==> && AssetScoped(logs, known, chainId, c.identity.asset, expectedPayee).Some?
            && c in AssetScoped(logs, known, chainId, c.identity.asset, expectedPayee).value
    ensures forall a :: AssetScoped(logs, known, chainId, a, expectedPayee).Some? && c in AssetScoped(logs, known, chainId, a, expectedPayee).value
                    ==> ExactHex(Str(a), 20) == Some(c.identity.asset)
  {
    var wide := Scope(chainId, None, Expectation(expectedPayee).value);
    hide DecodeTransferLog, CreditLess, Unreconciled;
    if c in Unreconciled(logs, known, wide).value {
      OwnAssetReturnsCredit(logs, known, chainId, expectedPayee, c);
    }
    forall a | && AssetScoped(logs, known, chainId, a, expectedPayee).Some?
               && c in AssetScoped(logs, known, chainId, a, expectedPayee).value
      ensures c in Unreconciled(logs, known, wide).value && ExactHex(Str(a), 20) == Some(c.identity.asset)
    {
      ScopingFilters(logs, known, chainId, a, expectedPayee);
    }
  }

  // ---------------------------------------------------------------- truthful logs decode to the credits they record

  ghost function CreditOf(token: Address, chainId: int, l: C.LogEntry): OnChainCredit
    requires l.event.Transfer? && l.block <= UINT256_MAX && l.index <= UINT256_MAX
  {
    OnChainCredit(
      SettlementIdentity(chainId, HexAddress(token), HexWord(l.tx), l.index),
      HexWord(l.blockHash), l.block, HexAddress(l.event.from), HexAddress(l.event.to), l.event.value, false)
  }

  lemma ExactHexOfAddress(a: Address)
    ensures ExactHex(Str(HexAddress(a)), 20) == Some(HexAddress(a))
  {
    HexAddressShape(a);
    FromHexAcceptsPairs(HexAddress(a)[2..]);
    assert StartsWith(HexAddress(a), "0x");
  }

  lemma ExactHexOfWord(n: Uint256)
    ensures ExactHex(Str(HexWord(n)), 32) == Some(HexWord(n))
  {
    HexWordShape(n);
    FromHexAcceptsPairs(HexWord(n)[2..]);
    assert StartsWith(HexWord(n), "0x");
  }

  lemma QuantityOfHex(n: Uint256)
    ensures Quantity(Str(HexQuantity(n))) == Some(n)
  {
    HexQuantityShape(n);
    var s := HexQuantity(n)[2..];
    assert HexQuantity(n) == "0x" + s;
    assert StartsWith(HexQuantity(n), "0x");
    IntOfBareHex(s);
  }

  /** Plain hex digits without a prefix read the same way, unless they start like a prefix. */
  lemma IntOfBareHex(s: string)
    requires AllDigits(s, 16) && s != ""
    ensures IntOfHex(s) == Some(Value(s, 16))
  {
    DigitsAreNotSpace(s[0]);
    DigitsAreNotSpace(s[|s| - 1]);
    assert Strip(s) == s;
    assert !StartsWith(s, "-") && !StartsWith(s, "+");
    assert !StartsWith(s, "0x") && !StartsWith(s, "0X") by {
      if |s| >= 2 {
        assert IsDigit(s[1], 16);
      }
    }
    assert forall i :: 0 <= i < |s| ==> s[i] != '_';
    WithoutNothing(s, '_');
  }

  lemma AddressOfTopicOfAddress(a: Address)
    ensures AddressOfTopic(Str(AddressTopic(a))) == Some(HexAddress(a))
    ensures TopicOfAddress(HexAddress(a)) == Some(AddressTopic(a))
  {
    ExactHexOfWord(a);
    ExactHexOfAddress(a);
    AddressTopicShape(a);
    PaddedZero(16, 24);
    assert Padded(0, 16, 24) == seq(24, _ => '0');
  }

  /** Decoding the honest encoding of a Transfer gives back the transfer. */
  lemma DecodeOfTransfer(token: Address, chainId: int, l: C.LogEntry)
    requires chainId > 0 && l.event.Transfer? && l.block <= UINT256_MAX && l.index <= UINT256_MAX
    ensures DecodeTransferLog(EncodeLog(token, l), chainId) == Some(CreditOf(token, chainId, l))
  {
    HexWordShape(l.event.value);
    assert HexWord(l.event.value) == "0x" + HexWord(l.event.value)[2..];
    IntOfPlainHex(HexWord(l.event.value)[2..]);
    hide HexWord, HexAddress, HexQuantity, ExactHex, Quantity, AddressOfTopic, IntOfHex, Value;
    ExactHexOfAddress(token);
    ExactHexOfWord(l.tx);
    ExactHexOfWord(l.blockHash);
    ExactHexOfWord(TRANSFER_HASH);
    ExactHexOfWord(l.event.value);
    QuantityOfHex(l.block);
    QuantityOfHex(l.index);
    AddressOfTopicOfAddress(l.event.from);
    AddressOfTopicOfAddress(l.event.to);
  }

  /** No other event of the token decodes as a Transfer. */
  lemma DecodeOfOther(token: Address, chainId: int, l: C.LogEntry)
    requires !l.event.Transfer?
    ensures DecodeTransferLog(EncodeLog(token, l), chainId) == None
  {
    TopicsDiffer();
    ExactHexOfWord(TRANSFER_V2_HASH);
    ExactHexOfWord(AUTHORIZATION_USED_HASH);
    hide ExactHex, HexWord, AddressOfTopic, Quantity;
  }
}
