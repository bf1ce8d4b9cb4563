/**
 The strict chain oracle (src/psv/rails.py): one settlement proved from one receipt and one pinned block.

 Observation holds the answers of the RPC reads one call makes. Rail registry lookups and runtime-code
 fingerprints enter as the outcome of their own check.
 */
module Rails {
  import opened Common
  import opened Numerals
  import opened Json
  import opened Evidence
  import opened Divergence
  import R = Reconciliation

  datatype RawBlock = RawBlock(number: Json, hash: Json)

  datatype Rail = Rail(tokenAddress: string, chainId: int, mainnet: bool, calibrated: bool, minimumConfirmations: int)

  datatype Request = Request(
    token: string, payer: string, payee: string, nonce: string, txHash: string, logIndex: int,
    requiredAmount: int, payerBefore: int, payeeBefore: int, believesPaid: bool)

  datatype Observation = Observation(
    chainId: int,
    anchorHolds: bool,            // a calibrated rail's reviewed block is still canonical
    finality: RawBlock, receipt: RawReceipt, canonical: RawBlock,
    codeMatches: bool,            // token and proxy implementation run the attested code
    payerParent: nat, payeeParent: nat, payerAfter: nat, payeeAfter: nat, nonceConsumed: bool,
    inbound: seq<RawLog>, outbound: seq<RawLog>,
    receiptAfter: RawReceipt, canonicalAfter: RawBlock)

  datatype Failure =
    | TokenMismatch | BadInput | WrongChain | Uncalibrated | Malformed | WrongReceipt | NotConfirmed | NotCanonical
    | CodeDrift | GenesisBlock | BeforeMismatch | BadTransfer | BadAuthorization | NonceUnset | SameBlockRace
    | Unattributable | SpentElsewhere | Reorged

  // ---------------------------------------------------------------- scalar decoders

  /** Exactly `size` bytes of 0x-prefixed hex. */
  predicate IsHexText(s: string, size: nat) {
    |s| == 2 + 2 * size && s[..2] == "0x" && AllDigits(s[2..], 16)
  }

  /** A canonical JSON-RPC quantity: no leading zeros, nothing but digits. */
  function Quantity(value: Json): Option<nat> {
    if value.Str? && |value.s| > 2 && value.s[..2] == "0x" && AllDigits(value.s[2..], 16) && (value.s == "0x0" || value.s[2] != '0')
    then Some(Value(value.s[2..], 16)) else None
  }

  function ExactHash(value: Json): Option<string> {
    if value.Str? && IsHexText(value.s, 32) then Some(Lower(value.s)) else None
  }

  function BlockIdentity(block: RawBlock): Option<(nat, string)> {
    match (Quantity(block.number), ExactHash(block.hash))
    case (Some(number), Some(hash)) => Some((number, hash))
    case _ => None
  }

  // ---------------------------------------------------------------- the receipt's two logs

  /** The logs of a receipt that pass a test, in order. */
  function Matching(logs: seq<Option<RawLog>>, test: RawLog -> bool): seq<RawLog> {
    if logs == [] then []
    else
      var last := logs[|logs| - 1];
      Matching(logs[..|logs| - 1], test) + (if last.Some? && test(last.value) then [last.value] else [])
  }

  predicate FromToken(log: RawLog, token: string) { log.address.Str? && Lower(log.address.s) == Lower(token) }

  function PaddedTopic(address: string): string { "0x" + seq(24, _ => '0') + (if |address| >= 2 then Lower(address)[2..] else "") }

  predicate IsAuthorization(log: RawLog, token: string, payer: string, nonce: string) {
    && FromToken(log, token)
    && log.topics == Arr([Str(TOPIC_AUTHORIZATION_USED), Str(PaddedTopic(payer)), Str(Lower(nonce))])
  }

  /** The index of the one AuthorizationUsed log for this payer and nonce; None where the source raises. */
  function AuthorizationIndex(logs: seq<Option<RawLog>>, token: string, payer: string, nonce: string): Option<nat> {
    var found := Matching(logs, (l: RawLog) => IsAuthorization(l, token, payer, nonce));
    if None in logs || |found| != 1 || found[0].removed != Bool(false) then None else Quantity(found[0].logIndex)
  }

  method AuthorizationLogIndex(logs: seq<Option<RawLog>>, token: string, payer: string, nonce: string) returns (r: Option<nat>)
    ensures r == AuthorizationIndex(logs, token, payer, nonce)
  {
    hide IsAuthorization, Quantity;
    var matches: seq<nat> := [];
    ghost var test := (l: RawLog) => IsAuthorization(l, token, payer, nonce);
    for i := 0 to |logs|
      invariant None !in logs[..i]
      invariant |matches| == |Matching(logs[..i], test)|
      invariant forall k :: 0 <= k < |matches| ==>
                  && Matching(logs[..i], test)[k].removed == Bool(false)
                  && Quantity(Matching(logs[..i], test)[k].logIndex) == Some(matches[k])
    {
      assert logs[..i + 1][..i] == logs[..i] && logs[..i + 1][i] == logs[i];
      if logs[i].None? {
        return None;
      }
      var log := logs[i].value;
      if IsAuthorization(log, token, payer, nonce) {
        if log.removed != Bool(false) || Quantity(log.logIndex).None? {
          MatchingKeeps(logs, i, test);
          return None;
        }
        matches := matches + [Quantity(log.logIndex).value];
      }
    }
    assert logs[..|logs|] == logs;
    return if |matches| == 1 then Some(matches[0]) else None;
  }

  /** The credit of the one log at the requested index; None where the source raises. */
  function SelectedCredit(logs: seq<Option<RawLog>>, chainId: int, logIndex: int, token: string): Option<R.OnChainCredit> {
    var found := Matching(logs, (l: RawLog) => Quantity(l.logIndex) == Some(logIndex));
    if (exists l :: l in logs && (l.None? || Quantity(l.value.logIndex).None?)) || |found| != 1 then None
    else
      match R.DecodeTransferLog(found[0], chainId)
      case Some(credit) => if credit.identity.asset == Lower(token) then Some(credit) else None
      case None => None
  }

  method SelectedTransfer(logs: seq<Option<RawLog>>, chainId: int, logIndex: int, token: string) returns (r: Option<R.OnChainCredit>)
    ensures r == SelectedCredit(logs, chainId, logIndex, token)
  {
    hide R.DecodeTransferLog, Quantity;
    var selected: seq<RawLog> := [];
    for i := 0 to |logs|
      invariant forall l :: l in logs[..i] ==> l.Some? && Quantity(l.value.logIndex).Some?
      invariant selected == Matching(logs[..i], (l: RawLog) => Quantity(l.logIndex) == Some(logIndex))
    {
      assert logs[..i + 1][..i] == logs[..i] && logs[..i + 1][i] == logs[i];
      assert logs[i] in logs;
      if logs[i].None? || Quantity(logs[i].value.logIndex).None? {
        return None;
      }
      if Quantity(logs[i].value.logIndex).value == logIndex {
        selected := selected + [logs[i].value];
      }
    }
    assert logs[..|logs|] == logs;
    if |selected| != 1 {
      return None;
    }
    var credit := R.DecodeTransferLog(selected[0], chainId);
    return if credit.Some? && credit.value.identity.asset == Lower(token) then credit else None;
  }

  lemma {:induction false} MatchingKeeps(logs: seq<Option<RawLog>>, i: nat, test: RawLog -> bool)
    requires i < |logs| && logs[i].Some? && test(logs[i].value)
    ensures logs[i].value in Matching(logs, test)
  {
    if i < |logs| - 1 {
      MatchingKeeps(logs[..|logs| - 1], i, test);
    }
  }

  lemma {:induction false} MatchingOrigin(logs: seq<Option<RawLog>>, test: RawLog -> bool, l: RawLog) returns (i: nat)
    requires l in Matching(logs, test)
    ensures i < |logs| && logs[i] == Some(l) && test(l)
  {
    if l in Matching(logs[..|logs| - 1], test) {
      i := MatchingOrigin(logs[..|logs| - 1], test, l);
    } else {
      i := |logs| - 1;
    }
  }

  /** Exactly one log passes: every other position fails the test. */
  lemma {:induction false} MatchingOne(logs: seq<Option<RawLog>>, test: RawLog -> bool, i: nat, j: nat)
    requires |Matching(logs, test)| == 1 && i < |logs| && j < |logs|
    requires logs[i].Some? && test(logs[i].value) && logs[j].Some? && test(logs[j].value)
    ensures i == j
  {
    var init := logs[..|logs| - 1];
    if i < |init| && j < |init| {
      MatchingKeeps(init, i, test);
      MatchingOne(init, test, i, j);
    } else if i < |init| {
      MatchingKeeps(init, i, test);
    } else if j < |init| {
      MatchingKeeps(init, j, test);
    }
  }

  // ---------------------------------------------------------------- the same-block race

  /** Every Transfer out of the payer or into the payee in the block is the selected one. */
  predicate RaceFree(logs: seq<RawLog>, chainId: int, credit: R.OnChainCredit) {
    && logs != []
    && forall l :: l in logs ==>
         match R.DecodeTransferLog(l, chainId)
         case Some(seen) =>
           !seen.removed && seen.identity.txHash == credit.identity.txHash && seen.identity.logIndex == credit.identity.logIndex
         case None => false
  }

  method EnsureNoSameBlockRace(inbound: seq<RawLog>, outbound: seq<RawLog>, chainId: int, credit: R.OnChainCredit) returns (ok: bool)
    ensures ok <==> RaceFree(inbound + outbound, chainId, credit)
  {
    hide R.DecodeTransferLog;
    var logs := inbound + outbound;
    var identities: set<(string, nat)> := {};
    for i := 0 to |logs|
      invariant forall k :: 0 <= k < i ==>
                  var seen := R.DecodeTransferLog(logs[k], chainId);
                  seen.Some? && !seen.value.removed && (seen.value.identity.txHash, seen.value.identity.logIndex) in identities
      invariant forall p :: p in identities ==>
                  exists k :: 0 <= k < i && var seen := R.DecodeTransferLog(logs[k], chainId);
                              seen.Some? && (seen.value.identity.txHash, seen.value.identity.logIndex) == p
    {
      var observed := R.DecodeTransferLog(logs[i], chainId);
      assert logs[i] in logs;
      if observed.None? || observed.value.removed {
        return false;
      }
      identities := identities + {(observed.value.identity.txHash, observed.value.identity.logIndex)};
    }
    var wanted := (credit.identity.txHash, credit.identity.logIndex);
    ok := identities == {wanted};
    if ok {
      assert wanted in identities;
    } else if logs != [] {
      ghost var first := R.DecodeTransferLog(logs[0], chainId).value;
      assert (first.identity.txHash, first.identity.logIndex) in identities;
      ghost var p :| p in identities && p != wanted;
      ghost var k :| 0 <= k < |logs| && var seen := R.DecodeTransferLog(logs[k], chainId);
                     seen.Some? && (seen.value.identity.txHash, seen.value.identity.logIndex) == p;
      assert logs[k] in logs;
    }
  }

  // ---------------------------------------------------------------- reconcile_live

  /** The settlement block a receipt was confirmed in. */
  datatype Settlement = Settlement(number: nat, hash: string, status: nat, confirmations: int)

  predicate InRange(q: Request) {
    && 0 <= q.logIndex <= UINT256_MAX && 1 <= q.requiredAmount <= UINT256_MAX
    && 0 <= q.payerBefore <= UINT256_MAX && 0 <= q.payeeBefore <= UINT256_MAX
  }

  /** Every check before the receipt's status decides the branch. */
  function Preflight(rail: Rail, q: Request, o: Observation): Result<Settlement, Failure> {
    if Lower(q.token) != Lower(rail.tokenAddress) then Err(TokenMismatch)
    else if !IsHexText(q.txHash, 32) || !IsHexText(q.nonce, 32) || !InRange(q) then Err(BadInput)
    else if o.chainId != rail.chainId then Err(WrongChain)
    else if (rail.mainnet && !rail.calibrated) || !o.anchorHolds then Err(Uncalibrated)
    else
      var finality, tx := BlockIdentity(o.finality), ExactHash(o.receipt.transactionHash);
      var number, hash, status := Quantity(o.receipt.blockNumber), ExactHash(o.receipt.blockHash), Quantity(o.receipt.status);
      if finality.None? || tx.None? || number.None? || hash.None? || status.None? then Err(Malformed)
      else
        var confirmations := finality.value.0 - number.value + 1;
        if tx.value != Lower(q.txHash) then Err(WrongReceipt)
        else if confirmations < rail.minimumConfirmations then Err(NotConfirmed)
        else if BlockIdentity(o.canonical) != Some((number.value, hash.value)) then Err(NotCanonical)
        else if !o.codeMatches then Err(CodeDrift)
        else if number.value == 0 then Err(GenesisBlock)
        else if !IsHexText(q.payer, 20) || !IsHexText(q.payee, 20) then Err(BadInput)
        else if q.payerBefore != o.payerParent || q.payeeBefore != o.payeeParent then Err(BeforeMismatch)
        else Ok(Settlement(number.value, hash.value, status.value, confirmations))
  }

  /** The selected Transfer is the requested payment. */
  predicate IsRequested(credit: R.OnChainCredit, q: Request, s: Settlement) {
    && !credit.removed
    && credit.identity.txHash == Lower(q.txHash) && credit.blockHash == s.hash && credit.blockNumber == s.number
    && credit.payer == Lower(q.payer) && credit.payee == Lower(q.payee)
  }

  /** The balance changes are those of one transfer of this value. */
  predicate Attributable(value: nat, o: Observation) {
    && o.payerParent - o.payerAfter == value
    && 0 < o.payeeAfter - o.payeeParent <= value
  }

  datatype Proof = Proof(credit: R.OnChainCredit, authorizationIndex: nat)

  /** The status-1 branch. */
  function ProveTransfer(q: Request, o: Observation, s: Settlement): Result<Proof, Failure> {
    if o.receipt.logs.None? then Err(BadTransfer)
    else
      match SelectedCredit(o.receipt.logs.value, o.chainId, q.logIndex, q.token)
      case None => Err(BadTransfer)
      case Some(credit) =>
        if !IsRequested(credit, q, s) then Err(BadTransfer)
        else
          match AuthorizationIndex(o.receipt.logs.value, q.token, q.payer, q.nonce)
          case None => Err(BadAuthorization)
          case Some(index) =>
            if !o.nonceConsumed then Err(NonceUnset)
            else if !RaceFree(o.inbound + o.outbound, o.chainId, credit) then Err(SameBlockRace)
            else if !Attributable(credit.value, o) then Err(Unattributable)
            else Ok(Proof(credit, index))
  }

  predicate Rechecked(o: Observation, s: Settlement) {
    && BlockIdentity(o.canonicalAfter).Some?
    && ExactHash(o.receiptAfter.blockHash) == Some(s.hash)
    && BlockIdentity(o.canonicalAfter).value.1 == s.hash
  }

  datatype LiveReconciliation = LiveReconciliation(
    kind: Kind, settlement: Settlement, logIndex: Option<nat>, authorizationLogIndex: Option<nat>,
    eventValue: Option<nat>, receivedAmount: int)

  /** The verdict as a function of what was asked and observed. */
  function Verdict(rail: Rail, q: Request, o: Observation): Result<LiveReconciliation, Failure> {
    match Preflight(rail, q, o)
    case Err(e) => Err(e)
    case Ok(s) =>
      if s.status == 1 then
        match ProveTransfer(q, o, s)
        case Err(e) => Err(e)
        case Ok(proof) =>
          if !Rechecked(o, s) then Err(Reorged)
          else
            var truth := SettlementTruth(true, o.payerAfter, o.payeeAfter, o.payerAfter - o.payerParent, o.payeeAfter - o.payeeParent);
            Ok(LiveReconciliation(
              DetectPayment(truth, q.believesPaid, Some(q.requiredAmount)), s, Some(proof.credit.identity.logIndex),
              Some(proof.authorizationIndex), Some(proof.credit.value), o.payeeAfter - o.payeeParent))
      else if o.nonceConsumed then Err(SpentElsewhere)
      else if !Rechecked(o, s) then Err(Reorged)
      else
        var truth := SettlementTruth(false, o.payerAfter, o.payeeAfter, 0, 0);
        Ok(LiveReconciliation(DetectPayment(truth, q.believesPaid, Some(q.requiredAmount)), s, None, None, None, 0))
  }

  method ReconcileLive(rail: Rail, q: Request, o: Observation) returns (r: Result<LiveReconciliation, Failure>)
    ensures r == Verdict(rail, q, o)
  {
    hide Preflight, AuthorizationIndex, SelectedCredit, RaceFree, IsRequested, Rechecked, DetectPayment;
    var preflight := Preflight(rail, q, o);
    if preflight.Err? {
      return Err(preflight.error);
    }
    var s := preflight.value;
    var selected: Option<R.OnChainCredit>, authorization: Option<nat>, value: Option<nat>, received := None, None, None, 0;
    var truth;
    if s.status == 1 {
      if o.receipt.logs.None? {
        return Err(BadTransfer);
      }
      selected := SelectedTransfer(o.receipt.logs.value, o.chainId, q.logIndex, q.token);
      if selected.None? || !IsRequested(selected.value, q, s) {
        return Err(BadTransfer);
      }
      authorization := AuthorizationLogIndex(o.receipt.logs.value, q.token, q.payer, q.nonce);
      if authorization.None? {
        return Err(BadAuthorization);
      }
      if !o.nonceConsumed {
        return Err(NonceUnset);
      }
      var raceFree := EnsureNoSameBlockRace(o.inbound, o.outbound, o.chainId, selected.value);
      if !raceFree {
        return Err(SameBlockRace);
      }
      value := Some(selected.value.value);
      var payerDelta := o.payerAfter - o.payerParent;
      received := o.payeeAfter - o.payeeParent;
      if payerDelta != 0 - value.value || !(0 < received <= value.value) {
        return Err(Unattributable);
      }
      truth := SettlementTruth(true, o.payerAfter, o.payeeAfter, payerDelta, received);
    } else {
      if o.nonceConsumed {
        return Err(SpentElsewhere);
      }
      truth := SettlementTruth(false, o.payerAfter, o.payeeAfter, 0, 0);
    }
    if !Rechecked(o, s) {
      return Err(Reorged);
    }
    return Ok(LiveReconciliation(
                DetectPayment(truth, q.believesPaid, Some(q.requiredAmount)), s,
                if selected.Some? then Some(selected.value.identity.logIndex) else None, authorization, value, received));
  }

  /** The shape of every verdict: what the oracle grades is what it proved. */
  lemma VerdictGrades(rail: Rail, q: Request, o: Observation)
    requires Verdict(rail, q, o).Ok?
    ensures var v := Verdict(rail, q, o).value;
            && (v.kind.ConsistentPaid? <==> v.settlement.status == 1 && q.believesPaid && v.receivedAmount >= q.requiredAmount)
            && (v.kind.ConsistentUnpaid? <==> v.settlement.status != 1 && !q.believesPaid)
            && (v.kind.SilentLoss? <==> v.settlement.status == 1 && !q.believesPaid)
            && (v.kind.PhantomCredit? <==> v.settlement.status != 1 && q.believesPaid)
  {
    hide Preflight, AuthorizationIndex, SelectedCredit, RaceFree, IsRequested, Rechecked;
  }
}
