/**
 What the strict oracle checks on arbitrary answers, truthful or not, field by field: every accepted verdict carries
 all of it, and answers that carry all of it are accepted. A node that lies, reorganizes during the call, or answers in
 malformed text gets no verdict unless each of these facts holds of its answers.
 */
module OracleChecks {
  import opened Common
  import opened Numerals
  import opened Json
  import opened Evidence
  import opened Divergence
  import opened Rails
  import R = Reconciliation

  // ---------------------------------------------------------------- the texts, by what they spell

  /** The canonical quantity n, in any letter case. */
  predicate Spells(j: Json, n: nat) {
    j.Str? && |j.s| > 2 && j.s[..2] == "0x" && Lower(j.s[2..]) == Numeral(n, 16)
  }

  /** A 32-byte hash, in any letter case. */
  predicate Hash32(j: Json, hash: string) {
    j.Str? && |j.s| == 66 && j.s[..2] == "0x" && AllDigits(j.s[2..], 16) && Lower(j.s) == hash
  }

  lemma NumeralSnoc(v: nat, d: nat)
    requires v > 0 && d < 16
    ensures Numeral(16 * v + d, 16) == Numeral(v, 16) + [Digit(d)]
  {
    assert (16 * v + d) / 16 == v && (16 * v + d) % 16 == d;
  }

  lemma NumeralOfDigit(c: char)
    requires IsDigit(c, 16)
    ensures Numeral(Value([c], 16), 16) == [LowerChar(c)]
  {
    DigitRange(c, 16);
    ValueSnoc("", c, 16);
    assert "" + [c] == [c];
  }

  lemma NumeralOfMore(init: string, c: char)
    requires IsDigit(c, 16) && Value(init, 16) > 0 && Numeral(Value(init, 16), 16) == Lower(init)
    ensures Numeral(Value(init + [c], 16), 16) == Lower(init + [c])
  {
    hide Numeral, Value;
    DigitRange(c, 16);
    ValueSnoc(init, c, 16);
    NumeralSnoc(Value(init, 16), DigitValue(c));
    hide IsDigit, DigitValue, LowerChar, Digit;
    assert Lower(init + [c]) == Lower(init) + [LowerChar(c)];
  }

  lemma {:induction false} NumeralOfDigits(s: string)
    requires AllDigits(s, 16) && s != "" && (s == "0" || s[0] != '0')
    ensures Numeral(Value(s, 16), 16) == Lower(s)
    decreases |s|
  {
    hide Numeral, Value, IsDigit;
    var init, c := s[..|s| - 1], s[|s| - 1];
    if init == "" {
      NumeralOfDigit(c);
      assert s == [c];
      assert Lower(s) == [LowerChar(c)];
    } else {
      assert init[0] == s[0];
      NumeralOfDigits(init);
      LeadingDigit(init);
      NumeralOfMore(init, c);
      assert s == init + [c];
    }
  }

  lemma {:induction false} LeadingDigit(s: string)
    requires AllDigits(s, 16) && s != "" && s[0] != '0'
    ensures Value(s, 16) > 0
    decreases |s|
  {
    if |s| > 1 {
      LeadingDigit(s[..|s| - 1]);
    } else {
      DigitRange(s[0], 16);
      assert Value(s[..0], 16) == 0;
    }
  }

  lemma DigitsOfLower(s: string)
    requires AllDigits(Lower(s), 16)
    ensures AllDigits(s, 16)
  {
    forall i | 0 <= i < |s| ensures IsDigit(s[i], 16) {
      assert IsDigit(Lower(s)[i], 16);
    }
  }

  lemma QuantityReads(j: Json, n: nat)
    ensures Quantity(j) == Some(n) <==> Spells(j, n)
  {
    NumeralShape(n, 16);
    hide Numeral;
    if Quantity(j) == Some(n) {
      assert j.s == "0x0" ==> j.s[2..] == "0";
      NumeralOfDigits(j.s[2..]);
    }
    if Spells(j, n) {
      var digits := j.s[2..];
      DigitsOfLower(digits);
      ValueLower(digits);
      if n > 0 {
        assert Lower(digits)[0] == Numeral(n, 16)[0] != '0';
      } else {
        ZeroNumeral();
        assert |digits| == 1 && Lower(digits)[0] == '0';
        assert j.s == j.s[..2] + digits && digits == "0";
      }
    }
  }

  lemma ZeroNumeral()
    ensures Numeral(0, 16) == "0"
  {
    assert Digit(0) == '0';
  }

  lemma HashReads(j: Json, hash: string)
    ensures ExactHash(j) == Some(hash) <==> Hash32(j, hash)
  {
  }

  ghost predicate Readable(j: Json) { exists n: nat :: Spells(j, n) }

  lemma ReadableMeans(j: Json)
    ensures Readable(j) <==> Quantity(j).Some?
  {
    hide Quantity, Spells;
    if Quantity(j).Some? {
      QuantityReads(j, Quantity(j).value);
    }
    if Readable(j) {
      var n: nat :| Spells(j, n);
      QuantityReads(j, n);
    }
  }

  // ---------------------------------------------------------------- exactly one log

  /** Position k holds a log that passes the test. */
  ghost predicate Hit(logs: seq<Option<RawLog>>, test: RawLog -> bool, k: nat) {
    k < |logs| && logs[k].Some? && test(logs[k].value)
  }

  lemma OneMatch(logs: seq<Option<RawLog>>, test: RawLog -> bool) returns (i: nat)
    requires |Matching(logs, test)| == 1
    ensures Hit(logs, test, i) && Matching(logs, test) == [logs[i].value]
    ensures forall k: nat :: Hit(logs, test, k) ==> k == i
  {
    var l := Matching(logs, test)[0];
    i := MatchingOrigin(logs, test, l);
    forall k: nat | Hit(logs, test, k) ensures k == i {
      MatchingOne(logs, test, i, k);
    }
  }

  lemma {:induction false} NoMatch(logs: seq<Option<RawLog>>, test: RawLog -> bool)
    requires forall k: nat :: !Hit(logs, test, k)
    ensures Matching(logs, test) == []
  {
    if logs != [] {
      var init := logs[..|logs| - 1];
      forall k: nat ensures !Hit(init, test, k) {
        assert Hit(init, test, k) ==> Hit(logs, test, k);
      }
      NoMatch(init, test);
      assert !Hit(logs, test, |logs| - 1);
    }
  }

  lemma {:induction false} UniqueMatches(logs: seq<Option<RawLog>>, test: RawLog -> bool, i: nat)
    requires Hit(logs, test, i) && forall k: nat :: Hit(logs, test, k) ==> k == i
    ensures Matching(logs, test) == [logs[i].value]
  {
    var init := logs[..|logs| - 1];
    forall k: nat ensures Hit(init, test, k) <==> Hit(logs, test, k) && k < |logs| - 1 {
    }
    if i == |logs| - 1 {
      NoMatch(init, test);
    } else {
      UniqueMatches(init, test, i);
      assert !Hit(logs, test, |logs| - 1);
    }
  }

  // ---------------------------------------------------------------- what an accepted verdict rests on

  /** The witnesses of an accepted verdict. */
  datatype Facts = Facts(
    top: nat, topHash: string, number: nat, hash: string, status: nat, numberAfter: nat,
    i: nat, credit: R.OnChainCredit, j: nat, authorizationIndex: nat)

  ghost predicate RequestChecked(rail: Rail, q: Request) {
    && Lower(q.token) == Lower(rail.tokenAddress)
    && IsHexText(q.txHash, 32) && IsHexText(q.nonce, 32) && IsHexText(q.payer, 20) && IsHexText(q.payee, 20)
    && 0 <= q.logIndex <= UINT256_MAX && 0 < q.requiredAmount <= UINT256_MAX
    && 0 <= q.payerBefore <= UINT256_MAX && 0 <= q.payeeBefore <= UINT256_MAX
  }

  /** Chain, anchor, code and attestation. */
  ghost predicate RailChecked(rail: Rail, o: Observation) {
    o.chainId == rail.chainId && (rail.mainnet ==> rail.calibrated) && o.anchorHolds && o.codeMatches
  }

  /** Receipt and block, before and after, name one block by one hash; deep enough and not the genesis block. */
  ghost predicate BlockChecked(rail: Rail, q: Request, o: Observation, f: Facts) {
    && Spells(o.finality.number, f.top) && Hash32(o.finality.hash, f.topHash)
    && Hash32(o.receipt.transactionHash, Lower(q.txHash)) && Spells(o.receipt.status, f.status)
    && Spells(o.receipt.blockNumber, f.number) && Spells(o.canonical.number, f.number) && f.number > 0
    && Hash32(o.receipt.blockHash, f.hash) && Hash32(o.canonical.hash, f.hash)
    && Hash32(o.receiptAfter.blockHash, f.hash) && Hash32(o.canonicalAfter.hash, f.hash) && Spells(o.canonicalAfter.number, f.numberAfter)
    && f.top - f.number + 1 >= rail.minimumConfirmations
  }

  ghost predicate ParentChecked(q: Request, o: Observation) {
    q.payerBefore == o.payerParent && q.payeeBefore == o.payeeParent
  }

  /** The log at position i is the only one of the receipt with the requested index, and decodes to the requested live payment. */
  ghost predicate TransferChecked(q: Request, o: Observation, f: Facts) {
    && o.receipt.logs.Some?
    && var logs := o.receipt.logs.value;
       && f.i < |logs|
       && (forall k :: 0 <= k < |logs| ==> logs[k].Some? && Readable(logs[k].value.logIndex))
       && (forall k :: 0 <= k < |logs| ==> (logs[k].Some? && q.logIndex >= 0 && Spells(logs[k].value.logIndex, q.logIndex) <==> k == f.i))
       && logs[f.i].Some? && R.DecodeTransferLog(logs[f.i].value, o.chainId) == Some(f.credit)
       && !f.credit.removed && f.credit.identity.asset == Lower(q.token) && f.credit.identity.txHash == Lower(q.txHash)
       && f.credit.blockHash == f.hash && f.credit.blockNumber == f.number
       && f.credit.payer == Lower(q.payer) && f.credit.payee == Lower(q.payee)
  }

  /** The event of the requested payer and nonce, by address and topics. */
  ghost predicate SpentEvent(log: RawLog, q: Request)
    requires |q.payer| >= 2
  {
    && log.address.Str? && Lower(log.address.s) == Lower(q.token)
    && log.topics == Arr([Str(HexWord(AUTHORIZATION_USED_HASH)), Str("0x000000000000000000000000" + Lower(q.payer)[2..]), Str(Lower(q.nonce))])
  }

  /** The log at position j is the only authorization event of the receipt for the payer and nonce; it is live, and the nonce is spent. */
  ghost predicate AuthorizationChecked(q: Request, o: Observation, f: Facts)
    requires |q.payer| >= 2
  {
    && o.nonceConsumed && o.receipt.logs.Some?
    && var logs := o.receipt.logs.value;
       && f.j < |logs| && (forall k :: 0 <= k < |logs| ==> (logs[k].Some? && SpentEvent(logs[k].value, q) <==> k == f.j))
       && logs[f.j].Some? && logs[f.j].value.removed == Bool(false) && Spells(logs[f.j].value.logIndex, f.authorizationIndex)
  }

  /** Every Transfer of payer or payee in the block is this one, live; and the balances moved by its value. */
  ghost predicate BalancesChecked(q: Request, o: Observation, f: Facts) {
    && (o.inbound != [] || o.outbound != [])
    && (forall l :: l in o.inbound || l in o.outbound ==>
          && R.DecodeTransferLog(l, o.chainId).Some?
          && var seen := R.DecodeTransferLog(l, o.chainId).value;
             !seen.removed && seen.identity.txHash == Lower(q.txHash) && seen.identity.logIndex == f.credit.identity.logIndex)
    && o.payerAfter + f.credit.value == o.payerParent
    && o.payeeParent < o.payeeAfter <= o.payeeParent + f.credit.value
  }

  ghost predicate AllChecked(rail: Rail, q: Request, o: Observation, f: Facts) {
    && RequestChecked(rail, q) && RailChecked(rail, o) && BlockChecked(rail, q, o, f) && ParentChecked(q, o)
    && (if f.status == 1 then TransferChecked(q, o, f) && AuthorizationChecked(q, o, f) && BalancesChecked(q, o, f) else !o.nonceConsumed)
  }

  /** What the verdict reports. */
  ghost predicate Reports(v: LiveReconciliation, q: Request, o: Observation, f: Facts) {
    && v.settlement == Settlement(f.number, f.hash, f.status, f.top - f.number + 1)
    && (if f.status == 1 then
          && v.logIndex == Some(f.credit.identity.logIndex) && v.authorizationLogIndex == Some(f.authorizationIndex)
          && v.eventValue == Some(f.credit.value) && v.receivedAmount == o.payeeAfter - o.payeeParent
          && v.kind == (if !q.believesPaid then SilentLoss else if v.receivedAmount >= q.requiredAmount then ConsistentPaid else UnderpaidCredit)
        else
          && v.logIndex.None? && v.authorizationLogIndex.None? && v.eventValue.None? && v.receivedAmount == 0
          && v.kind == (if q.believesPaid then PhantomCredit else ConsistentUnpaid))
  }

  // ---------------------------------------------------------------- the checks before the branch

  lemma PreflightMeans(rail: Rail, q: Request, o: Observation, f: Facts)
    requires RequestChecked(rail, q) && RailChecked(rail, o) && BlockChecked(rail, q, o, f) && ParentChecked(q, o)
    ensures Preflight(rail, q, o) == Common.Ok(Settlement(f.number, f.hash, f.status, f.top - f.number + 1))
    ensures Rechecked(o, Settlement(f.number, f.hash, f.status, f.top - f.number + 1))
  {
    hide Quantity, Spells, IsHexText;
    QuantityReads(o.finality.number, f.top);
    QuantityReads(o.receipt.status, f.status);
    QuantityReads(o.receipt.blockNumber, f.number);
    QuantityReads(o.canonical.number, f.number);
    QuantityReads(o.canonicalAfter.number, f.numberAfter);
    HashReads(o.finality.hash, f.topHash);
    HashReads(o.receipt.transactionHash, Lower(q.txHash));
    HashReads(o.receipt.blockHash, f.hash);
    HashReads(o.canonical.hash, f.hash);
    HashReads(o.receiptAfter.blockHash, f.hash);
    HashReads(o.canonicalAfter.hash, f.hash);
    hide ExactHash, Hash32;
  }

  lemma PreflightFacts(rail: Rail, q: Request, o: Observation) returns (f: Facts)
    requires Preflight(rail, q, o).Ok? && Rechecked(o, Preflight(rail, q, o).value)
    ensures RequestChecked(rail, q) && RailChecked(rail, o) && BlockChecked(rail, q, o, f) && ParentChecked(q, o)
    ensures Preflight(rail, q, o) == Common.Ok(Settlement(f.number, f.hash, f.status, f.top - f.number + 1))
  {
    hide Quantity, Spells, ExactHash, Hash32, IsHexText;
    var s := Preflight(rail, q, o).value;
    var nothing := R.OnChainCredit(R.SettlementIdentity(0, "", "", 0), "", 0, "", "", 0, false);
    f := Facts(Quantity(o.finality.number).value, ExactHash(o.finality.hash).value, s.number, s.hash, s.status,
               Quantity(o.canonicalAfter.number).value, 0, nothing, 0, 0);
    QuantityReads(o.finality.number, f.top);
    QuantityReads(o.receipt.status, f.status);
    QuantityReads(o.receipt.blockNumber, f.number);
    QuantityReads(o.canonical.number, f.number);
    QuantityReads(o.canonicalAfter.number, f.numberAfter);
    HashReads(o.finality.hash, f.topHash);
    HashReads(o.receipt.transactionHash, Lower(q.txHash));
    HashReads(o.receipt.blockHash, f.hash);
    HashReads(o.canonical.hash, f.hash);
    HashReads(o.receiptAfter.blockHash, f.hash);
    HashReads(o.canonicalAfter.hash, f.hash);
  }

  // ---------------------------------------------------------------- the status-1 branch

  ghost function Indexed(q: Request): RawLog -> bool { (l: RawLog) => Quantity(l.logIndex) == Some(q.logIndex) }

  ghost function Authorizes(q: Request): RawLog -> bool { (l: RawLog) => IsAuthorization(l, q.token, q.payer, q.nonce) }

  lemma IndexMeans(log: RawLog, q: Request)
    ensures Indexed(q)(log) <==> q.logIndex >= 0 && Spells(log.logIndex, q.logIndex)
  {
    hide Quantity, Spells;
    if q.logIndex >= 0 {
      QuantityReads(log.logIndex, q.logIndex);
    }
  }

  lemma SpentMeans(log: RawLog, q: Request)
    requires |q.payer| >= 2
    ensures Authorizes(q)(log) <==> SpentEvent(log, q)
  {
    assert seq(24, _ => '0') == "000000000000000000000000";
    assert "0x" + seq(24, _ => '0') == "0x000000000000000000000000";
    hide HexWord;
  }

  /** Selection succeeds exactly on one readable index and a log that decodes to a credit of the token. */
  lemma SelectionFacts(q: Request, o: Observation, f: Facts) returns (g: Facts)
    requires o.receipt.logs.Some?
    requires SelectedCredit(o.receipt.logs.value, o.chainId, q.logIndex, q.token).Some?
    requires IsRequested(SelectedCredit(o.receipt.logs.value, o.chainId, q.logIndex, q.token).value, q, Settlement(f.number, f.hash, 1, 0))
    ensures g == f.(i := g.i, credit := g.credit) && TransferChecked(q, o, g)
    ensures Some(g.credit) == SelectedCredit(o.receipt.logs.value, o.chainId, q.logIndex, q.token)
  {
    hide R.DecodeTransferLog, Quantity, Spells, Readable;
    var logs := o.receipt.logs.value;
    var test := Indexed(q);
    assert SelectedCredit(logs, o.chainId, q.logIndex, q.token).Some? ==> |Matching(logs, (l: RawLog) => Quantity(l.logIndex) == Some(q.logIndex))| == 1;
    var i := OneMatch(logs, (l: RawLog) => Quantity(l.logIndex) == Some(q.logIndex));
    var credit := SelectedCredit(logs, o.chainId, q.logIndex, q.token).value;
    g := f.(i := i, credit := credit);
    forall k | 0 <= k < |logs|
      ensures logs[k].Some? && Readable(logs[k].value.logIndex)
      ensures logs[k].Some? && q.logIndex >= 0 && Spells(logs[k].value.logIndex, q.logIndex) <==> k == i
    {
      assert logs[k] in logs;
      ReadableMeans(logs[k].value.logIndex);
      IndexMeans(logs[k].value, q);
      assert Hit(logs, (l: RawLog) => Quantity(l.logIndex) == Some(q.logIndex), k) <==> Quantity(logs[k].value.logIndex) == Some(q.logIndex);
    }
  }

  lemma SelectionHolds(q: Request, o: Observation, f: Facts)
    requires TransferChecked(q, o, f)
    ensures SelectedCredit(o.receipt.logs.value, o.chainId, q.logIndex, q.token) == Some(f.credit)
    ensures IsRequested(f.credit, q, Settlement(f.number, f.hash, f.status, f.top - f.number + 1))
  {
    hide R.DecodeTransferLog, Quantity, Spells, Readable;
    var logs := o.receipt.logs.value;
    forall l | l in logs ensures l.Some? && Quantity(l.value.logIndex).Some? {
      var k :| 0 <= k < |logs| && logs[k] == l;
      ReadableMeans(logs[k].value.logIndex);
    }
    var test := (l: RawLog) => Quantity(l.logIndex) == Some(q.logIndex);
    forall k: nat ensures Hit(logs, test, k) <==> k == f.i {
      if k < |logs| {
        IndexMeans(logs[k].value, q);
      }
    }
    UniqueMatches(logs, test, f.i);
  }

  lemma AuthorizationFacts(q: Request, o: Observation, f: Facts) returns (g: Facts)
    requires |q.payer| >= 2 && o.nonceConsumed && o.receipt.logs.Some?
    requires AuthorizationIndex(o.receipt.logs.value, q.token, q.payer, q.nonce).Some?
    ensures g == f.(j := g.j, authorizationIndex := g.authorizationIndex) && AuthorizationChecked(q, o, g)
    ensures Some(g.authorizationIndex) == AuthorizationIndex(o.receipt.logs.value, q.token, q.payer, q.nonce)
  {
    hide IsAuthorization, Quantity, Spells, SpentEvent;
    var logs := o.receipt.logs.value;
    var j := OneMatch(logs, (l: RawLog) => IsAuthorization(l, q.token, q.payer, q.nonce));
    var index := AuthorizationIndex(logs, q.token, q.payer, q.nonce).value;
    g := f.(j := j, authorizationIndex := index);
    QuantityReads(logs[j].value.logIndex, index);
    forall k | 0 <= k < |logs| ensures logs[k].Some? && SpentEvent(logs[k].value, q) <==> k == j {
      if logs[k].Some? {
        SpentMeans(logs[k].value, q);
        assert Hit(logs, (l: RawLog) => IsAuthorization(l, q.token, q.payer, q.nonce), k) <==> IsAuthorization(logs[k].value, q.token, q.payer, q.nonce);
      }
    }
  }

  lemma AuthorizationHolds(q: Request, o: Observation, f: Facts)
    requires |q.payer| >= 2 && AuthorizationChecked(q, o, f) && None !in o.receipt.logs.value
    ensures AuthorizationIndex(o.receipt.logs.value, q.token, q.payer, q.nonce) == Some(f.authorizationIndex)
  {
    hide IsAuthorization, Quantity, Spells, SpentEvent;
    var logs := o.receipt.logs.value;
    var test := (l: RawLog) => IsAuthorization(l, q.token, q.payer, q.nonce);
    forall k: nat ensures Hit(logs, test, k) <==> k == f.j {
      if k < |logs| && logs[k].Some? {
        SpentMeans(logs[k].value, q);
      }
    }
    UniqueMatches(logs, test, f.j);
    QuantityReads(logs[f.j].value.logIndex, f.authorizationIndex);
  }

  lemma BalancesMean(q: Request, o: Observation, f: Facts)
    requires f.credit.identity.txHash == Lower(q.txHash)
    ensures BalancesChecked(q, o, f) <==> RaceFree(o.inbound + o.outbound, o.chainId, f.credit) && Attributable(f.credit.value, o)
  {
    hide R.DecodeTransferLog;
    assert forall l :: l in o.inbound + o.outbound <==> l in o.inbound || l in o.outbound;
  }

  // ---------------------------------------------------------------- the verdict, exactly

  lemma ProofOf(q: Request, o: Observation, f: Facts, s: Settlement)
    requires TransferChecked(q, o, f) && BalancesChecked(q, o, f) && |q.payer| >= 2 && AuthorizationChecked(q, o, f)
    requires s == Settlement(f.number, f.hash, f.status, f.top - f.number + 1)
    ensures ProveTransfer(q, o, s) == Common.Ok(Proof(f.credit, f.authorizationIndex))
  {
    TransferHash(q, o, f);
    SelectionHolds(q, o, f);
    BalancesMean(q, o, f);
    EveryLog(q, o, f);
    AuthorizationHolds(q, o, f);
    hide AuthorizationIndex, SelectedCredit, RaceFree, IsRequested, Attributable, TransferChecked, BalancesChecked, SpentEvent, Spells;
  }

  lemma EveryLog(q: Request, o: Observation, f: Facts)
    requires TransferChecked(q, o, f)
    ensures o.receipt.logs.Some? && None !in o.receipt.logs.value
  {
    hide R.DecodeTransferLog, Readable, Spells;
    var logs := o.receipt.logs.value;
    forall l | l in logs ensures l.Some? {
      var k :| 0 <= k < |logs| && logs[k] == l;
    }
  }

  lemma BalancesMoved(q: Request, o: Observation, f: Facts)
    requires BalancesChecked(q, o, f)
    ensures o.payerAfter < o.payerParent && o.payeeParent < o.payeeAfter
  {
    hide R.DecodeTransferLog;
  }

  /** Answers of which everything is checked get a verdict, which reports them. */
  lemma CheckedIsAccepted(rail: Rail, q: Request, o: Observation, f: Facts)
    requires AllChecked(rail, q, o, f)
    ensures Verdict(rail, q, o).Ok? && Reports(Verdict(rail, q, o).value, q, o, f)
  {
    hide Preflight, Rechecked, BlockChecked, RailChecked, ParentChecked, TransferChecked, AuthorizationChecked, BalancesChecked, ProveTransfer;
    PreflightMeans(rail, q, o, f);
    if f.status == 1 {
      ProofOf(q, o, f, Settlement(f.number, f.hash, f.status, f.top - f.number + 1));
      BalancesMoved(q, o, f);
    }
    hide RequestChecked;
  }

  /** Every verdict rests on all the checks, and reports what they found. */
  lemma AcceptedIsChecked(rail: Rail, q: Request, o: Observation) returns (f: Facts)
    requires Verdict(rail, q, o).Ok?
    ensures AllChecked(rail, q, o, f) && Reports(Verdict(rail, q, o).value, q, o, f)
  {
    hide Preflight, Rechecked, RequestChecked, BlockChecked, RailChecked, ParentChecked, TransferChecked, AuthorizationChecked, BalancesChecked,
         ProveTransfer, DetectPayment, Reports;
    f := PreflightFacts(rail, q, o);
    if f.status == 1 {
      var g := Branch(rail, q, o, f, Preflight(rail, q, o).value);
      SameBlock(rail, q, o, f, g);
      f := g;
    }
    CheckedIsAccepted(rail, q, o, f);
  }

  lemma SameBlock(rail: Rail, q: Request, o: Observation, f: Facts, g: Facts)
    requires BlockChecked(rail, q, o, f)
    requires g == f.(i := g.i, credit := g.credit, j := g.j, authorizationIndex := g.authorizationIndex)
    ensures BlockChecked(rail, q, o, g)
  {
    hide Spells, Hash32;
  }

  lemma Branch(rail: Rail, q: Request, o: Observation, f: Facts, s: Settlement) returns (g: Facts)
    requires RequestChecked(rail, q) && ProveTransfer(q, o, s).Ok? && s == Settlement(f.number, f.hash, 1, s.confirmations)
    ensures g == f.(i := g.i, credit := g.credit, j := g.j, authorizationIndex := g.authorizationIndex)
    ensures TransferChecked(q, o, g) && AuthorizationChecked(q, o, g) && BalancesChecked(q, o, g)
  {
    hide AuthorizationIndex, SelectedCredit, RaceFree, Attributable;
    g := SelectionFacts(q, o, f);
    var h := AuthorizationFacts(q, o, g);
    SameTransfer(q, o, g, h);
    g := h;
    TransferHash(q, o, g);
    BalancesMean(q, o, g);
  }

  lemma SameTransfer(q: Request, o: Observation, f: Facts, g: Facts)
    requires TransferChecked(q, o, f) && g == f.(j := g.j, authorizationIndex := g.authorizationIndex)
    ensures TransferChecked(q, o, g)
  {
    hide R.DecodeTransferLog, Readable, Spells;
  }

  lemma TransferHash(q: Request, o: Observation, f: Facts)
    requires TransferChecked(q, o, f)
    ensures f.credit.identity.txHash == Lower(q.txHash)
  {
    hide R.DecodeTransferLog, Readable, Spells;
  }

  /** A settlement whose block changed while it was observed gets no verdict. */
  lemma ReorganizedIsRefused(rail: Rail, q: Request, o: Observation)
    requires forall hash :: !(Hash32(o.receipt.blockHash, hash) && Hash32(o.receiptAfter.blockHash, hash) && Hash32(o.canonicalAfter.hash, hash))
    ensures Verdict(rail, q, o).Err?
  {
    hide Verdict, Hash32;
    if Verdict(rail, q, o).Ok? {
      var f := AcceptedIsChecked(rail, q, o);
    }
  }
}
