/** The strict reading of a SUT's pay answer (src/psv/sut.py), and the answers the reference SUT sends. */
module SutAnswers {
  import opened Common
  import opened Numerals
  import opened PythonText
  import opened Json
  import opened Evidence
  import P = Protocol

  const SETTLEMENT_PENDING := "settlement_pending"
  const MAX_ORDER_ID_CHARS := 256
  const MAX_TEXT_CHARS := 16_384

  datatype PayOutcome = SETTLED | PENDING | UNSETTLED

  datatype PayResult = PayResult(orderId: string, submittedTx: Option<string>, settled: bool, reason: Option<string>) {
    function Outcome(): PayOutcome {
      if settled then SETTLED
      else if reason == Some(SETTLEMENT_PENDING) && submittedTx.Some? then PENDING
      else UNSETTLED
    }
  }

  datatype Failure = BadBody | BadField(name: string)

  predicate WireText(value: Json) {
    value.Str? && value.s != "" && |value.s| <= MAX_TEXT_CHARS
  }

  predicate OrderIdText(text: string) {
    text != "" && |text| <= MAX_ORDER_ID_CHARS && forall i :: 0 <= i < |text| ==> text[i] as int >= 0x20
  }

  predicate TransactionHash(text: string) {
    |text| == 66 && StartsWith(text, "0x") && AllDigits(text[2..], 16)
  }

  function ParsePay(body: Json, expectedOrderId: Option<string>): Result<PayResult, Failure> {
    if !body.Obj? then Err(BadBody)
    else
      var settled, orderId := Get(body.members, "settled"), Get(body.members, "order_id");
      var reason, tx := Get(body.members, "reason"), Get(body.members, "submitted_tx");
      if settled.Absent? || !settled.value.Bool? then Err(BadField("settled"))
      else if reason.Present? && !reason.value.Null? && !WireText(reason.value) then Err(BadField("reason"))
      else if settled.value.b && reason == Present(Str(SETTLEMENT_PENDING)) then Err(BadField("reason"))
      else if orderId.Absent? || !orderId.value.Str? || !OrderIdText(orderId.value.s) then Err(BadField("order_id"))
      else if expectedOrderId.Some? && orderId.value.s != expectedOrderId.value then Err(BadField("order_id"))
      else if tx.Present? && !tx.value.Null? && !(tx.value.Str? && TransactionHash(tx.value.s)) then Err(BadField("submitted_tx"))
      else
        Ok(PayResult(
          orderId.value.s,
          if tx.Present? && tx.value.Str? then Some(tx.value.s) else None,
          settled.value.b,
          if reason.Present? && reason.value.Str? then Some(reason.value.s) else None))
  }

  // ---------------------------------------------------------------- the reference SUT's answers

  function ReasonText(reason: P.Reason): string {
    match reason
    case UnknownOrder => "unknown_order"
    case QuoteExpired => "quote_expired"
    case StaleQuote => "stale_quote"
  }

  function AnswerMembers(orderId: string, answer: P.Answer): seq<Member>
    requires !answer.Raised?
  {
    match answer
    case Refused(reason) =>
      [Member("order_id", Str(orderId)), Member("settled", Bool(false)), Member("reason", Str(ReasonText(reason)))]
    case AlreadySettled(tx) =>
      [Member("order_id", Str(orderId)), Member("settled", Bool(true)),
       Member("submitted_tx", if tx.Some? then Str(HexWord(tx.value)) else Null), Member("idempotent", Bool(true))]
    case SettlementPending(tx) =>
      [Member("order_id", Str(orderId)), Member("submitted_tx", Str(HexWord(tx))),
       Member("settled", Bool(false)), Member("reason", Str(SETTLEMENT_PENDING))]
    case Confirmed(tx, settled) =>
      [Member("order_id", Str(orderId)), Member("submitted_tx", Str(HexWord(tx))), Member("settled", Bool(settled))]
  }

  /** What a client reads out of an answer. */
  ghost function Meaning(orderId: string, answer: P.Answer): PayResult
    requires !answer.Raised?
  {
    match answer
    case Refused(reason) => PayResult(orderId, None, false, Some(ReasonText(reason)))
    case AlreadySettled(tx) => PayResult(orderId, if tx.Some? then Some(HexWord(tx.value)) else None, true, None)
    case SettlementPending(tx) => PayResult(orderId, Some(HexWord(tx)), false, Some(SETTLEMENT_PENDING))
    case Confirmed(tx, settled) => PayResult(orderId, Some(HexWord(tx)), settled, None)
  }

  lemma HexWordIsHash(tx: Hash)
    ensures TransactionHash(HexWord(tx))
  {
    HexWordShape(tx);
    assert StartsWith(HexWord(tx), "0x");
  }

  lemma MembersOf(orderId: string, answer: P.Answer)
    requires !answer.Raised?
    ensures var ms := AnswerMembers(orderId, answer);
            var r := Meaning(orderId, answer);
            && Get(ms, "order_id") == Present(Str(orderId))
            && Get(ms, "settled") == Present(Bool(r.settled))
            && Get(ms, "reason") == (if r.reason.Some? then Present(Str(r.reason.value)) else Absent)
            && (Get(ms, "submitted_tx") == if r.submittedTx.Some? then Present(Str(r.submittedTx.value))
                                           else if answer.AlreadySettled? then Present(Null) else Absent)
  {
    hide HexWord, ReasonText, Get;
    var ms := AnswerMembers(orderId, answer);
    GetPresent(ms, 0);
    match answer
    case Refused(_) => GetPresent(ms, 1); GetPresent(ms, 2); GetAbsent(ms, "submitted_tx");
    case AlreadySettled(_) => GetPresent(ms, 1); GetPresent(ms, 2); GetAbsent(ms, "reason");
    case SettlementPending(_) => GetPresent(ms, 1); GetPresent(ms, 2); GetPresent(ms, 3);
    case Confirmed(_, _) => GetPresent(ms, 1); GetPresent(ms, 2); GetAbsent(ms, "reason");
  }

  /** Every answer parses, and the client reads exactly what the SUT meant. */
  lemma AnswerParses(orderId: string, answer: P.Answer)
    requires !answer.Raised? && OrderIdText(orderId)
    ensures ParsePay(Obj(AnswerMembers(orderId, answer)), Some(orderId)) == Ok(Meaning(orderId, answer))
  {
    MembersOf(orderId, answer);
    match answer {
      case AlreadySettled(tx) => if tx.Some? { HexWordIsHash(tx.value); }
      case SettlementPending(tx) => HexWordIsHash(tx);
      case Confirmed(tx, _) => HexWordIsHash(tx);
      case Refused(_) =>
    }
    hide HexWord, Get, AnswerMembers, TransactionHash, OrderIdText;
  }
}
