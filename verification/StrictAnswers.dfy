/** What a client accepts as an answer or a quote, on arbitrary bodies: exactly these fields in exactly these forms. */
module StrictAnswers {
  import opened Common
  import opened Numerals
  import opened PythonText
  import opened Json
  import opened SutAnswers
  import opened QuoteAnswers
  import Evidence
  import P = Protocol

  /** The string under a name. */
  ghost predicate TextAt(members: seq<Member>, name: string, text: string) { Get(members, name) == Present(Str(text)) }

  /** Nothing, or null, under a name. */
  ghost predicate NothingAt(members: seq<Member>, name: string) { Get(members, name) in {Absent, Present(Null)} }

  ghost predicate Printable(text: string) {
    1 <= |text| <= 256 && forall i :: 0 <= i < |text| ==> text[i] as int >= 32
  }

  ghost predicate Hex(text: string, digits: nat) {
    |text| == 2 + digits && text[0] == '0' && text[1] == 'x' && AllDigits(text[2..], 16)
  }

  lemma HexStarts(text: string)
    ensures StartsWith(text, "0x") <==> |text| >= 2 && text[0] == '0' && text[1] == 'x'
  {
  }

  lemma HashMeans(text: string)
    ensures TransactionHash(text) <==> Hex(text, 64)
  {
    HexStarts(text);
    hide AllDigits;
  }

  lemma PrintableMeans(text: string)
    ensures OrderIdText(text) <==> Printable(text)
  {
  }

  lemma WireMeans(value: Json)
    ensures WireText(value) <==> value.Str? && 1 <= |value.s| <= 16384
  {
  }

  /** The answer a body states: its order, whether it is settled, why not, and its transaction. */
  ghost predicate States(members: seq<Member>, r: PayResult) {
    && TextAt(members, "order_id", r.orderId) && Printable(r.orderId)
    && Get(members, "settled") == Present(Bool(r.settled))
    && (if r.reason.Some? then TextAt(members, "reason", r.reason.value) && 1 <= |r.reason.value| <= 16384 else NothingAt(members, "reason"))
    && (if r.submittedTx.Some? then TextAt(members, "submitted_tx", r.submittedTx.value) && Hex(r.submittedTx.value, 64)
        else NothingAt(members, "submitted_tx"))
  }

  /** A pay answer is accepted as r exactly when it states r, for the expected order, and does not call a settled order pending. */
  lemma PayAnswerExactly(body: Json, expected: Option<string>, r: PayResult)
    ensures ParsePay(body, expected) == Ok(r)
       <==> && body.Obj? && States(body.members, r)
            && (expected.Some? ==> r.orderId == expected.value)
            && !(r.settled && r.reason == Some("settlement_pending"))
  {
    hide Get, AllDigits, TransactionHash, Hex, WireText, OrderIdText, Printable;
    if body.Obj? {
      var tx, id, reason := Get(body.members, "submitted_tx"), Get(body.members, "order_id"), Get(body.members, "reason");
      if tx.Present? && tx.value.Str? {
        HashMeans(tx.value.s);
      }
      if id.Present? && id.value.Str? {
        PrintableMeans(id.value.s);
      }
      if reason.Present? {
        WireMeans(reason.value);
      }
    }
  }

  /** The outcome a client acts on. */
  lemma OutcomeExactly(r: PayResult)
    ensures r.Outcome() == SETTLED <==> r.settled
    ensures r.Outcome() == PENDING <==> !r.settled && r.reason == Some("settlement_pending") && r.submittedTx.Some?
  {
  }

  /** A decimal of digits without a leading zero, positive and within uint256, and its number. */
  ghost predicate DecimalOf(text: string, n: nat) {
    text != "" && text[0] != '0' && AllDigits(text, 10) && Value(text, 10) == n && n <= UINT256_MAX
  }

  ghost predicate Offers(members: seq<Member>, extra: seq<Member>, q: Quote, chainId: nat) {
    && Get(members, "extra") == Present(Obj(extra))
    && TextAt(extra, "name", q.tokenName) && 1 <= |q.tokenName| <= 16384
    && TextAt(extra, "version", q.tokenVersion) && 1 <= |q.tokenVersion| <= 16384
    && TextAt(members, "order_id", q.orderId) && Printable(q.orderId)
    && (exists text :: TextAt(members, "amount", text) && DecimalOf(text, q.amount))
    && TextAt(members, "payTo", q.payTo) && Hex(q.payTo, 40)
    && TextAt(members, "asset", q.asset) && Hex(q.asset, 40)
    && TextAt(members, "network", q.network) && (exists text :: q.network == "eip155:" + text && DecimalOf(text, chainId))
  }

  /** A quote is accepted as q exactly when its body offers q on some chain. */
  lemma QuoteExactly(body: Json, q: Quote)
    ensures ParseQuote(body) == Ok(q) ==> exists extra, chainId :: body.Obj? && Offers(body.members, extra, q, chainId)
    ensures (exists extra, chainId :: body.Obj? && Offers(body.members, extra, q, chainId)) ==> ParseQuote(body) == Ok(q)
  {
    hide Get, AllDigits, Value;
    if ParseQuote(body) == Ok(q) {
      var extra := Get(body.members, "extra").value.members;
      var digits := q.network[|NETWORK_PREFIX|..];
      var text := Get(body.members, "amount").value.s;
      HexStarts(q.payTo);
      HexStarts(q.asset);
      assert q.network == "eip155:" + digits && DecimalOf(digits, Value(digits, 10));
      assert TextAt(body.members, "amount", text) && DecimalOf(text, q.amount);
      assert Offers(body.members, extra, q, Value(digits, 10));
    }
    if extra, chainId :| body.Obj? && Offers(body.members, extra, q, chainId) {
      var text :| TextAt(body.members, "amount", text) && DecimalOf(text, q.amount);
      var digits :| q.network == "eip155:" + digits && DecimalOf(digits, chainId);
      assert q.network[|NETWORK_PREFIX|..] == digits && StartsWith(q.network, NETWORK_PREFIX);
      HexStarts(q.payTo);
      HexStarts(q.asset);
    }
  }

  /** The quote also tells when it expires, and its members are these seven. */
  lemma QuoteNamesExpiry(orderId: string, offer: P.Offer, name: string, version: string)
    ensures var members := QuoteMembers(orderId, offer, name, version);
            && |members| == 7 && members[6] == Member("expires_at", Int(offer.expiresAt))
            && Get(members, "expires_at") == Present(Int(offer.expiresAt))
  {
    hide Get, Evidence.HexAddress, Numeral, NetworkText, Extra;
    GetPresent(QuoteMembers(orderId, offer, name, version), 6);
  }

  /** The words of the SUT's answers. */
  lemma AnswersInWords(orderId: string, tx: Hash, settled: bool)
    ensures var text := Str(Evidence.HexWord(tx));
            && AnswerMembers(orderId, P.Refused(P.UnknownOrder))
               == [Member("order_id", Str(orderId)), Member("settled", Bool(false)), Member("reason", Str("unknown_order"))]
            && AnswerMembers(orderId, P.Refused(P.QuoteExpired))
               == [Member("order_id", Str(orderId)), Member("settled", Bool(false)), Member("reason", Str("quote_expired"))]
            && AnswerMembers(orderId, P.Refused(P.StaleQuote))
               == [Member("order_id", Str(orderId)), Member("settled", Bool(false)), Member("reason", Str("stale_quote"))]
            && AnswerMembers(orderId, P.AlreadySettled(Some(tx)))
               == [Member("order_id", Str(orderId)), Member("settled", Bool(true)), Member("submitted_tx", text), Member("idempotent", Bool(true))]
            && AnswerMembers(orderId, P.SettlementPending(tx))
               == [Member("order_id", Str(orderId)), Member("submitted_tx", text), Member("settled", Bool(false)),
                   Member("reason", Str("settlement_pending"))]
            && AnswerMembers(orderId, P.Confirmed(tx, settled))
               == [Member("order_id", Str(orderId)), Member("submitted_tx", text), Member("settled", Bool(settled))]
  {
    hide Evidence.HexWord;
  }
}
