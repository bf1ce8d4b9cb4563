/** The strict reading of a SUT's quote (src/psv/sut.py), and the quote body the reference SUT sends. */
module QuoteAnswers {
  import opened Common
  import opened Numerals
  import opened PythonText
  import opened Json
  import opened Evidence
  import opened SutAnswers
  import P = Protocol

  const NETWORK_PREFIX := "eip155:"

  datatype Quote = Quote(
    orderId: string, amount: nat, payTo: string, asset: string, network: string, tokenName: string, tokenVersion: string)

  predicate EvmAddress(value: Json) {
    value.Str? && |value.s| == 42 && StartsWith(value.s, "0x") && AllDigits(value.s[2..], 16)
  }

  /** No sign, no leading zero, no separator. */
  predicate PositiveDecimal(text: string) {
    text != "" && text[0] != '0' && AllDigits(text, 10) && Value(text, 10) <= UINT256_MAX
  }

  predicate Network(value: Json) {
    value.Str? && StartsWith(value.s, NETWORK_PREFIX) && PositiveDecimal(value.s[|NETWORK_PREFIX|..])
  }

  function ParseQuote(body: Json): Result<Quote, Failure> {
    if !body.Obj? then Err(BadBody)
    else
      var ms := body.members;
      var extra := Get(ms, "extra");
      if extra.Absent? || !extra.value.Obj? then Err(BadField("extra"))
      else
        var name, version := Get(extra.value.members, "name"), Get(extra.value.members, "version");
        var orderId, amount := Get(ms, "order_id"), Get(ms, "amount");
        var payTo, asset, network := Get(ms, "payTo"), Get(ms, "asset"), Get(ms, "network");
        if name.Absent? || !WireText(name.value) then Err(BadField("extra.name"))
        else if version.Absent? || !WireText(version.value) then Err(BadField("extra.version"))
        else if orderId.Absent? || !orderId.value.Str? || !OrderIdText(orderId.value.s) then Err(BadField("order_id"))
        else if amount.Absent? || !amount.value.Str? || !PositiveDecimal(amount.value.s) then Err(BadField("amount"))
        else if payTo.Absent? || !EvmAddress(payTo.value) then Err(BadField("payTo"))
        else if asset.Absent? || !EvmAddress(asset.value) then Err(BadField("asset"))
        else if network.Absent? || !Network(network.value) then Err(BadField("network"))
        else
          Ok(Quote(orderId.value.s, Value(amount.value.s, 10), payTo.value.s, asset.value.s, network.value.s,
                   name.value.s, version.value.s))
  }

  // ---------------------------------------------------------------- the reference SUT's quotes

  function Extra(name: string, version: string): seq<Member> {
    [Member("name", Str(name)), Member("version", Str(version))]
  }

  function NetworkText(chainId: nat): string { NETWORK_PREFIX + Numeral(chainId, 10) }

  function QuoteMembers(orderId: string, offer: P.Offer, name: string, version: string): seq<Member> {
    [Member("order_id", Str(orderId)), Member("amount", Str(Numeral(offer.amount, 10))),
     Member("payTo", Str(HexAddress(offer.payTo))), Member("asset", Str(HexAddress(offer.asset))),
     Member("network", Str(NetworkText(offer.chainId))), Member("extra", Obj(Extra(name, version))),
     Member("expires_at", Int(offer.expiresAt))]
  }

  /** What the configuration must be for its quotes to be usable. */
  predicate Quotable(orderId: string, offer: P.Offer, name: string, version: string) {
    && OrderIdText(orderId) && 0 < offer.amount <= UINT256_MAX && 0 < offer.chainId <= UINT256_MAX
    && WireText(Str(name)) && WireText(Str(version))
  }

  lemma NumeralIsPositive(n: nat)
    ensures PositiveDecimal(Numeral(n, 10)) <==> 0 < n <= UINT256_MAX
    ensures Value(Numeral(n, 10), 10) == n
  {
    NumeralShape(n, 10);
  }

  lemma NetworkReads(chainId: nat)
    ensures Network(Str(NetworkText(chainId))) <==> 0 < chainId <= UINT256_MAX
  {
    hide PositiveDecimal, Numeral;
    NumeralIsPositive(chainId);
    assert NetworkText(chainId)[|NETWORK_PREFIX|..] == Numeral(chainId, 10);
  }

  lemma AddressReads(a: Address)
    ensures EvmAddress(Str(HexAddress(a)))
  {
    HexAddressShape(a);
  }

  lemma QuoteFields(orderId: string, offer: P.Offer, name: string, version: string)
    ensures var ms := QuoteMembers(orderId, offer, name, version);
            && Get(ms, "order_id") == Present(Str(orderId))
            && Get(ms, "amount") == Present(Str(Numeral(offer.amount, 10)))
            && Get(ms, "payTo") == Present(Str(HexAddress(offer.payTo)))
            && Get(ms, "asset") == Present(Str(HexAddress(offer.asset)))
            && Get(ms, "network") == Present(Str(NetworkText(offer.chainId)))
            && Get(ms, "extra") == Present(Obj(Extra(name, version)))
            && Get(Extra(name, version), "name") == Present(Str(name))
            && Get(Extra(name, version), "version") == Present(Str(version))
  {
    hide Get, HexAddress, Numeral, NetworkText;
    var ms := QuoteMembers(orderId, offer, name, version);
    GetPresent(ms, 0);
    GetPresent(ms, 1);
    GetPresent(ms, 2);
    GetPresent(ms, 3);
    GetPresent(ms, 4);
    GetPresent(ms, 5);
    GetPresent(Extra(name, version), 0);
    GetPresent(Extra(name, version), 1);
  }

  /** A client reads the reference SUT's quote exactly when its terms are usable, and then reads those terms. */
  lemma QuoteParsesExactlyWhen(orderId: string, offer: P.Offer, name: string, version: string)
    ensures var parsed := ParseQuote(Obj(QuoteMembers(orderId, offer, name, version)));
            && (parsed.Ok? <==> Quotable(orderId, offer, name, version))
            && (parsed.Ok? ==>
                  parsed.value == Quote(orderId, offer.amount, HexAddress(offer.payTo), HexAddress(offer.asset),
                                        NetworkText(offer.chainId), name, version))
  {
    QuoteFields(orderId, offer, name, version);
    NumeralIsPositive(offer.amount);
    NetworkReads(offer.chainId);
    AddressReads(offer.payTo);
    AddressReads(offer.asset);
    hide Get, HexAddress, Numeral, NetworkText, QuoteMembers, Extra, PositiveDecimal, EvmAddress, Network, OrderIdText, WireText;
  }
}
