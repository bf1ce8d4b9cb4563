/**
 JSON-RPC evidence: the logs and receipts a node answers with, and the truthful answers for a chain.

 A field holds the JSON value the node sent; Null stands for a null or missing member, which
 Python's dict.get does not tell apart either.
 */
module Evidence {
  import opened Common
  import opened Numerals
  import opened Json
  import opened Token
  import opened Chain

  datatype RawLog = RawLog(
    address: Json, topics: Json, data: Json, blockNumber: Json,
    transactionHash: Json, blockHash: Json, logIndex: Json, removed: Json)

  /** `logs` is None when it is not a list; an element is None when it is not an object. */
  datatype RawReceipt = RawReceipt(
    transactionHash: Json, to: Json, blockHash: Json, blockNumber: Json, status: Json,
    logs: Option<seq<Option<RawLog>>>)

  // The Keccak-256 hashes of the event signatures, and the topics they appear as.
  const TRANSFER_HASH: Hash := 0xddf252ad1be2c89b69c2b068fc378daa952ba7f163c4a11628f55a4df523b3ef
  const TOPIC_TRANSFER: string := HexWord(TRANSFER_HASH)
  const TRANSFER_V2_HASH: Hash := 0x58f9acac7a1c69c84dff9a713e28686566926c704ffaaa5562e8225bdf50911b
  const TOPIC_TRANSFER_V2: string := HexWord(TRANSFER_V2_HASH)
  const AUTHORIZATION_USED_HASH: Hash := 0x98de503528ee59b575ef0c0a2576a82497bfc029a5685b209e9ec333479b10a5
  const TOPIC_AUTHORIZATION_USED: string := HexWord(AUTHORIZATION_USED_HASH)
  const FEE_BPS_CHANGED_HASH: Hash := 0x876f5ff5c5f660d3f54bcc10d8f1f392b2b108ecfae7f29571af1e09796b09f8
  const TOPIC_FEE_BPS_CHANGED: string := HexWord(FEE_BPS_CHANGED_HASH)
  const EVENT_MODE_CHANGED_HASH: Hash := 0xeec6f647bb466fb6c5562de9ebde18c58f170b2b33dcf98d01654101508baffc
  const TOPIC_EVENT_MODE_CHANGED: string := HexWord(EVENT_MODE_CHANGED_HASH)

  // ---------------------------------------------------------------- canonical hex text

  function HexAddress(a: Address): string { "0x" + Padded(a, 16, 40) }

  function HexWord(n: Uint256): string { "0x" + Padded(n, 16, 64) }

  function HexQuantity(n: nat): string { "0x" + Numeral(n, 16) }

  /** An address as an indexed event topic. */
  function AddressTopic(a: Address): string { HexWord(a) }

  // ---------------------------------------------------------------- truthful encodings

  function EventTopics(event: Event): seq<string> {
    match event
    case Transfer(from, to, _) => [TOPIC_TRANSFER, AddressTopic(from), AddressTopic(to)]
    case TransferV2(from, to, _, _) => [TOPIC_TRANSFER_V2, AddressTopic(from), AddressTopic(to)]
    case AuthorizationUsed(authorizer, nonce) => [TOPIC_AUTHORIZATION_USED, AddressTopic(authorizer), HexWord(nonce)]
    case FeeBpsChanged(_, _) => [TOPIC_FEE_BPS_CHANGED]
    case EventModeChanged(_, _) => [TOPIC_EVENT_MODE_CHANGED]
  }

  function EventData(event: Event): string {
    match event
    case Transfer(_, _, value) => HexWord(value)
    case TransferV2(_, _, value, ref) => HexWord(value) + Padded(ref, 16, 64)
    case AuthorizationUsed(_, _) => "0x"
    case FeeBpsChanged(previous, next) => HexWord(previous) + Padded(next, 16, 64)
    case EventModeChanged(previous, next) => HexWord(previous) + Padded(next, 16, 64)
  }

  function Strings(texts: seq<string>): seq<Json> {
    seq(|texts|, i requires 0 <= i < |texts| => Str(texts[i]))
  }

  function EncodeLog(token: Address, l: LogEntry): RawLog {
    RawLog(
      Str(HexAddress(token)), Arr(Strings(EventTopics(l.event))), Str(EventData(l.event)), Str(HexQuantity(l.block)),
      Str(HexWord(l.tx)), Str(HexWord(l.blockHash)), Str(HexQuantity(l.index)), Bool(false))
  }

  function EncodeLogs(token: Address, logs: seq<LogEntry>): (raws: seq<RawLog>)
    ensures |raws| == |logs|
    ensures forall i :: 0 <= i < |logs| ==> raws[i] == EncodeLog(token, logs[i])
  {
    seq(|logs|, i requires 0 <= i < |logs| => EncodeLog(token, logs[i]))
  }

  /** The receipt of an included transaction sent to the token. */
  function EncodeReceipt(token: Address, e: Entry, blockHash: Hash): RawReceipt {
    var logs := EncodeLogs(token, EntryLogs(e, blockHash));
    RawReceipt(
      Str(HexWord(e.hash)), Str(HexAddress(token)), Str(HexWord(blockHash)), Str(HexQuantity(e.block)),
      Str(if e.Succeeded() then "0x1" else "0x0"),
      Some(seq(|logs|, i requires 0 <= i < |logs| => Some(logs[i]))))
  }

  // ---------------------------------------------------------------- eth_getLogs

  /** A topic filter: None matches any topic in that position. */
  predicate TopicsMatch(filter: seq<Option<string>>, topics: seq<string>) {
    && |filter| <= |topics|
    && forall i :: 0 <= i < |filter| ==> filter[i] == None || filter[i] == Some(topics[i])
  }

  function SelectLogs(logs: seq<LogEntry>, filter: seq<Option<string>>, fromBlock: nat, toBlock: nat): (r: seq<LogEntry>)
    ensures forall l :: l in r <==> l in logs && fromBlock <= l.block <= toBlock && TopicsMatch(filter, EventTopics(l.event))
  {
    if logs == [] then []
    else
      var l := logs[0];
      (if fromBlock <= l.block <= toBlock && TopicsMatch(filter, EventTopics(l.event)) then [l] else [])
      + SelectLogs(logs[1..], filter, fromBlock, toBlock)
  }

  // ---------------------------------------------------------------- facts about the hex text

  lemma HexAddressShape(a: Address)
    ensures |HexAddress(a)| == 42 && AllDigits(HexAddress(a)[2..], 16) && HexAddress(a)[..2] == "0x"
    ensures Lower(HexAddress(a)) == HexAddress(a)
    ensures Value(HexAddress(a)[2..], 16) == a
  {
    PowersOfSixteen();
    PaddedShape(a, 16, 40);
    PaddedValue(a, 16, 40);
    assert HexAddress(a)[2..] == Padded(a, 16, 40);
    LowerConcat("0x", Padded(a, 16, 40));
    assert Lower("0x") == "0x";
  }

  lemma HexWordShape(n: Uint256)
    ensures |HexWord(n)| == 66 && AllDigits(HexWord(n)[2..], 16) && HexWord(n)[..2] == "0x"
    ensures Lower(HexWord(n)) == HexWord(n)
    ensures Value(HexWord(n)[2..], 16) == n
  {
    PowersOfSixteen();
    PaddedShape(n, 16, 64);
    PaddedValue(n, 16, 64);
    assert HexWord(n)[2..] == Padded(n, 16, 64);
    LowerConcat("0x", Padded(n, 16, 64));
    assert Lower("0x") == "0x";
  }

  lemma HexQuantityShape(n: nat)
    ensures HexQuantity(n)[..2] == "0x" && |HexQuantity(n)| > 2 && AllDigits(HexQuantity(n)[2..], 16)
    ensures Value(HexQuantity(n)[2..], 16) == n
    ensures |HexQuantity(n)| > 3 ==> HexQuantity(n)[2] != '0'
  {
    NumeralShape(n, 16);
    assert HexQuantity(n)[2..] == Numeral(n, 16);
  }

  lemma HexWordInjective(m: Uint256, n: Uint256)
    ensures HexWord(m) == HexWord(n) <==> m == n
  {
    HexWordShape(m);
    HexWordShape(n);
  }

  lemma HexAddressInjective(a: Address, b: Address)
    ensures HexAddress(a) == HexAddress(b) <==> a == b
  {
    HexAddressShape(a);
    HexAddressShape(b);
  }

  /** An address topic is the address after twelve zero bytes. */
  lemma AddressTopicShape(a: Address)
    ensures AddressTopic(a) == "0x" + Padded(0, 16, 24) + HexAddress(a)[2..]
    ensures AddressTopic(a)[2..26] == Padded(0, 16, 24)
    ensures "0x" + AddressTopic(a)[26..] == HexAddress(a)
  {
    PowersOfSixteen();
    PaddedWiden(a, 16, 24, 40);
    assert HexAddress(a)[2..] == Padded(a, 16, 40);
  }

  lemma TopicsDiffer()
    ensures TOPIC_TRANSFER != TOPIC_TRANSFER_V2
    ensures TOPIC_TRANSFER != TOPIC_AUTHORIZATION_USED
    ensures TOPIC_TRANSFER_V2 != TOPIC_AUTHORIZATION_USED
  {
    HexWordInjective(TRANSFER_HASH, TRANSFER_V2_HASH);
    HexWordInjective(TRANSFER_HASH, AUTHORIZATION_USED_HASH);
    HexWordInjective(TRANSFER_V2_HASH, AUTHORIZATION_USED_HASH);
  }
}
