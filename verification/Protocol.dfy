/**
 The payment protocol as a step system: the reference SUT's ledger (src/psv/reference_sut/server.py)
 over the chain of module Chain. Every function here says what one request does to the world; what
 whole runs keep is proved in NoPhantomCredit, PendingSlot, Funding and Healing.

 Requests are handled one at a time. While a request waits, the chain moves on: `during`.
 */
module Protocol {
  import opened Common
  import opened Numerals
  import opened Evidence
  import opened QuoteOption
  import opened Token
  import C = Chain
  import F = Confirmer
  import R = Reconciliation

  datatype Config = Config(
    token: Address, merchant: Address, chainId: nat, price: nat, quoteTtl: nat,
    healing: bool, repriceOnPay: bool, tolerance: Tolerance,
    idempotent: bool, confirmWithoutWaiting: bool)

  /** An ordinary order carries a fresh random id; a recovered one the SHA-256 of its key, taken as injective. */
  datatype OrderId = Ordinary(n: nat) | Recovered(key: string)

  datatype Resource = Premium(id: OrderId) | RecoveredFrom(txHash: string)

  datatype Order = Order(
    amount: nat, expiresAt: int, quotedFairPrice: nat, nonceSeen: Option<Nonce>, paid: bool,
    submittedTx: Option<Hash>, resource: Option<Resource>, createdBlock: nat, recovered: bool, settleAttempts: nat,
    pendingTx: Option<Hash>, pendingAuthorization: Option<Authorization>, identity: Option<R.SettlementIdentity>)

  type Ledger = map<OrderId, Order>

  /** One broadcast of the facilitator: history, never rolled back. */
  datatype Sent = Sent(order: OrderId, tx: Hash, auth: Authorization)

  datatype World = World(
    chain: C.Chain, orders: Ledger, fairPrice: nat, sent: seq<Sent>, backups: seq<Ledger>, issued: set<OrderId>)

  /** What the outside decides during one request. */
  datatype Env = Env(
    now: int,                     // the wall clock
    safe: bool,                   // chain id, deployed code and the node's acceptance of the transaction
    tx: Hash,                     // the hash the node returns for the broadcast
    during: seq<C.ChainStep>,     // chain activity between broadcast and confirmation
    receiptArrives: bool,         // the receipt poll answers in time
    logsArrive: bool)             // the log query answers

  datatype Reason = UnknownOrder | QuoteExpired | StaleQuote

  datatype Answer =
    | Raised
    | Refused(reason: Reason)
    | AlreadySettled(submittedTx: Option<Hash>)
    | SettlementPending(tx: Hash)
    | Confirmed(tx: Hash, settled: bool)

  // ---------------------------------------------------------------- quote

  function NewOrder(w: World, cfg: Config, now: int): Order {
    Order(cfg.price, now + cfg.quoteTtl, w.fairPrice, None, false, None, None, w.chain.Height(), false, 0, None, None, None)
  }

  /** The terms a quote names to the client. */
  datatype Offer = Offer(id: OrderId, amount: nat, payTo: Address, asset: Address, chainId: nat, expiresAt: int)

  /** Order ids are fresh: a repeated one is not a step. */
  function Quote(w: World, cfg: Config, n: nat, now: int): World {
    if Ordinary(n) in w.issued then w
    else w.(orders := w.orders[Ordinary(n) := NewOrder(w, cfg, now)], issued := w.issued + {Ordinary(n)})
  }

  // ---------------------------------------------------------------- pay

  /** The safety policy and the calldata checks every broadcast passes. */
  predicate SafeToSubmit(w: World, cfg: Config, auth: Authorization, env: Env) {
    && env.safe
    && env.tx !in w.chain.pool
    && auth.from != ZERO && cfg.merchant != ZERO
    && auth.to == cfg.merchant
    && 0 < cfg.price && auth.value == cfg.price
    && auth.validAfter < auth.validBefore
  }

  function Attempted(o: Order, auth: Authorization): Order {
    o.(nonceSeen := Some(auth.nonce), settleAttempts := o.settleAttempts + 1)
  }

  function Broadcast(w: World, id: OrderId, auth: Authorization, tx: Hash): World
    requires id in w.orders
  {
    w.(chain := C.Next(w.chain, C.Submit(tx, TransferWithAuthorization(auth))),
       orders := w.orders[id := Attempted(w.orders[id], auth).(submittedTx := Some(tx))],
       sent := w.sent + [Sent(id, tx, auth)])
  }

  function Receipt(c: C.Chain, token: Address, tx: Hash): Option<RawReceipt> {
    if tx in c.included && c.included[tx] < |c.entries| then
      var e := c.entries[c.included[tx]];
      Some(EncodeReceipt(token, e, C.BlockHash(c.heads, e.block)))
    else None
  }

  function FetchedTransfers(c: C.Chain, cfg: Config, payer: Address, fromBlock: nat): seq<RawLog> {
    EncodeLogs(cfg.token, SelectLogs(C.AllLogs(c), F.TransferFilter(payer, cfg.merchant), fromBlock, c.Height()))
  }

  /** The confirmer's decision on the node's truthful answers. The log query starts at the receipt's block. */
  function LogIndex(c: C.Chain, cfg: Config, auth: Authorization, o: Order, tx: Hash): Option<nat> {
    var receipt := if cfg.confirmWithoutWaiting then None else Receipt(c, cfg.token, tx);
    var fromBlock := if tx in c.included && c.included[tx] < |c.entries| then c.entries[c.included[tx]].block else 0;
    match F.Decision(F.TruthOrder(cfg.token, cfg.merchant, auth, o.amount, tx, o.createdBlock), receipt,
                     FetchedTransfers(c, cfg, auth.from, fromBlock))
    case Some(index) => if 0 <= index <= UINT256_MAX then Some(index) else None
    case None => None
  }

  /** The confirmer only queries logs once the receipt passed its own checks. */
  predicate QueriesLogs(c: C.Chain, cfg: Config, auth: Authorization, o: Order, tx: Hash) {
    && !cfg.confirmWithoutWaiting
    && F.ReceiptBlock(Receipt(c, cfg.token, tx), F.TruthOrder(cfg.token, cfg.merchant, auth, o.amount, tx, o.createdBlock)).Some?
  }

  function Parked(o: Order, auth: Authorization, tx: Hash): Order {
    o.(pendingTx := Some(tx), pendingAuthorization := Some(auth))
  }

  function Cleared(o: Order): Order {
    o.(pendingTx := None, pendingAuthorization := None)
  }

  function IdentityOf(cfg: Config, tx: Hash, index: nat): R.SettlementIdentity {
    R.SettlementIdentity(cfg.chainId, HexAddress(cfg.token), HexWord(tx), index)
  }

  function Credited(o: Order, id: OrderId, identity: R.SettlementIdentity): Order {
    Cleared(o).(paid := true, resource := Some(Premium(id)), identity := Some(identity))
  }

  function WithOrder(w: World, id: OrderId, o: Order): World { w.(orders := w.orders[id := o]) }

  /** _confirm: park the order while no receipt is known, else clear the slot, query the logs and decide. */
  function Confirm(w: World, cfg: Config, id: OrderId, auth: Authorization, tx: Hash, env: Env): (World, Answer)
    requires id in w.orders
  {
    var v := w.(chain := C.Run(w.chain, env.during));
    var o := v.orders[id];
    if !cfg.confirmWithoutWaiting && !(env.receiptArrives && Receipt(v.chain, cfg.token, tx).Some?) then
      (WithOrder(v, id, Parked(o, auth, tx)), SettlementPending(tx))
    else if QueriesLogs(v.chain, cfg, auth, o, tx) && !env.logsArrive then
      (WithOrder(v, id, Cleared(o)), Raised)
    else
      match LogIndex(v.chain, cfg, auth, o, tx)
      case Some(index) => (WithOrder(v, id, Credited(o, id, IdentityOf(cfg, tx, index))), Confirmed(tx, true))
      case None => (WithOrder(v, id, Cleared(o)), Confirmed(tx, false))
  }

  function Pay(w: World, cfg: Config, id: OrderId, auth: Authorization, env: Env): (World, Answer) {
    if id !in w.orders then (w, Refused(UnknownOrder))
    else
      var o := w.orders[id];
      if o.paid && cfg.idempotent then (w, AlreadySettled(o.submittedTx))
      else if o.pendingTx.Some? && o.pendingAuthorization.Some? && cfg.idempotent then
        Confirm(w, cfg, id, o.pendingAuthorization.value, o.pendingTx.value, env)
      else if env.now > o.expiresAt then (w, Refused(QuoteExpired))
      else if cfg.repriceOnPay && QuoteIsStale(o.amount, w.fairPrice, cfg.tolerance) then (w, Refused(StaleQuote))
      else if !SafeToSubmit(w, cfg, auth, env) then (WithOrder(w, id, Attempted(o, auth)), Raised)
      else Confirm(Broadcast(w, id, auth, env.tx), cfg, id, auth, env.tx, env)
  }

  // ---------------------------------------------------------------- backup, restore, reconcile

  function MerchantFilter(cfg: Config): seq<Option<string>> {
    [Some(TOPIC_TRANSFER), None, Some(AddressTopic(cfg.merchant))]
  }

  function MerchantLogs(c: C.Chain, cfg: Config, fromBlock: nat): seq<C.LogEntry> {
    SelectLogs(C.AllLogs(c), MerchantFilter(cfg), fromBlock, c.Height())
  }

  /** The settlement identities of the paid orders. */
  function PaidIdentities(orders: Ledger): set<R.SettlementIdentity> {
    set id | id in orders && orders[id].paid && orders[id].identity.Some? :: orders[id].identity.value
  }

  function MerchantScope(cfg: Config): R.Scope {
    R.Scope(cfg.chainId, Some(HexAddress(cfg.token)), Some(HexAddress(cfg.merchant)))
  }

  ghost function Gap(c: C.Chain, cfg: Config, orders: Ledger, fromBlock: nat): Option<seq<R.OnChainCredit>> {
    R.Unreconciled(EncodeLogs(cfg.token, MerchantLogs(c, cfg, fromBlock)), PaidIdentities(orders), MerchantScope(cfg))
  }

  function IdentityKey(identity: R.SettlementIdentity): string {
    Numeral(if identity.chainId < 0 then 0 else identity.chainId, 10) + ":" + identity.asset + ":" + identity.txHash + ":" + Numeral(identity.logIndex, 10)
  }

  /** A transaction hash read back from its text. */
  function HashOfText(text: string): Hash {
    var v := if |text| >= 2 then Value(text[2..], 16) else 0;
    if v <= UINT256_MAX then v else 0
  }

  function RecoveredOrder(credit: R.OnChainCredit): Order {
    Order(credit.value, 0, credit.value, None, true, Some(HashOfText(credit.identity.txHash)),
          Some(RecoveredFrom(credit.identity.txHash)), 0, true, 0, None, None, Some(credit.identity))
  }

  function RecoveredId(credit: R.OnChainCredit): OrderId { Recovered(IdentityKey(credit.identity)) }

  /** Book a recovered, paid order for every credit, in list order. */
  function Heal(orders: Ledger, credits: seq<R.OnChainCredit>): Ledger {
    if credits == [] then orders
    else
      var last := credits[|credits| - 1];
      Heal(orders, credits[..|credits| - 1])[RecoveredId(last) := RecoveredOrder(last)]
  }

  ghost function Reconcile(w: World, cfg: Config, fromBlock: nat): World {
    match Gap(w.chain, cfg, w.orders, fromBlock)
    case Some(credits) => if cfg.healing then w.(orders := Heal(w.orders, credits)) else w
    case None => w
  }

  // ---------------------------------------------------------------- runs

  datatype Step =
    | QuoteStep(n: nat, now: int)
    | SetFairPrice(price: nat)
    | PayStep(id: OrderId, auth: Authorization, env: Env)
    | ChainMoves(steps: seq<C.ChainStep>)
    | Backup
    | Restore(i: nat)
    | ReconcileStep(fromBlock: nat)

  ghost function Next(w: World, cfg: Config, step: Step): World {
    match step
    case QuoteStep(n, now) => Quote(w, cfg, n, now)
    case SetFairPrice(price) => w.(fairPrice := price)
    case PayStep(id, auth, env) => Pay(w, cfg, id, auth, env).0
    case ChainMoves(steps) => w.(chain := C.Run(w.chain, steps))
    case Backup => w.(backups := w.backups + [w.orders])
    case Restore(i) => if i < |w.backups| then w.(orders := w.backups[i]) else w
    case ReconcileStep(fromBlock) => Reconcile(w, cfg, fromBlock)
  }

  ghost function Run(w: World, cfg: Config, steps: seq<Step>): World
    decreases |steps|
  {
    if steps == [] then w else Run(Next(w, cfg, steps[0]), cfg, steps[1..])
  }

  /** A fresh deployment with an empty ledger. */
  function Launch(cfg: Config, admin: Address, genesisHead: C.Head): World {
    World(C.Launched(admin, genesisHead), map[], cfg.price, [], [], {})
  }

  ghost predicate ValidConfig(cfg: Config) { cfg.chainId > 0 }
}
