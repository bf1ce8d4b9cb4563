/**
 Restore and heal closes the gap: after restoring any backup and running the reconciliation job, the
 ledger knows the backup's settlements plus every live credit of the merchant, and nothing else changed.
 */
module Healing {
  import opened Common
  import opened Numerals
  import opened PythonText
  import opened Ordering
  import opened Evidence
  import opened Protocol
  import opened NoPhantomCredit
  import Json
  import T = Token
  import C = Chain
  import R = Reconciliation

  // ---------------------------------------------------------------- the identity key is unambiguous

  lemma {:induction false} SplitAtColon(a: string, x: string, b: string, y: string)
    requires ':' !in a && ':' !in b && a + ":" + x == b + ":" + y
    ensures a == b && x == y
    decreases |a|
  {
    var s, t := a + ":" + x, b + ":" + y;
    assert b != "" ==> t[0] == b[0] && b[0] in b;
    assert b == "" ==> t[0] == ':';
    if a == "" {
      assert s[0] == ':';
      assert s[1..] == x && t[1..] == y;
    } else {
      assert s[0] == a[0] && a[0] in a;
      assert s[1..] == a[1..] + ":" + x && t[1..] == b[1..] + ":" + y;
      SplitAtColon(a[1..], x, b[1..], y);
      assert a == [a[0]] + a[1..] && b == [b[0]] + b[1..];
    }
  }

  lemma NumeralHasNoColon(n: nat)
    ensures ':' !in Numeral(n, 10)
  {
    NumeralShape(n, 10);
  }

  /** What SettlementIdentity's own validation leaves. */
  ghost predicate Normalized(identity: R.SettlementIdentity) {
    identity.chainId > 0 && ':' !in identity.asset && ':' !in identity.txHash
  }

  /** Distinct identities have distinct keys, so distinct recovered order ids. */
  lemma IdentityKeyUnambiguous(a: R.SettlementIdentity, b: R.SettlementIdentity)
    requires Normalized(a) && Normalized(b) && IdentityKey(a) == IdentityKey(b)
    ensures a == b
  {
    var p, q := Numeral(a.chainId, 10), Numeral(b.chainId, 10);
    var m, n := Numeral(a.logIndex, 10), Numeral(b.logIndex, 10);
    NumeralHasNoColon(a.chainId);
    NumeralHasNoColon(b.chainId);
    hide Numeral;
    assert IdentityKey(a) == p + ":" + (a.asset + ":" + (a.txHash + ":" + m));
    assert IdentityKey(b) == q + ":" + (b.asset + ":" + (b.txHash + ":" + n));
    SplitAtColon(p, a.asset + ":" + (a.txHash + ":" + m), q, b.asset + ":" + (b.txHash + ":" + n));
    SplitAtColon(a.asset, a.txHash + ":" + m, b.asset, b.txHash + ":" + n);
    SplitAtColon(a.txHash, m, b.txHash, n);
    NumeralInjective(a.chainId, b.chainId, 10);
    NumeralInjective(a.logIndex, b.logIndex, 10);
  }

  lemma {:induction false} HexHasNoColon(s: string)
    requires FromHexAccepts(s)
    ensures ':' !in s
    decreases |s|
  {
    if s != "" {
      if IsSpace(s[0]) {
        HexHasNoColon(s[1..]);
        assert s == [s[0]] + s[1..];
      } else {
        HexHasNoColon(s[2..]);
        assert s == [s[0], s[1]] + s[2..];
      }
    }
  }

  /** Normalized hex never contains the separator. */
  lemma ExactHexHasNoColon(value: Json.Json, size: nat)
    requires R.ExactHex(value, size).Some?
    ensures ':' !in R.ExactHex(value, size).value
  {
    HexHasNoColon(value.s[2..]);
    assert value.s == value.s[..2] + value.s[2..];
    assert value.s[0] == '0' && value.s[1] == 'x';
  }

  lemma TrueIdentityNormalized(cfg: Config, tx: Hash, index: nat)
    requires ValidConfig(cfg)
    ensures Normalized(IdentityOf(cfg, tx, index))
  {
    R.ExactHexOfAddress(cfg.token);
    R.ExactHexOfWord(tx);
    ExactHexHasNoColon(Json.Str(HexAddress(cfg.token)), 20);
    ExactHexHasNoColon(Json.Str(HexWord(tx)), 32);
  }

  // ---------------------------------------------------------------- the reconciliation always answers

  /** The identities of the merchant's live credits from a block on. */
  ghost function LiveIdentities(c: C.Chain, cfg: Config, fromBlock: nat): set<R.SettlementIdentity> {
    set l | l in MerchantLogs(c, cfg, fromBlock) :: IdentityOf(cfg, l.tx, l.index)
  }

  lemma MerchantLogObserved(c: C.Chain, cfg: Config, fromBlock: nat, l: C.LogEntry)
    requires ValidConfig(cfg) && C.Valid(c) && l in MerchantLogs(c, cfg, fromBlock)
    ensures l.event.Transfer? && l.block <= UINT256_MAX && l.index <= UINT256_MAX
    ensures R.Observe(EncodeLog(cfg.token, l), MerchantScope(cfg)) == Common.Ok(R.CreditOf(cfg.token, cfg.chainId, l))
  {
    hide R.DecodeTransferLog, EncodeLog, MerchantLogs, HexAddress, HexWord;
    MerchantTransfers(c, cfg, fromBlock, l);
    LogBounds(c, l);
    R.DecodeOfTransfer(cfg.token, cfg.chainId, l);
  }

  lemma IdentitiesAreLogs(c: C.Chain, cfg: Config, fromBlock: nat, l: C.LogEntry, m: C.LogEntry)
    requires C.Valid(c) && l in MerchantLogs(c, cfg, fromBlock) && m in MerchantLogs(c, cfg, fromBlock)
    requires IdentityOf(cfg, l.tx, l.index) == IdentityOf(cfg, m.tx, m.index)
    ensures l == m
  {
    hide MerchantLogs;
    MerchantTransfers(c, cfg, fromBlock, l);
    MerchantTransfers(c, cfg, fromBlock, m);
    HexWordInjective(l.tx, m.tx);
    C.LogIdentity(c, l, m);
  }

  lemma EncodedLog(token: Address, logs: seq<C.LogEntry>, raw: RawLog) returns (l: C.LogEntry)
    requires raw in EncodeLogs(token, logs)
    ensures l in logs && raw == EncodeLog(token, l)
  {
    var raws := EncodeLogs(token, logs);
    var i :| 0 <= i < |raws| && raws[i] == raw;
    l := logs[i];
  }

  /** On truthful logs the job never fails, whatever ledger it runs against. */
  lemma GapAnswers(c: C.Chain, cfg: Config, orders: Ledger, fromBlock: nat)
    requires ValidConfig(cfg) && C.Valid(c)
    ensures Gap(c, cfg, orders, fromBlock).Some?
  {
    var logs := MerchantLogs(c, cfg, fromBlock);
    var raws := EncodeLogs(cfg.token, logs);
    var scope := MerchantScope(cfg);
    hide R.Observe, EncodeLog, MerchantLogs, EncodeLogs, R.Unreconciled, MerchantScope, IdentityOf;
    forall raw | raw in raws ensures R.Observe(raw, scope).Ok? {
      var l := EncodedLog(cfg.token, logs, raw);
      MerchantLogObserved(c, cfg, fromBlock, l);
    }
    forall p, q | p in raws && q in raws ensures !R.Conflict(p, q, scope) {
      var l := EncodedLog(cfg.token, logs, p);
      var m := EncodedLog(cfg.token, logs, q);
      MerchantLogObserved(c, cfg, fromBlock, l);
      MerchantLogObserved(c, cfg, fromBlock, m);
      CreditIdentity(cfg, l);
      CreditIdentity(cfg, m);
      if R.Conflict(p, q, scope) {
        IdentitiesAreLogs(c, cfg, fromBlock, l, m);
      }
    }
    assert !R.Inconclusive(raws, scope);
    R.MissingArranged(raws, PaidIdentities(orders), scope);
  }

  lemma CreditIdentity(cfg: Config, l: C.LogEntry)
    requires l.event.Transfer? && l.block <= UINT256_MAX && l.index <= UINT256_MAX
    ensures R.CreditOf(cfg.token, cfg.chainId, l).identity == IdentityOf(cfg, l.tx, l.index)
    ensures R.CreditOf(cfg.token, cfg.chainId, l).value == l.event.value
    ensures !R.CreditOf(cfg.token, cfg.chainId, l).removed
  {
  }

  /** The job reports exactly the live credits the ledger does not know. */
  lemma GapIsForgotten(c: C.Chain, cfg: Config, orders: Ledger, fromBlock: nat, l: C.LogEntry)
    requires ValidConfig(cfg) && C.Valid(c) && l in MerchantLogs(c, cfg, fromBlock)
    ensures Gap(c, cfg, orders, fromBlock).Some?
    ensures l.event.Transfer? && l.block <= UINT256_MAX && l.index <= UINT256_MAX
    ensures R.CreditOf(cfg.token, cfg.chainId, l) in Gap(c, cfg, orders, fromBlock).value
       <==> IdentityOf(cfg, l.tx, l.index) !in PaidIdentities(orders)
  {
    var raws := EncodeLogs(cfg.token, MerchantLogs(c, cfg, fromBlock));
    var scope := MerchantScope(cfg);
    GapAnswers(c, cfg, orders, fromBlock);
    hide R.Observe, EncodeLog, MerchantLogs, PaidIdentities, MerchantScope, IdentityOf;
    MerchantLogObserved(c, cfg, fromBlock, l);
    CreditIdentity(cfg, l);
    R.MissingArranged(raws, PaidIdentities(orders), scope);
    var logs := MerchantLogs(c, cfg, fromBlock);
    var i :| 0 <= i < |logs| && logs[i] == l;
    assert raws[i] == EncodeLog(cfg.token, l) && raws[i] in raws;
  }

  // ---------------------------------------------------------------- the reported credits

  ghost predicate DistinctIdentities(credits: seq<R.OnChainCredit>) {
    forall i, j :: 0 <= i < j < |credits| ==> credits[i].identity != credits[j].identity
  }

  lemma GapIdentitiesDistinct(c: C.Chain, cfg: Config, orders: Ledger, fromBlock: nat)
    requires ValidConfig(cfg) && C.Valid(c) && Gap(c, cfg, orders, fromBlock).Some?
    ensures DistinctIdentities(Gap(c, cfg, orders, fromBlock).value)
  {
    var raws := EncodeLogs(cfg.token, MerchantLogs(c, cfg, fromBlock));
    R.MissingArranged(raws, PaidIdentities(orders), MerchantScope(cfg));
    hide R.DecodeTransferLog, EncodeLog, MerchantLogs, MerchantScope, Arranged;
    var gap := Gap(c, cfg, orders, fromBlock).value;
    forall i, j | 0 <= i < j < |gap| ensures gap[i].identity != gap[j].identity {
      assert gap[i] in gap && gap[j] in gap && R.CreditLess(gap[i], gap[j]);
      NotLessThanItself(gap[i]);
      var l :| l in raws && R.Observe(l, MerchantScope(cfg)) == Common.Ok(gap[i]);
      var m :| m in raws && R.Observe(m, MerchantScope(cfg)) == Common.Ok(gap[j]);
      assert !R.Conflict(l, m, MerchantScope(cfg));
    }
  }

  lemma NotLessThanItself(credit: R.OnChainCredit)
    ensures !R.CreditLess(credit, credit)
  {
    R.CreditOrder();
  }

  // ---------------------------------------------------------------- recovered orders keep their own key

  /** A recovered order sits under the key of the identity it was booked for. */
  ghost predicate Keyed(cfg: Config, orders: Ledger) {
    forall id :: id in orders && id.Recovered? ==>
      var o := orders[id];
      && o.paid && o.expiresAt == 0
      && o.identity.Some? && Normalized(o.identity.value) && id.key == IdentityKey(o.identity.value)
  }

  ghost predicate KeyedWorld(w: World, cfg: Config) {
    Keyed(cfg, w.orders) && forall b :: b in w.backups ==> Keyed(cfg, b)
  }

  /** The wall clock runs after 1970, when recovered orders expired. */
  predicate ClockRuns(step: Step) { step.PayStep? ==> step.env.now > 0 }

  lemma PayTouchesNoRecovered(w: World, cfg: Config, id: OrderId, auth: T.Authorization, env: Env)
    requires Keyed(cfg, w.orders) && env.now > 0
    ensures Keyed(cfg, Pay(w, cfg, id, auth, env).0.orders) && Pay(w, cfg, id, auth, env).0.backups == w.backups
  {
    hide LogIndex, QueriesLogs, Receipt, C.Run, SafeToSubmit, C.Next, IdentityKey, Confirm;
    if id in w.orders && id.Ordinary? {
      var o := w.orders[id];
      if o.pendingTx.Some? && o.pendingAuthorization.Some? {
        ConfirmOutcome(w, cfg, id, o.pendingAuthorization.value, o.pendingTx.value, env);
      }
      ConfirmOutcome(Broadcast(w, id, auth, env.tx), cfg, id, auth, env.tx, env);
    }
  }

  lemma CreditNormalized(w: World, cfg: Config, fromBlock: nat, credit: R.OnChainCredit)
    requires Inv(w, cfg) && Gap(w.chain, cfg, w.orders, fromBlock).Some?
    requires credit in Gap(w.chain, cfg, w.orders, fromBlock).value
    ensures Normalized(credit.identity)
  {
    hide Gap;
    var l := CreditIsLog(w.chain, cfg, fromBlock, w.orders, credit);
    CreditIdentity(cfg, l);
    TrueIdentityNormalized(cfg, l.tx, l.index);
  }

  lemma {:induction false} HealKeepsKeyed(cfg: Config, orders: Ledger, credits: seq<R.OnChainCredit>)
    requires Keyed(cfg, orders) && forall c :: c in credits ==> Normalized(c.identity)
    ensures Keyed(cfg, Heal(orders, credits))
  {
    hide IdentityKey, Normalized;
    if credits != [] {
      assert credits[|credits| - 1] in credits;
      HealKeepsKeyed(cfg, orders, credits[..|credits| - 1]);
    }
  }

  lemma NextKeepsKeyed(w: World, cfg: Config, step: Step)
    requires Inv(w, cfg) && KeyedWorld(w, cfg) && ClockRuns(step)
    ensures KeyedWorld(Next(w, cfg, step), cfg)
  {
    hide Inv, Pay, Gap, Heal;
    match step
    case PayStep(id, auth, env) => PayTouchesNoRecovered(w, cfg, id, auth, env);
    case ReconcileStep(fromBlock) =>
      if Gap(w.chain, cfg, w.orders, fromBlock).Some? {
        forall c | c in Gap(w.chain, cfg, w.orders, fromBlock).value ensures Normalized(c.identity) {
          CreditNormalized(w, cfg, fromBlock, c);
        }
        HealKeepsKeyed(cfg, w.orders, Gap(w.chain, cfg, w.orders, fromBlock).value);
      }
    case QuoteStep(_, _) =>
    case SetFairPrice(_) =>
    case ChainMoves(_) =>
    case Backup =>
    case Restore(_) =>
  }

  lemma {:induction false} RunKeepsKeyed(w: World, cfg: Config, steps: seq<Step>)
    requires Inv(w, cfg) && KeyedWorld(w, cfg) && forall s :: s in steps ==> ClockRuns(s)
    ensures KeyedWorld(Run(w, cfg, steps), cfg)
    decreases |steps|
  {
    if steps != [] {
      assert steps[0] in steps;
      NextKeepsKeyed(w, cfg, steps[0]);
      NextKeepsInv(w, cfg, steps[0]);
      hide Inv, KeyedWorld, Next;
      RunKeepsKeyed(Next(w, cfg, steps[0]), cfg, steps[1..]);
    }
  }

  // ---------------------------------------------------------------- what healing adds

  function SumValues(credits: seq<R.OnChainCredit>): nat {
    if credits == [] then 0 else SumValues(credits[..|credits| - 1]) + credits[|credits| - 1].value
  }

  ghost function SumAmounts(orders: Ledger, ids: set<OrderId>): nat
    requires ids <= orders.Keys
    decreases |ids|
  {
    if ids == {} then 0
    else
      var id :| id in ids;
      orders[id].amount + SumAmounts(orders, ids - {id})
  }

  lemma {:induction false} SumAmountsPick(orders: Ledger, ids: set<OrderId>, id: OrderId)
    requires ids <= orders.Keys && id in ids
    ensures SumAmounts(orders, ids) == orders[id].amount + SumAmounts(orders, ids - {id})
    decreases |ids|
  {
    var other :| other in ids && SumAmounts(orders, ids) == orders[other].amount + SumAmounts(orders, ids - {other});
    if other != id {
      SumAmountsPick(orders, ids - {other}, id);
      SumAmountsPick(orders, ids - {id}, other);
      assert ids - {other} - {id} == ids - {id} - {other};
    }
  }

  lemma {:induction false} SumAmountsAgrees(a: Ledger, b: Ledger, ids: set<OrderId>)
    requires ids <= a.Keys && ids <= b.Keys && forall id :: id in ids ==> a[id] == b[id]
    ensures SumAmounts(a, ids) == SumAmounts(b, ids)
    decreases |ids|
  {
    if ids != {} {
      var id :| id in ids;
      SumAmountsPick(a, ids, id);
      SumAmountsPick(b, ids, id);
      SumAmountsAgrees(a, b, ids - {id});
    }
  }

  /** The ledger keeps what it had and gains a recovered order for each credit. */
  ghost predicate Booked(orders: Ledger, healed: Ledger, credits: seq<R.OnChainCredit>) {
    && orders.Keys <= healed.Keys
    && (forall id :: id in orders ==> healed[id] == orders[id])
    && (forall c :: c in credits ==> RecoveredId(c) in healed && healed[RecoveredId(c)] == RecoveredOrder(c))
    && (forall id :: id in healed && id !in orders ==> exists c :: c in credits && id == RecoveredId(c))
  }

  /** The new orders are as many as the credits, and worth as much. */
  ghost predicate Worth(orders: Ledger, healed: Ledger, credits: seq<R.OnChainCredit>) {
    && SumAmounts(healed, healed.Keys - orders.Keys) == SumValues(credits)
    && |healed.Keys - orders.Keys| == |credits|
  }

  /** Everything healing does to a ledger. */
  ghost predicate Healed(orders: Ledger, healed: Ledger, credits: seq<R.OnChainCredit>) {
    Booked(orders, healed, credits) && Worth(orders, healed, credits)
  }

  lemma {:induction false} HealAdds(orders: Ledger, credits: seq<R.OnChainCredit>)
    requires DistinctIdentities(credits) && forall c :: c in credits ==> Normalized(c.identity) && RecoveredId(c) !in orders
    ensures Healed(orders, Heal(orders, credits), credits)
  {
    hide IdentityKey, Normalized, RecoveredId, RecoveredOrder, Booked, Worth;
    if credits == [] {
      NothingToHeal(orders);
    } else {
      var init, last := credits[..|credits| - 1], credits[|credits| - 1];
      assert credits == init + [last];
      HealAdds(orders, init);
      HealOne(orders, Heal(orders, init), init, last);
    }
  }

  lemma NothingToHeal(orders: Ledger)
    ensures Healed(orders, orders, [])
  {
    assert orders.Keys - orders.Keys == {};
  }

  lemma HealOne(orders: Ledger, healed: Ledger, init: seq<R.OnChainCredit>, last: R.OnChainCredit)
    requires Healed(orders, healed, init) && RecoveredId(last) !in orders
    requires DistinctIdentities(init + [last]) && forall c :: c in init + [last] ==> Normalized(c.identity)
    ensures Healed(orders, healed[RecoveredId(last) := RecoveredOrder(last)], init + [last])
  {
    hide IdentityKey, Normalized, RecoveredId, RecoveredOrder, Booked, Worth;
    assert (init + [last])[|init|] == last;
    forall c | c in init ensures c.identity != last.identity && c in init + [last] {
      var i :| 0 <= i < |init| && init[i] == c;
      assert (init + [last])[i] == c;
    }
    NotYetBooked(orders, healed, init, last);
    BookOne(orders, healed, init, last);
    WorthOne(orders, healed, init, last);
  }

  lemma NotYetBooked(orders: Ledger, healed: Ledger, init: seq<R.OnChainCredit>, last: R.OnChainCredit)
    requires Booked(orders, healed, init) && RecoveredId(last) !in orders && Normalized(last.identity)
    requires forall c :: c in init ==> Normalized(c.identity) && c.identity != last.identity
    ensures RecoveredId(last) !in healed
  {
    hide IdentityKey, Normalized, RecoveredOrder;
    if RecoveredId(last) in healed {
      var c :| c in init && RecoveredId(last) == RecoveredId(c);
      IdentityKeyUnambiguous(c.identity, last.identity);
    }
  }

  lemma BookOne(orders: Ledger, healed: Ledger, init: seq<R.OnChainCredit>, last: R.OnChainCredit)
    requires Booked(orders, healed, init) && RecoveredId(last) !in healed
    ensures Booked(orders, healed[RecoveredId(last) := RecoveredOrder(last)], init + [last])
  {
    hide RecoveredOrder, RecoveredId;
    var after := healed[RecoveredId(last) := RecoveredOrder(last)];
    forall c | c in init + [last] ensures RecoveredId(c) in after && after[RecoveredId(c)] == RecoveredOrder(c) {
      assert c in init || c == last;
    }
    forall id | id in after && id !in orders ensures exists c :: c in init + [last] && id == RecoveredId(c) {
      if id == RecoveredId(last) {
        assert last in init + [last];
      } else {
        var c :| c in init && id == RecoveredId(c);
        assert c in init + [last];
      }
    }
  }

  lemma SumAmountsAdd(orders: Ledger, healed: Ledger, id: OrderId, o: Order)
    requires orders.Keys <= healed.Keys && id !in healed
    ensures var after := healed[id := o];
            && SumAmounts(after, after.Keys - orders.Keys) == SumAmounts(healed, healed.Keys - orders.Keys) + o.amount
            && |after.Keys - orders.Keys| == |healed.Keys - orders.Keys| + 1
  {
    var after := healed[id := o];
    var added := after.Keys - orders.Keys;
    assert added - {id} == healed.Keys - orders.Keys;
    SumAmountsPick(after, added, id);
    SumAmountsAgrees(after, healed, added - {id});
  }

  lemma SumValuesSnoc(init: seq<R.OnChainCredit>, last: R.OnChainCredit)
    ensures SumValues(init + [last]) == SumValues(init) + last.value
  {
    assert (init + [last])[..|init|] == init;
  }

  lemma WorthOne(orders: Ledger, healed: Ledger, init: seq<R.OnChainCredit>, last: R.OnChainCredit)
    requires Worth(orders, healed, init) && Booked(orders, healed, init) && RecoveredId(last) !in healed
    ensures Worth(orders, healed[RecoveredId(last) := RecoveredOrder(last)], init + [last])
  {
    assert RecoveredOrder(last).amount == last.value;
    hide IdentityKey, HashOfText, RecoveredId, RecoveredOrder, SumAmounts, SumValues;
    SumAmountsAdd(orders, healed, RecoveredId(last), RecoveredOrder(last));
    SumValuesSnoc(init, last);
  }

  /** A reported credit's id is new to a ledger whose recovered orders keep their own keys. */
  lemma NewIds(w: World, cfg: Config, fromBlock: nat, credit: R.OnChainCredit)
    requires Inv(w, cfg) && Keyed(cfg, w.orders) && Gap(w.chain, cfg, w.orders, fromBlock).Some?
    requires credit in Gap(w.chain, cfg, w.orders, fromBlock).value
    ensures RecoveredId(credit) !in w.orders
  {
    CreditNormalized(w, cfg, fromBlock, credit);
    hide IdentityKey, Normalized;
    R.MissingArranged(EncodeLogs(cfg.token, MerchantLogs(w.chain, cfg, fromBlock)), PaidIdentities(w.orders), MerchantScope(cfg));
    hide Gap, Inv, R.Missing;
    assert credit.identity !in PaidIdentities(w.orders) by {
      GapUnknown(w.chain, cfg, w.orders, fromBlock, credit);
    }
    var id := RecoveredId(credit);
    if id in w.orders {
      IdentityKeyUnambiguous(w.orders[id].identity.value, credit.identity);
    }
  }

  lemma GapUnknown(c: C.Chain, cfg: Config, orders: Ledger, fromBlock: nat, credit: R.OnChainCredit)
    requires Gap(c, cfg, orders, fromBlock).Some? && credit in Gap(c, cfg, orders, fromBlock).value
    ensures credit.identity !in PaidIdentities(orders)
  {
    R.MissingArranged(EncodeLogs(cfg.token, MerchantLogs(c, cfg, fromBlock)), PaidIdentities(orders), MerchantScope(cfg));
    hide R.Observed;
  }

  /** What a reconciliation with healing leaves, for any ledger of a reachable world. */
  ghost predicate GapClosed(w: World, cfg: Config, fromBlock: nat) {
    var v := Reconcile(w, cfg, fromBlock);
    && Gap(w.chain, cfg, w.orders, fromBlock).Some?
    && Healed(w.orders, v.orders, Gap(w.chain, cfg, w.orders, fromBlock).value)
    && PaidIdentities(v.orders) == PaidIdentities(w.orders) + LiveIdentities(w.chain, cfg, fromBlock)
    && Gap(v.chain, cfg, v.orders, fromBlock) == Some([])
  }

  /** A healed order's identity was known before or is a live one. */
  lemma HealedFromGap(c: C.Chain, cfg: Config, orders: Ledger, fromBlock: nat, healed: Ledger, id: OrderId)
    requires ValidConfig(cfg) && C.Valid(c) && Gap(c, cfg, orders, fromBlock).Some?
    requires Booked(orders, healed, Gap(c, cfg, orders, fromBlock).value)
    requires id in healed && healed[id].paid && healed[id].identity.Some? && id !in orders
    ensures healed[id].identity.value in LiveIdentities(c, cfg, fromBlock)
  {
    hide Gap, MerchantLogs, IdentityOf, IdentityKey, HashOfText, C.Valid;
    var credit :| credit in Gap(c, cfg, orders, fromBlock).value && id == RecoveredId(credit);
    assert healed[id] == RecoveredOrder(credit);
    var l := CreditIsLog(c, cfg, fromBlock, orders, credit);
    CreditIdentity(cfg, l);
  }

  /** A live identity that was not known is a healed order's now. */
  lemma LiveIsHealed(c: C.Chain, cfg: Config, orders: Ledger, fromBlock: nat, healed: Ledger, l: C.LogEntry)
    requires ValidConfig(cfg) && C.Valid(c) && Gap(c, cfg, orders, fromBlock).Some?
    requires Booked(orders, healed, Gap(c, cfg, orders, fromBlock).value)
    requires l in MerchantLogs(c, cfg, fromBlock)
    ensures IdentityOf(cfg, l.tx, l.index) in PaidIdentities(orders) || IdentityOf(cfg, l.tx, l.index) in PaidIdentities(healed)
  {
    hide Gap, MerchantLogs, IdentityOf, IdentityKey, HashOfText, C.Valid;
    GapIsForgotten(c, cfg, orders, fromBlock, l);
    CreditIdentity(cfg, l);
    var credit := R.CreditOf(cfg.token, cfg.chainId, l);
    if IdentityOf(cfg, l.tx, l.index) !in PaidIdentities(orders) {
      assert healed[RecoveredId(credit)] == RecoveredOrder(credit);
    }
  }

  lemma KnownStaysKnown(orders: Ledger, healed: Ledger, credits: seq<R.OnChainCredit>)
    requires Booked(orders, healed, credits)
    ensures PaidIdentities(orders) <= PaidIdentities(healed)
  {
    forall identity | identity in PaidIdentities(orders) ensures identity in PaidIdentities(healed) {
      var id :| id in orders && orders[id].paid && orders[id].identity.Some? && orders[id].identity.value == identity;
      assert healed[id] == orders[id];
    }
  }

  lemma HealedIdentities(c: C.Chain, cfg: Config, orders: Ledger, fromBlock: nat, healed: Ledger)
    requires ValidConfig(cfg) && C.Valid(c) && Gap(c, cfg, orders, fromBlock).Some?
    requires Booked(orders, healed, Gap(c, cfg, orders, fromBlock).value)
    ensures PaidIdentities(healed) == PaidIdentities(orders) + LiveIdentities(c, cfg, fromBlock)
  {
    hide Gap, MerchantLogs, IdentityOf, C.Valid, RecoveredId, RecoveredOrder;
    KnownStaysKnown(orders, healed, Gap(c, cfg, orders, fromBlock).value);
    forall identity | identity in PaidIdentities(healed)
      ensures identity in PaidIdentities(orders) + LiveIdentities(c, cfg, fromBlock)
    {
      var id :| id in healed && healed[id].paid && healed[id].identity.Some? && healed[id].identity.value == identity;
      if id !in orders {
        HealedFromGap(c, cfg, orders, fromBlock, healed, id);
      }
    }
    hide PaidIdentities;
    forall l | l in MerchantLogs(c, cfg, fromBlock)
      ensures IdentityOf(cfg, l.tx, l.index) in PaidIdentities(healed)
    {
      LiveIsHealed(c, cfg, orders, fromBlock, healed, l);
    }
  }

  /** Once every live identity is known there is nothing left to report. */
  lemma NothingLeft(c: C.Chain, cfg: Config, orders: Ledger, fromBlock: nat)
    requires ValidConfig(cfg) && C.Valid(c) && LiveIdentities(c, cfg, fromBlock) <= PaidIdentities(orders)
    ensures Gap(c, cfg, orders, fromBlock) == Some([])
  {
    GapAnswers(c, cfg, orders, fromBlock);
    hide Gap, MerchantLogs, IdentityOf, PaidIdentities;
    var gap := Gap(c, cfg, orders, fromBlock).value;
    if gap != [] {
      assert gap[0] in gap;
      GapUnknown(c, cfg, orders, fromBlock, gap[0]);
      var l := CreditIsLog(c, cfg, fromBlock, orders, gap[0]);
      CreditIdentity(cfg, l);
    }
  }

  lemma ReconcileClosesGap(w: World, cfg: Config, fromBlock: nat)
    requires Inv(w, cfg) && Keyed(cfg, w.orders) && cfg.healing
    ensures GapClosed(w, cfg, fromBlock)
  {
    GapAnswers(w.chain, cfg, w.orders, fromBlock);
    GapIdentitiesDistinct(w.chain, cfg, w.orders, fromBlock);
    var gap := Gap(w.chain, cfg, w.orders, fromBlock).value;
    hide Gap, LedgerOk, SentOk, PaidIdentities, LiveIdentities, Healed, DistinctIdentities, Normalized, Keyed;
    forall c | c in gap ensures Normalized(c.identity) && RecoveredId(c) !in w.orders {
      CreditNormalized(w, cfg, fromBlock, c);
      NewIds(w, cfg, fromBlock, c);
    }
    HealAdds(w.orders, gap);
    var healed := Heal(w.orders, gap);
    HealedIdentities(w.chain, cfg, w.orders, fromBlock, healed);
    NothingLeft(w.chain, cfg, healed, fromBlock);
  }

  /**
   Restoring any backup of any run and reconciling it with healing on: every order of the backup stands
   untouched, the new orders are exactly the forgotten credits (one each, with their values), the paid
   identities are the backup's plus all live merchant credits, and a second pass finds nothing.
   */
  lemma RestoreAndHealClosesGap(cfg: Config, admin: Address, genesisHead: C.Head, steps: seq<Step>, i: nat, fromBlock: nat)
    requires ValidConfig(cfg) && cfg.healing && forall s :: s in steps ==> ClockRuns(s)
    requires i < |Run(Launch(cfg, admin, genesisHead), cfg, steps).backups|
    ensures GapClosed(Next(Run(Launch(cfg, admin, genesisHead), cfg, steps), cfg, Restore(i)), cfg, fromBlock)
  {
    var w0 := Launch(cfg, admin, genesisHead);
    LaunchInv(cfg, admin, genesisHead);
    RunKeepsInv(w0, cfg, steps);
    RunKeepsKeyed(w0, cfg, steps);
    var w := Run(w0, cfg, steps);
    hide Run, Launch, GapClosed, LedgerOk, SentOk, Keyed;
    NextKeepsInv(w, cfg, Restore(i));
    ReconcileClosesGap(Next(w, cfg, Restore(i)), cfg, fromBlock);
  }

  /** The order healing makes of a credit: recovered, paid over its value, expired, named after its settlement. */
  ghost predicate BooksCredit(id: OrderId, o: Order, credit: R.OnChainCredit) {
    var i := credit.identity;
    && i.chainId >= 0 && id == Recovered(Numeral(i.chainId, 10) + ":" + i.asset + ":" + i.txHash + ":" + Numeral(i.logIndex, 10))
    && o.amount == credit.value && o.quotedFairPrice == credit.value && o.expiresAt == 0
    && o.paid && o.recovered && o.identity == Some(i) && o.resource == Some(RecoveredFrom(i.txHash))
    && o.createdBlock == 0 && o.settleAttempts == 0
    && o.nonceSeen.None? && o.pendingTx.None? && o.pendingAuthorization.None?
  }

  lemma RecoveredBooks(credit: R.OnChainCredit)
    requires Normalized(credit.identity)
    ensures BooksCredit(RecoveredId(credit), RecoveredOrder(credit), credit)
  {
    hide HashOfText, Numeral;
  }

  /** With healing on, a reconciliation books the gap and changes nothing but the ledger. */
  lemma HealedLedger(w: World, cfg: Config, fromBlock: nat)
    requires Inv(w, cfg) && Keyed(cfg, w.orders) && cfg.healing
    ensures Gap(w.chain, cfg, w.orders, fromBlock).Some?
    ensures var v := Next(w, cfg, ReconcileStep(fromBlock));
            Booked(w.orders, v.orders, Gap(w.chain, cfg, w.orders, fromBlock).value) && v == w.(orders := v.orders)
  {
    hide Gap, Keyed, Heal, LiveIdentities, Worth, Booked, PaidIdentities, SentOk, LedgerOk, C.Valid;
    ReconcileClosesGap(w, cfg, fromBlock);
    hide Inv;
  }

  lemma CreditOfGap(w: World, cfg: Config, fromBlock: nat, credit: R.OnChainCredit) returns (tx: Hash)
    requires Inv(w, cfg) && Keyed(cfg, w.orders) && Gap(w.chain, cfg, w.orders, fromBlock).Some?
    requires credit in Gap(w.chain, cfg, w.orders, fromBlock).value
    ensures credit.identity.txHash == HexWord(tx) && Normalized(credit.identity) && RecoveredId(credit) !in w.orders
  {
    hide Gap, Keyed, SentOk, LedgerOk, C.Valid, HexWord, Normalized, RecoveredId, HexAddress, MerchantLogs;
    CreditNormalized(w, cfg, fromBlock, credit);
    NewIds(w, cfg, fromBlock, credit);
    var l := CreditIsLog(w.chain, cfg, fromBlock, w.orders, credit);
    tx := l.tx;
    CreditIdentity(cfg, l);
    hide Inv;
  }

  /** The order that a booked ledger holds for one credit. */
  lemma BookedAt(orders: Ledger, healed: Ledger, credits: seq<R.OnChainCredit>, credit: R.OnChainCredit, tx: Hash)
    requires Booked(orders, healed, credits) && credit in credits && Normalized(credit.identity) && credit.identity.txHash == HexWord(tx)
    ensures RecoveredId(credit) in healed && BooksCredit(RecoveredId(credit), healed[RecoveredId(credit)], credit)
    ensures healed[RecoveredId(credit)].submittedTx == Some(tx)
  {
    hide RecoveredId, RecoveredOrder, BooksCredit, HexWord, Normalized;
    RecoveredBooks(credit);
    RecoveredSubmitted(credit, tx);
  }

  /** Healing books each credit of the gap under an id the ledger did not have, and changes nothing but the ledger. */
  lemma BookedExactly(w: World, cfg: Config, fromBlock: nat, credit: R.OnChainCredit) returns (id: OrderId, tx: Hash)
    requires Inv(w, cfg) && Keyed(cfg, w.orders) && cfg.healing && Gap(w.chain, cfg, w.orders, fromBlock).Some?
    requires credit in Gap(w.chain, cfg, w.orders, fromBlock).value
    ensures id !in w.orders && id in Next(w, cfg, ReconcileStep(fromBlock)).orders
    ensures BooksCredit(id, Next(w, cfg, ReconcileStep(fromBlock)).orders[id], credit)
    ensures credit.identity.txHash == HexWord(tx) && Next(w, cfg, ReconcileStep(fromBlock)).orders[id].submittedTx == Some(tx)
    ensures Next(w, cfg, ReconcileStep(fromBlock)) == w.(orders := Next(w, cfg, ReconcileStep(fromBlock)).orders)
  {
    hide *;
    HealedLedger(w, cfg, fromBlock);
    tx := CreditOfGap(w, cfg, fromBlock, credit);
    id := RecoveredId(credit);
    BookedAt(w.orders, Next(w, cfg, ReconcileStep(fromBlock)).orders, Gap(w.chain, cfg, w.orders, fromBlock).value, credit, tx);
  }

  lemma RecoveredSubmitted(credit: R.OnChainCredit, tx: Hash)
    requires credit.identity.txHash == HexWord(tx)
    ensures RecoveredOrder(credit).submittedTx == Some(tx)
  {
    HashOfWord(tx);
    hide HexWord, HashOfText;
  }

  lemma HashOfWord(tx: Hash)
    ensures HashOfText(HexWord(tx)) == tx
  {
    HexWordShape(tx);
  }

  /** Without healing a reconciliation changes nothing. */
  lemma NoHealingNoChange(w: World, cfg: Config, fromBlock: nat)
    requires !cfg.healing
    ensures Next(w, cfg, ReconcileStep(fromBlock)) == w
  {
    hide Gap, Heal;
  }
}
