/**
 What overlapping costs: two payments of one order that are both past the guards before either has broadcast
 are both broadcast, and fund the order twice. On an open order nothing keeps two requests from getting there.
 Even when one of the two fails, its request can take the slot from the other, and a retry funds the order again.
 */
module OverlappingPay {
  import opened Common
  import opened QuoteOption
  import opened Protocol
  import opened NoPhantomCredit
  import opened Funding
  import opened LostLogQuery
  import opened ConcurrentPay
  import T = Token
  import C = Chain

  /** Two requests on one order, both let through, neither sent. */
  ghost predicate BothPassed(s: Service, id: OrderId, r: nat, a: T.Authorization, q: nat, b: T.Authorization) {
    && r != q && r in s.requests && q in s.requests
    && s.requests[r] == Request(id, Passed(a)) && s.requests[q] == Request(id, Passed(b))
  }

  /** The guards of an order that is open for payment. */
  ghost predicate Open(w: World, cfg: Config, id: OrderId, now: int) {
    && id in w.orders && !w.orders[id].paid && w.orders[id].pendingTx.None? && now <= w.orders[id].expiresAt
    && !(cfg.repriceOnPay && QuoteIsStale(w.orders[id].amount, w.fairPrice, cfg.tolerance))
  }

  /** Two requests that arrive one after the other on an open order both pass its guards, whoever else is in flight. */
  lemma OverlapArises(s: Service, cfg: Config, id: OrderId, r: nat, a: T.Authorization, q: nat, b: T.Authorization, now: int)
    requires Open(s.world, cfg, id, now) && r != q && r !in s.requests && q !in s.requests
    ensures var t := Moved(Moved(s, cfg, Enter(r, id, a, now)), cfg, Enter(q, id, b, now));
            BothPassed(t, id, r, a, q, b) && t.world == s.world && !NoOverlap(t)
  {
    OpenLetsThrough(s, cfg, id, r, a, now);
    var t := Moved(s, cfg, Enter(r, id, a, now));
    OpenLetsThrough(t, cfg, id, q, b, now);
    hide Moved, Open;
  }

  /** The token would execute both authorizations in the open block, one after the other. */
  ghost predicate BothExecute(c: C.Chain, a: T.Authorization, b: T.Authorization) {
    && 0 < c.Height() < |c.heads| && C.NextLog(c.entries, c.Height()) + 4 <= UINT256_MAX
    && var time := c.heads[c.Height()].time;
       && T.Authorized(c.Now(), a, time) && a.value * c.Now().feeBps <= UINT256_MAX
       && var d := T.After(c.Now(), T.TransferWithAuthorization(a), time);
          T.Authorized(d, b, time) && b.value * d.feeBps <= UINT256_MAX
  }

  lemma RunTwo(c: C.Chain, x: C.ChainStep, y: C.ChainStep)
    ensures C.Run(c, [x, y]) == C.Run(C.Run(c, [x]), [y])
  {
    hide C.Next;
    assert [x, y][1..] == [y] && [x][1..] == [] && [y][1..] == [];
  }

  /** Both in the pool, both executable: both succeed. */
  lemma BothSucceed(c: C.Chain, a: T.Authorization, x: Hash, b: T.Authorization, y: Hash)
    requires C.Valid(c) && BothExecute(c, a, b) && x != y && x in c.pool && y in c.pool && x !in c.included && y !in c.included
    requires c.pool[x] == T.TransferWithAuthorization(a) && c.pool[y] == T.TransferWithAuthorization(b)
    ensures var d := C.Run(c, [C.Include(x), C.Include(y)]); Succeeded(d, x) && Succeeded(d, y)
  {
    hide C.Run, C.Valid, C.NextLog, T.Authorized, T.After, Succeeded;
    TransferIncluded(c, x, a);
    var d := C.Run(c, [C.Include(x)]);
    C.RunKeepsValid(c, [C.Include(x)]);
    assert d.Height() == c.Height();
    TransferIncluded(d, y, b);
    C.RunKeepsValid(d, [C.Include(y)]);
    FateOfTxPersists(d, C.Run(d, [C.Include(y)]), x);
    RunTwo(c, C.Include(x), C.Include(y));
  }

  /** Everything both payments need to be sent. */
  ghost predicate BothSafe(w: World, cfg: Config, a: T.Authorization, x: Hash, b: T.Authorization, y: Hash) {
    x != y && SafeToSubmit(w, cfg, a, SendEnv(true, x)) && SafeToSubmit(w, cfg, b, SendEnv(true, y))
  }

  ghost function TwoSent(w: World, id: OrderId, a: T.Authorization, x: Hash, b: T.Authorization, y: Hash): World
    requires id in w.orders
  {
    BroadcastHas(w, id, a, x);
    Broadcast(Broadcast(w, id, a, x), id, b, y)
  }

  lemma BothSends(s: Service, cfg: Config, id: OrderId, r: nat, a: T.Authorization, x: Hash, q: nat, b: T.Authorization, y: Hash)
    requires BothPassed(s, id, r, a, q, b) && BothSafe(s.world, cfg, a, x, b, y) && id in s.world.orders
    ensures Moved(Moved(s, cfg, Send(r, true, x)), cfg, Send(q, true, y)).world == TwoSent(s.world, id, a, x, b, y)
  {
    hide Moved;
    BroadcastHas(s.world, id, a, x);
    SendMoves(s, cfg, r, true, x);
    var t := Moved(s, cfg, Send(r, true, x));
    assert SafeToSubmit(t.world, cfg, b, SendEnv(true, y));
    SendMoves(t, cfg, q, true, y);
  }

  lemma BothPooled(w: World, cfg: Config, id: OrderId, a: T.Authorization, x: Hash, b: T.Authorization, y: Hash)
    requires C.Valid(w.chain) && BothSafe(w, cfg, a, x, b, y) && id in w.orders
    ensures var v := TwoSent(w, id, a, x, b, y);
            && C.Valid(v.chain) && v.chain.entries == w.chain.entries && v.chain.heads == w.chain.heads
            && v.chain.genesis == w.chain.genesis && v.chain.included == w.chain.included
            && x in v.chain.pool && y in v.chain.pool && x !in v.chain.included && y !in v.chain.included
            && v.chain.pool[x] == T.TransferWithAuthorization(a) && v.chain.pool[y] == T.TransferWithAuthorization(b)
            && v.sent == w.sent + [Sent(id, x, a), Sent(id, y, b)]
  {
    BroadcastHas(w, id, a, x);
    NotYetKnown(w, x);
    NotYetKnown(w, y);
    var c := C.Next(w.chain, C.Submit(x, T.TransferWithAuthorization(a)));
    C.NextKeepsValid(w.chain, C.Submit(x, T.TransferWithAuthorization(a)));
    C.NextKeepsValid(c, C.Submit(y, T.TransferWithAuthorization(b)));
  }

  /** Both are sent, the chain includes both. */
  function TwoSends(r: nat, x: Hash, q: nat, y: Hash): seq<Move> {
    [Send(r, true, x), Send(q, true, y), Meanwhile(ChainMoves([C.Include(x), C.Include(y)]))]
  }

  /**
   From any state with two payments of one order past its guards, if the token would execute both
   authorizations, the order is funded twice.
   */
  lemma OverlapFundsTwice(
    s: Service, cfg: Config, id: OrderId, r: nat, a: T.Authorization, x: Hash, q: nat, b: T.Authorization, y: Hash)
    requires C.Valid(s.world.chain) && id in s.world.orders && BothPassed(s, id, r, a, q, b)
    requires BothSafe(s.world, cfg, a, x, b, y) && BothExecute(s.world.chain, a, b)
    ensures var w := Moves(s, cfg, TwoSends(r, x, q, y)).world;
            && Sent(id, x, a) in w.sent && Sent(id, y, b) in w.sent && Sent(id, x, a) != Sent(id, y, b)
            && Succeeded(w.chain, x) && Succeeded(w.chain, y)
  {
    BothSends(s, cfg, id, r, a, x, q, b, y);
    BothPooled(s.world, cfg, id, a, x, b, y);
    var v := TwoSent(s.world, id, a, x, b, y);
    hide TwoSent, BothSafe, BothPassed, C.Valid, C.Run, Moved;
    SameTip(s.world.chain, v.chain, a, b);
    BothSucceed(v.chain, a, x, b, y);
    hide BothExecute, Succeeded;
    ThreeMoves(s, cfg, r, x, q, y);
    assert v.sent[|s.world.sent|] == Sent(id, x, a) && v.sent[|s.world.sent| + 1] == Sent(id, y, b);
  }

  lemma SameTip(c: C.Chain, d: C.Chain, a: T.Authorization, b: T.Authorization)
    requires BothExecute(c, a, b) && d.entries == c.entries && d.heads == c.heads && d.genesis == c.genesis
    ensures BothExecute(d, a, b)
  {
    hide T.Authorized, T.After, C.NextLog;
  }

  lemma ThreeMoves(s: Service, cfg: Config, r: nat, x: Hash, q: nat, y: Hash)
    ensures var t := Moved(Moved(s, cfg, Send(r, true, x)), cfg, Send(q, true, y));
            Moves(s, cfg, TwoSends(r, x, q, y)).world
            == t.world.(chain := C.Run(t.world.chain, [C.Include(x), C.Include(y)]))
  {
    var moves := TwoSends(r, x, q, y);
    var t := Moved(Moved(s, cfg, moves[0]), cfg, moves[1]);
    assert Moved(t, cfg, moves[2]).world == t.world.(chain := C.Run(t.world.chain, [C.Include(x), C.Include(y)])) by {
      hide C.Run;
    }
    hide Moved, C.Run;
    assert moves == [moves[0]] + ([moves[1]] + ([moves[2]] + []));
    MoveFirst(s, cfg, moves[0], [moves[1]] + ([moves[2]] + []));
    MoveFirst(Moved(s, cfg, moves[0]), cfg, moves[1], [moves[2]] + []);
    MoveFirst(t, cfg, moves[2], []);
  }

  /**
   A request past the guards does not notice that an earlier one has landed meanwhile: if the token would
   execute its authorization too, sending it funds the order a second time.
   */
  lemma LatePassFundsTwice(s: Service, cfg: Config, id: OrderId, first: Sent, q: nat, b: T.Authorization, y: Hash)
    requires C.Valid(s.world.chain) && SentOk(s.world, cfg) && id in s.world.orders
    requires first in s.world.sent && first.order == id && Succeeded(s.world.chain, first.tx)
    requires q in s.requests && s.requests[q] == Request(id, Passed(b))
    requires SafeToSubmit(s.world, cfg, b, SendEnv(true, y)) && Executable(s.world.chain, b)
    ensures var t := Moved(Moved(s, cfg, Send(q, true, y)), cfg, Meanwhile(ChainMoves([C.Include(y)])));
            && first in t.world.sent && Sent(id, y, b) in t.world.sent && first != Sent(id, y, b)
            && Succeeded(t.world.chain, first.tx) && Succeeded(t.world.chain, y)
  {
    SendMoves(s, cfg, q, true, y);
    BroadcastLands(s.world, cfg, id, b, y);
    C.NextKeepsValid(s.world.chain, C.Submit(y, T.TransferWithAuthorization(b)));
    var v := Broadcast(s.world, id, b, y);
    C.RunKeepsValid(v.chain, [C.Include(y)]);
    var d := C.Run(v.chain, [C.Include(y)]);
    hide C.Valid, Executable, C.Run, C.Next;
    C.ExtendsTransitive(s.world.chain, v.chain, d);
    FateOfTxPersists(s.world.chain, d, first.tx);
    hide C.Extends, Succeeded;
    assert v.sent[|s.world.sent|] == Sent(id, y, b);
  }

  // ---------------------------------------------------------------- a stale waiter

  /** A request that waits for a failed broadcast of an open order of which another broadcast succeeded. */
  ghost predicate WaitsInVain(s: Service, id: OrderId, r: nat, a: T.Authorization, x: Hash, later: Sent) {
    && r in s.requests && s.requests[r] == Request(id, Confirming(a, x)) && Failed(s.world.chain, x)
    && later in s.world.sent && later.order == id && Succeeded(s.world.chain, later.tx)
    && id in s.world.orders && !s.world.orders[id].paid
  }

  /** And the order's slot holds that other broadcast. */
  ghost predicate StaleWaiter(s: Service, id: OrderId, r: nat, a: T.Authorization, x: Hash, later: Sent) {
    WaitsInVain(s, id, r, a, x, later) && s.world.orders[id].pendingTx == Some(later.tx)
  }

  /** Two requests past the guards: both send, the second parks, and the first waits on with a transaction that is not the slot's. */
  lemma StaleWaiterArises(
    s: Service, cfg: Config, id: OrderId, r: nat, a: T.Authorization, x: Hash, q: nat, b: T.Authorization, y: Hash)
    requires BothPassed(s, id, r, a, q, b) && BothSafe(s.world, cfg, a, x, b, y) && id in s.world.orders && !cfg.confirmWithoutWaiting
    ensures var t := Moved(Moved(Moved(s, cfg, Send(r, true, x)), cfg, Send(q, true, y)), cfg, Park(q));
            && r in t.requests && t.requests[r] == Request(id, Confirming(a, x)) && q !in t.requests
            && id in t.world.orders && t.world.orders[id].paid == s.world.orders[id].paid && t.world.orders[id].pendingTx == Some(y)
            && Sent(id, x, a) in t.world.sent && Sent(id, y, b) in t.world.sent
            && t.world.chain == TwoSent(s.world, id, a, x, b, y).chain
  {
    BothSends(s, cfg, id, r, a, x, q, b, y);
    BroadcastHas(s.world, id, a, x);
    SendMoves(s, cfg, r, true, x);
    var t := Moved(s, cfg, Send(r, true, x));
    assert SafeToSubmit(t.world, cfg, b, SendEnv(true, y));
    SendMoves(t, cfg, q, true, y);
    var u := Moved(t, cfg, Send(q, true, y));
    assert u.requests[r] == Request(id, Confirming(a, x)) && u.requests[q] == Request(id, Confirming(b, y));
    assert u.world.sent[|s.world.sent|] == Sent(id, x, a) && u.world.sent[|s.world.sent| + 1] == Sent(id, y, b);
    hide SafeToSubmit, C.Next, BothSafe;
  }

  /** If its own receipt arrives, the waiter clears the slot, whatever it holds. */
  lemma StaleWaiterClearsSlot(s: Service, cfg: Config, id: OrderId, r: nat, a: T.Authorization, x: Hash, later: Sent)
    requires C.Valid(s.world.chain) && WaitsInVain(s, id, r, a, x, later) && !cfg.confirmWithoutWaiting
    ensures var t := Moved(Moved(s, cfg, Free(r)), cfg, Decide(r, true));
            LostSlot(t.world, id, later) && t.world.orders[id] == Cleared(s.world.orders[id]) && t.requests == s.requests - {r}
  {
    hide Moved, LogIndex, IdentityOf, C.Valid;
    FreeMoves(s, cfg, r);
    var t := Moved(s, cfg, Free(r));
    DecideMoves(t, cfg, r);
    if LogIndex(t.world.chain, cfg, a, t.world.orders[id], x).Some? {
      IndexMeansSuccess(t.world, cfg, a, t.world.orders[id], x);
    }
    assert t.requests - {r} == s.requests - {r};
  }

  /** If it gives up waiting, it parks its own transaction over the other one ... */
  lemma StaleWaiterOverwritesSlot(s: Service, cfg: Config, id: OrderId, r: nat, a: T.Authorization, x: Hash, later: Sent)
    requires StaleWaiter(s, id, r, a, x, later) && !cfg.confirmWithoutWaiting
    ensures var t := Moved(s, cfg, Park(r));
            && t.world == WithOrder(s.world, id, Parked(s.world.orders[id], a, x)) && t.requests == s.requests - {r}
  {
    hide LogIndex, Receipt;
  }

  /** A pending order resumes, whatever the retry carries. */
  lemma PendingResumes(s: Service, cfg: Config, id: OrderId, q: nat, retry: T.Authorization, now: int, a: T.Authorization, x: Hash)
    requires cfg.idempotent && q !in s.requests && id in s.world.orders && !s.world.orders[id].paid
    requires s.world.orders[id].pendingTx == Some(x) && s.world.orders[id].pendingAuthorization == Some(a)
    ensures Moved(s, cfg, Enter(q, id, retry, now)) == s.(requests := s.requests[q := Request(id, Confirming(a, x))])
  {
    hide QuoteIsStale;
  }

  /** ... and the next retry waits for that one, clears the slot, and leaves the order open though it was funded. */
  lemma StaleParkLosesSlot(s: Service, cfg: Config, id: OrderId, r: nat, a: T.Authorization, x: Hash, later: Sent,
                           q: nat, retry: T.Authorization, now: int)
    requires C.Valid(s.world.chain) && StaleWaiter(s, id, r, a, x, later) && WaitingAndIdempotent(cfg) && q !in s.requests
    ensures var t := Moved(Moved(s, cfg, Park(r)), cfg, Enter(q, id, retry, now));
            var u := Moved(Moved(t, cfg, Free(q)), cfg, Decide(q, true));
            LostSlot(u.world, id, later)
  {
    hide Moved, C.Valid, Failed, Succeeded;
    StaleWaiterOverwritesSlot(s, cfg, id, r, a, x, later);
    var p := Moved(s, cfg, Park(r));
    PendingResumes(p, cfg, id, q, retry, now, a, x);
    StaleWaiterClearsSlot(Moved(p, cfg, Enter(q, id, retry, now)), cfg, id, q, a, x, later);
  }

  /** However the slot was lost, the next request on the order, if it is still open, funds it again. */
  lemma LostSlotPaysAgain(s: Service, cfg: Config, id: OrderId, first: Sent, q: nat, b: T.Authorization, y: Hash, now: int)
    requires C.Valid(s.world.chain) && SentOk(s.world, cfg) && LostSlot(s.world, id, first) && q !in s.requests
    requires Open(s.world, cfg, id, now) && SafeToSubmit(s.world, cfg, b, SendEnv(true, y)) && Executable(s.world.chain, b)
    ensures var t := Moved(s, cfg, Enter(q, id, b, now));
            var u := Moved(Moved(t, cfg, Send(q, true, y)), cfg, Meanwhile(ChainMoves([C.Include(y)])));
            && first in u.world.sent && Sent(id, y, b) in u.world.sent && first != Sent(id, y, b)
            && Succeeded(u.world.chain, first.tx) && Succeeded(u.world.chain, y)
  {
    hide C.Valid, SentOk, SafeToSubmit, Executable, Succeeded;
    OpenLetsThrough(s, cfg, id, q, b, now);
    var t := Moved(s, cfg, Enter(q, id, b, now));
    hide Moved, Open;
    LatePassFundsTwice(t, cfg, id, first, q, b, y);
  }

  lemma OpenLetsThrough(s: Service, cfg: Config, id: OrderId, q: nat, b: T.Authorization, now: int)
    requires Open(s.world, cfg, id, now) && q !in s.requests
    ensures Moved(s, cfg, Enter(q, id, b, now)) == s.(requests := s.requests[q := Request(id, Passed(b))])
  {
    hide QuoteIsStale;
  }

  // ---------------------------------------------------------------- from a fresh deployment

  /** Fund the payer and quote, then two payments overlap. */
  function Overlapping(): seq<Move> {
    [Meanwhile(DoubleRun()[0]), Meanwhile(DoubleRun()[1]),
     Enter(0, Ordinary(0), Auth(1), 1), Enter(1, Ordinary(0), Auth(2), 1)]
    + TwoSends(0, 101, 1, 102)
  }

  lemma BothExecuteInMinted()
    ensures BothExecute(MintedChain(), Auth(1), Auth(2))
  {
    BothAuthorized();
    assert C.NextLog([MintedEntry()], 1) == 1;
    assert T.After(MintedState(), T.TransferWithAuthorization(Auth(1)), 10) == AfterFirst();
    hide T.Authorized, AfterFirst, T.After;
  }

  /** Concretely, from deployment, on the legacy event and without any log query: two successes on one order. */
  lemma OverlappedTwice()
    ensures var w := Moves(Fresh(CFG, 9, C.Head(0, 0)), CFG, Overlapping()).world;
            && Sent(Ordinary(0), 101, Auth(1)) in w.sent && Sent(Ordinary(0), 102, Auth(2)) in w.sent
            && Succeeded(w.chain, 101) && Succeeded(w.chain, 102)
  {
    hide Moved, Launch, C.Run, Inv, Succeeded, BothExecute;
    var s := Idle(QuotedStart());
    QuotedWorld();
    OpenWorld(s.world);
    OverlapArises(s, CFG, Ordinary(0), 0, Auth(1), 1, Auth(2), 1);
    var t := Moved(Moved(s, CFG, Enter(0, Ordinary(0), Auth(1), 1)), CFG, Enter(1, Ordinary(0), Auth(2), 1));
    BothExecuteInMinted();
    OverlapFundsTwice(t, CFG, Ordinary(0), 0, Auth(1), 101, 1, Auth(2), 102);
    OverlappingMoves();
  }

  lemma OpenWorld(w: World)
    requires Inv(w, CFG) && Quoted(w)
    ensures C.Valid(w.chain) && Open(w, CFG, Ordinary(0), 1) && BothSafe(w, CFG, Auth(1), 101, Auth(2), 102)
  {
    hide SentOk, LedgerOk, C.Valid;
  }

  lemma OverlappingMoves()
    ensures var s := Idle(QuotedStart());
            Moves(Fresh(CFG, 9, C.Head(0, 0)), CFG, Overlapping())
            == Moves(Moved(Moved(s, CFG, Enter(0, Ordinary(0), Auth(1), 1)), CFG, Enter(1, Ordinary(0), Auth(2), 1)),
                     CFG, TwoSends(0, 101, 1, 102))
  {
    var start := Fresh(CFG, 9, C.Head(0, 0));
    hide Launch, Next, Moves, TwoSends;
    var m := Overlapping();
    var rest := TwoSends(0, 101, 1, 102);
    assert m == [m[0]] + ([m[1]] + ([m[2]] + ([m[3]] + rest)));
    assert Moved(start, CFG, m[0]) == Idle(Next(start.world, CFG, DoubleRun()[0]));
    assert Moved(Moved(start, CFG, m[0]), CFG, m[1]) == Idle(QuotedStart());
    hide Moved;
    MoveFirst(start, CFG, m[0], [m[1]] + ([m[2]] + ([m[3]] + rest)));
    MoveFirst(Moved(start, CFG, m[0]), CFG, m[1], [m[2]] + ([m[3]] + rest));
    MoveFirst(Idle(QuotedStart()), CFG, m[2], [m[3]] + rest);
    MoveFirst(Moved(Idle(QuotedStart()), CFG, m[2]), CFG, m[3], rest);
  }
}
