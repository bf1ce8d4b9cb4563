/**
 Payments that overlap: the pay handlers run in a thread pool, so one request can read an order's guards while
 another is between its own guards and its confirmation. Here a payment is four separate steps, and any steps
 of any requests, the chain and the other jobs interleave. Funding stays at most once exactly as far as no two
 requests on one order overlap.
 */
module ConcurrentPay {
  import opened Common
  import opened QuoteOption
  import opened Protocol
  import opened NoPhantomCredit
  import opened Funding
  import T = Token
  import C = Chain
  import R = Reconciliation
  import S = ReferenceSut

  /** How far a payment request has come. */
  datatype Phase =
    | Passed(auth: T.Authorization)                  // the guards let it through, nothing is sent
    | Confirming(auth: T.Authorization, tx: Hash)    // broadcast, or resumed from the pending slot; waiting for the receipt
    | Deciding(auth: T.Authorization, tx: Hash)      // the slot is freed, the log query is under way

  datatype Request = Request(order: OrderId, phase: Phase)

  /** The world and the requests in flight. */
  datatype Service = Service(world: World, requests: map<nat, Request>)

  datatype Move =
    | Enter(r: nat, id: OrderId, auth: T.Authorization, now: int)
    | Send(r: nat, safe: bool, tx: Hash)
    | Park(r: nat)
    | Free(r: nat)
    | Decide(r: nat, logsArrive: bool)
    | Meanwhile(step: Step)

  function Leave(s: Service, r: nat, w: World): Service { Service(w, s.requests - {r}) }

  function Advance(s: Service, r: nat, w: World, phase: Phase): Service
    requires r in s.requests
  {
    Service(w, s.requests[r := s.requests[r].(phase := phase)])
  }

  /** The guards of pay: the request it opens, None when it is answered at once. */
  function Guards(w: World, cfg: Config, id: OrderId, auth: T.Authorization, now: int): Option<Phase> {
    if id !in w.orders then None
    else
      var o := w.orders[id];
      if o.paid && cfg.idempotent then None
      else if o.pendingTx.Some? && o.pendingAuthorization.Some? && cfg.idempotent then
        Some(Confirming(o.pendingAuthorization.value, o.pendingTx.value))
      else if now > o.expiresAt || (cfg.repriceOnPay && QuoteIsStale(o.amount, w.fairPrice, cfg.tolerance)) then None
      else Some(Passed(auth))
  }

  /** The order found paid; the slot is left as it is. */
  function Marked(o: Order, id: OrderId, identity: R.SettlementIdentity): Order {
    o.(paid := true, resource := Some(Premium(id)), identity := Some(identity))
  }

  function SendEnv(safe: bool, tx: Hash): Env { Env(0, safe, tx, [], false, false) }

  /** One step; a step that is not enabled does nothing. Payments and restores are not among the other jobs. */
  ghost function Moved(s: Service, cfg: Config, move: Move): Service {
    var w := s.world;
    match move
    case Enter(r, id, auth, now) =>
      if r in s.requests || Guards(w, cfg, id, auth, now).None? then s
      else s.(requests := s.requests[r := Request(id, Guards(w, cfg, id, auth, now).value)])
    case Send(r, safe, tx) =>
      if r in s.requests && s.requests[r].phase.Passed? && s.requests[r].order in w.orders then
        var id, auth := s.requests[r].order, s.requests[r].phase.auth;
        if !SafeToSubmit(w, cfg, auth, SendEnv(safe, tx)) then Leave(s, r, WithOrder(w, id, Attempted(w.orders[id], auth)))
        else Advance(s, r, Broadcast(w, id, auth, tx), Confirming(auth, tx))
      else s
    case Park(r) =>
      if r in s.requests && s.requests[r].phase.Confirming? && s.requests[r].order in w.orders && !cfg.confirmWithoutWaiting then
        var id, phase := s.requests[r].order, s.requests[r].phase;
        Leave(s, r, WithOrder(w, id, Parked(w.orders[id], phase.auth, phase.tx)))
      else s
    case Free(r) =>
      if && r in s.requests && s.requests[r].phase.Confirming? && s.requests[r].order in w.orders
         && (cfg.confirmWithoutWaiting || Receipt(w.chain, cfg.token, s.requests[r].phase.tx).Some?) then
        var id, phase := s.requests[r].order, s.requests[r].phase;
        Advance(s, r, WithOrder(w, id, Cleared(w.orders[id])), Deciding(phase.auth, phase.tx))
      else s
    case Decide(r, logsArrive) =>
      if r in s.requests && s.requests[r].phase.Deciding? && s.requests[r].order in w.orders then
        var id, phase := s.requests[r].order, s.requests[r].phase;
        if QueriesLogs(w.chain, cfg, phase.auth, w.orders[id], phase.tx) && !logsArrive then Leave(s, r, w)
        else
          match LogIndex(w.chain, cfg, phase.auth, w.orders[id], phase.tx)
          case Some(index) => Leave(s, r, WithOrder(w, id, Marked(w.orders[id], id, IdentityOf(cfg, phase.tx, index))))
          case None => Leave(s, r, w)
      else s
    case Meanwhile(step) => if step.PayStep? || step.Restore? then s else s.(world := Next(w, cfg, step))
  }

  ghost function Moves(s: Service, cfg: Config, moves: seq<Move>): Service
    decreases |moves|
  {
    if moves == [] then s else Moves(Moved(s, cfg, moves[0]), cfg, moves[1..])
  }

  function Idle(w: World): Service { Service(w, map[]) }

  // ---------------------------------------------------------------- one payment, uninterrupted

  /** The moves of one payment that nothing interrupts but the chain. */
  function Uninterrupted(id: OrderId, auth: T.Authorization, env: Env, waits: bool): seq<Move> {
    [Enter(0, id, auth, env.now), Send(0, env.safe, env.tx), Meanwhile(ChainMoves(env.during))]
    + (if waits then [Park(0)] else [Free(0), Decide(0, env.logsArrive)])
  }

  lemma MoveFirst(s: Service, cfg: Config, move: Move, rest: seq<Move>)
    ensures Moves(s, cfg, [move] + rest) == Moves(Moved(s, cfg, move), cfg, rest)
  {
    hide Moved;
    assert ([move] + rest)[1..] == rest;
  }

  lemma FourMoves(s: Service, cfg: Config, moves: seq<Move>)
    requires |moves| == 4
    ensures Moves(s, cfg, moves) == Moved(Moved(Moved(Moved(s, cfg, moves[0]), cfg, moves[1]), cfg, moves[2]), cfg, moves[3])
  {
    hide Moved;
    var t := Moved(s, cfg, moves[0]);
    var u := Moved(t, cfg, moves[1]);
    var v := Moved(u, cfg, moves[2]);
    assert moves == [moves[0]] + ([moves[1]] + ([moves[2]] + ([moves[3]] + [])));
    MoveFirst(s, cfg, moves[0], [moves[1]] + ([moves[2]] + ([moves[3]] + [])));
    MoveFirst(t, cfg, moves[1], [moves[2]] + ([moves[3]] + []));
    MoveFirst(u, cfg, moves[2], [moves[3]] + []);
    MoveFirst(v, cfg, moves[3], []);
  }

  lemma FiveMoves(s: Service, cfg: Config, moves: seq<Move>)
    requires |moves| == 5
    ensures Moves(s, cfg, moves)
         == Moved(Moved(Moved(Moved(Moved(s, cfg, moves[0]), cfg, moves[1]), cfg, moves[2]), cfg, moves[3]), cfg, moves[4])
  {
    hide Moved;
    assert moves == [moves[0]] + moves[1..];
    MoveFirst(s, cfg, moves[0], moves[1..]);
    FourMoves(Moved(s, cfg, moves[0]), cfg, moves[1..]);
  }

  /** Entering and sending bring the request to wait for a transaction. */
  ghost predicate Opens(w: World, cfg: Config, id: OrderId, auth: T.Authorization, env: Env) {
    match Guards(w, cfg, id, auth, env.now)
    case None => false
    case Some(Passed(_)) => SafeToSubmit(w, cfg, auth, SendEnv(env.safe, env.tx))
    case Some(_) => true
  }

  /** The transaction a payment waits for, and the world it waits in. */
  ghost function Opened(w: World, cfg: Config, id: OrderId, auth: T.Authorization, env: Env): (World, T.Authorization, Hash)
    requires Opens(w, cfg, id, auth, env)
  {
    var phase := Guards(w, cfg, id, auth, env.now).value;
    if phase.Passed? then (Broadcast(w, id, auth, env.tx), auth, env.tx) else (w, phase.auth, phase.tx)
  }

  lemma SameSafety(w: World, cfg: Config, auth: T.Authorization, env: Env)
    ensures SafeToSubmit(w, cfg, auth, SendEnv(env.safe, env.tx)) <==> SafeToSubmit(w, cfg, auth, env)
  {
  }

  lemma PayOpens(w: World, cfg: Config, id: OrderId, auth: T.Authorization, env: Env)
    requires Opens(w, cfg, id, auth, env)
    ensures var (b, a, tx) := Opened(w, cfg, id, auth, env);
            && id in b.orders
            && Pay(w, cfg, id, auth, env) == Confirm(b, cfg, id, a, tx, env)
            && Moved(Moved(Idle(w), cfg, Enter(0, id, auth, env.now)), cfg, Send(0, env.safe, env.tx))
               == Service(b, map[0 := Request(id, Confirming(a, tx))])
  {
    SameSafety(w, cfg, auth, env);
    hide Confirm, SafeToSubmit, Broadcast, QuoteIsStale;
    var t := Moved(Idle(w), cfg, Enter(0, id, auth, env.now));
    assert t.requests == map[0 := Request(id, Guards(w, cfg, id, auth, env.now).value)];
    BroadcastHas(w, id, auth, env.tx);
  }

  lemma BroadcastHas(w: World, id: OrderId, auth: T.Authorization, tx: Hash)
    ensures id in w.orders ==> id in Broadcast(w, id, auth, tx).orders
  {
    hide C.Next;
  }

  ghost predicate Waits(b: World, cfg: Config, tx: Hash, env: Env) {
    !cfg.confirmWithoutWaiting && !(env.receiptArrives && Receipt(C.Run(b.chain, env.during), cfg.token, tx).Some?)
  }

  /** The moves after the broadcast are the confirmation. */
  lemma ConfirmIsMoves(b: World, cfg: Config, id: OrderId, a: T.Authorization, tx: Hash, env: Env)
    requires id in b.orders
    ensures var s := Moved(Service(b, map[0 := Request(id, Confirming(a, tx))]), cfg, Meanwhile(ChainMoves(env.during)));
            (if Waits(b, cfg, tx, env) then Moved(s, cfg, Park(0))
             else Moved(Moved(s, cfg, Free(0)), cfg, Decide(0, env.logsArrive)))
            == Idle(Confirm(b, cfg, id, a, tx, env).0)
  {
    var v := b.(chain := C.Run(b.chain, env.during));
    var s := Service(v, map[0 := Request(id, Confirming(a, tx))]);
    assert Moved(Service(b, map[0 := Request(id, Confirming(a, tx))]), cfg, Meanwhile(ChainMoves(env.during))) == s by {
      hide Receipt, Confirm, C.Run;
    }
    hide C.Run, Moved, Receipt, Confirm, LogIndex, QueriesLogs, S.Decided;
    S.ConfirmCases(b, v, cfg, id, a, tx, env);
    if Waits(b, cfg, tx, env) {
      ParkEnds(s, cfg, id, a, tx);
    } else {
      DecideEnds(s, cfg, id, a, tx, env);
    }
  }

  /** A payment the guards let through is exactly its moves, when only the chain moves in between. */
  lemma PayIsUninterrupted(w: World, cfg: Config, id: OrderId, auth: T.Authorization, env: Env)
    requires Opens(w, cfg, id, auth, env)
    ensures var waits := Waits(Opened(w, cfg, id, auth, env).0, cfg, Opened(w, cfg, id, auth, env).2, env);
            Moves(Idle(w), cfg, Uninterrupted(id, auth, env, waits)) == Idle(Pay(w, cfg, id, auth, env).0)
  {
    hide Opens, Opened, Pay, Confirm, Moved, Waits;
    PayOpens(w, cfg, id, auth, env);
    var (b, a, tx) := Opened(w, cfg, id, auth, env);
    ConfirmIsMoves(b, cfg, id, a, tx, env);
    var moves := Uninterrupted(id, auth, env, Waits(b, cfg, tx, env));
    if Waits(b, cfg, tx, env) {
      FourMoves(Idle(w), cfg, moves);
    } else {
      FiveMoves(Idle(w), cfg, moves);
    }
    hide Moves;
  }

  lemma ParkEnds(s: Service, cfg: Config, id: OrderId, a: T.Authorization, tx: Hash)
    requires s.requests == map[0 := Request(id, Confirming(a, tx))] && id in s.world.orders && !cfg.confirmWithoutWaiting
    ensures Moved(s, cfg, Park(0)) == Idle(WithOrder(s.world, id, Parked(s.world.orders[id], a, tx)))
  {
    assert s.requests - {0} == map[];
  }

  lemma DecideEnds(s: Service, cfg: Config, id: OrderId, a: T.Authorization, tx: Hash, env: Env)
    requires s.requests == map[0 := Request(id, Confirming(a, tx))] && id in s.world.orders
    requires cfg.confirmWithoutWaiting || Receipt(s.world.chain, cfg.token, tx).Some?
    ensures Moved(Moved(s, cfg, Free(0)), cfg, Decide(0, env.logsArrive))
         == Idle(S.Decided(s.world, s.world.orders[id], cfg, id, a, tx, env).0)
  {
    hide LogIndex, QueriesLogs, Receipt, IdentityOf;
    var v, o := s.world, s.world.orders[id];
    var t := Moved(s, cfg, Free(0));
    assert t == Service(WithOrder(v, id, Cleared(o)), map[0 := Request(id, Deciding(a, tx))]);
    assert t.requests - {0} == map[];
    if LogIndex(v.chain, cfg, a, Cleared(o), tx).Some? {
      S.CreditAfterClearing(v, o, id, IdentityOf(cfg, tx, LogIndex(v.chain, cfg, a, Cleared(o), tx).value));
    }
  }

  // ---------------------------------------------------------------- when no two requests on one order overlap

  ghost predicate NoOverlap(s: Service) {
    forall r, q :: r in s.requests && q in s.requests && r != q ==> s.requests[r].order != s.requests[q].order
  }

  ghost predicate InFlight(s: Service, id: OrderId) { exists r :: r in s.requests && s.requests[r].order == id }

  /** The log query of a decision answers, or is not made. */
  ghost predicate DecisionAnswers(s: Service, cfg: Config, move: Move) {
    move.Decide? && !move.logsArrive ==> Moved(s, cfg, move) == Moved(s, cfg, Decide(move.r, true))
  }

  /** Every state of the run is on the legacy event with one request per order, and no log query that is made fails. */
  ghost predicate CalmRun(s: Service, cfg: Config, moves: seq<Move>)
    decreases |moves|
  {
    && NoOverlap(s) && Legacy(s.world.chain)
    && (moves != [] ==> DecisionAnswers(s, cfg, moves[0]) && CalmRun(Moved(s, cfg, moves[0]), cfg, moves[1..]))
  }

  /** Where a request's order stands while the request is in flight. */
  ghost predicate RequestOk(w: World, cfg: Config, q: Request) {
    && q.order in w.orders && q.order.Ordinary? && !w.orders[q.order].paid
    && match q.phase
       case Passed(_) => w.orders[q.order].pendingTx.None? && Resolved(w.chain, q.order, w.orders[q.order])
       case Confirming(auth, tx) =>
         w.orders[q.order].submittedTx == Some(tx) && Sent(q.order, tx, auth) in w.sent
       case Deciding(auth, tx) =>
         && w.orders[q.order].submittedTx == Some(tx) && Sent(q.order, tx, auth) in w.sent
         && w.orders[q.order].pendingTx.None? && Known(w.chain, tx)
  }

  ghost predicate ServiceOk(s: Service, cfg: Config) {
    && Inv(s.world, cfg) && Fate(s.world, cfg)
    && (forall r :: r in s.requests ==> RequestOk(s.world, cfg, s.requests[r]))
    && (forall id :: id in s.world.orders && !InFlight(s, id) ==> Resolved(s.world.chain, id, s.world.orders[id]))
  }

  /** A world that another request's step, or another job, made of this one. */
  ghost predicate Undisturbed(w: World, v: World, id: OrderId) {
    && Grows(w, v)
    && (id in w.orders ==> id in v.orders && v.orders[id] == w.orders[id])
  }

  lemma RequestStays(w: World, v: World, cfg: Config, q: Request)
    requires C.Valid(w.chain) && C.Valid(v.chain) && RequestOk(w, cfg, q) && Undisturbed(w, v, q.order)
    ensures RequestOk(v, cfg, q)
  {
    var o := w.orders[q.order];
    if o.submittedTx.Some? {
      FateOfTxPersists(w.chain, v.chain, o.submittedTx.value);
    }
    forall s | s in w.sent ensures s in v.sent {
      var i :| 0 <= i < |w.sent| && w.sent[i] == s;
      assert v.sent[i] == s;
    }
    hide C.Valid;
  }

  // ---------------------------------------------------------------- every move keeps the invariant

  /** One request, on order id, makes the move: the other orders and requests stand. */
  ghost predicate OwnMove(s: Service, t: Service, r: nat, id: OrderId) {
    && (r in s.requests || r in t.requests)
    && (r in s.requests ==> s.requests[r].order == id)
    && (r in t.requests ==> t.requests[r].order == id)
    && t.requests - {r} == s.requests - {r}
    && Grows(s.world, t.world) && id in s.world.orders && t.world.orders.Keys == s.world.orders.Keys
    && forall other :: other in s.world.orders && other != id ==> t.world.orders[other] == s.world.orders[other]
  }

  lemma OtherRequest(s: Service, t: Service, r: nat, id: OrderId, q: nat)
    requires OwnMove(s, t, r, id) && NoOverlap(s) && NoOverlap(t) && q in t.requests && q != r
    ensures q in s.requests && s.requests[q] == t.requests[q] && s.requests[q].order != id
  {
    assert q in t.requests - {r};
  }

  lemma OtherInFlight(s: Service, t: Service, r: nat, id: OrderId, other: OrderId)
    requires OwnMove(s, t, r, id) && other != id && InFlight(s, other)
    ensures InFlight(t, other)
  {
    var q :| q in s.requests && s.requests[q].order == other;
    assert q in s.requests - {r};
    assert t.requests[q].order == other;
  }

  lemma ResolvedStays(c: C.Chain, d: C.Chain, id: OrderId, o: Order)
    requires C.Extends(c, d) && Resolved(c, id, o)
    ensures Resolved(d, id, o)
  {
    if o.submittedTx.Some? {
      FateOfTxPersists(c, d, o.submittedTx.value);
    }
  }

  /** What the moving request leaves behind decides whether the invariant is kept. */
  lemma OwnMoveKeeps(s: Service, t: Service, cfg: Config, r: nat, id: OrderId)
    requires ServiceOk(s, cfg) && NoOverlap(s) && NoOverlap(t) && OwnMove(s, t, r, id)
    requires Inv(t.world, cfg) && Fate(t.world, cfg)
    requires r in t.requests ==> RequestOk(t.world, cfg, t.requests[r])
    requires r !in t.requests ==> Resolved(t.world.chain, id, t.world.orders[id])
    ensures ServiceOk(t, cfg)
  {
    hide LedgerOk, SentOk, Fate, RequestOk, Resolved, C.Valid, C.Extends, NoOverlap;
    forall q | q in t.requests ensures RequestOk(t.world, cfg, t.requests[q]) {
      if q != r {
        OtherRequest(s, t, r, id, q);
        RequestStays(s.world, t.world, cfg, s.requests[q]);
      }
    }
    forall other | other in t.world.orders && !InFlight(t, other)
      ensures Resolved(t.world.chain, other, t.world.orders[other])
    {
      if other != id {
        if InFlight(s, other) {
          OtherInFlight(s, t, r, id, other);
        } else {
          ResolvedStays(s.world.chain, t.world.chain, other, s.world.orders[other]);
        }
      }
    }
  }

  /** A request that passes the guards of an order nobody else is at finds it as the invariant asks. */
  lemma GuardsMean(w: World, cfg: Config, id: OrderId, auth: T.Authorization, now: int)
    requires Inv(w, cfg) && Fate(w, cfg) && cfg.idempotent && Guards(w, cfg, id, auth, now).Some?
    requires id in w.orders ==> Resolved(w.chain, id, w.orders[id])
    ensures id in w.orders && RequestOk(w, cfg, Request(id, Guards(w, cfg, id, auth, now).value))
  {
    FateIsOrdinary(w, cfg, id);
    assert OrderOk(w.chain, w.sent, cfg, id, w.orders[id]);
    hide Fate, Inv, Backed, QuoteIsStale, Resolved;
  }

  lemma EnterKeeps(s: Service, cfg: Config, move: Move)
    requires ServiceOk(s, cfg) && NoOverlap(s) && NoOverlap(Moved(s, cfg, move)) && cfg.idempotent && move.Enter?
    ensures ServiceOk(Moved(s, cfg, move), cfg)
  {
    hide Inv, Fate, RequestOk, Resolved, Guards;
    var t := Moved(s, cfg, move);
    var w, id := s.world, move.id;
    if t != s {
      assert !InFlight(s, id) by { EntersAlone(s, t, move.r, id); }
      GuardsMean(w, cfg, id, move.auth, move.now);
      assert t.requests - {move.r} == s.requests - {move.r};
      hide ServiceOk, NoOverlap;
      OwnMoveKeeps(s, t, cfg, move.r, id);
    }
  }

  lemma EntersAlone(s: Service, t: Service, r: nat, id: OrderId)
    requires r !in s.requests && r in t.requests && t.requests[r].order == id && NoOverlap(t)
    requires forall q :: q in s.requests ==> q in t.requests && t.requests[q] == s.requests[q]
    ensures !InFlight(s, id)
  {
  }

  /** The order and the request of a move that is enabled. */
  lemma Standing(s: Service, cfg: Config, r: nat)
    requires ServiceOk(s, cfg) && r in s.requests
    ensures RequestOk(s.world, cfg, s.requests[r])
  {
    hide RequestOk, Inv, Fate;
  }

  lemma SendMoves(s: Service, cfg: Config, r: nat, safe: bool, tx: Hash)
    requires r in s.requests && s.requests[r].phase.Passed? && s.requests[r].order in s.world.orders
    ensures var w, id, auth := s.world, s.requests[r].order, s.requests[r].phase.auth;
            var t := Moved(s, cfg, Send(r, safe, tx));
            && t == (if SafeToSubmit(w, cfg, auth, SendEnv(safe, tx)) then
                       Advance(s, r, Broadcast(w, id, auth, tx), Confirming(auth, tx))
                     else Leave(s, r, WithOrder(w, id, Attempted(w.orders[id], auth))))
            && t.requests - {r} == s.requests - {r}
  {
    hide SafeToSubmit, Broadcast, Attempted;
  }

  lemma SentKeeps(s: Service, t: Service, cfg: Config, r: nat, env: Env)
    requires ServiceOk(s, cfg) && NoOverlap(s) && NoOverlap(t)
    requires r in s.requests && s.requests[r].phase.Passed? && s.requests[r].order in s.world.orders
    requires var w, id, auth := s.world, s.requests[r].order, s.requests[r].phase.auth;
             && SafeToSubmit(w, cfg, auth, env)
             && t == Advance(s, r, Broadcast(w, id, auth, env.tx), Confirming(auth, env.tx))
             && t.requests - {r} == s.requests - {r}
    ensures ServiceOk(t, cfg)
  {
    Standing(s, cfg, r);
    hide NoOverlap, Fate, Inv, SafeToSubmit, Broadcast, Resolved, OthersStay, Grows;
    var w, id, auth := s.world, s.requests[r].order, s.requests[r].phase.auth;
    BroadcastWaits(w, cfg, id, auth, env);
    BroadcastGrows(w, cfg, id, auth, env);
    hide ServiceOk;
    assert RequestOk(t.world, cfg, t.requests[r]);
    hide RequestOk, Waiting;
    OwnMoveKeeps(s, t, cfg, r, id);
  }

  lemma SendKeeps(s: Service, cfg: Config, r: nat, safe: bool, tx: Hash)
    requires ServiceOk(s, cfg) && NoOverlap(s) && NoOverlap(Moved(s, cfg, Send(r, safe, tx)))
    requires r in s.requests && s.requests[r].phase.Passed?
    ensures ServiceOk(Moved(s, cfg, Send(r, safe, tx)), cfg)
  {
    Standing(s, cfg, r);
    hide NoOverlap, Fate, Inv, Moved, SafeToSubmit, Broadcast, Resolved, Attempted, Grows;
    SendMoves(s, cfg, r, safe, tx);
    var w, id, auth := s.world, s.requests[r].order, s.requests[r].phase.auth;
    if SafeToSubmit(w, cfg, auth, SendEnv(safe, tx)) {
      SentKeeps(s, Moved(s, cfg, Send(r, safe, tx)), cfg, r, SendEnv(safe, tx));
    } else {
      AttemptKeeps(w, cfg, id, auth);
      hide ServiceOk, RequestOk, WithOrder;
      OrderMove(s, Moved(s, cfg, Send(r, safe, tx)), r, id, Attempted(w.orders[id], auth));
      hide OwnMove;
      OwnMoveKeeps(s, Moved(s, cfg, Send(r, safe, tx)), cfg, r, id);
    }
  }

  lemma BroadcastGrows(w: World, cfg: Config, id: OrderId, auth: T.Authorization, env: Env)
    requires Inv(w, cfg) && id in w.orders && SafeToSubmit(w, cfg, auth, env) && w.orders[id].pendingTx.None?
    ensures Grows(w, Broadcast(w, id, auth, env.tx)) && Broadcast(w, id, auth, env.tx).orders.Keys == w.orders.Keys
    ensures forall other :: other in w.orders && other != id ==> Broadcast(w, id, auth, env.tx).orders[other] == w.orders[other]
  {
    BroadcastKeepsInv(w, cfg, id, auth, env);
    hide Inv, C.Next, SafeToSubmit, Grows;
  }

  lemma AttemptKeeps(w: World, cfg: Config, id: OrderId, auth: T.Authorization)
    requires Inv(w, cfg) && Fate(w, cfg) && id in w.orders && id.Ordinary? && !w.orders[id].paid && Resolved(w.chain, id, w.orders[id])
    ensures var v := WithOrder(w, id, Attempted(w.orders[id], auth));
            Inv(v, cfg) && Grows(w, v) && Fate(v, cfg) && Resolved(v.chain, id, v.orders[id])
  {
    var o := w.orders[id];
    AttemptedOrderOk(w.chain, w.sent, cfg, id, o, auth, 0);
    WithOrderKeepsFate(w, cfg, id, Attempted(o, auth));
    hide OrderOk, Fate, C.Valid, SentOk;
    WithOrderKeepsInv(w, cfg, id, Attempted(o, auth));
    hide Inv;
  }

  /** A waiting or deciding request is one that Funding's lemmas speak of. */
  lemma IsWaiting(s: Service, cfg: Config, r: nat)
    requires ServiceOk(s, cfg) && r in s.requests && !s.requests[r].phase.Passed?
    ensures Waiting(s.world, cfg, s.requests[r].order, s.requests[r].phase.auth, s.requests[r].phase.tx)
  {
    Standing(s, cfg, r);
    hide Inv, Fate, Known;
  }

  /** The order keeps its terms, and is paid only by a success. */
  ghost predicate SlotMove(c: C.Chain, o: Order, p: Order) {
    && p.amount == o.amount && p.createdBlock == o.createdBlock && p.submittedTx == o.submittedTx
    && (p.paid ==> p.submittedTx.Some? && Succeeded(c, p.submittedTx.value))
  }

  lemma OrderMove(s: Service, t: Service, r: nat, id: OrderId, p: Order)
    requires r in s.requests && s.requests[r].order == id && id in s.world.orders
    requires t.world == WithOrder(s.world, id, p) && Grows(s.world, t.world)
    requires t.requests - {r} == s.requests - {r} && (r in t.requests ==> t.requests[r].order == id)
    ensures OwnMove(s, t, r, id) && t.world.orders[id] == p
  {
    hide Grows;
  }

  lemma SlotWorld(w: World, cfg: Config, id: OrderId, p: Order)
    requires Inv(w, cfg) && Fate(w, cfg) && id in w.orders && id.Ordinary?
    requires SlotMove(w.chain, w.orders[id], p) && OrderOk(w.chain, w.sent, cfg, id, p)
    ensures Inv(WithOrder(w, id, p), cfg) && Fate(WithOrder(w, id, p), cfg) && Grows(w, WithOrder(w, id, p))
  {
    hide Inv, OrderOk, Succeeded, Grows;
    WithOrderKeepsFate(w, cfg, id, p);
    hide Fate;
    WithOrderKeepsInv(w, cfg, id, p);
  }

  lemma SlotKeeps(s: Service, t: Service, cfg: Config, r: nat, p: Order)
    requires ServiceOk(s, cfg) && NoOverlap(s) && r in s.requests && !s.requests[r].phase.Passed?
    requires var id := s.requests[r].order;
             && id in s.world.orders && t.world == WithOrder(s.world, id, p)
             && SlotMove(s.world.chain, s.world.orders[id], p)
             && OrderOk(s.world.chain, s.world.sent, cfg, id, p)
             && t.requests - {r} == s.requests - {r}
             && (r in t.requests ==> t.requests[r].order == id && RequestOk(t.world, cfg, t.requests[r]))
             && (r !in t.requests ==> Resolved(t.world.chain, id, p))
    requires NoOverlap(t)
    ensures ServiceOk(t, cfg)
  {
    Standing(s, cfg, r);
    hide Resolved, OrderOk, NoOverlap, Known, Succeeded, Fate, Grows, Inv, SlotMove;
    SlotWorld(s.world, cfg, s.requests[r].order, p);
    hide RequestOk, ServiceOk, WithOrder;
    OrderMove(s, t, r, s.requests[r].order, p);
    hide OwnMove;
    OwnMoveKeeps(s, t, cfg, r, s.requests[r].order);
  }

  lemma ParkKeeps(s: Service, cfg: Config, r: nat)
    requires ServiceOk(s, cfg) && NoOverlap(s) && NoOverlap(Moved(s, cfg, Park(r)))
    requires r in s.requests && s.requests[r].phase.Confirming? && !cfg.confirmWithoutWaiting
    ensures ServiceOk(Moved(s, cfg, Park(r)), cfg)
  {
    var t := Moved(s, cfg, Park(r));
    var id, phase := s.requests[r].order, s.requests[r].phase;
    IsWaiting(s, cfg, r);
    var o := s.world.orders[id];
    assert OrderOk(s.world.chain, s.world.sent, cfg, id, o);
    hide Fate, C.Valid, SentOk, OrderOk, NoOverlap;
    ParkedOrderOk(s.world.chain, s.world.sent, cfg, id, o, phase.auth, phase.tx);
    assert t.requests - {r} == s.requests - {r};
    hide Inv, ServiceOk, RequestOk, Known;
    SlotKeeps(s, t, cfg, r, Parked(o, phase.auth, phase.tx));
  }

  lemma FreeMoves(s: Service, cfg: Config, r: nat)
    requires r in s.requests && s.requests[r].phase.Confirming? && s.requests[r].order in s.world.orders
    requires !cfg.confirmWithoutWaiting
    ensures var id, phase := s.requests[r].order, s.requests[r].phase;
            var t := Moved(s, cfg, Free(r));
            && t == (if Known(s.world.chain, phase.tx) then
                       Advance(s, r, WithOrder(s.world, id, Cleared(s.world.orders[id])), Deciding(phase.auth, phase.tx))
                     else s)
            && t.requests - {r} == s.requests - {r}
  {
    hide Receipt, Known, Cleared, WithOrder, LogIndex, QueriesLogs;
    ReceiptMeansKnown(s.world.chain, cfg.token, s.requests[r].phase.tx);
  }

  lemma FreeKeeps(s: Service, cfg: Config, r: nat)
    requires ServiceOk(s, cfg) && NoOverlap(s) && NoOverlap(Moved(s, cfg, Free(r))) && !cfg.confirmWithoutWaiting
    requires r in s.requests && s.requests[r].phase.Confirming?
    ensures ServiceOk(Moved(s, cfg, Free(r)), cfg)
  {
    Standing(s, cfg, r);
    hide Fate, C.Valid, SentOk, OrderOk, NoOverlap, Known, Moved;
    FreeMoves(s, cfg, r);
    var id, phase := s.requests[r].order, s.requests[r].phase;
    var t, o := Moved(s, cfg, Free(r)), s.world.orders[id];
    if Known(s.world.chain, phase.tx) {
      ClearedOrderOk(s.world.chain, s.world.sent, cfg, id, o);
      hide Inv, ServiceOk;
      assert RequestOk(t.world, cfg, t.requests[r]);
      hide RequestOk;
      SlotKeeps(s, t, cfg, r, Cleared(o));
    }
  }

  lemma DecideMoves(s: Service, cfg: Config, r: nat)
    requires r in s.requests && s.requests[r].phase.Deciding? && s.requests[r].order in s.world.orders
    ensures var w, id, phase := s.world, s.requests[r].order, s.requests[r].phase;
            var index := LogIndex(w.chain, cfg, phase.auth, w.orders[id], phase.tx);
            var o := if index.Some? then Marked(w.orders[id], id, IdentityOf(cfg, phase.tx, index.value)) else w.orders[id];
            var t := Moved(s, cfg, Decide(r, true));
            && t == Leave(s, r, WithOrder(w, id, o))
            && t.requests - {r} == s.requests - {r}
  {
    hide LogIndex, QueriesLogs, Marked, IdentityOf;
    var w, id := s.world, s.requests[r].order;
    assert w.orders[id := w.orders[id]] == w.orders;
  }

  /** With nothing pending, there is no slot to clear. */
  lemma MarkedOrderOk(c: C.Chain, sent: seq<Sent>, cfg: Config, id: OrderId, o: Order, identity: R.SettlementIdentity)
    requires OrderOk(c, sent, cfg, id, Credited(o, id, identity)) && o.pendingTx.None?
    ensures OrderOk(c, sent, cfg, id, Marked(o, id, identity))
  {
    var l :| Settles(c, cfg, Credited(o, id, identity), l);
    assert Settles(c, cfg, Marked(o, id, identity), l);
  }

  lemma DecideKeeps(s: Service, cfg: Config, r: nat)
    requires ServiceOk(s, cfg) && NoOverlap(s) && NoOverlap(Moved(s, cfg, Decide(r, true))) && WaitingAndIdempotent(cfg)
    requires r in s.requests && s.requests[r].phase.Deciding? && Legacy(s.world.chain)
    ensures ServiceOk(Moved(s, cfg, Decide(r, true)), cfg)
  {
    IsWaiting(s, cfg, r);
    Standing(s, cfg, r);
    hide Fate, SentOk, OrderOk, NoOverlap, LogIndex, Known, IdentityOf, Moved, C.Valid, Legacy;
    DecideMoves(s, cfg, r);
    var w, id, phase := s.world, s.requests[r].order, s.requests[r].phase;
    var o := w.orders[id];
    assert OrderOk(w.chain, w.sent, cfg, id, o);
    ConfirmedOrder(w, cfg, id, phase.auth, phase.tx);
    var index := LogIndex(w.chain, cfg, phase.auth, o, phase.tx);
    if index.Some? {
      CreditedOrderOk(w.chain, w.sent, cfg, id, o, phase.auth, phase.tx);
      MarkedOrderOk(w.chain, w.sent, cfg, id, o, IdentityOf(cfg, phase.tx, index.value));
    }
    hide Inv, ServiceOk, RequestOk, Waiting;
    SlotKeeps(s, Moved(s, cfg, Decide(r, true)), cfg, r,
              if index.Some? then Marked(o, id, IdentityOf(cfg, phase.tx, index.value)) else o);
  }

  // ---------------------------------------------------------------- the other jobs

  lemma JobKeeps(s: Service, v: World, cfg: Config)
    requires ServiceOk(s, cfg) && Inv(v, cfg) && Fate(v, cfg) && Grows(s.world, v) && OnlyAdds(s.world, v)
    ensures ServiceOk(s.(world := v), cfg)
  {
    var t := s.(world := v);
    hide LedgerOk, SentOk, Fate, RequestOk, C.Valid, C.Extends;
    forall q | q in t.requests ensures RequestOk(v, cfg, t.requests[q]) {
      OwnOrderStays(s.world, v, cfg, s.requests[q]);
      RequestStays(s.world, v, cfg, s.requests[q]);
    }
    forall id | id in v.orders && !InFlight(t, id) ensures Resolved(v.chain, id, v.orders[id]) {
      hide Resolved;
      assert InFlight(s, id) ==> InFlight(t, id);
    }
  }

  lemma OwnOrderStays(w: World, v: World, cfg: Config, q: Request)
    requires RequestOk(w, cfg, q) && Grows(w, v) && OnlyAdds(w, v)
    ensures Undisturbed(w, v, q.order)
  {
    hide Resolved, Grows;
  }

  lemma JobsOnlyAdd(w: World, cfg: Config, step: Step)
    requires Inv(w, cfg) && Fate(w, cfg) && !step.PayStep? && !step.Restore?
    ensures Fate(Next(w, cfg, step), cfg) && OnlyAdds(w, Next(w, cfg, step))
  {
    hide Pay, Gap, Heal, OrderFate, SentFate, Quote, C.Run, OrderOk, C.Valid;
    match step
    case QuoteStep(n, now) => QuoteResolves(w, cfg, n, now);
    case ChainMoves(steps) => FateMoves(w, cfg, steps);
    case ReconcileStep(fromBlock) =>
      if Gap(w.chain, cfg, w.orders, fromBlock).Some? {
        HealResolves(w, cfg, Gap(w.chain, cfg, w.orders, fromBlock).value);
      }
    case SetFairPrice(_) =>
    case Backup =>
  }

  lemma MeanwhileKeeps(s: Service, cfg: Config, step: Step)
    requires ServiceOk(s, cfg)
    ensures ServiceOk(Moved(s, cfg, Meanwhile(step)), cfg)
  {
    hide Inv, Fate, Next, RequestOk, Resolved, Grows, OnlyAdds;
    if !step.PayStep? && !step.Restore? {
      NextKeepsInv(s.world, cfg, step);
      JobsOnlyAdd(s.world, cfg, step);
      JobKeeps(s, Next(s.world, cfg, step), cfg);
    }
  }

  // ---------------------------------------------------------------- any run without overlap

  lemma MovedKeeps(s: Service, cfg: Config, move: Move)
    requires ServiceOk(s, cfg) && WaitingAndIdempotent(cfg) && NoOverlap(s) && Legacy(s.world.chain)
    requires NoOverlap(Moved(s, cfg, move)) && DecisionAnswers(s, cfg, move)
    ensures ServiceOk(Moved(s, cfg, move), cfg)
  {
    hide ServiceOk, NoOverlap, Legacy;
    var t := Moved(s, cfg, move);
    if t != s {
      match move
      case Enter(_, _, _, _) => EnterKeeps(s, cfg, move);
      case Send(r, safe, tx) => SendKeeps(s, cfg, r, safe, tx);
      case Park(r) => ParkKeeps(s, cfg, r);
      case Free(r) => FreeKeeps(s, cfg, r);
      case Decide(r, _) => DecideKeeps(s, cfg, r);
      case Meanwhile(step) => MeanwhileKeeps(s, cfg, step);
    }
  }

  lemma {:induction false} CalmRunKeeps(s: Service, cfg: Config, moves: seq<Move>)
    requires ServiceOk(s, cfg) && WaitingAndIdempotent(cfg) && CalmRun(s, cfg, moves)
    ensures ServiceOk(Moves(s, cfg, moves), cfg)
    decreases |moves|
  {
    hide ServiceOk, Moved, NoOverlap, DecisionAnswers, Legacy;
    if moves != [] {
      assert NoOverlap(Moved(s, cfg, moves[0]));
      MovedKeeps(s, cfg, moves[0]);
      CalmRunKeeps(Moved(s, cfg, moves[0]), cfg, moves[1..]);
    }
  }

  ghost function Fresh(cfg: Config, admin: Address, genesisHead: C.Head): Service { Idle(Launch(cfg, admin, genesisHead)) }

  lemma FreshOk(cfg: Config, admin: Address, genesisHead: C.Head)
    requires ValidConfig(cfg)
    ensures ServiceOk(Fresh(cfg, admin, genesisHead), cfg)
  {
    LaunchInv(cfg, admin, genesisHead);
    hide Inv;
  }

  /**
   However payments interleave, as long as no two requests on one order overlap, at most one of all the
   transactions ever broadcast for an order succeeds; it is the one the order records, and the order is paid by
   it, pending on it, or a request for it is still under way.
   */
  lemma FundedAtMostOnceConcurrently(
    cfg: Config, admin: Address, genesisHead: C.Head, moves: seq<Move>, s: Sent, t: Sent)
    requires ValidConfig(cfg) && WaitingAndIdempotent(cfg) && CalmRun(Fresh(cfg, admin, genesisHead), cfg, moves)
    requires var w := Moves(Fresh(cfg, admin, genesisHead), cfg, moves).world;
             s in w.sent && t in w.sent && s.order == t.order && Succeeded(w.chain, s.tx) && Succeeded(w.chain, t.tx)
    ensures s == t
    ensures var end := Moves(Fresh(cfg, admin, genesisHead), cfg, moves);
            && s.order in end.world.orders
            && var o := end.world.orders[s.order];
            && o.submittedTx == Some(s.tx) && (o.paid || o.pendingTx == Some(s.tx) || InFlight(end, s.order))
  {
    FreshOk(cfg, admin, genesisHead);
    CalmRunKeeps(Fresh(cfg, admin, genesisHead), cfg, moves);
    hide Moves, Fresh, CalmRun, OrderFate, RequestOk, InFlight;
    var end := Moves(Fresh(cfg, admin, genesisHead), cfg, moves);
    RecordedSuccess(end.world, cfg, s);
    RecordedSuccess(end.world, cfg, t);
    OneOrderPerTransaction(end.world, cfg, s, t);
    var o := end.world.orders[s.order];
    if !InFlight(end, s.order) {
      assert Resolved(end.world.chain, s.order, o);
      assert OrderOk(end.world.chain, end.world.sent, cfg, s.order, o);
    }
  }

  lemma RecordedSuccess(w: World, cfg: Config, s: Sent)
    requires Fate(w, cfg) && s in w.sent && Succeeded(w.chain, s.tx)
    ensures s.order in w.orders && s.order.Ordinary? && w.orders[s.order].submittedTx == Some(s.tx)
  {
    hide OrderFate;
    assert SentFate(w.chain, cfg, s, w.orders[s.order]);
  }
}
