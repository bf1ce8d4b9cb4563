/**
 The EIP-3009 token of onchain/src/UpgradeableMockUSDC.sol.

 Exec is the meaning of one call on a token state; the class below performs the same calls in
 place, with Solidity's checked arithmetic and its roll-back on revert. What holds over whole
 histories of calls is proved about Exec.
 */
module Token {
  import opened Common

  const ZERO: Address := 0
  const MAX_FEE_BPS: nat := 1000

  type Nonce = Hash
  type Uint16 = n: nat | n < 0x1_0000
  type Uint8 = n: nat | n < 0x100

  /**
   One EIP-3009 authorization as it reaches the token. `signer` is the account the signature
   recovers to over exactly these fields, ZERO for a malformed signature: recovery itself is
   uninterpreted, so any field combination may carry any signer.
   */
  datatype Authorization = Authorization(
    from: Address, to: Address, value: Uint256, validAfter: Uint256, validBefore: Uint256,
    nonce: Nonce, signer: Address)

  datatype Call =
    | Mint(to: Address, amount: Uint256)
    | SetFeeBps(sender: Address, bps: Uint16)
    | SetEventMode(sender: Address, mode: Uint8)
    | TransferWithAuthorization(auth: Authorization)

  datatype Event =
    | Transfer(from: Address, to: Address, value: Uint256)
    | TransferV2(from: Address, to: Address, value: Uint256, ref: Nonce)
    | AuthorizationUsed(authorizer: Address, nonce: Nonce)
    | FeeBpsChanged(previousBps: Uint16, newBps: Uint16)
    | EventModeChanged(previousMode: Uint8, newMode: Uint8)

  datatype TokenState = TokenState(
    balances: map<Address, nat>, used: set<(Address, Nonce)>, totalSupply: nat,
    feeBps: Uint16, eventMode: Uint8, admin: Address)

  datatype Outcome = Reverted | Done(state: TokenState, events: seq<Event>)

  /** A Solidity mapping reads zero where nothing was written. */
  function Balance(balances: map<Address, nat>, who: Address): nat {
    if who in balances then balances[who] else 0
  }

  function Credit(balances: map<Address, nat>, who: Address, amount: nat): map<Address, nat> {
    balances[who := Balance(balances, who) + amount]
  }

  function Fee(value: nat, bps: nat): nat { value * bps / 10000 }

  /** The balances after debiting the payer, crediting the payee net of the fee, and parking the fee. */
  function Moved(balances: map<Address, nat>, auth: Authorization, fee: nat, admin: Address): map<Address, nat>
    requires fee <= auth.value <= Balance(balances, auth.from)
  {
    var debited := balances[auth.from := Balance(balances, auth.from) - auth.value];
    var credited := Credit(debited, auth.to, auth.value - fee);
    if fee > 0 then Credit(credited, admin, fee) else credited
  }

  predicate Overflows(balances: map<Address, nat>, who: Address, amount: nat) {
    Balance(balances, who) + amount > UINT256_MAX
  }

  /** The require() guards of transferWithAuthorization, up to the balance check. */
  predicate Authorized(s: TokenState, auth: Authorization, time: nat) {
    && auth.from != ZERO
    && auth.to != ZERO
    && time > auth.validAfter
    && time < auth.validBefore
    && (auth.from, auth.nonce) !in s.used
    && auth.signer == auth.from
    && Balance(s.balances, auth.from) >= auth.value
  }

  function SettlementEvents(auth: Authorization, mode: nat): seq<Event> {
    [AuthorizationUsed(auth.from, auth.nonce),
     if mode == 0 then Transfer(auth.from, auth.to, auth.value)
     else TransferV2(auth.from, auth.to, auth.value, auth.nonce)]
  }

  function ExecTransfer(s: TokenState, auth: Authorization, time: nat): Outcome {
    if !Authorized(s, auth, time) || auth.value * s.feeBps > UINT256_MAX then Reverted
    else
      var fee := Fee(auth.value, s.feeBps);
      if fee > auth.value then Reverted
      else
        var debited := s.balances[auth.from := Balance(s.balances, auth.from) - auth.value];
        var credited := Credit(debited, auth.to, auth.value - fee);
        if Overflows(debited, auth.to, auth.value - fee) then Reverted
        else if fee > 0 && Overflows(credited, s.admin, fee) then Reverted
        else
          Done(s.(balances := Moved(s.balances, auth, fee, s.admin),
                  used := s.used + {(auth.from, auth.nonce)}),
               SettlementEvents(auth, s.eventMode))
  }

  /** One call, executed in a block with the given timestamp. */
  function Exec(s: TokenState, call: Call, time: nat): Outcome {
    match call
    case Mint(to, amount) =>
      if Overflows(s.balances, to, amount) || s.totalSupply + amount > UINT256_MAX then Reverted
      else Done(s.(balances := Credit(s.balances, to, amount), totalSupply := s.totalSupply + amount),
                [Transfer(ZERO, to, amount)])
    case SetFeeBps(sender, bps) =>
      if sender != s.admin || bps > MAX_FEE_BPS then Reverted
      else Done(s.(feeBps := bps), [FeeBpsChanged(s.feeBps, bps)])
    case SetEventMode(sender, mode) =>
      if sender != s.admin || mode > 1 then Reverted
      else Done(s.(eventMode := mode), [EventModeChanged(s.eventMode, mode)])
    case TransferWithAuthorization(auth) => ExecTransfer(s, auth, time)
  }

  /** The state a block keeps after the call: unchanged on a revert. */
  function After(s: TokenState, call: Call, time: nat): TokenState {
    match Exec(s, call, time)
    case Reverted => s
    case Done(state, _) => state
  }

  function Deployed(admin: Address): TokenState {
    TokenState(map[], {}, 0, 0, 0, admin)
  }

  // ---------------------------------------------------------------- conservation

  ghost function Sum(balances: map<Address, nat>): nat
    decreases |balances|
  {
    if balances == map[] then 0
    else
      var who :| who in balances;
      balances[who] + Sum(balances - {who})
  }

  lemma {:induction false} SumPick(balances: map<Address, nat>, who: Address)
    requires who in balances
    ensures Sum(balances) == balances[who] + Sum(balances - {who})
    decreases |balances|
  {
    var other :| other in balances && Sum(balances) == balances[other] + Sum(balances - {other});
    if other != who {
      SumPick(balances - {other}, who);
      SumPick(balances - {who}, other);
      assert balances - {other} - {who} == balances - {who} - {other};
    }
  }

  lemma SumWrite(balances: map<Address, nat>, who: Address, amount: nat)
    ensures Sum(balances[who := amount]) + Balance(balances, who) == Sum(balances) + amount
  {
    var written := balances[who := amount];
    SumPick(written, who);
    if who in balances {
      SumPick(balances, who);
      assert written - {who} == balances - {who};
    } else {
      assert written - {who} == balances;
    }
  }

  lemma SumCredit(balances: map<Address, nat>, who: Address, amount: nat)
    ensures Sum(Credit(balances, who, amount)) == Sum(balances) + amount
  {
    SumWrite(balances, who, Balance(balances, who) + amount);
  }

  lemma BalanceWithinSum(balances: map<Address, nat>, who: Address)
    ensures Balance(balances, who) <= Sum(balances)
  {
    if who in balances {
      SumPick(balances, who);
    }
  }

  lemma FeeWithinValue(value: nat, bps: nat)
    requires bps <= MAX_FEE_BPS
    ensures Fee(value, bps) <= value
    ensures value > 0 ==> Fee(value, bps) < value
  {
    assert value * bps <= value * 1000;
  }

  /** Moving value never creates or destroys any, also when payer, payee and admin coincide. */
  lemma MovedConserves(balances: map<Address, nat>, auth: Authorization, fee: nat, admin: Address)
    requires fee <= auth.value <= Balance(balances, auth.from)
    ensures Sum(Moved(balances, auth, fee, admin)) == Sum(balances)
  {
    hide Sum, Balance, Credit;
    var debited := balances[auth.from := Balance(balances, auth.from) - auth.value];
    var credited := Credit(debited, auth.to, auth.value - fee);
    SumWrite(balances, auth.from, Balance(balances, auth.from) - auth.value);
    SumCredit(debited, auth.to, auth.value - fee);
    SumCredit(credited, admin, fee);
  }

  ghost predicate Valid(s: TokenState) {
    && Sum(s.balances) == s.totalSupply <= UINT256_MAX
    && s.feeBps <= MAX_FEE_BPS
    && s.eventMode <= 1
  }

  /**
   In a valid state a transfer reverts for its own guards or because the fee product leaves uint256,
   never because a credited balance would overflow.
   */
  lemma CreditsCannotOverflow(s: TokenState, auth: Authorization, time: nat)
    requires Valid(s)
    ensures ExecTransfer(s, auth, time).Reverted?
       <==> !Authorized(s, auth, time) || auth.value * s.feeBps > UINT256_MAX
  {
    if Authorized(s, auth, time) {
      var fee := Fee(auth.value, s.feeBps);
      FeeWithinValue(auth.value, s.feeBps);
      var debited := s.balances[auth.from := Balance(s.balances, auth.from) - auth.value];
      var credited := Credit(debited, auth.to, auth.value - fee);
      SumWrite(s.balances, auth.from, Balance(s.balances, auth.from) - auth.value);
      SumCredit(debited, auth.to, auth.value - fee);
      BalanceWithinSum(debited, auth.to);
      BalanceWithinSum(credited, s.admin);
    }
  }

  lemma AfterKeepsValid(s: TokenState, call: Call, time: nat)
    requires Valid(s)
    ensures Valid(After(s, call, time)) && After(s, call, time).admin == s.admin
    ensures s.used <= After(s, call, time).used
    ensures Exec(s, call, time).Reverted? ==> After(s, call, time) == s
  {
    match call
    case Mint(to, amount) =>
      SumWrite(s.balances, to, Balance(s.balances, to) + amount);
    case SetFeeBps(_, _) =>
    case SetEventMode(_, _) =>
    case TransferWithAuthorization(auth) =>
      if ExecTransfer(s, auth, time).Done? {
        MovedConserves(s.balances, auth, Fee(auth.value, s.feeBps), s.admin);
      }
  }

  // ---------------------------------------------------------------- whole histories

  datatype Timed = Timed(call: Call, time: nat)

  function Run(s: TokenState, history: seq<Timed>): TokenState
    decreases |history|
  {
    if history == [] then s
    else Run(After(s, history[0].call, history[0].time), history[1..])
  }

  /** How often a history successfully spends one authorizer's nonce. */
  function TimesUsed(s: TokenState, history: seq<Timed>, key: (Address, Nonce)): nat
    decreases |history|
  {
    if history == [] then 0
    else
      var Timed(call, time) := history[0];
      (if && call.TransferWithAuthorization?
          && (call.auth.from, call.auth.nonce) == key
          && Exec(s, call, time).Done? then 1 else 0)
      + TimesUsed(After(s, call, time), history[1..], key)
  }

  /** Conservation of money: after any history of calls, the balances add up to the total supply. */
  lemma {:induction false} RunConserves(s: TokenState, history: seq<Timed>)
    requires Valid(s)
    ensures Valid(Run(s, history)) && s.used <= Run(s, history).used
    decreases |history|
  {
    if history != [] {
      AfterKeepsValid(s, history[0].call, history[0].time);
      RunConserves(After(s, history[0].call, history[0].time), history[1..]);
    }
  }

  lemma {:induction false} DeployedRunConserves(admin: Address, history: seq<Timed>)
    ensures Valid(Run(Deployed(admin), history))
  {
    assert Sum(map[]) == 0;
    RunConserves(Deployed(admin), history);
  }

  /**
   Replay safety: over any history a nonce is spent at most once, exactly once if it ends up marked
   without having been marked at the start, and never freed again.
   */
  lemma {:induction false} NonceSpentAtMostOnce(s: TokenState, history: seq<Timed>, key: (Address, Nonce))
    ensures key in s.used ==> TimesUsed(s, history, key) == 0 && key in Run(s, history).used
    ensures key !in s.used ==> TimesUsed(s, history, key) == if key in Run(s, history).used then 1 else 0
    decreases |history|
  {
    if history != [] {
      NonceSpentAtMostOnce(After(s, history[0].call, history[0].time), history[1..], key);
    }
  }

  // ---------------------------------------------------------------- the contract, in place

  /** The contract's storage. A false result is a revert: every method then leaves storage as it was. */
  class UpgradeableMockUSDC {
    var totalSupply: nat
    var balanceOf: map<Address, nat>
    var authorizationState: set<(Address, Nonce)>
    var eventMode: Uint8
    var feeBps: Uint16
    const admin: Address

    function State(): TokenState
      reads this
    {
      TokenState(balanceOf, authorizationState, totalSupply, feeBps, eventMode, admin)
    }

    constructor (deployer: Address)
      ensures State() == Deployed(deployer)
    {
      totalSupply, balanceOf, authorizationState, eventMode, feeBps := 0, map[], {}, 0, 0;
      admin := deployer;
    }

    method ChangeFeeBps(sender: Address, bps: Uint16) returns (ok: bool, events: seq<Event>)
      modifies this`feeBps
      ensures forall time :: old(Exec(State(), SetFeeBps(sender, bps), time)) == if ok then Done(State(), events) else Reverted
      ensures !ok ==> State() == old(State())
    {
      ok, events := false, [];
      if sender != admin || bps > MAX_FEE_BPS {
        return;
      }
      events := [FeeBpsChanged(feeBps, bps)];
      feeBps := bps;
      ok := true;
    }

    method ChangeEventMode(sender: Address, mode: Uint8) returns (ok: bool, events: seq<Event>)
      modifies this`eventMode
      ensures forall time :: old(Exec(State(), SetEventMode(sender, mode), time)) == if ok then Done(State(), events) else Reverted
      ensures !ok ==> State() == old(State())
    {
      ok, events := false, [];
      if sender != admin || mode > 1 {
        return;
      }
      events := [EventModeChanged(eventMode, mode)];
      eventMode := mode;
      ok := true;
    }

    method MintTo(to: Address, amount: Uint256) returns (ok: bool, events: seq<Event>)
      modifies this`balanceOf, this`totalSupply
      ensures forall time :: old(Exec(State(), Mint(to, amount), time)) == if ok then Done(State(), events) else Reverted
      ensures !ok ==> State() == old(State())
    {
      ok, events := false, [];
      var balancesBefore := balanceOf;
      if Overflows(balanceOf, to, amount) {
        return;
      }
      balanceOf := Credit(balanceOf, to, amount);
      if totalSupply + amount > UINT256_MAX {
        balanceOf := balancesBefore;
        return;
      }
      totalSupply := totalSupply + amount;
      ok, events := true, [Transfer(ZERO, to, amount)];
    }

    /** The nonce is marked before any balance is touched; a later revert unmarks it again. */
    method TransferWithAuth(auth: Authorization, time: nat) returns (ok: bool, events: seq<Event>)
      requires feeBps <= MAX_FEE_BPS
      modifies this`balanceOf, this`authorizationState
      ensures old(Exec(State(), TransferWithAuthorization(auth), time)) == if ok then Done(State(), events) else Reverted
      ensures !ok ==> State() == old(State())
    {
      ok, events := false, [];
      var balancesBefore, usedBefore := balanceOf, authorizationState;
      if auth.from == ZERO || auth.to == ZERO || time <= auth.validAfter || time >= auth.validBefore {
        return;
      }
      if (auth.from, auth.nonce) in authorizationState || auth.signer == ZERO || auth.signer != auth.from {
        return;
      }
      authorizationState := authorizationState + {(auth.from, auth.nonce)};
      if Balance(balanceOf, auth.from) < auth.value || auth.value * feeBps > UINT256_MAX {
        authorizationState := usedBefore;
        return;
      }
      var fee := auth.value * feeBps / 10000;
      FeeWithinValue(auth.value, feeBps);
      balanceOf := balanceOf[auth.from := Balance(balanceOf, auth.from) - auth.value];
      if Overflows(balanceOf, auth.to, auth.value - fee) {
        balanceOf, authorizationState := balancesBefore, usedBefore;
        return;
      }
      balanceOf := Credit(balanceOf, auth.to, auth.value - fee);
      if fee > 0 {
        if Overflows(balanceOf, admin, fee) {
          balanceOf, authorizationState := balancesBefore, usedBefore;
          return;
        }
        balanceOf := Credit(balanceOf, admin, fee);
      }
      ok, events := true, SettlementEvents(auth, eventMode);
    }
  }
}
