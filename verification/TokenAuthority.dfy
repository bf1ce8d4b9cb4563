/**
 Who can move what on the token: only the account that signed an authorization loses money by it, and only
 by an authorization in its window, with a fresh nonce, within its balance. Stated about Exec and Run field by field.
 */
module TokenAuthority {
  import opened Common
  import opened Token

  // ---------------------------------------------------------------- one call, exactly

  /** The call is a transfer that `who` signed, and it may be executed now. */
  ghost predicate SignedBy(s: TokenState, call: Call, time: nat, who: Address) {
    && call.TransferWithAuthorization?
    && call.auth.from == who && call.auth.signer == who && who != 0 && call.auth.to != 0
    && call.auth.validAfter < time < call.auth.validBefore
    && (who, call.auth.nonce) !in s.used
    && call.auth.value <= Balance(s.balances, who)
  }

  /** A transfer is executed exactly when its payer signed it and it is due, unspent, covered, and its fee product fits. */
  lemma TransferExecutesExactlyWhen(s: TokenState, auth: Authorization, time: nat)
    requires Valid(s)
    ensures Exec(s, TransferWithAuthorization(auth), time).Done?
       <==> SignedBy(s, TransferWithAuthorization(auth), time, auth.from) && auth.value * s.feeBps <= UINT256_MAX
  {
    CreditsCannotOverflow(s, auth, time);
  }

  /** The fee is the rounded-down share of the value. */
  ghost predicate IsFee(fee: nat, value: nat, bps: nat) { 10000 * fee <= value * bps < 10000 * (fee + 1) }

  /** What an executed transfer does to every account, to the nonces and to the rest. */
  lemma TransferMovesExactly(s: TokenState, auth: Authorization, time: nat) returns (fee: nat)
    requires Valid(s) && Exec(s, TransferWithAuthorization(auth), time).Done?
    ensures IsFee(fee, auth.value, s.feeBps) && fee <= auth.value
    ensures var t := Exec(s, TransferWithAuthorization(auth), time).state;
            && t.used == s.used + {(auth.from, auth.nonce)}
            && t.totalSupply == s.totalSupply && t.feeBps == s.feeBps && t.eventMode == s.eventMode && t.admin == s.admin
            && forall who: Address ::
                 Balance(t.balances, who)
                 == Balance(s.balances, who) - (if who == auth.from then auth.value else 0)
                  + (if who == auth.to then auth.value - fee else 0) + (if who == s.admin then fee else 0)
    ensures Exec(s, TransferWithAuthorization(auth), time).events
         == [AuthorizationUsed(auth.from, auth.nonce),
             if s.eventMode == 0 then Transfer(auth.from, auth.to, auth.value) else TransferV2(auth.from, auth.to, auth.value, auth.nonce)]
  {
    fee := auth.value * s.feeBps / 10000;
    FeeWithinValue(auth.value, s.feeBps);
  }

  /** Anyone may mint; it fails exactly when the supply would leave uint256. */
  lemma MintMovesExactly(s: TokenState, to: Address, amount: Uint256, time: nat)
    requires Valid(s)
    ensures Exec(s, Mint(to, amount), time).Reverted? <==> s.totalSupply + amount > UINT256_MAX
    ensures var t := After(s, Mint(to, amount), time);
            Exec(s, Mint(to, amount), time).Done? ==>
              && t.totalSupply == s.totalSupply + amount
              && t.used == s.used && t.feeBps == s.feeBps && t.eventMode == s.eventMode && t.admin == s.admin
              && forall who: Address :: Balance(t.balances, who) == Balance(s.balances, who) + (if who == to then amount else 0)
    ensures Exec(s, Mint(to, amount), time).Done? ==> Exec(s, Mint(to, amount), time).events == [Transfer(0, to, amount)]
  {
    BalanceWithinSum(s.balances, to);
  }

  /** Fee and event are the admin's to change, within bounds, and nothing else changes with them. */
  lemma AdminCallsExactly(s: TokenState, sender: Address, bps: Uint16, mode: Uint8, time: nat)
    ensures After(s, SetFeeBps(sender, bps), time) == if sender == s.admin && bps <= 1000 then s.(feeBps := bps) else s
    ensures After(s, SetEventMode(sender, mode), time) == if sender == s.admin && mode <= 1 then s.(eventMode := mode) else s
    ensures Exec(s, SetFeeBps(sender, bps), time).Done? <==> sender == s.admin && bps <= 1000
    ensures Exec(s, SetEventMode(sender, mode), time).Done? <==> sender == s.admin && mode <= 1
  {
  }

  // ---------------------------------------------------------------- nobody else's money

  /** A call lowers an account's balance or spends one of its nonces only with that account's signature. */
  lemma LossNeedsSignature(s: TokenState, call: Call, time: nat, who: Address, nonce: Nonce)
    requires Valid(s)
    ensures var t := After(s, call, time);
            && (Balance(t.balances, who) < Balance(s.balances, who) ==>
                  SignedBy(s, call, time, who) && Balance(s.balances, who) - Balance(t.balances, who) <= call.auth.value)
            && ((who, nonce) in t.used && (who, nonce) !in s.used ==> SignedBy(s, call, time, who) && call.auth.nonce == nonce)
  {
    match call
    case TransferWithAuthorization(auth) =>
      TransferExecutesExactlyWhen(s, auth, time);
      if Exec(s, call, time).Done? {
        var fee := TransferMovesExactly(s, auth, time);
      }
      hide Exec;
    case Mint(to, amount) => MintMovesExactly(s, to, amount, time);
    case SetFeeBps(_, _) =>
    case SetEventMode(_, _) =>
  }

  // ---------------------------------------------------------------- over whole histories

  /** The value of all executed transfers of a history that an account signed. */
  ghost function SignedAway(s: TokenState, history: seq<Timed>, who: Address): nat
    decreases |history|
  {
    if history == [] then 0
    else
      var Timed(call, time) := history[0];
      (if SignedBy(s, call, time, who) then call.auth.value else 0) + SignedAway(After(s, call, time), history[1..], who)
  }

  /** Over any history an account loses at most what it signed away. */
  lemma {:induction false} LossIsSignedAway(s: TokenState, history: seq<Timed>, who: Address)
    requires Valid(s)
    ensures Balance(s.balances, who) <= Balance(Run(s, history).balances, who) + SignedAway(s, history, who)
    decreases |history|
  {
    if history != [] {
      var Timed(call, time) := history[0];
      LossNeedsSignature(s, call, time, who, 0);
      AfterKeepsValid(s, call, time);
      hide After, SignedBy, Valid;
      LossIsSignedAway(After(s, call, time), history[1..], who);
    }
  }

  /** The n-th call of a history, in the state it meets. */
  ghost predicate SignedAt(s: TokenState, history: seq<Timed>, n: nat, who: Address) {
    n < |history| && SignedBy(Run(s, history[..n]), history[n].call, history[n].time, who)
  }

  lemma RunSkips(s: TokenState, history: seq<Timed>, n: nat, who: Address)
    requires history != [] && SignedAt(After(s, history[0].call, history[0].time), history[1..], n, who)
    ensures SignedAt(s, history, n + 1, who)
  {
    hide After, SignedBy;
    assert history[..n + 1][1..] == history[1..][..n];
  }

  /** An account that ends a history poorer, or with a nonce spent that was not, has signed a call of it. */
  lemma {:induction false} SomeCallWasSigned(s: TokenState, history: seq<Timed>, who: Address, nonce: Nonce) returns (n: nat)
    requires Valid(s)
    requires || Balance(Run(s, history).balances, who) < Balance(s.balances, who)
             || ((who, nonce) in Run(s, history).used && (who, nonce) !in s.used)
    ensures SignedAt(s, history, n, who)
    decreases |history|
  {
    var Timed(call, time) := history[0];
    var t := After(s, call, time);
    LossNeedsSignature(s, call, time, who, nonce);
    AfterKeepsValid(s, call, time);
    hide After, Valid;
    if SignedBy(s, call, time, who) {
      n := 0;
      assert history[..0] == [];
    } else {
      hide SignedBy;
      n := SomeCallWasSigned(t, history[1..], who, nonce);
      RunSkips(s, history, n, who);
      n := n + 1;
    }
  }
}
