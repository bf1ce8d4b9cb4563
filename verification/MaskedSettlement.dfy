/**
 What the strict oracle's balance check cannot see, on one chain reached from deployment. In the settlement's
 block the payer is minted 5 units and pays 5 to a third party on the drifted event, and another account pays
 the payee 1 unit on the drifted event. The settlement over 10, which nets 9 after a fee, is accepted: with an
 inflow of the payer masked, and as a full payment of 10.
 */
module MaskedSettlement {
  import opened Common
  import opened Evidence
  import opened Divergence
  import opened Rails
  import opened RailsOnChain
  import opened OracleVerdicts
  import T = Token
  import C = Chain

  // ---------------------------------------------------------------- nine transactions in two blocks

  function Pays(from: Address, to: Address, value: Uint256, nonce: T.Nonce): T.Call {
    T.TransferWithAuthorization(T.Authorization(from, to, value, 0, 100, nonce, from))
  }

  /** Payer 3, payee 2, third party 4, admin 9. */
  function CallAt(n: nat): T.Call {
    if n == 0 then T.Mint(3, 20)
    else if n == 1 then T.Mint(4, 1)
    else if n == 2 then T.SetFeeBps(9, 1000)
    else if n == 3 then T.SetEventMode(9, 1)
    else if n == 4 then Pays(3, 4, 5, 1)
    else if n == 5 then Pays(4, 2, 1, 1)
    else if n == 6 then T.SetEventMode(9, 0)
    else if n == 7 then T.Mint(3, 5)
    else Pays(3, 2, 10, 2)
  }

  function BalancesAt(n: nat): map<Address, nat> {
    if n == 0 then map[]
    else if n == 1 then map[3 := 20]
    else if n <= 4 then map[3 := 20, 4 := 1]
    else if n == 5 then map[3 := 15, 4 := 6]
    else if n <= 7 then map[3 := 15, 4 := 5, 2 := 1]
    else if n == 8 then map[3 := 20, 4 := 5, 2 := 1]
    else map[3 := 10, 4 := 5, 2 := 10, 9 := 1]
  }

  function UsedAt(n: nat): set<(Address, T.Nonce)> {
    if n <= 4 then {} else if n == 5 then {(3, 1)} else if n <= 8 then {(3, 1), (4, 1)} else {(3, 1), (4, 1), (3, 2)}
  }

  /** The token before the n-th transaction. */
  function StateOf(n: nat): T.TokenState {
    T.TokenState(BalancesAt(n), UsedAt(n), if n == 0 then 0 else if n == 1 then 20 else if n <= 7 then 21 else 26,
                 if n <= 2 then 0 else 1000, if 4 <= n <= 6 then 1 else 0, 9)
  }

  function EventsAt(n: nat): seq<T.Event> {
    if n == 0 then [T.Transfer(0, 3, 20)]
    else if n == 1 then [T.Transfer(0, 4, 1)]
    else if n == 2 then [T.FeeBpsChanged(0, 1000)]
    else if n == 3 then [T.EventModeChanged(0, 1)]
    else if n == 4 then [T.AuthorizationUsed(3, 1), T.TransferV2(3, 4, 5, 1)]
    else if n == 5 then [T.AuthorizationUsed(4, 1), T.TransferV2(4, 2, 1, 1)]
    else if n == 6 then [T.EventModeChanged(1, 0)]
    else if n == 7 then [T.Transfer(0, 3, 5)]
    else [T.AuthorizationUsed(3, 2), T.Transfer(3, 2, 10)]
  }

  function BlockOf(n: nat): nat { if n < 4 then 1 else 2 }

  function FirstLogAt(n: nat): nat {
    if n < 4 then n else if n == 4 then 0 else if n == 5 then 2 else if n == 6 then 4 else if n == 7 then 5 else 6
  }

  lemma ExecMints(n: nat)
    requires n == 0 || n == 1 || n == 7
    ensures T.Exec(StateOf(n), CallAt(n), 10 * BlockOf(n)) == T.Done(StateOf(n + 1), EventsAt(n))
  {
    assert map[3 := 20][4 := 1] == map[3 := 20, 4 := 1];
    assert map[3 := 15, 4 := 5, 2 := 1][3 := 20] == map[3 := 20, 4 := 5, 2 := 1];
  }

  lemma ExecSettings(n: nat)
    requires n == 2 || n == 3 || n == 6
    ensures T.Exec(StateOf(n), CallAt(n), 10 * BlockOf(n)) == T.Done(StateOf(n + 1), EventsAt(n))
  {
  }

  lemma ExecPayments(n: nat)
    requires n == 4 || n == 5 || n == 8
    ensures T.Exec(StateOf(n), CallAt(n), 10 * BlockOf(n)) == T.Done(StateOf(n + 1), EventsAt(n))
  {
    assert T.Fee(5, 1000) == 0 && T.Fee(1, 1000) == 0 && T.Fee(10, 1000) == 1;
    assert map[3 := 20, 4 := 1][3 := 15][4 := 6] == map[3 := 15, 4 := 6];
    assert map[3 := 15, 4 := 6][4 := 5][2 := 1] == map[3 := 15, 4 := 5, 2 := 1];
    assert map[3 := 20, 4 := 5, 2 := 1][3 := 10][2 := 10][9 := 1] == map[3 := 10, 4 := 5, 2 := 10, 9 := 1];
    assert {} + {(3, 1)} == {(3, 1)} && {(3, 1)} + {(4, 1)} == {(3, 1), (4, 1)};
    assert {(3, 1), (4, 1)} + {(3, 2)} == {(3, 1), (4, 1), (3, 2)};
  }

  lemma ExecAt(n: nat)
    requires n < 9
    ensures T.Exec(StateOf(n), CallAt(n), 10 * BlockOf(n)) == T.Done(StateOf(n + 1), EventsAt(n))
  {
    hide T.Exec, StateOf, CallAt, EventsAt;
    if n == 0 || n == 1 || n == 7 {
      ExecMints(n);
    } else if n == 2 || n == 3 || n == 6 {
      ExecSettings(n);
    } else {
      ExecPayments(n);
    }
  }

  // ---------------------------------------------------------------- the chain, and how it is reached

  function EntryAt(n: nat): C.Entry
    requires n < 9
  {
    C.Entry(100 + n, CallAt(n), BlockOf(n), FirstLogAt(n), StateOf(n), T.Done(StateOf(n + 1), EventsAt(n)))
  }

  function HeadAt(b: nat): C.Head
    requires b < 3
  {
    C.Head(b, 10 * b)
  }

  function Pooled(m: nat): (pool: map<Hash, T.Call>)
    requires m <= 9
    ensures forall h :: h in pool <==> 100 <= h < 100 + m
    ensures forall h :: h in pool ==> pool[h] == CallAt(h - 100)
  {
    if m == 0 then map[] else Pooled(m - 1)[100 + (m - 1) := CallAt(m - 1)]
  }

  function IncludedUpTo(n: nat): (included: map<Hash, nat>)
    requires n <= 9
    ensures forall h :: h in included <==> 100 <= h < 100 + n
    ensures forall h :: h in included ==> included[h] == h - 100
  {
    if n == 0 then map[] else IncludedUpTo(n - 1)[100 + (n - 1) := n - 1]
  }

  /** The chain with b + 1 heads, m of the transactions pooled and n of them included. */
  function Stage(b: nat, m: nat, n: nat): C.Chain
    requires b < 3 && n <= m <= 9
  {
    C.Chain(T.Deployed(9), seq(b + 1, i requires 0 <= i < b + 1 => HeadAt(i)), seq(n, i requires 0 <= i < n => EntryAt(i)),
            Pooled(m), IncludedUpTo(n))
  }

  function Submits(m: nat): seq<C.ChainStep>
    requires m <= 9
  {
    if m == 0 then [] else Submits(m - 1) + [C.Submit(100 + (m - 1), CallAt(m - 1))]
  }

  function Includes(i: nat, n: nat): seq<C.ChainStep>
    requires i <= n <= 9
  {
    if i == n then [] else Includes(i, n - 1) + [C.Include(100 + (n - 1))]
  }

  /** One block of setup, one block with the settlement. */
  function MaskingSteps(): seq<C.ChainStep> {
    Submits(9) + [C.NewBlock(HeadAt(1))] + Includes(0, 4) + [C.NewBlock(HeadAt(2))] + Includes(4, 9)
  }

  lemma {:induction false} RunConcat(c: C.Chain, a: seq<C.ChainStep>, b: seq<C.ChainStep>)
    ensures C.Run(c, a + b) == C.Run(C.Run(c, a), b)
    decreases |a|
  {
    hide C.Next;
    if a == [] {
      assert a + b == b;
    } else {
      assert (a + b)[0] == a[0] && (a + b)[1..] == a[1..] + b;
      RunConcat(C.Next(c, a[0]), a[1..], b);
    }
  }

  lemma RunOne(c: C.Chain, step: C.ChainStep)
    ensures C.Run(c, [step]) == C.Next(c, step)
  {
    hide C.Next;
    assert [step][1..] == [];
  }

  lemma SubmitOne(m: nat)
    requires m < 9
    ensures C.Next(Stage(0, m, 0), C.Submit(100 + m, CallAt(m))) == Stage(0, m + 1, 0)
  {
    hide CallAt;
    assert Pooled(m + 1) == Pooled(m)[100 + m := CallAt(m)];
  }

  lemma BlockOpens(b: nat, n: nat)
    requires 1 <= b < 3 && n <= 9
    ensures C.Next(Stage(b - 1, 9, n), C.NewBlock(HeadAt(b))) == Stage(b, 9, n)
  {
    hide CallAt, EntryAt;
    assert Stage(b - 1, 9, n).heads + [HeadAt(b)] == Stage(b, 9, n).heads;
  }

  lemma NextLogAt(b: nat, n: nat)
    requires n < 9 && b == BlockOf(n)
    ensures C.NextLog(Stage(b, 9, n).entries, b) == FirstLogAt(n)
  {
    hide StateOf, CallAt;
    if n > 0 {
      assert Stage(b, 9, n).entries[n - 1] == EntryAt(n - 1);
    }
  }

  lemma IncludeOne(b: nat, n: nat)
    requires n < 9 && b == BlockOf(n)
    ensures C.Next(Stage(b, 9, n), C.Include(100 + n)) == Stage(b, 9, n + 1)
  {
    hide C.NewEntry, C.CanInclude, C.Next, EntryAt, CallAt, T.Deployed;
    NewEntryAt(b, n);
    InclusionStep(Stage(b, 9, n), 100 + n);
    StageGrows(b, n);
  }

  lemma InclusionStep(c: C.Chain, hash: Hash)
    requires C.CanInclude(c, hash)
    ensures C.Next(c, C.Include(hash)) == c.(entries := c.entries + [C.NewEntry(c, hash)], included := c.included[hash := |c.entries|])
  {
    hide C.NewEntry, C.CanInclude;
  }

  lemma StageGrows(b: nat, n: nat)
    requires n < 9 && b < 3
    ensures Stage(b, 9, n + 1)
         == Stage(b, 9, n).(entries := Stage(b, 9, n).entries + [EntryAt(n)], included := Stage(b, 9, n).included[100 + n := n])
    ensures |Stage(b, 9, n).entries| == n
  {
    hide EntryAt, CallAt, T.Deployed, Pooled, HeadAt;
    assert Stage(b, 9, n).entries + [EntryAt(n)] == Stage(b, 9, n + 1).entries;
    assert IncludedUpTo(n + 1) == IncludedUpTo(n)[100 + n := n];
  }

  lemma NewEntryAt(b: nat, n: nat)
    requires n < 9 && b == BlockOf(n)
    ensures C.CanInclude(Stage(b, 9, n), 100 + n) && C.NewEntry(Stage(b, 9, n), 100 + n) == EntryAt(n)
  {
    hide T.Exec, StateOf, CallAt, EventsAt, C.NextLog, T.Deployed;
    NextLogAt(b, n);
    ExecAt(n);
    StateBefore(b, n);
    var c := Stage(b, 9, n);
    assert c.Height() == b && c.heads[b] == HeadAt(b);
    assert (100 + n) in Pooled(9) && (100 + n) !in IncludedUpTo(n);
  }

  lemma StateBefore(b: nat, n: nat)
    requires n <= 9 && b < 3
    ensures Stage(b, 9, n).Now() == StateOf(n)
  {
    if n == 0 {
      assert StateOf(0) == T.Deployed(9);
    } else {
      hide StateOf;
      assert Stage(b, 9, n).entries[n - 1] == EntryAt(n - 1);
    }
  }

  lemma {:induction false} RunSubmits(m: nat)
    requires m <= 9
    ensures C.Run(Stage(0, 0, 0), Submits(m)) == Stage(0, m, 0)
  {
    hide CallAt, C.Next;
    if m > 0 {
      RunSubmits(m - 1);
      var step := C.Submit(100 + (m - 1), CallAt(m - 1));
      RunConcat(Stage(0, 0, 0), Submits(m - 1), [step]);
      RunOne(Stage(0, m - 1, 0), step);
      SubmitOne(m - 1);
    }
  }

  lemma {:induction false} RunIncludes(b: nat, i: nat, n: nat)
    requires i <= n <= 9 && b < 3 && forall k :: i <= k < n ==> BlockOf(k) == b
    ensures C.Run(Stage(b, 9, i), Includes(i, n)) == Stage(b, 9, n)
    decreases n
  {
    hide C.Next, Stage;
    if i < n {
      RunIncludes(b, i, n - 1);
      RunConcat(Stage(b, 9, i), Includes(i, n - 1), [C.Include(100 + (n - 1))]);
      RunOne(Stage(b, 9, n - 1), C.Include(100 + (n - 1)));
      IncludeOne(b, n - 1);
    }
  }

  function MaskedChain(): C.Chain { Stage(2, 9, 9) }

  lemma LaunchedStage()
    ensures C.Launched(9, C.Head(0, 0)) == Stage(0, 0, 0)
  {
    var c := Stage(0, 0, 0);
    assert c.heads == [C.Head(0, 0)] && c.entries == [] && c.pool == map[] && c.included == map[];
  }

  /** The chain is a run from deployment. */
  lemma MaskedChainIsReached()
    ensures C.Run(C.Launched(9, C.Head(0, 0)), MaskingSteps()) == MaskedChain() && C.Valid(MaskedChain())
  {
    LaunchedStage();
    C.LaunchedIsValid(9, C.Head(0, 0));
    hide Stage, C.Next, C.Valid, C.Launched, Submits, Includes;
    var c0 := C.Launched(9, C.Head(0, 0));
    var (a, x, b, y, d) := (Submits(9), [C.NewBlock(HeadAt(1))], Includes(0, 4), [C.NewBlock(HeadAt(2))], Includes(4, 9));
    RunSubmits(9);
    RunOne(Stage(0, 9, 0), C.NewBlock(HeadAt(1)));
    BlockOpens(1, 0);
    RunIncludes(1, 0, 4);
    RunOne(Stage(1, 9, 4), C.NewBlock(HeadAt(2)));
    BlockOpens(2, 4);
    RunIncludes(2, 4, 9);
    RunConcat(c0, a, x);
    RunConcat(c0, a + x, b);
    RunConcat(c0, a + x + b, y);
    RunConcat(c0, a + x + b + y, d);
    C.RunKeepsValid(c0, MaskingSteps());
  }

  // ---------------------------------------------------------------- the verdict

  const RAIL: Rail := Rail(HexAddress(1), 1, false, true, 1)

  function MaskedRequest(): Request {
    Request(HexAddress(1), HexAddress(3), HexAddress(2), HexWord(2), HexWord(108), 7, 10, 20, 0, true)
  }

  lemma CanonicalSpelling(a: Address, n: Uint256)
    ensures Spells(HexAddress(a), 20, a) && Spells(HexWord(n), 32, n)
  {
    HexAddressShape(a);
    HexWordShape(n);
  }

  lemma MaskedAsked()
    ensures ValidRail(RAIL) && Asks(MaskedRequest(), 1, 3, 2, 2, 108)
  {
    hide HexAddress, HexWord, Spells;
    CanonicalSpelling(1, 2);
    CanonicalSpelling(3, 108);
    CanonicalSpelling(2, 2);
    HexAddressShape(1);
  }

  lemma ChainEntry(i: nat)
    requires i < 9
    ensures |MaskedChain().entries| == 9 && MaskedChain().entries[i] == EntryAt(i)
  {
    hide EntryAt;
  }

  lemma BlockBounds()
    ensures |MaskedChain().entries| == 9
    ensures First(MaskedChain(), 2) == 4 && Last(MaskedChain(), 2) == 9
    ensures StateAt(MaskedChain(), 1) == StateOf(4) && StateAt(MaskedChain(), 2) == StateOf(9)
  {
    var c := MaskedChain();
    MaskedChainIsReached();
    ChainEntry(3);
    ChainEntry(4);
    ChainEntry(8);
    hide MaskedChain, StateOf, C.Valid, Through;
    ThroughMeaning(c, 9, 1, 3);
    ThroughMeaning(c, 9, 1, 4);
    ThroughMeaning(c, 9, 2, 8);
  }

  /** What each transaction of the second block brought the parties. */
  lemma Inflows(i: nat)
    requires 4 <= i < 9
    ensures In(EntryAt(i), 3) == if i == 7 then 5 else 0
    ensures In(EntryAt(i), 2) == if i == 5 then 1 else if i == 8 then 9 else 0
  {
    assert T.Fee(5, 1000) == 0 && T.Fee(1, 1000) == 0 && T.Fee(10, 1000) == 1;
  }

  lemma BlockInflows()
    ensures |MaskedChain().entries| == 9 && First(MaskedChain(), 2) == 4 && Last(MaskedChain(), 2) == 9
    ensures BlockIn(MaskedChain(), 2, 3) == 5
  {
    var c := MaskedChain();
    BlockBounds();
    forall i: nat | 4 <= i < 9 ensures In(c.entries[i], 3) == if i == 7 then 5 else 0 {
      ChainEntry(i);
      Inflows(i);
    }
    hide MaskedChain, In, First, Last;
    SumOne(c, In, 3, 4, 9, 7);
  }

  /** Of the second block's events only the last is a legacy Transfer of the parties. */
  lemma OnlyLastEvent(i: nat, j: nat)
    requires 4 <= i < 9 && j < |EventsAt(i)| && EventsAt(i)[j].Transfer? && (EventsAt(i)[j].from == 3 || EventsAt(i)[j].to == 2)
    ensures i == 8 && j == 1
  {
  }

  lemma BlockOfLog()
    ensures |EntryAt(8).Events()| == 2 && LogOf(MaskedChain(), EntryAt(8), 1).block == 2
  {
    hide MaskedChain, StateOf;
  }

  lemma RaceIsLast(m: C.LogEntry)
    requires Races(MaskedChain(), m, 2, 3, 2)
    ensures m == LogOf(MaskedChain(), EntryAt(8), 1)
  {
    hide C.Valid, C.AllLogs, MaskedChain, StateOf, CallAt, EventsAt, FirstLogAt, C.BlockHash;
    var c := MaskedChain();
    MaskedChainIsReached();
    C.LogsAreEvents(c, m);
    var i: nat, j: nat :| C.IsLog(c, m, i, j);
    ChainEntry(0);
    ChainEntry(i);
    OnlyLastEvent(i, j);
  }

  lemma MaskedAlone()
    ensures |MaskedChain().entries| == 9 && MaskedChain().entries[8] == EntryAt(8)
    ensures Alone(MaskedChain(), LogOf(MaskedChain(), EntryAt(8), 1), 3, 2)
  {
    ChainEntry(8);
    assert EntryAt(8).block == 2 && |EntryAt(8).Events()| == 2;
    hide MaskedChain, Races, EntryAt, LogOf;
    BlockOfLog();
    forall m | Races(MaskedChain(), m, 2, 3, 2) ensures m == LogOf(MaskedChain(), EntryAt(8), 1) {
      RaceIsLast(m);
    }
  }

  lemma MaskedSettled()
    ensures |MaskedChain().entries| == 9 && Settled(MaskedChain(), 8, 3, 2, 2, 7)
  {
    ChainEntry(8);
    hide MaskedChain, StateOf;
  }

  lemma MaskedBalances()
    ensures T.Balance(StateOf(4).balances, 3) == 20 && T.Balance(StateOf(9).balances, 3) == 10
    ensures T.Balance(StateOf(4).balances, 2) == 0 && T.Balance(StateOf(9).balances, 2) == 10
  {
  }

  ghost function MaskedTruth(): Observation {
    ChainEntry(8);
    Truth(MaskedChain(), 8, 1, 1, 3, 2, 2, 2)
  }

  lemma MaskedObservation()
    ensures var o := MaskedTruth();
              o.payerParent == 20 && o.payerAfter == 10 && o.payeeParent == 0 && o.payeeAfter == 10 && o.chainId == 1
  {
    ChainEntry(8);
    BlockBounds();
    MaskedBalances();
    TruthBalances(MaskedChain(), 8, 1, 1, 3, 2, 2, 2);
    TruthHasEvidence(MaskedChain(), 8, 1, 1, 3, 2, 2, 2);
    hide Truth, MaskedChain, StateOf, StateAt, T.Balance, CallAt, EventsAt;
  }

  /**
   "No inflow" and "received from this settlement" are not what the oracle proves: it accepts this one as
   consistent_paid over 10, although the payer was minted 5 units in the block and the settlement netted 9.
   */
  lemma DriftMasksInflow()
    ensures C.Run(C.Launched(9, C.Head(0, 0)), MaskingSteps()) == MaskedChain() && C.Valid(MaskedChain())
    ensures |MaskedChain().entries| == 9 && First(MaskedChain(), 2) <= Last(MaskedChain(), 2)
    ensures Verdict(RAIL, MaskedRequest(), MaskedTruth()).Ok?
    ensures Verdict(RAIL, MaskedRequest(), MaskedTruth()).value.kind == ConsistentPaid
    ensures Verdict(RAIL, MaskedRequest(), MaskedTruth()).value.receivedAmount == 10
    ensures BlockIn(MaskedChain(), 2, 3) == 5 && In(MaskedChain().entries[8], 2) == 9
  {
    MaskedChainIsReached();
    MaskedAsked();
    MaskedAlone();
    MaskedSettled();
    MaskedObservation();
    BlockInflows();
    Inflows(8);
    assert EntryAt(8).Succeeded() && EntryAt(8).block == 2 && EntryAt(8).hash == 108 && EntryAt(8).call == Pays(3, 2, 10, 2);
    hide Verdict, Truth, MaskedChain, Alone, Settled, C.Valid, Asks, HexAddress, HexWord, BlockIn, In, First, Last, EntryAt, MaskingSteps,
         C.Launched;
    VerdictOnSuccess(RAIL, MaskedRequest(), MaskedChain(), 8, 1, 3, 2, 2, 2);
    VerdictGrades(RAIL, MaskedRequest(), MaskedTruth());
  }
}
