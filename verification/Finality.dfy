/**
 Finality by confirmations and canonicality (src/psv/reorg.py), and why it survives bounded reorgs:
 a canonical chain that grows and forks, but never replaces a block k or more deep.
 */
module Finality {
  import opened Common
  import opened Numerals
  import opened Evidence
  import opened Rails

  // ---------------------------------------------------------------- the verdict

  datatype Reason = ReorgedOut | NotMined | CanonicalUnknown | TooShallow | DeepAndCanonical

  datatype SettlementFinality = SettlementFinality(final: bool, confirmations: nat, reorged: bool, reason: Reason)

  predicate IsBlock(n: int) { 0 <= n <= UINT256_MAX }

  /** Blocks confirming a transaction, its own included; zero when not mined or in the genesis block. */
  function Confirmations(current: int, settled: int): nat {
    if settled <= 0 || current < settled then 0 else current - settled + 1
  }

  /** is_final; None where it raises. */
  function IsFinal(current: int, settled: int, required: int): Option<bool> {
    if required <= 0 || !IsBlock(current) || !IsBlock(settled) then None else Some(Confirmations(current, settled) >= required)
  }

  /** assess_finality; None where it raises. */
  function AssessFinality(settled: int, settledHash: string, current: int, canonical: Option<string>, required: int): Option<SettlementFinality> {
    if required <= 0 || !IsHexText(settledHash, 32) || !IsBlock(current) || !IsBlock(settled) then None
    else if canonical.Some? && !IsHexText(canonical.value, 32) then None
    else
      var depth := Confirmations(current, settled);
      if canonical.Some? && Lower(canonical.value) != Lower(settledHash) then Some(SettlementFinality(false, depth, true, ReorgedOut))
      else if depth == 0 then Some(SettlementFinality(false, 0, false, NotMined))
      else if canonical.None? then Some(SettlementFinality(false, depth, false, CanonicalUnknown))
      else if depth < required then Some(SettlementFinality(false, depth, false, TooShallow))
      else Some(SettlementFinality(true, depth, false, DeepAndCanonical))
  }

  /** Final exactly when the block is deep enough and still the canonical one: depth alone never suffices. */
  lemma FinalMeansDeepAndCanonical(settled: int, settledHash: string, current: int, canonical: Option<string>, required: int)
    requires AssessFinality(settled, settledHash, current, canonical, required).Some?
    ensures var v := AssessFinality(settled, settledHash, current, canonical, required).value;
              && (v.final <==> IsFinal(current, settled, required) == Some(true) && canonical.Some? && Lower(canonical.value) == Lower(settledHash))
              && (v.reorged <==> canonical.Some? && Lower(canonical.value) != Lower(settledHash))
              && !(v.final && v.reorged)
  {
    hide Lower, IsHexText;
  }

  /** What each reason says of depth and hash, and what is refused. */
  lemma ReasonsExactly(settled: int, settledHash: string, current: int, canonical: Option<string>, required: int)
    ensures AssessFinality(settled, settledHash, current, canonical, required).None?
       <==> || required < 1 || !(0 <= current <= UINT256_MAX) || !(0 <= settled <= UINT256_MAX)
            || !IsHexText(settledHash, 32) || (canonical.Some? && !IsHexText(canonical.value, 32))
    ensures AssessFinality(settled, settledHash, current, canonical, required).Some? ==>
              var v := AssessFinality(settled, settledHash, current, canonical, required).value;
              var mined := 0 < settled <= current;
              var differs := canonical.Some? && Lower(canonical.value) != Lower(settledHash);
              && v.confirmations == (if mined then current - settled + 1 else 0)
              && (v.reason == ReorgedOut <==> differs)
              && (v.reason == NotMined <==> !differs && !mined)
              && (v.reason == CanonicalUnknown <==> mined && canonical.None?)
              && (v.reason == TooShallow <==> mined && canonical.Some? && !differs && current - settled + 1 < required)
              && (v.reason == DeepAndCanonical <==> v.final)
              && (v.final <==> mined && canonical.Some? && !differs && current - settled + 1 >= required)
  {
    hide Lower, IsHexText;
  }

  // ---------------------------------------------------------------- a chain with bounded reorgs

  /** The canonical block hashes by height, and the highest head ever seen. */
  datatype Canonical = Canonical(blocks: seq<Hash>, highest: nat) {
    ghost predicate Valid() { blocks != [] && |blocks| - 1 <= highest }

    function Head(): int { |blocks| - 1 }
  }

  datatype Step = Append(hash: Hash) | Fork(keep: nat, branch: seq<Hash>)

  function Max(a: nat, b: nat): nat { if a < b then b else a }

  /** A fork may drop only blocks fewer than k deep, counted from the highest head seen. */
  predicate Allowed(c: Canonical, step: Step, k: nat) {
    step.Fork? ==> 1 <= step.keep <= |c.blocks| && step.keep + k >= c.highest + 2
  }

  function Next(c: Canonical, step: Step): Canonical
    requires c.Valid() && (step.Fork? ==> 1 <= step.keep <= |c.blocks|)
  {
    var blocks := match step
      case Append(hash) => c.blocks + [hash]
      case Fork(keep, branch) => c.blocks[..keep] + branch;
    Canonical(blocks, Max(c.highest, |blocks| - 1))
  }

  /** A step outside the bound does not happen. */
  function Run(c: Canonical, k: nat, steps: seq<Step>): (r: Canonical)
    requires c.Valid()
    ensures r.Valid()
    decreases |steps|
  {
    if steps == [] then c
    else Run(if Allowed(c, steps[0], k) then Next(c, steps[0]) else c, k, steps[1..])
  }

  /** A block k deep under the highest head stays canonical forever. */
  lemma {:induction false} DeepBlocksStay(c: Canonical, k: nat, steps: seq<Step>, h: nat)
    requires c.Valid() && k >= 1 && h < |c.blocks| && h + k <= c.highest + 1
    ensures h < |Run(c, k, steps).blocks| && Run(c, k, steps).blocks[h] == c.blocks[h]
    decreases |steps|
  {
    if steps != [] {
      var d := if Allowed(c, steps[0], k) then Next(c, steps[0]) else c;
      assert h < |d.blocks| && d.blocks[h] == c.blocks[h];
      DeepBlocksStay(d, k, steps[1..], h);
    }
  }

  /** The hash a caller reads at a height, in any letter case. */
  ghost predicate ReadsCanonical(c: Canonical, height: int, text: Option<string>) {
    if 0 <= height < |c.blocks| then text.Some? && IsHexText(text.value, 32) && Value(text.value[2..], 16) == c.blocks[height]
    else text.None?
  }

  lemma SpellingOf(text: string, hash: Hash)
    requires IsHexText(text, 32)
    ensures Lower(text) == HexWord(hash) <==> Value(text[2..], 16) == hash
  {
    PaddedOfValue(text[2..], 16);
    assert text == "0x" + text[2..];
    LowerConcat("0x", text[2..]);
    assert Lower("0x") == "0x";
    HexWordShape(hash);
    ValueLower(text[2..]);
    assert Lower(text)[2..] == Lower(text[2..]);
  }

  /**
   Finality survives bounded reorgs: once the assessment with requirement k says final at some head, the
   settlement's block is canonical at its height after every further run, and no later assessment of it
   reports a reorg.
   */
  lemma FinalityIsForever(c: Canonical, k: nat, steps: seq<Step>, settled: int, settledHash: string, canonical: Option<string>,
                          later: Option<string>, required: int)
    requires c.Valid() && ReadsCanonical(c, settled, canonical)
    requires AssessFinality(settled, settledHash, c.Head(), canonical, k).Some?
    requires AssessFinality(settled, settledHash, c.Head(), canonical, k).value.final
    requires ReadsCanonical(Run(c, k, steps), settled, later)
    ensures var d := Run(c, k, steps);
              && 0 <= settled < |d.blocks| && Lower(settledHash) == HexWord(d.blocks[settled])
              && (AssessFinality(settled, settledHash, d.Head(), later, required).Some? ==>
                    !AssessFinality(settled, settledHash, d.Head(), later, required).value.reorged)
  {
    hide Lower, IsHexText, HexWord, Run, Value;
    FinalMeansDeepAndCanonical(settled, settledHash, c.Head(), canonical, k);
    DeepBlocksStay(c, k, steps, settled);
    SpellingOf(canonical.value, c.blocks[settled]);
    SpellingOf(later.value, c.blocks[settled]);
  }

  /** The bound is tight: allow forks one block deeper and a final settlement can be replaced. */
  lemma OneDeeperBreaksFinality(k: nat) returns (c: Canonical, step: Step)
    requires 1 <= k < UINT256_MAX
    ensures c.Valid() && Allowed(c, step, k + 1)
    ensures IsFinal(c.Head(), 1, k) == Some(true) && |c.blocks| > 1
    ensures |Next(c, step).blocks| > 1 && Next(c, step).blocks[1] != c.blocks[1]
  {
    c := Canonical(seq(k + 1, _ => 7), k);
    step := Fork(1, [8]);
  }
}
