/**
 The chain the token lives on: transactions enter a pool, blocks include them one by one, and every
 included call leaves its token state, its outcome and its logs on record. There are no reorgs here;
 they belong to module Finality.
 */
module Chain {
  import opened Common
  import opened Token

  datatype Head = Head(hash: Hash, time: nat)

  /** One included transaction, between the token states before and after it. */
  datatype Entry = Entry(hash: Hash, call: Call, block: nat, firstLog: nat, pre: TokenState, outcome: Outcome) {
    predicate Succeeded() { outcome.Done? }

    function Post(): TokenState { if outcome.Done? then outcome.state else pre }

    function Events(): seq<Event> { if outcome.Done? then outcome.events else [] }
  }

  datatype LogEntry = LogEntry(tx: Hash, block: nat, blockHash: Hash, index: nat, event: Event)

  datatype Chain = Chain(
    genesis: TokenState, heads: seq<Head>, entries: seq<Entry>, pool: map<Hash, Call>, included: map<Hash, nat>)
  {
    function Height(): nat { if heads == [] then 0 else |heads| - 1 }

    function Now(): TokenState { Before(|entries|) }

    /** The token state that the i-th included transaction starts from. */
    function Before(i: nat): TokenState
      requires i <= |entries|
    {
      if i == 0 then genesis else entries[i - 1].Post()
    }
  }

  function NextLog(entries: seq<Entry>, block: nat): nat {
    if entries == [] || entries[|entries| - 1].block != block then 0
    else
      var last := entries[|entries| - 1];
      last.firstLog + |last.Events()|
  }

  // ---------------------------------------------------------------- steps

  datatype ChainStep =
    | NewBlock(head: Head)
    | Submit(hash: Hash, call: Call)  // anyone broadcasts a transaction
    | Include(hash: Hash)             // the miner executes a pooled transaction in the open block

  predicate CanInclude(c: Chain, hash: Hash) {
    && hash in c.pool && hash !in c.included
    && c.Height() > 0
    && NextLog(c.entries, c.Height()) + 2 <= UINT256_MAX
  }

  function NewEntry(c: Chain, hash: Hash): Entry
    requires CanInclude(c, hash)
  {
    var call := c.pool[hash];
    Entry(hash, call, c.Height(), NextLog(c.entries, c.Height()), c.Now(), Exec(c.Now(), call, c.heads[c.Height()].time))
  }

  /** A step that is not enabled leaves the chain as it is; transaction hashes are fresh. */
  function Next(c: Chain, step: ChainStep): Chain {
    match step
    case NewBlock(head) => if |c.heads| < UINT256_MAX then c.(heads := c.heads + [head]) else c
    case Submit(hash, call) => if hash in c.pool then c else c.(pool := c.pool[hash := call])
    case Include(hash) =>
      if !CanInclude(c, hash) then c
      else c.(entries := c.entries + [NewEntry(c, hash)], included := c.included[hash := |c.entries|])
  }

  function Run(c: Chain, steps: seq<ChainStep>): Chain
    decreases |steps|
  {
    if steps == [] then c else Run(Next(c, steps[0]), steps[1..])
  }

  function Launched(admin: Address, genesisHead: Head): Chain {
    Chain(Deployed(admin), [genesisHead], [], map[], map[])
  }

  // ---------------------------------------------------------------- logs

  function EntryLogs(e: Entry, blockHash: Hash): seq<LogEntry> {
    seq(|e.Events()|, j requires 0 <= j < |e.Events()| =>
      LogEntry(e.hash, e.block, blockHash, e.firstLog + j, e.Events()[j]))
  }

  function BlockHash(heads: seq<Head>, block: nat): Hash {
    if block < |heads| then heads[block].hash else 0
  }

  /** Every log of the token, in chain order. */
  function Logs(entries: seq<Entry>, heads: seq<Head>): seq<LogEntry> {
    if entries == [] then []
    else
      var last := entries[|entries| - 1];
      Logs(entries[..|entries| - 1], heads) + EntryLogs(last, BlockHash(heads, last.block))
  }

  function AllLogs(c: Chain): seq<LogEntry> { Logs(c.entries, c.heads) }

  // ---------------------------------------------------------------- validity

  ghost predicate EntryOk(c: Chain, i: nat)
    requires i < |c.entries|
  {
    var e := c.entries[i];
    && 1 <= e.block < |c.heads|
    && e.pre == c.Before(i)
    && e.outcome == Exec(e.pre, e.call, c.heads[e.block].time)
    && e.firstLog == NextLog(c.entries[..i], e.block)
    && e.firstLog + |e.Events()| <= UINT256_MAX
    && e.hash in c.pool && c.pool[e.hash] == e.call
    && e.hash in c.included && c.included[e.hash] == i
    && (i > 0 ==> c.entries[i - 1].block <= e.block)
  }

  ghost predicate Valid(c: Chain) {
    && 1 <= |c.heads| <= UINT256_MAX
    && Token.Valid(c.genesis)
    && (forall i :: 0 <= i < |c.entries| ==> EntryOk(c, i))
    && (forall h :: h in c.included ==> c.included[h] < |c.entries| && c.entries[c.included[h]].hash == h)
  }

  /** What any later chain keeps. */
  ghost predicate Extends(c: Chain, d: Chain) {
    && c.genesis == d.genesis
    && c.heads <= d.heads
    && c.entries <= d.entries
    && (forall h :: h in c.pool ==> h in d.pool && d.pool[h] == c.pool[h])
    && (forall h :: h in c.included ==> h in d.included && d.included[h] == c.included[h])
  }

  lemma LaunchedIsValid(admin: Address, genesisHead: Head)
    ensures Valid(Launched(admin, genesisHead))
  {
    DeployedRunConserves(admin, []);
  }

  lemma EventsAtMostTwo(s: TokenState, call: Call, time: nat)
    ensures Exec(s, call, time).Done? ==> |Exec(s, call, time).events| <= 2
  {
  }

  lemma NextKeepsValid(c: Chain, step: ChainStep)
    requires Valid(c)
    ensures Valid(Next(c, step)) && Extends(c, Next(c, step))
  {
    var d := Next(c, step);
    if d != c && step.Include? {
      var last := |c.entries|;
      EventsAtMostTwo(c.Now(), c.pool[step.hash], c.heads[c.Height()].time);
      forall i | 0 <= i < |d.entries| ensures EntryOk(d, i) {
        if i < last {
          assert EntryOk(c, i);
          assert d.entries[..i] == c.entries[..i];
          assert d.Before(i) == c.Before(i);
        } else {
          assert d.entries[..i] == c.entries;
          if i > 0 {
            assert EntryOk(c, i - 1);
          }
        }
      }
    } else if d != c {
      forall i | 0 <= i < |d.entries| ensures EntryOk(d, i) {
        assert EntryOk(c, i);
        assert d.Before(i) == c.Before(i);
      }
    }
  }

  lemma ExtendsTransitive(c: Chain, d: Chain, e: Chain)
    requires Extends(c, d) && Extends(d, e)
    ensures Extends(c, e)
  {
    assert forall i :: 0 <= i < |c.heads| ==> c.heads[i] == d.heads[i] == e.heads[i];
    assert forall i :: 0 <= i < |c.entries| ==> c.entries[i] == d.entries[i] == e.entries[i];
  }

  lemma {:induction false} RunKeepsValid(c: Chain, steps: seq<ChainStep>)
    requires Valid(c)
    ensures Valid(Run(c, steps)) && Extends(c, Run(c, steps))
    decreases |steps|
  {
    if steps != [] {
      NextKeepsValid(c, steps[0]);
      RunKeepsValid(Next(c, steps[0]), steps[1..]);
      ExtendsTransitive(c, Next(c, steps[0]), Run(c, steps));
    }
  }

  /** Money is conserved at every point of a valid chain. */
  lemma {:induction false} StatesAreValid(c: Chain, i: nat)
    requires Valid(c) && i <= |c.entries|
    ensures Token.Valid(c.Before(i)) && c.Before(i).admin == c.genesis.admin
    ensures c.genesis.used <= c.Before(i).used
  {
    if i > 0 {
      StatesAreValid(c, i - 1);
      assert EntryOk(c, i - 1);
      var e := c.entries[i - 1];
      AfterKeepsValid(e.pre, e.call, c.heads[e.block].time);
    }
  }

  lemma {:induction false} UsedGrows(c: Chain, i: nat, j: nat)
    requires Valid(c) && i <= j <= |c.entries|
    ensures c.Before(i).used <= c.Before(j).used
  {
    if i < j {
      UsedGrows(c, i, j - 1);
      StatesAreValid(c, j - 1);
      assert EntryOk(c, j - 1);
      var e := c.entries[j - 1];
      AfterKeepsValid(e.pre, e.call, c.heads[e.block].time);
    }
  }

  lemma {:induction false} BlocksAscend(c: Chain, i: nat, j: nat)
    requires Valid(c) && i <= j < |c.entries|
    ensures c.entries[i].block <= c.entries[j].block
  {
    if i < j {
      BlocksAscend(c, i, j - 1);
      assert EntryOk(c, j);
    }
  }

  // ---------------------------------------------------------------- the log list

  ghost predicate IsLog(c: Chain, l: LogEntry, i: nat, j: nat) {
    && i < |c.entries| && j < |c.entries[i].Events()|
    && var e := c.entries[i];
    && l == LogEntry(e.hash, e.block, BlockHash(c.heads, e.block), e.firstLog + j, e.Events()[j])
  }

  lemma {:induction false} LogOfEvent(c: Chain, n: nat, i: nat, j: nat, l: LogEntry)
    requires i < n <= |c.entries| && IsLog(c, l, i, j)
    ensures l in Logs(c.entries[..n], c.heads)
  {
    var last := c.entries[n - 1];
    assert c.entries[..n][..n - 1] == c.entries[..n - 1];
    if i < n - 1 {
      LogOfEvent(c, n - 1, i, j, l);
    } else {
      assert l == EntryLogs(last, BlockHash(c.heads, last.block))[j];
    }
  }

  lemma {:induction false} EventOfLog(c: Chain, n: nat, l: LogEntry) returns (i: nat, j: nat)
    requires n <= |c.entries| && l in Logs(c.entries[..n], c.heads)
    ensures i < n && IsLog(c, l, i, j)
  {
    var last := c.entries[n - 1];
    assert c.entries[..n][..n - 1] == c.entries[..n - 1];
    if l in Logs(c.entries[..n - 1], c.heads) {
      i, j := EventOfLog(c, n - 1, l);
    } else {
      i := n - 1;
      j :| 0 <= j < |last.Events()| && l == EntryLogs(last, BlockHash(c.heads, last.block))[j];
    }
  }

  /** A log is in the list exactly when some included transaction emitted it. */
  lemma LogsAreEvents(c: Chain, l: LogEntry)
    ensures l in AllLogs(c) <==> exists i: nat, j: nat :: IsLog(c, l, i, j)
  {
    assert c.entries[..|c.entries|] == c.entries;
    if l in AllLogs(c) {
      var i, j := EventOfLog(c, |c.entries|, l);
    } else if i: nat, j: nat :| IsLog(c, l, i, j) {
      LogOfEvent(c, |c.entries|, i, j, l);
    }
  }

  /** A transaction hash and a log position identify one log of the token. */
  lemma LogIdentity(c: Chain, l: LogEntry, m: LogEntry)
    requires Valid(c) && l in AllLogs(c) && m in AllLogs(c)
    requires l.tx == m.tx && l.index == m.index
    ensures l == m
  {
    LogsAreEvents(c, l);
    LogsAreEvents(c, m);
    var i: nat, j: nat :| IsLog(c, l, i, j);
    var i': nat, j': nat :| IsLog(c, m, i', j');
    assert EntryOk(c, i) && EntryOk(c, i');
  }

  /** Logs only accumulate. */
  lemma LogsPersist(c: Chain, d: Chain, l: LogEntry)
    requires Valid(c) && Valid(d) && Extends(c, d) && l in AllLogs(c)
    ensures l in AllLogs(d)
  {
    LogsAreEvents(c, l);
    LogsAreEvents(d, l);
    var i: nat, j: nat :| IsLog(c, l, i, j);
    assert EntryOk(c, i) && c.entries[i] == d.entries[i];
    assert IsLog(d, l, i, j);
  }
}
