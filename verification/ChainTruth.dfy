/** What the node's truthful answers say about a valid chain. */
module ChainTruth {
  import opened Common
  import opened Evidence
  import opened Token
  import C = Chain
  import F = Confirmer
  import P = Protocol

  lemma ExecEvents(s: TokenState, call: Call, time: nat)
    ensures Exec(s, call, time).Done? ==> F.TokenEvents(Exec(s, call, time).events)
  {
  }

  lemma EntryEvents(c: C.Chain, i: nat)
    requires C.Valid(c) && i < |c.entries|
    ensures F.TokenEvents(c.entries[i].Events())
  {
    assert C.EntryOk(c, i);
    var e := c.entries[i];
    ExecEvents(e.pre, e.call, c.heads[e.block].time);
  }

  lemma EncodedIn(token: Address, logs: seq<C.LogEntry>, l: C.LogEntry)
    requires l in logs
    ensures EncodeLog(token, l) in EncodeLogs(token, logs)
  {
    hide EncodeLog;
    var i :| 0 <= i < |logs| && logs[i] == l;
    assert EncodeLogs(token, logs)[i] == EncodeLog(token, l);
  }

  /** The log query from an entry's block to the head covers that entry's logs. */
  lemma QueryCovers(c: C.Chain, cfg: P.Config, i: nat, auth: Authorization)
    requires C.Valid(c) && i < |c.entries|
    ensures var e := c.entries[i];
            F.FetchedCovers(cfg.token, e, C.BlockHash(c.heads, e.block), P.FetchedTransfers(c, cfg, auth.from, e.block), cfg.merchant, auth)
  {
    hide EncodeLog, EncodeLogs, TopicsMatch, EventTopics, F.TransferFilter;
    var e := c.entries[i];
    assert C.EntryOk(c, i);
    var logs := C.EntryLogs(e, C.BlockHash(c.heads, e.block));
    forall l | l in logs && TopicsMatch(F.TransferFilter(auth.from, cfg.merchant), EventTopics(l.event))
      ensures EncodeLog(cfg.token, l) in P.FetchedTransfers(c, cfg, auth.from, e.block)
    {
      var j :| 0 <= j < |logs| && logs[j] == l;
      assert C.IsLog(c, l, i, j);
      C.LogsAreEvents(c, l);
      EncodedIn(cfg.token, SelectLogs(C.AllLogs(c), F.TransferFilter(auth.from, cfg.merchant), e.block, c.Height()), l);
    }
  }

  /** The confirmer's decision inside the protocol is the true one. */
  lemma LogIndexIsTrue(c: C.Chain, cfg: P.Config, auth: Authorization, o: P.Order, tx: Hash)
    requires C.Valid(c) && tx in c.included && !cfg.confirmWithoutWaiting
    ensures c.included[tx] < |c.entries| && c.entries[c.included[tx]].hash == tx
    ensures P.LogIndex(c, cfg, auth, o, tx)
         == F.TrueDecision(c.entries[c.included[tx]], cfg.merchant, auth, o.amount, o.createdBlock)
  {
    hide F.Decision, EncodeReceipt, F.TruthOrder, P.FetchedTransfers, F.FetchedCovers;
    var i := c.included[tx];
    var e := c.entries[i];
    assert C.EntryOk(c, i);
    EntryEvents(c, i);
    QueryCovers(c, cfg, i, auth);
    F.DecisionOnTruth(cfg.token, cfg.merchant, auth, o.amount, e, C.BlockHash(c.heads, e.block), o.createdBlock,
                      P.FetchedTransfers(c, cfg, auth.from, e.block));
  }

  /** Without a receipt nothing is ever confirmed. */
  lemma NoReceiptNoIndex(c: C.Chain, cfg: P.Config, auth: Authorization, o: P.Order, tx: Hash)
    requires C.Valid(c)
    requires cfg.confirmWithoutWaiting || tx !in c.included
    ensures P.LogIndex(c, cfg, auth, o, tx) == None
  {
  }

  /** The log a true decision points at. */
  lemma DecisionIsLog(c: C.Chain, cfg: P.Config, auth: Authorization, o: P.Order, tx: Hash) returns (l: C.LogEntry)
    requires C.Valid(c) && P.LogIndex(c, cfg, auth, o, tx).Some?
    ensures tx in c.included && c.entries[c.included[tx]].Succeeded()
    ensures l in C.AllLogs(c) && l.tx == tx && l.index == P.LogIndex(c, cfg, auth, o, tx).value
    ensures l.event.Transfer? && l.event.to == cfg.merchant && l.event.value == o.amount && l.event.from == auth.from
  {
    hide P.LogIndex;
    if cfg.confirmWithoutWaiting || tx !in c.included {
      NoReceiptNoIndex(c, cfg, auth, o, tx);
    }
    LogIndexIsTrue(c, cfg, auth, o, tx);
    var i := c.included[tx];
    var e := c.entries[i];
    l := C.LogEntry(tx, e.block, C.BlockHash(c.heads, e.block), e.firstLog + 1, e.Events()[1]);
    assert C.IsLog(c, l, i, 1);
    C.LogsAreEvents(c, l);
  }
}
