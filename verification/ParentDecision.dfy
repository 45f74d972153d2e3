// Which blocks the parent check accepts, read off the processor's fields and the sequencer's ledger.
module ParentDecision {
  import opened Blocks
  import opened SequencerModel
  import opened SequencerLedger
  import opened SequencerEffects
  import opened ParentCheck

  /** Entry i is the last result accepted outside a batch. */
  ghost predicate LastAlone(acc: seq<(BlockData, bool)>, i: nat) {
    i < |acc| && !acc[i].1 && forall k :: i < k < |acc| ==> acc[k].1
  }

  predicate CacheIs(cache: Cache, d: BlockData) {
    d.block.Some? && cache.num == d.block.value.number && cache.hash == Some(d.block.value.hash)
  }

  /** Off the local chain the cache holds the last block accepted singly, whatever batches came after it; before the
      first such block it is empty. */
  lemma {:induction false} CacheIsLastAlone(chainId: int, calls: seq<Call>, i: nat)
    requires Checked(chainId, calls) && chainId != 31337
    ensures LastAlone(Accepted(calls), i) ==> CacheIs(CacheAfter(chainId, calls), Accepted(calls)[i].0)
    ensures (forall k :: 0 <= k < |Accepted(calls)| ==> Accepted(calls)[k].1) ==>
      CacheAfter(chainId, calls) == Cache(0, None)
    decreases |calls|
  {
    if calls != [] {
      var front, last := calls[..|calls| - 1], calls[|calls| - 1];
      assert calls == front + [last];
      HistoryGrows(chainId, front, last);
      CacheIsLastAlone(chainId, front, i);
      var acc, before := Accepted(calls), Accepted(front);
      assert forall k :: 0 <= k < |before| ==> acc[k] == before[k];
      assert last.Single? && last.outcome.Ok? ==> !acc[|before|].1;
      assert CheckedCall(chainId, front, last);
    }
  }

  lemma {:induction false} CacheOnLocalChain(calls: seq<Call>)
    ensures CacheAfter(31337, calls) == Cache(0, None)
    decreases |calls|
  {
    if calls != [] { CacheOnLocalChain(calls[..|calls| - 1]); }
  }

  /** At every moment of a processor's life its fields hold the last block it accepted singly; on the local chain, and
      before the first such block, they hold nothing. */
  lemma FieldsHoldLastAlone(p: Processor, i: nat)
    requires p.Valid()
    ensures p.chainId != 31337 && LastAlone(Accepted(p.calls), i) ==>
      Accepted(p.calls)[i].0.block.Some? &&
      p.lastBlockNum == Accepted(p.calls)[i].0.block.value.number &&
      p.lastBlockHash == Some(Accepted(p.calls)[i].0.block.value.hash)
    ensures p.chainId == 31337 || (forall k :: 0 <= k < |Accepted(p.calls)| ==> Accepted(p.calls)[k].1) ==>
      p.lastBlockNum == 0 && p.lastBlockHash == None
  {
    hide Checked;
    if p.chainId == 31337 { CacheOnLocalChain(p.calls); } else { CacheIsLastAlone(p.chainId, p.calls, i); }
  }

  // --- in the sequencer ---

  /** Entry i is the last delivery outside a batch. */
  ghost predicate LastSingle(ledger: seq<Entry>, i: nat) {
    && i < |ledger| && ledger[i].Delivered? && !ledger[i].batched
    && forall k :: i < k < |ledger| && ledger[k].Delivered? ==> ledger[k].batched
  }

  ghost predicate NoSingle(ledger: seq<Entry>) {
    forall k :: 0 <= k < |ledger| && ledger[k].Delivered? ==> ledger[k].batched
  }

  lemma {:induction false} LastSingleIsLastAlone(ledger: seq<Entry>, i: nat) returns (j: nat)
    requires LastSingle(ledger, i)
    ensures LastAlone(DeliveredData(ledger), j) && DeliveredData(ledger)[j].0 == ledger[i].data
    decreases |ledger|
  {
    var n := |ledger| - 1;
    if i == n {
      j := |DeliveredData(ledger)| - 1;
    } else {
      var front := ledger[..n];
      assert LastSingle(front, i);
      j := LastSingleIsLastAlone(front, i);
    }
  }

  lemma {:induction false} NoSingleNoneAlone(ledger: seq<Entry>)
    requires NoSingle(ledger)
    ensures forall k :: 0 <= k < |DeliveredData(ledger)| ==> DeliveredData(ledger)[k].1
    decreases |ledger|
  {
    if ledger != [] { NoSingleNoneAlone(ledger[..|ledger| - 1]); }
  }

  /** In every run the cache of the processor is the last block delivered singly. */
  lemma {:induction false} RunCache(c: Config, table: (seq<Call>, BlockData) -> Option<Hash>, start: int, ops: seq<Op>,
                                    i: nat)
    requires Decides(c, table) && c.chainId != 31337
    ensures var s := Run(c, Init(start), ops);
      && (LastSingle(s.ledger, i) ==> CacheIs(CacheAfter(c.chainId, s.calls), s.ledger[i].data))
      && (NoSingle(s.ledger) ==> CacheAfter(c.chainId, s.calls) == Cache(0, None))
  {
    DecidesChecks(c, table);
    RunChecked(c, Init(start), ops);
    RunAccounts(c, Init(start), ops);
    var s := Run(c, Init(start), ops);
    hide Run;
    hide Checked;
    hide CacheIs;
    if LastSingle(s.ledger, i) {
      var j := LastSingleIsLastAlone(s.ledger, i);
      CacheIsLastAlone(c.chainId, s.calls, j);
    }
    if NoSingle(s.ledger) {
      NoSingleNoneAlone(s.ledger);
      CacheIsLastAlone(c.chainId, s.calls, 0);
    }
  }

  /** Result a reaches the processor as d, for the expected block. */
  ghost predicate IsNext(s: State, a: Arrival, d: BlockData) {
    && !IsSignal(a.data) && (a.data.failed ==> Recoverable(a))
    && Completes(a, d) && IsHeight(d, s.expected)
  }

  /** Off the local chain, in every run of a sequencer whose processor decides as ProcessBlock does: the successor
      of the last block that was delivered singly is accepted exactly if it names that block's hash as its parent,
      whatever the block table holds; any other next block exactly if no row is stored for the height below, or one with
      that hash. */
  lemma {:induction false} AcceptedIffLinked(c: Config, table: (seq<Call>, BlockData) -> Option<Hash>, start: int,
                                             ops: seq<Op>, i: nat, a: Arrival, d: BlockData)
    requires Decides(c, table) && c.chainId != 31337
    requires IsNext(Run(c, Init(start), ops), a, d) && d.block.Some?
    ensures var (s, b) := (Run(c, Init(start), ops), d.block.value);
      && (LastSingle(s.ledger, i) ==> s.ledger[i].data.block.Some?)
      && (LastSingle(s.ledger, i) && b.number == s.ledger[i].data.block.value.number + 1 ==>
          (HandleBlock(c, s, a).1.Ok? <==> b.parent == s.ledger[i].data.block.value.hash))
      && ((LastSingle(s.ledger, i) && b.number != s.ledger[i].data.block.value.number + 1) || NoSingle(s.ledger) ==>
          (HandleBlock(c, s, a).1.Ok? <==> (table(s.calls, d).Some? ==> table(s.calls, d).value == b.parent)))
      && !HandleBlock(c, s, a).1.Failed?
  {
    RunCache(c, table, start, ops, i);
    var s := Run(c, Init(start), ops);
    hide Run;
    PlacedNext(c, s, a, d);
    assert c.process(s.calls, d) == Judge(c.chainId, CacheAfter(c.chainId, s.calls), d, table(s.calls, d));
  }

  /** On the local chain every next block is accepted, from any state. */
  lemma LocalChainAccepts(c: Config, table: (seq<Call>, BlockData) -> Option<Hash>, s: State, a: Arrival, d: BlockData)
    requires Decides(c, table) && c.chainId == 31337 && IsNext(s, a, d) && d.block.Some?
    ensures HandleBlock(c, s, a).1.Ok?
  {
    PlacedNext(c, s, a, d);
    assert c.process(s.calls, d) == Judge(c.chainId, CacheAfter(c.chainId, s.calls), d, table(s.calls, d));
  }

  /** On every chain a next result whose block the node does not give either fails and stays undelivered. */
  lemma BlocklessFails(c: Config, table: (seq<Call>, BlockData) -> Option<Hash>, s: State, a: Arrival, d: BlockData)
    requires Decides(c, table) && IsNext(s, a, d) && d.block.None?
    ensures HandleBlock(c, s, a) == (s.(calls := s.calls + [Single(d, Failed)]), Failed)
  {
    BecomesPlaced(c, s, a, d, s.expected);
    assert c.process(s.calls, d) == Judge(c.chainId, CacheAfter(c.chainId, s.calls), d, table(s.calls, d));
  }
}
