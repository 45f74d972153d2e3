// The processor's parent-hash check and its one-block cache.
module ParentCheck {
  import opened Blocks
  import opened SequencerModel
  import opened SequencerDrain
  import opened SequencerLedger
  import opened SequencerOrder

  /** The height and hash of the last block accepted singly; an empty hash means nothing is cached. */
  datatype Cache = Cache(num: int, hash: Option<Hash>)

  datatype Processed = Done | FetchFailed | ReorgAt(height: int)

  /** Does block b fit on what is known?  The cache decides when it holds the height below, else the stored row,
      else nothing. */
  predicate LinksTo(chainId: int, cache: Cache, b: Block, stored: Option<Hash>) {
    || chainId == 31337
    || (if cache.num == b.number - 1 && cache.hash.Some? then cache.hash.value == b.parent
        else stored.Some? ==> stored.value == b.parent)
  }

  /** The verdict of ProcessBlock.  Without a block the program would dereference nil, so nothing is accepted. */
  function Judge(chainId: int, cache: Cache, d: BlockData, stored: Option<Hash>): Outcome {
    if d.failed || d.block.None? then Failed
    else if LinksTo(chainId, cache, d.block.value, stored) then Ok
    else Reorg
  }

  function OutcomeOf(r: Processed): Outcome {
    match r
    case Done => Ok
    case FetchFailed => Failed
    case ReorgAt(_) => Reorg
  }

  /** The blocks for which an accepted result has a persist task. */
  function BlocksOf(data: seq<(BlockData, bool)>): seq<Block>
    decreases |data|
  {
    if data == [] then [] else
    var last := data[|data| - 1].0;
    BlocksOf(data[..|data| - 1]) + if !last.failed && last.block.Some? then [last.block.value] else []
  }

  class Processor {
    const chainId: int
    var lastBlockNum: int
    var lastBlockHash: Option<Hash>
    var tasks: seq<Block>          // persist tasks handed to the orchestrator
    ghost var calls: seq<Call>     // what was asked of this processor, and its answers

    function CacheState(): Cache
      reads this
    {
      Cache(lastBlockNum, lastBlockHash)
    }

    /** Every single acceptance was checked against the cache of that moment, the cache is the one the history
        leaves, and there is one task for each accepted block, in order. */
    ghost predicate Valid()
      reads this
    {
      && Checked(chainId, calls)
      && CacheState() == CacheAfter(chainId, calls)
      && tasks == BlocksOf(Accepted(calls))
    }

    constructor (chainId: int)
      ensures this.chainId == chainId && CacheState() == Cache(0, None) && tasks == []
      ensures Valid() && calls == []
    {
      this.chainId := chainId;
      lastBlockNum, lastBlockHash, tasks := 0, None, [];
      calls := [];
    }

    method HandleReorgReadOnly(blockNum: int, parentHash: Hash, stored: Option<Hash>) returns (reorg: bool)
      ensures forall h :: reorg <==> !LinksTo(chainId, CacheState(), Block(blockNum, h, parentHash), stored)
      ensures chainId == 31337 ==> !reorg
      ensures chainId != 31337 && lastBlockNum == blockNum - 1 && lastBlockHash.Some? ==>
        (reorg <==> lastBlockHash.value != parentHash)
      ensures chainId != 31337 && (lastBlockNum != blockNum - 1 || lastBlockHash.None?) ==>
        (reorg <==> stored.Some? && stored.value != parentHash)
    {
      if chainId == 31337 { return false; }
      var prevNum := blockNum - 1;
      if lastBlockNum == prevNum && lastBlockHash.Some? {
        return lastBlockHash.value != parentHash;
      }
      return stored.Some? && stored.value != parentHash;
    }

    method UpdateReorgCache(blockNum: int, blockHash: Hash)
      modifies this`lastBlockNum, this`lastBlockHash
      ensures CacheState() == if chainId == 31337 then old(CacheState()) else Cache(blockNum, Some(blockHash))
    {
      if chainId != 31337 {
        lastBlockNum, lastBlockHash := blockNum, Some(blockHash);
      }
    }

    /** `stored` is the hash the block table gives for the height below, if the query finds a row. */
    method ProcessBlock(d: BlockData, stored: Option<Hash>) returns (r: Processed)
      requires Valid() && (!d.failed ==> d.block.Some?)
      modifies this
      ensures Valid() && calls == old(calls) + [Single(d, OutcomeOf(r))]
      ensures OutcomeOf(r) == Judge(chainId, CacheAfter(chainId, old(calls)), d, stored)
      ensures r.FetchFailed? <==> d.failed
      ensures r.Done? <==> !d.failed && LinksTo(chainId, old(CacheState()), d.block.value, stored)
      ensures r.ReorgAt? ==> r.height == d.block.value.number
      ensures r.Done? ==>
        tasks == old(tasks) + [d.block.value] && CacheState() == After(chainId, old(CacheState()), d.block.value)
      ensures !r.Done? ==> tasks == old(tasks) && CacheState() == old(CacheState())
      ensures chainId == 31337 && !d.failed ==> r.Done?
      ensures chainId != 31337 && !d.failed ==>
        (r.Done? <==>
          if old(lastBlockNum) == d.block.value.number - 1 && old(lastBlockHash).Some?
          then d.block.value.parent == old(lastBlockHash).value
          else stored.Some? ==> stored.value == d.block.value.parent)
      ensures r.Done? && chainId != 31337 ==>
        lastBlockNum == d.block.value.number && lastBlockHash == Some(d.block.value.hash)
      ensures !r.Done? || chainId == 31337 ==> lastBlockNum == old(lastBlockNum) && lastBlockHash == old(lastBlockHash)
    {
      hide Checked;
      hide CacheAfter;
      hide Accepted;
      hide BlocksOf;
      if d.failed {
        Record(Single(d, Failed));
        return FetchFailed;
      }
      var block := d.block.value;
      var reorg := HandleReorgReadOnly(block.number, block.parent, stored);
      if reorg {
        assert !LinksTo(chainId, CacheState(), Block(block.number, block.hash, block.parent), stored);
        Record(Single(d, Reorg));
        return ReorgAt(block.number);
      }
      assert LinksTo(chainId, CacheState(), Block(block.number, block.hash, block.parent), stored);
      assert CheckedCall(chainId, calls, Single(d, Ok));
      HistoryGrows(chainId, calls, Single(d, Ok));
      BlocksGrow(Accepted(calls), (d, false));
      tasks := tasks + [block];
      UpdateReorgCache(block.number, block.hash);
      calls := calls + [Single(d, Ok)];
      return Done;
    }

    /** A refused call is entered in the history, and nothing else happens. */
    ghost method Record(call: Call)
      requires Valid() && call.Single? && !call.outcome.Ok?
      modifies this`calls
      ensures Valid() && calls == old(calls) + [call]
    {
      hide Checked;
      hide CacheAfter;
      hide BlocksOf;
      HistoryGrows(chainId, calls, call);
      assert Accepted(calls) + [] == Accepted(calls);
      calls := calls + [call];
    }

    /** A batch is accepted whatever it holds: results with an error or without a block are passed over, the others
        become tasks, and neither the parents are looked at nor the cache is touched. */
    method ProcessBatch(blocks: seq<BlockData>)
      requires Valid()
      modifies this`tasks, this`calls
      ensures Valid() && calls == old(calls) + [Batch(blocks, true)]
      ensures tasks == old(tasks) + BlocksOf(InBatch(blocks))
      ensures |tasks| == |old(tasks)| + |Usable(blocks, |blocks|)|
      ensures forall i :: 0 <= i < |blocks| && i in Usable(blocks, i + 1) ==>
        |Usable(blocks, i)| < |Usable(blocks, |blocks|)| &&
        tasks[|old(tasks)| + |Usable(blocks, i)|] == blocks[i].block.value
    {
      hide BlocksOf;
      hide InBatch;
      hide Checked;
      hide CacheAfter;
      hide Accepted;
      assert tasks == tasks + BlocksOf(InBatch(blocks[..0])) by { NoBlocks(blocks); }
      var i := 0;
      while i < |blocks|
        invariant 0 <= i <= |blocks| && calls == old(calls)
        invariant tasks == old(tasks) + BlocksOf(InBatch(blocks[..i]))
      {
        BatchGrows(blocks, i);
        if !blocks[i].failed && blocks[i].block.Some? {
          tasks := tasks + [blocks[i].block.value];
        }
        i := i + 1;
      }
      assert blocks[..i] == blocks;
      HistoryGrows(chainId, calls, Batch(blocks, true));
      BlocksConcat(Accepted(calls), InBatch(blocks));
      TasksAt(blocks, |blocks|);
      calls := calls + [Batch(blocks, true)];
    }
  }

  lemma HistoryGrows(chainId: int, calls: seq<Call>, call: Call)
    ensures Accepted(calls + [call]) == Accepted(calls) + AcceptedBy(call)
    ensures Checked(chainId, calls + [call]) <==> Checked(chainId, calls) && CheckedCall(chainId, calls, call)
    ensures CacheAfter(chainId, calls + [call]) ==
      if call.Single? && call.outcome.Ok? && call.data.block.Some?
      then After(chainId, CacheAfter(chainId, calls), call.data.block.value) else CacheAfter(chainId, calls)
  {
    var all := calls + [call];
    assert forall i :: 0 <= i <= |calls| ==> all[..i] == calls[..i];
    assert calls[..|calls|] == calls && all[|calls|] == call;
    if Checked(chainId, all) {
      forall i | 0 <= i < |calls| ensures CheckedCall(chainId, calls[..i], calls[i]) {
        assert CheckedCall(chainId, all[..i], all[i]);
      }
      assert CheckedCall(chainId, all[..|calls|], all[|calls|]);
    }
  }

  lemma BlocksGrow(data: seq<(BlockData, bool)>, d: (BlockData, bool))
    ensures BlocksOf(data + [d]) == BlocksOf(data) + if !d.0.failed && d.0.block.Some? then [d.0.block.value] else []
  {
    assert (data + [d])[..|data|] == data;
  }

  lemma NoBlocks(blocks: seq<BlockData>)
    ensures BlocksOf(InBatch(blocks[..0])) == []
  {
  }

  lemma BatchGrows(blocks: seq<BlockData>, i: nat)
    requires i < |blocks|
    ensures BlocksOf(InBatch(blocks[..i + 1])) ==
      BlocksOf(InBatch(blocks[..i])) +
        if !blocks[i].failed && blocks[i].block.Some? then [blocks[i].block.value] else []
  {
    assert InBatch(blocks[..i + 1]) == InBatch(blocks[..i]) + [(blocks[i], true)];
    BlocksGrow(InBatch(blocks[..i]), (blocks[i], true));
  }

  /** Which of the first n results are error-free and have a block. */
  ghost function Usable(blocks: seq<BlockData>, n: int): set<int>
    requires 0 <= n <= |blocks|
  {
    set i | 0 <= i < n && !blocks[i].failed && blocks[i].block.Some?
  }

  lemma UsableGrows(blocks: seq<BlockData>, n: nat)
    requires n < |blocks|
    ensures |Usable(blocks, n + 1)| ==
      |Usable(blocks, n)| + if !blocks[n].failed && blocks[n].block.Some? then 1 else 0
  {
    var before, after := Usable(blocks, n), Usable(blocks, n + 1);
    assert forall k :: k in after <==> k in before || (k == n && !blocks[n].failed && blocks[n].block.Some?);
    hide Usable;
    if !blocks[n].failed && blocks[n].block.Some? {
      assert after == before + {n};
    } else {
      assert after == before;
    }
  }

  /** One task for each usable result, at the place that the usable ones before it leave. */
  lemma {:induction false} TasksAt(blocks: seq<BlockData>, n: nat)
    requires n <= |blocks|
    ensures |BlocksOf(InBatch(blocks[..n]))| == |Usable(blocks, n)|
    ensures forall i :: 0 <= i < n && i in Usable(blocks, i + 1) ==>
      |Usable(blocks, i)| < |Usable(blocks, n)| &&
      BlocksOf(InBatch(blocks[..n]))[|Usable(blocks, i)|] == blocks[i].block.value
    decreases n
  {
    if n == 0 {
      NoBlocks(blocks);
      assert Usable(blocks, 0) == {};
    } else {
      TasksAt(blocks, n - 1);
      BatchGrows(blocks, n - 1);
      UsableGrows(blocks, n - 1);
      assert n - 1 in Usable(blocks, n) <==> !blocks[n - 1].failed && blocks[n - 1].block.Some?;
      hide Usable;
      hide BlocksOf;
      hide InBatch;
    }
  }

  lemma {:induction false} BlocksConcat(a: seq<(BlockData, bool)>, b: seq<(BlockData, bool)>)
    ensures BlocksOf(a + b) == BlocksOf(a) + BlocksOf(b)
    decreases |b|
  {
    if b == [] {
      assert a + b == a;
    } else {
      var front, last := b[..|b| - 1], b[|b| - 1];
      BlocksConcat(a, front);
      BlocksGrow(a + front, last);
      BlocksGrow(front, last);
      assert a + b == (a + front) + [last] && b == front + [last];
    }
  }

  function After(chainId: int, cache: Cache, b: Block): Cache {
    if chainId == 31337 then cache else Cache(b.number, Some(b.hash))
  }

  /** The cache after a history of calls; only a block accepted singly changes it, a batch does not. */
  function CacheAfter(chainId: int, calls: seq<Call>): Cache
    decreases |calls|
  {
    if calls == [] then Cache(0, None) else
    var before, last := CacheAfter(chainId, calls[..|calls| - 1]), calls[|calls| - 1];
    if last.Single? && last.outcome.Ok? && last.data.block.Some?
    then After(chainId, before, last.data.block.value) else before
  }

  /** A single block is only accepted if it fits the cache left by the calls before it, else some answer of the
      block table. */
  ghost predicate CheckedCall(chainId: int, calls: seq<Call>, call: Call) {
    call.Single? && call.outcome.Ok? ==>
      call.data.block.Some? && exists stored :: LinksTo(chainId, CacheAfter(chainId, calls), call.data.block.value,
        stored)
  }

  ghost predicate Checked(chainId: int, calls: seq<Call>) {
    forall i :: 0 <= i < |calls| ==> CheckedCall(chainId, calls[..i], calls[i])
  }

  /** The sequencer's processor decides as ProcessBlock does, the block table answering as `table` says. */
  ghost predicate Decides(c: Config, table: (seq<Call>, BlockData) -> Option<Hash>) {
    forall calls, d :: c.process(calls, d) == Judge(c.chainId, CacheAfter(c.chainId, calls), d, table(calls, d))
  }

  /** The sequencer's processor accepts a single block only if it fits. */
  ghost predicate Checks(c: Config) {
    forall calls, d :: CheckedCall(c.chainId, calls, Single(d, Verdict(c, calls, d)))
  }

  lemma DecidesChecks(c: Config, table: (seq<Call>, BlockData) -> Option<Hash>)
    requires Decides(c, table)
    ensures Checks(c)
  {
    forall calls, d ensures CheckedCall(c.chainId, calls, Single(d, Verdict(c, calls, d))) {
      assert c.process(calls, d) == Judge(c.chainId, CacheAfter(c.chainId, calls), d, table(calls, d));
    }
  }

  ghost predicate IsSingle(p: (BlockData, bool)) {
    !p.1 && p.0.block.Some?
  }

  /** The last accepted block, if it was accepted singly, is the one in the cache. */
  lemma {:induction false} CacheHoldsLast(chainId: int, calls: seq<Call>)
    requires Checked(chainId, calls) && chainId != 31337
    ensures var acc := Accepted(calls);
      acc != [] && !acc[|acc| - 1].1 ==>
        && acc[|acc| - 1].0.block.Some?
        && CacheAfter(chainId, calls) ==
          Cache(acc[|acc| - 1].0.block.value.number, Some(acc[|acc| - 1].0.block.value.hash))
    decreases |calls|
  {
    if calls != [] {
      assert calls == calls[..|calls| - 1] + [calls[|calls| - 1]];
      HistoryGrows(chainId, calls[..|calls| - 1], calls[|calls| - 1]);
      CacheHoldsLast(chainId, calls[..|calls| - 1]);
    }
  }

  /** Two blocks accepted singly, one right after the other, at consecutive heights are hash-linked. */
  ghost predicate LinkedAt(acc: seq<(BlockData, bool)>, i: nat)
    requires i + 1 < |acc|
  {
    IsSingle(acc[i]) && IsSingle(acc[i + 1]) && acc[i + 1].0.block.value.number == acc[i].0.block.value.number + 1 ==>
      acc[i + 1].0.block.value.parent == acc[i].0.block.value.hash
  }

  lemma {:induction false} AcceptedRunsAreLinked(chainId: int, calls: seq<Call>, i: nat)
    requires Checked(chainId, calls) && chainId != 31337 && i + 1 < |Accepted(calls)|
    ensures LinkedAt(Accepted(calls), i)
    decreases |calls|
  {
    var n := |calls| - 1;
    var front, last := calls[..n], calls[n];
    assert calls == front + [last];
    HistoryGrows(chainId, front, last);
    var acc, before := Accepted(calls), Accepted(front);
    if i + 1 < |before| {
      AcceptedRunsAreLinked(chainId, front, i);
      assert acc[i] == before[i] && acc[i + 1] == before[i + 1];
    } else if last.Single? {
      CacheHoldsLast(chainId, front);
      assert acc[i] == before[|before| - 1];
    }
  }

  // --- in the sequencer ---

  /** Step by step, the history of calls only holds checked calls. */
  lemma CallsSnoc(c: Config, calls: seq<Call>, d: BlockData)
    requires Checks(c) && Checked(c.chainId, calls)
    ensures Checked(c.chainId, calls + [Single(d, Verdict(c, calls, d))])
  {
    HistoryGrows(c.chainId, calls, Single(d, Verdict(c, calls, d)));
  }

  lemma BatchSnoc(c: Config, calls: seq<Call>, blocks: seq<BlockData>, accepted: bool)
    requires Checked(c.chainId, calls)
    ensures Checked(c.chainId, calls + [Batch(blocks, accepted)])
  {
    HistoryGrows(c.chainId, calls, Batch(blocks, accepted));
  }

  ghost predicate Sound(c: Config, s: State) {
    Checked(c.chainId, s.calls)
  }

  lemma {:induction false} DrainChecked(c: Config, s: State)
    requires Checks(c) && Sound(c, s)
    ensures Sound(c, DrainLoop(c, s))
    decreases |s.buffer|
  {
    if s.expected in s.buffer {
      CallsSnoc(c, s.calls, s.buffer[s.expected]);
      DrainTakes(c, s);
      if TakeNext(c, s).1.Ok? { DrainChecked(c, TakeNext(c, s).0); }
    }
  }

  lemma PlaceChecked(c: Config, s: State, n: int, d: BlockData)
    requires Checks(c) && Sound(c, s)
    ensures Sound(c, Place(c, s, n, d).0)
  {
    hide Checks;
    hide DrainLoop;
    if n == s.expected {
      CallsSnoc(c, s.calls, d);
      assert Sound(c, ProcessSequential(c, s, d).0);
      DrainChecked(c, ProcessSequential(c, s, d).0);
    } else if n > s.expected {
      var wide := s.(buffer := s.buffer[n := d]);
      assert n in wide.buffer.Keys;
      var m := MinKey(wide.buffer.Keys);
      DrainChecked(c, wide.(expected := m, ledger := s.ledger + [Skipped(Overflow, s.expected, m)]));
    }
  }

  lemma HandleBlockChecked(c: Config, s: State, a: Arrival)
    requires Checks(c) && Sound(c, s)
    ensures Sound(c, HandleBlock(c, s, a).0)
    decreases a.data.failed
  {
    if IsRangeSignal(a.data) {
      var e := a.data.rangeEnd.value + 1;
      DrainChecked(c, s.(expected := e, ledger := s.ledger + [Skipped(Teleport, s.expected, e)]));
    } else if a.data.failed {
      if CanRefetch(a) { HandleBlockChecked(c, s, Refetched(a)); }
    } else if PositionOf(Hydrate(a)).Some? {
      PlaceChecked(c, s, PositionOf(Hydrate(a)).value, Hydrate(a));
    }
  }

  lemma {:induction false} HandleAllChecked(c: Config, s: State, batch: seq<Arrival>)
    requires Checks(c) && Sound(c, s)
    ensures Sound(c, HandleAll(c, s, batch).0)
    decreases |batch|
  {
    if batch != [] {
      HandleBlockChecked(c, s, batch[0]);
      HandleAllChecked(c, HandleBlock(c, s, batch[0]).0, batch[1..]);
    }
  }

  lemma HandleRunChecked(c: Config, s: State, batch: seq<Arrival>, i: nat, j: nat)
    requires Checks(c) && Sound(c, s) && i < j <= |batch|
    ensures Sound(c, HandleRun(c, s, batch, i, j).0)
  {
    if j == i + 1 {
      HandleAllChecked(c, s, batch[i..] + batch[..i]);
    } else {
      var run := DataOf(batch[i..j]);
      BatchSnoc(c, s.calls, run, true);
      BatchSnoc(c, s.calls, run, false);
      DrainChecked(c, CommitRun(s, run));
      HandleAllChecked(c, Drain(c, CommitRun(s, run)), batch[j..] + batch[..i]);
    }
  }

  lemma HandleBatchChecked(c: Config, s: State, batch: seq<Arrival>)
    requires Checks(c) && Sound(c, s)
    ensures Sound(c, HandleBatch(c, s, batch).0)
  {
    hide HandleAll;
    hide HandleRun;
    var p := PauseIfHigh(c, s);
    var i := RunStart(p, batch, 0);
    if i == |batch| {
      HandleAllChecked(c, p, batch);
    } else {
      HandleRunChecked(c, p, batch, i, RunEnd(batch, i + 1, s.expected + 1));
    }
  }

  lemma {:induction false} RunChecked(c: Config, s: State, ops: seq<Op>)
    requires Checks(c) && Sound(c, s)
    ensures Sound(c, Run(c, s, ops))
    decreases |ops|
  {
    if ops != [] {
      match ops[0] {
        case Arrive(a) => HandleBlockChecked(c, s, a);
        case ArriveBatch(batch) => HandleBatchChecked(c, s, batch);
        case Stall(_) =>
        case DrainNow => DrainChecked(c, s);
      }
      RunChecked(c, Step(c, s, ops[0]), ops[1..]);
    }
  }

  /** Off the local chain, in every run of a sequencer whose processor decides as ProcessBlock does, whatever the
      block table answers, blocks that were delivered singly one right after the other at consecutive heights form a
      hash-linked chain. */
  lemma DeliveredBlocksAreLinked(c: Config, table: (seq<Call>, BlockData) -> Option<Hash>, start: int, ops: seq<Op>,
                                 i: nat)
    requires Decides(c, table) && c.chainId != 31337
    requires i + 1 < |DeliveredData(Run(c, Init(start), ops).ledger)|
    ensures LinkedAt(DeliveredData(Run(c, Init(start), ops).ledger), i)
  {
    DecidesChecks(c, table);
    RunChecked(c, Init(start), ops);
    RunAccounts(c, Init(start), ops);
    AcceptedRunsAreLinked(c.chainId, Run(c, Init(start), ops).calls, i);
  }

  /** And so are the blocks that any processor object has accepted, at every moment of its life. */
  lemma ProcessorHistoryIsLinked(p: Processor, i: nat)
    requires p.Valid() && p.chainId != 31337 && i + 1 < |Accepted(p.calls)|
    ensures LinkedAt(Accepted(p.calls), i)
  {
    AcceptedRunsAreLinked(p.chainId, p.calls, i);
  }

  // --- batches ---

  /** batch[i..j] is the run that a batch commits in state s. */
  ghost predicate CommitsRun(c: Config, s: State, batch: seq<Arrival>, i: nat, j: nat) {
    && i == RunStart(PauseIfHigh(c, s), batch, 0) < |batch|
    && j == RunEnd(batch, i + 1, s.expected + 1) > i + 1
    && c.processBatch(s.calls, DataOf(batch[i..j]))
  }

  lemma {:induction false} DeliveredPrefix(a: seq<Entry>, b: seq<Entry>)
    requires a <= b
    ensures DeliveredData(a) <= DeliveredData(b)
    decreases |b|
  {
    if |a| < |b| {
      DeliveredPrefix(a, b[..|b| - 1]);
    } else {
      assert a == b;
    }
  }

  lemma CommittedFirst(c: Config, s: State, batch: seq<Arrival>, i: nat, j: nat)
    requires CommitsRun(c, s, batch, i, j)
    ensures HandleBatch(c, s, batch) ==
      HandleAll(c, Drain(c, CommitRun(PauseIfHigh(c, s), DataOf(batch[i..j]))), batch[j..] + batch[..i])
    ensures Keyed(s) ==> Keyed(CommitRun(PauseIfHigh(c, s), DataOf(batch[i..j])))
    ensures CommitRun(PauseIfHigh(c, s), DataOf(batch[i..j])).ledger ==
      s.ledger + Deliveries(s.expected, DataOf(batch[i..j]))
  {
    hide HandleAll;
    hide Drain;
  }

  lemma CommittedRun(c: Config, s: State, batch: seq<Arrival>, i: nat, j: nat)
    requires Keyed(s) && CommitsRun(c, s, batch, i, j)
    ensures DeliveredData(s.ledger) + InBatch(DataOf(batch[i..j])) <= DeliveredData(HandleBatch(c, s, batch).0.ledger)
  {
    var run := DataOf(batch[i..j]);
    var u, rest := CommitRun(PauseIfHigh(c, s), run), batch[j..] + batch[..i];
    CommittedFirst(c, s, batch, i, j);
    hide HandleAll;
    hide HandleBatch;
    hide Drain;
    hide DeliveredData;
    DeliveredRun(s.ledger, s.expected, run);
    DrainAccounts(c, u);
    HandleAllAccounts(c, Drain(c, u), rest);
    DeliveredPrefix(u.ledger, HandleAll(c, Drain(c, u), rest).0.ledger);
  }

  /** The n-th and the next accepted result are for height h and the one after it, both with blocks, and the parent
      of the second is not the hash of the first. */
  ghost predicate BrokenAt(done: seq<(BlockData, bool)>, n: nat, h: int) {
    && n + 1 < |done|
    && KeyOf(done[n].0) == Some(h) && KeyOf(done[n + 1].0) == Some(h + 1)
    && Unlinked(done[n].0, done[n + 1].0)
  }

  predicate Unlinked(d: BlockData, next: BlockData) {
    d.block.Some? && next.block.Some? && next.block.value.parent != d.block.value.hash
  }

  /** The restriction to single deliveries is needed: from any state, a committed run in which a block does not name
      the hash of the one before it as its parent is delivered with that broken link between consecutive heights. */
  lemma BatchIsNotChecked(c: Config, s: State, batch: seq<Arrival>, i: nat, j: nat, k: nat)
    requires Keyed(s) && CommitsRun(c, s, batch, i, j) && i <= k && k + 1 < j
    requires Unlinked(batch[k].data, batch[k + 1].data)
    ensures BrokenAt(DeliveredData(HandleBatch(c, s, batch).0.ledger), |DeliveredData(s.ledger)| + (k - i),
      s.expected + (k - i))
  {
    hide CommitsRun;
    hide DeliveredData;
    hide HandleBatch;
    CommittedRun(c, s, batch, i, j);
    RunKeys(c, s, batch, i, j, k);
    RunKeys(c, s, batch, i, j, k + 1);
    var done := DeliveredData(HandleBatch(c, s, batch).0.ledger);
    RunAt(DeliveredData(s.ledger), batch, i, j, done, k);
    RunAt(DeliveredData(s.ledger), batch, i, j, done, k + 1);
  }

  lemma RunAt(before: seq<(BlockData, bool)>, batch: seq<Arrival>, i: nat, j: nat, done: seq<(BlockData, bool)>, k: nat)
    requires i <= k < j <= |batch| && before + InBatch(DataOf(batch[i..j])) <= done
    ensures |before| + (k - i) < |done| && done[|before| + (k - i)] == (batch[k].data, true)
  {
    assert (before + InBatch(DataOf(batch[i..j])))[|before| + (k - i)] == (batch[k].data, true);
  }

  lemma RunKeys(c: Config, s: State, batch: seq<Arrival>, i: nat, j: nat, k: nat)
    requires CommitsRun(c, s, batch, i, j) && i <= k < j
    ensures j <= |batch| && KeyOf(batch[k].data) == Some(s.expected + (k - i))
  {
    if k == i { assert StartsRun(PauseIfHigh(c, s), batch[i]); }
  }

  // --- a batch followed by a single block ---

  /** The cache holds the block below height h. */
  predicate CachedBelow(cache: Cache, h: int) {
    cache.num == h - 1 && cache.hash.Some?
  }

  /** A batch leaves the cache as it was, so unless that happened to hold the block below, the next single block is
      only compared with the stored row, and without one it is delivered whatever its parent is. */
  lemma SingleIsJudgedByRow(c: Config, table: (seq<Call>, BlockData) -> Option<Hash>, s: State, a: Arrival)
    requires Decides(c, table) && c.chainId != 31337 && Clean(a) && HeightOf(a) == s.expected && Hydrate(a).block.Some?
    requires !CachedBelow(CacheAfter(c.chainId, s.calls), s.expected)
    ensures var d := Hydrate(a);
      HandleBlock(c, s, a).1.Ok? <==> (table(s.calls, d).Some? ==> table(s.calls, d).value == d.block.value.parent)
  {
    var d := Hydrate(a);
    CleanIsPlaced(c, s, a);
    assert c.process(s.calls, d) == Judge(c.chainId, CacheAfter(c.chainId, s.calls), d, table(s.calls, d));
  }

  lemma {:induction false} WholeRun(batch: seq<Arrival>, i: nat, next: int)
    requires i <= |batch| && AllClean(batch) && forall k :: i <= k < |batch| ==> HeightOf(batch[k]) == next + (k - i)
    ensures RunEnd(batch, i, next) == |batch|
    decreases |batch| - i
  {
    if i < |batch| { WholeRun(batch, i + 1, next + 1); }
  }

  /** A fresh sequencer commits a batch that is one run from the start on. */
  lemma FreshBatch(c: Config, start: int, batch: seq<Arrival>)
    requires |batch| >= 2 && AllClean(batch) && (forall k :: 0 <= k < |batch| ==> HeightOf(batch[k]) == start + k)
    requires c.processBatch([], DataOf(batch))
    ensures HandleBatch(c, Init(start), batch).0 == CommitRun(Init(start), DataOf(batch))
  {
    var s := Init(start);
    assert StartsRun(s, batch[0]) && RunStart(s, batch, 0) == 0;
    WholeRun(batch, 1, start + 1);
    assert batch[0..|batch|] == batch && batch[|batch|..] + batch[..0] == [];
    var u := CommitRun(s, DataOf(batch));
    assert Drain(c, u) == u;
  }

  /** A broken link between a batch and the single block after it: a run from the start, and then its successor,
      which does not name the hash of the last block as its parent, while the block table has no row for that height
      yet. */
  lemma {:induction false} SingleAfterBatchIsNotChecked(c: Config, table: (seq<Call>, BlockData) -> Option<Hash>,
                                                        start: int, batch: seq<Arrival>, a: Arrival)
    requires Decides(c, table) && c.chainId != 31337 && |batch| >= 2 && AllClean(batch) && Clean(a)
    requires c.processBatch([], DataOf(batch))
    requires forall k :: 0 <= k < |batch| ==> HeightOf(batch[k]) == start + k
    requires HeightOf(a) == start + |batch| && Unlinked(batch[|batch| - 1].data, Hydrate(a))
    requires table([Batch(DataOf(batch), true)], Hydrate(a)).None?
    ensures var ledger := Run(c, Init(start), [ArriveBatch(batch), Arrive(a)]).ledger;
      BrokenAt(DeliveredData(ledger), |batch| - 1, start + |batch| - 1)
  {
    var s := CommitRun(Init(start), DataOf(batch));
    FreshBatch(c, start, batch);
    CacheAfterBatch(c, s.calls);
    CleanIsPlaced(c, s, a);
    SingleIsJudgedByRow(c, table, s, a);
    Accepts(c, s, Hydrate(a));
    TwoSteps(c, start, batch, a);
    DeliveredRun([], start, DataOf(batch));
    assert [] + Deliveries(start, DataOf(batch)) == s.ledger;
    hide *;
    DeliveredSnoc(s.ledger, Delivered(s.expected, Hydrate(a), false));
    BrokenAtEnd(batch, a, start);
  }

  lemma CacheAfterBatch(c: Config, calls: seq<Call>)
    requires |calls| == 1 && calls[0].Batch?
    ensures CacheAfter(c.chainId, calls) == Cache(0, None)
  {
    assert calls[..0] == [];
  }

  lemma Accepts(c: Config, s: State, d: BlockData)
    requires s.buffer == map[] && PositionOf(d) == Some(s.expected) && Place(c, s, s.expected, d).1.Ok?
    ensures Place(c, s, s.expected, d).0.ledger == s.ledger + [Delivered(s.expected, d, false)]
  {
  }

  lemma TwoSteps(c: Config, start: int, batch: seq<Arrival>, a: Arrival)
    ensures Run(c, Init(start), [ArriveBatch(batch), Arrive(a)]) ==
      HandleBlock(c, HandleBatch(c, Init(start), batch).0, a).0
  {
    hide HandleBatch;
    hide HandleBlock;
    var s := HandleBatch(c, Init(start), batch).0;
    assert [ArriveBatch(batch), Arrive(a)][1..] == [Arrive(a)] && [Arrive(a)][1..] == [];
    assert Step(c, Init(start), ArriveBatch(batch)) == s;
    assert Run(c, s, [Arrive(a)]) == Run(c, Step(c, s, Arrive(a)), []);
  }

  lemma BrokenAtEnd(batch: seq<Arrival>, a: Arrival, start: int)
    requires |batch| >= 2 && AllClean(batch) && Clean(a)
    requires HeightOf(batch[|batch| - 1]) == start + |batch| - 1 && HeightOf(a) == start + |batch|
    requires Unlinked(batch[|batch| - 1].data, Hydrate(a))
    ensures BrokenAt(InBatch(DataOf(batch)) + [(Hydrate(a), false)], |batch| - 1, start + |batch| - 1)
  {
    var done := InBatch(DataOf(batch)) + [(Hydrate(a), false)];
    assert done[|batch| - 1] == (batch[|batch| - 1].data, true) && done[|batch|] == (Hydrate(a), false);
  }
}
