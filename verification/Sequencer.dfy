// The sequencer itself: an object whose methods update it in place, each proved to do what SequencerModel says.
module Sequencing {
  import opened Blocks
  import opened SequencerModel

  class Sequencer {
    const config: Config
    var expectedBlock: int
    var buffer: map<int, BlockData>
    var fetcherPaused: bool
    var gapFillCount: nat
    var calls: seq<Call>               // what was asked of the processor, and its answers
    var ledger: seq<Entry>             // why the expected block moved
    var refetches: seq<(int, int)>     // gaps handed back to the fetcher
    var reorgs: seq<int>               // heights at which a reorg was reported

    function State(): State
      reads this
    {
      SequencerModel.State(expectedBlock, buffer, fetcherPaused, gapFillCount, calls, ledger, refetches, reorgs)
    }

    constructor (c: Config, startBlock: int)
      ensures config == c && State() == Init(startBlock)
    {
      config := c;
      expectedBlock, buffer := startBlock, map[];
      fetcherPaused, gapFillCount := false, 0;
      calls, ledger, refetches, reorgs := [], [], [], [];
    }

    method HandleReorg(at: int)
      modifies this
      ensures State() == RollBack(config, old(State()), at)
    {
      if config.hasFetcher {
        fetcherPaused := true;
      }
      var keys := buffer.Keys;
      while keys != {}
        invariant keys <= old(buffer).Keys
        invariant buffer == map k | k in old(buffer) && (k in keys || k < at) :: old(buffer)[k]
        invariant State() == old(State()).(buffer := buffer, paused := old(fetcherPaused) || config.hasFetcher)
        decreases |keys|
      {
        HasElement(keys);
        var k :| k in keys;
        if k >= at {
          buffer := buffer - {k};
        }
        keys := keys - {k};
      }
      assert buffer == RollBack(config, old(State()), at).buffer;
      expectedBlock := at;
      reorgs := reorgs + [at];
    }

    method ProcessSequential(d: BlockData) returns (r: Outcome)
      modifies this
      ensures (State(), r) == SequencerModel.ProcessSequential(config, old(State()), d)
    {
      r := Verdict(config, calls, d);
      calls := calls + [Single(d, r)];
      match r {
        case Ok =>
          ledger := ledger + [Delivered(expectedBlock, d, false)];
          expectedBlock := expectedBlock + 1;
          gapFillCount := 0;
        case Failed =>
        case Reorg =>
          HandleReorg(d.block.value.number);
      }
    }

    method ProcessBufferContinuations()
      modifies this
      ensures State() == Drain(config, old(State()))
    {
      while expectedBlock in buffer
        invariant DrainLoop(config, State()) == DrainLoop(config, old(State()))
        decreases |buffer|
      {
        var next := expectedBlock;
        var d := buffer[next];
        assert buffer.Keys == (buffer - {next}).Keys + {next};
        ghost var before := State();
        buffer := buffer - {next};
        var r := ProcessSequential(d);
        if !r.Ok? {
          buffer := buffer[next := d];
          assert State() == DrainLoop(config, before);
          break;
        }
      }
      assert State() == DrainLoop(config, old(State()));
      if config.hasFetcher && |buffer| < 200 && fetcherPaused {
        fetcherPaused := false;
      }
    }

    method TeleportProgress(rangeEnd: int)
      modifies this
      ensures State() == TeleportTo(config, old(State()), rangeEnd)
    {
      hide Drain;
      if rangeEnd >= expectedBlock {
        ledger := ledger + [Skipped(Teleport, expectedBlock, rangeEnd + 1)];
        expectedBlock := rangeEnd + 1;
        ProcessBufferContinuations();
      }
    }

    /** The smallest buffered height, if any. */
    method MinBuffered() returns (m: Option<int>)
      ensures m.None? <==> buffer.Keys == {}
      ensures m.Some? ==> IsMin(m.value, buffer.Keys)
    {
      m := None;
      var keys := buffer.Keys;
      while keys != {}
        invariant keys <= buffer.Keys
        invariant m.None? ==> keys == buffer.Keys
        invariant m.Some? ==> m.value in buffer && forall k :: k in buffer && k !in keys ==> m.value <= k
        decreases |keys|
      {
        HasElement(keys);
        var k :| k in keys;
        if m.None? || k < m.value {
          m := Some(k);
        }
        keys := keys - {k};
      }
    }

    method EnforceBufferLimit()
      modifies this
      ensures State() == EnforceLimit(config, old(State()))
    {
      if |buffer| > BufferLimit(config) {
        var m := MinBuffered();
        assert m.value == MinKey(buffer.Keys);
        ledger := ledger + [Skipped(Overflow, expectedBlock, m.value)];
        expectedBlock := m.value;
        ProcessBufferContinuations();
      }
    }

    method HandleBlock(a: Arrival) returns (r: Outcome)
      modifies this
      ensures (State(), r) == SequencerModel.HandleBlock(config, old(State()), a)
      decreases a.data.failed
    {
      if IsRangeSignal(a.data) {
        TeleportProgress(a.data.rangeEnd.value);
        return Ok;
      }
      if a.data.failed {
        if KeyOf(a.data).Some? && a.rpcBlock.Some? && a.rpcLogs.Some? {
          r := HandleBlock(Refetched(a));
        } else {
          r := Ok;
        }
        return;
      }
      var d := a.data;
      var blockNum := KeyOf(d);
      if d.block.None? && blockNum.Some? {
        d := d.(block := a.rpcBlock);
      }
      if d.block.Some? {
        blockNum := Some(d.block.value.number);
      }
      if blockNum.Some? && blockNum.value == expectedBlock {
        r := ProcessSequential(d);
        if r.Ok? {
          ProcessBufferContinuations();
        }
        return;
      }
      if blockNum.Some? && blockNum.value > expectedBlock {
        buffer := buffer[blockNum.value := d];
        EnforceBufferLimit();
      }
      return Ok;
    }

    method HandleEach(batch: seq<Arrival>) returns (r: Outcome)
      modifies this
      ensures (State(), r) == HandleAll(config, old(State()), batch)
    {
      r := Ok;
      var i := 0;
      while i < |batch|
        invariant 0 <= i <= |batch| && r.Ok?
        invariant HandleAll(config, State(), batch[i..]) == HandleAll(config, old(State()), batch)
      {
        assert batch[i..][1..] == batch[i + 1..];
        r := HandleBlock(batch[i]);
        if !r.Ok? { return; }
        i := i + 1;
      }
    }

    /** Length of the run of consecutive results that begins at index i with the expected block. */
    method CollectRun(batch: seq<Arrival>, i: nat) returns (run: seq<BlockData>, nextExpected: int, consumed: nat)
      requires i < |batch| && StartsRun(State(), batch[i])
      ensures consumed == RunEnd(batch, i + 1, expectedBlock + 1)
      ensures i < consumed && run == DataOf(batch[i..consumed]) && nextExpected == expectedBlock + |run|
    {
      run := [batch[i].data];
      nextExpected := expectedBlock + 1;
      consumed := i + 1;
      assert run == DataOf(batch[i..consumed]);
      while consumed < |batch| && !batch[consumed].data.failed && KeyOf(batch[consumed].data) == Some(nextExpected)
        invariant i < consumed <= |batch|
        invariant run == DataOf(batch[i..consumed]) && nextExpected == expectedBlock + |run|
        invariant RunEnd(batch, consumed, nextExpected) == RunEnd(batch, i + 1, expectedBlock + 1)
      {
        assert DataOf(batch[i..consumed + 1]) == DataOf(batch[i..consumed]) + [batch[consumed].data];
        run := run + [batch[consumed].data];
        nextExpected := nextExpected + 1;
        consumed := consumed + 1;
      }
    }

    /** Index of the first result for the expected block, and the results before it. */
    method FindRun(batch: seq<Arrival>) returns (i: nat, singles: seq<Arrival>)
      ensures i == RunStart(State(), batch, 0) && singles == batch[..i]
    {
      singles := [];
      i := 0;
      while i < |batch| && !(KeyOf(batch[i].data) == Some(expectedBlock) && !batch[i].data.failed)
        invariant 0 <= i <= |batch| && singles == batch[..i]
        invariant RunStart(State(), batch, i) == RunStart(State(), batch, 0)
      {
        singles := singles + [batch[i]];
        i := i + 1;
      }
    }

    method PauseFetcherIfHigh()
      modifies this
      ensures State() == PauseIfHigh(config, old(State()))
    {
      if config.hasFetcher && |buffer| > 2000 && !fetcherPaused {
        fetcherPaused := true;
      }
    }

    method HandleBatch(batch: seq<Arrival>) returns (r: Outcome)
      modifies this
      ensures (State(), r) == SequencerModel.HandleBatch(config, old(State()), batch)
    {
      hide HandleAll;
      hide HandleRun;
      PauseFetcherIfHigh();
      var i, singles := FindRun(batch);
      if i == |batch| {
        assert singles == batch;
        r := HandleEach(singles);
      } else {
        r := HandleFromRun(batch, i, singles);
      }
    }

    method HandleFromRun(batch: seq<Arrival>, i: nat, singles: seq<Arrival>) returns (r: Outcome)
      requires i < |batch| && StartsRun(State(), batch[i]) && singles == batch[..i]
      modifies this
      ensures (State(), r) == HandleRun(config, old(State()), batch, i, RunEnd(batch, i + 1, old(expectedBlock) + 1))
    {
      var run, nextExpected, consumed := CollectRun(batch, i);
      r := HandleCollected(batch, i, run, nextExpected, consumed, singles);
    }

    /** The run goes to the processor, as one batch when it has two results or more; then the rest of the batch follows,
        and last what came before the run. */
    method HandleCollected(batch: seq<Arrival>, i: nat, run: seq<BlockData>, nextExpected: int, consumed: nat,
                           singles: seq<Arrival>)
      returns (r: Outcome)
      requires i < consumed <= |batch| && run == DataOf(batch[i..consumed]) && singles == batch[..i]
      requires nextExpected == expectedBlock + |run|
      modifies this
      ensures (State(), r) == HandleRun(config, old(State()), batch, i, consumed)
    {
      if |run| > 1 {
        var accepted := config.processBatch(calls, run);
        calls := calls + [Batch(run, accepted)];
        if !accepted { return Failed; }
        ledger := ledger + Deliveries(expectedBlock, run);
        expectedBlock := nextExpected;
        gapFillCount := 0;
        ProcessBufferContinuations();
        r := HandleEach(batch[consumed..] + singles);
      } else {
        r := HandleEach(batch[i..] + singles);
      }
    }

    method HandleStall(idleSeconds: int)
      modifies this
      ensures State() == SequencerModel.HandleStall(config, old(State()), idleSeconds)
    {
      var m := MinBuffered();
      assert m.Some? ==> m.value == MinKey(buffer.Keys);
      if idleSeconds > 55 {
        if m.Some? && m.value > expectedBlock {
          if config.hasFetcher && gapFillCount < 3 {
            refetches := refetches + [(expectedBlock, m.value - 1)];
            gapFillCount := gapFillCount + 1;
          } else {
            ledger := ledger + [Skipped(GapBypass, expectedBlock, m.value)];
            expectedBlock := m.value;
            gapFillCount := 0;
          }
        } else {
          ledger := ledger + [Skipped(ForcedSkip, expectedBlock, expectedBlock + 1)];
          expectedBlock := expectedBlock + 1;
          gapFillCount := 0;
        }
      }
    }

    method ResetExpectedBlock(block: int)
      modifies this
      ensures State() == old(State()).(expected := block)
    {
      expectedBlock := block;
    }

    method ClearBuffer()
      modifies this
      ensures State() == old(State()).(buffer := map[])
    {
      buffer := map[];
    }
  }
}
