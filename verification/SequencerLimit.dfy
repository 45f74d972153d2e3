// The buffer limit: it bounds the buffer when everything is accepted, and its overflow skip can go backwards.
module SequencerLimit {
  import opened Blocks
  import opened SequencerModel
  import opened SequencerDrain
  import opened SequencerOrder

  /** The buffer is within its limit, and off the local chain the fetcher has not been paused. */
  ghost predicate Bounded(c: Config, s: State) {
    && Keyed(s)
    && |s.buffer| <= BufferLimit(c)
    && (c.chainId != 31337 ==> !s.paused)
  }

  lemma DrainShrinks(c: Config, s: State)
    requires AlwaysOk(c) && Keyed(s)
    ensures var t := Drain(c, s);
      && Keyed(t)
      && |t.buffer| <= |s.buffer|
      && (s.expected in s.buffer ==> |t.buffer| < |s.buffer|)
      && (t.paused ==> s.paused)
  {
    DrainAccepts(c, s);
    var t := Drain(c, s);
    SmallerKeys(t.buffer.Keys, s.buffer.Keys);
    assert |t.buffer| == |t.buffer.Keys| && |s.buffer| == |s.buffer.Keys|;
    if s.expected in s.buffer {
      assert s.expected !in t.buffer.Keys;
    }
  }

  lemma PlaceBounded(c: Config, s: State, n: int, d: BlockData)
    requires AlwaysOk(c) && Bounded(c, s) && PositionOf(d) == Some(n)
    ensures Bounded(c, Place(c, s, n, d).0) && Place(c, s, n, d).1.Ok?
  {
    if n == s.expected {
      DrainShrinks(c, ProcessSequential(c, s, d).0);
    } else if n > s.expected {
      var wide := s.(buffer := s.buffer[n := d]);
      assert wide.buffer.Keys == s.buffer.Keys + {n};
      if |wide.buffer| > BufferLimit(c) {
        var m := MinKey(wide.buffer.Keys);
        DrainShrinks(c, wide.(expected := m, ledger := s.ledger + [Skipped(Overflow, s.expected, m)]));
      }
    }
  }

  lemma HandleBlockBounded(c: Config, s: State, a: Arrival)
    requires AlwaysOk(c) && Bounded(c, s)
    ensures Bounded(c, HandleBlock(c, s, a).0) && HandleBlock(c, s, a).1.Ok?
    decreases a.data.failed
  {
    if IsRangeSignal(a.data) {
      var e := a.data.rangeEnd.value;
      DrainShrinks(c, s.(expected := e + 1, ledger := s.ledger + [Skipped(Teleport, s.expected, e + 1)]));
    } else if a.data.failed {
      if CanRefetch(a) { HandleBlockBounded(c, s, Refetched(a)); }
    } else if PositionOf(Hydrate(a)).Some? {
      PlaceBounded(c, s, PositionOf(Hydrate(a)).value, Hydrate(a));
    }
  }

  lemma {:induction false} HandleAllBounded(c: Config, s: State, batch: seq<Arrival>)
    requires AlwaysOk(c) && Bounded(c, s)
    ensures Bounded(c, HandleAll(c, s, batch).0) && HandleAll(c, s, batch).1.Ok?
    decreases |batch|
  {
    if batch != [] {
      HandleBlockBounded(c, s, batch[0]);
      HandleAllBounded(c, HandleBlock(c, s, batch[0]).0, batch[1..]);
    }
  }

  lemma HandleBatchBounded(c: Config, s: State, batch: seq<Arrival>)
    requires AlwaysOk(c) && Bounded(c, s)
    ensures Bounded(c, HandleBatch(c, s, batch).0) && HandleBatch(c, s, batch).1.Ok?
  {
    hide HandleAll;
    hide HandleRun;
    var p := PauseIfHigh(c, s);
    var i := RunStart(p, batch, 0);
    if i == |batch| {
      HandleAllBounded(c, p, batch);
    } else {
      HandleRunBounded(c, p, batch, i, RunEnd(batch, i + 1, s.expected + 1));
    }
  }

  lemma HandleRunBounded(c: Config, s: State, batch: seq<Arrival>, i: nat, j: nat)
    requires AlwaysOk(c) && Bounded(c, s) && i < j <= |batch|
    ensures Bounded(c, HandleRun(c, s, batch, i, j).0) && HandleRun(c, s, batch, i, j).1.Ok?
  {
    if j == i + 1 {
      HandleAllBounded(c, s, batch[i..] + batch[..i]);
    } else {
      var u := CommitRun(s, DataOf(batch[i..j]));
      DrainShrinks(c, u);
      HandleAllBounded(c, Drain(c, u), batch[j..] + batch[..i]);
    }
  }

  /** With a processor that accepts everything the buffer never exceeds its limit, in any run with any arrivals and
      stalls; so off chain 31337 the pause at more than 2000 buffered results is unreachable. */
  lemma {:induction false} BufferStaysBounded(c: Config, s: State, ops: seq<Op>)
    requires AlwaysOk(c) && Bounded(c, s)
    ensures Bounded(c, Run(c, s, ops))
    decreases |ops|
  {
    if ops != [] {
      match ops[0] {
        case Arrive(a) => HandleBlockBounded(c, s, a);
        case ArriveBatch(batch) => HandleBatchBounded(c, s, batch);
        case Stall(_) =>
        case DrainNow => DrainShrinks(c, s);
      }
      BufferStaysBounded(c, Step(c, s, ops[0]), ops[1..]);
    }
  }

  // --- a run that rewinds ---

  /** One result after the other. */
  function OneByOne(batch: seq<Arrival>): seq<Op> {
    seq(|batch|, i requires 0 <= i < |batch| => Arrive(batch[i]))
  }

  /** From s to t exactly m results were buffered and nothing else happened; every key is below `bound`. */
  ghost predicate Waits(s: State, t: State, m: nat, bound: int) {
    && Keyed(t) && t.expected == s.expected && t.ledger == s.ledger
    && |t.buffer| == |s.buffer| + m
    && (forall k :: k in s.buffer ==> k in t.buffer)
    && (forall k :: k in t.buffer ==> k < bound && (k in s.buffer || k > s.expected))
  }

  lemma OneAhead(c: Config, s: State, a: Arrival)
    requires Clean(a) && HeightOf(a) > s.expected && Keyed(s) && |s.buffer| < BufferLimit(c)
    requires forall k :: k in s.buffer ==> k < HeightOf(a)
    ensures Waits(s, Step(c, s, Arrive(a)), 1, HeightOf(a) + 1)
    ensures Step(c, s, Arrive(a)).buffer.Keys == s.buffer.Keys + {HeightOf(a)}
  {
    CleanIsPlaced(c, s, a);
    var wide := s.(buffer := s.buffer[HeightOf(a) := Hydrate(a)]);
    assert wide.buffer.Keys == s.buffer.Keys + {HeightOf(a)};
    assert |wide.buffer| == |wide.buffer.Keys| && |s.buffer| == |s.buffer.Keys|;
  }

  /** Error-free results for the heights from..from+|batch|-1. */
  ghost predicate Feed(batch: seq<Arrival>, from: int) {
    forall i :: 0 <= i < |batch| ==> Clean(batch[i]) && HeightOf(batch[i]) == from + i
  }

  lemma OneMoreAhead(c: Config, s: State, t: State, a: Arrival, m: nat)
    requires Clean(a) && Keyed(s) && HeightOf(a) > s.expected && |s.buffer| + m < BufferLimit(c)
    requires Waits(s, t, m, HeightOf(a))
    ensures Waits(s, Step(c, t, Arrive(a)), m + 1, HeightOf(a) + 1)
  {
    OneAhead(c, t, a);
  }

  lemma {:induction false} AheadIsBuffered(c: Config, s: State, batch: seq<Arrival>, from: int)
    requires Feed(batch, from) && Keyed(s) && from > s.expected && |s.buffer| + |batch| <= BufferLimit(c)
    requires forall k :: k in s.buffer ==> k < from
    ensures Waits(s, Run(c, s, OneByOne(batch)), |batch|, from + |batch|)
    decreases |batch|
  {
    if batch == [] {
      assert OneByOne(batch) == [];
    } else {
      var m := |batch| - 1;
      var front, a := batch[..m], batch[m];
      FeedFront(batch, from);
      assert OneByOne(batch) == OneByOne(front) + [Arrive(a)];
      hide *;
      AheadIsBuffered(c, s, front, from);
      OneMoreAhead(c, s, Run(c, s, OneByOne(front)), a, m);
      RunLast(c, s, OneByOne(front), Arrive(a));
    }
  }

  lemma FeedFront(batch: seq<Arrival>, from: int)
    requires Feed(batch, from) && batch != []
    ensures var m := |batch| - 1;
      Feed(batch[..m], from) && Clean(batch[m]) && HeightOf(batch[m]) == from + m
  {
  }

  lemma RunFirst(c: Config, s: State, op: Op, ops: seq<Op>)
    ensures Run(c, s, [op] + ops) == Run(c, Step(c, s, op), ops)
  {
    assert ([op] + ops)[1..] == ops;
  }

  lemma {:induction false} RunSplits(c: Config, s: State, a: seq<Op>, b: seq<Op>)
    ensures Run(c, s, a + b) == Run(c, Run(c, s, a), b)
    decreases |a|
  {
    if a == [] {
      assert a + b == b;
    } else {
      assert (a + b)[1..] == a[1..] + b;
      RunSplits(c, Step(c, s, a[0]), a[1..], b);
    }
  }

  lemma RunLast(c: Config, s: State, ops: seq<Op>, op: Op)
    ensures Run(c, s, ops + [op]) == Step(c, Run(c, s, ops), op)
  {
    RunSplits(c, s, ops, [op]);
    RunFirst(c, Run(c, s, ops), op, []);
    assert [op] + [] == [op];
  }

  /** The state after results for two consecutive expected heights, the second of them already buffered. */
  lemma PairLeavesStaleKey(c: Config, s: State, a: Arrival, b: Arrival)
    requires AlwaysOk(c) && Keyed(s) && |s.buffer| <= 2000 && Clean(a) && Clean(b)
    requires HeightOf(a) == s.expected && HeightOf(b) == s.expected + 1
    requires s.buffer.Keys == {s.expected + 1}
    ensures var t := Step(c, s, ArriveBatch([a, b]));
      && Keyed(t) && t.expected == s.expected + 2 && t.buffer.Keys == {s.expected + 1}
      && Delivers(s.ledger, s.expected, t.ledger, t.expected)
  {
    var batch := [a, b];
    var run := DataOf(batch[0..2]);
    assert StartsRun(s, batch[0]) && RunStart(s, batch, 0) == 0;
    assert RunEnd(batch, 2, s.expected + 2) == 2;
    assert RunEnd(batch, 1, s.expected + 1) == 2;
    assert run == [a.data, b.data];
    var u := CommitRun(s, run);
    CommitDelivers(s, run);
    DrainAccepts(c, u);
    assert batch[2..] + batch[..0] == [];
    assert HandleRun(c, s, batch, 0, 2).0 == Drain(c, u);
  }

  /** A run of which every result is error-free and every block accepted, and which still rewinds: height 1 arrives
      early, heights 0 and 1 then arrive as one batch, and 1000 results further ahead overflow the buffer. */
  lemma OverflowCanRewind(c: Config, feed: seq<Arrival>)
    requires AlwaysOk(c) && c.chainId != 31337
    requires |feed| == 1003 && Feed(feed, 0)
    ensures var ops := [Arrive(feed[1]), ArriveBatch(feed[..2])] + OneByOne(feed[3..1002]) + [Arrive(feed[1002])];
      var s := Run(c, Init(0), ops);
      && |s.ledger| > 3
      && s.ledger[1].Delivered? && s.ledger[1].number == 1
      && s.ledger[2] == Skipped(Overflow, 2, 1)
      && s.ledger[3].Delivered? && s.ledger[3].number == 1
  {
    var s1 := Step(c, Init(0), Arrive(feed[1]));
    OneAhead(c, Init(0), feed[1]);
    assert |s1.buffer| == |s1.buffer.Keys| == 1;
    assert feed[..2] == [feed[0], feed[1]];
    PairLeavesStaleKey(c, s1, feed[0], feed[1]);
    RewindAfterPair(c, Step(c, s1, ArriveBatch(feed[..2])), feed[3..1002], feed[1002]);
    PrefixRuns(c, Arrive(feed[1]), ArriveBatch(feed[..2]), OneByOne(feed[3..1002]), Arrive(feed[1002]));
  }

  lemma RewindAfterPair(c: Config, s: State, ahead: seq<Arrival>, last: Arrival)
    requires AlwaysOk(c) && c.chainId != 31337
    requires Keyed(s) && s.expected == 2 && s.buffer.Keys == {1} && Delivers([], 0, s.ledger, 2)
    requires |ahead| == 999 && Feed(ahead, 3) && Clean(last) && HeightOf(last) == 1002
    ensures var t := Step(c, Run(c, s, OneByOne(ahead)), Arrive(last));
      && |t.ledger| > 3
      && t.ledger[1].Delivered? && t.ledger[1].number == 1
      && t.ledger[2] == Skipped(Overflow, 2, 1)
      && t.ledger[3].Delivered? && t.ledger[3].number == 1
  {
    assert |s.buffer| == |s.buffer.Keys| == 1;
    AheadIsBuffered(c, s, ahead, 3);
    FullBufferRewinds(c, Run(c, s, OneByOne(ahead)), last);
  }

  lemma PrefixRuns(c: Config, a: Op, b: Op, mid: seq<Op>, last: Op)
    ensures Run(c, Init(0), [a, b] + mid + [last]) == Step(c, Run(c, Step(c, Step(c, Init(0), a), b), mid), last)
  {
    RunLast(c, Init(0), [a, b] + mid, last);
    RunFirst(c, Init(0), a, [b] + mid);
    RunFirst(c, Step(c, Init(0), a), b, mid);
    assert [a, b] + mid == [a] + ([b] + mid);
  }

  lemma FullBufferRewinds(c: Config, s: State, a: Arrival)
    requires AlwaysOk(c) && Keyed(s)
    requires Clean(a) && HeightOf(a) > s.expected == 2 && HeightOf(a) !in s.buffer
    requires 1 in s.buffer && (forall k :: k in s.buffer ==> k >= 1) && |s.buffer| == BufferLimit(c)
    ensures var t := Step(c, s, Arrive(a));
      && s.ledger <= t.ledger && |t.ledger| > |s.ledger| + 1
      && t.ledger[|s.ledger|] == Skipped(Overflow, 2, 1)
      && t.ledger[|s.ledger| + 1].Delivered? && t.ledger[|s.ledger| + 1].number == 1
  {
    SkipsToOne(c, s, a);
    var wide := s.(buffer := s.buffer[HeightOf(a) := Hydrate(a)]);
    var moved := wide.(expected := 1, ledger := s.ledger + [Skipped(Overflow, 2, 1)]);
    assert 1 in moved.buffer && Keyed(moved);
    hide Step;
    DrainsFirst(c, s, moved);
  }

  lemma DrainsFirst(c: Config, s: State, t: State)
    requires AlwaysOk(c) && Keyed(t) && t.expected == 1 && 1 in t.buffer
    requires t.ledger == s.ledger + [Skipped(Overflow, 2, 1)]
    ensures var u := Drain(c, t);
      && s.ledger <= u.ledger && |u.ledger| > |s.ledger| + 1
      && u.ledger[|s.ledger|] == Skipped(Overflow, 2, 1)
      && u.ledger[|s.ledger| + 1].Delivered? && u.ledger[|s.ledger| + 1].number == 1
  {
    DrainAccepts(c, t);
    hide DrainLoop;
    var u := Drain(c, t);
    assert t.expected != u.expected;
    assert u.ledger[..|t.ledger|] == t.ledger;
    assert t.ledger[|s.ledger|] == u.ledger[|s.ledger|];
    assert s.ledger == t.ledger[..|s.ledger|] == u.ledger[..|s.ledger|];
  }

  lemma SkipsToOne(c: Config, s: State, a: Arrival)
    requires Clean(a) && HeightOf(a) > s.expected == 2 && HeightOf(a) !in s.buffer
    requires 1 in s.buffer && (forall k :: k in s.buffer ==> k >= 1) && |s.buffer| == BufferLimit(c)
    ensures Step(c, s, Arrive(a)) == Drain(c, s.(buffer := s.buffer[HeightOf(a) := Hydrate(a)], expected := 1,
                                                 ledger := s.ledger + [Skipped(Overflow, 2, 1)]))
  {
    hide Drain;
    CleanIsPlaced(c, s, a);
    var wide := s.buffer[HeightOf(a) := Hydrate(a)];
    assert wide.Keys == s.buffer.Keys + {HeightOf(a)};
    assert |wide| == |wide.Keys| && |s.buffer| == |s.buffer.Keys|;
    assert 1 in wide.Keys && MinKey(wide.Keys) == 1;
  }
}
