// What the sequencer does to its fields, stated on the fields alone: what is delivered, what is asked for again, and in
// which order the parts of a batch are handled.
module SequencerEffects {
  import opened Blocks
  import opened SequencerModel
  import opened SequencerDrain
  import opened SequencerLedger
  import opened SequencerLimit

  // --- one result ---

  /** d is the result as it reaches the processor or the buffer: with its own block, or the node's if it has none or its
      fetch failed; with its own logs, or the node's if its fetch failed. */
  ghost predicate Completes(a: Arrival, d: BlockData) {
    && !d.failed && d.number == a.data.number && d.rangeEnd == a.data.rangeEnd
    && (a.data.failed ==> a.rpcLogs.Some?)
    && d.block == (if a.data.failed || (a.data.block.None? && a.data.number.Some?) then a.rpcBlock else a.data.block)
    && d.logs == (if a.data.failed then a.rpcLogs.value else a.data.logs)
  }

  /** The block decides the height; without one the number does. */
  predicate IsHeight(d: BlockData, n: int) {
    if d.block.Some? then d.block.value.number == n else d.number == Some(n)
  }

  predicate IsSignal(d: BlockData) {
    !d.failed && d.number.None? && d.block.None? && d.rangeEnd.Some?
  }

  /** A failed fetch can be made good: the height is known, and the node answers for block and logs. */
  predicate Recoverable(a: Arrival) {
    (a.data.number.Some? || a.data.block.Some?) && a.rpcBlock.Some? && a.rpcLogs.Some?
  }

  /** A range signal moves the expected block behind the range, unless it is there already. */
  lemma SignalMoves(c: Config, s: State, a: Arrival)
    requires IsSignal(a.data)
    ensures var e := a.data.rangeEnd.value;
      HandleBlock(c, s, a) ==
        if e < s.expected then (s, Ok)
        else (Drain(c, s.(expected := e + 1, ledger := s.ledger + [Skipped(Teleport, s.expected, e + 1)])), Ok)
  {
  }

  /** A failed result that cannot be made good, and one without any height, changes nothing. */
  lemma UnusableIsDropped(c: Config, s: State, a: Arrival)
    requires a.data.failed ==> !Recoverable(a)
    requires !a.data.failed ==> a.data.number.None? && a.data.block.None? && a.data.rangeEnd.None?
    ensures HandleBlock(c, s, a) == (s, Ok)
  {
  }

  /** What the fetcher sends for a job whose log query failed changes nothing, unless the node now answers for both
      the block and its logs; then it is handled as an error-free result with those. */
  lemma FailedQueryChangesNothing(c: Config, s: State, a: Arrival)
    requires a.data.failed && a.data.number.Some? && a.data.block.None?
    ensures a.rpcBlock.None? || a.rpcLogs.None? ==> HandleBlock(c, s, a) == (s, Ok)
    ensures a.rpcBlock.Some? && a.rpcLogs.Some? ==>
      HandleBlock(c, s, a) ==
        HandleBlock(c, s, a.(data := BlockData(a.data.number, a.data.rangeEnd, a.rpcBlock, false, a.rpcLogs.value)))
  {
    if a.rpcBlock.Some? && a.rpcLogs.Some? {
      assert Refetched(a).data == BlockData(a.data.number, a.data.rangeEnd, a.rpcBlock, false, a.rpcLogs.value);
    }
  }

  lemma BecomesPlaced(c: Config, s: State, a: Arrival, d: BlockData, n: int)
    requires !IsSignal(a.data) && (a.data.failed ==> Recoverable(a)) && Completes(a, d) && IsHeight(d, n)
    ensures HandleBlock(c, s, a) == Place(c, s, n, d) && PositionOf(d) == Some(n)
  {
    if a.data.failed {
      var again := a.(data := a.data.(block := a.rpcBlock, logs := a.rpcLogs.value, failed := false));
      assert HandleBlock(c, s, a) == HandleBlock(c, s, again);
      assert again.data == d;
    }
  }

  /** Any other result goes, completed, where its height puts it: below the expected block it is dropped; above, it
      is buffered, and if more than 1000 (on chain 31337: 50000) are buffered then, the expected block becomes the least
      one and the buffer is drained. */
  lemma PlacedAway(c: Config, s: State, a: Arrival, d: BlockData, n: int)
    requires !IsSignal(a.data) && (a.data.failed ==> Recoverable(a)) && Completes(a, d) && IsHeight(d, n)
    ensures n < s.expected ==> HandleBlock(c, s, a) == (s, Ok)
    ensures n > s.expected && |s.buffer.Keys + {n}| <= (if c.chainId == 31337 then 50000 else 1000) ==>
      HandleBlock(c, s, a) == (s.(buffer := s.buffer[n := d]), Ok)
    ensures n > s.expected && |s.buffer.Keys + {n}| > (if c.chainId == 31337 then 50000 else 1000) ==>
      exists m :: (m in s.buffer || m == n) && m <= n && (forall k :: k in s.buffer ==> m <= k) &&
        HandleBlock(c, s, a) == (Drain(c, s.(buffer := s.buffer[n := d], expected := m,
                                             ledger := s.ledger + [Skipped(Overflow, s.expected, m)])), Ok)
  {
    BecomesPlaced(c, s, a, d, n);
    var wide := s.buffer[n := d];
    assert wide.Keys == s.buffer.Keys + {n} && |wide| == |wide.Keys|;
    if n > s.expected && |wide| > BufferLimit(c) {
      assert IsMin(MinKey(wide.Keys), wide.Keys);
    }
  }

  /** And at the expected block it is handed to the processor, which delivers it as it is, fails, or reports a reorg. */
  lemma PlacedNext(c: Config, s: State, a: Arrival, d: BlockData)
    requires !IsSignal(a.data) && (a.data.failed ==> Recoverable(a)) && Completes(a, d) && IsHeight(d, s.expected)
    requires d.block.Some?
    ensures var (t, r) := HandleBlock(c, s, a);
      && r == c.process(s.calls, d)
      && var asked := s.(calls := s.calls + [Single(d, r)]);
      && (r.Ok? ==> t == Drain(c, asked.(expected := s.expected + 1, gapFills := 0,
                                         ledger := s.ledger + [Delivered(s.expected, d, false)])))
      && (r.Failed? ==> t == asked)
  {
    BecomesPlaced(c, s, a, d, s.expected);
  }

  /** A pause is lifted by a drain exactly if fewer than 200 results remain. */
  lemma DrainResumes(c: Config, s: State)
    ensures var t := DrainLoop(c, s);
      Drain(c, s) == t.(paused := t.paused && !(c.hasFetcher && |t.buffer| < 200))
  {
  }

  // --- a batch ---

  lemma {:induction false} HandleAllSplits(c: Config, s: State, a: seq<Arrival>, b: seq<Arrival>)
    ensures var (t, r) := HandleAll(c, s, a);
      HandleAll(c, s, a + b) == if r.Ok? then HandleAll(c, t, b) else (t, r)
    decreases |a|
  {
    if a == [] {
      assert a + b == b;
    } else {
      assert (a + b)[1..] == a[1..] + b;
      HandleAllSplits(c, HandleBlock(c, s, a[0]).0, a[1..], b);
    }
  }

  /** The first result that is not handled successfully ends the batch; nothing behind it is looked at. */
  lemma {:induction false} FirstErrorStops(c: Config, s: State, batch: seq<Arrival>, k: nat)
    requires k < |batch| && HandleAll(c, s, batch[..k]).1.Ok?
    requires !HandleBlock(c, HandleAll(c, s, batch[..k]).0, batch[k]).1.Ok?
    ensures HandleAll(c, s, batch) == HandleBlock(c, HandleAll(c, s, batch[..k]).0, batch[k])
  {
    assert batch == batch[..k] + batch[k..];
    HandleAllSplits(c, s, batch[..k], batch[k..]);
  }

  /** The result is error-free and for height n, going by its number, else by its block. */
  predicate IsFor(a: Arrival, n: int) {
    !a.data.failed &&
    (a.data.number == Some(n) || (a.data.number.None? && a.data.block.Some? && a.data.block.value.number == n))
  }

  /** The first result for the expected block is at i, and the consecutive ones from there end before j. */
  ghost predicate RunInBatch(batch: seq<Arrival>, expected: int, i: nat, j: nat) {
    && i < j <= |batch|
    && (forall k :: 0 <= k < i ==> !IsFor(batch[k], expected))
    && (forall k :: i <= k < j ==> IsFor(batch[k], expected + (k - i)))
    && (j < |batch| ==> !IsFor(batch[j], expected + (j - i)))
  }

  /** More than 2000 buffered results pause the fetcher before the batch is looked at. */
  function Throttled(c: Config, s: State): State {
    s.(paused := s.paused || (c.hasFetcher && |s.buffer| > 2000))
  }

  lemma {:induction false} RunEndsAt(batch: seq<Arrival>, i: nat, j: nat, next: int)
    requires i <= j <= |batch| && (forall k :: i <= k < j ==> IsFor(batch[k], next + (k - i)))
    requires j < |batch| ==> !IsFor(batch[j], next + (j - i))
    ensures RunEnd(batch, i, next) == j
    decreases j - i
  {
    if i < j {
      assert IsFor(batch[i], next);
      RunEndsAt(batch, i + 1, j, next + 1);
    }
  }

  lemma RunStartsAt(s: State, batch: seq<Arrival>, i: nat)
    requires i <= |batch| && (forall k :: 0 <= k < i ==> !IsFor(batch[k], s.expected))
    requires i < |batch| ==> IsFor(batch[i], s.expected)
    ensures RunStart(s, batch, 0) == i
  {
    var r := RunStart(s, batch, 0);
    assert r < |batch| ==> IsFor(batch[r], s.expected);
    assert i < r ==> !StartsRun(s, batch[i]);
  }

  /** The order in which a batch is handled: a run of two or more is committed as one, then the buffer is drained,
      then what follows the run is handled, and last what precedes it; a single result for the expected block only comes
      first. */
  lemma {:induction false} BatchInOrder(c: Config, s: State, batch: seq<Arrival>, i: nat, j: nat)
    requires RunInBatch(batch, s.expected, i, j)
    ensures var (p, run) := (Throttled(c, s), DataOf(batch[i..j]));
      HandleBatch(c, s, batch) ==
        if j == i + 1 then HandleAll(c, p, batch[i..] + batch[..i])
        else if !c.processBatch(s.calls, run) then (p.(calls := s.calls + [Batch(run, false)]), Failed)
        else HandleAll(c, Drain(c, p.(expected := s.expected + (j - i), gapFills := 0,
                                      calls := s.calls + [Batch(run, true)],
                                      ledger := s.ledger + Deliveries(s.expected, run))), batch[j..] + batch[..i])
  {
    hide HandleAll;
    hide Drain;
    var p := Throttled(c, s);
    assert p == PauseIfHigh(c, s);
    assert IsFor(batch[i], s.expected + (i - i));
    RunStartsAt(p, batch, i);
    forall k | i + 1 <= k < j ensures IsFor(batch[k], s.expected + 1 + (k - (i + 1))) {
      assert IsFor(batch[k], s.expected + (k - i));
    }
    RunEndsAt(batch, i + 1, j, s.expected + 1);
  }

  /** Without a result for the expected block the batch is handled as it comes. */
  lemma {:induction false} BatchWithoutRun(c: Config, s: State, batch: seq<Arrival>)
    requires forall k :: 0 <= k < |batch| ==> !IsFor(batch[k], s.expected)
    ensures HandleBatch(c, s, batch) == HandleAll(c, Throttled(c, s), batch)
  {
    hide HandleAll;
    assert Throttled(c, s) == PauseIfHigh(c, s);
    RunStartsAt(Throttled(c, s), batch, |batch|);
  }

  // --- what every handler keeps ---

  /** Nothing is asked for again, and either something was delivered and the count of gap fills is 0, or nothing was and
      the count is what it was. */
  ghost predicate Counts(s: State, t: State) {
    && t.refetches == s.refetches && s.ledger <= t.ledger
    && if forall i :: |s.ledger| <= i < |t.ledger| ==> t.ledger[i].Skipped? then t.gapFills == s.gapFills
       else t.gapFills == 0
  }

  lemma CountsTrans(s: State, t: State, u: State)
    requires Counts(s, t) && Counts(t, u)
    ensures Counts(s, u)
  {
    assert forall i :: 0 <= i < |t.ledger| ==> u.ledger[i] == t.ledger[i];
  }

  /** Everything buffered has its block, and everything delivered singly; with `batched`, everything delivered. */
  ghost predicate Carries(s: State, batched: bool) {
    && (forall k :: k in s.buffer ==> s.buffer[k].block.Some?)
    && forall i :: 0 <= i < |s.ledger| && s.ledger[i].Delivered? && (batched || !s.ledger[i].batched) ==>
         s.ledger[i].data.block.Some?
  }

  /** The result has a block or the node answers; with `batched`, it has one. */
  predicate Answered(a: Arrival, batched: bool) {
    a.data.block.Some? || (!batched && a.rpcBlock.Some?)
  }

  ghost predicate AllAnswered(batch: seq<Arrival>, batched: bool) {
    forall i :: 0 <= i < |batch| ==> Answered(batch[i], batched)
  }

  lemma OneDeliveredCounts(s: State, t: State, e: Entry)
    requires e.Delivered? && t.ledger == s.ledger + [e] && t.gapFills == 0 && t.refetches == s.refetches
    ensures Counts(s, t)
  {
    assert t.ledger[|s.ledger|] == e;
  }

  lemma {:induction false} DrainKeeps(c: Config, s: State, batched: bool)
    ensures Counts(s, DrainLoop(c, s))
    ensures Carries(s, batched) ==> Carries(DrainLoop(c, s), batched)
    decreases |s.buffer|
  {
    if s.expected in s.buffer {
      var next, d := TakeNext(c, s).0, s.buffer[s.expected];
      DrainTakes(c, s);
      if TakeNext(c, s).1.Ok? {
        OneDeliveredCounts(s, next, Delivered(s.expected, d, false));
        DrainKeeps(c, next, batched);
        CountsTrans(s, next, DrainLoop(c, s));
      }
    }
  }

  lemma SkipKeeps(c: Config, s: State, t: State, e: Entry, batched: bool)
    requires e.Skipped? && t.ledger == s.ledger + [e] && t.gapFills == s.gapFills && t.refetches == s.refetches
    ensures Counts(s, Drain(c, t))
    ensures Carries(t, batched) ==> Carries(Drain(c, t), batched)
  {
    DrainKeeps(c, t, batched);
    CountsTrans(s, t, DrainLoop(c, t));
  }

  lemma PlaceNextKeeps(c: Config, s: State, d: BlockData, batched: bool)
    ensures Counts(s, Place(c, s, s.expected, d).0)
    ensures Carries(s, batched) && d.block.Some? ==> Carries(Place(c, s, s.expected, d).0, batched)
  {
    var t := ProcessSequential(c, s, d).0;
    if Verdict(c, s.calls, d).Ok? {
      OneDeliveredCounts(s, t, Delivered(s.expected, d, false));
      assert Carries(s, batched) && d.block.Some? ==> Carries(t, batched);
      DrainKeeps(c, t, batched);
      hide DrainLoop;
      CountsTrans(s, t, Drain(c, t));
    }
  }

  lemma PlaceKeeps(c: Config, s: State, n: int, d: BlockData, batched: bool)
    ensures Counts(s, Place(c, s, n, d).0)
    ensures Carries(s, batched) && d.block.Some? ==> Carries(Place(c, s, n, d).0, batched)
  {
    hide Drain;
    hide ProcessSequential;
    if n == s.expected {
      PlaceNextKeeps(c, s, d, batched);
    } else if n > s.expected {
      var wide := s.(buffer := s.buffer[n := d]);
      assert n in wide.buffer.Keys;
      if |wide.buffer| > BufferLimit(c) {
        var e := Skipped(Overflow, s.expected, MinKey(wide.buffer.Keys));
        SkipKeeps(c, s, wide.(expected := e.to, ledger := s.ledger + [e]), e, batched);
      }
    }
  }

  lemma HandleBlockKeeps(c: Config, s: State, a: Arrival, batched: bool)
    ensures Counts(s, HandleBlock(c, s, a).0)
    ensures Carries(s, batched) && (Answered(a, batched) || IsSignal(a.data)) ==>
      Carries(HandleBlock(c, s, a).0, batched)
    decreases a.data.failed
  {
    if IsRangeSignal(a.data) {
      var e := Skipped(Teleport, s.expected, a.data.rangeEnd.value + 1);
      SkipKeeps(c, s, s.(expected := e.to, ledger := s.ledger + [e]), e, batched);
    } else if a.data.failed {
      if CanRefetch(a) { HandleBlockKeeps(c, s, Refetched(a), batched); }
    } else if PositionOf(Hydrate(a)).Some? {
      PlaceKeeps(c, s, PositionOf(Hydrate(a)).value, Hydrate(a), batched);
    }
  }

  lemma {:induction false} HandleAllKeeps(c: Config, s: State, batch: seq<Arrival>, batched: bool)
    ensures Counts(s, HandleAll(c, s, batch).0)
    ensures Carries(s, batched) && AllAnswered(batch, batched) ==> Carries(HandleAll(c, s, batch).0, batched)
    decreases |batch|
  {
    if batch != [] {
      var (t, r) := HandleBlock(c, s, batch[0]);
      HandleBlockKeeps(c, s, batch[0], batched);
      if r.Ok? {
        HandleAllKeeps(c, t, batch[1..], batched);
        CountsTrans(s, t, HandleAll(c, s, batch).0);
      }
    }
  }

  lemma CommitKeeps(c: Config, s: State, blocks: seq<BlockData>, batched: bool)
    requires blocks != []
    ensures Counts(s, Drain(c, CommitRun(s, blocks)))
    ensures Carries(s, batched) && (batched ==> forall k :: 0 <= k < |blocks| ==> blocks[k].block.Some?) ==>
      Carries(Drain(c, CommitRun(s, blocks)), batched)
  {
    var t := CommitRun(s, blocks);
    assert t.ledger[|s.ledger|].Delivered?;
    DrainKeeps(c, t, batched);
    CountsTrans(s, t, Drain(c, t));
  }

  lemma HandleRunKeeps(c: Config, s: State, batch: seq<Arrival>, i: nat, j: nat, batched: bool)
    requires i < j <= |batch|
    ensures Counts(s, HandleRun(c, s, batch, i, j).0)
    ensures Carries(s, batched) && AllAnswered(batch, batched) ==> Carries(HandleRun(c, s, batch, i, j).0, batched)
  {
    hide HandleAll;
    if j == i + 1 {
      HandleAllKeeps(c, s, batch[i..] + batch[..i], batched);
    } else {
      var run := DataOf(batch[i..j]);
      if c.processBatch(s.calls, run) {
        CommitKeeps(c, s, run, batched);
        var u, rest := Drain(c, CommitRun(s, run)), batch[j..] + batch[..i];
        hide Drain;
        hide CommitRun;
        HandleAllKeeps(c, u, rest, batched);
        CountsTrans(s, u, HandleAll(c, u, rest).0);
      }
    }
  }

  lemma HandleBatchKeeps(c: Config, s: State, batch: seq<Arrival>, batched: bool)
    ensures Counts(s, HandleBatch(c, s, batch).0)
    ensures Carries(s, batched) && AllAnswered(batch, batched) ==> Carries(HandleBatch(c, s, batch).0, batched)
  {
    hide HandleAll;
    hide HandleRun;
    var p := PauseIfHigh(c, s);
    var i := RunStart(p, batch, 0);
    if i == |batch| {
      HandleAllKeeps(c, p, batch, batched);
    } else {
      HandleRunKeeps(c, p, batch, i, RunEnd(batch, i + 1, s.expected + 1), batched);
    }
  }

  // --- every single delivery carries its block ---

  /** Every result that is not a range signal has a block or is one for which the node answers. */
  ghost predicate NodeAnswers(ops: seq<Op>) {
    forall i :: 0 <= i < |ops| ==>
      match ops[i]
      case Arrive(a) => IsSignal(a.data) || Answered(a, false)
      case ArriveBatch(batch) => AllAnswered(batch, false)
      case _ => true
  }

  lemma {:induction false} RunCarries(c: Config, s: State, ops: seq<Op>)
    requires Carries(s, false) && NodeAnswers(ops)
    ensures Carries(Run(c, s, ops), false)
    decreases |ops|
  {
    if ops != [] {
      match ops[0] {
        case Arrive(a) => HandleBlockKeeps(c, s, a, false);
        case ArriveBatch(batch) => HandleBatchKeeps(c, s, batch, false);
        case Stall(_) =>
        case DrainNow => DrainKeeps(c, s, false);
      }
      hide Step;
      RunCarries(c, Step(c, s, ops[0]), ops[1..]);
    }
  }

  /** In every run in which the node answers, with any processor, whatever is delivered outside a batch carries its
      block. */
  lemma {:induction false} SinglesCarryBlocks(c: Config, start: int, ops: seq<Op>, i: nat)
    requires NodeAnswers(ops) && i < |Run(c, Init(start), ops).ledger|
    ensures var e := Run(c, Init(start), ops).ledger[i];
      e.Delivered? && !e.batched ==> e.data.block.Some?
  {
    RunCarries(c, Init(start), ops);
  }

  // --- stalls ---

  /** m is the least buffered height, and it lies above the expected block. */
  ghost predicate GapBefore(s: State, m: int) {
    s.expected < m && m in s.buffer && forall k :: k in s.buffer ==> m <= k
  }

  /** A stall check within 55 seconds does nothing.  Later it asks for the blocks in front of the least buffered
      one, at most three times; then, or without a fetcher, it jumps there; and if there is no gap, it passes over one
      height. */
  lemma StallDoes(c: Config, s: State, idle: int, m: int)
    ensures idle <= 55 ==> HandleStall(c, s, idle) == s
    ensures idle > 55 && GapBefore(s, m) ==>
      HandleStall(c, s, idle) ==
        if c.hasFetcher && s.gapFills < 3
        then s.(refetches := s.refetches + [(s.expected, m - 1)], gapFills := s.gapFills + 1)
        else s.(expected := m, gapFills := 0, ledger := s.ledger + [Skipped(GapBypass, s.expected, m)])
    ensures idle > 55 && (s.buffer == map[] || exists k :: k in s.buffer && k <= s.expected) ==>
      HandleStall(c, s, idle) ==
        s.(expected := s.expected + 1, gapFills := 0,
           ledger := s.ledger + [Skipped(ForcedSkip, s.expected, s.expected + 1)])
  {
    if s.buffer.Keys != {} {
      assert IsMin(MinKey(s.buffer.Keys), s.buffer.Keys);
    } else {
      assert s.buffer == map[];
    }
  }

  /** Stall check `op` in state s asks for the heights gap.0..gap.1 again: exactly the missing ones from the expected
      block up to the first buffered one. */
  ghost predicate AsksFor(s: State, op: Op, gap: (int, int)) {
    && op.Stall? && op.idle > 55
    && gap.0 == s.expected <= gap.1
    && gap.1 + 1 in s.buffer
    && forall k :: k in s.buffer ==> gap.1 < k
  }

  lemma StepRefetches(c: Config, s: State, op: Op)
    ensures s.refetches <= Step(c, s, op).refetches && |Step(c, s, op).refetches| <= |s.refetches| + 1
    ensures Step(c, s, op).refetches != s.refetches ==> AsksFor(s, op, Step(c, s, op).refetches[|s.refetches|])
  {
    match op
    case Arrive(a) => HandleBlockKeeps(c, s, a, false);
    case ArriveBatch(batch) => HandleBatchKeeps(c, s, batch, false);
    case Stall(idle) => if s.buffer.Keys != {} { assert IsMin(MinKey(s.buffer.Keys), s.buffer.Keys); }
    case DrainNow => DrainKeeps(c, s, false);
  }

  /** The state after the first k steps of a run. */
  ghost function After(c: Config, start: int, ops: seq<Op>, k: nat): State
    requires k <= |ops|
  {
    Run(c, Init(start), ops[..k])
  }

  lemma AfterNext(c: Config, start: int, ops: seq<Op>, k: nat)
    requires k < |ops|
    ensures After(c, start, ops, k + 1) == Step(c, After(c, start, ops, k), ops[k])
  {
    assert ops[..k + 1] == ops[..k] + [ops[k]];
    RunLast(c, Init(start), ops[..k], ops[k]);
  }

  /** Over every run: each refetch on record was asked for by one stall check, for exactly the gap of that moment. */
  lemma {:induction false} RefetchesAreGaps(c: Config, start: int, ops: seq<Op>, n: nat, r: nat)
    requires n <= |ops| && r < |After(c, start, ops, n).refetches|
    ensures exists k ::
      0 <= k < n && |After(c, start, ops, k).refetches| == r &&
      AsksFor(After(c, start, ops, k), ops[k], After(c, start, ops, n).refetches[r])
    decreases n
  {
    if n > 0 {
      var s, t := After(c, start, ops, n - 1), After(c, start, ops, n);
      AfterNext(c, start, ops, n - 1);
      StepRefetches(c, s, ops[n - 1]);
      if r < |s.refetches| {
        RefetchesAreGaps(c, start, ops, n - 1, r);
      } else {
        assert AsksFor(s, ops[n - 1], t.refetches[r]);
      }
    }
  }

  /** From s to t gaps were asked for n times and nothing was delivered. */
  ghost predicate OnlyAsked(s: State, t: State, n: nat) {
    && s.ledger <= t.ledger
    && (forall i :: |s.ledger| <= i < |t.ledger| ==> t.ledger[i].Skipped?)
    && |t.refetches| == |s.refetches| + n
  }

  lemma StepOnlyAsks(c: Config, v: State, s: State, op: Op)
    requires OnlyAsked(v, s, s.gapFills)
    ensures var t := Step(c, s, op);
      OnlyAsked(v, t, t.gapFills) || t.gapFills == 0
  {
    var t := Step(c, s, op);
    match op {
      case Arrive(a) => HandleBlockKeeps(c, s, a, false);
      case ArriveBatch(batch) => HandleBatchKeeps(c, s, batch, false);
      case Stall(idle) =>
      case DrainNow => DrainKeeps(c, s, false);
    }
    assert forall i :: 0 <= i < |s.ledger| && s.ledger <= t.ledger ==> t.ledger[i] == s.ledger[i];
  }

  /** The gap fills counted are refetches since some moment after which nothing was delivered. */
  lemma {:induction false} GapFillsCounted(c: Config, start: int, ops: seq<Op>, n: nat)
    requires n <= |ops|
    ensures exists i ::
      0 <= i <= n &&
      OnlyAsked(After(c, start, ops, i), After(c, start, ops, n), After(c, start, ops, n).gapFills)
    decreases n
  {
    if n == 0 {
      assert OnlyAsked(After(c, start, ops, 0), After(c, start, ops, 0), 0);
    } else {
      GapFillsCounted(c, start, ops, n - 1);
      var s, t := After(c, start, ops, n - 1), After(c, start, ops, n);
      var i :| 0 <= i <= n - 1 && OnlyAsked(After(c, start, ops, i), s, s.gapFills);
      AfterNext(c, start, ops, n - 1);
      StepOnlyAsks(c, After(c, start, ops, i), s, ops[n - 1]);
      if t.gapFills == 0 { assert OnlyAsked(After(c, start, ops, n), t, 0); }
    }
  }

  /** Over every run: with a fetcher, a gap is only jumped over after three refetches with no delivery in between. */
  lemma {:induction false} BypassAfterThree(c: Config, start: int, ops: seq<Op>, n: nat)
    requires n < |ops| && c.hasFetcher && ops[n].Stall?
    requires var (s, t) := (After(c, start, ops, n), After(c, start, ops, n + 1));
      |t.ledger| > |s.ledger| && t.ledger[|s.ledger|].Skipped? && t.ledger[|s.ledger|].kind == GapBypass
    ensures exists i, k :: 0 <= i <= n && k >= 3 && OnlyAsked(After(c, start, ops, i), After(c, start, ops, n), k)
  {
    AfterNext(c, start, ops, n);
    GapFillsCounted(c, start, ops, n);
    assert After(c, start, ops, n).gapFills >= 3;
  }
}
