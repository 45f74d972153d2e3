// Accounting over arbitrary runs: every processor, every arrival, every skip.
module SequencerLedger {
  import opened Blocks
  import opened SequencerModel
  import opened SequencerDrain
  import opened SequencerOrder

  function Begin(e: Entry): int {
    match e case Delivered(n, _, _) => n case Skipped(_, from, _) => from
  }

  function End(e: Entry): int {
    match e case Delivered(n, _, _) => n + 1 case Skipped(_, _, to) => to
  }

  /** Deliveries are filed under their height; every skip except an overflow skip moves forward. */
  ghost predicate Sane(e: Entry) {
    match e
    case Delivered(_, _, _) => Filed(e)
    case Skipped(kind, from, to) => kind == Overflow || from < to
  }

  /** The entries of `ledger` beyond `log` lead from one expected block to the other, each beginning where the one
      before ends. */
  ghost predicate Chained(log: seq<Entry>, from: int, ledger: seq<Entry>, to: int)
    decreases |ledger|
  {
    && log <= ledger
    && if |ledger| == |log| then from == to else
         var last := ledger[|ledger| - 1];
         End(last) == to && Sane(last) && Chained(log, from, ledger[..|ledger| - 1], Begin(last))
  }

  lemma {:induction false} ChainedTrans(a: seq<Entry>, x: int, b: seq<Entry>, y: int, d: seq<Entry>, z: int)
    requires Chained(a, x, b, y) && Chained(b, y, d, z)
    ensures Chained(a, x, d, z)
    decreases |d|
  {
    assert a == b[..|a|] == d[..|a|];
    if |d| == |b| {
      assert d == b;
    } else {
      var front := d[..|d| - 1];
      ChainedTrans(a, x, b, y, front, Begin(d[|d| - 1]));
    }
  }

  lemma ChainedOne(log: seq<Entry>, e: Entry)
    requires Sane(e)
    ensures Chained(log, Begin(e), log + [e], End(e))
  {
    assert (log + [e])[..|log|] == log;
  }

  lemma {:induction false} DeliversChains(log: seq<Entry>, from: int, ledger: seq<Entry>, to: int)
    requires Delivers(log, from, ledger, to)
    ensures Chained(log, from, ledger, to)
    decreases |ledger|
  {
    if |ledger| == |log| {
      assert ledger == log;
    } else {
      var front := ledger[..|ledger| - 1];
      assert log <= front;
      DeliversChains(log, from, front, to - 1);
    }
  }

  // --- the ledger agrees with what the processor accepted ---

  function DeliveredData(ledger: seq<Entry>): seq<(BlockData, bool)>
    decreases |ledger|
  {
    if ledger == [] then [] else
    var last := ledger[|ledger| - 1];
    DeliveredData(ledger[..|ledger| - 1]) + if last.Delivered? then [(last.data, last.batched)] else []
  }

  /** Results accepted as part of a batch. */
  function InBatch(blocks: seq<BlockData>): seq<(BlockData, bool)> {
    seq(|blocks|, i requires 0 <= i < |blocks| => (blocks[i], true))
  }

  function AcceptedBy(call: Call): seq<(BlockData, bool)> {
    match call
    case Single(d, r) => if r.Ok? then [(d, false)] else []
    case Batch(blocks, accepted) => if accepted then InBatch(blocks) else []
  }

  function Accepted(calls: seq<Call>): seq<(BlockData, bool)>
    decreases |calls|
  {
    if calls == [] then [] else Accepted(calls[..|calls| - 1]) + AcceptedBy(calls[|calls| - 1])
  }

  /** What was delivered is what the processor accepted, alone or in batches, in the order in which it accepted it. */
  ghost predicate Faithful(s: State) {
    DeliveredData(s.ledger) == Accepted(s.calls)
  }

  lemma AcceptedSnoc(calls: seq<Call>, call: Call)
    ensures Accepted(calls + [call]) == Accepted(calls) + AcceptedBy(call)
  {
    assert (calls + [call])[..|calls|] == calls;
  }

  lemma DeliveredSnoc(ledger: seq<Entry>, e: Entry)
    ensures DeliveredData(ledger + [e]) == DeliveredData(ledger) + if e.Delivered? then [(e.data, e.batched)] else []
  {
    assert (ledger + [e])[..|ledger|] == ledger;
  }

  lemma {:induction false} DeliveredRun(ledger: seq<Entry>, from: int, blocks: seq<BlockData>)
    ensures DeliveredData(ledger + Deliveries(from, blocks)) == DeliveredData(ledger) + InBatch(blocks)
    decreases |blocks|
  {
    if blocks == [] {
      assert ledger + Deliveries(from, blocks) == ledger;
    } else {
      var front, last := blocks[..|blocks| - 1], blocks[|blocks| - 1];
      DeliveredRun(ledger, from, front);
      assert ledger + Deliveries(from, blocks) ==
        ledger + Deliveries(from, front) + [Delivered(from + |front|, last, true)];
      DeliveredSnoc(ledger + Deliveries(from, front), Delivered(from + |front|, last, true));
      assert InBatch(blocks) == InBatch(front) + [(last, true)];
    }
  }

  // --- one step ---

  /** Going from s to t every move of the expected block is entered in the ledger, and every delivery in both
      records. */
  ghost predicate Accounts(s: State, t: State) {
    && Keyed(t)
    && Chained(s.ledger, s.expected, t.ledger, t.expected)
    && (Faithful(s) ==> Faithful(t))
  }

  lemma AccountsTrans(s: State, t: State, u: State)
    requires Accounts(s, t) && Accounts(t, u)
    ensures Accounts(s, u)
  {
    ChainedTrans(s.ledger, s.expected, t.ledger, t.expected, u.ledger, u.expected);
  }

  lemma SkipAccounts(s: State, t: State, e: Entry)
    requires Keyed(t) && e.Skipped? && Sane(e) && Begin(e) == s.expected && End(e) == t.expected
    requires t.ledger == s.ledger + [e] && t.calls == s.calls
    ensures Accounts(s, t)
  {
    ChainedOne(s.ledger, e);
    DeliveredSnoc(s.ledger, e);
  }

  lemma ProcessAccounts(c: Config, s: State, d: BlockData)
    requires Keyed(s) && PositionOf(d) == Some(s.expected)
    ensures var (t, r) := ProcessSequential(c, s, d);
      && Accounts(s, t)
      && (!r.Ok? ==> t.expected == s.expected && t.ledger == s.ledger)
  {
    var r := Verdict(c, s.calls, d);
    AcceptedSnoc(s.calls, Single(d, r));
    ChainedOne(s.ledger, Delivered(s.expected, d, false));
    DeliveredSnoc(s.ledger, Delivered(s.expected, d, false));
  }

  lemma {:induction false} DrainLoopAccounts(c: Config, s: State)
    requires Keyed(s)
    ensures Accounts(s, DrainLoop(c, s))
    decreases |s.buffer|
  {
    if s.expected in s.buffer {
      var taken := s.(buffer := s.buffer - {s.expected});
      var d := s.buffer[s.expected];
      DrainTakes(c, s);
      ProcessAccounts(c, taken, d);
      if TakeNext(c, s).1.Ok? {
        DrainLoopAccounts(c, TakeNext(c, s).0);
        AccountsTrans(s, TakeNext(c, s).0, DrainLoop(c, s));
      }
    }
  }

  lemma DrainAccounts(c: Config, s: State)
    requires Keyed(s)
    ensures Accounts(s, Drain(c, s))
  {
    DrainLoopAccounts(c, s);
  }

  lemma SkipThenDrainAccounts(c: Config, s: State, t: State, e: Entry)
    requires Keyed(t) && e.Skipped? && Sane(e) && Begin(e) == s.expected && End(e) == t.expected
    requires t.ledger == s.ledger + [e] && t.calls == s.calls
    ensures Accounts(s, Drain(c, t))
  {
    SkipAccounts(s, t, e);
    DrainAccounts(c, t);
    AccountsTrans(s, t, Drain(c, t));
  }

  lemma PlaceAccounts(c: Config, s: State, n: int, d: BlockData)
    requires Keyed(s) && PositionOf(d) == Some(n)
    ensures Accounts(s, Place(c, s, n, d).0)
  {
    if n == s.expected {
      ProcessAccounts(c, s, d);
      var t := ProcessSequential(c, s, d).0;
      DrainAccounts(c, t);
      AccountsTrans(s, t, Drain(c, t));
    } else if n > s.expected {
      var wide := s.(buffer := s.buffer[n := d]);
      if |wide.buffer| > BufferLimit(c) {
        var e := Skipped(Overflow, s.expected, MinKey(wide.buffer.Keys));
        SkipThenDrainAccounts(c, s, wide.(expected := End(e), ledger := s.ledger + [e]), e);
      }
    }
  }

  lemma HandleBlockAccounts(c: Config, s: State, a: Arrival)
    requires Keyed(s)
    ensures Accounts(s, HandleBlock(c, s, a).0)
    decreases a.data.failed
  {
    if IsRangeSignal(a.data) {
      var e := Skipped(Teleport, s.expected, a.data.rangeEnd.value + 1);
      if End(e) > s.expected {
        SkipThenDrainAccounts(c, s, s.(expected := End(e), ledger := s.ledger + [e]), e);
      }
    } else if a.data.failed {
      if CanRefetch(a) { HandleBlockAccounts(c, s, Refetched(a)); }
    } else if PositionOf(Hydrate(a)).Some? {
      PlaceAccounts(c, s, PositionOf(Hydrate(a)).value, Hydrate(a));
    }
  }

  lemma {:induction false} HandleAllAccounts(c: Config, s: State, batch: seq<Arrival>)
    requires Keyed(s)
    ensures Accounts(s, HandleAll(c, s, batch).0)
    decreases |batch|
  {
    if batch != [] {
      var (t, r) := HandleBlock(c, s, batch[0]);
      HandleBlockAccounts(c, s, batch[0]);
      if r.Ok? {
        HandleAllAccounts(c, t, batch[1..]);
        AccountsTrans(s, t, HandleAll(c, t, batch[1..]).0);
      }
    }
  }

  lemma CommitAccounts(s: State, blocks: seq<BlockData>)
    requires Keyed(s)
    requires forall k :: 0 <= k < |blocks| ==> KeyOf(blocks[k]) == Some(s.expected + k)
    ensures Accounts(s, CommitRun(s, blocks))
  {
    var t := CommitRun(s, blocks);
    CommitDelivers(s, blocks);
    DeliversChains(s.ledger, s.expected, t.ledger, t.expected);
    AcceptedSnoc(s.calls, Batch(blocks, true));
    DeliveredRun(s.ledger, s.expected, blocks);
  }

  lemma HandleRunAccounts(c: Config, s: State, batch: seq<Arrival>, i: nat, j: nat)
    requires Keyed(s) && i < j <= |batch|
    requires forall k :: i <= k < j ==> KeyOf(batch[k].data) == Some(s.expected + (k - i))
    ensures Accounts(s, HandleRun(c, s, batch, i, j).0)
  {
    if j == i + 1 {
      HandleAllAccounts(c, s, batch[i..] + batch[..i]);
    } else {
      var run := DataOf(batch[i..j]);
      if c.processBatch(s.calls, run) {
        var u := CommitRun(s, run);
        CommitAccounts(s, run);
        DrainAccounts(c, u);
        AccountsTrans(s, u, Drain(c, u));
        HandleAllAccounts(c, Drain(c, u), batch[j..] + batch[..i]);
        AccountsTrans(s, Drain(c, u), HandleAll(c, Drain(c, u), batch[j..] + batch[..i]).0);
      } else {
        AcceptedSnoc(s.calls, Batch(run, false));
      }
    }
  }

  lemma HandleBatchAccounts(c: Config, s: State, batch: seq<Arrival>)
    requires Keyed(s)
    ensures Accounts(s, HandleBatch(c, s, batch).0)
  {
    hide HandleAll;
    hide HandleRun;
    var p := PauseIfHigh(c, s);
    var i := RunStart(p, batch, 0);
    if i == |batch| {
      HandleAllAccounts(c, p, batch);
    } else {
      HandleRunAccounts(c, p, batch, i, RunEnd(batch, i + 1, s.expected + 1));
    }
  }

  lemma StallAccounts(c: Config, s: State, idle: int)
    requires Keyed(s)
    ensures Accounts(s, HandleStall(c, s, idle))
  {
    var t := HandleStall(c, s, idle);
    if t.ledger != s.ledger { SkipAccounts(s, t, t.ledger[|s.ledger|]); }
  }

  lemma {:induction false} RunAccounts(c: Config, s: State, ops: seq<Op>)
    requires Keyed(s)
    ensures Accounts(s, Run(c, s, ops))
    decreases |ops|
  {
    if ops != [] {
      var t := Step(c, s, ops[0]);
      match ops[0] {
        case Arrive(a) => HandleBlockAccounts(c, s, a);
        case ArriveBatch(batch) => HandleBatchAccounts(c, s, batch);
        case Stall(idle) => StallAccounts(c, s, idle);
        case DrainNow => DrainAccounts(c, s);
      }
      hide Step;
      RunAccounts(c, t, ops[1..]);
      AccountsTrans(s, t, Run(c, t, ops[1..]));
    }
  }

  // --- exactly-once cover ---

  function CoversIt(e: Entry, n: int): nat { if Begin(e) <= n < End(e) then 1 else 0 }

  function RewindsOver(e: Entry, n: int): nat { if End(e) <= n < Begin(e) then 1 else 0 }

  /** How many entries deliver or skip height n. */
  function CoverCount(ledger: seq<Entry>, n: int): nat
    decreases |ledger|
  {
    if ledger == [] then 0 else CoverCount(ledger[..|ledger| - 1], n) + CoversIt(ledger[|ledger| - 1], n)
  }

  function RewindCount(ledger: seq<Entry>, n: int): nat
    decreases |ledger|
  {
    if ledger == [] then 0 else RewindCount(ledger[..|ledger| - 1], n) + RewindsOver(ledger[|ledger| - 1], n)
  }

  ghost predicate ForwardOnly(ledger: seq<Entry>) {
    forall i :: 0 <= i < |ledger| ==> Begin(ledger[i]) <= End(ledger[i])
  }

  /** The deliveries and the skipped intervals split [start, end) without overlap. */
  ghost predicate Partitions(ledger: seq<Entry>, start: int, end: int) {
    && start <= end
    && forall n :: CoverCount(ledger, n) == if start <= n < end then 1 else 0
  }

  lemma {:induction false} CoverBalance(start: int, ledger: seq<Entry>, end: int, n: int)
    requires Chained([], start, ledger, end)
    ensures CoverCount(ledger, n) - RewindCount(ledger, n) ==
      (if start <= n < end then 1 else 0) - (if end <= n < start then 1 else 0)
    decreases |ledger|
  {
    if ledger != [] {
      CoverBalance(start, ledger[..|ledger| - 1], Begin(ledger[|ledger| - 1]), n);
    }
  }

  lemma {:induction false} RewindCounted(ledger: seq<Entry>, n: int)
    ensures RewindCount(ledger, n) > 0 <==> exists i :: 0 <= i < |ledger| && End(ledger[i]) <= n < Begin(ledger[i])
    decreases |ledger|
  {
    if ledger != [] {
      var front := ledger[..|ledger| - 1];
      RewindCounted(front, n);
      if i :| 0 <= i < |ledger| && End(ledger[i]) <= n < Begin(ledger[i]) {
        if i < |front| { assert ledger[i] == front[i]; }
      }
      if i :| 0 <= i < |front| && End(front[i]) <= n < Begin(front[i]) {
        assert ledger[i] == front[i];
      }
    }
  }

  lemma {:induction false} ForwardEnds(log: seq<Entry>, start: int, ledger: seq<Entry>, end: int)
    requires Chained(log, start, ledger, end)
    requires forall i :: |log| <= i < |ledger| ==> Begin(ledger[i]) <= End(ledger[i])
    ensures start <= end
    decreases |ledger|
  {
    if |ledger| > |log| {
      ForwardEnds(log, start, ledger[..|ledger| - 1], Begin(ledger[|ledger| - 1]));
    }
  }

  lemma PartitionsWhenForward(ledger: seq<Entry>, start: int, end: int)
    requires Chained([], start, ledger, end)
    ensures Partitions(ledger, start, end) <==> ForwardOnly(ledger)
  {
    if ForwardOnly(ledger) {
      ForwardEnds([], start, ledger, end);
      forall n ensures CoverCount(ledger, n) == if start <= n < end then 1 else 0 {
        CoverBalance(start, ledger, end, n);
        RewindCounted(ledger, n);
      }
    } else {
      var i :| 0 <= i < |ledger| && Begin(ledger[i]) > End(ledger[i]);
      var n := End(ledger[i]);
      RewindCounted(ledger, n);
      CoverBalance(start, ledger, end, n);
    }
  }

  /** No overflow skip entered since `before` goes backwards. */
  ghost predicate NoRewind(before: seq<Entry>, after: seq<Entry>) {
    forall i :: |before| <= i < |after| ==>
      (after[i].Skipped? && after[i].kind == Overflow ==> after[i].from <= after[i].to)
  }

  /** Skip accounting over every run from a fresh sequencer, with any processor, arrivals, refetches, stalls and skips:
      every move of the expected block is entered, deliveries match what the processor accepted, and the deliveries and
      skips partition [start, expected) exactly when no overflow rewound the expected block. */
  lemma SkipAccounting(c: Config, start: int, ops: seq<Op>)
    ensures var s := Run(c, Init(start), ops);
      && Chained([], start, s.ledger, s.expected)
      && Faithful(s)
      && (Partitions(s.ledger, start, s.expected) <==> NoRewind([], s.ledger))
  {
    var s := Run(c, Init(start), ops);
    RunAccounts(c, Init(start), ops);
    PartitionsWhenForward(s.ledger, start, s.expected);
    AllSane([], start, s.ledger, s.expected);
    assert ForwardOnly(s.ledger) <==> NoRewind([], s.ledger) by {
      assert forall i :: 0 <= i < |s.ledger| ==> Sane(s.ledger[i]);
    }
  }

  lemma {:induction false} AllSane(log: seq<Entry>, start: int, ledger: seq<Entry>, end: int)
    requires Chained(log, start, ledger, end)
    ensures forall i :: |log| <= i < |ledger| ==> Sane(ledger[i])
    decreases |ledger|
  {
    if |ledger| > |log| {
      var front := ledger[..|ledger| - 1];
      AllSane(log, start, front, Begin(ledger[|ledger| - 1]));
      forall i | |log| <= i < |ledger| ensures Sane(ledger[i]) {
        if i < |front| { assert ledger[i] == front[i]; }
      }
    }
  }

  /** The expected block never decreases over a stretch of a run in which no overflow rewinds. */
  lemma ExpectedNeverDecreases(c: Config, s: State, ops: seq<Op>)
    requires Keyed(s)
    requires NoRewind(s.ledger, Run(c, s, ops).ledger)
    ensures s.expected <= Run(c, s, ops).expected
  {
    var t := Run(c, s, ops);
    RunAccounts(c, s, ops);
    AllSane(s.ledger, s.expected, t.ledger, t.expected);
    forall i | |s.ledger| <= i < |t.ledger| ensures Begin(t.ledger[i]) <= End(t.ledger[i]) {
      assert Sane(t.ledger[i]);
    }
    ForwardEnds(s.ledger, s.expected, t.ledger, t.expected);
  }

  /** An overflow rewinds exactly when some key below the expected block is still buffered. */
  lemma OverflowDirection(c: Config, s: State)
    requires |s.buffer| > BufferLimit(c) && Keyed(s)
    ensures var t := EnforceLimit(c, s);
      && |s.ledger| < |t.ledger|
      && t.ledger[|s.ledger|].Skipped? && t.ledger[|s.ledger|].kind == Overflow
      && (t.ledger[|s.ledger|].from <= t.ledger[|s.ledger|].to <==> forall k :: k in s.buffer ==> k >= s.expected)
  {
    var e := Skipped(Overflow, s.expected, MinKey(s.buffer.Keys));
    var moved := s.(expected := End(e), ledger := s.ledger + [e]);
    DrainLoopAccounts(c, moved);
    assert moved.ledger[|s.ledger|] == DrainLoop(c, moved).ledger[|s.ledger|];
  }
}
