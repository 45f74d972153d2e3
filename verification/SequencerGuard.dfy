// When a run can rewind: the guard of the overflow skip over the states a run visits, and what keeps it.
module SequencerGuard {
  import opened Blocks
  import opened SequencerModel
  import opened SequencerDrain
  import opened SequencerOrder
  import opened SequencerLedger

  /** What a run does, with the state in which it does it: one result is handled alone, a run of results is
      committed as a batch, or the stall check is made. */
  datatype Move = One(s: State, a: Arrival) | Commit(s: State, blocks: seq<BlockData>) | Check(s: State, idle: int)

  ghost function MovesOfAll(c: Config, s: State, batch: seq<Arrival>): seq<Move>
    decreases |batch|
  {
    if batch == [] then [] else
    var (next, r) := HandleBlock(c, s, batch[0]);
    [One(s, batch[0])] + if r.Ok? then MovesOfAll(c, next, batch[1..]) else []
  }

  ghost function MovesOfRun(c: Config, s: State, batch: seq<Arrival>, i: nat, j: nat): seq<Move>
    requires i < j <= |batch|
  {
    if j == i + 1 then MovesOfAll(c, s, batch[i..] + batch[..i]) else
    var run := DataOf(batch[i..j]);
    if !c.processBatch(s.calls, run) then []
    else [Commit(s, run)] + MovesOfAll(c, Drain(c, CommitRun(s, run)), batch[j..] + batch[..i])
  }

  ghost function MovesOfBatch(c: Config, s0: State, batch: seq<Arrival>): seq<Move> {
    var s := PauseIfHigh(c, s0);
    var i := RunStart(s, batch, 0);
    if i == |batch| then MovesOfAll(c, s, batch)
    else MovesOfRun(c, s, batch, i, RunEnd(batch, i + 1, s.expected + 1))
  }

  ghost function MovesOf(c: Config, s: State, op: Op): seq<Move> {
    match op
    case Arrive(a) => [One(s, a)]
    case ArriveBatch(batch) => MovesOfBatch(c, s, batch)
    case Stall(idle) => [Check(s, idle)]
    case DrainNow => []
  }

  /** The moves of a run, each with the state it starts from. */
  ghost function Moves(c: Config, s: State, ops: seq<Op>): seq<Move>
    decreases |ops|
  {
    if ops == [] then [] else MovesOf(c, s, ops[0]) + Moves(c, Step(c, s, ops[0]), ops[1..])
  }

  /** Where a result is finally placed, and as what; None if it is dropped or a range signal. */
  function Placement(a: Arrival): Option<(int, BlockData)>
    decreases a.data.failed
  {
    if IsRangeSignal(a.data) then None
    else if a.data.failed then if CanRefetch(a) then Placement(Refetched(a)) else None
    else match PositionOf(Hydrate(a))
         case None => None
         case Some(n) => Some((n, Hydrate(a)))
  }

  /** Every buffered height is still to be delivered. */
  ghost predicate Ahead(s: State) {
    forall k :: k in s.buffer ==> s.expected <= k
  }

  /** The buffer limit is exceeded while a height below the expected block is buffered. */
  ghost predicate Rewinds(c: Config, m: Move) {
    && m.One?
    && Placement(m.a).Some?
    && Placement(m.a).value.0 > m.s.expected
    && |m.s.buffer.Keys + {Placement(m.a).value.0}| > BufferLimit(c)
    && !Ahead(m.s)
  }

  ghost predicate Guarded(c: Config, moves: seq<Move>) {
    forall m :: m in moves ==> !Rewinds(c, m)
  }

  // --- the guard decides the direction of every overflow ---

  lemma NoRewindSplits(a: seq<Entry>, b: seq<Entry>, d: seq<Entry>)
    requires a <= b <= d
    ensures NoRewind(a, d) <==> NoRewind(a, b) && NoRewind(b, d)
  {
    assert forall i :: 0 <= i < |b| ==> d[i] == b[i];
  }

  lemma DrainNeverRewinds(c: Config, s: State)
    requires Keyed(s)
    ensures s.ledger <= Drain(c, s).ledger && NoRewind(s.ledger, Drain(c, s).ledger)
  {
    DrainDelivers(c, s);
  }

  lemma SkipThenDrain(c: Config, s: State, t: State, e: Entry)
    requires Keyed(t) && e.Skipped? && t.ledger == s.ledger + [e]
    ensures s.ledger <= Drain(c, t).ledger
    ensures NoRewind(s.ledger, Drain(c, t).ledger) <==> (e.kind == Overflow ==> e.from <= e.to)
  {
    DrainNeverRewinds(c, t);
    assert t.ledger[..|s.ledger|] == s.ledger;
    assert t.ledger <= Drain(c, t).ledger;
    NoRewindSplits(s.ledger, t.ledger, Drain(c, t).ledger);
    assert NoRewind(s.ledger, t.ledger) <==> (e.kind == Overflow ==> e.from <= e.to) by {
      assert t.ledger[|s.ledger|] == e;
    }
  }

  lemma PlaceDirection(c: Config, s: State, n: int, d: BlockData)
    requires Keyed(s) && PositionOf(d) == Some(n)
    ensures var t := Place(c, s, n, d).0;
      && s.ledger <= t.ledger
      && (NoRewind(s.ledger, t.ledger) <==> (n > s.expected && |s.buffer.Keys + {n}| > BufferLimit(c) ==> Ahead(s)))
  {
    if n == s.expected {
      ProcessAccounts(c, s, d);
      var t := ProcessSequential(c, s, d).0;
      DrainNeverRewinds(c, t);
      NoRewindSplits(s.ledger, t.ledger, Drain(c, t).ledger);
    } else if n > s.expected {
      var wide := s.(buffer := s.buffer[n := d]);
      assert wide.buffer.Keys == s.buffer.Keys + {n} && |wide.buffer| == |wide.buffer.Keys|;
      if |wide.buffer| > BufferLimit(c) {
        var m := MinKey(wide.buffer.Keys);
        assert s.expected <= m <==> Ahead(s);
        SkipThenDrain(c, s, wide.(expected := m, ledger := s.ledger + [Skipped(Overflow, s.expected, m)]),
          Skipped(Overflow, s.expected, m));
      }
    }
  }

  lemma BlockDirection(c: Config, s: State, a: Arrival)
    requires Keyed(s)
    ensures var t := HandleBlock(c, s, a).0;
      s.ledger <= t.ledger && (NoRewind(s.ledger, t.ledger) <==> !Rewinds(c, One(s, a)))
    decreases a.data.failed
  {
    if IsRangeSignal(a.data) {
      var e := Skipped(Teleport, s.expected, a.data.rangeEnd.value + 1);
      SkipThenDrain(c, s, s.(expected := End(e), ledger := s.ledger + [e]), e);
    } else if a.data.failed {
      if CanRefetch(a) { BlockDirection(c, s, Refetched(a)); }
    } else if PositionOf(Hydrate(a)).Some? {
      PlaceDirection(c, s, PositionOf(Hydrate(a)).value, Hydrate(a));
    }
  }

  /** From s to t the ledger grew, and no overflow rewound exactly if the guard held at every move in between. */
  ghost predicate Decided(c: Config, s: State, t: State, moves: seq<Move>) {
    && Keyed(t)
    && s.ledger <= t.ledger
    && (NoRewind(s.ledger, t.ledger) <==> Guarded(c, moves))
  }

  lemma DecidedTrans(c: Config, s: State, t: State, u: State, a: seq<Move>, b: seq<Move>)
    requires Decided(c, s, t, a) && Decided(c, t, u, b)
    ensures Decided(c, s, u, a + b)
  {
    NoRewindSplits(s.ledger, t.ledger, u.ledger);
  }

  lemma BlockDecided(c: Config, s: State, a: Arrival)
    requires Keyed(s)
    ensures Decided(c, s, HandleBlock(c, s, a).0, [One(s, a)])
  {
    BlockDirection(c, s, a);
    HandleBlockAccounts(c, s, a);
  }

  lemma {:induction false} AllDecided(c: Config, s: State, batch: seq<Arrival>)
    requires Keyed(s)
    ensures Decided(c, s, HandleAll(c, s, batch).0, MovesOfAll(c, s, batch))
    decreases |batch|
  {
    if batch != [] {
      var (next, r) := HandleBlock(c, s, batch[0]);
      BlockDecided(c, s, batch[0]);
      if r.Ok? {
        AllDecided(c, next, batch[1..]);
        DecidedTrans(c, s, next, HandleAll(c, s, batch).0, [One(s, batch[0])], MovesOfAll(c, next, batch[1..]));
      }
    }
  }

  lemma CommitDecided(c: Config, s: State, blocks: seq<BlockData>)
    requires Keyed(s)
    requires forall k :: 0 <= k < |blocks| ==> KeyOf(blocks[k]) == Some(s.expected + k)
    ensures Decided(c, s, Drain(c, CommitRun(s, blocks)), [Commit(s, blocks)])
  {
    var t := CommitRun(s, blocks);
    CommitDelivers(s, blocks);
    DrainNeverRewinds(c, t);
    DrainDelivers(c, t);
    NoRewindSplits(s.ledger, t.ledger, Drain(c, t).ledger);
  }

  lemma RunDecided(c: Config, s: State, batch: seq<Arrival>, i: nat, j: nat)
    requires Keyed(s) && i < j <= |batch|
    requires forall k :: i <= k < j ==> KeyOf(batch[k].data) == Some(s.expected + (k - i))
    ensures Decided(c, s, HandleRun(c, s, batch, i, j).0, MovesOfRun(c, s, batch, i, j))
  {
    if j == i + 1 {
      AllDecided(c, s, batch[i..] + batch[..i]);
    } else {
      var run := DataOf(batch[i..j]);
      if c.processBatch(s.calls, run) {
        var u, rest := Drain(c, CommitRun(s, run)), batch[j..] + batch[..i];
        CommitDecided(c, s, run);
        AllDecided(c, u, rest);
        DecidedTrans(c, s, u, HandleAll(c, u, rest).0, [Commit(s, run)], MovesOfAll(c, u, rest));
      }
    }
  }

  lemma BatchDecided(c: Config, s: State, batch: seq<Arrival>)
    requires Keyed(s)
    ensures Decided(c, s, HandleBatch(c, s, batch).0, MovesOfBatch(c, s, batch))
  {
    hide HandleAll;
    hide HandleRun;
    hide MovesOfAll;
    hide MovesOfRun;
    var p := PauseIfHigh(c, s);
    var i := RunStart(p, batch, 0);
    if i == |batch| {
      AllDecided(c, p, batch);
    } else {
      RunDecided(c, p, batch, i, RunEnd(batch, i + 1, s.expected + 1));
    }
  }

  lemma StallDecided(c: Config, s: State, idle: int)
    requires Keyed(s)
    ensures Decided(c, s, HandleStall(c, s, idle), [Check(s, idle)])
  {
  }

  lemma StepDecided(c: Config, s: State, op: Op)
    requires Keyed(s)
    ensures Decided(c, s, Step(c, s, op), MovesOf(c, s, op))
  {
    match op
    case Arrive(a) => BlockDecided(c, s, a);
    case ArriveBatch(batch) => BatchDecided(c, s, batch);
    case Stall(idle) => StallDecided(c, s, idle);
    case DrainNow => DrainNeverRewinds(c, s); DrainDelivers(c, s);
  }

  lemma {:induction false} RunsDecided(c: Config, s: State, ops: seq<Op>)
    requires Keyed(s)
    ensures Decided(c, s, Run(c, s, ops), Moves(c, s, ops))
    decreases |ops|
  {
    if ops != [] {
      hide Step;
      hide MovesOf;
      var t := Step(c, s, ops[0]);
      StepDecided(c, s, ops[0]);
      RunsDecided(c, t, ops[1..]);
      DecidedTrans(c, s, t, Run(c, t, ops[1..]), MovesOf(c, s, ops[0]), Moves(c, t, ops[1..]));
    }
  }

  /** Over every run from a fresh sequencer, with any processor, deliveries and skips partition [start, expected)
      exactly if the buffer limit was never exceeded in a state that had a height below its expected block buffered. */
  lemma {:induction false} AccountingIffGuarded(c: Config, start: int, ops: seq<Op>)
    ensures var s := Run(c, Init(start), ops);
      Partitions(s.ledger, start, s.expected) <==> Guarded(c, Moves(c, Init(start), ops))
  {
    SkipAccounting(c, start, ops);
    RunsDecided(c, Init(start), ops);
  }

  /** And from any state the expected block does not decrease over a stretch in which the guard holds. */
  lemma {:induction false} GuardedNeverDecreases(c: Config, s: State, ops: seq<Op>)
    requires Keyed(s) && Guarded(c, Moves(c, s, ops))
    ensures s.expected <= Run(c, s, ops).expected
  {
    RunsDecided(c, s, ops);
    ExpectedNeverDecreases(c, s, ops);
  }

  // --- what keeps every buffered height ahead ---

  /** Some buffered height lies in [from, to). */
  ghost predicate Holds(s: State, from: int, to: int) {
    exists k :: k in s.buffer && from <= k < to
  }

  /** The move takes the expected block past a height that is buffered and stays so: a range signal or a committed
      run over it, a delivery of the expected height while another result for it is buffered, or a forced skip of such a
      height. */
  ghost predicate PassesOver(c: Config, m: Move) {
    match m
    case One(s, a) =>
      if IsRangeSignal(a.data) then Holds(s, s.expected, a.data.rangeEnd.value + 1)
      else
        && Placement(a).Some?
        && Placement(a).value.0 == s.expected
        && s.expected in s.buffer
        && Verdict(c, s.calls, Placement(a).value.1).Ok?
    case Commit(s, blocks) => Holds(s, s.expected, s.expected + |blocks|)
    case Check(s, idle) => idle > 55 && s.expected in s.buffer
  }

  /** Draining neither strands nor rescues a height. */
  lemma {:induction false} DrainKeepsAhead(c: Config, s: State)
    requires Keyed(s)
    ensures Ahead(Drain(c, s)) <==> Ahead(s)
  {
    DrainDelivers(c, s);
    var t := DrainLoop(c, s);
    if k :| k in s.buffer && k < s.expected {
      assert k in t.buffer;
    }
    if Ahead(s) {
      forall k | k in t.buffer ensures t.expected <= k { assert k in s.buffer; }
    }
  }

  lemma MovedAhead(c: Config, s: State, t: State)
    requires Ahead(s) && Keyed(s) && t.buffer == s.buffer && s.expected <= t.expected
    ensures Ahead(Drain(c, t)) <==> !Holds(s, s.expected, t.expected)
  {
    DrainKeepsAhead(c, t);
  }

  lemma PlaceAheadIff(c: Config, s: State, n: int, d: BlockData)
    requires Keyed(s) && Ahead(s) && PositionOf(d) == Some(n)
    ensures Ahead(Place(c, s, n, d).0) <==> !(n == s.expected && s.expected in s.buffer && Verdict(c, s.calls, d).Ok?)
  {
    if n == s.expected {
      var t := ProcessSequential(c, s, d).0;
      if Verdict(c, s.calls, d).Ok? {
        MovedAhead(c, s, t);
        assert Holds(s, n, n + 1) <==> n in s.buffer;
      }
    } else if n > s.expected {
      var wide := s.(buffer := s.buffer[n := d]);
      assert n in wide.buffer.Keys;
      var m := MinKey(wide.buffer.Keys);
      DrainKeepsAhead(c, wide.(expected := m, ledger := s.ledger + [Skipped(Overflow, s.expected, m)]));
    }
  }

  /** From a state with everything buffered ahead, handling one result leaves a height behind exactly if it passes
      over one. */
  lemma OneStrandsIff(c: Config, s: State, a: Arrival)
    requires Keyed(s) && Ahead(s)
    ensures Ahead(HandleBlock(c, s, a).0) <==> !PassesOver(c, One(s, a))
    decreases a.data.failed
  {
    if IsRangeSignal(a.data) {
      var e := a.data.rangeEnd.value + 1;
      if e > s.expected {
        MovedAhead(c, s, s.(expected := e, ledger := s.ledger + [Skipped(Teleport, s.expected, e)]));
      }
    } else if a.data.failed {
      if CanRefetch(a) { OneStrandsIff(c, s, Refetched(a)); }
    } else if PositionOf(Hydrate(a)).Some? {
      PlaceAheadIff(c, s, PositionOf(Hydrate(a)).value, Hydrate(a));
    }
  }

  lemma CommitStrandsIff(c: Config, s: State, blocks: seq<BlockData>)
    requires Keyed(s) && Ahead(s)
    ensures Ahead(Drain(c, CommitRun(s, blocks))) <==> !PassesOver(c, Commit(s, blocks))
  {
    MovedAhead(c, s, CommitRun(s, blocks));
  }

  lemma CheckStrandsIff(c: Config, s: State, idle: int)
    requires Keyed(s) && Ahead(s)
    ensures Ahead(HandleStall(c, s, idle)) <==> !PassesOver(c, Check(s, idle))
  {
    if idle > 55 && s.buffer.Keys != {} {
      var m := MinKey(s.buffer.Keys);
      assert s.expected in s.buffer ==> m == s.expected;
    }
  }

  ghost predicate PassesNone(c: Config, moves: seq<Move>) {
    forall m :: m in moves ==> !PassesOver(c, m)
  }

  /** Everything buffered is ahead at the end, and was at every move, so no overflow rewound. */
  ghost predicate StaysAhead(c: Config, t: State, moves: seq<Move>) {
    Keyed(t) && Ahead(t) && Guarded(c, moves)
  }

  lemma OneStaysAhead(c: Config, s: State, a: Arrival)
    requires Keyed(s) && Ahead(s) && !PassesOver(c, One(s, a))
    ensures StaysAhead(c, HandleBlock(c, s, a).0, [One(s, a)])
  {
    OneStrandsIff(c, s, a);
    HandleBlockAccounts(c, s, a);
  }

  lemma {:induction false} AllStayAhead(c: Config, s: State, batch: seq<Arrival>)
    requires Keyed(s) && Ahead(s) && PassesNone(c, MovesOfAll(c, s, batch))
    ensures StaysAhead(c, HandleAll(c, s, batch).0, MovesOfAll(c, s, batch))
    decreases |batch|
  {
    if batch != [] {
      var (next, r) := HandleBlock(c, s, batch[0]);
      OneStaysAhead(c, s, batch[0]);
      if r.Ok? { AllStayAhead(c, next, batch[1..]); }
    }
  }

  lemma RunStaysAhead(c: Config, s: State, batch: seq<Arrival>, i: nat, j: nat)
    requires Keyed(s) && Ahead(s) && i < j <= |batch| && PassesNone(c, MovesOfRun(c, s, batch, i, j))
    ensures StaysAhead(c, HandleRun(c, s, batch, i, j).0, MovesOfRun(c, s, batch, i, j))
  {
    if j == i + 1 {
      AllStayAhead(c, s, batch[i..] + batch[..i]);
    } else {
      var run := DataOf(batch[i..j]);
      if c.processBatch(s.calls, run) {
        CommitStrandsIff(c, s, run);
        DrainDelivers(c, CommitRun(s, run));
        AllStayAhead(c, Drain(c, CommitRun(s, run)), batch[j..] + batch[..i]);
      }
    }
  }

  lemma BatchStaysAhead(c: Config, s: State, batch: seq<Arrival>)
    requires Keyed(s) && Ahead(s) && PassesNone(c, MovesOfBatch(c, s, batch))
    ensures StaysAhead(c, HandleBatch(c, s, batch).0, MovesOfBatch(c, s, batch))
  {
    hide HandleAll;
    hide HandleRun;
    hide MovesOfAll;
    hide MovesOfRun;
    var p := PauseIfHigh(c, s);
    var i := RunStart(p, batch, 0);
    if i == |batch| {
      AllStayAhead(c, p, batch);
    } else {
      RunStaysAhead(c, p, batch, i, RunEnd(batch, i + 1, s.expected + 1));
    }
  }

  lemma StepStaysAhead(c: Config, s: State, op: Op)
    requires Keyed(s) && Ahead(s) && PassesNone(c, MovesOf(c, s, op))
    ensures StaysAhead(c, Step(c, s, op), MovesOf(c, s, op))
  {
    match op
    case Arrive(a) => OneStaysAhead(c, s, a);
    case ArriveBatch(batch) => BatchStaysAhead(c, s, batch);
    case Stall(idle) => CheckStrandsIff(c, s, idle);
    case DrainNow => DrainKeepsAhead(c, s); DrainDelivers(c, s);
  }

  /** A run none of whose moves passes over a buffered height keeps every buffered height ahead, so that no overflow
      rewinds. */
  lemma {:induction false} RunsStayAhead(c: Config, s: State, ops: seq<Op>)
    requires Keyed(s) && Ahead(s) && PassesNone(c, Moves(c, s, ops))
    ensures StaysAhead(c, Run(c, s, ops), Moves(c, s, ops))
    decreases |ops|
  {
    if ops != [] {
      hide Step;
      hide MovesOf;
      StepStaysAhead(c, s, ops[0]);
      RunsStayAhead(c, Step(c, s, ops[0]), ops[1..]);
    }
  }

  /** So nothing passed over means exact accounting. */
  lemma {:induction false} NonePassedAccounts(c: Config, start: int, ops: seq<Op>)
    requires PassesNone(c, Moves(c, Init(start), ops))
    ensures var s := Run(c, Init(start), ops);
      Ahead(s) && Partitions(s.ledger, start, s.expected)
  {
    RunsStayAhead(c, Init(start), ops);
    AccountingIffGuarded(c, start, ops);
  }
}
