// Draining the buffer, whatever the processor answers.
module SequencerDrain {
  import opened Blocks
  import opened SequencerModel

  /** What was delivered belongs to the height under which it was delivered; in a batch the result's own number
      counts. */
  predicate Filed(e: Entry) {
    e.Delivered? ==> Some(e.number) == if e.batched then KeyOf(e.data) else PositionOf(e.data)
  }

  /** Every buffered result sits under the height of its block. */
  ghost predicate Keyed(s: State) {
    forall k :: k in s.buffer ==> PositionOf(s.buffer[k]) == Some(k)
  }

  /** Between the two ledgers exactly the heights from..to-1 were delivered, ascending, once each, and nothing was
      skipped. */
  ghost predicate Delivers(before: seq<Entry>, from: int, after: seq<Entry>, to: int) {
    && from <= to
    && |after| == |before| + (to - from)
    && before <= after
    && forall i :: |before| <= i < |after| ==>
         after[i].Delivered? && after[i].number == from + (i - |before|) && Filed(after[i])
  }

  function Without(m: map<int, BlockData>, lo: int, hi: int): map<int, BlockData> {
    map k | k in m && !(lo <= k < hi) :: m[k]
  }

  /** What a reorg met at height `at` leaves of a buffer drained from lo: the keys below lo, and the failing block
      itself. */
  function AfterReorg(m: map<int, BlockData>, lo: int, at: int): map<int, BlockData> {
    map k | k in m && (k < lo || k == at) :: m[k]
  }

  lemma DeliversOneMore(before: seq<Entry>, d: BlockData, from: int, after: seq<Entry>, to: int)
    requires PositionOf(d) == Some(from)
    requires Delivers(before + [Delivered(from, d, false)], from + 1, after, to)
    ensures Delivers(before, from, after, to)
  {
    var mid := before + [Delivered(from, d, false)];
    assert after[|before|] == mid[|before|];
    assert before == mid[..|before|] == after[..|before|];
  }

  lemma DeliversTrans(a: seq<Entry>, x: int, b: seq<Entry>, y: int, d: seq<Entry>, z: int)
    requires Delivers(a, x, b, y) && Delivers(b, y, d, z)
    ensures Delivers(a, x, d, z)
  {
    assert a == b[..|a|] == d[..|a|];
    forall i | |a| <= i < |b|
      ensures d[i] == b[i]
    {
    }
  }

  /** How a drain that delivered the heights e..f-1 ended. */
  ghost predicate DrainEnds(c: Config, s: State, t: State) {
    var e, f := s.expected, t.expected;
    if f !in s.buffer then
      t.buffer == Without(s.buffer, e, f)
    else
      && |t.calls| > 0
      && t.calls[|t.calls| - 1].Single?
      && t.calls[|t.calls| - 1].data == s.buffer[f]
      && match t.calls[|t.calls| - 1].outcome
         case Ok => false
         case Failed => t.buffer == Without(s.buffer, e, f)
         case Reorg => t.buffer == AfterReorg(s.buffer, e, f) && (c.hasFetcher ==> t.paused)
  }

  ghost predicate DrainEffect(c: Config, s: State, t: State) {
    && (forall k :: s.expected <= k < t.expected ==> k in s.buffer)
    && Delivers(s.ledger, s.expected, t.ledger, t.expected)
    && Keyed(t)
    && DrainEnds(c, s, t)
  }

  /** The expected block is taken out of the buffer and handed to the processor. */
  function TakeNext(c: Config, s: State): (State, Outcome)
    requires s.expected in s.buffer
  {
    ProcessSequential(c, s.(buffer := s.buffer - {s.expected}), s.buffer[s.expected])
  }

  lemma DrainTakes(c: Config, s: State)
    requires s.expected in s.buffer
    ensures TakeNext(c, s).1.Ok? ==> DrainLoop(c, s) == DrainLoop(c, TakeNext(c, s).0)
    ensures !TakeNext(c, s).1.Ok? ==>
      var t := TakeNext(c, s).0; DrainLoop(c, s) == t.(buffer := t.buffer[s.expected := s.buffer[s.expected]])
    ensures |(s.buffer - {s.expected})| < |s.buffer|
  {
    assert s.buffer.Keys == (s.buffer - {s.expected}).Keys + {s.expected};
  }

  lemma AcceptedEffect(c: Config, s: State, t: State)
    requires s.expected in s.buffer && Keyed(s) && TakeNext(c, s).1.Ok?
    requires DrainEffect(c, TakeNext(c, s).0, t)
    ensures DrainEffect(c, s, t)
  {
    var next := TakeNext(c, s).0;
    DeliversOneMore(s.ledger, s.buffer[s.expected], s.expected, t.ledger, t.expected);
    forall k | s.expected <= k < t.expected ensures k in s.buffer {
      assert k == s.expected || k in next.buffer;
    }
    assert Without(next.buffer, next.expected, t.expected) == Without(s.buffer, s.expected, t.expected);
    assert AfterReorg(next.buffer, next.expected, t.expected) == AfterReorg(s.buffer, s.expected, t.expected);
  }

  lemma RefusedEffect(c: Config, s: State)
    requires s.expected in s.buffer && Keyed(s) && !TakeNext(c, s).1.Ok?
    ensures DrainEffect(c, s, DrainLoop(c, s))
  {
    DrainTakes(c, s);
    var e, t := s.expected, DrainLoop(c, s);
    if TakeNext(c, s).1.Failed? {
      assert t.buffer == Without(s.buffer, e, e);
    } else {
      assert t.buffer == AfterReorg(s.buffer, e, e);
    }
  }

  /** The drain delivers a maximal contiguous prefix of the buffer.  It stops at the first height that is not
      buffered, or at one the processor refuses.  A failing block is back in the buffer with nothing else lost; a reorg
      also throws away everything above that block, but not the block itself. */
  lemma {:induction false} DrainDelivers(c: Config, s: State)
    requires Keyed(s)
    ensures DrainEffect(c, s, DrainLoop(c, s))
    decreases |s.buffer|
  {
    if s.expected !in s.buffer {
      assert Without(s.buffer, s.expected, s.expected) == s.buffer;
    } else if TakeNext(c, s).1.Ok? {
      DrainTakes(c, s);
      DrainDelivers(c, TakeNext(c, s).0);
      AcceptedEffect(c, s, DrainLoop(c, s));
    } else {
      RefusedEffect(c, s);
    }
  }

  lemma SmallerKeys(a: set<int>, b: set<int>)
    requires a <= b
    ensures |a| <= |b|
    ensures a != b ==> |a| < |b|
  {
    assert b == a + (b - a);
    if a != b {
      HasElement(b - a);
    }
  }

  /** A reorg reported while handling the expected block itself rolls the buffer back completely ... */
  lemma {:induction false} DirectReorgRollsBack(c: Config, s: State, a: Arrival)
    requires Keyed(s)
    ensures var (t, r) := HandleBlock(c, s, a);
      r.Reorg? ==>
        && t.expected == s.expected
        && t.ledger == s.ledger
        && t.reorgs == s.reorgs + [s.expected]
        && (c.hasFetcher ==> t.paused)
        && t.buffer == map k | k in s.buffer && k < s.expected :: s.buffer[k]
    decreases a.data.failed
  {
    if !IsRangeSignal(a.data) && a.data.failed && CanRefetch(a) {
      DirectReorgRollsBack(c, s, Refetched(a));
    }
  }

  /** ... whereas one met in the drain keeps the offending block buffered as the next to be delivered, and the pause
      it asks for is lifted at once unless 200 results remain. */
  lemma DrainReorgKeepsBlock(c: Config, s: State)
    requires Keyed(s)
    requires var t := DrainLoop(c, s);
      t.expected in s.buffer && t.calls != [] && t.calls[|t.calls| - 1] == Single(s.buffer[t.expected], Reorg)
    ensures var t := DrainLoop(c, s);
      && t.expected in t.buffer
      && t.buffer[t.expected] == s.buffer[t.expected]
      && (forall k :: k in t.buffer ==> k <= t.expected)
      && (c.hasFetcher ==> (Drain(c, s).paused <==> |t.buffer| >= 200))
  {
    DrainDelivers(c, s);
  }

  /** Since s a reorg was reported, and it was for height `at`. */
  ghost predicate Reported(s: State, t: State, at: int) {
    t.reorgs == s.reorgs + [at]
  }

  /** The drain reports at most one reorg, for the block it then puts back. */
  lemma {:induction false} DrainReports(c: Config, s: State)
    requires Keyed(s)
    ensures var t := DrainLoop(c, s);
      t.reorgs == s.reorgs || (Reported(s, t, t.expected) && t.expected in t.buffer)
    decreases |s.buffer|
  {
    if s.expected in s.buffer {
      DrainTakes(c, s);
      if TakeNext(c, s).1.Ok? { DrainReports(c, TakeNext(c, s).0); }
    }
  }

  lemma PlaceReports(c: Config, s: State, n: int, d: BlockData)
    requires Keyed(s) && PositionOf(d) == Some(n)
    ensures var (t, r) := Place(c, s, n, d);
      && (r.Reorg? ==> Reported(s, t, s.expected) && forall k :: k in t.buffer ==> k < s.expected)
      && (!r.Reorg? ==> t.reorgs == s.reorgs || (Reported(s, t, t.expected) && t.expected in t.buffer))
  {
    if n == s.expected {
      var t := ProcessSequential(c, s, d).0;
      if Verdict(c, s.calls, d).Ok? { DrainReports(c, t); }
    } else if n > s.expected {
      var wide := s.(buffer := s.buffer[n := d]);
      assert n in wide.buffer.Keys;
      var m := MinKey(wide.buffer.Keys);
      DrainReports(c, wide.(expected := m, ledger := s.ledger + [Skipped(Overflow, s.expected, m)]));
    }
  }

  /** Whether the reorg that handling a result reports has been rolled back is told by the outcome: nothing is
      buffered at or above its height exactly if the outcome is a reorg.  A reorg met in the drain is reported as
      success. */
  lemma {:induction false} RolledBackIffOutcome(c: Config, s: State, a: Arrival, at: int)
    requires Keyed(s) && Reported(s, HandleBlock(c, s, a).0, at)
    ensures var (t, r) := HandleBlock(c, s, a);
      && t.expected == at
      && (r.Reorg? || r.Ok?)
      && ((forall k :: k in t.buffer ==> k < at) <==> r.Reorg?)
    decreases a.data.failed
  {
    LastReported(s, HandleBlock(c, s, a).0, at);
    if IsRangeSignal(a.data) {
      var e := a.data.rangeEnd.value + 1;
      DrainReports(c, s.(expected := e, ledger := s.ledger + [Skipped(Teleport, s.expected, e)]));
      var t := HandleBlock(c, s, a).0;
      assert t.reorgs == s.reorgs || Reported(s, t, t.expected);
    } else if a.data.failed {
      if CanRefetch(a) { RolledBackIffOutcome(c, s, Refetched(a), at); }
    } else if PositionOf(Hydrate(a)).Some? {
      PlaceReports(c, s, PositionOf(Hydrate(a)).value, Hydrate(a));
    }
  }

  lemma LastReported(s: State, t: State, at: int)
    requires Reported(s, t, at)
    ensures t.reorgs != s.reorgs && forall h :: Reported(s, t, h) ==> h == at
  {
    assert t.reorgs[|s.reorgs|] == at;
  }
}
