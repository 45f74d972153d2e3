// The tail follower fed by the orchestrator: the target height moves at once, the latest height only when it is merged.
module ChainFollowing {
  import opened Blocks
  import opened Fetching
  import opened TailFollowing
  import O = Orchestrating

  /** One turn: the commands and merges the orchestrator handles before the tick, the tip the node reports, what the
      orchestrator handles between the tick's look at its snapshot and Schedule's, and everything else Schedule meets.
      */
  datatype Turn = Turn(before: seq<O.Msg>, tip: Option<nat>, between: seq<O.Msg>, gates: Surroundings)

  function AfterTurn(b: O.Board, t: Turn): O.Board {
    O.PublishAll(O.PublishAll(b, t.before), t.between)
  }

  function TickOf(b: O.Board, t: Turn): Tick {
    Tick(t.tip, O.PublishAll(b, t.before).snapshot.targetHeight,
      t.gates.(latestHeight := AfterTurn(b, t).snapshot.latestHeight))
  }

  function AfterTurns(b: O.Board, turns: seq<Turn>): O.Board
    decreases |turns|
  {
    if turns == [] then b else AfterTurn(AfterTurns(b, turns[..|turns| - 1]), turns[|turns| - 1])
  }

  /** The ticks of a run that starts with the orchestrator's board b. */
  function TicksOf(b: O.Board, turns: seq<Turn>): (ticks: seq<Tick>)
    ensures |ticks| == |turns|
    decreases |turns|
  {
    if turns == [] then [] else
    var front := turns[..|turns| - 1];
    TicksOf(b, front) + [TickOf(AfterTurns(b, front), turns[|turns| - 1])]
  }

  /** At every turn the tip the follower is told is no further than the latest height Schedule reads, and the
      context does not end between two jobs of a request. */
  ghost predicate Published(b: O.Board, turns: seq<Turn>) {
    forall k :: 0 <= k < |turns| ==>
      var t := TicksOf(b, turns)[k];
      && (t.tip.Some? ==> t.tip.value <= SafeUint64ToInt64(t.w.latestHeight))
      && (t.w.stopAfter.Some? ==> t.w.stopAfter.value == 0)
  }

  /** While the heights the follower is told have been merged and published, its jobs tile everything the cursor
      passes. */
  lemma PublishedTipsTile(b: O.Board, c: Setup, turns: seq<Turn>, jobs: seq<Job>)
    requires JobsOf(Follow(c, TicksOf(b, turns)).attempts, jobs) && Published(b, turns)
    ensures Tiles(jobs, c.startBlock, Follow(c, TicksOf(b, turns)).last)
  {
    var ticks := TicksOf(b, turns);
    var f := Follow(c, ticks);
    JobsTileIffReached(c, ticks, jobs);
    AttemptsExplained(c, ticks);
    forall i | 0 <= i < |f.attempts| ensures Whole(ticks, f.attempts[i]) {
      assert MadeAt(c, ticks, f.attempts[i]);
    }
  }

  lemma {:induction false} AttemptsGrow(c: Setup, ticks: seq<Tick>, k: nat)
    requires k <= |ticks|
    ensures Follow(c, ticks[..k]).attempts <= Follow(c, ticks).attempts
    decreases |ticks|
  {
    if k < |ticks| {
      var front := ticks[..|ticks| - 1];
      AttemptsGrow(c, front, k);
      assert front[..k] == ticks[..k];
    } else {
      assert ticks[..k] == ticks;
    }
  }

  /** The orchestrator has merged height `latest` and is then told `tip`; the follower ticks before the next merge. */
  function BeforeTheMerge(latest: nat, tip: nat, gates: Surroundings): Turn {
    Turn([O.UpdateChainHeight(latest), O.MergeTick, O.UpdateChainHeight(tip)], Some(tip), [], gates)
  }

  function FreshBoard(): O.Board {
    O.Board(O.Coordinator(0, 0, 0, 0, 1, 0, None), O.Coordinator(0, 0, 0, 0, 0, 0, None))
  }

  /** At any moment of any run, with the cursor below the merged height: the orchestrator is told a higher tip and
      the follower ticks before the next merge. */
  ghost predicate TicksBeforeMerge(c: Setup, b: O.Board, earlier: seq<Turn>, msgs: seq<O.Msg>, tip: nat,
                                   gates: Surroundings) {
    var s := O.PublishAll(AfterTurns(b, earlier), msgs).state;
    var last := Follow(c, TicksOf(b, earlier)).last;
    && last < s.latestHeight < tip <= MAX_INT64
    && s.safetyBuffer < tip && last < tip - s.safetyBuffer
    && Admits(gates, c.jobsCapacity, c.resultsCapacity) && gates.stopAfter.None?
  }

  /** The turn in question: any commands, the new tip, and then the tick. */
  function TurnBeforeMerge(msgs: seq<O.Msg>, tip: nat, gates: Surroundings): Turn {
    Turn(msgs + [O.UpdateChainHeight(tip)], Some(tip), [], gates)
  }

  /** The tick requests up to the tip, or up to a window beyond the target height. */
  function RequestEnd(c: Setup, tip: nat, safetyBuffer: nat): int {
    var aggressive := tip - safetyBuffer + SchedulingWindow(c.chainId);
    if aggressive > tip then tip else aggressive
  }

  lemma TickOfTurn(b: O.Board, msgs: seq<O.Msg>, tip: nat, gates: Surroundings)
    requires var s := O.PublishAll(b, msgs).state; s.latestHeight < tip && s.safetyBuffer < tip
    ensures var s := O.PublishAll(b, msgs).state;
      TickOf(b, TurnBeforeMerge(msgs, tip, gates)) ==
        Tick(Some(tip), tip - s.safetyBuffer, gates.(latestHeight := s.latestHeight))
  {
    var all := msgs + [O.UpdateChainHeight(tip)];
    assert all[..|msgs|] == msgs;
    assert O.PublishAll(b, all) == O.Publish(O.PublishAll(b, msgs), O.UpdateChainHeight(tip));
  }

  lemma {:induction false} TicksConcat(b: O.Board, earlier: seq<Turn>, later: seq<Turn>)
    ensures TicksOf(b, earlier) <= TicksOf(b, earlier + later)
    ensures later != [] ==>
      TicksOf(b, earlier + later)[|earlier|] == TickOf(AfterTurns(b, earlier), later[0])
    decreases |later|
  {
    if later == [] {
      assert earlier + later == earlier;
    } else {
      var front := later[..|later| - 1];
      assert (earlier + later)[..|earlier + later| - 1] == earlier + front;
      TicksConcat(b, earlier, front);
      if front == [] { assert earlier + front == earlier; }
    }
  }

  /** The attempt made by tick k of a run. */
  lemma CutAttempt(c: Setup, ticks: seq<Tick>, k: nat, last: int, to: int, latest: nat) returns (i: nat)
    requires k < |ticks| && last == Follow(c, ticks[..k]).last && last < latest < to <= MAX_INT64
    requires Asks(ticks[k], last, c.chainId) && Target(ticks[k], c.chainId) == to
    requires ticks[k].w.latestHeight == latest && ticks[k].w.stopAfter.None?
    requires Admits(ticks[k].w, c.jobsCapacity, c.resultsCapacity)
    ensures i < |Follow(c, ticks).attempts| && Follow(c, ticks).attempts[i] == Attempt(k, last + 1, to, latest, true)
  {
    var f := Follow(c, ticks[..k]);
    assert ticks[..k + 1][..k] == ticks[..k];
    var a := AttemptAt(k, ticks[k], last + 1, c.chainId);
    assert Follow(c, ticks[..k + 1]).attempts == f.attempts + [a];
    AttemptsGrow(c, ticks, k + 1);
    i := |f.attempts|;
    assert Follow(c, ticks).attempts[i] == (f.attempts + [a])[i];
  }

  /** A tick between a height command and its merge loses blocks, at any moment of any run and whatever happens
      afterwards: the cursor passes every height up to the end of the request, and a height above the merged one is
      covered by a job only if one of a request that was stopped on the way covers it. */
  lemma {:induction false} TickBeforeMergeLosesBlocks(c: Setup, b: O.Board, earlier: seq<Turn>, msgs: seq<O.Msg>,
                                                      tip: nat, gates: Surroundings, more: seq<Turn>,
                                                      jobs: seq<Job>, n: int)
    requires TicksBeforeMerge(c, b, earlier, msgs, tip, gates)
    requires var s := O.PublishAll(AfterTurns(b, earlier), msgs).state;
      s.latestHeight < n <= RequestEnd(c, tip, s.safetyBuffer)
    requires JobsOf(Follow(c, TicksOf(b, earlier + [TurnBeforeMerge(msgs, tip, gates)] + more)).attempts, jobs)
    ensures LostUnlessStopped(Follow(c, TicksOf(b, earlier + [TurnBeforeMerge(msgs, tip, gates)] + more)), jobs, n)
  {
    var s := O.PublishAll(AfterTurns(b, earlier), msgs).state;
    var ticks := TicksOf(b, earlier + [TurnBeforeMerge(msgs, tip, gates)] + more);
    TickInRun(b, earlier, msgs, tip, gates, more);
    AsksBeforeMerge(c, ticks[|earlier|], Follow(c, TicksOf(b, earlier)).last, tip, s.safetyBuffer);
    var last, to, latest := Follow(c, TicksOf(b, earlier)).last, RequestEnd(c, tip, s.safetyBuffer), s.latestHeight;
    assert last < latest < n <= to;
    hide *;
    CutIsLost(c, ticks, |earlier|, last, to, latest, jobs, n);
  }

  /** The cursor has passed the height, and no job covers it but those of requests that were stopped. */
  ghost predicate LostUnlessStopped(f: Follower, jobs: seq<Job>, n: int) {
    n <= f.last && (Covers(jobs, n) <==> StoppedPast(f.attempts, n))
  }

  lemma AsksBeforeMerge(c: Setup, t: Tick, last: int, tip: nat, safetyBuffer: nat)
    requires t.tip == Some(tip) && safetyBuffer < tip <= MAX_INT64 && t.targetHeight == tip - safetyBuffer
    requires last < tip - safetyBuffer
    ensures Asks(t, last, c.chainId) && Target(t, c.chainId) == RequestEnd(c, tip, safetyBuffer) <= MAX_INT64
  {
    assert Int64(tip - safetyBuffer) == tip - safetyBuffer;
  }

  lemma TickInRun(b: O.Board, earlier: seq<Turn>, msgs: seq<O.Msg>, tip: nat, gates: Surroundings, more: seq<Turn>)
    requires var s := O.PublishAll(AfterTurns(b, earlier), msgs).state; s.latestHeight < tip && s.safetyBuffer < tip
    ensures var ticks := TicksOf(b, earlier + [TurnBeforeMerge(msgs, tip, gates)] + more);
      var s := O.PublishAll(AfterTurns(b, earlier), msgs).state;
      && |earlier| < |ticks| && ticks[..|earlier|] == TicksOf(b, earlier)
      && ticks[|earlier|] == Tick(Some(tip), tip - s.safetyBuffer, gates.(latestHeight := s.latestHeight))
  {
    var turn := TurnBeforeMerge(msgs, tip, gates);
    assert earlier + [turn] + more == earlier + ([turn] + more);
    TicksConcat(b, earlier, [turn] + more);
    TickOfTurn(AfterTurns(b, earlier), msgs, tip, gates);
  }

  lemma CutIsLost(c: Setup, ticks: seq<Tick>, k: nat, last: int, to: int, latest: nat, jobs: seq<Job>, n: int)
    requires k < |ticks| && last == Follow(c, ticks[..k]).last && last < latest < n <= to <= MAX_INT64
    requires Asks(ticks[k], last, c.chainId) && Target(ticks[k], c.chainId) == to
    requires ticks[k].w.latestHeight == latest && ticks[k].w.stopAfter.None?
    requires Admits(ticks[k].w, c.jobsCapacity, c.resultsCapacity)
    requires JobsOf(Follow(c, ticks).attempts, jobs)
    ensures LostUnlessStopped(Follow(c, ticks), jobs, n)
  {
    var i := CutAttempt(c, ticks, k, last, to, latest);
    hide Follow;
    hide JobsOf;
    TruncationLeavesGap(c, ticks, jobs, i, n);
  }

  /** In particular on the follower's first tick: for every start block up to a merged height and every higher tip,
      in every continuation without a stopped request, no job ever covers a height above the merged one. */
  lemma {:induction false} FirstTickLosesBlocks(c: Setup, latest: nat, tip: nat, gates: Surroundings, more: seq<Turn>,
                                                jobs: seq<Job>, n: int)
    requires 0 < latest && c.startBlock <= latest < n <= tip <= MAX_INT64
    requires Admits(gates, c.jobsCapacity, c.resultsCapacity) && gates.stopAfter.None?
    requires NoStops(more)
    requires JobsOf(Follow(c, TicksOf(FreshBoard(), [BeforeTheMerge(latest, tip, gates)] + more)).attempts, jobs)
    ensures n <= Follow(c, TicksOf(FreshBoard(), [BeforeTheMerge(latest, tip, gates)] + more)).last
    ensures !Covers(jobs, n)
  {
    var msgs := [O.UpdateChainHeight(latest), O.MergeTick];
    var turns := [BeforeTheMerge(latest, tip, gates)] + more;
    assert [] + [TurnBeforeMerge(msgs, tip, gates)] + more == turns by {
      assert msgs + [O.UpdateChainHeight(tip)] == [O.UpdateChainHeight(latest), O.MergeTick, O.UpdateChainHeight(tip)];
    }
    MergedBoard(latest);
    NeverStopped(c, FreshBoard(), turns);
    TickBeforeMergeLosesBlocks(c, FreshBoard(), [], msgs, tip, gates, more, jobs, n);
  }

  lemma MergedBoard(latest: nat)
    requires 0 < latest
    ensures var s := O.PublishAll(FreshBoard(), [O.UpdateChainHeight(latest), O.MergeTick]).state;
      s.latestHeight == latest && s.safetyBuffer == 1
  {
    var msgs := [O.UpdateChainHeight(latest), O.MergeTick];
    assert msgs[..1] == [O.UpdateChainHeight(latest)] && msgs[..1][..0] == [];
    assert O.PublishAll(FreshBoard(), msgs[..1]) == O.Publish(FreshBoard(), O.UpdateChainHeight(latest));
  }

  lemma {:induction false} GatesKept(b: O.Board, turns: seq<Turn>, k: nat)
    requires k < |turns|
    ensures TicksOf(b, turns)[k].w.stopAfter == turns[k].gates.stopAfter
    decreases |turns|
  {
    if k < |turns| - 1 { GatesKept(b, turns[..|turns| - 1], k); }
  }

  /** The context never ends between the jobs of a request. */
  ghost predicate NoStops(turns: seq<Turn>) {
    forall k :: 0 <= k < |turns| ==> turns[k].gates.stopAfter.None?
  }

  ghost predicate AllAccepted(attempts: seq<Attempt>) {
    forall i :: 0 <= i < |attempts| ==> attempts[i].accepted
  }

  lemma NeverStopped(c: Setup, b: O.Board, turns: seq<Turn>)
    requires NoStops(turns)
    ensures AllAccepted(Follow(c, TicksOf(b, turns)).attempts)
  {
    var ticks := TicksOf(b, turns);
    AttemptsExplained(c, ticks);
    var attempts := Follow(c, ticks).attempts;
    forall i | 0 <= i < |attempts| ensures attempts[i].accepted {
      assert MadeAt(c, ticks, attempts[i]);
      GatesKept(b, turns, attempts[i].tick);
    }
  }
}
