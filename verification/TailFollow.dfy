// Following the tip of the chain: a cursor over requested heights, and what the jobs behind it really reach.
module TailFollowing {
  import opened Blocks
  import opened Fetching

  /** One tick: the tip the node reports (if it answers), the orchestrator's target height, and what Schedule would
      meet. */
  datatype Tick = Tick(tip: Option<nat>, targetHeight: nat, w: Surroundings)

  datatype Setup = Setup(jobsCapacity: nat, resultsCapacity: nat, chainId: int, startBlock: int)

  /** A request that queued jobs, or would have but for the end of the context: the tick that made it, its range,
      the height its jobs reach, and whether Schedule accepted it. */
  datatype Attempt = Attempt(tick: nat, from: int, to: int, reach: int, accepted: bool)

  /** The cursor, and the attempts so far. */
  datatype Follower = Follower(last: int, attempts: seq<Attempt>)

  function Int64(v: nat): int {
    var bits := v % 0x1_0000_0000_0000_0000;
    if bits > MAX_INT64 then bits - 0x1_0000_0000_0000_0000 else bits
  }

  /** The conversion to int64: up to the greatest int64 a number stays what it is, and every 2^64 it starts again. */
  lemma Int64Wraps(v: nat)
    ensures -0x8000_0000_0000_0000 <= Int64(v) <= 0x7FFF_FFFF_FFFF_FFFF
    ensures v <= 0x7FFF_FFFF_FFFF_FFFF ==> Int64(v) == v
    ensures exists turns: nat :: Int64(v) == v - turns * 0x1_0000_0000_0000_0000
  {
    var turns := v / 0x1_0000_0000_0000_0000;
    assert v == turns * 0x1_0000_0000_0000_0000 + v % 0x1_0000_0000_0000_0000;
    assert Int64(v) == v - turns * 0x1_0000_0000_0000_0000 || Int64(v) == v - (turns + 1) * 0x1_0000_0000_0000_0000;
  }

  function SchedulingWindow(chainId: int): int {
    if chainId == 31337 then 100 else 10
  }

  /** Where a request made at this tick ends: a window beyond the target height, but not beyond the tip. */
  function Target(t: Tick, chainId: int): (to: int)
    requires t.tip.Some?
  {
    var aggressive := Int64(t.targetHeight) + SchedulingWindow(chainId);
    if aggressive > t.tip.value then t.tip.value else aggressive
  }

  /** The tick asks for blocks: the node answered and the target height is ahead of the cursor. */
  predicate Asks(t: Tick, last: int, chainId: int) {
    t.tip.Some? && Int64(t.targetHeight) > last && last + 1 <= Target(t, chainId)
  }

  /** Schedule gets as far as sending jobs for from..to. */
  predicate Queues(c: Setup, w: Surroundings, from: int, to: int) {
    from <= Clamp(to, w) && Admits(w, c.jobsCapacity, c.resultsCapacity)
  }

  function AttemptAt(k: nat, t: Tick, from: int, chainId: int): Attempt
    requires t.tip.Some? && from <= Clamp(Target(t, chainId), t.w)
  {
    var to := Target(t, chainId);
    var reach := SentUpTo(from, Clamp(to, t.w), t.w.stopAfter);
    Attempt(k, from, to, reach, reach == Clamp(to, t.w))
  }

  function FollowTick(c: Setup, f: Follower, k: nat, t: Tick): Follower {
    if Asks(t, f.last, c.chainId) && Queues(c, t.w, f.last + 1, Target(t, c.chainId)) then
      var a := AttemptAt(k, t, f.last + 1, c.chainId);
      Follower(if a.accepted then a.to else f.last, f.attempts + [a])
    else f
  }

  /** The tail follower after all its ticks. */
  function Follow(c: Setup, ticks: seq<Tick>): Follower
    decreases |ticks|
  {
    if ticks == [] then Follower(c.startBlock - 1, []) else
    FollowTick(c, Follow(c, ticks[..|ticks| - 1]), |ticks| - 1, ticks[|ticks| - 1])
  }

  /** The jobs are those of the attempts, in order: each attempt's tile what it reached. */
  ghost predicate JobsOf(attempts: seq<Attempt>, jobs: seq<Job>)
    decreases |attempts|
  {
    if attempts == [] then jobs == [] else
    var front, a := attempts[..|attempts| - 1], attempts[|attempts| - 1];
    exists k :: 0 <= k <= |jobs| && Tiles(jobs[k..], a.from, a.reach) && JobsOf(front, jobs[..k])
  }

  lemma JobsOfSnoc(attempts: seq<Attempt>, jobs: seq<Job>, a: Attempt, more: seq<Job>)
    requires JobsOf(attempts, jobs) && Tiles(more, a.from, a.reach)
    ensures JobsOf(attempts + [a], jobs + more)
  {
    assert (attempts + [a])[..|attempts|] == attempts;
    assert (jobs + more)[|jobs|..] == more && (jobs + more)[..|jobs|] == jobs;
  }

  lemma LastCut(attempts: seq<Attempt>, jobs: seq<Job>) returns (k: nat)
    requires attempts != [] && JobsOf(attempts, jobs)
    ensures k <= |jobs| && jobs == jobs[..k] + jobs[k..]
    ensures Tiles(jobs[k..], attempts[|attempts| - 1].from, attempts[|attempts| - 1].reach)
    ensures JobsOf(attempts[..|attempts| - 1], jobs[..k])
  {
    k :| 0 <= k <= |jobs| && Tiles(jobs[k..], attempts[|attempts| - 1].from, attempts[|attempts| - 1].reach)
      && JobsOf(attempts[..|attempts| - 1], jobs[..k]);
  }

  /** One request to Schedule for the range nextBlock..target; the cursor moves over the whole range exactly if
      Schedule had room for it and could send every job, however far the jobs reach. */
  method Request(fetcher: Fetcher, c: Setup, nextBlock: int, target: int, w: Surroundings) returns (lastScheduled: int)
    requires nextBlock <= target && fetcher.jobsCapacity == c.jobsCapacity &&
      fetcher.resultsCapacity == c.resultsCapacity
    modifies fetcher`jobs
    ensures old(fetcher.jobs) <= fetcher.jobs
    ensures if Queues(c, w, nextBlock, target) then
        var reach := SentUpTo(nextBlock, Clamp(target, w), w.stopAfter);
        && Tiles(fetcher.jobs[|old(fetcher.jobs)|..], nextBlock, reach)
        && lastScheduled == if reach == Clamp(target, w) then target else nextBlock - 1
      else fetcher.jobs == old(fetcher.jobs) && lastScheduled == nextBlock - 1
  {
    lastScheduled := nextBlock - 1;
    var r := fetcher.Schedule(nextBlock, target, w);
    if r.Scheduled? {
      lastScheduled := target;
    }
  }

  /** What a tick queues: the jobs of its attempt, or none. */
  ghost predicate QueuedBy(c: Setup, f: Follower, k: nat, t: Tick, more: seq<Job>) {
    if Asks(t, f.last, c.chainId) && Queues(c, t.w, f.last + 1, Target(t, c.chainId))
    then Tiles(more, f.last + 1, AttemptAt(k, t, f.last + 1, c.chainId).reach) else more == []
  }

  method OnTick(fetcher: Fetcher, c: Setup, tick: Tick, schedulingWindow: int, last: int, ghost f: Follower,
                ghost k: nat)
    returns (lastScheduled: int)
    requires fetcher.jobsCapacity == c.jobsCapacity && fetcher.resultsCapacity == c.resultsCapacity
    requires schedulingWindow == SchedulingWindow(c.chainId) && f.last == last
    modifies fetcher`jobs
    ensures old(fetcher.jobs) <= fetcher.jobs && QueuedBy(c, f, k, tick, fetcher.jobs[|old(fetcher.jobs)|..])
    ensures lastScheduled == FollowTick(c, f, k, tick).last
  {
    hide Tiles;
    lastScheduled := last;
    if tick.tip.Some? {
      var targetHeight := Int64(tick.targetHeight);
      if targetHeight > lastScheduled {
        var aggressiveTarget := targetHeight + schedulingWindow;
        if aggressiveTarget > tick.tip.value { aggressiveTarget := tick.tip.value; }
        if lastScheduled + 1 <= aggressiveTarget {
          lastScheduled := Request(fetcher, c, lastScheduled + 1, aggressiveTarget, tick.w);
        }
      }
    }
  }

  /** Over any run of ticks the cursor is the follower's, and what was queued are the jobs of its attempts. */
  method ContinuousTailFollow(fetcher: Fetcher, c: Setup, ticks: seq<Tick>) returns (lastScheduled: int)
    requires fetcher.jobsCapacity == c.jobsCapacity && fetcher.resultsCapacity == c.resultsCapacity
    modifies fetcher`jobs
    ensures old(fetcher.jobs) <= fetcher.jobs
    ensures lastScheduled == Follow(c, ticks).last
    ensures JobsOf(Follow(c, ticks).attempts, fetcher.jobs[|old(fetcher.jobs)|..])
  {
    hide Tiles;
    hide FollowTick;
    hide QueuedBy;
    ghost var queued := fetcher.jobs;
    lastScheduled := c.startBlock - 1;
    var schedulingWindow := if c.chainId == 31337 then 100 else 10;
    var i := 0;
    while i < |ticks|
      invariant 0 <= i <= |ticks|
      invariant queued <= fetcher.jobs && lastScheduled == Follow(c, ticks[..i]).last
      invariant JobsOf(Follow(c, ticks[..i]).attempts, fetcher.jobs[|queued|..])
    {
      ghost var before := fetcher.jobs;
      lastScheduled := OnTick(fetcher, c, ticks[i], schedulingWindow, lastScheduled, Follow(c, ticks[..i]), i);
      FollowOneMore(c, ticks, i, before[|queued|..], fetcher.jobs[|before|..]);
      assert fetcher.jobs[|queued|..] == before[|queued|..] + fetcher.jobs[|before|..];
      i := i + 1;
    }
    assert ticks[..i] == ticks;
  }

  lemma FollowSnoc(c: Setup, ticks: seq<Tick>, k: nat)
    requires k < |ticks|
    ensures Follow(c, ticks[..k + 1]) == FollowTick(c, Follow(c, ticks[..k]), k, ticks[k])
  {
    assert ticks[..k + 1][..k] == ticks[..k];
  }

  lemma TickQueues(c: Setup, f: Follower, k: nat, t: Tick, sent: seq<Job>, more: seq<Job>)
    requires JobsOf(f.attempts, sent) && QueuedBy(c, f, k, t, more)
    ensures JobsOf(FollowTick(c, f, k, t).attempts, sent + more)
  {
    hide JobsOf;
    hide Tiles;
    if Asks(t, f.last, c.chainId) && Queues(c, t.w, f.last + 1, Target(t, c.chainId)) {
      JobsOfSnoc(f.attempts, sent, AttemptAt(k, t, f.last + 1, c.chainId), more);
    } else {
      assert sent + more == sent;
    }
  }

  lemma FollowOneMore(c: Setup, ticks: seq<Tick>, k: nat, sent: seq<Job>, more: seq<Job>)
    requires k < |ticks| && JobsOf(Follow(c, ticks[..k]).attempts, sent)
    requires QueuedBy(c, Follow(c, ticks[..k]), k, ticks[k], more)
    ensures JobsOf(Follow(c, ticks[..k + 1]).attempts, sent + more)
    ensures Follow(c, ticks[..k + 1]) == FollowTick(c, Follow(c, ticks[..k]), k, ticks[k])
  {
    FollowSnoc(c, ticks, k);
    TickQueues(c, Follow(c, ticks[..k]), k, ticks[k], sent, more);
  }

  // --- what the ticks determine ---

  /** What the attempt made at a tick is: it begins after the cursor, ends a window beyond the target height or at
      the tip, and its jobs reach as far as the latest height, or as 51 blocks per job that could still be sent. */
  ghost predicate MadeAt(c: Setup, ticks: seq<Tick>, a: Attempt) {
    && a.tick < |ticks|
    && var t, cursor := ticks[a.tick], Follow(c, ticks[..a.tick]).last;
    && var window := if c.chainId == 31337 then 100 else 10;
    && var latest := Latest(t);
    && t.tip.Some? && Int64(t.targetHeight) > cursor
    && a.from == cursor + 1 <= a.to
    && a.to == (if t.tip.value < Int64(t.targetHeight) + window then t.tip.value else Int64(t.targetHeight) + window)
    && (a.accepted ==> t.w.stopAfter.Some? ==> a.from + 51 * t.w.stopAfter.value > a.reach)
    && (a.accepted ==> a.from <= a.reach == if a.to < latest then a.to else latest)
    && (!a.accepted ==> t.w.stopAfter.Some? && a.reach == a.from + 51 * t.w.stopAfter.value - 1)
    && (!a.accepted ==> a.reach < a.to && a.reach < latest)
  }

  /** The latest height that Schedule reads at a tick. */
  function Latest(t: Tick): int {
    if t.w.latestHeight > 0x7FFF_FFFF_FFFF_FFFF then 0x7FFF_FFFF_FFFF_FFFF else t.w.latestHeight
  }

  /** The node answers, the target height is ahead of the cursor, the next height is neither beyond the tip nor
      beyond the latest height that Schedule reads, both queues are filled to at most 90%, and at most 2000 results are
      buffered. */
  ghost predicate Requested(c: Setup, ticks: seq<Tick>, k: nat)
    requires k < |ticks|
  {
    var t, cursor := ticks[k], Follow(c, ticks[..k]).last;
    && t.tip.Some? && Int64(t.targetHeight) > cursor
    && cursor + 1 <= t.tip.value && cursor + 1 <= Latest(t)
    && t.w.jobsDepth <= c.jobsCapacity * 90 / 100
    && t.w.resultsDepth <= c.resultsCapacity * 90 / 100
    && (t.w.sequencerBuffer.Some? ==> t.w.sequencerBuffer.value <= 2000)
  }

  ghost predicate MadeBy(attempts: seq<Attempt>, k: nat) {
    exists i :: 0 <= i < |attempts| && attempts[i].tick == k
  }

  /** The attempts are those of the ticks, in their order, one for every tick that asks for blocks Schedule has room
      for. */
  ghost predicate Explained(c: Setup, ticks: seq<Tick>, attempts: seq<Attempt>) {
    && (forall i :: 0 <= i < |attempts| ==> MadeAt(c, ticks, attempts[i]))
    && (forall i, j :: 0 <= i < j < |attempts| ==> attempts[i].tick < attempts[j].tick)
    && (forall k :: 0 <= k < |ticks| ==> (MadeBy(attempts, k) <==> Requested(c, ticks, k)))
  }

  lemma MadeEarlier(c: Setup, ticks: seq<Tick>, k: nat)
    requires k <= |ticks|
    ensures forall a :: MadeAt(c, ticks[..k], a) ==> MadeAt(c, ticks, a) && a.tick < k
    ensures forall j :: 0 <= j < k ==> (Requested(c, ticks[..k], j) <==> Requested(c, ticks, j))
  {
    assert forall j :: 0 <= j <= k ==> ticks[..k][..j] == ticks[..j];
  }

  lemma TickMakes(c: Setup, ticks: seq<Tick>)
    requires ticks != []
    ensures var k := |ticks| - 1;
      var f := Follow(c, ticks[..k]);
      && |Follow(c, ticks).attempts| == |f.attempts| + (if Requested(c, ticks, k) then 1 else 0)
      && f.attempts <= Follow(c, ticks).attempts
      && (Requested(c, ticks, k) ==>
            MadeAt(c, ticks, Follow(c, ticks).attempts[|f.attempts|]) &&
              Follow(c, ticks).attempts[|f.attempts|].tick == k)
  {
  }

  lemma MadeByLast(before: seq<Attempt>, after: seq<Attempt>, k: nat)
    requires before <= after && |after| <= |before| + 1 && (|after| > |before| ==> after[|before|].tick == k)
    requires forall i :: 0 <= i < |before| ==> before[i].tick < k
    ensures forall j :: 0 <= j < k ==> (MadeBy(after, j) <==> MadeBy(before, j))
    ensures MadeBy(after, k) <==> |after| > |before|
  {
    assert forall i :: 0 <= i < |before| ==> after[i] == before[i];
    forall j | 0 <= j < k ensures MadeBy(after, j) <==> MadeBy(before, j) {
      if i :| 0 <= i < |before| && before[i].tick == j { assert after[i].tick == j; }
    }
    if |after| > |before| { assert after[|before|].tick == k; }
  }

  lemma ExplainedGrows(c: Setup, ticks: seq<Tick>, before: seq<Attempt>, after: seq<Attempt>)
    requires ticks != [] && Explained(c, ticks[..|ticks| - 1], before) && before <= after
    requires |after| == |before| + (if Requested(c, ticks, |ticks| - 1) then 1 else 0)
    requires |after| > |before| ==> MadeAt(c, ticks, after[|before|]) && after[|before|].tick == |ticks| - 1
    ensures Explained(c, ticks, after)
  {
    hide MadeAt;
    hide Requested;
    hide MadeBy;
    var k := |ticks| - 1;
    MadeEarlier(c, ticks, k);
    forall i | 0 <= i < |after|
      ensures MadeAt(c, ticks, after[i]) && (i < |before| ==> after[i] == before[i] && after[i].tick < k)
    {
      if i < |before| { assert MadeAt(c, ticks[..k], before[i]); }
    }
    MadeByLast(before, after, k);
    forall j | 0 <= j < |ticks| ensures MadeBy(after, j) <==> Requested(c, ticks, j) {
      if j < k { assert MadeBy(before, j) <==> Requested(c, ticks[..k], j); }
    }
  }

  lemma {:induction false} AttemptsExplained(c: Setup, ticks: seq<Tick>)
    ensures Explained(c, ticks, Follow(c, ticks).attempts)
    decreases |ticks|
  {
    if ticks != [] {
      var k := |ticks| - 1;
      AttemptsExplained(c, ticks[..k]);
      TickMakes(c, ticks);
      ExplainedGrows(c, ticks, Follow(c, ticks[..k]).attempts, Follow(c, ticks).attempts);
    }
  }

  /** The accepted requests lead from start to last without gap or overlap; one that was stopped leaves the cursor. */
  ghost predicate RequestsTile(attempts: seq<Attempt>, start: int, last: int)
    decreases |attempts|
  {
    if attempts == [] then last == start - 1 else
    var front, a := attempts[..|attempts| - 1], attempts[|attempts| - 1];
    && a.from - 1 <= a.reach <= a.to
    && if a.accepted then a.to == last && RequestsTile(front, start, a.from - 1) && a.from <= a.reach
       else a.from == last + 1 && RequestsTile(front, start, last)
  }

  lemma {:induction false} FollowTiles(c: Setup, ticks: seq<Tick>)
    ensures RequestsTile(Follow(c, ticks).attempts, c.startBlock, Follow(c, ticks).last)
    decreases |ticks|
  {
    if ticks != [] {
      var k := |ticks| - 1;
      var before, after := Follow(c, ticks[..k]), Follow(c, ticks);
      FollowTiles(c, ticks[..k]);
      if after != before { assert after.attempts[..|before.attempts|] == before.attempts; }
    }
  }

  /** Neither the cursor nor any request or job goes past the highest tip seen. */
  lemma {:induction false} NeverPastTheTip(c: Setup, ticks: seq<Tick>, tip: int)
    requires c.startBlock - 1 <= tip
    requires forall k :: 0 <= k < |ticks| && ticks[k].tip.Some? ==> ticks[k].tip.value <= tip
    ensures Follow(c, ticks).last <= tip
    ensures forall i :: 0 <= i < |Follow(c, ticks).attempts| ==>
      Follow(c, ticks).attempts[i].reach <= Follow(c, ticks).attempts[i].to <= tip
    decreases |ticks|
  {
    if ticks != [] {
      var k := |ticks| - 1;
      NeverPastTheTip(c, ticks[..k], tip);
    }
  }

  lemma {:induction false} RequestsBelow(attempts: seq<Attempt>, start: int, last: int)
    requires RequestsTile(attempts, start, last)
    ensures start - 1 <= last
    ensures forall i :: 0 <= i < |attempts| && attempts[i].accepted ==>
      start <= attempts[i].from <= attempts[i].to <= last
    decreases |attempts|
  {
    if attempts != [] {
      var m := |attempts| - 1;
      var front, a := attempts[..m], attempts[m];
      RequestsBelow(front, start, if a.accepted then a.from - 1 else last);
      forall i | 0 <= i < |attempts| && attempts[i].accepted
        ensures start <= attempts[i].from <= attempts[i].to <= last
      {
        if i < m { assert attempts[i] == front[i]; }
      }
    }
  }

  // --- when the jobs tile what the cursor has passed ---

  /** The attempt queued jobs for exactly what it moved the cursor over. */
  ghost predicate Exact(a: Attempt) {
    a.reach == if a.accepted then a.to else a.from - 1
  }

  ghost predicate AllExact(attempts: seq<Attempt>) {
    forall i :: 0 <= i < |attempts| ==> Exact(attempts[i])
  }

  lemma PieceEnds(jobs: seq<Job>, k: nat, start: int, last: int, from: int, reach: int)
    requires k <= |jobs| && from <= reach && Tiles(jobs, start, last) && Tiles(jobs[k..], from, reach)
    ensures reach == last && Tiles(jobs[..k], start, from - 1)
  {
    assert jobs[k..][0] == jobs[k] && jobs[k..][|jobs| - k - 1] == jobs[|jobs| - 1];
    if k > 0 { TilesAbove(jobs, start, last, k - 1); }
  }

  lemma AllExactSplits(attempts: seq<Attempt>)
    requires attempts != []
    ensures AllExact(attempts) <==> AllExact(attempts[..|attempts| - 1]) && Exact(attempts[|attempts| - 1])
  {
    assert forall i :: 0 <= i < |attempts| - 1 ==> attempts[i] == attempts[..|attempts| - 1][i];
  }

  lemma {:induction false} JobsTileIfExact(attempts: seq<Attempt>, jobs: seq<Job>, start: int, last: int)
    requires RequestsTile(attempts, start, last) && JobsOf(attempts, jobs)
    ensures Tiles(jobs, start, last) <==> AllExact(attempts)
    decreases |attempts|
  {
    hide Tiles;
    hide Exact;
    if attempts == [] {
      NoJobs(jobs, start);
    } else {
      var m := |attempts| - 1;
      var front, a := attempts[..m], attempts[m];
      var k := LastCut(attempts, jobs);
      var from := if a.accepted then a.from - 1 else last;
      JobsTileIfExact(front, jobs[..k], start, from);
      RequestsBelow(front, start, from);
      AllExactSplits(attempts);
      hide JobsOf;
      hide AllExact;
      LastPieceExact(jobs, k, start, last, a);
    }
  }

  lemma NoJobs(jobs: seq<Job>, start: int)
    requires jobs == []
    ensures Tiles(jobs, start, start - 1)
  {
  }

  lemma LastPieceExact(jobs: seq<Job>, k: nat, start: int, last: int, a: Attempt)
    requires k <= |jobs| && Tiles(jobs[k..], a.from, a.reach) && start <= a.from && a.from - 1 <= a.reach <= a.to
    requires if a.accepted then a.to == last && a.from <= a.reach else a.from == last + 1
    ensures Tiles(jobs, start, last) <==> Exact(a) && Tiles(jobs[..k], start, if a.accepted then a.from - 1 else last)
  {
    assert jobs == jobs[..k] + jobs[k..];
    if a.from > a.reach {
      assert jobs[..k] == jobs;
    } else {
      if Tiles(jobs, start, last) { PieceEnds(jobs, k, start, last, a.from, a.reach); }
      if a.accepted && Exact(a) && Tiles(jobs[..k], start, a.from - 1) {
        TilesExtend(jobs[..k], jobs[k..], start, a.from - 1, a.to);
      }
    }
  }

  /** Schedule had room for the whole request and the latest height had reached its end, or the context ended before
      the first job. */
  ghost predicate Whole(ticks: seq<Tick>, a: Attempt)
    requires a.tick < |ticks|
  {
    var w := ticks[a.tick].w;
    if a.accepted then a.to <= SafeUint64ToInt64(w.latestHeight) else w.stopAfter == Some(0)
  }

  ghost predicate AllWhole(ticks: seq<Tick>, attempts: seq<Attempt>)
    requires forall i :: 0 <= i < |attempts| ==> attempts[i].tick < |ticks|
  {
    forall i :: 0 <= i < |attempts| ==> Whole(ticks, attempts[i])
  }

  /** The jobs tile everything the cursor has passed exactly if, at every tick that made a request, the latest
      height had reached the end of an accepted request and a stopped one was stopped before its first job. */
  lemma {:induction false} JobsTileIffReached(c: Setup, ticks: seq<Tick>, jobs: seq<Job>)
    requires JobsOf(Follow(c, ticks).attempts, jobs)
    ensures var f := Follow(c, ticks);
      && (forall i :: 0 <= i < |f.attempts| ==> f.attempts[i].tick < |ticks|)
      && (Tiles(jobs, c.startBlock, f.last) <==> AllWhole(ticks, f.attempts))
  {
    var f := Follow(c, ticks);
    AttemptsExplained(c, ticks);
    FollowTiles(c, ticks);
    ExactIffWhole(c, ticks, f.attempts);
    hide *;
    JobsTileIfExact(f.attempts, jobs, c.startBlock, f.last);
  }

  lemma ExactIffWhole(c: Setup, ticks: seq<Tick>, attempts: seq<Attempt>)
    requires Explained(c, ticks, attempts)
    ensures forall i :: 0 <= i < |attempts| ==> attempts[i].tick < |ticks|
    ensures AllExact(attempts) <==> AllWhole(ticks, attempts)
  {
    hide Follow;
    forall i | 0 <= i < |attempts|
      ensures attempts[i].tick < |ticks| && (Exact(attempts[i]) <==> Whole(ticks, attempts[i]))
    {
      assert MadeAt(c, ticks, attempts[i]);
    }
  }

  // --- the gap ---

  ghost predicate Reached(attempts: seq<Attempt>, n: int) {
    exists i :: 0 <= i < |attempts| && attempts[i].from <= n <= attempts[i].reach
  }

  lemma ReachedSplits(attempts: seq<Attempt>, n: int)
    requires attempts != []
    ensures var m := |attempts| - 1;
      Reached(attempts, n) <==> Reached(attempts[..m], n) || attempts[m].from <= n <= attempts[m].reach
  {
    var front := attempts[..|attempts| - 1];
    if i :| 0 <= i < |attempts| && attempts[i].from <= n <= attempts[i].reach {
      if i < |front| { assert front[i].from <= n <= front[i].reach; }
    }
    if i :| 0 <= i < |front| && front[i].from <= n <= front[i].reach {
      assert attempts[i].from <= n <= attempts[i].reach;
    }
  }

  /** A height is covered by some job exactly when some attempt reached it. */
  lemma {:induction false} JobsCover(attempts: seq<Attempt>, jobs: seq<Job>, n: int)
    requires JobsOf(attempts, jobs)
    ensures Covers(jobs, n) <==> Reached(attempts, n)
    decreases |attempts|
  {
    if attempts != [] {
      var m := |attempts| - 1;
      var k := LastCut(attempts, jobs);
      JobsCover(attempts[..m], jobs[..k], n);
      TilesCoverOnce(jobs[k..], attempts[m].from, attempts[m].reach);
      CoversConcat(jobs[..k], jobs[k..], n);
      ReachedSplits(attempts, n);
    }
  }

  /** Some attempt that was stopped had sent a job for the height. */
  ghost predicate StoppedPast(attempts: seq<Attempt>, n: int) {
    exists j :: 0 <= j < |attempts| && !attempts[j].accepted && attempts[j].from <= n <= attempts[j].reach
  }

  lemma {:induction false} Disjoint(attempts: seq<Attempt>, start: int, last: int, i: nat, j: nat)
    requires RequestsTile(attempts, start, last) && i < j < |attempts| && attempts[i].accepted && attempts[j].accepted
    ensures attempts[i].to < attempts[j].from
    decreases |attempts|
  {
    var m := |attempts| - 1;
    var front := attempts[..m];
    var before := if attempts[m].accepted then attempts[m].from - 1 else last;
    RequestsBelow(front, start, before);
    if j < m {
      Disjoint(front, start, before, i, j);
    } else {
      assert front[i].accepted;
    }
  }

  /** A height of an accepted request beyond the latest height lies behind the cursor for good, and no job ever
      covers it unless one of a stopped request does. */
  lemma {:induction false} TruncationLeavesGap(c: Setup, ticks: seq<Tick>, jobs: seq<Job>, i: nat, n: int)
    requires JobsOf(Follow(c, ticks).attempts, jobs)
    requires i < |Follow(c, ticks).attempts| && Follow(c, ticks).attempts[i].tick < |ticks|
    requires var a := Follow(c, ticks).attempts[i];
      a.accepted && SafeUint64ToInt64(ticks[a.tick].w.latestHeight) < n <= a.to
    ensures c.startBlock <= n <= Follow(c, ticks).last
    ensures Covers(jobs, n) <==> StoppedPast(Follow(c, ticks).attempts, n)
  {
    AttemptsExplained(c, ticks);
    FollowTiles(c, ticks);
    assert MadeAt(c, ticks, Follow(c, ticks).attempts[i]);
    hide Follow;
    hide JobsOf;
    CutNotCovered(Follow(c, ticks).attempts, c.startBlock, Follow(c, ticks).last, jobs, i, n);
  }

  lemma {:induction false} ReachBounded(attempts: seq<Attempt>, start: int, last: int, i: nat)
    requires RequestsTile(attempts, start, last) && i < |attempts|
    ensures attempts[i].reach <= attempts[i].to
    decreases |attempts|
  {
    var m := |attempts| - 1;
    if i < m { ReachBounded(attempts[..m], start, if attempts[m].accepted then attempts[m].from - 1 else last, i); }
  }

  lemma CutNotCovered(attempts: seq<Attempt>, start: int, last: int, jobs: seq<Job>, i: nat, n: int)
    requires RequestsTile(attempts, start, last) && JobsOf(attempts, jobs)
    requires i < |attempts| && attempts[i].accepted && attempts[i].from <= attempts[i].reach < n <= attempts[i].to
    ensures start <= n <= last && (Covers(jobs, n) <==> StoppedPast(attempts, n))
  {
    hide JobsOf;
    RequestsBelow(attempts, start, last);
    JobsCover(attempts, jobs, n);
    forall j | 0 <= j < |attempts| && attempts[j].accepted ensures !(attempts[j].from <= n <= attempts[j].reach) {
      ReachBounded(attempts, start, last, j);
      if i < j { Disjoint(attempts, start, last, i, j); }
      if j < i { Disjoint(attempts, start, last, j, i); }
    }
  }
}
