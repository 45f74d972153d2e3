// The pause gate before the workers: when every run comes to rest, and how a run can stop short.
module PauseGate {
  import opened Blocks
  import opened Fetching
  import opened SequencerModel
  import opened SequencerDrain
  import opened SequencerOrder
  import opened SequencerLedger
  import opened Pipeline
  import opened PipelineRuns

  /** Nothing but fetching something again is left to do. */
  ghost predicate Stuck(start: int, end: int, p: Pipe) {
    forall a :: Enabled(start, end, p, a) ==> a.Refetch?
  }

  /** The fetcher is paused, nothing is on its way to the sequencer, and some worker holds a job before the gate;
      nobody is left to take another one. */
  ghost predicate Deadlocked(p: Pipe) {
    && p.sequencer.paused
    && p.channel == []
    && (forall w :: 0 <= w < |p.workers| ==> !p.workers[w].Sending?)
    && (exists w :: 0 <= w < |p.workers| && p.workers[w].AtGate?)
    && (p.jobs == [] || forall w :: 0 <= w < |p.workers| ==> p.workers[w].AtGate?)
  }

  /** While anything is under way and the pipe is not deadlocked, some action other than a refetch is possible. */
  lemma NextAction(start: int, end: int, p: Pipe) returns (a: Action)
    requires p.workers != [] && Sound(start, end, p) && !Quiescent(p) && !Deadlocked(p)
    ensures Enabled(start, end, p, a) && !a.Refetch?
  {
    if p.channel != [] {
      a := Consume(1, p.channel[..1]);
    } else if w: nat :| w < |p.workers| && p.workers[w].Sending? {
      assert WorkerWithin(p.workers[w], start, end);
      a := Emit(w);
    } else if w: nat :| w < |p.workers| && p.workers[w].AtGate? && !p.sequencer.paused {
      assert EmitsAll(p.workers[w].job, ItemsFor(p.workers[w].job));
      a := Pass(w, ItemsFor(p.workers[w].job));
    } else {
      var w: nat :| w < |p.workers| && p.workers[w].Idle?;
      a := Take(w);
    }
  }

  /** A pipe can do no more exactly if everything has come to rest or it is deadlocked at the gate. */
  lemma StuckIff(start: int, end: int, p: Pipe)
    requires p.workers != [] && Sound(start, end, p)
    ensures Stuck(start, end, p) <==> Quiescent(p) || Deadlocked(p)
  {
    if !Quiescent(p) && !Deadlocked(p) {
      var a := NextAction(start, end, p);
    }
  }

  // --- without a pause ---

  lemma {:induction false} DrainNeverPauses(c: Config, s: State)
    requires AlwaysOk(c)
    ensures DrainLoop(c, s).paused == s.paused
    decreases |s.buffer|
  {
    if s.expected in s.buffer {
      DrainTakes(c, s);
      DrainNeverPauses(c, TakeNext(c, s).0);
    }
  }

  lemma PlaceNeverPauses(c: Config, s: State, n: int, d: BlockData)
    requires AlwaysOk(c) && !s.paused
    ensures !Place(c, s, n, d).0.paused
  {
    if n == s.expected {
      DrainNeverPauses(c, ProcessSequential(c, s, d).0);
    } else if n > s.expected {
      var wide := s.(buffer := s.buffer[n := d]);
      assert n in wide.buffer.Keys;
      var m := MinKey(wide.buffer.Keys);
      DrainNeverPauses(c, wide.(expected := m, ledger := s.ledger + [Skipped(Overflow, s.expected, m)]));
    }
  }

  lemma {:induction false} HandleAllNeverPauses(c: Config, s: State, batch: seq<Arrival>)
    requires AlwaysOk(c) && !s.paused && AllClean(batch)
    ensures !HandleAll(c, s, batch).0.paused
    decreases |batch|
  {
    if batch != [] {
      CleanIsPlaced(c, s, batch[0]);
      PlaceNeverPauses(c, s, HeightOf(batch[0]), Hydrate(batch[0]));
      HandleAllNeverPauses(c, HandleBlock(c, s, batch[0]).0, batch[1..]);
    }
  }

  /** Only a batch that finds more than 2000 results buffered pauses the fetcher. */
  lemma BatchNeverPauses(c: Config, s: State, batch: seq<Arrival>)
    requires AlwaysOk(c) && !s.paused && AllClean(batch) && (c.hasFetcher ==> |s.buffer| <= 2000)
    ensures !HandleBatch(c, s, batch).0.paused
  {
    hide HandleAll;
    hide HandleRun;
    var i := RunStart(s, batch, 0);
    if i == |batch| {
      HandleAllNeverPauses(c, s, batch);
    } else {
      RunNeverPauses(c, s, batch, i, RunEnd(batch, i + 1, s.expected + 1));
    }
  }

  lemma RunNeverPauses(c: Config, s: State, batch: seq<Arrival>, i: nat, j: nat)
    requires AlwaysOk(c) && !s.paused && AllClean(batch) && i < j <= |batch|
    ensures !HandleRun(c, s, batch, i, j).0.paused
  {
    hide HandleAll;
    if j == i + 1 {
      HandleAllNeverPauses(c, s, batch[i..] + batch[..i]);
    } else {
      var u := CommitRun(s, DataOf(batch[i..j]));
      DrainNeverPauses(c, u);
      hide DrainLoop;
      HandleAllNeverPauses(c, Drain(c, u), batch[j..] + batch[..i]);
    }
  }

  /** The buffered heights lie in (start, end], so a range of at most 2000 blocks beyond its start never pauses. */
  ghost predicate Open(c: Config, start: int, end: int, p: Pipe) {
    Sound(start, end, p) && Complete(start, end, p) && !p.sequencer.paused
  }

  lemma StepStaysOpen(c: Config, start: int, end: int, p: Pipe, a: Action)
    requires AlwaysOk(c) && start <= end && end - start <= BufferLimit(c) && (c.hasFetcher ==> end - start <= 2000)
    requires Open(c, start, end, p) && Enabled(start, end, p, a)
    ensures Open(c, start, end, Apply(c, start, end, p, a))
  {
    StepKeeps(c, start, end, p, a);
    hide HandleBatch;
    if a.Consume? {
      SameItems(a.batch, p.channel[..a.n], start, end);
      BufferFits(start, end, p);
      hide Sound;
      hide Complete;
      BatchNeverPauses(c, p.sequencer, a.batch);
    }
  }

  lemma BufferFits(start: int, end: int, p: Pipe)
    requires Sound(start, end, p) && start <= end
    ensures |p.sequencer.buffer| <= end - start
  {
    WindowSize(start + 1, end - start);
    SmallerKeys(p.sequencer.buffer.Keys, Span(start + 1, end + 1));
    assert |p.sequencer.buffer| == |p.sequencer.buffer.Keys|;
  }

  lemma {:induction false} RunStaysOpen(c: Config, start: int, end: int, p: Pipe, actions: seq<Action>, q: Pipe)
    requires AlwaysOk(c) && start <= end && end - start <= BufferLimit(c) && (c.hasFetcher ==> end - start <= 2000)
    requires Open(c, start, end, p) && Runs(c, start, end, p, actions, q)
    ensures Open(c, start, end, q)
    decreases |actions|
  {
    if actions != [] {
      StepStaysOpen(c, start, end, p, actions[0]);
      RunStaysOpen(c, start, end, Apply(c, start, end, p, actions[0]), actions[1..], q);
    }
  }

  /** While no pause is possible, some actions lead to rest. */
  lemma {:induction false} CanFinish(c: Config, start: int, end: int, p: Pipe) returns (actions: seq<Action>, q: Pipe)
    requires AlwaysOk(c) && start <= end && end - start <= BufferLimit(c) && (c.hasFetcher ==> end - start <= 2000)
    requires p.workers != [] && Open(c, start, end, p)
    ensures Runs(c, start, end, p, actions, q) && NoRefetch(actions) && Quiescent(q)
    decreases Measure(p)
  {
    actions, q := [], p;
    if !Quiescent(p) {
      var a := NextAction(start, end, p);
      var next := Apply(c, start, end, p, a);
      StepFalls(c, start, end, p, a);
      StepStaysOpen(c, start, end, p, a);
      RunsOne(c, start, end, p, a);
      var more, r := CanFinish(c, start, end, next);
      RunsOn(c, start, end, p, [a], next, more, r);
      actions, q := [a] + more, r;
    }
  }

  /** With at least one worker, and from every state q that any run has reached: a continuation that fetches nothing
      again has at most Measure(q) actions; and if no pause is possible one of them comes to rest, and one that can do
      no more has delivered exactly start..end. */
  lemma {:induction false} PipelineFinishes(c: Config, start: int, end: int, p: Pipe, actions: seq<Action>, q: Pipe,
                                            more: seq<Action>, r: Pipe)
    requires AlwaysOk(c) && start <= end && end - start <= BufferLimit(c) && p.workers != []
    requires Initial(start, end, p) && Runs(c, start, end, p, actions, q) && Runs(c, start, end, q, more, r)
    ensures NoRefetch(more) ==> |more| <= Measure(q)
    ensures Stuck(start, end, r) <==> Quiescent(r) || Deadlocked(r)
    ensures (c.hasFetcher ==> end - start <= 2000) ==>
      exists a, s :: Runs(c, start, end, r, a, s) && NoRefetch(a) && Quiescent(s) && s.sequencer.expected == end + 1
    ensures (c.hasFetcher ==> end - start <= 2000) && Stuck(start, end, r) ==>
      r.sequencer.expected == end + 1 && Delivers([], start, r.sequencer.ledger, end + 1)
  {
    RunFalls(c, start, end, p, actions, q);
    RunFalls(c, start, end, q, more, r);
    RunsOn(c, start, end, p, actions, q, more, r);
    InitialKeeps(start, end, p);
    RunKeeps(c, start, end, p, actions + more, r);
    StuckIff(start, end, r);
    if c.hasFetcher ==> end - start <= 2000 {
      OpenFinishes(c, start, end, p, actions + more, r);
    }
  }

  lemma OpenFinishes(c: Config, start: int, end: int, p: Pipe, actions: seq<Action>, r: Pipe)
    requires AlwaysOk(c) && start <= end && end - start <= BufferLimit(c) && (c.hasFetcher ==> end - start <= 2000)
    requires Initial(start, end, p) && p.workers != [] && Runs(c, start, end, p, actions, r)
    ensures exists a, s ::
      Runs(c, start, end, r, a, s) && NoRefetch(a) && Quiescent(s) && s.sequencer.expected == end + 1
    ensures Stuck(start, end, r) ==> r.sequencer.expected == end + 1 && Delivers([], start, r.sequencer.ledger, end + 1)
  {
    InitialKeeps(start, end, p);
    RunStaysOpen(c, start, end, p, actions, r);
    RunFalls(c, start, end, p, actions, r);
    PipelineDelivers(c, start, end, p, actions, r);
    var a, s := CanFinish(c, start, end, r);
    RunsOn(c, start, end, p, actions, r, a, s);
    PipelineDelivers(c, start, end, p, actions + a, s);
    StuckIff(start, end, r);
  }

  // --- a deadlock ---

  /** One worker holds a job that contains the start of the range before the gate, another is idle, as are the rest, and
      nothing has been sent. */
  ghost predicate Overtaken(start: int, end: int, p: Pipe) {
    && |p.workers| >= 2
    && p.workers[0].AtGate?
    && (forall w :: 1 <= w < |p.workers| ==> p.workers[w].Idle?)
    && p.channel == [] && p.sequencer == Init(start) && p.seen == {}
    && Sound(start, end, p) && Complete(start, end, p)
  }

  /** The sequencer still expects the start while more than 2000 heights beyond it are buffered; one more result is
      in the channel. */
  ghost predicate Flooded(start: int, p: Pipe) {
    && p.jobs == [] && |p.workers| >= 2
    && p.workers[0].AtGate?
    && (forall w :: 1 <= w < |p.workers| ==> p.workers[w].Idle?)
    && |p.channel| == 1
    && start !in p.seen
  }

  lemma {:induction false} Flood(c: Config, start: int, end: int, p: Pipe, items: seq<Arrival>)
    returns (actions: seq<Action>, q: Pipe)
    requires AlwaysOk(c) && start <= end && end - start <= BufferLimit(c)
    requires Overtaken(start, end, p) && Emits(p.jobs, ItemsFor) && items == AllItems(p.jobs, ItemsFor) && items != []
    requires CleanWithin(items, start + 1, end)
    ensures AllClean(items[..|items| - 1])
    ensures Runs(c, start, end, p, actions, q) && NoRefetch(actions)
    ensures Flooded(start, q) && q.channel == items[|items| - 1..] && q.seen == Heights(items[..|items| - 1])
  {
    var n := |items| - 1;
    var ship, r := Ship(c, start, end, p, 1, ItemsFor);
    assert r.channel == items;
    var take, t := TakeAllButOne(c, start, end, r, items);
    hide *;
    RunsOn(c, start, end, p, ship, r, take, t);
    SendsConcat(ship, take, ItemsFor);
    actions, q := ship + take, t;
  }

  /** The sequencer receives all results but the last, one at a time. */
  lemma TakeAllButOne(c: Config, start: int, end: int, p: Pipe, items: seq<Arrival>)
    returns (actions: seq<Action>, q: Pipe)
    requires p.jobs == [] && |p.workers| >= 2 && p.workers[0].AtGate?
    requires forall w :: 1 <= w < |p.workers| ==> p.workers[w].Idle?
    requires p.seen == {} && p.channel == items && items != [] && CleanWithin(items, start + 1, end)
    ensures AllClean(items[..|items| - 1])
    ensures Runs(c, start, end, p, actions, q) && NoRefetch(actions) && SendsOnly(actions, ItemsFor)
    ensures Flooded(start, q) && q.channel == items[|items| - 1..] && q.seen == Heights(items[..|items| - 1])
  {
    var n := |items| - 1;
    hide Runs;
    BeyondStart(items, start, end);
    hide CleanWithin;
    actions, q := Receive(c, start, end, p, n);
    NothingPasses(actions, ItemsFor);
    assert {} + Heights(items[..n]) == Heights(items[..n]);
  }

  lemma BeyondStart(items: seq<Arrival>, start: int, end: int)
    requires items != [] && CleanWithin(items, start + 1, end)
    ensures AllClean(items) && AllClean(items[..|items| - 1]) && start !in Heights(items[..|items| - 1])
  {
    var front := items[..|items| - 1];
    forall i | 0 <= i < |front| ensures HeightOf(front[i]) > start { assert front[i] == items[i]; }
  }

  /** What follows when the last result arrives: the batch finds more than 2000 results buffered and pauses, and
      there is nothing left that could lift the pause. */
  lemma LastResultPauses(c: Config, start: int, end: int, p: Pipe, window: set<int>) returns (a: Action, q: Pipe)
    requires AlwaysOk(c) && c.hasFetcher && start <= end && end - start <= BufferLimit(c)
    requires Flooded(start, p) && Sound(start, end, p) && Complete(start, end, p)
    requires HeightOfFirst(p.channel) > start
    requires window <= p.seen && |window| > 2000
    ensures Runs(c, start, end, p, [a], q) && !a.Refetch?
    ensures Deadlocked(q) && q.sequencer.expected == start
  {
    FloodedPauses(c, start, end, p, window);
    FirstIsClean(start, end, p);
    assert p.channel[..1] == [p.channel[0]] && p.channel[1..] == [];
    hide *;
    a, q := ReceiveOne(c, start, end, p);
    assert Enabled(start, end, p, a) && q == Apply(c, start, end, p, a) by { OneRun(c, start, end, p, a, q); }
    StepKeeps(c, start, end, p, a);
    NothingLeft(start, p, q);
    StartExpected(start, end, q);
  }

  lemma FirstIsClean(start: int, end: int, p: Pipe)
    requires Flooded(start, p) && Sound(start, end, p) && HeightOfFirst(p.channel) > start
    ensures p.channel != [] && Clean(p.channel[0]) && HeightOf(p.channel[0]) > start && start !in p.seen
  {
  }

  lemma OneRun(c: Config, start: int, end: int, p: Pipe, a: Action, q: Pipe)
    requires Runs(c, start, end, p, [a], q)
    ensures Enabled(start, end, p, a) && q == Apply(c, start, end, p, a)
  {
    assert [a][1..] == [];
  }

  lemma NothingLeft(start: int, p: Pipe, q: Pipe)
    requires Flooded(start, p) && q.sequencer.paused && q.channel == [] && q.jobs == p.jobs && q.workers == p.workers
    ensures Deadlocked(q)
  {
    assert q.workers[0].AtGate?;
  }

  lemma StartExpected(start: int, end: int, p: Pipe)
    requires Sound(start, end, p) && start !in p.seen
    ensures p.sequencer.expected == start && Keyed(p.sequencer)
    ensures forall k :: k in p.seen ==> k in p.sequencer.buffer
  {
  }

  lemma FloodedPauses(c: Config, start: int, end: int, p: Pipe, window: set<int>)
    requires c.hasFetcher && start <= end && end - start <= BufferLimit(c)
    requires Flooded(start, p) && Sound(start, end, p) && HeightOfFirst(p.channel) > start
    requires window <= p.seen && |window| > 2000
    ensures HandleBatch(c, p.sequencer, [p.channel[0]]).0.paused
  {
    var s := p.sequencer;
    StartExpected(start, end, p);
    forall k | k in window ensures k in s.buffer.Keys { assert k in p.seen; }
    SmallerKeys(window, s.buffer.Keys);
    assert |s.buffer| == |s.buffer.Keys|;
    StaysPaused(c, s, p.channel[0], end);
  }

  ghost function HeightOfFirst(items: seq<Arrival>): int {
    if items != [] && Clean(items[0]) then HeightOf(items[0]) else 0
  }

  lemma StaysPaused(c: Config, s: State, a: Arrival, end: int)
    requires c.hasFetcher && Clean(a) && s.expected < HeightOf(a) <= end && |s.buffer| > 2000
    requires (forall k :: k in s.buffer ==> s.expected < k <= end) && end - s.expected <= BufferLimit(c)
    ensures HandleBatch(c, s, [a]).0.paused
  {
    var t := PauseIfHigh(c, s);
    var wide := t.(buffer := t.buffer[HeightOf(a) := Hydrate(a)]);
    AloneAhead(c, t, a);
    hide *;
    Buffers(c, t, HeightOf(a), Hydrate(a), end);
    BatchOfOne(c, s, t, a, wide);
  }

  lemma Buffers(c: Config, s: State, n: int, d: BlockData, end: int)
    requires s.expected < n <= end && end - s.expected <= BufferLimit(c)
    requires forall k :: k in s.buffer ==> s.expected < k <= end
    ensures Place(c, s, n, d) == (s.(buffer := s.buffer[n := d]), Ok)
  {
    var wide := s.buffer[n := d];
    WindowSize(s.expected + 1, end - s.expected);
    SmallerKeys(wide.Keys, Span(s.expected + 1, end + 1));
    assert |wide| == |wide.Keys|;
  }

  lemma AloneAhead(c: Config, s: State, a: Arrival)
    requires Clean(a) && s.expected < HeightOf(a)
    ensures RunStart(s, [a], 0) == 1
    ensures HandleBlock(c, s, a) == Place(c, s, HeightOf(a), Hydrate(a))
  {
    assert !StartsRun(s, [a][0]);
    CleanIsPlaced(c, s, a);
  }

  lemma BatchOfOne(c: Config, s: State, t: State, a: Arrival, u: State)
    requires PauseIfHigh(c, s) == t && RunStart(t, [a], 0) == 1 && HandleBlock(c, t, a) == (u, Ok)
    ensures HandleBatch(c, s, [a]).0 == u
  {
    hide HandleBlock;
    assert [a][1..] == [];
    assert HandleAll(c, u, []) == (u, Ok);
    assert HandleAll(c, t, [a]) == (u, Ok);
  }

  /** The results are for heights in (start, end], and those of the window are among all but the last. */
  ghost predicate Floods(items: seq<Arrival>, start: int, end: int, window: set<int>) {
    && items != [] && CleanWithin(items, start + 1, end)
    && forall h :: h in window ==> Carries(items[..|items| - 1], h)
  }

  /** From an overtaken worker to a deadlock: more than 2000 heights beyond the start arrive, then one result more. */
  lemma {:induction false} OvertakenDeadlocks(c: Config, start: int, end: int, p: Pipe, window: set<int>)
    returns (actions: seq<Action>, q: Pipe)
    requires AlwaysOk(c) && c.hasFetcher && start <= end && end - start <= BufferLimit(c)
    requires Overtaken(start, end, p) && Emits(p.jobs, ItemsFor)
    requires Floods(AllItems(p.jobs, ItemsFor), start, end, window) && |window| > 2000
    ensures Runs(c, start, end, p, actions, q) && NoRefetch(actions)
    ensures Deadlocked(q) && q.sequencer.expected == start
  {
    var items := AllItems(p.jobs, ItemsFor);
    var flood, r := Flood(c, start, end, p, items);
    RunKeeps(c, start, end, p, flood, r);
    WindowSeen(items, start, end, window, r);
    hide *;
    var a, t := LastResultPauses(c, start, end, r, window);
    RunsOn(c, start, end, p, flood, r, [a], t);
    actions, q := flood + [a], t;
  }

  lemma WindowSeen(items: seq<Arrival>, start: int, end: int, window: set<int>, p: Pipe)
    requires Floods(items, start, end, window)
    requires AllClean(items[..|items| - 1]) && p.seen == Heights(items[..|items| - 1]) &&
      p.channel == items[|items| - 1..]
    ensures window <= p.seen && HeightOfFirst(p.channel) > start
  {
    var front := items[..|items| - 1];
    forall h | h in window ensures h in p.seen {
      var i :| 0 <= i < |front| && KeyOf(front[i].data) == Some(h);
      assert HeightOf(front[i]) == h;
    }
    assert p.channel[0] == items[|items| - 1];
  }

  /** The first worker has received the first job. */
  lemma FirstTaken(c: Config, start: int, end: int, p: Pipe) returns (q: Pipe)
    requires AlwaysOk(c) && start <= end && end - start <= BufferLimit(c) && Initial(start, end, p) && |p.workers| >= 2
    ensures Runs(c, start, end, p, [Take(0)], q) && Overtaken(start, end, q)
    ensures p.jobs != [] && q.jobs == p.jobs[1..] && start <= p.jobs[0].end <= end &&
      Tiles(q.jobs, p.jobs[0].end + 1, end)
  {
    InitialKeeps(start, end, p);
    TilesRest(p.jobs, start, end);
    RunsOne(c, start, end, p, Take(0));
    StepKeeps(c, start, end, p, Take(0));
    q := Apply(c, start, end, p, Take(0));
  }

  lemma EmitsItems(jobs: seq<Job>)
    ensures Emits(jobs, ItemsFor)
  {
  }

  /** Without any refetch a run deadlocks as soon as 2002 blocks lie beyond the first job: its worker is overtaken
      before the gate. */
  lemma {:induction false} DeadlockWithoutRefetch(c: Config, start: int, end: int, p: Pipe)
    returns (actions: seq<Action>, q: Pipe)
    requires AlwaysOk(c) && c.hasFetcher && start <= end && end - start <= BufferLimit(c)
    requires Initial(start, end, p) && |p.workers| >= 2 && p.jobs[0].end + 2002 <= end
    ensures Runs(c, start, end, p, actions, q) && NoRefetch(actions)
    ensures Deadlocked(q) && q.sequencer.expected == start
  {
    var r := FirstTaken(c, start, end, p);
    var from := p.jobs[0].end + 1;
    RestFloods(r.jobs, start, end, from);
    EmitsItems(r.jobs);
    WindowSize(from, end - from);
    hide *;
    var more, t := OvertakenDeadlocks(c, start, end, r, Span(from, end));
    RunsOn(c, start, end, p, [Take(0)], r, more, t);
    actions, q := [Take(0)] + more, t;
    assert NoRefetch(actions) by { NoRefetchAfter(Take(0), more); }
  }

  lemma NoRefetchAfter(a: Action, more: seq<Action>)
    requires !a.Refetch? && NoRefetch(more)
    ensures NoRefetch([a] + more)
  {
  }

  lemma RestFloods(jobs: seq<Job>, start: int, end: int, from: int)
    requires Tiles(jobs, from, end) && start < from <= end
    ensures Floods(AllItems(jobs, ItemsFor), start, end, Span(from, end))
  {
    EmitsItems(jobs);
    TiledItems(jobs, ItemsFor, from, end);
    var items := AllItems(jobs, ItemsFor);
    var front := items[..|items| - 1];
    forall h | h in Span(from, end) ensures Carries(front, h) {
      assert KeyOf(front[h - from].data) == Some(h);
    }
  }

  /** The range beyond its first block is fetched again, and then its last block once more. */
  lemma TwoRefetches(c: Config, start: int, end: int, p: Pipe) returns (q: Pipe)
    requires AlwaysOk(c) && start < end && end - start <= BufferLimit(c) && Overtaken(start, end, p)
    ensures Runs(c, start, end, p, [Refetch(Job(start + 1, end)), Refetch(Job(end, end))], q) &&
      Overtaken(start, end, q)
    ensures q.jobs == p.jobs + [Job(start + 1, end), Job(end, end)]
  {
    var a, b := Refetch(Job(start + 1, end)), Refetch(Job(end, end));
    var r := Apply(c, start, end, p, a);
    StepKeeps(c, start, end, p, a);
    StepKeeps(c, start, end, r, b);
    RunsOne(c, start, end, p, a);
    RunsOne(c, start, end, r, b);
    q := Apply(c, start, end, r, b);
    RunsOn(c, start, end, p, [a], r, [b], q);
    assert [a] + [b] == [a, b];
    assert p.jobs + [a.job] + [b.job] == p.jobs + [a.job, b.job];
  }

  lemma RefetchedItems(jobs: seq<Job>, start: int, end: int, from: int)
    requires Tiles(jobs, from, end) && start < from <= end + 1 && start < end
    ensures Floods(AllItems(jobs + [Job(start + 1, end), Job(end, end)], ItemsFor), start, end,
      Span(start + 1, end + 1))
  {
    var a, b := Job(start + 1, end), Job(end, end);
    var first := AllItems(jobs, ItemsFor);
    EmitsItems(jobs);
    TiledItems(jobs, ItemsFor, from, end);
    AllItemsConcat(jobs, [a, b], ItemsFor);
    AllItemsConcat([a], [b], ItemsFor);
    OneJob(a);
    OneJob(b);
    assert [a] + [b] == [a, b];
    hide AllItems;
    TwiceFloods(first, start, end, from);
  }

  lemma TwiceFloods(first: seq<Arrival>, start: int, end: int, from: int)
    requires InOrder(first, from, end) && start < from && start < end
    ensures Floods(first + (ItemsFor(Job(start + 1, end)) + ItemsFor(Job(end, end))), start, end,
      Span(start + 1, end + 1))
  {
    var again, last := ItemsFor(Job(start + 1, end)), ItemsFor(Job(end, end));
    var items := first + (again + last);
    assert items[..|items| - 1] == first + again;
    forall h | h in Span(start + 1, end + 1) ensures Carries(first + again, h) {
      assert KeyOf(again[h - (start + 1)].data) == Some(h);
      CarriesConcat(first, again, h);
    }
  }

  lemma OneJob(job: Job)
    ensures AllItems([job], ItemsFor) == ItemsFor(job)
  {
    assert [job][1..] == [];
    assert ItemsFor(job) + [] == ItemsFor(job);
  }

  /** With a refetch a run can deadlock as soon as the range has more than 2000 blocks beyond its start. */
  lemma {:induction false} CanDeadlock(c: Config, start: int, end: int, p: Pipe) returns (actions: seq<Action>, q: Pipe)
    requires AlwaysOk(c) && c.hasFetcher && start <= end && 2000 < end - start <= BufferLimit(c)
    requires Initial(start, end, p) && |p.workers| >= 2
    ensures Runs(c, start, end, p, actions, q) && Deadlocked(q) && Sound(start, end, q) && q.sequencer.expected == start
  {
    var first := [Take(0)] + [Refetch(Job(start + 1, end)), Refetch(Job(end, end))];
    var t := SetUp(c, start, end, p, first);
    hide *;
    WindowSize(start + 1, end - start);
    InitialKeeps(start, end, p);
    var more, u := OvertakenDeadlocks(c, start, end, t, Span(start + 1, end + 1));
    RunsOn(c, start, end, p, first, t, more, u);
    actions, q := first + more, u;
    RunKeeps(c, start, end, p, actions, q);
  }

  lemma SetUp(c: Config, start: int, end: int, p: Pipe, first: seq<Action>) returns (t: Pipe)
    requires AlwaysOk(c) && start < end && end - start <= BufferLimit(c) && Initial(start, end, p) && |p.workers| >= 2
    requires first == [Take(0)] + [Refetch(Job(start + 1, end)), Refetch(Job(end, end))]
    ensures Runs(c, start, end, p, first, t) && Overtaken(start, end, t) && Emits(t.jobs, ItemsFor)
    ensures Floods(AllItems(t.jobs, ItemsFor), start, end, Span(start + 1, end + 1))
  {
    var r := FirstTaken(c, start, end, p);
    t := TwoRefetches(c, start, end, r);
    RefetchedItems(r.jobs, start, end, p.jobs[0].end + 1);
    EmitsItems(t.jobs);
    hide *;
    RunsOn(c, start, end, p, [Take(0)], r, [Refetch(Job(start + 1, end)), Refetch(Job(end, end))], t);
  }

  /** Every state that any run reaches and from which nothing but a refetch is possible has delivered exactly
      start..end. */
  ghost predicate AlwaysFinishes(c: Config, start: int, end: int, p: Pipe) {
    forall actions, r :: Runs(c, start, end, p, actions, r) && Stuck(start, end, r) ==> r.sequencer.expected == end + 1
  }

  /** With two workers or more the pipeline always finishes exactly if no fetcher is attached that could be paused,
      or the range has at most 2000 blocks beyond its start; off chain 31337 it always has. */
  lemma {:induction false} FinishesIff(c: Config, start: int, end: int, p: Pipe)
    requires AlwaysOk(c) && start <= end && end - start <= BufferLimit(c) && Initial(start, end, p) && |p.workers| >= 2
    ensures AlwaysFinishes(c, start, end, p) <==> (c.hasFetcher ==> end - start <= 2000)
    ensures c.chainId != 31337 ==> AlwaysFinishes(c, start, end, p)
  {
    if c.hasFetcher ==> end - start <= 2000 {
      forall actions, r | Runs(c, start, end, p, actions, r) && Stuck(start, end, r)
        ensures r.sequencer.expected == end + 1
      {
        OpenFinishes(c, start, end, p, actions, r);
      }
    } else {
      var actions, q := CanDeadlock(c, start, end, p);
      StuckIff(start, end, q);
    }
  }
}
