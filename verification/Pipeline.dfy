// Scheduler, parallel workers, result channel and sequencer together, over every interleaving.
module Pipeline {
  import opened Blocks
  import opened Fetching
  import opened SequencerModel
  import opened SequencerDrain
  import opened SequencerOrder

  /** A worker waits for a job, has received one and stands before the pause gate, or is sending the rest of its
      results. */
  datatype Worker = Idle | AtGate(job: Job) | Sending(items: seq<Arrival>)

  function Busy(items: seq<Arrival>): Worker {
    if items == [] then Idle else Sending(items)
  }

  /** The queued jobs, the workers, the result channel, the sequencer, and the heights the sequencer has received. */
  datatype Pipe = Pipe(jobs: seq<Job>, workers: seq<Worker>, channel: seq<Arrival>, sequencer: State, seen: set<int>)

  /** A worker receives the next job; a worker passes the pause gate and has the results of its job to send; a
      worker sends its next result; the sequencer receives the first n results of the channel, in whatever order they
      end up in the batch; some part of the range is scheduled again. */
  datatype Action =
    | Take(worker: nat)
    | Pass(worker: nat, items: seq<Arrival>)
    | Emit(worker: nat)
    | Consume(n: nat, batch: seq<Arrival>)
    | Refetch(job: Job)

  function JobLength(job: Job): nat {
    if job.start <= job.end then job.end - job.start + 1 else 0
  }

  /** One error-free result per height of the job, ascending. */
  ghost predicate EmitsAll(job: Job, items: seq<Arrival>) {
    && |items| == JobLength(job)
    && forall i :: 0 <= i < |items| ==> Clean(items[i]) && HeightOf(items[i]) == job.start + i
  }

  ghost predicate Enabled(start: int, end: int, p: Pipe, a: Action) {
    match a
    case Take(w) => p.jobs != [] && w < |p.workers| && p.workers[w].Idle?
    case Pass(w, items) =>
      w < |p.workers| && p.workers[w].AtGate? && !p.sequencer.paused && EmitsAll(p.workers[w].job, items)
    case Emit(w) => w < |p.workers| && p.workers[w].Sending? && p.workers[w].items != []
    case Consume(n, batch) => 1 <= n <= |p.channel| && n <= 100 && multiset(batch) == multiset(p.channel[..n])
    case Refetch(job) => start <= job.start && job.end <= end
  }

  ghost function Apply(c: Config, start: int, end: int, p: Pipe, a: Action): Pipe
    requires Enabled(start, end, p, a)
  {
    match a
    case Take(w) => p.(jobs := p.jobs[1..], workers := p.workers[w := AtGate(p.jobs[0])])
    case Pass(w, items) => p.(workers := p.workers[w := Busy(items)])
    case Emit(w) =>
      var items := p.workers[w].items;
      p.(channel := p.channel + [items[0]], workers := p.workers[w := Busy(items[1..])])
    case Consume(n, batch) =>
      p.(channel := p.channel[n..],
         sequencer := HandleBatch(c, p.sequencer, batch).0,
         seen := p.seen + if AllClean(batch) then Heights(batch) else {})
    case Refetch(job) => p.(jobs := p.jobs + [job])
  }

  ghost predicate Runs(c: Config, start: int, end: int, p: Pipe, actions: seq<Action>, q: Pipe)
    decreases |actions|
  {
    if actions == [] then q == p else
    Enabled(start, end, p, actions[0]) && Runs(c, start, end, Apply(c, start, end, p, actions[0]), actions[1..], q)
  }

  ghost predicate Initial(start: int, end: int, p: Pipe) {
    && Tiles(p.jobs, start, end)
    && (forall w :: 0 <= w < |p.workers| ==> p.workers[w].Idle?)
    && p.channel == [] && p.sequencer == Init(start) && p.seen == {}
  }

  // --- the invariant ---

  ghost predicate Carries(items: seq<Arrival>, h: int) {
    exists i :: 0 <= i < |items| && KeyOf(items[i].data) == Some(h)
  }

  /** The worker still has to send a result for height h. */
  ghost predicate Owes(w: Worker, h: int) {
    match w
    case Idle => false
    case AtGate(job) => job.start <= h <= job.end
    case Sending(items) => Carries(items, h)
  }

  /** Height h has still to reach the sequencer. */
  ghost predicate Outstanding(p: Pipe, h: int) {
    || Covers(p.jobs, h)
    || (exists w :: 0 <= w < |p.workers| && Owes(p.workers[w], h))
    || Carries(p.channel, h)
  }

  ghost predicate CleanWithin(items: seq<Arrival>, start: int, end: int) {
    forall i :: 0 <= i < |items| ==> Clean(items[i]) && start <= HeightOf(items[i]) <= end
  }

  ghost predicate WorkerWithin(w: Worker, start: int, end: int) {
    match w
    case Idle => true
    case AtGate(job) => start <= job.start && job.end <= end
    case Sending(items) => items != [] && CleanWithin(items, start, end)
  }

  ghost predicate Sound(start: int, end: int, p: Pipe) {
    && (forall i :: 0 <= i < |p.jobs| ==> start <= p.jobs[i].start && p.jobs[i].end <= end)
    && (forall w :: 0 <= w < |p.workers| ==> WorkerWithin(p.workers[w], start, end))
    && CleanWithin(p.channel, start, end)
    && (forall h :: h in p.seen ==> start <= h <= end)
    && (forall k :: k in p.sequencer.buffer ==> start < k <= end)
    && Tracks(p.sequencer, start, {}, [], p.seen)
  }

  ghost predicate Complete(start: int, end: int, p: Pipe) {
    forall h :: start <= h <= end ==> h in p.seen || Outstanding(p, h)
  }

  lemma CarriesConcat(a: seq<Arrival>, b: seq<Arrival>, h: int)
    ensures Carries(a + b, h) <==> Carries(a, h) || Carries(b, h)
  {
    if i :| 0 <= i < |a| && KeyOf(a[i].data) == Some(h) { assert KeyOf((a + b)[i].data) == Some(h); }
    if i :| 0 <= i < |b| && KeyOf(b[i].data) == Some(h) { assert KeyOf((a + b)[|a| + i].data) == Some(h); }
  }

  lemma TakeKeeps(c: Config, start: int, end: int, p: Pipe, w: nat, h: int)
    requires Enabled(start, end, p, Take(w)) && Outstanding(p, h)
    ensures Outstanding(Apply(c, start, end, p, Take(w)), h)
  {
    var q := Apply(c, start, end, p, Take(w));
    if Covers(p.jobs, h) {
      var i :| 0 <= i < |p.jobs| && p.jobs[i].start <= h <= p.jobs[i].end;
      if i == 0 { assert Owes(q.workers[w], h); } else { assert q.jobs[i - 1].start <= h <= q.jobs[i - 1].end; }
    } else if v :| 0 <= v < |p.workers| && Owes(p.workers[v], h) {
      assert v != w && Owes(q.workers[v], h);
    }
  }

  lemma PassKeeps(c: Config, start: int, end: int, p: Pipe, w: nat, items: seq<Arrival>, h: int)
    requires Enabled(start, end, p, Pass(w, items)) && Outstanding(p, h)
    ensures Outstanding(Apply(c, start, end, p, Pass(w, items)), h)
  {
    var q := Apply(c, start, end, p, Pass(w, items));
    if v :| 0 <= v < |p.workers| && Owes(p.workers[v], h) {
      if v == w { assert KeyOf(items[h - p.workers[w].job.start].data) == Some(h); }
      assert Owes(q.workers[v], h);
    }
  }

  lemma EmitKeeps(c: Config, start: int, end: int, p: Pipe, w: nat, h: int)
    requires Enabled(start, end, p, Emit(w)) && Outstanding(p, h)
    ensures Outstanding(Apply(c, start, end, p, Emit(w)), h)
  {
    var q := Apply(c, start, end, p, Emit(w));
    var items := p.workers[w].items;
    CarriesConcat(p.channel, items[..1], h);
    CarriesConcat(items[..1], items[1..], h);
    assert items == items[..1] + items[1..] && [items[0]] == items[..1];
    if v :| 0 <= v < |p.workers| && Owes(p.workers[v], h) {
      assert Carries(q.channel, h) || Owes(q.workers[v], h);
    }
  }

  lemma SameItems(a: seq<Arrival>, b: seq<Arrival>, start: int, end: int)
    requires multiset(a) == multiset(b) && CleanWithin(b, start, end)
    ensures CleanWithin(a, start, end) && AllClean(a)
    ensures forall h :: Carries(b, h) ==> h in Heights(a)
    ensures forall h :: h in Heights(a) ==> start <= h <= end
  {
    forall i | 0 <= i < |a| ensures Clean(a[i]) && start <= HeightOf(a[i]) <= end {
      assert a[i] in multiset(b);
      var j :| 0 <= j < |b| && b[j] == a[i];
    }
    forall h | Carries(b, h) ensures h in Heights(a) {
      var j :| 0 <= j < |b| && KeyOf(b[j].data) == Some(h);
      assert b[j] in multiset(a);
      var i :| 0 <= i < |a| && a[i] == b[j];
      assert HeightOf(a[i]) == h;
    }
  }

  lemma ConsumeKeeps(c: Config, start: int, end: int, p: Pipe, n: nat, batch: seq<Arrival>, h: int)
    requires Enabled(start, end, p, Consume(n, batch)) && CleanWithin(p.channel, start, end)
    requires h in p.seen || Outstanding(p, h)
    ensures var q := Apply(c, start, end, p, Consume(n, batch)); h in q.seen || Outstanding(q, h)
  {
    SameItems(batch, p.channel[..n], start, end);
    CarriesConcat(p.channel[..n], p.channel[n..], h);
    assert p.channel == p.channel[..n] + p.channel[n..];
  }

  lemma WindowSize(from: int, m: nat)
    ensures |Span(from, from + m)| == m
  {
    if m == 0 {
      assert Span(from, from) == {};
    } else {
      WindowSize(from, m - 1);
      assert Span(from, from + m) == Span(from, from + m - 1) + {from + m - 1};
    }
  }

  /** The heights of one range always fit the buffer, so the sequencer keeps track of everything it has seen. */
  lemma ConsumeSound(c: Config, start: int, end: int, p: Pipe, n: nat, batch: seq<Arrival>)
    requires AlwaysOk(c) && start <= end && end - start <= BufferLimit(c)
    requires Sound(start, end, p) && Enabled(start, end, p, Consume(n, batch))
    ensures Sound(start, end, Apply(c, start, end, p, Consume(n, batch)))
  {
    var s, w := p.sequencer, Span(start + 1, end + 1);
    SameItems(batch, p.channel[..n], start, end);
    WindowSize(start + 1, end - start);
    HandleBatchFits(c, s, batch, w);
    HandleBatchTracks(c, s, batch, start, {}, [], p.seen);
    NoSkipsFromStart(s, HandleBatch(c, s, batch).0.ledger, start);
  }

  lemma NoSkipsFromStart(s: State, after: seq<Entry>, start: int)
    requires Delivers([], start, s.ledger, s.expected) && NoSkips(s.ledger, after)
    ensures NoSkips([], after)
  {
    forall i | 0 <= i < |after| ensures after[i].Delivered? {
      if i < |s.ledger| { assert after[i] == s.ledger[i]; }
    }
  }

  lemma StepKeeps(c: Config, start: int, end: int, p: Pipe, a: Action)
    requires AlwaysOk(c) && start <= end && end - start <= BufferLimit(c)
    requires Sound(start, end, p) && Complete(start, end, p) && Enabled(start, end, p, a)
    ensures Sound(start, end, Apply(c, start, end, p, a)) && Complete(start, end, Apply(c, start, end, p, a))
  {
    var q := Apply(c, start, end, p, a);
    forall h | start <= h <= end ensures h in q.seen || Outstanding(q, h) {
      if h !in p.seen || a.Consume? {
        match a
        case Take(w) => TakeKeeps(c, start, end, p, w, h);
        case Pass(w, items) => PassKeeps(c, start, end, p, w, items, h);
        case Emit(w) => EmitKeeps(c, start, end, p, w, h);
        case Consume(n, batch) => ConsumeKeeps(c, start, end, p, n, batch, h);
        case Refetch(job) => CoversConcat(p.jobs, [job], h);
      }
    }
    if a.Consume? { ConsumeSound(c, start, end, p, a.n, a.batch); }
  }

  lemma {:induction false} RunKeeps(c: Config, start: int, end: int, p: Pipe, actions: seq<Action>, q: Pipe)
    requires AlwaysOk(c) && start <= end && end - start <= BufferLimit(c)
    requires Sound(start, end, p) && Complete(start, end, p) && Runs(c, start, end, p, actions, q)
    ensures Sound(start, end, q) && Complete(start, end, q)
    decreases |actions|
  {
    if actions != [] {
      StepKeeps(c, start, end, p, actions[0]);
      RunKeeps(c, start, end, Apply(c, start, end, p, actions[0]), actions[1..], q);
    }
  }

  lemma InitialKeeps(start: int, end: int, p: Pipe)
    requires start <= end && Initial(start, end, p)
    ensures Sound(start, end, p) && Complete(start, end, p)
  {
    TilesCoverOnce(p.jobs, start, end);
    forall i | 0 <= i < |p.jobs| ensures start <= p.jobs[i].start && p.jobs[i].end <= end {
      TilesAbove(p.jobs, start, end, i);
      assert Covers(p.jobs, p.jobs[i].end);
    }
    assert Tracks(p.sequencer, start, {}, [], {});
  }

  ghost predicate Quiescent(p: Pipe) {
    p.jobs == [] && p.channel == [] && forall w :: 0 <= w < |p.workers| ==> p.workers[w].Idle?
  }

  /** Whole pipeline: from jobs that tile [start, end], with any number of workers, any interleaving of their sends,
      any cut of the channel into batches and any order inside them, and any part of the range fetched again, the
      sequencer has at every moment delivered start, start+1, ... without a gap, repetition or skip, and never beyond
      end; and once nothing is under way it has delivered exactly start..end. */
  lemma PipelineDelivers(c: Config, start: int, end: int, p: Pipe, actions: seq<Action>, q: Pipe)
    requires AlwaysOk(c) && start <= end && end - start <= BufferLimit(c)
    requires Initial(start, end, p) && Runs(c, start, end, p, actions, q)
    ensures Delivers([], start, q.sequencer.ledger, q.sequencer.expected)
    ensures q.sequencer.expected <= end + 1
    ensures Quiescent(q) ==> q.sequencer.expected == end + 1
  {
    InitialKeeps(start, end, p);
    RunKeeps(c, start, end, p, actions, q);
    var s := q.sequencer;
    assert start in q.seen ==> IsFrontier(start, {}, q.seen, s.expected);
    assert end + 1 !in q.seen;
    if Quiescent(q) {
      forall h | start <= h <= end ensures h in q.seen {
        assert h in q.seen || Outstanding(q, h);
      }
      assert IsFrontier(start, {}, q.seen, s.expected);
    }
  }

  // --- every run gets there ---

  /** A result in the channel still takes one action, one held by a worker two, a job at the gate one more than its
      results, and a queued job one more than that. */
  function JobsWeight(jobs: seq<Job>): nat
    decreases |jobs|
  {
    if jobs == [] then 0 else 2 + 2 * JobLength(jobs[0]) + JobsWeight(jobs[1..])
  }

  function WorkerWeight(w: Worker): nat {
    match w
    case Idle => 0
    case AtGate(job) => 1 + 2 * JobLength(job)
    case Sending(items) => 2 * |items|
  }

  function Held(workers: seq<Worker>): nat
    decreases |workers|
  {
    if workers == [] then 0 else WorkerWeight(workers[0]) + Held(workers[1..])
  }

  function Measure(p: Pipe): nat {
    JobsWeight(p.jobs) + Held(p.workers) + |p.channel|
  }

  lemma {:induction false} HeldChanges(workers: seq<Worker>, w: nat, to: Worker)
    requires w < |workers|
    ensures Held(workers[w := to]) == Held(workers) - WorkerWeight(workers[w]) + WorkerWeight(to)
    decreases |workers|
  {
    if w > 0 {
      HeldChanges(workers[1..], w - 1, to);
      assert workers[w := to][1..] == workers[1..][w - 1 := to];
    } else {
      assert workers[w := to][1..] == workers[1..];
    }
  }

  /** Taking a job, passing the gate, sending a result and receiving results all bring the run closer to its end. */
  lemma StepFalls(c: Config, start: int, end: int, p: Pipe, a: Action)
    requires Enabled(start, end, p, a) && !a.Refetch?
    ensures Measure(Apply(c, start, end, p, a)) < Measure(p)
  {
    match a
    case Take(w) => HeldChanges(p.workers, w, AtGate(p.jobs[0]));
    case Pass(w, items) => HeldChanges(p.workers, w, Busy(items));
    case Emit(w) => HeldChanges(p.workers, w, Busy(p.workers[w].items[1..]));
    case Consume(_, _) =>
  }

  /** Error-free results for a job, as a worker would send them. */
  function ItemsFor(job: Job): seq<Arrival> {
    seq(JobLength(job), i => Arrival(BlockData(Some(job.start + i), Some(job.end), None, false, []), None, None))
  }

  ghost predicate NoRefetch(actions: seq<Action>) {
    forall i :: 0 <= i < |actions| ==> !actions[i].Refetch?
  }

  lemma {:induction false} RunFalls(c: Config, start: int, end: int, p: Pipe, actions: seq<Action>, q: Pipe)
    requires Runs(c, start, end, p, actions, q)
    ensures |q.workers| == |p.workers|
    ensures NoRefetch(actions) ==> |actions| + Measure(q) <= Measure(p)
    decreases |actions|
  {
    if actions != [] {
      var next := Apply(c, start, end, p, actions[0]);
      RunFalls(c, start, end, next, actions[1..], q);
      if NoRefetch(actions) {
        assert !actions[0].Refetch?;
        StepFalls(c, start, end, p, actions[0]);
      }
    }
  }

  lemma {:induction false} RunsOn(c: Config, start: int, end: int, p: Pipe, first: seq<Action>, q: Pipe,
                                  further: seq<Action>, r: Pipe)
    requires Runs(c, start, end, p, first, q) && Runs(c, start, end, q, further, r)
    ensures Runs(c, start, end, p, first + further, r)
    decreases |first|
  {
    if first == [] {
      assert first + further == further;
    } else {
      RunsOn(c, start, end, Apply(c, start, end, p, first[0]), first[1..], q, further, r);
      assert (first + further)[1..] == first[1..] + further;
    }
  }

  // --- what the fetcher sends is what a worker of the pipeline sends ---

  /** The results of a job, each with the node's answer should the sequencer ask for its block. */
  function Arrivals(items: seq<BlockData>, node: int -> Option<Block>): seq<Arrival> {
    seq(|items|, i requires 0 <= i < |items| =>
      Arrival(items[i], if items[i].number.Some? then node(items[i].number.value) else None, None))
  }

  /** A job whose log query and block queries all succeed, at a node that answers with the block it was asked for,
      emits what the pipeline theorem expects of a worker. */
  lemma FetchedJobEmitsAll(job: Job, logs: seq<Log>, node: int -> Option<Block>)
    requires job.start <= job.end
    requires forall h :: node(h).Some? ==> node(h).value.number == h
    requires forall h :: job.start <= h <= job.end && (h == job.end || LogsOf(logs, h) != []) ==> node(h).Some?
    ensures EmitsAll(job, Arrivals(Emission(job.start, job.end, job.end, logs, node), node))
  {
    EmissionAt(job.start, job.end, job.end, logs, node);
  }
}
