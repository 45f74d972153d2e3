// Which ranges become durable, read off the jobs and the logs: every block must have been fetched.
module Durability {
  import opened Blocks
  import opened Fetching
  import opened SequencerModel
  import opened SequencerDrain
  import opened SequencerOrder
  import opened SequencerLedger
  import opened Pipeline
  import opened PipelineRuns
  import E = EndToEnd
  import C = ParentCheck
  import W = AsyncWriterModel
  import X = SequencerEffects

  /** What a worker sends for a job when the log query returns `logs` and the node answers block queries as `node`
      does. */
  function FromNode(logs: seq<Log>, node: int -> Option<Block>): Job -> seq<Arrival> {
    (job: Job) => Arrivals(Emission(job.start, job.end, job.end, logs, node), node)
  }

  /** The node knows every block of the range, and answers with the block it was asked for. */
  ghost predicate Answers(node: int -> Option<Block>, start: int, end: int) {
    && (forall h :: node(h).Some? ==> node(h).value.number == h)
    && (forall h :: start <= h <= end ==> node(h).Some?)
  }

  /** The fetcher asks for every block of the job: each height has logs or ends it. */
  ghost predicate Fetched(job: Job, logs: seq<Log>) {
    forall h :: job.start <= h <= job.end ==> h == job.end || LogsOf(logs, h) != []
  }

  ghost predicate AllFetched(jobs: seq<Job>, logs: seq<Log>) {
    forall i :: 0 <= i < |jobs| ==> Fetched(jobs[i], logs)
  }

  lemma JobItem(job: Job, logs: seq<Log>, node: int -> Option<Block>, k: nat)
    requires job.start + k <= job.end
    ensures |FromNode(logs, node)(job)| == job.end - job.start + 1
    ensures FromNode(logs, node)(job)[k].data == ItemAt(job.start + k, job.end, logs, node)
  {
    EmissionAt(job.start, job.end, job.end, logs, node);
  }

  lemma NodeEmits(job: Job, logs: seq<Log>, node: int -> Option<Block>, start: int, end: int)
    requires Answers(node, start, end) && start <= job.start && job.end <= end
    ensures EmitsAll(job, FromNode(logs, node)(job))
  {
    if job.start <= job.end { FetchedJobEmitsAll(job, logs, node); }
  }

  // --- everything fetched, everything carried ---

  ghost predicate Full(items: seq<Arrival>) {
    forall i :: 0 <= i < |items| ==> items[i].data.block.Some?
  }

  ghost predicate FullWorker(w: Worker, logs: seq<Log>) {
    match w
    case Idle => true
    case AtGate(job) => Fetched(job, logs)
    case Sending(items) => Full(items)
  }

  ghost predicate FullPipe(p: Pipe, logs: seq<Log>) {
    && AllFetched(p.jobs, logs)
    && (forall w :: 0 <= w < |p.workers| ==> FullWorker(p.workers[w], logs))
    && Full(p.channel)
    && X.Carries(p.sequencer, true)
  }

  /** What passes the gate for a job of which every block is fetched carries every block. */
  lemma PassFull(job: Job, items: seq<Arrival>, source: Job, logs: seq<Log>, node: int -> Option<Block>, start: int,
                 end: int)
    requires Answers(node, start, end) && start <= job.start && job.end <= end && Fetched(job, logs)
    requires EmitsAll(job, items) && items == FromNode(logs, node)(source)
    ensures Full(items)
  {
    if items != [] {
      JobItem(source, logs, node, 0);
      assert HeightOf(items[0]) == source.start;
      forall k | 0 <= k < |items| ensures items[k].data.block.Some? { JobItem(source, logs, node, k); }
    }
  }

  lemma SameFull(a: seq<Arrival>, b: seq<Arrival>)
    requires multiset(a) == multiset(b) && Full(b)
    ensures Full(a)
  {
    forall i | 0 <= i < |a| ensures a[i].data.block.Some? {
      assert a[i] in multiset(b);
      var j :| 0 <= j < |b| && b[j] == a[i];
    }
  }

  /** Only fetched jobs are fetched again. */
  ghost predicate RefetchesFetched(actions: seq<Action>, logs: seq<Log>) {
    forall i :: 0 <= i < |actions| && actions[i].Refetch? ==> Fetched(actions[i].job, logs)
  }

  lemma StepFull(c: Config, start: int, end: int, p: Pipe, a: Action, logs: seq<Log>, node: int -> Option<Block>)
    requires AlwaysOk(c) && Answers(node, start, end) && Sound(start, end, p) && FullPipe(p, logs)
    requires Enabled(start, end, p, a) && SendsOnly([a], FromNode(logs, node)) && RefetchesFetched([a], logs)
    ensures FullPipe(Apply(c, start, end, p, a), logs)
  {
    assert [a][0] == a;
    match a
    case Take(_) =>
    case Pass(w, items) =>
      var source :| items == FromNode(logs, node)(source);
      assert WorkerWithin(p.workers[w], start, end) && FullWorker(p.workers[w], logs);
      PassFull(p.workers[w].job, items, source, logs, node, start, end);
    case Emit(w) =>
      assert FullWorker(p.workers[w], logs);
    case Consume(n, batch) =>
      SameItems(batch, p.channel[..n], start, end);
      SameFull(batch, p.channel[..n]);
      assert X.AllAnswered(batch, true);
      X.HandleBatchKeeps(c, p.sequencer, batch, true);
    case Refetch(_) =>
  }

  lemma {:induction false} RunFull(c: Config, start: int, end: int, p: Pipe, actions: seq<Action>, q: Pipe,
                                   logs: seq<Log>, node: int -> Option<Block>)
    requires AlwaysOk(c) && start <= end && end - start <= BufferLimit(c) && Answers(node, start, end)
    requires Sound(start, end, p) && Complete(start, end, p) && FullPipe(p, logs) && Runs(c, start, end, p, actions, q)
    requires SendsOnly(actions, FromNode(logs, node)) && RefetchesFetched(actions, logs)
    ensures FullPipe(q, logs)
    decreases |actions|
  {
    if actions != [] {
      var a, rest := actions[0], actions[1..];
      assert SendsOnly([a], FromNode(logs, node)) && SendsOnly(rest, FromNode(logs, node)) by {
        assert forall i :: 0 <= i < |rest| ==> rest[i] == actions[i + 1];
      }
      assert RefetchesFetched([a], logs) && RefetchesFetched(rest, logs) by {
        assert forall i :: 0 <= i < |rest| ==> rest[i] == actions[i + 1];
      }
      StepFull(c, start, end, p, a, logs, node);
      StepKeeps(c, start, end, p, a);
      RunFull(c, start, end, Apply(c, start, end, p, a), rest, q, logs, node);
    }
  }

  /** When the fetcher asks for every block of every job, also of those fetched again, everything delivered carries
      its block, at every moment of every run. */
  lemma {:induction false} FetchedIsCarried(c: Config, start: int, end: int, p: Pipe, actions: seq<Action>, q: Pipe,
                                            logs: seq<Log>, node: int -> Option<Block>)
    requires AlwaysOk(c) && start <= end && end - start <= BufferLimit(c) && Answers(node, start, end)
    requires Initial(start, end, p) && Runs(c, start, end, p, actions, q)
    requires SendsOnly(actions, FromNode(logs, node)) && AllFetched(p.jobs, logs) && RefetchesFetched(actions, logs)
    ensures E.AllCarry(q.sequencer.ledger)
  {
    InitialKeeps(start, end, p);
    assert FullPipe(p, logs);
    RunFull(c, start, end, p, actions, q, logs, node);
    PipelineDelivers(c, start, end, p, actions, q);
  }

  /** So the range becomes durable: with a writer that has accepted and committed all tasks every height has its
      row, and checkpoint and watermark are the end. */
  lemma {:induction false} FetchedRangeIsDurable(c: Config, start: nat, end: int, p: Pipe, actions: seq<Action>,
                                                 q: Pipe, logs: seq<Log>, node: int -> Option<Block>,
                                                 wc: W.Config, events: seq<W.Event>)
    requires AlwaysOk(c) && start <= end && end - start <= BufferLimit(c) && Answers(node, start, end)
    requires Initial(start, end, p) && Runs(c, start, end, p, actions, q) && Quiescent(q)
    requires SendsOnly(actions, FromNode(logs, node)) && AllFetched(p.jobs, logs) && RefetchesFetched(actions, logs)
    requires !wc.ephemeral && E.AllCommitted(W.AfterEvents(wc, W.Init(), events), E.TasksOf(q.sequencer.ledger))
    ensures var w := W.AfterEvents(wc, W.Init(), events);
      && E.HasRows(w.store.blocks, start, end + 1)
      && w.store.watermark == end && w.store.checkpoints == map[wc.chainId := w.store.watermark]
  {
    FetchedIsCarried(c, start, end, p, actions, q, logs, node);
    E.RangeBecomesDurable(c, start, end, p, actions, q, wc, events);
  }

  // --- one block not fetched, one delivery without it ---

  /** The item for a height of job i, among all items of jobs that tile [from, to]. */
  lemma {:induction false} ItemOf(jobs: seq<Job>, emit: Job -> seq<Arrival>, from: int, to: int, i: nat, h: int)
    requires Tiles(jobs, from, to) && Emits(jobs, emit) && i < |jobs| && jobs[i].start <= h <= jobs[i].end
    ensures from <= h <= to && 0 <= h - from < |AllItems(jobs, emit)| && 0 <= h - jobs[i].start < |emit(jobs[i])|
    ensures AllItems(jobs, emit)[h - from] == emit(jobs[i])[h - jobs[i].start]
    decreases |jobs|
  {
    TilesRest(jobs, from, to);
    assert EmitsAll(jobs[0], emit(jobs[0]));
    if i > 0 {
      assert jobs[i] == jobs[1..][i - 1];
      ItemOf(jobs[1..], emit, jobs[0].end + 1, to, i - 1, h);
    }
  }

  /** The delivered results so far stay where they are in the rest of a run. */
  lemma {:induction false} DeliveredStays(c: Config, start: int, end: int, p: Pipe, actions: seq<Action>, q: Pipe)
    requires AlwaysOk(c) && start <= end && end - start <= BufferLimit(c)
    requires Sound(start, end, p) && Complete(start, end, p) && Runs(c, start, end, p, actions, q)
    ensures DeliveredData(p.sequencer.ledger) <= DeliveredData(q.sequencer.ledger)
    decreases |actions|
  {
    if actions != [] {
      var a := actions[0];
      StepKeeps(c, start, end, p, a);
      if a.Consume? {
        HandleBatchAccounts(c, p.sequencer, a.batch);
        C.DeliveredPrefix(p.sequencer.ledger, HandleBatch(c, p.sequencer, a.batch).0.ledger);
      }
      DeliveredStays(c, start, end, Apply(c, start, end, p, a), actions[1..], q);
    }
  }

  lemma {:induction false} CarriedData(ledger: seq<Entry>, i: nat)
    requires E.AllCarry(ledger) && i < |DeliveredData(ledger)|
    ensures DeliveredData(ledger)[i].0.block.Some?
    decreases |ledger|
  {
    var front := ledger[..|ledger| - 1];
    assert E.AllCarry(front) by { assert forall j :: 0 <= j < |front| ==> front[j] == ledger[j]; }
    if i < |DeliveredData(front)| { CarriedData(front, i); } else { assert E.Carries(ledger[|ledger| - 1]); }
  }

  /** Two results that continue the range are committed as a run, with the data they came with. */
  lemma PairIsCommitted(c: Config, s: State, a: Arrival, b: Arrival)
    requires AlwaysOk(c) && Keyed(s) && Clean(a) && Clean(b) && HeightOf(a) == s.expected &&
      HeightOf(b) == s.expected + 1
    ensures var done := DeliveredData(HandleBatch(c, s, [a, b]).0.ledger);
      |DeliveredData(s.ledger)| < |done| && done[|DeliveredData(s.ledger)|].0 == a.data
  {
    var batch, t := [a, b], PauseIfHigh(c, s);
    assert StartsRun(t, batch[0]) && RunStart(t, batch, 0) == 0;
    assert RunEnd(batch, 2, s.expected + 2) == 2;
    assert RunEnd(batch, 1, s.expected + 1) == 2;
    assert DataOf(batch[0..2]) == [a.data, b.data];
    C.CommittedRun(c, s, batch, 0, 2);
    hide HandleBatch;
    C.RunAt(DeliveredData(s.ledger), batch, 0, 2, DeliveredData(HandleBatch(c, s, batch).0.ledger), 0);
  }

  /** The results up to height h arrive one at a time, and h is the next one expected. */
  lemma {:induction false} UpTo(c: Config, start: int, end: int, p: Pipe, h: int)
    returns (actions: seq<Action>, q: Pipe)
    requires AlwaysOk(c) && end - start <= BufferLimit(c) && Sound(start, end, p) && Complete(start, end, p)
    requires p.seen == {} && p.sequencer == Init(start) && InOrder(p.channel, start, end) && start <= h <= end
    ensures Runs(c, start, end, p, actions, q) && OnlyReceives(actions)
    ensures q.channel == p.channel[h - start..] && q.jobs == p.jobs && q.workers == p.workers
    ensures Sound(start, end, q) && Complete(start, end, q) && q.sequencer.expected == h
  {
    hide *;
    FrontHeights(p.channel, start, end, h);
    assert {} + Span(start, h) == Span(start, h);
    actions, q := Receive(c, start, end, p, h - start);
    RunKeeps(c, start, end, p, actions, q);
    Expected(start, end, h, q);
  }

  lemma FrontHeights(items: seq<Arrival>, start: int, end: int, h: int)
    requires InOrder(items, start, end) && start <= h <= end
    ensures h - start <= |items| && AllClean(items) && AllClean(items[..h - start])
    ensures Heights(items[..h - start]) == Span(start, h)
  {
    var front := items[..h - start];
    forall k | start <= k < h ensures k in Heights(front) { assert HeightOf(front[k - start]) == k; }
    forall k | k in Heights(front) ensures start <= k < h { var i :| 0 <= i < |front| && HeightOf(front[i]) == k; }
  }

  lemma Expected(start: int, end: int, h: int, p: Pipe)
    requires Sound(start, end, p) && start <= h
    requires p.seen == Span(start, h)
    ensures p.sequencer.expected == h
  {
    assert h !in p.seen && (start in p.seen <==> start < h);
  }

  /** A block that the fetcher does not ask for can be delivered without it: a worker sends all jobs, and the height
      and its successor reach the sequencer together. */
  lemma {:induction false} UnfetchedIsLost(c: Config, start: int, end: int, p: Pipe, logs: seq<Log>,
                                           node: int -> Option<Block>,
                                           i: nat, h: int) returns (actions: seq<Action>, q: Pipe)
    requires AlwaysOk(c) && start <= end && end - start <= BufferLimit(c) && Answers(node, start, end)
    requires Initial(start, end, p) && p.workers != []
    requires i < |p.jobs| && p.jobs[i].start <= h < p.jobs[i].end && LogsOf(logs, h) == []
    ensures Runs(c, start, end, p, actions, q) && NoRefetch(actions) && SendsOnly(actions, FromNode(logs, node))
    ensures Quiescent(q) && !E.AllCarry(q.sequencer.ledger)
  {
    var emit := FromNode(logs, node);
    assert Sound(start, end, p) && Complete(start, end, p) && AllIdle(p) && p.sequencer == Init(start) &&
      p.seen == {} by {
      InitialKeeps(start, end, p);
    }
    SentBlockless(start, end, p, logs, node, i, h);
    assert !p.sequencer.paused && p.channel == [];
    hide *;
    var ship, shipped := Ship(c, start, end, p, 0, emit);
    RunKeeps(c, start, end, p, ship, shipped);
    NothingBefore(shipped.channel, p.channel, AllItems(p.jobs, emit));
    var rest, r := LosesAt(c, start, end, shipped, h);
    RunsOn(c, start, end, p, ship, shipped, rest, r);
    NothingPasses(rest, emit);
    SendsConcat(ship, rest, emit);
    actions, q := ship + rest, r;
  }

  lemma NothingBefore(all: seq<Arrival>, none: seq<Arrival>, items: seq<Arrival>)
    requires all == none + items && none == []
    ensures all == items
  {
  }

  ghost predicate AllIdle(p: Pipe) {
    forall w :: 0 <= w < |p.workers| ==> p.workers[w].Idle?
  }

  lemma JobLies(start: int, end: int, p: Pipe, i: nat)
    requires Sound(start, end, p) && i < |p.jobs|
    ensures start <= p.jobs[i].start && p.jobs[i].end <= end
  {
  }

  /** What a worker sends for all jobs: every height in order, and h without its block. */
  lemma SentBlockless(start: int, end: int, p: Pipe, logs: seq<Log>, node: int -> Option<Block>, i: nat, h: int)
    requires Answers(node, start, end) && Sound(start, end, p) && Tiles(p.jobs, start, end) && start <= end
    requires i < |p.jobs| && p.jobs[i].start <= h < p.jobs[i].end && LogsOf(logs, h) == []
    ensures Emits(p.jobs, FromNode(logs, node)) && start <= h < end
    ensures InOrder(AllItems(p.jobs, FromNode(logs, node)), start, end)
    ensures AllItems(p.jobs, FromNode(logs, node))[h - start].data.block.None?
  {
    hide *;
    JobLies(start, end, p, i);
    NodeEmitsAll(start, end, p, logs, node);
    JobItem(p.jobs[i], logs, node, h - p.jobs[i].start);
    TiledItems(p.jobs, FromNode(logs, node), start, end);
    ItemOf(p.jobs, FromNode(logs, node), start, end, i, h);
    assert ItemAt(h, p.jobs[i].end, logs, node).block.None? by { NotAskedFor(h, p.jobs[i].end, logs, node); }
  }

  lemma NotAskedFor(h: int, end: int, logs: seq<Log>, node: int -> Option<Block>)
    requires h < end && LogsOf(logs, h) == []
    ensures ItemAt(h, end, logs, node).block.None?
  {
  }

  lemma NodeEmitsAll(start: int, end: int, p: Pipe, logs: seq<Log>, node: int -> Option<Block>)
    requires Answers(node, start, end) && Sound(start, end, p)
    ensures Emits(p.jobs, FromNode(logs, node))
  {
    var emit := FromNode(logs, node);
    forall k | 0 <= k < |p.jobs| ensures EmitsAll(p.jobs[k], emit(p.jobs[k])) {
      NodeEmits(p.jobs[k], logs, node, start, end);
    }
  }

  /** Everything has been sent, in order, and the result for h has no block. */
  lemma {:induction false} LosesAt(c: Config, start: int, end: int, p: Pipe, h: int)
    returns (actions: seq<Action>, q: Pipe)
    requires AlwaysOk(c) && end - start <= BufferLimit(c) && Sound(start, end, p) && Complete(start, end, p)
    requires p.seen == {} && p.sequencer == Init(start) && InOrder(p.channel, start, end) && start <= h < end
    requires p.jobs == [] && AllIdle(p)
    requires p.channel[h - start].data.block.None?
    ensures Runs(c, start, end, p, actions, q) && OnlyReceives(actions)
    ensures Quiescent(q) && !E.AllCarry(q.sequencer.ledger)
  {
    hide *;
    var first, r := UpTo(c, start, end, p, h);
    var pair, t := TakesPair(c, start, end, p, r, h);
    var last, u := Receive(c, start, end, t, |t.channel|);
    RunKeeps(c, start, end, t, last, u);
    DeliveredStays(c, start, end, t, last, u);
    RunsOn(c, start, end, p, first, r, [pair], t);
    RunsOn(c, start, end, p, first + [pair], t, last, u);
    ReceivesConcat(first, [pair]);
    ReceivesConcat(first + [pair], last);
    actions, q := first + [pair] + last, u;
    NoneLeft(t.channel);
    AllReceived(p, u);
    LostForGood(r.sequencer.ledger, t.sequencer.ledger, u.sequencer.ledger);
  }

  lemma NoneLeft(items: seq<Arrival>)
    ensures items[|items|..] == []
  {
  }

  lemma AllReceived(p: Pipe, q: Pipe)
    requires p.jobs == [] && AllIdle(p)
    requires q.jobs == p.jobs && q.workers == p.workers && q.channel == []
    ensures Quiescent(q)
  {
  }

  ghost predicate LostAt(before: seq<Entry>, after: seq<Entry>) {
    var n := |DeliveredData(before)|;
    n < |DeliveredData(after)| && DeliveredData(after)[n].0.block.None?
  }

  lemma LostForGood(before: seq<Entry>, after: seq<Entry>, later: seq<Entry>)
    requires LostAt(before, after) && DeliveredData(after) <= DeliveredData(later)
    ensures !E.AllCarry(later)
  {
    if E.AllCarry(later) { CarriedData(later, |DeliveredData(before)|); }
  }

  /** The result for h and the next one are received together. */
  lemma TakesPair(c: Config, start: int, end: int, p: Pipe, r: Pipe, h: int) returns (pair: Action, t: Pipe)
    requires AlwaysOk(c) && start <= h < end && end - start <= BufferLimit(c) && Sound(start, end, r) &&
      Complete(start, end, r)
    requires InOrder(p.channel, start, end) && p.channel[h - start].data.block.None?
    requires r.channel == p.channel[h - start..] && r.jobs == p.jobs && r.workers == p.workers &&
      r.sequencer.expected == h
    ensures Runs(c, start, end, r, [pair], t) && OnlyReceives([pair]) && Sound(start, end, t) && Complete(start, end, t)
    ensures AllClean(t.channel) && t.jobs == p.jobs && t.workers == p.workers
    ensures LostAt(r.sequencer.ledger, t.sequencer.ledger)
  {
    var a, b := r.channel[0], r.channel[1];
    assert a == p.channel[h - start] && b == p.channel[h - start + 1];
    assert r.channel[..2] == [a, b];
    PairIsCommitted(c, r.sequencer, a, b);
    hide HandleBatch;
    pair := Consume(2, [a, b]);
    RunsOne(c, start, end, r, pair);
    StepKeeps(c, start, end, r, pair);
    t := Apply(c, start, end, r, pair);
  }

  /** Every run that comes to rest, whose workers send what the node gives and in which nothing is fetched again,
      delivers every height with its block. */
  ghost predicate AlwaysCarries(c: Config, start: int, end: int, p: Pipe, logs: seq<Log>, node: int -> Option<Block>) {
    forall actions, q :: Runs(c, start, end, p, actions, q) ==>
      (NoRefetch(actions) && SendsOnly(actions, FromNode(logs, node)) && Quiescent(q) ==>
        E.AllCarry(q.sequencer.ledger))
  }

  /** Whether every run delivers every block is decided by the jobs and the logs: it does exactly if every height of
      every job has logs or ends its job. */
  lemma {:induction false} CarriesIffFetched(c: Config, start: int, end: int, p: Pipe, logs: seq<Log>,
                                             node: int -> Option<Block>)
    requires AlwaysOk(c) && start <= end && end - start <= BufferLimit(c) && Answers(node, start, end)
    requires Initial(start, end, p) && p.workers != []
    ensures AlwaysCarries(c, start, end, p, logs, node) <==> AllFetched(p.jobs, logs)
  {
    if AllFetched(p.jobs, logs) {
      forall actions, q | Runs(c, start, end, p, actions, q) && NoRefetch(actions) &&
        SendsOnly(actions, FromNode(logs, node)) && Quiescent(q)
        ensures E.AllCarry(q.sequencer.ledger)
      {
        FetchedIsCarried(c, start, end, p, actions, q, logs, node);
      }
    } else {
      var i: nat :| i < |p.jobs| && !Fetched(p.jobs[i], logs);
      var h :| p.jobs[i].start <= h <= p.jobs[i].end && h != p.jobs[i].end && LogsOf(logs, h) == [];
      var actions, q := UnfetchedIsLost(c, start, end, p, logs, node, i, h);
    }
  }
}
