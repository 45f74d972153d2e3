// From scheduled jobs to rows in the block table: the pipeline composed with the writer.
module EndToEnd {
  import opened Blocks
  import opened SequencerModel
  import opened SequencerDrain
  import opened SequencerOrder
  import opened SequencerLedger
  import C = ParentCheck
  import F = Fetching
  import P = Pipeline
  import W = AsyncWriterModel

  /** A delivered result that carries a block carries the block of the height under which it was delivered. */
  ghost predicate Coherent(ledger: seq<Entry>) {
    forall i :: 0 <= i < |ledger| && ledger[i].Delivered? && ledger[i].data.block.Some? ==>
      ledger[i].data.block.value.number == ledger[i].number
  }

  lemma {:induction false} DrainCoherent(c: Config, s: State)
    requires Keyed(s) && Coherent(s.ledger)
    ensures Coherent(DrainLoop(c, s).ledger)
    decreases |s.buffer|
  {
    if s.expected in s.buffer {
      DrainTakes(c, s);
      if TakeNext(c, s).1.Ok? { DrainCoherent(c, TakeNext(c, s).0); }
    }
  }

  lemma PlaceCoherent(c: Config, s: State, n: int, d: BlockData)
    requires Keyed(s) && Coherent(s.ledger) && PositionOf(d) == Some(n)
    ensures Coherent(Place(c, s, n, d).0.ledger)
  {
    if n == s.expected {
      DrainCoherent(c, ProcessSequential(c, s, d).0);
    } else if n > s.expected {
      var wide := s.(buffer := s.buffer[n := d]);
      assert n in wide.buffer.Keys;
      var m := MinKey(wide.buffer.Keys);
      DrainCoherent(c, wide.(expected := m, ledger := s.ledger + [Skipped(Overflow, s.expected, m)]));
    }
  }

  lemma {:induction false} HandleAllCoherent(c: Config, s: State, batch: seq<Arrival>)
    requires Keyed(s) && Coherent(s.ledger) && AllClean(batch)
    ensures Coherent(HandleAll(c, s, batch).0.ledger)
    decreases |batch|
  {
    if batch != [] {
      CleanIsPlaced(c, s, batch[0]);
      PlaceCoherent(c, s, HeightOf(batch[0]), Hydrate(batch[0]));
      HandleBlockAccounts(c, s, batch[0]);
      HandleAllCoherent(c, HandleBlock(c, s, batch[0]).0, batch[1..]);
    }
  }

  lemma HandleRunCoherent(c: Config, s: State, batch: seq<Arrival>, i: nat, j: nat)
    requires Keyed(s) && Coherent(s.ledger) && AllClean(batch) && i < j <= |batch|
    requires forall k :: i <= k < j ==> KeyOf(batch[k].data) == Some(s.expected + (k - i))
    ensures Coherent(HandleRun(c, s, batch, i, j).0.ledger)
  {
    if j == i + 1 {
      HandleAllCoherent(c, s, batch[i..] + batch[..i]);
    } else {
      var run := DataOf(batch[i..j]);
      var u := CommitRun(s, run);
      assert Coherent(u.ledger) by {
        forall k | 0 <= k < |run| ensures run[k].block.Some? ==> run[k].block.value.number == s.expected + k {
          assert Clean(batch[i + k]);
        }
      }
      DrainCoherent(c, u);
      DrainAccounts(c, u);
      HandleAllCoherent(c, Drain(c, u), batch[j..] + batch[..i]);
    }
  }

  lemma HandleBatchCoherent(c: Config, s: State, batch: seq<Arrival>)
    requires Keyed(s) && Coherent(s.ledger) && AllClean(batch)
    ensures Coherent(HandleBatch(c, s, batch).0.ledger)
  {
    hide HandleAll;
    hide HandleRun;
    var p := PauseIfHigh(c, s);
    assert Keyed(p) && Coherent(p.ledger);
    var i := RunStart(p, batch, 0);
    if i == |batch| {
      HandleAllCoherent(c, p, batch);
    } else {
      HandleRunCoherent(c, p, batch, i, RunEnd(batch, i + 1, s.expected + 1));
    }
  }

  lemma {:induction false} PipelineCoherent(c: Config, start: int, end: int, p: P.Pipe, actions: seq<P.Action>,
                                            q: P.Pipe)
    requires AlwaysOk(c) && start <= end && end - start <= BufferLimit(c)
    requires P.Sound(start, end, p) && P.Complete(start, end, p) && P.Runs(c, start, end, p, actions, q)
    requires Coherent(p.sequencer.ledger)
    ensures Coherent(q.sequencer.ledger)
    decreases |actions|
  {
    if actions != [] {
      var a := actions[0];
      P.StepKeeps(c, start, end, p, a);
      if a.Consume? {
        P.SameItems(a.batch, p.channel[..a.n], start, end);
        HandleBatchCoherent(c, p.sequencer, a.batch);
      }
      PipelineCoherent(c, start, end, P.Apply(c, start, end, p, a), actions[1..], q);
    }
  }

  // --- persist tasks ---

  /** The persist tasks of what was delivered; a result without a block yields none. */
  function TasksOf(ledger: seq<Entry>): seq<W.Task>
    decreases |ledger|
  {
    if ledger == [] then [] else
    var last := ledger[|ledger| - 1];
    TasksOf(ledger[..|ledger| - 1]) +
      if last.Delivered? && last.data.block.Some? && last.data.block.value.number >= 0
      then [W.Task(last.data.block.value.number, last.data.block.value)] else []
  }

  predicate Carries(e: Entry) {
    e.Delivered? && e.data.block.Some?
  }

  ghost predicate AllCarry(ledger: seq<Entry>) {
    forall i :: 0 <= i < |ledger| ==> Carries(ledger[i])
  }

  ghost predicate HasHeight(tasks: seq<W.Task>, h: nat) {
    exists i :: 0 <= i < |tasks| && tasks[i].height == h
  }

  /** A delivered height has a task exactly when its result carried a block. */
  lemma {:induction false} TaskHeights(start: nat, ledger: seq<Entry>, to: int, h: nat)
    requires Delivers([], start, ledger, to) && Coherent(ledger)
    ensures HasHeight(TasksOf(ledger), h) <==> start <= h < to && Carries(ledger[h - start])
    decreases |ledger|
  {
    if ledger != [] {
      var n := |ledger| - 1;
      var front, tasks, before := ledger[..n], TasksOf(ledger), TasksOf(ledger[..n]);
      TaskHeights(start, front, to - 1, h);
      if i :| 0 <= i < |before| && before[i].height == h { assert tasks[i].height == h; }
      if i :| 0 <= i < |tasks| && tasks[i].height == h { assert i < |before| ==> before[i].height == h; }
      if h == to - 1 && Carries(ledger[n]) { assert tasks[|before|].height == h; }
    }
  }

  lemma {:induction false} CarriedTasks(start: nat, ledger: seq<Entry>, to: int)
    requires Delivers([], start, ledger, to) && Coherent(ledger) && AllCarry(ledger)
    ensures |TasksOf(ledger)| == to - start && W.Consecutive(TasksOf(ledger), start)
    decreases |ledger|
  {
    if ledger != [] {
      var n := |ledger| - 1;
      assert Carries(ledger[n]);
      CarriedTasks(start, ledger[..n], to - 1);
    }
  }

  /** End to end: a quiescent pipeline that was asked for [start, end] hands its deliveries to a writer that
      accepted all their tasks, has flushed everything and lost no flush.  Then every height of the range has a row
      exactly when every delivered result carried its block, and in that case checkpoint and watermark equal `end`. */
  lemma RangeBecomesDurable(c: Config, start: nat, end: int, p: P.Pipe, actions: seq<P.Action>, q: P.Pipe,
                            wc: W.Config, events: seq<W.Event>)
    requires AlwaysOk(c) && start <= end && end - start <= BufferLimit(c)
    requires P.Initial(start, end, p) && P.Runs(c, start, end, p, actions, q) && P.Quiescent(q)
    requires !wc.ephemeral
    requires AllCommitted(W.AfterEvents(wc, W.Init(), events), TasksOf(q.sequencer.ledger))
    ensures var w := W.AfterEvents(wc, W.Init(), events);
      && (HasRows(w.store.blocks, start, end + 1) <==> AllCarry(q.sequencer.ledger))
      && (AllCarry(q.sequencer.ledger) ==>
        w.store.watermark == end && w.store.checkpoints == map[wc.chainId := w.store.watermark])
  {
    var ledger := q.sequencer.ledger;
    P.InitialKeeps(start, end, p);
    PipelineCoherent(c, start, end, p, actions, q);
    P.PipelineDelivers(c, start, end, p, actions, q);
    WriterHolds(start, ledger, end + 1, wc, events);
  }

  /** Everything offered was accepted, flushed and committed. */
  ghost predicate AllCommitted(w: W.Writer, tasks: seq<W.Task>) {
    w.accepted == tasks && w.batch == [] && w.queue == [] && forall i :: 0 <= i < |w.flushes| ==> w.flushes[i].rows
  }

  /** Every height from start to to - 1 has a row. */
  ghost predicate HasRows(blocks: map<nat, Block>, start: nat, to: int) {
    forall h: nat :: start <= h < to ==> h in blocks
  }

  lemma RowsIffCarried(start: nat, ledger: seq<Entry>, to: int, blocks: map<nat, Block>)
    requires start <= to && |ledger| == to - start
    requires forall h: nat :: h in blocks <==> start <= h < to && Carries(ledger[h - start])
    ensures HasRows(blocks, start, to) <==> AllCarry(ledger)
  {
    if HasRows(blocks, start, to) {
      forall i | 0 <= i < |ledger| ensures Carries(ledger[i]) { assert start + i in blocks; }
    }
    if AllCarry(ledger) {
      forall h: nat | start <= h < to ensures h in blocks { assert Carries(ledger[h - start]); }
    }
  }

  lemma AllAreInserted(wc: W.Config, w: W.Writer, tasks: seq<W.Task>)
    requires W.Conserves(w) && W.Recorded(wc, w) && AllCommitted(w, tasks)
    ensures W.Flushed(w.flushes) == W.Persisted(w.flushes) == tasks && w.store.blocks == W.InsertAll(map[], tasks)
  {
    W.AllPersisted(w.flushes);
  }

  lemma WriterHolds(start: nat, ledger: seq<Entry>, to: int, wc: W.Config, events: seq<W.Event>)
    requires Delivers([], start, ledger, to) && Coherent(ledger) && start < to && !wc.ephemeral
    requires AllCommitted(W.AfterEvents(wc, W.Init(), events), TasksOf(ledger))
    ensures var w := W.AfterEvents(wc, W.Init(), events);
      && (HasRows(w.store.blocks, start, to) <==> AllCarry(ledger))
      && (AllCarry(ledger) ==>
        w.store.watermark == to - 1 && w.store.checkpoints == map[wc.chainId := w.store.watermark])
  {
    var w := W.AfterEvents(wc, W.Init(), events);
    W.RunConserves(wc, events);
    hide W.AfterEvents;
    RowsHeld(start, ledger, to, wc, w);
    if AllCarry(ledger) { EndIsCheckpoint(start, ledger, to, wc, w); }
  }

  lemma RowsHeld(start: nat, ledger: seq<Entry>, to: int, wc: W.Config, w: W.Writer)
    requires Delivers([], start, ledger, to) && Coherent(ledger) && start < to
    requires W.Conserves(w) && W.Recorded(wc, w) && AllCommitted(w, TasksOf(ledger))
    ensures HasRows(w.store.blocks, start, to) <==> AllCarry(ledger)
  {
    var tasks := TasksOf(ledger);
    AllAreInserted(wc, w, tasks);
    forall h: nat ensures h in w.store.blocks <==> start <= h < to && Carries(ledger[h - start]) {
      W.KeysInserted(tasks, h);
      TaskHeights(start, ledger, to, h);
    }
    RowsIffCarried(start, ledger, to, w.store.blocks);
  }

  lemma EndIsCheckpoint(start: nat, ledger: seq<Entry>, to: int, wc: W.Config, w: W.Writer)
    requires Delivers([], start, ledger, to) && Coherent(ledger) && AllCarry(ledger) && start < to && !wc.ephemeral
    requires W.Conserves(w) && W.Recorded(wc, w) && AllCommitted(w, TasksOf(ledger))
    ensures w.store.watermark == to - 1 && w.store.checkpoints == map[wc.chainId := w.store.watermark]
  {
    AllAreInserted(wc, w, TasksOf(ledger));
    CarriedTasks(start, ledger, to);
    W.CommittedLast(wc, w.store, w.flushes, start);
  }

  // --- results without a block are the normal case ---

  lemma FirstWithoutBlock(start: nat, blocks: seq<BlockData>)
    requires blocks != [] && blocks[0].block.None?
    requires forall k :: 0 <= k < |blocks| ==> KeyOf(blocks[k]) == Some(start + k)
    requires forall k :: 0 <= k < |blocks| && blocks[k].block.Some? ==> blocks[k].block.value.number == start + k
    ensures var t := CommitRun(Init(start), blocks);
      Delivers([], start, t.ledger, start + |blocks|) && !HasHeight(TasksOf(t.ledger), start)
  {
    var t := CommitRun(Init(start), blocks);
    CommitDelivers(Init(start), blocks);
    assert t.ledger == Deliveries(start, blocks);
    TaskHeights(start, t.ledger, t.expected, start);
  }

  /** A job of two or more heights without logs, received as one batch, is delivered in full, and its first height
      gets no task, because the fetcher only asks for the last block of such a job and the batch is not hydrated. */
  lemma QuietJobLosesRows(c: Config, job: F.Job, node: int -> Option<Block>)
    requires AlwaysOk(c) && 0 <= job.start < job.end
    requires forall h :: node(h).Some? && node(h).value.number == h
    ensures var batch := P.Arrivals(F.Emission(job.start, job.end, job.end, [], node), node);
      var t := HandleBatch(c, Init(job.start), batch).0;
      && Delivers([], job.start, t.ledger, job.end + 1)
      && !HasHeight(TasksOf(t.ledger), job.start)
  {
    hide HandleBatch;
    var items := F.Emission(job.start, job.end, job.end, [], node);
    var batch := P.Arrivals(items, node);
    P.FetchedJobEmitsAll(job, [], node);
    F.EmissionAt(job.start, job.end, job.end, [], node);
    assert items[0] == F.ItemAt(job.start, job.end, [], node);
    C.FreshBatch(c, job.start, batch);
    assert DataOf(batch) == items;
    forall k | 0 <= k < |items|
      ensures KeyOf(items[k]) == Some(job.start + k) &&
        (items[k].block.Some? ==> items[k].block.value.number == job.start + k)
    {
      assert Clean(batch[k]) && HeightOf(batch[k]) == job.start + k;
    }
    FirstWithoutBlock(job.start, items);
  }
}
