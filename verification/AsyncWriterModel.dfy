// The persistence queue: what one event does, and what holds after any number of them.
module AsyncWriterModel {
  import opened Blocks

  datatype Task = Task(height: nat, block: Block)

  /** The step of the flush transaction that fails, if any.  A statement the server refuses makes the commit fail;
      an insert that fails before it is sent does not, and the transaction goes on without its rows. */
  datatype Fault = NoFault | BeginFails | InsertUnsent | StatementFails | CommitFails

  datatype Config = Config(capacity: nat, batchSize: nat, ephemeral: bool, chainId: int)

  /** One slice handed to flush, whether its transaction was committed, and whether its rows were in it. */
  datatype Flush = Flush(tasks: seq<Task>, committed: bool, rows: bool)

  datatype Store = Store(blocks: map<nat, Block>, checkpoints: map<int, nat>, watermark: nat, commits: seq<nat>)

  datatype Writer = Writer(queue: seq<Task>, batch: seq<Task>, cooling: bool, store: Store, accepted: seq<Task>,
    flushes: seq<Flush>)

  /** One turn of the writer's loop, or something done to it: a task is offered, a task is received (with the faults its
      flush and the emergency flush would meet), the flush timer fires, the cooldown of the emergency drain ends. */
  datatype Event = Offer(task: Task) | Receive(fault: Fault, drainFault: Fault) | Timer(fault: Fault) | CooldownOver

  function Init(): Writer {
    Writer([], [], false, Store(map[], map[], 0, []), [], [])
  }

  function MaxHeight(tasks: seq<Task>): nat
    decreases |tasks|
  {
    if tasks == [] then 0 else
    var m, h := MaxHeight(tasks[..|tasks| - 1]), tasks[|tasks| - 1].height;
    if h > m then h else m
  }

  /** Insertion of rows in order; a row that is already there stays. */
  function InsertAll(blocks: map<nat, Block>, tasks: seq<Task>): map<nat, Block>
    decreases |tasks|
  {
    if tasks == [] then blocks else
    var before, last := InsertAll(blocks, tasks[..|tasks| - 1]), tasks[|tasks| - 1];
    if last.height in before then before else before[last.height := last.block]
  }

  function Persist(c: Config, s: Store, tasks: seq<Task>): Store {
    var h := MaxHeight(tasks);
    Store(InsertAll(s.blocks, tasks), s.checkpoints[c.chainId := h], h, s.commits + [h])
  }

  /** The transaction without the rows: the checkpoint and all that follows from it. */
  function Advance(c: Config, s: Store, tasks: seq<Task>): Store {
    Persist(c, s, tasks).(blocks := s.blocks)
  }

  function FlushTasks(c: Config, w: Writer, tasks: seq<Task>, fault: Fault): Writer {
    if tasks == [] then w
    else if c.ephemeral then
      w.(store := w.store.(watermark := MaxHeight(tasks), commits := w.store.commits + [MaxHeight(tasks)]),
         flushes := w.flushes + [Flush(tasks, false, false)])
    else match fault
    case NoFault => w.(store := Persist(c, w.store, tasks), flushes := w.flushes + [Flush(tasks, true, true)])
    case InsertUnsent => w.(store := Advance(c, w.store, tasks), flushes := w.flushes + [Flush(tasks, true, false)])
    case _ => w.(flushes := w.flushes + [Flush(tasks, false, false)])
  }

  /** How many queued tasks exceed half of the queue's capacity. */
  function Excess(c: Config, queued: nat): (n: nat)
    ensures n <= queued
  {
    var target := c.capacity * 50 / 100;
    if queued > target then queued - target else 0
  }

  function EmergencyDrain(c: Config, w: Writer, fault: Fault): Writer {
    if w.cooling then w else
    var n := Excess(c, |w.queue|);
    FlushTasks(c, w.(cooling := true, queue := w.queue[n..]), w.queue[..n], fault)
  }

  function ReceiveTask(c: Config, w: Writer, fault: Fault, drainFault: Fault): Writer
    requires w.queue != []
  {
    var task, rest := w.queue[0], w.queue[1..];
    var grown := w.batch + [task];
    if |rest| > c.capacity * 75 / 100 then
      EmergencyDrain(c, FlushTasks(c, w.(queue := rest, batch := []), grown, fault), drainFault)
    else if |grown| >= c.batchSize then FlushTasks(c, w.(queue := rest, batch := []), grown, fault)
    else w.(queue := rest, batch := grown)
  }

  function Step(c: Config, w: Writer, e: Event): Writer {
    match e
    case Offer(task) =>
      if |w.queue| < c.capacity then w.(queue := w.queue + [task], accepted := w.accepted + [task]) else w
    case Receive(fault, drainFault) => if w.queue == [] then w else ReceiveTask(c, w, fault, drainFault)
    case Timer(fault) => FlushTasks(c, w.(batch := []), w.batch, fault)
    case CooldownOver => w.(cooling := false)
  }

  function AfterEvents(c: Config, w: Writer, events: seq<Event>): Writer
    decreases |events|
  {
    if events == [] then w else Step(c, AfterEvents(c, w, events[..|events| - 1]), events[|events| - 1])
  }

  // --- conservation ---

  function Flushed(flushes: seq<Flush>): seq<Task>
    decreases |flushes|
  {
    if flushes == [] then [] else Flushed(flushes[..|flushes| - 1]) + flushes[|flushes| - 1].tasks
  }

  function Persisted(flushes: seq<Flush>): seq<Task>
    decreases |flushes|
  {
    if flushes == [] then [] else
    Persisted(flushes[..|flushes| - 1]) + if flushes[|flushes| - 1].rows then flushes[|flushes| - 1].tasks else []
  }

  ghost predicate Conserves(w: Writer) {
    Flushed(w.flushes) + w.batch + w.queue == w.accepted
  }

  /** The tables hold what was committed, first write first, and the checkpoint and watermark are the top of the
      last commit. */
  ghost predicate Recorded(c: Config, w: Writer) {
    && w.store.blocks == InsertAll(map[], Persisted(w.flushes))
    && (forall i :: 0 <= i < |w.flushes| ==> w.flushes[i].tasks != [])
    && RowsCommitted(w.flushes)
    && (!c.ephemeral ==> LastCommit(c, w.store, w.flushes))
    && (c.ephemeral ==> w.store.checkpoints == map[])
  }

  ghost predicate RowsCommitted(flushes: seq<Flush>) {
    forall i :: 0 <= i < |flushes| ==> (flushes[i].rows ==> flushes[i].committed)
  }

  ghost predicate Kept(c: Config, w: Writer) {
    Conserves(w) && Recorded(c, w)
  }

  ghost predicate LastCommit(c: Config, s: Store, flushes: seq<Flush>)
    decreases |flushes|
  {
    if flushes == [] then s.checkpoints == map[] && s.watermark == 0 else
    var last := flushes[|flushes| - 1];
    if last.committed
    then s.checkpoints == map[c.chainId := MaxHeight(last.tasks)] && s.watermark == MaxHeight(last.tasks)
    else LastCommit(c, s, flushes[..|flushes| - 1])
  }

  lemma {:induction false} InsertAppends(blocks: map<nat, Block>, a: seq<Task>, b: seq<Task>)
    ensures InsertAll(blocks, a + b) == InsertAll(InsertAll(blocks, a), b)
    decreases |b|
  {
    if b == [] {
      assert a + b == a;
    } else {
      var front := b[..|b| - 1];
      assert (a + b)[..|a + b| - 1] == a + front;
      InsertAppends(blocks, a, front);
    }
  }

  lemma FlushesSnoc(flushes: seq<Flush>, f: Flush)
    ensures Flushed(flushes + [f]) == Flushed(flushes) + f.tasks
    ensures Persisted(flushes + [f]) == Persisted(flushes) + if f.rows then f.tasks else []
  {
    assert (flushes + [f])[..|flushes|] == flushes;
  }

  lemma CommitKeeps(c: Config, w: Writer, tasks: seq<Task>, rows: bool)
    requires Recorded(c, w) && !c.ephemeral && tasks != []
    ensures Recorded(c, w.(store := if rows then Persist(c, w.store, tasks) else Advance(c, w.store, tasks),
                           flushes := w.flushes + [Flush(tasks, true, rows)]))
  {
    hide InsertAll;
    hide MaxHeight;
    FlushesSnoc(w.flushes, Flush(tasks, true, rows));
    InsertAppends(map[], Persisted(w.flushes), tasks);
    CheckpointKeys(c, w.store, w.flushes);
    assert Persisted(w.flushes) + [] == Persisted(w.flushes);
  }

  lemma LossKeeps(c: Config, w: Writer, t: Writer, tasks: seq<Task>)
    requires Recorded(c, w) && tasks != []
    requires t.flushes == w.flushes + [Flush(tasks, false, false)]
    requires t.store.blocks == w.store.blocks && t.store.checkpoints == w.store.checkpoints
    requires !c.ephemeral ==> t.store == w.store
    ensures Recorded(c, t)
  {
    FlushesSnoc(w.flushes, Flush(tasks, false, false));
    assert t.flushes[..|w.flushes|] == w.flushes;
    assert Persisted(t.flushes) == Persisted(w.flushes);
  }

  lemma FlushKeeps(c: Config, w: Writer, tasks: seq<Task>, fault: Fault)
    requires Recorded(c, w)
    ensures Recorded(c, FlushTasks(c, w, tasks, fault))
    ensures Flushed(FlushTasks(c, w, tasks, fault).flushes) == Flushed(w.flushes) + tasks
  {
    if tasks != [] {
      var t := FlushTasks(c, w, tasks, fault);
      FlushesSnoc(w.flushes, t.flushes[|w.flushes|]);
      if !c.ephemeral && (fault.NoFault? || fault.InsertUnsent?) {
        CommitKeeps(c, w, tasks, fault.NoFault?);
      } else {
        LossKeeps(c, w, t, tasks);
      }
    }
  }

  lemma {:induction false} CheckpointKeys(c: Config, s: Store, flushes: seq<Flush>)
    requires LastCommit(c, s, flushes)
    ensures s.checkpoints.Keys <= {c.chainId}
    decreases |flushes|
  {
    if flushes != [] && !flushes[|flushes| - 1].committed { CheckpointKeys(c, s, flushes[..|flushes| - 1]); }
  }

  lemma OfferKeeps(c: Config, w: Writer, task: Task)
    requires Kept(c, w)
    ensures Kept(c, w.(queue := w.queue + [task], accepted := w.accepted + [task]))
  {
    assert Flushed(w.flushes) + w.batch + (w.queue + [task]) == Flushed(w.flushes) + w.batch + w.queue + [task];
  }

  lemma TimerKeeps(c: Config, w: Writer, fault: Fault)
    requires Kept(c, w)
    ensures Kept(c, FlushTasks(c, w.(batch := []), w.batch, fault))
  {
    var u := w.(batch := []);
    assert Recorded(c, u);
    FlushKeeps(c, u, w.batch, fault);
    assert Flushed(w.flushes) + w.batch + [] + w.queue == Flushed(w.flushes) + w.batch + w.queue;
  }

  lemma StepKeeps(c: Config, w: Writer, e: Event)
    requires Kept(c, w)
    ensures Kept(c, Step(c, w, e))
  {
    match e
    case Offer(task) => OfferKeeps(c, w, task);
    case Receive(fault, drainFault) => if w.queue != [] { ReceiveKeeps(c, w, fault, drainFault); }
    case Timer(fault) => TimerKeeps(c, w, fault);
    case CooldownOver =>
  }

  lemma Regroup(f: seq<Task>, queue: seq<Task>, n: nat)
    requires n <= |queue|
    ensures f + queue[..n] + [] + queue[n..] == f + [] + queue
  {
  }

  lemma DrainKeeps(c: Config, w: Writer, fault: Fault)
    requires Conserves(w) && Recorded(c, w) && w.batch == []
    ensures Conserves(EmergencyDrain(c, w, fault)) && Recorded(c, EmergencyDrain(c, w, fault))
  {
    if !w.cooling {
      var n := Excess(c, |w.queue|);
      var u := w.(cooling := true, queue := w.queue[n..]);
      assert Recorded(c, u);
      FlushKeeps(c, u, w.queue[..n], fault);
      Regroup(Flushed(w.flushes), w.queue, n);
    }
  }

  lemma FlushConserves(c: Config, w: Writer, task: Task, fault: Fault)
    requires Recorded(c, w) && w.queue != [] && task == w.queue[0] && Conserves(w)
    ensures var u := FlushTasks(c, w.(queue := w.queue[1..], batch := []), w.batch + [task], fault);
      Conserves(u) && Recorded(c, u) && u.batch == []
  {
    var u := w.(queue := w.queue[1..], batch := []);
    assert Recorded(c, u);
    FlushKeeps(c, u, w.batch + [task], fault);
    assert Flushed(w.flushes) + (w.batch + [task]) + [] + w.queue[1..] == Flushed(w.flushes) + w.batch + w.queue;
  }

  lemma BatchGrows(c: Config, w: Writer)
    requires Conserves(w) && Recorded(c, w) && w.queue != []
    ensures Kept(c, w.(queue := w.queue[1..], batch := w.batch + [w.queue[0]]))
  {
    assert Flushed(w.flushes) + (w.batch + [w.queue[0]]) + w.queue[1..] == Flushed(w.flushes) + w.batch + w.queue;
  }

  lemma ReceiveKeeps(c: Config, w: Writer, fault: Fault, drainFault: Fault)
    requires Kept(c, w) && w.queue != []
    ensures Kept(c, ReceiveTask(c, w, fault, drainFault))
  {
    hide FlushTasks;
    hide Recorded;
    hide Flushed;
    FlushConserves(c, w, w.queue[0], fault);
    BatchGrows(c, w);
    var u := FlushTasks(c, w.(queue := w.queue[1..], batch := []), w.batch + [w.queue[0]], fault);
    assert Kept(c, u);
    DrainKeeps(c, u, drainFault);
    assert Kept(c, EmergencyDrain(c, u, drainFault));
  }

  /** Conservation over every run: what was passed to flush, then the batch, then the queue, is exactly what was
      accepted, in order; and tables, checkpoint and watermark are those of the committed flushes. */
  lemma {:induction false} RunConserves(c: Config, events: seq<Event>)
    ensures Conserves(AfterEvents(c, Init(), events)) && Recorded(c, AfterEvents(c, Init(), events))
    decreases |events|
  {
    if events != [] {
      var front := events[..|events| - 1];
      RunConserves(c, front);
      StepKeeps(c, AfterEvents(c, Init(), front), events[|events| - 1]);
    }
  }

  // --- soundness of the checkpoint ---

  ghost predicate Consecutive(tasks: seq<Task>, from: int) {
    forall i :: 0 <= i < |tasks| ==> tasks[i].height == from + i
  }

  /** Every height from `from` to the checkpoint has its row, and the row is the block of the task accepted for that
      height. */
  ghost predicate Covered(blocks: map<nat, Block>, accepted: seq<Task>, from: nat, checkpoint: int) {
    forall h: nat :: from <= h <= checkpoint ==>
      h in blocks && h - from < |accepted| && blocks[h] == accepted[h - from].block
  }

  lemma {:induction false} MaxOfConsecutive(tasks: seq<Task>, from: nat)
    requires Consecutive(tasks, from) && tasks != []
    ensures MaxHeight(tasks) == from + |tasks| - 1
    decreases |tasks|
  {
    var front := tasks[..|tasks| - 1];
    if front != [] { MaxOfConsecutive(front, from); }
  }

  lemma {:induction false} KeysInserted(tasks: seq<Task>, h: nat)
    ensures h in InsertAll(map[], tasks) <==> exists i :: 0 <= i < |tasks| && tasks[i].height == h
    decreases |tasks|
  {
    if tasks != [] {
      var n := |tasks| - 1;
      var front := tasks[..n];
      KeysInserted(front, h);
      if i :| 0 <= i < n && front[i].height == h { assert tasks[i].height == h; }
      if i :| 0 <= i < |tasks| && tasks[i].height == h { assert i == n || front[i].height == h; }
      assert tasks[n].height in InsertAll(map[], tasks);
    }
  }

  lemma {:induction false} RowsInserted(tasks: seq<Task>, from: nat, i: nat)
    requires Consecutive(tasks, from) && i < |tasks|
    ensures from + i in InsertAll(map[], tasks) && InsertAll(map[], tasks)[from + i] == tasks[i].block
    decreases |tasks|
  {
    var n := |tasks| - 1;
    if i < n {
      RowsInserted(tasks[..n], from, i);
    } else {
      KeysInserted(tasks[..n], from + n);
    }
  }

  lemma {:induction false} PersistedBelow(flushes: seq<Flush>, from: nat)
    requires Consecutive(Flushed(flushes), from)
    ensures forall k :: 0 <= k < |Persisted(flushes)| ==>
      from <= Persisted(flushes)[k].height < from + |Flushed(flushes)|
    decreases |flushes|
  {
    if flushes != [] {
      var front, last := flushes[..|flushes| - 1], flushes[|flushes| - 1];
      var all, before := Flushed(flushes), Flushed(front);
      assert forall k :: 0 <= k < |before| ==> before[k] == all[k];
      assert forall k :: 0 <= k < |last.tasks| ==> last.tasks[k] == all[|before| + k];
      PersistedBelow(front, from);
    }
  }

  /** The heights of a flush whose rows were not committed are in no other flush. */
  lemma {:induction false} LostIsMissing(flushes: seq<Flush>, from: nat, i: nat)
    requires Consecutive(Flushed(flushes), from) && i < |flushes| && !flushes[i].rows && flushes[i].tasks != []
    ensures from <= flushes[i].tasks[0].height < from + |Flushed(flushes)|
    ensures forall k :: 0 <= k < |Persisted(flushes)| ==> Persisted(flushes)[k].height != flushes[i].tasks[0].height
    decreases |flushes|
  {
    var n := |flushes| - 1;
    var front, last := flushes[..n], flushes[n];
    var all, before := Flushed(flushes), Flushed(front);
    assert forall k :: 0 <= k < |before| ==> before[k] == all[k];
    assert forall k :: 0 <= k < |last.tasks| ==> last.tasks[k] == all[|before| + k];
    if i < n {
      LostIsMissing(front, from, i);
    } else {
      PersistedBelow(front, from);
    }
  }

  lemma {:induction false} AllPersisted(flushes: seq<Flush>)
    requires forall i :: 0 <= i < |flushes| ==> flushes[i].rows
    ensures Persisted(flushes) == Flushed(flushes)
    decreases |flushes|
  {
    if flushes != [] { AllPersisted(flushes[..|flushes| - 1]); }
  }

  /** Some flush up to the last commit did not bring in its rows. */
  ghost predicate LostByCommit(flushes: seq<Flush>) {
    exists i, j :: 0 <= i <= j < |flushes| && !flushes[i].rows && flushes[j].committed
  }

  /** When the last flush was committed: all heights up to the new checkpoint have their rows unless the rows of
      some flush were lost. */
  lemma CommittedLast(c: Config, s: Store, flushes: seq<Flush>, from: nat)
    requires flushes != [] && flushes[|flushes| - 1].committed && LastCommit(c, s, flushes)
    requires Consecutive(Flushed(flushes), from) && (forall i :: 0 <= i < |flushes| ==> flushes[i].tasks != [])
    requires s.blocks == InsertAll(map[], Persisted(flushes))
    ensures s.watermark == from + |Flushed(flushes)| - 1 && s.checkpoints == map[c.chainId := s.watermark]
    ensures Covered(s.blocks, Flushed(flushes), from, s.watermark) <==> !LostByCommit(flushes)
  {
    LastIsTop(flushes, from);
    CoverIffKept(flushes, from);
  }

  lemma LastIsTop(flushes: seq<Flush>, from: nat)
    requires flushes != [] && Consecutive(Flushed(flushes), from) && flushes[|flushes| - 1].tasks != []
    ensures MaxHeight(flushes[|flushes| - 1].tasks) == from + |Flushed(flushes)| - 1
  {
    var n := |flushes| - 1;
    var all, before := Flushed(flushes), Flushed(flushes[..n]);
    assert forall k :: 0 <= k < |flushes[n].tasks| ==> flushes[n].tasks[k] == all[|before| + k];
    MaxOfConsecutive(flushes[n].tasks, from + |before|);
  }

  lemma CoverIffKept(flushes: seq<Flush>, from: nat)
    requires flushes != [] && flushes[|flushes| - 1].committed
    requires Consecutive(Flushed(flushes), from) && (forall i :: 0 <= i < |flushes| ==> flushes[i].tasks != [])
    ensures Covered(InsertAll(map[], Persisted(flushes)), Flushed(flushes), from, from + |Flushed(flushes)| - 1) <==>
      !LostByCommit(flushes)
  {
    if LostByCommit(flushes) {
      LostUncovers(flushes, from);
    } else {
      NoneLost(flushes);
      AllPersisted(flushes);
      AllCovered(Flushed(flushes), from);
    }
  }

  lemma NoneLost(flushes: seq<Flush>)
    requires flushes != [] && flushes[|flushes| - 1].committed && !LostByCommit(flushes)
    ensures forall i :: 0 <= i < |flushes| ==> flushes[i].rows
  {
    var n := |flushes| - 1;
    forall i | 0 <= i < |flushes| ensures flushes[i].rows { assert i <= n && flushes[n].committed; }
  }

  lemma AllCovered(tasks: seq<Task>, from: nat)
    requires Consecutive(tasks, from)
    ensures Covered(InsertAll(map[], tasks), tasks, from, from + |tasks| - 1)
  {
    forall h: nat | from <= h <= from + |tasks| - 1
      ensures h in InsertAll(map[], tasks) && InsertAll(map[], tasks)[h] == tasks[h - from].block
    {
      RowsInserted(tasks, from, h - from);
    }
  }

  lemma LostUncovers(flushes: seq<Flush>, from: nat)
    requires LostByCommit(flushes) && Consecutive(Flushed(flushes), from)
    requires forall i :: 0 <= i < |flushes| ==> flushes[i].tasks != []
    ensures !Covered(InsertAll(map[], Persisted(flushes)), Flushed(flushes), from, from + |Flushed(flushes)| - 1)
  {
    var i, j :| 0 <= i <= j < |flushes| && !flushes[i].rows && flushes[j].committed;
    LostIsMissing(flushes, from, i);
    KeysInserted(Persisted(flushes), flushes[i].tasks[0].height);
  }

  /** The heights up to the checkpoint all have their rows, each with the block accepted for it, exactly when no
      flush up to the last commit lost its rows. */
  lemma {:induction false} CoveredUnlessLost(c: Config, s: Store, flushes: seq<Flush>, from: nat)
    requires LastCommit(c, s, flushes) && c.chainId in s.checkpoints
    requires Consecutive(Flushed(flushes), from) && (forall i :: 0 <= i < |flushes| ==> flushes[i].tasks != [])
    requires s.blocks == InsertAll(map[], Persisted(flushes)) && RowsCommitted(flushes)
    ensures s.checkpoints == map[c.chainId := s.watermark]
    ensures Covered(s.blocks, Flushed(flushes), from, s.watermark) <==> !LostByCommit(flushes)
    decreases |flushes|
  {
    var n := |flushes| - 1;
    if flushes[n].committed {
      CommittedLast(c, s, flushes, from);
    } else {
      var front := flushes[..n];
      var all, before := Flushed(flushes), Flushed(front);
      assert forall k :: 0 <= k < |before| ==> before[k] == all[k];
      assert Persisted(flushes) == Persisted(front);
      CoveredUnlessLost(c, s, front, from);
      SameLoss(flushes);
      SameCover(c, s, front, from, all);
    }
  }

  lemma SameLoss(flushes: seq<Flush>)
    requires flushes != [] && !flushes[|flushes| - 1].committed
    ensures LostByCommit(flushes) <==> LostByCommit(flushes[..|flushes| - 1])
  {
    var front := flushes[..|flushes| - 1];
    if i, j :| 0 <= i <= j < |front| && !front[i].rows && front[j].committed {
      assert !flushes[i].rows && flushes[j].committed;
    }
    if i, j :| 0 <= i <= j < |flushes| && !flushes[i].rows && flushes[j].committed {
      assert !front[i].rows && front[j].committed;
    }
  }

  /** The checkpoint lies below the end of what was flushed, so later tasks do not matter to what it promises. */
  lemma SameCover(c: Config, s: Store, flushes: seq<Flush>, from: nat, more: seq<Task>)
    requires LastCommit(c, s, flushes) && c.chainId in s.checkpoints
    requires Consecutive(Flushed(flushes), from) && (forall i :: 0 <= i < |flushes| ==> flushes[i].tasks != [])
    requires Flushed(flushes) <= more
    ensures Covered(s.blocks, Flushed(flushes), from, s.watermark) <==> Covered(s.blocks, more, from, s.watermark)
  {
    WatermarkBelow(c, s, flushes, from);
  }

  lemma {:induction false} WatermarkBelow(c: Config, s: Store, flushes: seq<Flush>, from: nat)
    requires LastCommit(c, s, flushes) && c.chainId in s.checkpoints
    requires Consecutive(Flushed(flushes), from) && (forall i :: 0 <= i < |flushes| ==> flushes[i].tasks != [])
    ensures from <= s.watermark < from + |Flushed(flushes)|
    decreases |flushes|
  {
    var n := |flushes| - 1;
    var all, before := Flushed(flushes), Flushed(flushes[..n]);
    assert forall k :: 0 <= k < |before| ==> before[k] == all[k];
    if flushes[n].committed {
      assert forall k :: 0 <= k < |flushes[n].tasks| ==> flushes[n].tasks[k] == all[|before| + k];
      MaxOfConsecutive(flushes[n].tasks, from + |before|);
    } else {
      WatermarkBelow(c, s, flushes[..n], from);
    }
  }

  /** Checkpoint soundness over every run in which the accepted heights are consecutive: once a flush has been
      committed the checkpoint and the disk watermark are the same height h, and the block table holds, for every
      accepted height up to h, the block accepted for it, exactly when no flush up to the last commit failed or
      committed without its rows. */
  lemma CheckpointSound(c: Config, events: seq<Event>, from: nat)
    requires !c.ephemeral
    requires var w := AfterEvents(c, Init(), events);
      Consecutive(w.accepted, from) && c.chainId in w.store.checkpoints
    ensures var w := AfterEvents(c, Init(), events);
      && w.store.checkpoints == map[c.chainId := w.store.watermark]
      && from <= w.store.watermark < from + |Flushed(w.flushes)|
      && (Covered(w.store.blocks, w.accepted, from, w.store.watermark) <==> !LostByCommit(w.flushes))
  {
    var w := AfterEvents(c, Init(), events);
    RunConserves(c, events);
    var all := Flushed(w.flushes);
    assert forall k :: 0 <= k < |all| ==> all[k] == w.accepted[k];
    CoveredUnlessLost(c, w.store, w.flushes, from);
    WatermarkBelow(c, w.store, w.flushes, from);
    SameCover(c, w.store, w.flushes, from, w.accepted);
  }

  /** Two tasks for consecutive heights, each flushed alone; the first flush finds no transaction. */
  function LosingRun(first: Task, second: Task): seq<Event> {
    [Offer(first), Receive(BeginFails, NoFault), Offer(second), Receive(NoFault, NoFault)]
  }

  /** A run that loses a flush: afterwards the checkpoint is the second height, and the first, though accepted, has
      no row. */
  lemma {:induction false} LostFlushLeavesHole(c: Config, first: Task, second: Task)
    requires !c.ephemeral && c.batchSize == 1 && c.capacity > 0 && second.height == first.height + 1
    ensures var w := AfterEvents(c, Init(), LosingRun(first, second));
      && w.accepted == [first, second] && Consecutive(w.accepted, first.height)
      && w.store.checkpoints == map[c.chainId := second.height] && w.store.watermark == second.height
      && first.height !in w.store.blocks
      && LostByCommit(w.flushes)
  {
    FourEvents(c, Offer(first), Receive(BeginFails, NoFault), Offer(second), Receive(NoFault, NoFault));
    FirstHalf(c, first, second);
    var lost := [Flush([first], false, false)];
    var w := Writer([second], [], false, Init().store, [first, second], lost);
    SecondIsKept(c, w, second);
    hide *;
    LossThenCommit(first, second);
    assert Consecutive([first, second], first.height) by { NextHeight(first, second); }
  }

  lemma NextHeight(first: Task, second: Task)
    requires second.height == first.height + 1
    ensures Consecutive([first, second], first.height)
  {
  }

  /** After the first flush was lost and the second task has been queued. */
  lemma FirstHalf(c: Config, first: Task, second: Task)
    requires !c.ephemeral && c.batchSize == 1 && c.capacity > 0
    ensures Step(c, Step(c, Step(c, Init(), Offer(first)), Receive(BeginFails, NoFault)), Offer(second)) ==
      Writer([second], [], false, Init().store, [first, second], [Flush([first], false, false)])
  {
    var w1 := Writer([first], [], false, Init().store, [first], []);
    var w2 := Writer([], [], false, Init().store, [first], [Flush([first], false, false)]);
    Queued(c, Init(), first);
    assert Step(c, Init(), Offer(first)) == w1;
    FirstIsLost(c, w1, first);
    assert Step(c, w1, Receive(BeginFails, NoFault)) == w2;
    hide Step;
    Queued(c, w2, second);
    assert [first] + [second] == [first, second];
  }

  lemma LossThenCommit(first: Task, second: Task)
    ensures [Flush([first], false, false)] + [Flush([second], true, true)] ==
      [Flush([first], false, false), Flush([second], true, true)]
    ensures LostByCommit([Flush([first], false, false)] + [Flush([second], true, true)])
  {
    var flushes := [Flush([first], false, false)] + [Flush([second], true, true)];
    assert !flushes[0].rows && flushes[1].committed;
  }

  lemma EventsSnoc(c: Config, events: seq<Event>, e: Event)
    ensures AfterEvents(c, Init(), events + [e]) == Step(c, AfterEvents(c, Init(), events), e)
    ensures AfterEvents(c, Init(), []) == Init()
  {
    assert (events + [e])[..|events|] == events;
  }

  lemma FourEvents(c: Config, a: Event, b: Event, d: Event, e: Event)
    ensures AfterEvents(c, Init(), [a, b, d, e]) == Step(c, Step(c, Step(c, Step(c, Init(), a), b), d), e)
  {
    hide Step;
    EventsSnoc(c, [], a);
    EventsSnoc(c, [a], b);
    EventsSnoc(c, [a, b], d);
    EventsSnoc(c, [a, b, d], e);
    assert [] + [a] == [a] && [a] + [b] == [a, b] && [a, b] + [d] == [a, b, d] && [a, b, d] + [e] == [a, b, d, e];
  }

  lemma Queued(c: Config, w: Writer, task: Task)
    requires |w.queue| < c.capacity
    ensures Step(c, w, Offer(task)) == w.(queue := w.queue + [task], accepted := w.accepted + [task])
  {
  }

  lemma FirstIsLost(c: Config, w: Writer, task: Task)
    requires !c.ephemeral && c.batchSize == 1 && c.capacity > 0 && w.queue == [task] && w.batch == []
    ensures Step(c, w, Receive(BeginFails, NoFault)) ==
      w.(queue := [], flushes := w.flushes + [Flush([task], false, false)])
  {
    assert w.queue[1..] == [] && w.batch + [task] == [task];
  }

  lemma SecondIsKept(c: Config, w: Writer, task: Task)
    requires !c.ephemeral && c.batchSize == 1 && c.capacity > 0 && w.queue == [task] && w.batch == []
    requires w.store.blocks == map[] && w.store.checkpoints == map[]
    ensures var t := Step(c, w, Receive(NoFault, NoFault));
      && t.accepted == w.accepted && t.flushes == w.flushes + [Flush([task], true, true)]
      && t.store.blocks == map[task.height := task.block]
      && t.store.checkpoints == map[c.chainId := task.height] && t.store.watermark == task.height
  {
    assert w.queue[1..] == [] && w.batch + [task] == [task] && [task][..0] == [];
    assert InsertAll(map[], [task]) == map[task.height := task.block] && MaxHeight([task]) == task.height;
  }
}
