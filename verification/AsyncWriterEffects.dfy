// What each event does to the writer's fields, and what is persisted when, stated on queue, batch, tables and counters.
module AsyncWriterEffects {
  import opened Blocks
  import opened AsyncWriterModel

  // --- one flush ---

  /** h is the greatest height of the tasks. */
  ghost predicate Top(tasks: seq<Task>, h: nat) {
    && (exists i :: 0 <= i < |tasks| && tasks[i].height == h)
    && forall i :: 0 <= i < |tasks| ==> tasks[i].height <= h
  }

  ghost predicate IsFirst(tasks: seq<Task>, i: int) {
    0 <= i < |tasks| && forall k :: 0 <= k < i ==> tasks[k].height != tasks[i].height
  }

  /** The table has a row for every height it had and every height of the tasks; old rows stay, and a new one is the
      block of the first task for its height. */
  ghost predicate RowsAdded(before: map<nat, Block>, after: map<nat, Block>, tasks: seq<Task>) {
    && (forall h :: h in before ==> h in after && after[h] == before[h])
    && (forall i :: 0 <= i < |tasks| ==> tasks[i].height in after)
    && (forall h :: h in after && h !in before ==>
          exists i :: IsFirst(tasks, i) && tasks[i].height == h && after[h] == tasks[i].block)
  }

  /** What a slice of tasks handed to flush makes of the tables, the watermark and the heights reported. */
  ghost predicate Wrote(c: Config, s: Store, t: Store, tasks: seq<Task>, fault: Fault) {
    if tasks == [] || (!c.ephemeral && (fault.BeginFails? || fault.StatementFails? || fault.CommitFails?)) then t == s
    else
      && Top(tasks, t.watermark) && t.commits == s.commits + [t.watermark]
      && t.checkpoints == (if c.ephemeral then s.checkpoints else s.checkpoints[c.chainId := t.watermark])
      && if c.ephemeral || fault.InsertUnsent? then t.blocks == s.blocks else RowsAdded(s.blocks, t.blocks, tasks)
  }

  lemma {:induction false} MaxIsTop(tasks: seq<Task>)
    requires tasks != []
    ensures Top(tasks, MaxHeight(tasks))
    decreases |tasks|
  {
    var n := |tasks| - 1;
    var front := tasks[..n];
    if front == [] {
      assert tasks[0].height == MaxHeight(tasks);
    } else {
      MaxIsTop(front);
      var i :| 0 <= i < n && front[i].height == MaxHeight(front);
      assert tasks[i].height == front[i].height;
      assert tasks[n].height == MaxHeight(tasks) || tasks[i].height == MaxHeight(tasks);
      assert forall k :: 0 <= k < n ==> tasks[k] == front[k];
    }
  }

  /** One row more, unless the height has one. */
  lemma RowsSnoc(before: map<nat, Block>, rows: map<nat, Block>, tasks: seq<Task>, last: Task)
    requires RowsAdded(before, rows, tasks)
    ensures RowsAdded(before, if last.height in rows then rows else rows[last.height := last.block], tasks + [last])
  {
    var all := tasks + [last];
    var after := if last.height in rows then rows else rows[last.height := last.block];
    assert all[|tasks|] == last;
    assert forall i :: 0 <= i < |tasks| ==> all[i] == tasks[i];
    forall h | h in after && h !in before
      ensures exists i :: IsFirst(all, i) && all[i].height == h && after[h] == all[i].block
    {
      if h in rows {
        var i :| IsFirst(tasks, i) && tasks[i].height == h && rows[h] == tasks[i].block;
        assert IsFirst(all, i);
      } else {
        assert IsFirst(all, |tasks|);
      }
    }
  }

  lemma {:induction false} InsertedRows(before: map<nat, Block>, tasks: seq<Task>)
    ensures RowsAdded(before, InsertAll(before, tasks), tasks)
    decreases |tasks|
  {
    if tasks != [] {
      var front, last := tasks[..|tasks| - 1], tasks[|tasks| - 1];
      InsertedRows(before, front);
      RowsSnoc(before, InsertAll(before, front), front, last);
      hide RowsAdded;
      assert tasks == front + [last];
    }
  }

  lemma FlushWrites(c: Config, w: Writer, tasks: seq<Task>, fault: Fault)
    ensures Wrote(c, w.store, FlushTasks(c, w, tasks, fault).store, tasks, fault)
    ensures var t := FlushTasks(c, w, tasks, fault);
      t.queue == w.queue && t.batch == w.batch && t.cooling == w.cooling && t.accepted == w.accepted
  {
    hide Top;
    hide RowsAdded;
    if tasks != [] {
      MaxIsTop(tasks);
      InsertedRows(w.store.blocks, tasks);
    }
  }

  // --- events ---

  /** A task received with `rest` behind it in the queue.  Above 75% of the capacity everything received is flushed, and
      unless the drain is cooling down so is what exceeds half of the capacity, oldest first; otherwise a full batch is
      flushed, and a batch that is not full only grows. */
  ghost predicate Received(c: Config, w: Writer, t: Writer, task: Task, rest: seq<Task>, fault: Fault,
                           drainFault: Fault)
  {
    t.accepted == w.accepted &&
    if |rest| > c.capacity * 75 / 100 then
      exists mid :: Wrote(c, w.store, mid, w.batch + [task], fault) &&
        Drained(c, w.(queue := rest, batch := [], store := mid), t, drainFault)
    else
      && t.queue == rest && t.cooling == w.cooling
      && if |w.batch| + 1 < c.batchSize then t.batch == w.batch + [task] && t.store == w.store
         else t.batch == [] && Wrote(c, w.store, t.store, w.batch + [task], fault)
  }

  /** Unless it is cooling down, a drain flushes what exceeds half of the capacity. */
  ghost predicate Drained(c: Config, w: Writer, t: Writer, fault: Fault)
    requires |w.queue| > c.capacity * 75 / 100
  {
    t.accepted == w.accepted && t.batch == w.batch && t.cooling &&
    if w.cooling then t.queue == w.queue && t.store == w.store else
      var half := c.capacity * 50 / 100;
      t.queue == w.queue[|w.queue| - half..] && Wrote(c, w.store, t.store, w.queue[..|w.queue| - half], fault)
  }

  /** What event e makes of the writer's queue, batch, cooldown and tables. */
  ghost predicate Did(c: Config, w: Writer, t: Writer, e: Event) {
    match e
    case Offer(task) =>
      t == if |w.queue| < c.capacity then w.(queue := w.queue + [task], accepted := w.accepted + [task]) else w
    case Receive(fault, drainFault) =>
      if w.queue == [] then t == w else Received(c, w, t, w.queue[0], w.queue[1..], fault, drainFault)
    case Timer(fault) =>
      && t.batch == [] && t.queue == w.queue && t.cooling == w.cooling && t.accepted == w.accepted
      && Wrote(c, w.store, t.store, w.batch, fault)
    case CooldownOver => t == w.(cooling := false)
  }

  lemma TimerDoes(c: Config, w: Writer, fault: Fault)
    ensures Did(c, w, Step(c, w, Timer(fault)), Timer(fault))
  {
    hide Wrote;
    hide FlushTasks;
    FlushWrites(c, w.(batch := []), w.batch, fault);
  }

  lemma ReceiveDoes(c: Config, w: Writer, fault: Fault, drainFault: Fault)
    requires w.queue != []
    ensures Received(c, w, ReceiveTask(c, w, fault, drainFault), w.queue[0], w.queue[1..], fault, drainFault)
  {
    var task, rest := w.queue[0], w.queue[1..];
    var u := w.(queue := rest, batch := []);
    FlushWrites(c, u, w.batch + [task], fault);
    hide FlushTasks;
    hide Wrote;
    hide EmergencyDrain;
    if |rest| > c.capacity * 75 / 100 {
      DrainDoes(c, FlushTasks(c, u, w.batch + [task], fault), drainFault);
      ReceivesOverfull(c, w, FlushTasks(c, u, w.batch + [task], fault), fault, drainFault);
    }
  }

  lemma ReceivesOverfull(c: Config, w: Writer, mid: Writer, fault: Fault, drainFault: Fault)
    requires w.queue != [] && |w.queue[1..]| > c.capacity * 75 / 100
    requires Wrote(c, w.store, mid.store, w.batch + [w.queue[0]], fault)
    requires mid.queue == w.queue[1..] && mid.batch == [] && mid.cooling == w.cooling && mid.accepted == w.accepted
    requires Drained(c, mid, EmergencyDrain(c, mid, drainFault), drainFault)
    ensures Received(c, w, EmergencyDrain(c, mid, drainFault), w.queue[0], w.queue[1..], fault, drainFault)
  {
    hide Wrote;
    hide EmergencyDrain;
    var t := EmergencyDrain(c, mid, drainFault);
    assert Drained(c, w.(queue := w.queue[1..], batch := [], store := mid.store), t, drainFault);
  }

  lemma DrainDoes(c: Config, w: Writer, fault: Fault)
    requires |w.queue| > c.capacity * 75 / 100
    ensures Drained(c, w, EmergencyDrain(c, w, fault), fault)
  {
    if !w.cooling {
      var n := |w.queue| - c.capacity * 50 / 100;
      var half := c.capacity * 50 / 100;
      assert Excess(c, |w.queue|) == n;
      FlushWrites(c, w.(cooling := true, queue := w.queue[n..]), w.queue[..n], fault);
      hide Wrote;
      hide FlushTasks;
    }
  }

  /** Each event of each run does what it should: the writer before and the writer after, field by field. */
  lemma EventsDo(c: Config, events: seq<Event>, e: Event)
    ensures Did(c, AfterEvents(c, Init(), events), AfterEvents(c, Init(), events + [e]), e)
  {
    var w := AfterEvents(c, Init(), events);
    EventsSnoc(c, events, e);
    hide AfterEvents;
    hide FlushTasks;
    hide EmergencyDrain;
    hide Wrote;
    if e.Timer? { TimerDoes(c, w, e.fault); }
    if e.Receive? && w.queue != [] { ReceiveDoes(c, w, e.fault, e.drainFault); }
  }

  // --- what follows for whole runs ---

  /** When the timer fires and the flush meets no fault, nothing stays in the batch: every height of it has a row,
      unless the writer is ephemeral, and its greatest height is the watermark, the checkpoint and the height reported
      last. */
  lemma TimerPersists(c: Config, events: seq<Event>)
    ensures var (w, t) := (AfterEvents(c, Init(), events), AfterEvents(c, Init(), events + [Timer(NoFault)]));
      && t.batch == []
      && (forall i :: 0 <= i < |w.batch| ==> w.batch[i].height <= t.store.watermark)
      && (forall i :: 0 <= i < |w.batch| && !c.ephemeral ==> w.batch[i].height in t.store.blocks)
      && (w.batch != [] ==> exists i :: 0 <= i < |w.batch| && w.batch[i].height == t.store.watermark)
      && (w.batch != [] ==> t.store.commits == w.store.commits + [t.store.watermark])
      && (w.batch != [] && !c.ephemeral ==>
          c.chainId in t.store.checkpoints && t.store.checkpoints[c.chainId] == t.store.watermark)
  {
    EventsDo(c, events, Timer(NoFault));
    hide AfterEvents;
  }

  /** At every moment the batch is shorter than the batch size, and empty if that is 0. */
  lemma {:induction false} BatchStaysShort(c: Config, events: seq<Event>)
    ensures |AfterEvents(c, Init(), events).batch| < c.batchSize || AfterEvents(c, Init(), events).batch == []
    decreases |events|
  {
    if events != [] {
      var front, e := events[..|events| - 1], events[|events| - 1];
      BatchStaysShort(c, front);
      assert events == front + [e];
      EventsDo(c, front, e);
      hide AfterEvents;
      hide Wrote;
    }
  }

  /** Event k received a task and left more than 75% of the capacity queued. */
  ghost predicate Overfull(c: Config, events: seq<Event>, k: nat) {
    k < |events| && events[k].Receive? &&
    |AfterEvents(c, Init(), events[..k]).queue| > c.capacity * 75 / 100 + 1
  }

  ghost predicate NotOverSince(events: seq<Event>, k: nat) {
    forall m :: k < m < |events| ==> !events[m].CooldownOver?
  }

  /** A task was received above 75% of the capacity, and no cooldown has ended since. */
  ghost predicate NotYetOver(c: Config, events: seq<Event>) {
    exists k: nat :: Overfull(c, events, k) && NotOverSince(events, k)
  }

  lemma NothingYet(c: Config)
    ensures !AfterEvents(c, Init(), []).cooling && !NotYetOver(c, [])
  {
  }

  /** The writer cools down exactly then. */
  lemma {:induction false} CoolingIff(c: Config, events: seq<Event>)
    ensures AfterEvents(c, Init(), events).cooling <==> NotYetOver(c, events)
    decreases |events|
  {
    hide AfterEvents;
    hide NotYetOver;
    if events == [] {
      NothingYet(c);
    } else {
      var n := |events| - 1;
      CoolingIff(c, events[..n]);
      CoolingAfter(c, events[..n], events[n]);
      assert events == events[..n] + [events[n]];
    }
  }

  lemma CoolingAfter(c: Config, front: seq<Event>, e: Event)
    requires AfterEvents(c, Init(), front).cooling <==> NotYetOver(c, front)
    ensures AfterEvents(c, Init(), front + [e]).cooling <==> NotYetOver(c, front + [e])
  {
    var n, events := |front|, front + [e];
    EventsDo(c, front, e);
    hide AfterEvents;
    hide Wrote;
    var w, t := AfterEvents(c, Init(), front), AfterEvents(c, Init(), events);
    assert events[..n] == front && events[n] == e;
    assert t.cooling <==> Overfull(c, events, n) || (w.cooling && !e.CooldownOver?);
    if Overfull(c, events, n) { assert NotOverSince(events, n); }
    forall k: nat | k < n
      ensures Overfull(c, events, k) <==> Overfull(c, front, k)
      ensures NotOverSince(events, k) <==> NotOverSince(front, k) && !e.CooldownOver?
    {
      assert front[..k] == events[..k];
      if NotOverSince(events, k) { assert forall m :: k < m < n ==> front[m] == events[m]; }
    }
    if w.cooling && !e.CooldownOver? {
      var k: nat :| Overfull(c, front, k) && NotOverSince(front, k);
      assert Overfull(c, events, k) && NotOverSince(events, k);
    }
  }

  /** A task received above 75% of the capacity, with no such task received before or a cooldown over since the last
      one, leaves no batch and at most half of the capacity in the queue. */
  lemma {:induction false} OverfullDrains(c: Config, events: seq<Event>, fault: Fault, drainFault: Fault)
    requires |AfterEvents(c, Init(), events).queue| > c.capacity * 75 / 100 + 1
    requires forall k: nat :: Overfull(c, events, k) ==> exists m :: k < m < |events| && events[m].CooldownOver?
    ensures var (w, t) := (AfterEvents(c, Init(), events),
      AfterEvents(c, Init(), events + [Receive(fault, drainFault)]));
      t.batch == [] && t.queue == w.queue[|w.queue| - c.capacity * 50 / 100..]
  {
    CoolingIff(c, events);
    EventsDo(c, events, Receive(fault, drainFault));
    hide AfterEvents;
    hide Wrote;
    var w := AfterEvents(c, Init(), events);
    assert w.queue[1..][|w.queue| - 1 - c.capacity * 50 / 100..] == w.queue[|w.queue| - c.capacity * 50 / 100..];
  }

  /** While the writer cools down such a task takes only itself out of the queue. */
  lemma CoolingOnlyReceives(c: Config, events: seq<Event>, k: nat, fault: Fault, drainFault: Fault)
    requires |AfterEvents(c, Init(), events).queue| > c.capacity * 75 / 100 + 1
    requires Overfull(c, events, k) && NotOverSince(events, k)
    ensures var (w, t) := (AfterEvents(c, Init(), events),
      AfterEvents(c, Init(), events + [Receive(fault, drainFault)]));
      t.batch == [] && t.queue == w.queue[1..]
  {
    CoolingIff(c, events);
    EventsDo(c, events, Receive(fault, drainFault));
    hide AfterEvents;
    hide Wrote;
  }

  // --- without faults nothing accepted is lost ---

  ghost predicate NoFaults(events: seq<Event>) {
    forall i :: 0 <= i < |events| ==>
      match events[i]
      case Receive(fault, drainFault) => fault.NoFault? && drainFault.NoFault?
      case Timer(fault) => fault.NoFault?
      case _ => true
  }

  ghost predicate AllKept(w: Writer) {
    forall i :: 0 <= i < |w.flushes| ==> w.flushes[i].rows
  }

  lemma FlushKept(c: Config, w: Writer, tasks: seq<Task>)
    requires AllKept(w) && !c.ephemeral
    ensures AllKept(FlushTasks(c, w, tasks, NoFault))
  {
  }

  lemma StepKept(c: Config, w: Writer, e: Event)
    requires AllKept(w) && !c.ephemeral && NoFaults([e])
    ensures AllKept(Step(c, w, e))
  {
    hide FlushTasks;
    assert NoFaults([e]) ==> match [e][0] case Receive(f, g) => f.NoFault? && g.NoFault? case Timer(f) => f.NoFault?
                             case _ => true;
    hide NoFaults;
    match e
    case Offer(_) =>
    case CooldownOver =>
    case Timer(_) => FlushKept(c, w.(batch := []), w.batch);
    case Receive(_, _) =>
      if w.queue != [] {
        var u, grown := w.(queue := w.queue[1..], batch := []), w.batch + [w.queue[0]];
        FlushKept(c, u, grown);
        var mid := FlushTasks(c, u, grown, NoFault);
        var n := Excess(c, |mid.queue|);
        FlushKept(c, mid.(cooling := true, queue := mid.queue[n..]), mid.queue[..n]);
      }
  }

  lemma {:induction false} AllFlushesKept(c: Config, events: seq<Event>)
    requires NoFaults(events) && !c.ephemeral
    ensures AllKept(AfterEvents(c, Init(), events))
    decreases |events|
  {
    if events != [] {
      var n := |events| - 1;
      assert NoFaults(events[..n]) && NoFaults([events[n]]);
      AllFlushesKept(c, events[..n]);
      hide Step;
      StepKept(c, AfterEvents(c, Init(), events[..n]), events[n]);
    }
  }

  /** In a run without faults that ends with the queue empty and the timer firing, every accepted task has its row,
      and a row is the block of the first task accepted for its height. */
  lemma {:induction false} AcceptedIsPersisted(c: Config, events: seq<Event>)
    requires NoFaults(events) && !c.ephemeral && AfterEvents(c, Init(), events).queue == []
    ensures var t := AfterEvents(c, Init(), events + [Timer(NoFault)]);
      RowsAdded(map[], t.store.blocks, t.accepted)
  {
    var all := events + [Timer(NoFault)];
    assert forall i :: 0 <= i < |events| ==> all[i] == events[i];
    AllFlushesKept(c, all);
    RunConserves(c, all);
    EventsDo(c, events, Timer(NoFault));
    hide AfterEvents;
    var t := AfterEvents(c, Init(), all);
    AllPersisted(t.flushes);
    InsertedRows(map[], t.accepted);
    assert Flushed(t.flushes) + [] + [] == Flushed(t.flushes);
  }
}
