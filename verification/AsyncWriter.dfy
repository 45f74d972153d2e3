// The asynchronous writer itself: its queue, event loop and flush, each proved to do what AsyncWriterModel says.
module AsyncWriting {
  import opened Blocks
  import opened AsyncWriterModel

  class AsyncWriter {
    const config: Config
    var taskChan: seq<Task>
    var cooldown: bool
    var blocks: map<nat, Block>
    var checkpoints: map<int, nat>
    var diskWatermark: nat
    var commits: seq<nat>         // heights reported to the orchestrator
    var accepted: seq<Task>       // tasks ever queued
    var flushes: seq<Flush>       // slices ever handed to flush

    /** The writer with the loop's local batch. */
    function State(batch: seq<Task>): Writer
      reads this
    {
      Writer(taskChan, batch, cooldown, Store(blocks, checkpoints, diskWatermark, commits), accepted, flushes)
    }

    constructor (c: Config)
      ensures config == c && State([]) == Init()
    {
      config := c;
      taskChan, cooldown := [], false;
      blocks, checkpoints, diskWatermark, commits := map[], map[], 0, [];
      accepted, flushes := [], [];
    }

    method Enqueue(task: Task) returns (ok: bool)
      modifies this
      ensures ok <==> |old(taskChan)| < config.capacity
      ensures forall batch :: State(batch) == Step(config, old(State(batch)), Offer(task))
    {
      ok := |taskChan| < config.capacity;
      if ok {
        taskChan := taskChan + [task];
        accepted := accepted + [task];
      }
    }

    /** The insert statement: rows in order, a height that already has a row is left alone. */
    static method InsertBlocks(before: map<nat, Block>, tasks: seq<Task>) returns (rows: map<nat, Block>)
      ensures rows == InsertAll(before, tasks)
    {
      rows := before;
      var i := 0;
      while i < |tasks|
        invariant 0 <= i <= |tasks| && rows == InsertAll(before, tasks[..i])
      {
        assert tasks[..i + 1][..i] == tasks[..i];
        if tasks[i].height !in rows {
          rows := rows[tasks[i].height := tasks[i].block];
        }
        i := i + 1;
      }
      assert tasks[..i] == tasks;
    }

    static method HighestOf(tasks: seq<Task>) returns (maxHeight: nat)
      ensures maxHeight == MaxHeight(tasks)
    {
      maxHeight := 0;
      var i := 0;
      while i < |tasks|
        invariant 0 <= i <= |tasks| && maxHeight == MaxHeight(tasks[..i])
      {
        assert tasks[..i + 1][..i] == tasks[..i];
        if tasks[i].height > maxHeight {
          maxHeight := tasks[i].height;
        }
        i := i + 1;
      }
      assert tasks[..i] == tasks;
    }

    /** One transaction, or nothing: a flush that fails leaves table, checkpoint, watermark and cursor as they
        were.  An insert that is never sent leaves only the table. */
    method FlushBatch(tasks: seq<Task>, fault: Fault)
      modifies this`blocks, this`checkpoints, this`diskWatermark, this`commits, this`flushes
      ensures forall batch :: State(batch) == FlushTasks(config, old(State(batch)), tasks, fault)
      ensures fault.InsertUnsent? && !config.ephemeral ==> blocks == old(blocks)
      ensures !fault.NoFault? && !fault.InsertUnsent? && !config.ephemeral ==>
        blocks == old(blocks) && checkpoints == old(checkpoints) && diskWatermark == old(diskWatermark) &&
          commits == old(commits)
    {
      if |tasks| == 0 { return; }
      var maxHeight := HighestOf(tasks);
      if config.ephemeral {
        flushes := flushes + [Flush(tasks, false, false)];
        diskWatermark := maxHeight;
        commits := commits + [maxHeight];
        return;
      }
      if fault.BeginFails? {
        flushes := flushes + [Flush(tasks, false, false)];
        return;
      }
      var txBlocks := blocks;
      if !fault.InsertUnsent? {
        txBlocks := InsertBlocks(blocks, tasks);
      }
      var txCheckpoints := checkpoints[config.chainId := maxHeight];
      if fault.StatementFails? || fault.CommitFails? {
        flushes := flushes + [Flush(tasks, false, false)];
        return;
      }
      flushes := flushes + [Flush(tasks, true, !fault.InsertUnsent?)];
      blocks, checkpoints := txBlocks, txCheckpoints;
      diskWatermark := maxHeight;
      commits := commits + [maxHeight];
    }

    /** Tasks above half of the queue's capacity are taken out and flushed at once, unless the drain is cooling down. */
    method DrainQueue(fault: Fault)
      modifies this
      ensures forall batch :: State(batch) == EmergencyDrain(config, old(State(batch)), fault)
    {
      if cooldown { return; }
      cooldown := true;
      var targetDepth := config.capacity * 50 / 100;
      var megaBatch: seq<Task> := [];
      ghost var n := Excess(config, |taskChan|);
      while |taskChan| > targetDepth
        invariant |megaBatch| <= n && |taskChan| == |old(taskChan)| - |megaBatch|
        invariant megaBatch == old(taskChan)[..|megaBatch|] && taskChan == old(taskChan)[|megaBatch|..]
        invariant forall batch :: State(batch) == old(State(batch)).(cooling := true, queue := taskChan)
      {
        megaBatch := megaBatch + [taskChan[0]];
        taskChan := taskChan[1..];
      }
      assert |megaBatch| == n;
      FlushBatch(megaBatch, fault);
    }

    /** A task is received while the loop holds `batch`; the batch it goes on with is returned. */
    method OnTask(batch: seq<Task>, fault: Fault, drainFault: Fault) returns (rest: seq<Task>)
      requires taskChan != []
      modifies this
      ensures State(rest) == ReceiveTask(config, old(State(batch)), fault, drainFault)
    {
      var task := taskChan[0];
      taskChan := taskChan[1..];
      rest := batch + [task];
      if |taskChan| > config.capacity * 75 / 100 {
        FlushBatch(rest, fault);
        rest := [];
        DrainQueue(drainFault);
      } else if |rest| >= config.batchSize {
        FlushBatch(rest, fault);
        rest := [];
      }
    }

    /** The event loop, over any sequence of events. */
    method RunLoop(events: seq<Event>) returns (batch: seq<Task>)
      modifies this
      ensures State(batch) == AfterEvents(config, old(State([])), events)
    {
      batch := [];
      var i := 0;
      while i < |events|
        invariant 0 <= i <= |events| && State(batch) == AfterEvents(config, old(State([])), events[..i])
      {
        assert events[..i + 1][..i] == events[..i];
        match events[i] {
          case Offer(task) =>
            var _ := Enqueue(task);
          case Receive(fault, drainFault) =>
            if taskChan != [] {
              batch := OnTask(batch, fault, drainFault);
            }
          case Timer(fault) =>
            if |batch| > 0 {
              FlushBatch(batch, fault);
              batch := [];
            }
          case CooldownOver =>
            cooldown := false;
        }
        i := i + 1;
      }
      assert events[..i] == events;
    }
  }
}
