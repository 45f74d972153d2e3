// What one step of the sequencer does, as functions on its state.
module SequencerModel {
  import opened Blocks

  /** Verdict of the processor on one block, and result of a sequencer operation. */
  datatype Outcome = Ok | Failed | Reorg

  /** One call made to the processor. */
  datatype Call = Single(data: BlockData, outcome: Outcome) | Batch(blocks: seq<BlockData>, accepted: bool)

  datatype SkipKind = Teleport | GapBypass | ForcedSkip | Overflow

  /** Why the expected block moved: a height was delivered, alone or in a batch, or an interval was passed over. */
  datatype Entry = Delivered(number: int, data: BlockData, batched: bool) | Skipped(kind: SkipKind, from: int, to: int)

  /** The fixed surroundings of a sequencer.  The processor is an oracle that may consult the whole
      history of calls made to it. */
  datatype Config = Config(
    chainId: int,
    hasFetcher: bool,
    process: (seq<Call>, BlockData) -> Outcome,
    processBatch: (seq<Call>, seq<BlockData>) -> bool)

  datatype State = State(
    expected: int,
    buffer: map<int, BlockData>,
    paused: bool,
    gapFills: nat,
    calls: seq<Call>,
    ledger: seq<Entry>,
    refetches: seq<(int, int)>,
    reorgs: seq<int>)

  function Init(start: int): State {
    State(start, map[], false, 0, [], [], [], [])
  }

  function BufferLimit(c: Config): nat {
    if c.chainId == 31337 then 50000 else 1000
  }

  /** A reorg report is about the block it was given; without a block there is nothing to report on. */
  function Verdict(c: Config, calls: seq<Call>, d: BlockData): Outcome {
    var r := c.process(calls, d);
    if r.Reorg? && d.block.None? then Failed else r
  }

  ghost predicate AlwaysOk(c: Config) {
    && (forall calls, d :: Verdict(c, calls, d).Ok?)
    && (forall calls, blocks :: c.processBatch(calls, blocks))
  }

  function RollBack(c: Config, s: State, at: int): State {
    s.(buffer := map k | k in s.buffer && k < at :: s.buffer[k],
       expected := at,
       paused := s.paused || c.hasFetcher,
       reorgs := s.reorgs + [at])
  }

  function ProcessSequential(c: Config, s: State, d: BlockData): (State, Outcome) {
    var r := Verdict(c, s.calls, d);
    var called := s.(calls := s.calls + [Single(d, r)]);
    match r
    case Ok => (called.(expected := s.expected + 1, gapFills := 0,
      ledger := s.ledger + [Delivered(s.expected, d, false)]), Ok)
    case Failed => (called, Failed)
    case Reorg => (RollBack(c, called, d.block.value.number), Reorg)
  }

  /** Deliver buffered blocks from the expected one upward; a block the processor refuses goes back. */
  function DrainLoop(c: Config, s: State): State
    decreases |s.buffer|
  {
    if s.expected !in s.buffer then s else
    var d := s.buffer[s.expected];
    assert s.buffer.Keys == (s.buffer - {s.expected}).Keys + {s.expected};
    var (next, r) := ProcessSequential(c, s.(buffer := s.buffer - {s.expected}), d);
    if r.Ok? then DrainLoop(c, next) else next.(buffer := next.buffer[s.expected := d])
  }

  function ResumeIfLow(c: Config, s: State): State {
    if c.hasFetcher && |s.buffer| < 200 && s.paused then s.(paused := false) else s
  }

  function Drain(c: Config, s: State): State {
    ResumeIfLow(c, DrainLoop(c, s))
  }

  function TeleportTo(c: Config, s: State, rangeEnd: int): State {
    if rangeEnd < s.expected then s else
    Drain(c, s.(expected := rangeEnd + 1, ledger := s.ledger + [Skipped(Teleport, s.expected, rangeEnd + 1)]))
  }

  ghost predicate IsMin(m: int, keys: set<int>) {
    m in keys && forall k :: k in keys ==> m <= k
  }

  lemma HasElement(keys: set<int>)
    ensures keys == {} || exists k :: k in keys
  {
    if forall k :: k !in keys { assert keys == {}; }
  }

  lemma {:induction false} MinExists(keys: set<int>)
    requires keys != {}
    ensures exists m :: IsMin(m, keys)
    decreases |keys|
  {
    HasElement(keys);
    var k :| k in keys;
    var rest := keys - {k};
    assert forall x :: x in keys ==> x == k || x in rest;
    if rest == {} {
      assert IsMin(k, keys);
    } else {
      MinExists(rest);
      var m :| IsMin(m, rest);
      assert IsMin(if m < k then m else k, keys);
    }
  }

  ghost function MinKey(keys: set<int>): (m: int)
    requires keys != {}
    ensures IsMin(m, keys)
  {
    MinExists(keys);
    var m :| IsMin(m, keys);
    m
  }

  ghost function EnforceLimit(c: Config, s: State): State {
    if |s.buffer| <= BufferLimit(c) then s else
    var m := MinKey(s.buffer.Keys);
    Drain(c, s.(expected := m, ledger := s.ledger + [Skipped(Overflow, s.expected, m)]))
  }

  predicate IsRangeSignal(d: BlockData) {
    d.number.None? && d.block.None? && d.rangeEnd.Some? && !d.failed
  }

  function Hydrate(a: Arrival): BlockData {
    if a.data.block.None? && KeyOf(a.data).Some? then a.data.(block := a.rpcBlock) else a.data
  }

  /** The height at which a result is finally placed: its block decides when there is one. */
  function PositionOf(d: BlockData): Option<int> {
    if d.block.Some? then Some(d.block.value.number) else d.number
  }

  ghost function Place(c: Config, s: State, n: int, d: BlockData): (State, Outcome) {
    if n == s.expected then
      var (next, r) := ProcessSequential(c, s, d);
      if r.Ok? then (Drain(c, next), Ok) else (next, r)
    else if n < s.expected then (s, Ok)
    else (EnforceLimit(c, s.(buffer := s.buffer[n := d])), Ok)
  }

  predicate CanRefetch(a: Arrival) {
    KeyOf(a.data).Some? && a.rpcBlock.Some? && a.rpcLogs.Some?
  }

  function Refetched(a: Arrival): Arrival
    requires CanRefetch(a)
  {
    a.(data := a.data.(block := a.rpcBlock, logs := a.rpcLogs.value, failed := false))
  }

  ghost function HandleBlock(c: Config, s: State, a: Arrival): (State, Outcome)
    decreases a.data.failed
  {
    if IsRangeSignal(a.data) then (TeleportTo(c, s, a.data.rangeEnd.value), Ok)
    else if a.data.failed then
      if CanRefetch(a) then HandleBlock(c, s, Refetched(a)) else (s, Ok)
    else
      var d := Hydrate(a);
      match PositionOf(d)
      case None => (s, Ok)
      case Some(n) => Place(c, s, n, d)
  }

  /** Results handled one at a time, stopping at the first error. */
  ghost function HandleAll(c: Config, s: State, batch: seq<Arrival>): (State, Outcome)
    decreases |batch|
  {
    if batch == [] then (s, Ok) else
    var (next, r) := HandleBlock(c, s, batch[0]);
    if r.Ok? then HandleAll(c, next, batch[1..]) else (next, r)
  }

  predicate StartsRun(s: State, a: Arrival) {
    KeyOf(a.data) == Some(s.expected) && !a.data.failed
  }

  /** Index of the first result at or after i for the expected block, or |batch|. */
  function RunStart(s: State, batch: seq<Arrival>, i: nat): (r: nat)
    requires i <= |batch|
    ensures i <= r <= |batch|
    ensures r < |batch| ==> StartsRun(s, batch[r])
    ensures forall k :: i <= k < r ==> !StartsRun(s, batch[k])
    decreases |batch| - i
  {
    if i == |batch| || StartsRun(s, batch[i]) then i else RunStart(s, batch, i + 1)
  }

  /** End of the consecutive error-free results from index j on, the first of them expected at height next. */
  function RunEnd(batch: seq<Arrival>, j: nat, next: int): (r: nat)
    requires j <= |batch|
    ensures j <= r <= |batch|
    ensures forall k :: j <= k < r ==> KeyOf(batch[k].data) == Some(next + (k - j)) && !batch[k].data.failed
    decreases |batch| - j
  {
    if j == |batch| || batch[j].data.failed || KeyOf(batch[j].data) != Some(next) then j
    else RunEnd(batch, j + 1, next + 1)
  }

  function DataOf(batch: seq<Arrival>): seq<BlockData> {
    seq(|batch|, i requires 0 <= i < |batch| => batch[i].data)
  }

  function Deliveries(from: int, blocks: seq<BlockData>): seq<Entry> {
    seq(|blocks|, i requires 0 <= i < |blocks| => Delivered(from + i, blocks[i], true))
  }

  function PauseIfHigh(c: Config, s: State): State {
    if c.hasFetcher && |s.buffer| > 2000 && !s.paused then s.(paused := true) else s
  }

  /** The accepted run, before the buffer is drained. */
  function CommitRun(s: State, blocks: seq<BlockData>): State {
    s.(calls := s.calls + [Batch(blocks, true)],
       ledger := s.ledger + Deliveries(s.expected, blocks),
       expected := s.expected + |blocks|,
       gapFills := 0)
  }

  /** Results from index i on start a run; what comes before it in the batch is handled last. */
  ghost function HandleRun(c: Config, s: State, batch: seq<Arrival>, i: nat, j: nat): (State, Outcome)
    requires i < j <= |batch|
  {
    if j == i + 1 then HandleAll(c, s, batch[i..] + batch[..i]) else
    var run := DataOf(batch[i..j]);
    if !c.processBatch(s.calls, run) then (s.(calls := s.calls + [Batch(run, false)]), Failed)
    else HandleAll(c, Drain(c, CommitRun(s, run)), batch[j..] + batch[..i])
  }

  ghost function HandleBatch(c: Config, s0: State, batch: seq<Arrival>): (State, Outcome) {
    var s := PauseIfHigh(c, s0);
    var i := RunStart(s, batch, 0);
    if i == |batch| then HandleAll(c, s, batch)
    else HandleRun(c, s, batch, i, RunEnd(batch, i + 1, s.expected + 1))
  }

  /** The stall check after `idle` seconds without progress. */
  ghost function HandleStall(c: Config, s: State, idle: int): State {
    if idle <= 55 then s
    else if s.buffer.Keys != {} && MinKey(s.buffer.Keys) > s.expected then
      var m := MinKey(s.buffer.Keys);
      if c.hasFetcher && s.gapFills < 3 then
        s.(refetches := s.refetches + [(s.expected, m - 1)], gapFills := s.gapFills + 1)
      else
        s.(expected := m, ledger := s.ledger + [Skipped(GapBypass, s.expected, m)], gapFills := 0)
    else
      s.(expected := s.expected + 1, ledger := s.ledger + [Skipped(ForcedSkip, s.expected, s.expected + 1)],
        gapFills := 0)
  }

  /** Everything the run loop and the fetch channel can make the sequencer do. */
  datatype Op = Arrive(a: Arrival) | ArriveBatch(batch: seq<Arrival>) | Stall(idle: int) | DrainNow

  ghost function Step(c: Config, s: State, op: Op): State {
    match op
    case Arrive(a) => HandleBlock(c, s, a).0
    case ArriveBatch(batch) => HandleBatch(c, s, batch).0
    case Stall(idle) => HandleStall(c, s, idle)
    case DrainNow => Drain(c, s)
  }

  ghost function Run(c: Config, s: State, ops: seq<Op>): State
    decreases |ops|
  {
    if ops == [] then s else Run(c, Step(c, s, ops[0]), ops[1..])
  }
}
