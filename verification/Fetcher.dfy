// Cutting a height range into jobs, following the tip, and turning a job into an ordered stream of results.
module Fetching {
  import opened Blocks

  datatype Job = Job(start: int, end: int)

  datatype ScheduleResult =
    | Scheduled
    | NotYetAvailable
    | JobsBackpressure
    | ResultsBackpressure
    | SequencerBackpressure
    | Stopped

  const MAX_INT64 := 0x7FFF_FFFF_FFFF_FFFF

  function SafeUint64ToInt64(v: nat): int {
    if v > MAX_INT64 then MAX_INT64 else v
  }

  /** What a call to Schedule meets: the orchestrator's latest height, the depths of the queues and of the
      sequencer's buffer, and after how many sends the context ends or the fetcher stops. */
  datatype Surroundings = Surroundings(latestHeight: nat, jobsDepth: nat, resultsDepth: nat,
    sequencerBuffer: Option<nat>, stopAfter: Option<nat>)

  function Clamp(end: int, w: Surroundings): int {
    var height := SafeUint64ToInt64(w.latestHeight);
    if end > height then height else end
  }

  /** How far jobs of 51 blocks get from start towards last when the context ends after `stopAfter` sends. */
  function SentUpTo(start: int, last: int, stopAfter: Option<nat>): (reach: int)
    requires start <= last
    ensures start - 1 <= reach <= last
    ensures stopAfter.None? ==> reach == last
  {
    if stopAfter.Some? && start + 51 * stopAfter.value <= last then start + 51 * stopAfter.value - 1 else last
  }

  /** The jobs lead from `from` to `to` without gap or overlap, each of at most 51 blocks; none when the range is
      empty. */
  ghost predicate Tiles(jobs: seq<Job>, from: int, to: int) {
    if from > to then jobs == [] else
    && jobs != []
    && jobs[0].start == from && jobs[|jobs| - 1].end == to
    && (forall i :: 0 <= i < |jobs| ==> jobs[i].start <= jobs[i].end <= jobs[i].start + 50)
    && (forall i :: 0 < i < |jobs| ==> jobs[i].start == jobs[i - 1].end + 1)
  }

  lemma TilesExtend(a: seq<Job>, b: seq<Job>, from: int, mid: int, to: int)
    requires Tiles(a, from, mid) && Tiles(b, mid + 1, to) && from - 1 <= mid <= to
    ensures Tiles(a + b, from, to)
  {
    if from > mid { assert a + b == b; }
    if mid + 1 > to { assert a + b == a; }
  }

  /** The k-th job begins 51 * k blocks after the start, and has 51 blocks unless the range ends before. */
  ghost predicate Cuts(jobs: seq<Job>, start: int, last: int) {
    forall k :: 0 <= k < |jobs| ==>
      && jobs[k].start == start + 51 * k <= last
      && jobs[k].end == if start + 51 * k + 50 < last then start + 51 * k + 50 else last
  }

  /** The last of these jobs ends the range, or there is nothing to cut. */
  predicate Reaches(jobs: seq<Job>, start: int, last: int) {
    if jobs == [] then start > last else jobs[|jobs| - 1].end == last
  }

  lemma NoneSent(start: int, last: int)
    ensures Tiles([], start, start - 1) && Cuts([], start, last) && (Reaches([], start, last) <==> start > last)
  {
  }

  lemma TilesOne(job: Job)
    requires job.start <= job.end <= job.start + 50
    ensures Tiles([job], job.start, job.end)
  {
  }

  lemma CutsGrow(jobs: seq<Job>, start: int, last: int, end: int)
    requires Cuts(jobs, start, last) && start + 51 * |jobs| <= last
    requires end == if start + 51 * |jobs| + 50 < last then start + 51 * |jobs| + 50 else last
    ensures Cuts(jobs + [Job(start + 51 * |jobs|, end)], start, last)
    ensures Reaches(jobs + [Job(start + 51 * |jobs|, end)], start, last) <==> end == last
  {
  }

  ghost predicate Covers(jobs: seq<Job>, b: int) {
    exists i :: 0 <= i < |jobs| && jobs[i].start <= b <= jobs[i].end
  }

  lemma {:induction false} TilesAbove(jobs: seq<Job>, from: int, to: int, i: nat)
    requires Tiles(jobs, from, to) && i < |jobs|
    ensures from <= jobs[i].start <= jobs[i].end
  {
    if i > 0 { TilesAbove(jobs, from, to, i - 1); }
  }

  lemma {:induction false} TilesOrdered(jobs: seq<Job>, from: int, to: int, i: nat, j: nat)
    requires Tiles(jobs, from, to) && i < j < |jobs|
    ensures jobs[i].end < jobs[j].start
    decreases j
  {
    if i < j - 1 { TilesOrdered(jobs, from, to, i, j - 1); }
  }

  lemma {:induction false} TilesCover(jobs: seq<Job>, from: int, to: int, b: int)
    requires Tiles(jobs, from, to)
    ensures Covers(jobs, b) <==> from <= b <= to
    decreases |jobs|
  {
    if jobs != [] {
      var n := |jobs| - 1;
      var front, last := jobs[..n], jobs[n];
      assert jobs == front + [last];
      CoversConcat(front, [last], b);
      assert Covers([last], b) <==> [last][0].start <= b <= [last][0].end;
      if n > 0 {
        TilesAbove(jobs, from, to, n - 1);
        TilesCover(front, from, last.start - 1, b);
      }
    }
  }

  /** Tiling jobs cover exactly their range, and two different jobs share no block. */
  lemma TilesCoverOnce(jobs: seq<Job>, from: int, to: int)
    requires Tiles(jobs, from, to)
    ensures forall b :: Covers(jobs, b) <==> from <= b <= to
    ensures forall i, j :: 0 <= i < j < |jobs| ==> jobs[i].end < jobs[j].start
  {
    forall b ensures Covers(jobs, b) <==> from <= b <= to { TilesCover(jobs, from, to, b); }
    forall i, j | 0 <= i < j < |jobs| ensures jobs[i].end < jobs[j].start { TilesOrdered(jobs, from, to, i, j); }
  }

  lemma CoversConcat(a: seq<Job>, b: seq<Job>, n: int)
    ensures Covers(a + b, n) <==> Covers(a, n) || Covers(b, n)
  {
    if Covers(a, n) {
      var i :| 0 <= i < |a| && a[i].start <= n <= a[i].end;
      assert (a + b)[i].start <= n <= (a + b)[i].end;
    }
    if Covers(b, n) {
      var i :| 0 <= i < |b| && b[i].start <= n <= b[i].end;
      assert (a + b)[|a| + i].start <= n <= (a + b)[|a| + i].end;
    }
  }

  /** The queues and the sequencer's buffer are below their watermarks. */
  predicate Admits(w: Surroundings, jobsCapacity: nat, resultsCapacity: nat) {
    && w.jobsDepth <= jobsCapacity * 90 / 100
    && w.resultsDepth <= resultsCapacity * 90 / 100
    && (w.sequencerBuffer.Some? ==> w.sequencerBuffer.value <= 2000)
  }

  /** The map holds, for every height, the logs of that height in order. */
  ghost predicate Grouped(logsByBlock: map<int, seq<Log>>, logs: seq<Log>) {
    forall h :: (if h in logsByBlock then logsByBlock[h] else []) == LogsOf(logs, h)
  }

  class Fetcher {
    const jobsCapacity: nat
    const resultsCapacity: nat
    var jobs: seq<Job>
    var results: seq<BlockData>

    constructor (jobsCapacity: nat, resultsCapacity: nat)
      ensures this.jobsCapacity == jobsCapacity && this.resultsCapacity == resultsCapacity
      ensures jobs == [] && results == []
    {
      this.jobsCapacity, this.resultsCapacity := jobsCapacity, resultsCapacity;
      jobs, results := [], [];
    }

    /** A successful call queues jobs that tile [start, min(end, latest height)]; a stopped one has queued jobs that
        tile the part of it that 51 blocks per send reach; any other refusal queues nothing. */
    method Schedule(start: int, end: int, w: Surroundings) returns (r: ScheduleResult)
      modifies this`jobs
      ensures old(jobs) <= jobs
      ensures r.NotYetAvailable? <==> start > SafeUint64ToInt64(w.latestHeight)
      ensures r.Scheduled? ==> Tiles(jobs[|old(jobs)|..], start, Clamp(end, w))
      ensures r.Stopped? ==>
        start <= Clamp(end, w) && Tiles(jobs[|old(jobs)|..], start, SentUpTo(start, Clamp(end, w), w.stopAfter))
      ensures !r.Scheduled? && !r.Stopped? ==> jobs == old(jobs)
      ensures start <= Clamp(end, w) ==>
        ((r.Scheduled? || r.Stopped?) <==> Admits(w, jobsCapacity, resultsCapacity))
      ensures start <= Clamp(end, w) && Admits(w, jobsCapacity, resultsCapacity) ==>
        (r.Scheduled? <==> SentUpTo(start, Clamp(end, w), w.stopAfter) == Clamp(end, w))
      ensures var tip: int := if w.latestHeight > 0x7FFF_FFFF_FFFF_FFFF then 0x7FFF_FFFF_FFFF_FFFF else w.latestHeight;
        var last := if end > tip then tip else end;
        var jobsFull := w.jobsDepth > jobsCapacity * 90 / 100;
        var resultsFull := w.resultsDepth > resultsCapacity * 90 / 100;
        var bufferFull := w.sequencerBuffer.Some? && w.sequencerBuffer.value > 2000;
        && (r.NotYetAvailable? <==> start > tip)
        && (r.JobsBackpressure? <==> start <= last && jobsFull)
        && (r.ResultsBackpressure? <==> start <= last && !jobsFull && resultsFull)
        && (r.SequencerBackpressure? <==> start <= last && !jobsFull && !resultsFull && bufferFull)
        && (r.Scheduled? || r.Stopped? ==>
            Cuts(jobs[|old(jobs)|..], start, last) && (r.Stopped? <==> !Reaches(jobs[|old(jobs)|..], start, last)))
        && (r.Stopped? ==> w.stopAfter == Some(|jobs| - |old(jobs)|))
        && (w.stopAfter.Some? ==> |jobs| - |old(jobs)| <= w.stopAfter.value)
    {
      var chainHeight := SafeUint64ToInt64(w.latestHeight);
      if start > chainHeight { return NotYetAvailable; }
      var last := end;
      if last > chainHeight { last := chainHeight; }
      if start > last { return Scheduled; }
      if w.jobsDepth > jobsCapacity * 90 / 100 { return JobsBackpressure; }
      if w.resultsDepth > resultsCapacity * 90 / 100 { return ResultsBackpressure; }
      if w.sequencerBuffer.Some? && w.sequencerBuffer.value > 2000 { return SequencerBackpressure; }
      r := SendJobs(start, last, w.stopAfter);
    }

    method SendJobs(start: int, last: int, stopAfter: Option<nat>) returns (r: ScheduleResult)
      requires start <= last
      modifies this`jobs
      ensures old(jobs) <= jobs
      ensures r == if SentUpTo(start, last, stopAfter) == last then Scheduled else Stopped
      ensures Tiles(jobs[|old(jobs)|..], start, SentUpTo(start, last, stopAfter))
      ensures Cuts(jobs[|old(jobs)|..], start, last)
      ensures r.Stopped? <==> !Reaches(jobs[|old(jobs)|..], start, last)
      ensures r.Stopped? ==> stopAfter == Some(|jobs| - |old(jobs)|)
      ensures stopAfter.Some? ==> |jobs| - |old(jobs)| <= stopAfter.value
    {
      hide Tiles;
      hide Cuts;
      hide Reaches;
      NoneSent(start, last);
      ghost var queued := jobs;
      var sent: seq<Job> := [];
      var current := start;
      while current <= last
        invariant start <= current <= last + 1
        invariant current == if start + 51 * |sent| <= last then start + 51 * |sent| else last + 1
        invariant stopAfter.Some? ==> |sent| <= stopAfter.value
        invariant jobs == queued + sent && Tiles(sent, start, current - 1)
        invariant Cuts(sent, start, last)
        invariant current <= last ==> !Reaches(sent, start, last)
        invariant current > last ==> Reaches(sent, start, last)
      {
        var batchEnd := if current + 50 > last then last else current + 50;
        if stopAfter == Some(|sent|) {
          assert jobs[|queued|..] == sent;
          return Stopped;
        }
        var job := Job(current, batchEnd);
        TilesOne(job);
        TilesExtend(sent, [job], start, current - 1, batchEnd);
        CutsGrow(sent, start, last, batchEnd);
        jobs := jobs + [job];
        sent := sent + [job];
        current := batchEnd + 1;
      }
      assert jobs[|queued|..] == sent;
      return Scheduled;
    }

    /** One job becomes one result per height, ascending, each with the logs of its block; a failed log query
        becomes a single error result.  When sending is cancelled the results sent are a prefix. */
    method FetchRangeWithLogs(start: int, end: int, answer: Option<seq<Log>>, blockAt: int -> Option<Block>,
                              sendsLeft: Option<nat>)
      modifies this`results
      ensures answer.Some? ==>
        results == old(results) + Sent(Emission(start, end, end, answer.value, blockAt), sendsLeft)
      ensures answer.None? ==> results == old(results) + Sent([QueryFailed(start, end)], sendsLeft)
      ensures old(results) <= results
      ensures var wanted := if answer.None? then 1 else if start <= end then end - start + 1 else 0;
        |results| - |old(results)| == if sendsLeft.Some? && sendsLeft.value < wanted then sendsLeft.value else wanted
      ensures answer.None? && |results| > |old(results)| ==>
        var sent := results[|old(results)|];
        && sent.failed && sent.number == Some(start) && sent.rangeEnd == Some(end)
        && sent.block == None && sent.logs == []
      ensures answer.Some? ==>
        forall k :: |old(results)| <= k < |results| ==>
          results[k].number == Some(start + (k - |old(results)|)) && results[k].rangeEnd == Some(end)
    {
      if start <= end && answer.Some? { EmissionAt(start, end, end, answer.value, blockAt); }
      if answer.None? {
        if sendsLeft != Some(0) {
          results := results + [QueryFailed(start, end)];
        }
        return;
      }
      var logsByBlock := GroupByBlock(answer.value);
      SendRange(start, end, answer.value, logsByBlock, blockAt, sendsLeft);
    }

    method GroupByBlock(logs: seq<Log>) returns (logsByBlock: map<int, seq<Log>>)
      ensures Grouped(logsByBlock, logs)
    {
      logsByBlock := map[];
      var k := 0;
      while k < |logs|
        invariant 0 <= k <= |logs|
        invariant Grouped(logsByBlock, logs[..k])
      {
        var log := logs[k];
        var already := if log.blockNumber in logsByBlock then logsByBlock[log.blockNumber] else [];
        assert logs[..k + 1][..k] == logs[..k];
        logsByBlock := logsByBlock[log.blockNumber := already + [log]];
        k := k + 1;
      }
      assert logs[..k] == logs;
    }

    /** The result for one height; its block is fetched only if the height has logs or ends the job. */
    method BuildItem(bn: int, end: int, logs: seq<Log>, logsByBlock: map<int, seq<Log>>, blockAt: int -> Option<Block>)
      returns (item: BlockData)
      requires Grouped(logsByBlock, logs)
      ensures item == ItemAt(bn, end, logs, blockAt)
    {
      var blockLogs := if bn in logsByBlock then logsByBlock[bn] else [];
      assert blockLogs == LogsOf(logs, bn);
      var block: Option<Block> := None;
      var failed := false;
      if |blockLogs| > 0 || bn == end {
        block := blockAt(bn);
        failed := block.None?;
      }
      item := BlockData(Some(bn), Some(end), block, failed, blockLogs);
    }

    method SendRange(start: int, end: int, logs: seq<Log>, logsByBlock: map<int, seq<Log>>,
                     blockAt: int -> Option<Block>, sendsLeft: Option<nat>)
      requires Grouped(logsByBlock, logs)
      modifies this`results
      ensures results == old(results) + Sent(Emission(start, end, end, logs, blockAt), sendsLeft)
    {
      hide LogsOf;
      hide ItemAt;
      hide Emission;
      ghost var all := Emission(start, end, end, logs, blockAt);
      if start > end { return; }
      EmissionAt(start, end, end, logs, blockAt);
      ghost var queued := results;
      var bn := start;
      var more := true;
      while bn <= end && more
        invariant start <= bn <= end + 1
        invariant results == queued + all[..bn - start]
        invariant sendsLeft.Some? ==> bn - start <= sendsLeft.value
        invariant !more ==> sendsLeft == Some(bn - start) && bn <= end
        decreases end - bn, more
      {
        var item := BuildItem(bn, end, logs, logsByBlock, blockAt);
        assert item == all[bn - start];
        more := SendResult(item, sendsLeft != Some(bn - start));
        if more {
          TakeOneMore(all, bn - start);
          bn := bn + 1;
        }
      }
      assert all[..|all|] == all;
    }

    /** A result is sent unless the context ended first. */
    method SendResult(item: BlockData, canSend: bool) returns (sent: bool)
      modifies this`results
      ensures sent == canSend
      ensures results == if sent then old(results) + [item] else old(results)
    {
      sent := canSend;
      if canSend { results := results + [item]; }
    }
  }

  lemma TakeOneMore(items: seq<BlockData>, n: nat)
    requires n < |items|
    ensures items[..n] + [items[n]] == items[..n + 1]
  {
  }

  function QueryFailed(start: int, end: int): BlockData {
    BlockData(Some(start), Some(end), None, true, [])
  }

  function Sent(items: seq<BlockData>, sendsLeft: Option<nat>): seq<BlockData> {
    if sendsLeft.Some? && sendsLeft.value < |items| then items[..sendsLeft.value] else items
  }

  /** The logs of block h, in their original order. */
  function LogsOf(logs: seq<Log>, h: int): seq<Log>
    decreases |logs|
  {
    if logs == [] then [] else
    var last := logs[|logs| - 1];
    LogsOf(logs[..|logs| - 1], h) + if last.blockNumber == h then [last] else []
  }

  /** The result for height h of a job that ends at `end`; its block is only fetched when it has logs or ends the
      job. */
  function ItemAt(h: int, end: int, logs: seq<Log>, blockAt: int -> Option<Block>): BlockData {
    var fetch := LogsOf(logs, h) != [] || h == end;
    BlockData(Some(h), Some(end), if fetch then blockAt(h) else None, fetch && blockAt(h).None?, LogsOf(logs, h))
  }

  function Emission(start: int, upTo: int, end: int, logs: seq<Log>,
                    blockAt: int -> Option<Block>): (items: seq<BlockData>)
    ensures |items| == if start <= upTo then upTo - start + 1 else 0
    decreases upTo - start + 1
  {
    if start > upTo then [] else Emission(start, upTo - 1, end, logs, blockAt) + [ItemAt(upTo, end, logs, blockAt)]
  }

  // --- what a job emits ---

  /** Every height of the job is emitted once, in ascending order, with the item of that height. */
  lemma {:induction false} EmissionAt(start: int, upTo: int, end: int, logs: seq<Log>, blockAt: int -> Option<Block>)
    requires start <= upTo + 1
    ensures forall i :: 0 <= i <= upTo - start ==>
      Emission(start, upTo, end, logs, blockAt)[i] == ItemAt(start + i, end, logs, blockAt)
    decreases upTo - start + 1
  {
    if start <= upTo { EmissionAt(start, upTo - 1, end, logs, blockAt); }
  }

  function AllLogs(items: seq<BlockData>): seq<Log>
    decreases |items|
  {
    if items == [] then [] else AllLogs(items[..|items| - 1]) + items[|items| - 1].logs
  }

  function InRange(logs: seq<Log>, from: int, to: int): seq<Log>
    decreases |logs|
  {
    if logs == [] then [] else
    var last := logs[|logs| - 1];
    InRange(logs[..|logs| - 1], from, to) + if from <= last.blockNumber <= to then [last] else []
  }

  lemma {:induction false} InRangeGrows(logs: seq<Log>, from: int, to: int)
    requires from <= to
    ensures multiset(InRange(logs, from, to)) == multiset(InRange(logs, from, to - 1)) + multiset(LogsOf(logs, to))
    decreases |logs|
  {
    if logs != [] { InRangeGrows(logs[..|logs| - 1], from, to); }
  }

  lemma {:induction false} InRangeEmpty(logs: seq<Log>, from: int, to: int)
    requires from > to
    ensures InRange(logs, from, to) == []
    decreases |logs|
  {
    if logs != [] { InRangeEmpty(logs[..|logs| - 1], from, to); }
  }

  lemma {:induction false} InRangeAll(logs: seq<Log>, from: int, to: int)
    requires forall i :: 0 <= i < |logs| ==> from <= logs[i].blockNumber <= to
    ensures InRange(logs, from, to) == logs
    decreases |logs|
  {
    if logs != [] {
      var front := logs[..|logs| - 1];
      assert forall i :: 0 <= i < |front| ==> front[i] == logs[i];
      InRangeAll(front, from, to);
      assert logs == front + [logs[|logs| - 1]];
    }
  }

  lemma {:induction false} LogsInRangeConserved(start: int, upTo: int, end: int, logs: seq<Log>,
                                                blockAt: int -> Option<Block>)
    requires start <= upTo + 1
    ensures multiset(AllLogs(Emission(start, upTo, end, logs, blockAt))) == multiset(InRange(logs, start, upTo))
    decreases upTo - start + 1
  {
    if start > upTo {
      InRangeEmpty(logs, start, upTo);
    } else {
      var front := Emission(start, upTo - 1, end, logs, blockAt);
      LogsInRangeConserved(start, upTo - 1, end, logs, blockAt);
      AllLogsSnoc(front, ItemAt(upTo, end, logs, blockAt));
      InRangeGrows(logs, start, upTo);
    }
  }

  lemma AllLogsSnoc(items: seq<BlockData>, item: BlockData)
    ensures AllLogs(items + [item]) == AllLogs(items) + item.logs
  {
    assert (items + [item])[..|items|] == items;
  }

  ghost predicate Conserved(start: int, end: int, logs: seq<Log>, emitted: seq<Log>) {
    && multiset(emitted) == multiset(InRange(logs, start, end))
    && ((forall i :: 0 <= i < |logs| ==> start <= logs[i].blockNumber <= end) ==> multiset(emitted) == multiset(logs))
  }

  /** No log is lost, duplicated or invented: the items of a job together carry exactly the logs in its range, each
      as often as the query returned it, and so all of them when they all lie in range. */
  lemma {:induction false} LogsConserved(start: int, end: int, logs: seq<Log>, blockAt: int -> Option<Block>)
    requires start <= end
    ensures Conserved(start, end, logs, AllLogs(Emission(start, end, end, logs, blockAt)))
  {
    LogsInRangeConserved(start, end, end, logs, blockAt);
    if forall i :: 0 <= i < |logs| ==> start <= logs[i].blockNumber <= end {
      InRangeAll(logs, start, end);
    }
  }

  /** The items of a job have the heights start, start+1, ..., end; each carries its height's logs in their original
      order; an item with logs, or at the end of the job, carries the block fetched for it, any other item none; and
      only a refused block makes an item an error. */
  lemma EmissionAscends(start: int, end: int, logs: seq<Log>, blockAt: int -> Option<Block>, i: nat)
    requires start + i <= end
    ensures var items := Emission(start, end, end, logs, blockAt);
      && |items| == end - start + 1
      && items[i].number == Some(start + i)
      && items[i].logs == LogsOf(logs, start + i)
      && (forall j :: 0 <= j < |items[i].logs| ==> items[i].logs[j].blockNumber == start + i)
      && items[i].block == (if items[i].logs != [] || i == |items| - 1 then blockAt(start + i) else None)
      && (items[i].failed <==> (items[i].logs != [] || i == |items| - 1) && blockAt(start + i).None?)
  {
    EmissionAt(start, end, end, logs, blockAt);
    LogsOfBlock(logs, start + i);
  }

  /** Which of the first n logs are of block h. */
  ghost function AtHeight(logs: seq<Log>, n: nat, h: int): set<int>
    requires n <= |logs|
  {
    set i | 0 <= i < n && logs[i].blockNumber == h
  }

  lemma AtHeightGrows(logs: seq<Log>, n: nat, h: int)
    requires n < |logs|
    ensures |AtHeight(logs, n + 1, h)| == |AtHeight(logs, n, h)| + if logs[n].blockNumber == h then 1 else 0
  {
    var before, after := AtHeight(logs, n, h), AtHeight(logs, n + 1, h);
    assert forall i :: i in after <==> i in before || (i == n && logs[n].blockNumber == h);
    hide AtHeight;
    if logs[n].blockNumber == h {
      assert after == before + {n};
    } else {
      assert after == before;
    }
  }

  /** The logs of a block keep their order: each comes after as many as there are of that block before it. */
  lemma {:induction false} LogsKeepOrder(logs: seq<Log>, n: nat, h: int)
    requires n <= |logs|
    ensures |LogsOf(logs[..n], h)| == |AtHeight(logs, n, h)|
    ensures forall i :: 0 <= i < n && logs[i].blockNumber == h ==>
      |AtHeight(logs, i, h)| < |AtHeight(logs, n, h)| && LogsOf(logs[..n], h)[|AtHeight(logs, i, h)|] == logs[i]
    decreases n
  {
    if n == 0 {
      assert AtHeight(logs, 0, h) == {};
    } else {
      LogsKeepOrder(logs, n - 1, h);
      AtHeightGrows(logs, n - 1, h);
      assert logs[..n][..n - 1] == logs[..n - 1];
      assert LogsOf(logs[..n], h) ==
        LogsOf(logs[..n - 1], h) + if logs[n - 1].blockNumber == h then [logs[n - 1]] else [];
      hide LogsOf;
      hide AtHeight;
    }
  }

  lemma {:induction false} LogsOfBlock(logs: seq<Log>, h: int)
    ensures forall i :: 0 <= i < |LogsOf(logs, h)| ==> LogsOf(logs, h)[i].blockNumber == h
    decreases |logs|
  {
    if logs != [] { LogsOfBlock(logs[..|logs| - 1], h); }
  }
}
