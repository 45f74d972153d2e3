// The orchestrator's command machine: heights, cursor and the adaptive safety buffer.
module Orchestrating {
  import opened Blocks

  /** The commands that touch heights, cursor or safety buffer, and the merge timer; every other command is Other. */
  datatype Msg =
    | UpdateChainHeight(height: nat)
    | FetchFailed(notFound: bool)
    | FetchSuccess
    | NotifyFetched(height: nat)
    | CommitDisk(height: nat)
    | ResetCursor(height: nat)
    | MergeTick
    | Other

  datatype Coordinator = Coordinator(
    latestHeight: nat, targetHeight: nat, fetchedHeight: nat, syncedCursor: nat,
    safetyBuffer: nat, successCount: nat, pending: Option<nat>)

  function Handle(s: Coordinator, m: Msg): Coordinator {
    match m
    case UpdateChainHeight(h) =>
      if h > s.latestHeight
      then s.(pending := Some(h), targetHeight := if h > s.safetyBuffer then h - s.safetyBuffer else 0) else s
    case FetchFailed(notFound) =>
      if notFound
      then s.(successCount := 0, safetyBuffer := if s.safetyBuffer < 20 then s.safetyBuffer + 1 else s.safetyBuffer)
      else s
    case FetchSuccess =>
      if s.successCount + 1 >= 50 && s.safetyBuffer > 1
      then s.(safetyBuffer := s.safetyBuffer - 1, successCount := 0) else s.(successCount := s.successCount + 1)
    case NotifyFetched(h) => if h > s.fetchedHeight then s.(fetchedHeight := h) else s
    case CommitDisk(h) => if h > s.syncedCursor then s.(syncedCursor := h) else s
    case ResetCursor(h) => s.(syncedCursor := h)
    case MergeTick =>
      if s.pending.Some?
      then s.(latestHeight := if s.pending.value > s.latestHeight then s.pending.value else s.latestHeight,
              pending := None)
      else s
    case Other => s
  }

  function HandleAll(s: Coordinator, msgs: seq<Msg>): Coordinator
    decreases |msgs|
  {
    if msgs == [] then s else Handle(HandleAll(s, msgs[..|msgs| - 1]), msgs[|msgs| - 1])
  }

  /** The orchestrator's state and the snapshot that others read.  A command publishes the state when it has been
      handled; the merge timer does not, so a merged height is seen only after the next command. */
  datatype Board = Board(state: Coordinator, snapshot: Coordinator)

  function Publish(b: Board, m: Msg): Board {
    var s := Handle(b.state, m);
    Board(s, if m.MergeTick? then b.snapshot else s)
  }

  function PublishAll(b: Board, msgs: seq<Msg>): Board
    decreases |msgs|
  {
    if msgs == [] then b else Publish(PublishAll(b, msgs[..|msgs| - 1]), msgs[|msgs| - 1])
  }

  class Orchestrator {
    var latestHeight: nat
    var targetHeight: nat
    var fetchedHeight: nat
    var syncedCursor: nat
    var safetyBuffer: nat
    var successCount: nat
    var pendingHeightUpdate: Option<nat>
    var snapshot: Coordinator

    function State(): Coordinator
      reads this
    {
      Coordinator(latestHeight, targetHeight, fetchedHeight, syncedCursor, safetyBuffer, successCount,
        pendingHeightUpdate)
    }

    function Published(): Board
      reads this
    {
      Board(State(), snapshot)
    }

    constructor ()
      ensures Published() == Board(Coordinator(0, 0, 0, 0, 1, 0, None), Coordinator(0, 0, 0, 0, 0, 0, None))
    {
      latestHeight, targetHeight, fetchedHeight, syncedCursor := 0, 0, 0, 0;
      safetyBuffer, successCount, pendingHeightUpdate := 1, 0, None;
      snapshot := Coordinator(0, 0, 0, 0, 0, 0, None);
    }

    /** A command, or the merge timer. */
    method Process(m: Msg)
      modifies this
      ensures State() == Handle(old(State()), m)
      ensures Published() == Publish(old(Published()), m)
    {
      match m {
        case UpdateChainHeight(h) =>
          if h > latestHeight {
            pendingHeightUpdate := Some(h);
            if h > safetyBuffer { targetHeight := h - safetyBuffer; } else { targetHeight := 0; }
          }
        case FetchFailed(notFound) =>
          if notFound {
            successCount := 0;
            if safetyBuffer < 20 { safetyBuffer := safetyBuffer + 1; }
          }
        case FetchSuccess =>
          successCount := successCount + 1;
          if successCount >= 50 && safetyBuffer > 1 {
            safetyBuffer := safetyBuffer - 1;
            successCount := 0;
          }
        case NotifyFetched(h) =>
          if h > fetchedHeight { fetchedHeight := h; }
        case CommitDisk(h) =>
          if h > syncedCursor { syncedCursor := h; }
        case ResetCursor(h) =>
          syncedCursor := h;
        case MergeTick =>
          FlushPendingHeightUpdate();
        case Other =>
      }
      if !m.MergeTick? { snapshot := State(); }
    }

    method FlushPendingHeightUpdate()
      modifies this
      ensures State() == Handle(old(State()), MergeTick) && snapshot == old(snapshot)
    {
      if pendingHeightUpdate.Some? {
        var h := pendingHeightUpdate.value;
        if h > latestHeight { latestHeight := h; }
        pendingHeightUpdate := None;
      }
    }

    method Loop(msgs: seq<Msg>)
      modifies this
      ensures State() == HandleAll(old(State()), msgs)
      ensures Published() == PublishAll(old(Published()), msgs)
    {
      var i := 0;
      while i < |msgs|
        invariant 0 <= i <= |msgs| && State() == HandleAll(old(State()), msgs[..i])
        invariant Published() == PublishAll(old(Published()), msgs[..i])
      {
        assert msgs[..i + 1][..i] == msgs[..i];
        Process(msgs[i]);
        i := i + 1;
      }
      assert msgs[..i] == msgs;
    }
  }

  // --- invariants of every run ---

  /** The safety buffer is in range, the target is no further than what the chain was seen to reach, and while the
      buffer is raised fewer than 50 successes are counted towards lowering it. */
  ghost predicate Good(s: Coordinator) {
    && 1 <= s.safetyBuffer <= 20
    && (s.targetHeight <= s.latestHeight || (s.pending.Some? && s.targetHeight <= s.pending.value))
    && (s.safetyBuffer > 1 ==> s.successCount < 50)
  }

  /** Heights only grow; the cursor falls only at a reset in between. */
  ghost predicate Grows(s: Coordinator, t: Coordinator, msgs: seq<Msg>) {
    && s.latestHeight <= t.latestHeight
    && s.fetchedHeight <= t.fetchedHeight
    && (t.syncedCursor < s.syncedCursor ==> exists i :: 0 <= i < |msgs| && msgs[i].ResetCursor?)
  }

  lemma {:induction false} RunsStayGood(s: Coordinator, msgs: seq<Msg>)
    requires Good(s)
    ensures Good(HandleAll(s, msgs)) && Grows(s, HandleAll(s, msgs), msgs)
    decreases |msgs|
  {
    if msgs != [] {
      var n := |msgs| - 1;
      RunsStayGood(s, msgs[..n]);
      if i :| 0 <= i < n && msgs[..n][i].ResetCursor? { assert msgs[i].ResetCursor?; }
      assert msgs[n].ResetCursor? ==> exists i :: 0 <= i < |msgs| && msgs[i].ResetCursor?;
    }
  }

  function Successes(msgs: seq<Msg>): nat
    decreases |msgs|
  {
    if msgs == [] then 0 else Successes(msgs[..|msgs| - 1]) + if msgs[|msgs| - 1].FetchSuccess? then 1 else 0
  }

  /** How often a run lowers the safety buffer. */
  function Lowerings(s: Coordinator, msgs: seq<Msg>): nat
    decreases |msgs|
  {
    if msgs == [] then 0 else
    var front := msgs[..|msgs| - 1];
    Lowerings(s, front) + if HandleAll(s, msgs).safetyBuffer < HandleAll(s, front).safetyBuffer then 1 else 0
  }

  /** Successes counted towards the next lowering. */
  function Credit(s: Coordinator): nat {
    if s.safetyBuffer > 1 then s.successCount else 0
  }

  lemma {:induction false} LoweringIsPaid(s: Coordinator, msgs: seq<Msg>)
    requires Good(s)
    ensures 50 * Lowerings(s, msgs) + Credit(HandleAll(s, msgs)) <= Successes(msgs) + Credit(s)
    decreases |msgs|
  {
    if msgs != [] {
      LoweringIsPaid(s, msgs[..|msgs| - 1]);
      RunsStayGood(s, msgs[..|msgs| - 1]);
    }
  }

  /** Every stretch of a run lowers the safety buffer at most once per 50 success messages, a first time with what
      had been counted before. */
  lemma LoweredAtMostEveryFifty(s: Coordinator, msgs: seq<Msg>)
    requires Good(s)
    ensures 50 * Lowerings(s, msgs) <= Successes(msgs) + 49
    ensures Credit(s) == 0 ==> 50 * Lowerings(s, msgs) <= Successes(msgs)
  {
    LoweringIsPaid(s, msgs);
  }

  // --- what a run leaves, read off its messages ---

  lemma HandleLast(s: Coordinator, msgs: seq<Msg>, k: nat)
    requires k < |msgs|
    ensures HandleAll(s, msgs[..k + 1]) == Handle(HandleAll(s, msgs[..k]), msgs[k])
  {
    assert msgs[..k + 1][..k] == msgs[..k];
  }

  /** r is the greatest of base and the heights from message k on that `reports`. */
  ghost predicate Greatest(r: nat, base: nat, msgs: seq<Msg>, k: nat, reports: Msg -> Option<nat>)
  {
    && base <= r
    && (forall i :: k <= i < |msgs| && reports(msgs[i]).Some? ==> reports(msgs[i]).value <= r)
    && (r == base || exists i :: k <= i < |msgs| && reports(msgs[i]) == Some(r))
  }

  function Committed(m: Msg): Option<nat> {
    if m.CommitDisk? then Some(m.height) else None
  }

  function Notified(m: Msg): Option<nat> {
    if m.NotifyFetched? then Some(m.height) else None
  }

  lemma GreatestGrows(r: nat, base: nat, msgs: seq<Msg>, k: nat, n: nat, reports: Msg -> Option<nat>)
    requires k <= n < |msgs| && Greatest(r, base, msgs[..n], k, reports)
    ensures var h := reports(msgs[n]);
      Greatest(if h.Some? && h.value > r then h.value else r, base, msgs[..n + 1], k, reports)
  {
    var front, all, h := msgs[..n], msgs[..n + 1], reports(msgs[n]);
    assert forall i :: 0 <= i < n ==> all[i] == front[i];
    assert all[n] == msgs[n];
    if r != base {
      var i :| k <= i < n && reports(front[i]) == Some(r);
      assert reports(all[i]) == Some(r);
    }
  }

  lemma GreatestAtStart(base: nat, msgs: seq<Msg>, k: nat, reports: Msg -> Option<nat>)
    requires |msgs| == k
    ensures Greatest(base, base, msgs, k, reports)
  {
  }

  lemma HandleReports(s: Coordinator, m: Msg)
    ensures var (h, f) := (Committed(m), Notified(m));
      && (!m.ResetCursor? ==>
          Handle(s, m).syncedCursor == if h.Some? && h.value > s.syncedCursor then h.value else s.syncedCursor)
      && Handle(s, m).fetchedHeight == if f.Some? && f.value > s.fetchedHeight then f.value else s.fetchedHeight
  {
  }

  lemma HandleKeepsHeights(s: Coordinator, m: Msg)
    requires !m.UpdateChainHeight? && !m.MergeTick?
    ensures var t := Handle(s, m);
      t.latestHeight == s.latestHeight && t.pending == s.pending && t.targetHeight == s.targetHeight
  {
  }

  lemma HandleCounts(s: Coordinator, m: Msg)
    requires !(m.FetchFailed? && m.notFound)
    ensures var t := Handle(s, m);
      if !m.FetchSuccess? then t.safetyBuffer == s.safetyBuffer && t.successCount == s.successCount
      else if s.successCount + 1 >= 50 && s.safetyBuffer > 1
      then t.safetyBuffer == s.safetyBuffer - 1 && t.successCount == 0
      else t.safetyBuffer == s.safetyBuffer && t.successCount == s.successCount + 1
  {
  }

  /** The cursor after any run is the greatest height committed since the last reset, or where that reset put it if
      that is greater; without a reset, the cursor before the run counts as one. */
  lemma {:induction false} CursorIsGreatestCommit(s: Coordinator, msgs: seq<Msg>, k: nat, n: nat)
    requires k <= n <= |msgs| && forall i :: k <= i < n ==> !msgs[i].ResetCursor?
    requires k > 0 ==> msgs[k - 1].ResetCursor?
    ensures Greatest(HandleAll(s, msgs[..n]).syncedCursor, if k > 0 then msgs[k - 1].height
      else s.syncedCursor, msgs[..n], k,
              Committed)
    decreases n
  {
    var base := if k > 0 then msgs[k - 1].height else s.syncedCursor;
    if n > k {
      CursorIsGreatestCommit(s, msgs, k, n - 1);
      GreatestGrows(HandleAll(s, msgs[..n - 1]).syncedCursor, base, msgs, k, n - 1, Committed);
      HandleLast(s, msgs, n - 1);
      HandleReports(HandleAll(s, msgs[..n - 1]), msgs[n - 1]);
      hide *;
    } else {
      GreatestAtStart(base, msgs[..n], k, Committed);
      if k > 0 { HandleLast(s, msgs, k - 1); }
      hide Greatest;
    }
  }

  /** The fetched height is the greatest one notified, or the one before the run. */
  lemma {:induction false} FetchedIsGreatestNotice(s: Coordinator, msgs: seq<Msg>, n: nat)
    requires n <= |msgs|
    ensures Greatest(HandleAll(s, msgs[..n]).fetchedHeight, s.fetchedHeight, msgs[..n], 0, Notified)
    decreases n
  {
    if n == 0 {
      GreatestAtStart(s.fetchedHeight, msgs[..0], 0, Notified);
    } else {
      FetchedIsGreatestNotice(s, msgs, n - 1);
      GreatestGrows(HandleAll(s, msgs[..n - 1]).fetchedHeight, s.fetchedHeight, msgs, 0, n - 1, Notified);
      HandleLast(s, msgs, n - 1);
      HandleReports(HandleAll(s, msgs[..n - 1]), msgs[n - 1]);
      hide *;
    }
  }

  /** Height h waits, and the target is already behind it by the safety buffer of the moment at which it came. */
  predicate Waits(before: Coordinator, t: Coordinator, h: nat) {
    && t.latestHeight == before.latestHeight && t.pending == Some(h)
    && t.targetHeight == if h > before.safetyBuffer then h - before.safetyBuffer else 0
  }

  lemma NewHeightWaits(s: Coordinator, h: nat)
    requires h > s.latestHeight
    ensures Waits(s, Handle(s, UpdateChainHeight(h)), h)
  {
  }

  /** Until the next merge a new chain height waits; the target does not. */
  lemma {:induction false} HeightWaits(s: Coordinator, msgs: seq<Msg>, k: nat, n: nat)
    requires k < n <= |msgs| && msgs[k].UpdateChainHeight? && msgs[k].height > HandleAll(s, msgs[..k]).latestHeight
    requires forall i :: k < i < n ==> !msgs[i].UpdateChainHeight? && !msgs[i].MergeTick?
    ensures Waits(HandleAll(s, msgs[..k]), HandleAll(s, msgs[..n]), msgs[k].height)
    decreases n
  {
    HandleLast(s, msgs, n - 1);
    hide HandleAll;
    hide Handle;
    if n == k + 1 {
      NewHeightWaits(HandleAll(s, msgs[..k]), msgs[k].height);
    } else {
      HeightWaits(s, msgs, k, n - 1);
      assert !msgs[n - 1].UpdateChainHeight? && !msgs[n - 1].MergeTick?;
      HandleKeepsHeights(HandleAll(s, msgs[..n - 1]), msgs[n - 1]);
    }
  }

  /** And at the next merge it becomes the latest height. */
  lemma HeightMerges(s: Coordinator, msgs: seq<Msg>, k: nat, n: nat)
    requires k < n < |msgs| && msgs[k].UpdateChainHeight? && msgs[k].height > HandleAll(s, msgs[..k]).latestHeight
    requires forall i :: k < i < n ==> !msgs[i].UpdateChainHeight? && !msgs[i].MergeTick?
    requires msgs[n].MergeTick?
    ensures HandleAll(s, msgs[..n + 1]) ==
      HandleAll(s, msgs[..n]).(latestHeight := msgs[k].height, pending := None)
  {
    HeightWaits(s, msgs, k, n);
    HandleLast(s, msgs, n);
    hide HandleAll;
  }

  /** A chain height that is not new changes nothing, and neither does a merge when none waits. */
  lemma OldHeightChangesNothing(s: Coordinator, h: nat)
    ensures h <= s.latestHeight ==> HandleAll(s, [UpdateChainHeight(h)]) == s
    ensures s.pending.None? ==> HandleAll(s, [MergeTick]) == s
  {
    HandleLast(s, [UpdateChainHeight(h)], 0);
    HandleLast(s, [MergeTick], 0);
    assert [UpdateChainHeight(h)][..1] == [UpdateChainHeight(h)] && [MergeTick][..1] == [MergeTick];
  }

  function NotFounds(msgs: seq<Msg>): nat
    decreases |msgs|
  {
    if msgs == [] then 0 else
    var last := msgs[|msgs| - 1];
    NotFounds(msgs[..|msgs| - 1]) + if last.FetchFailed? && last.notFound then 1 else 0
  }

  lemma LastMessage(s: Coordinator, msgs: seq<Msg>)
    requires msgs != []
    ensures var (front, last) := (msgs[..|msgs| - 1], msgs[|msgs| - 1]);
      && HandleAll(s, msgs) == Handle(HandleAll(s, front), last)
      && Successes(msgs) == Successes(front) + (if last.FetchSuccess? then 1 else 0)
      && NotFounds(msgs) == NotFounds(front) + (if last.FetchFailed? && last.notFound then 1 else 0)
  {
  }

  /** Without a success in between, k failures to find a block raise the safety buffer by k, up to 20. */
  lemma {:induction false} RaisedByNotFounds(s: Coordinator, msgs: seq<Msg>)
    requires s.safetyBuffer <= 20 && forall i :: 0 <= i < |msgs| ==> !msgs[i].FetchSuccess?
    ensures var raised := s.safetyBuffer + NotFounds(msgs);
      HandleAll(s, msgs).safetyBuffer == if raised < 20 then raised else 20
    decreases |msgs|
  {
    if msgs != [] {
      var front, last := msgs[..|msgs| - 1], msgs[|msgs| - 1];
      assert !last.FetchSuccess?;
      RaisedByNotFounds(s, front);
      var t := HandleAll(s, front);
      LastMessage(s, msgs);
      hide HandleAll;
      hide NotFounds;
    }
  }

  /** What `total` successes make of a safety buffer b > 1: every 50 of them lower it by 1, down to 1. */
  predicate Lowered(b: nat, total: nat, safetyBuffer: nat, successCount: nat) {
    && (total < 50 * (b - 1) ==> safetyBuffer == b - total / 50 && successCount == total % 50)
    && (total >= 50 * (b - 1) ==> safetyBuffer == 1 && successCount == total - 50 * (b - 1))
  }

  lemma OneMoreSuccess(b: nat, total: nat, safetyBuffer: nat, successCount: nat)
    requires b > 1 && Lowered(b, total, safetyBuffer, successCount)
    ensures if successCount + 1 >= 50 && safetyBuffer > 1 then Lowered(b, total + 1, safetyBuffer - 1, 0)
      else Lowered(b, total + 1, safetyBuffer, successCount + 1)
  {
    var q, r := total / 50, total % 50;
    assert total == 50 * q + r && total + 1 == if r < 49 then 50 * q + (r + 1) else 50 * (q + 1);
  }

  lemma NoneLowered(b: nat, successCount: nat)
    requires b > 1 && successCount < 50
    ensures Lowered(b, successCount, b, successCount)
  {
  }

  lemma MessageLowers(b: nat, total: nat, s: Coordinator, m: Msg)
    requires b > 1 && Lowered(b, total, s.safetyBuffer, s.successCount) && !(m.FetchFailed? && m.notFound)
    ensures Lowered(b, total + if m.FetchSuccess? then 1 else 0, Handle(s, m).safetyBuffer, Handle(s, m).successCount)
  {
    OneMoreSuccess(b, total, s.safetyBuffer, s.successCount);
    HandleCounts(s, m);
    hide *;
  }

  /** Without such a failure in between, every 50 successes, counting those before the run, lower the safety buffer
      by 1, down to 1. */
  lemma {:induction false} LoweredBySuccesses(s: Coordinator, msgs: seq<Msg>)
    requires 1 < s.safetyBuffer && s.successCount < 50
    requires forall i :: 0 <= i < |msgs| ==> !(msgs[i].FetchFailed? && msgs[i].notFound)
    ensures var t := HandleAll(s, msgs);
      Lowered(s.safetyBuffer, s.successCount + Successes(msgs), t.safetyBuffer, t.successCount)
    decreases |msgs|
  {
    if msgs == [] {
      NoneLowered(s.safetyBuffer, s.successCount);
      hide Lowered;
    } else {
      var front, last := msgs[..|msgs| - 1], msgs[|msgs| - 1];
      LastMessage(s, msgs);
      hide *;
      assert !(last.FetchFailed? && last.notFound);
      LoweredBySuccesses(s, front);
      MessageLowers(s.safetyBuffer, s.successCount + Successes(front), HandleAll(s, front), last);
    }
  }

  /** What others read is the state that the last command left; a merge after it is not seen. */
  lemma {:induction false} SnapshotIsLastCommand(b: Board, msgs: seq<Msg>, k: nat, n: nat)
    requires k < n <= |msgs| && !msgs[k].MergeTick? && forall i :: k < i < n ==> msgs[i].MergeTick?
    ensures PublishAll(b, msgs[..n]).state == HandleAll(b.state, msgs[..n])
    ensures PublishAll(b, msgs[..n]).snapshot == HandleAll(b.state, msgs[..k + 1])
    decreases n
  {
    StatePublished(b, msgs[..n]);
    assert msgs[..n][..n - 1] == msgs[..n - 1];
    if n > k + 1 { SnapshotIsLastCommand(b, msgs, k, n - 1); }
  }

  lemma {:induction false} StatePublished(b: Board, msgs: seq<Msg>)
    ensures PublishAll(b, msgs).state == HandleAll(b.state, msgs)
    decreases |msgs|
  {
    if msgs != [] { StatePublished(b, msgs[..|msgs| - 1]); }
  }
}
