// With a processor that accepts everything and error-free results, neither the order of arrival, nor duplicates,
// nor the batched fast path changes what is delivered.
module SequencerOrder {
  import opened Blocks
  import opened SequencerModel
  import opened SequencerDrain

  /** f is the least number >= base that is neither held nor seen. */
  ghost predicate IsFrontier(base: int, held: set<int>, seen: set<int>, f: int) {
    base <= f && f !in held && f !in seen && forall k :: base <= k < f ==> k in held || k in seen
  }

  ghost function Frontier(base: int, seen: set<int>): (f: int)
    ensures IsFrontier(base, {}, seen, f)
    decreases |seen|
  {
    if base !in seen then base else
    var f := Frontier(base + 1, seen - {base});
    assert forall k :: base <= k < f ==> k == base || k in seen - {base};
    f
  }

  ghost function Pending(base: int, seen: set<int>): set<int> {
    set k | k in seen && k > Frontier(base, seen)
  }

  ghost predicate NoSkips(before: seq<Entry>, after: seq<Entry>) {
    && before <= after
    && forall i :: |before| <= i < |after| ==> after[i].Delivered?
  }

  /** s descends, without a skip, from a state that expected e, had buffered the heights `held` and had written `log`,
      through results for the heights `seen`, in any order.  Keys below the expected block are left open. */
  ghost predicate Tracks(s: State, e: int, held: set<int>, log: seq<Entry>, seen: set<int>) {
    && Keyed(s)
    && Delivers(log, e, s.ledger, s.expected)
    && (if e in seen then IsFrontier(e, held, seen, s.expected) && s.expected !in s.buffer else s.expected == e)
    && forall k :: k > s.expected ==> (k in s.buffer <==> k in held || k in seen)
  }

  ghost predicate Overflowed(s: State, t: State) {
    && s.ledger < t.ledger
    && t.ledger[|s.ledger|].Skipped?
  }

  // --- one step ---

  lemma DrainAccepts(c: Config, s: State)
    requires AlwaysOk(c) && Keyed(s)
    ensures var t := DrainLoop(c, s);
      && (forall k :: s.expected <= k < t.expected ==> k in s.buffer)
      && t.expected !in s.buffer
      && Delivers(s.ledger, s.expected, t.ledger, t.expected)
      && Keyed(t)
      && t.buffer == Without(s.buffer, s.expected, t.expected)
      && t.paused == s.paused
    decreases |s.buffer|
  {
    if s.expected in s.buffer {
      var next := TakeNext(c, s).0;
      DrainTakes(c, s);
      DrainAccepts(c, next);
      hide DrainLoop;
      var t := DrainLoop(c, s);
      DeliversOneMore(s.ledger, s.buffer[s.expected], s.expected, t.ledger, t.expected);
      forall k | s.expected <= k < t.expected ensures k in s.buffer {
        assert k == s.expected || k in next.buffer;
      }
      assert Without(next.buffer, next.expected, t.expected) == Without(s.buffer, s.expected, t.expected);
    } else {
      assert Without(s.buffer, s.expected, s.expected) == s.buffer;
    }
  }

  predicate InSpan(k: int, from: int, to: int) {
    from <= k < to
  }

  ghost function Span(from: int, to: int): set<int> {
    set k: int | from <= k < to && InSpan(k, from, to)
  }

  /** The heights s.expected..t.expected-1 arrive and are delivered, then the buffer is drained. */
  lemma AdvanceTracks(c: Config, s: State, t: State, e: int, held: set<int>, log: seq<Entry>, seen: set<int>)
    requires AlwaysOk(c) && Tracks(s, e, held, log, seen)
    requires t.buffer == s.buffer && s.expected < t.expected
    requires Delivers(s.ledger, s.expected, t.ledger, t.expected)
    ensures Tracks(Drain(c, t), e, held, log, seen + Span(s.expected, t.expected))
    ensures t.ledger <= Drain(c, t).ledger
    ensures Drain(c, t).buffer == Without(t.buffer, t.expected, Drain(c, t).expected)
  {
    DrainAccepts(c, t);
    var u := Drain(c, t);
    var f := u.expected;
    var seen' := seen + Span(s.expected, t.expected);
    DeliversTrans(s.ledger, s.expected, t.ledger, t.expected, u.ledger, f);
    DeliversTrans(log, e, s.ledger, s.expected, u.ledger, f);
    forall k | e <= k < f ensures k in held || k in seen' {
      if t.expected <= k { assert k in t.buffer; }
    }
    assert IsFrontier(e, held, seen', f);
  }

  lemma InsertTracks(c: Config, s: State, n: int, d: BlockData, e: int, held: set<int>, log: seq<Entry>, seen: set<int>)
    requires Tracks(s, e, held, log, seen) && PositionOf(d) == Some(n) && n > s.expected
    ensures Tracks(s.(buffer := s.buffer[n := d]), e, held, log, seen + {n})
  {
  }

  lemma OverflowIsLogged(c: Config, s: State, wide: State)
    requires AlwaysOk(c) && Keyed(wide) && wide.ledger == s.ledger && |wide.buffer| > BufferLimit(c)
    ensures Overflowed(s, EnforceLimit(c, wide)) && Keyed(EnforceLimit(c, wide))
  {
    var m := MinKey(wide.buffer.Keys);
    var moved := wide.(expected := m, ledger := s.ledger + [Skipped(Overflow, wide.expected, m)]);
    DrainAccepts(c, moved);
    var t := Drain(c, moved);
    assert t.ledger[..|moved.ledger|] == moved.ledger;
    assert t.ledger[|s.ledger|] == moved.ledger[|s.ledger|];
  }

  ghost predicate Overflows(c: Config, s: State, n: int) {
    n > s.expected && |s.buffer.Keys + {n}| > BufferLimit(c)
  }

  ghost predicate PlacedWell(c: Config, s: State, n: int, t: State, e: int, held: set<int>, log: seq<Entry>,
                             seen: set<int>) {
    && s.ledger <= t.ledger
    && Keyed(t)
    && if Overflows(c, s, n) then Overflowed(s, t) else
         Tracks(t, e, held, log, seen + {n}) && t.buffer.Keys == KeysAfter(s, n, t.expected)
  }

  /** The buffered heights after a result for n was placed without overflow and the expected block became f. */
  ghost function KeysAfter(s: State, n: int, f: int): set<int> {
    if n == s.expected then s.buffer.Keys - Span(n + 1, f)
    else if n < s.expected then s.buffer.Keys
    else s.buffer.Keys + {n}
  }

  lemma PlaceNext(c: Config, s: State, d: BlockData, e: int, held: set<int>, log: seq<Entry>, seen: set<int>)
    requires AlwaysOk(c) && Tracks(s, e, held, log, seen) && PositionOf(d) == Some(s.expected)
    ensures PlacedWell(c, s, s.expected, Drain(c, ProcessSequential(c, s, d).0), e, held, log, seen)
  {
    var n := s.expected;
    var t := ProcessSequential(c, s, d).0;
    AdvanceTracks(c, s, t, e, held, log, seen);
    assert Span(n, n + 1) == {n};
    assert s.ledger <= t.ledger;
  }

  lemma PlaceAhead(c: Config, s: State, n: int, d: BlockData, e: int, held: set<int>, log: seq<Entry>, seen: set<int>)
    requires AlwaysOk(c) && Tracks(s, e, held, log, seen) && PositionOf(d) == Some(n) && n > s.expected
    ensures PlacedWell(c, s, n, EnforceLimit(c, s.(buffer := s.buffer[n := d])), e, held, log, seen)
  {
    var wide := s.(buffer := s.buffer[n := d]);
    assert wide.buffer.Keys == s.buffer.Keys + {n};
    InsertTracks(c, s, n, d, e, held, log, seen);
    if Overflows(c, s, n) {
      OverflowIsLogged(c, s, wide);
    }
  }

  lemma PlaceTracks(c: Config, s: State, n: int, d: BlockData, e: int, held: set<int>, log: seq<Entry>, seen: set<int>)
    requires AlwaysOk(c) && Tracks(s, e, held, log, seen) && PositionOf(d) == Some(n)
    ensures var (t, r) := Place(c, s, n, d);
      r.Ok? && PlacedWell(c, s, n, t, e, held, log, seen)
  {
    if n == s.expected {
      PlaceNext(c, s, d, e, held, log, seen);
    } else if n < s.expected {
      assert e in seen ==> IsFrontier(e, held, seen + {n}, s.expected);
    } else {
      PlaceAhead(c, s, n, d, e, held, log, seen);
    }
  }

  lemma CleanIsPlaced(c: Config, s: State, a: Arrival)
    requires Clean(a)
    ensures PositionOf(Hydrate(a)) == Some(HeightOf(a))
    ensures HandleBlock(c, s, a) == Place(c, s, HeightOf(a), Hydrate(a))
  {
  }

  // --- whole sequences ---

  lemma HeightsSplit(a: seq<Arrival>, b: seq<Arrival>)
    requires AllClean(a) && AllClean(b)
    ensures AllClean(a + b) && Heights(a + b) == Heights(a) + Heights(b)
  {
    forall h | h in Heights(a) + Heights(b) ensures h in Heights(a + b) {
      if h in Heights(a) {
        var i :| 0 <= i < |a| && HeightOf(a[i]) == h;
        assert HeightOf((a + b)[i]) == h;
      } else {
        var i :| 0 <= i < |b| && HeightOf(b[i]) == h;
        assert HeightOf((a + b)[|a| + i]) == h;
      }
    }
  }

  lemma HeightsFirst(batch: seq<Arrival>)
    requires AllClean(batch) && batch != []
    ensures AllClean(batch[1..]) && Heights(batch) == {HeightOf(batch[0])} + Heights(batch[1..])
  {
    HeightsSplit(batch[..1], batch[1..]);
    assert batch == batch[..1] + batch[1..];
    assert Heights(batch[..1]) == {HeightOf(batch[0])};
  }

  /** The ledger only grows, and without complaint, when everything is accepted. */
  lemma {:induction false} HandleAllGrows(c: Config, s: State, batch: seq<Arrival>)
    requires AlwaysOk(c) && AllClean(batch) && Keyed(s)
    ensures var (t, r) := HandleAll(c, s, batch); r.Ok? && s.ledger <= t.ledger && Keyed(t)
    decreases |batch|
  {
    if batch != [] {
      var n, d := HeightOf(batch[0]), Hydrate(batch[0]);
      CleanIsPlaced(c, s, batch[0]);
      PlaceTracks(c, s, n, d, s.expected, s.buffer.Keys, s.ledger, {});
      var t := Place(c, s, n, d).0;
      HandleAllGrows(c, t, batch[1..]);
    }
  }

  /** Everything was accepted, and unless something was skipped on the way the final state descends through `seen`. */
  ghost predicate HandledWell(s: State, t: State, r: Outcome, e: int, held: set<int>, log: seq<Entry>, seen: set<int>) {
    r.Ok? && s.ledger <= t.ledger && (NoSkips(log, t.ledger) ==> Tracks(t, e, held, log, seen))
  }

  lemma {:induction false} HandleAllTracks(c: Config, s: State, batch: seq<Arrival>,
                                           e: int, held: set<int>, log: seq<Entry>, seen: set<int>)
    requires AlwaysOk(c) && AllClean(batch) && Tracks(s, e, held, log, seen)
    ensures var (t, r) := HandleAll(c, s, batch); HandledWell(s, t, r, e, held, log, seen + Heights(batch))
    decreases |batch|
  {
    HandleAllGrows(c, s, batch);
    if batch == [] {
      assert seen + Heights(batch) == seen;
    } else {
      var n, d := HeightOf(batch[0]), Hydrate(batch[0]);
      CleanIsPlaced(c, s, batch[0]);
      HeightsFirst(batch);
      PlaceTracks(c, s, n, d, e, held, log, seen);
      var next := Place(c, s, n, d).0;
      var t := HandleAll(c, next, batch[1..]).0;
      if Tracks(next, e, held, log, seen + {n}) {
        HandleAllTracks(c, next, batch[1..], e, held, log, seen + {n});
        assert seen + {n} + Heights(batch[1..]) == seen + Heights(batch);
      } else {
        HandleAllGrows(c, next, batch[1..]);
        assert t.ledger[|s.ledger|] == next.ledger[|s.ledger|];
      }
    }
  }

  // --- the fast path ---

  lemma RunHeights(s: State, batch: seq<Arrival>, i: nat, j: nat)
    requires AllClean(batch) && i < j <= |batch|
    requires forall k :: i <= k < j ==> KeyOf(batch[k].data) == Some(s.expected + (k - i))
    ensures AllClean(batch[i..j]) && Heights(batch[i..j]) == Span(s.expected, s.expected + (j - i))
  {
    var run := batch[i..j];
    forall h | h in Span(s.expected, s.expected + (j - i)) ensures h in Heights(run) {
      assert HeightOf(run[h - s.expected]) == h;
    }
  }

  lemma CommitDelivers(s: State, blocks: seq<BlockData>)
    requires forall k :: 0 <= k < |blocks| ==> KeyOf(blocks[k]) == Some(s.expected + k)
    ensures var t := CommitRun(s, blocks); Delivers(s.ledger, s.expected, t.ledger, t.expected)
  {
  }

  /** A run of two or more goes to the processor as one batch; the rest of the batch is handled one by one. */
  lemma RunTracks(c: Config, s: State, batch: seq<Arrival>, i: nat, j: nat, e: int, held: set<int>, log: seq<Entry>,
                  seen: set<int>)
    requires AlwaysOk(c) && AllClean(batch) && Tracks(s, e, held, log, seen)
    requires i < j <= |batch|
    requires forall k :: i <= k < j ==> KeyOf(batch[k].data) == Some(s.expected + (k - i))
    ensures var u := Drain(c, CommitRun(s, DataOf(batch[i..j])));
      && Tracks(u, e, held, log, seen + Heights(batch[i..j]))
      && s.ledger <= u.ledger
  {
    RunHeights(s, batch, i, j);
    var run := DataOf(batch[i..j]);
    CommitDelivers(s, run);
    AdvanceTracks(c, s, CommitRun(s, run), e, held, log, seen);
  }

  lemma HeightsRotate(batch: seq<Arrival>, i: nat, j: nat)
    requires AllClean(batch) && i <= j <= |batch|
    ensures AllClean(batch[i..j]) && AllClean(batch[j..] + batch[..i])
    ensures Heights(batch) == Heights(batch[i..j]) + Heights(batch[j..] + batch[..i])
  {
    assert batch == batch[..i] + batch[i..j] + batch[j..];
    HeightsSplit(batch[..i], batch[i..j]);
    HeightsSplit(batch[..i] + batch[i..j], batch[j..]);
    HeightsSplit(batch[j..], batch[..i]);
  }

  lemma HandleRunTracks(c: Config, s: State, batch: seq<Arrival>, i: nat, j: nat, e: int, held: set<int>,
                        log: seq<Entry>, seen: set<int>)
    requires AlwaysOk(c) && AllClean(batch) && Tracks(s, e, held, log, seen)
    requires i < j <= |batch|
    requires forall k :: i <= k < j ==> KeyOf(batch[k].data) == Some(s.expected + (k - i))
    ensures var (t, r) := HandleRun(c, s, batch, i, j); HandledWell(s, t, r, e, held, log, seen + Heights(batch))
  {
    if j == i + 1 {
      HeightsRotate(batch, i, i);
      assert Heights(batch[i..i]) == {};
      HandleAllTracks(c, s, batch[i..] + batch[..i], e, held, log, seen);
    } else {
      HeightsRotate(batch, i, j);
      RunTracks(c, s, batch, i, j, e, held, log, seen);
      var u := Drain(c, CommitRun(s, DataOf(batch[i..j])));
      var seen' := seen + Heights(batch[i..j]);
      HandleAllTracks(c, u, batch[j..] + batch[..i], e, held, log, seen');
      assert seen' + Heights(batch[j..] + batch[..i]) == seen + Heights(batch);
    }
  }

  /** A batch is either handled result by result, or from a run on. */
  lemma BatchSplits(c: Config, s: State, batch: seq<Arrival>) returns (i: nat, j: nat)
    ensures var p := PauseIfHigh(c, s);
      if i == |batch| then HandleBatch(c, s, batch) == HandleAll(c, p, batch) else
        && i < j <= |batch| && HandleBatch(c, s, batch) == HandleRun(c, p, batch, i, j)
        && forall k :: i <= k < j ==> KeyOf(batch[k].data) == Some(p.expected + (k - i))
  {
    hide HandleAll;
    hide HandleRun;
    hide KeyOf;
    var p := PauseIfHigh(c, s);
    i := RunStart(p, batch, 0);
    j := |batch|;
    if i < |batch| {
      j := RunEnd(batch, i + 1, s.expected + 1);
      assert StartsRun(p, batch[i]);
    }
  }

  lemma PauseKeeps(c: Config, s: State, e: int, held: set<int>, log: seq<Entry>, seen: set<int>)
    requires Tracks(s, e, held, log, seen)
    ensures Tracks(PauseIfHigh(c, s), e, held, log, seen) && PauseIfHigh(c, s).ledger == s.ledger
  {
    hide Delivers;
  }

  lemma SameStart(p: State, s: State, end: (State, Outcome), e: int, held: set<int>, log: seq<Entry>, seen: set<int>)
    requires p.ledger == s.ledger && HandledWell(p, end.0, end.1, e, held, log, seen)
    ensures HandledWell(s, end.0, end.1, e, held, log, seen)
  {
  }

  lemma HandleBatchTracks(c: Config, s: State, batch: seq<Arrival>, e: int, held: set<int>, log: seq<Entry>,
                          seen: set<int>)
    requires AlwaysOk(c) && AllClean(batch) && Tracks(s, e, held, log, seen)
    ensures var (t, r) := HandleBatch(c, s, batch); HandledWell(s, t, r, e, held, log, seen + Heights(batch))
  {
    hide *;
    var p := PauseIfHigh(c, s);
    PauseKeeps(c, s, e, held, log, seen);
    var i, j := BatchSplits(c, s, batch);
    if i == |batch| {
      HandleAllTracks(c, p, batch, e, held, log, seen);
      SameStart(p, s, HandleAll(c, p, batch), e, held, log, seen + Heights(batch));
    } else {
      HandleRunTracks(c, p, batch, i, j, e, held, log, seen);
      SameStart(p, s, HandleRun(c, p, batch, i, j), e, held, log, seen + Heights(batch));
    }
  }

  // --- main results ---

  ghost predicate SameDeliveries(log: seq<Entry>, a: seq<Entry>, b: seq<Entry>) {
    && log <= a && log <= b && |a| == |b|
    && forall i :: |log| <= i < |a| ==> a[i].Delivered? && b[i].Delivered? && a[i].number == b[i].number
  }

  /** Two outcomes reached from the same ledger agree: both succeeded, the same heights were delivered in the same
      order, the expected block is the same, and so are the buffered heights above it. */
  ghost predicate Agree(log: seq<Entry>, a: (State, Outcome), b: (State, Outcome)) {
    && a.1.Ok? && b.1.Ok?
    && SameDeliveries(log, a.0.ledger, b.0.ledger)
    && a.0.expected == b.0.expected
    && forall k :: k > a.0.expected ==> (k in a.0.buffer <==> k in b.0.buffer)
  }

  /** The batched path delivers what handling the results one by one delivers, from any state: same heights in the same
      order, same expected block, same buffered heights above it, as long as neither path overflows. */
  lemma {:induction false} FastPathRefines(c: Config, s: State, batch: seq<Arrival>)
    requires AlwaysOk(c) && AllClean(batch) && Keyed(s)
    requires NoSkips(s.ledger, HandleBatch(c, s, batch).0.ledger) && NoSkips(s.ledger, HandleAll(c, s, batch).0.ledger)
    ensures Agree(s.ledger, HandleBatch(c, s, batch), HandleAll(c, s, batch))
  {
    HandleBatchTracks(c, s, batch, s.expected, s.buffer.Keys, s.ledger, {});
    HandleAllTracks(c, s, batch, s.expected, s.buffer.Keys, s.ledger, {});
  }

  /** The fast path leaves a buffered height that also occurs in its run behind, below the expected block. */
  lemma RunLeavesStaleKey(c: Config, s: State, blocks: seq<BlockData>, k: int)
    requires AlwaysOk(c) && Keyed(s)
    requires k in s.buffer && s.expected <= k < s.expected + |blocks|
    ensures var t := Drain(c, CommitRun(s, blocks)); k in t.buffer && k < t.expected
  {
    DrainAccepts(c, CommitRun(s, blocks));
  }

  // --- staying below the buffer limit ---

  /** Only heights in w are buffered, and getting there from s nothing was skipped. */
  ghost predicate Fits(s: State, t: State, w: set<int>) {
    t.buffer.Keys <= w && NoSkips(s.ledger, t.ledger) && s.expected <= t.expected && Keyed(t)
  }

  lemma NoSkipsTrans(a: seq<Entry>, b: seq<Entry>, d: seq<Entry>)
    requires NoSkips(a, b) && NoSkips(b, d)
    ensures NoSkips(a, d)
  {
    assert a == b[..|a|] == d[..|a|];
    forall i | |a| <= i < |d| ensures d[i].Delivered? {
      if i < |b| { assert d[i] == b[i]; }
    }
  }

  ghost predicate Welcome(s: State, batch: seq<Arrival>, w: set<int>) {
    forall i :: 0 <= i < |batch| ==> Clean(batch[i]) && (HeightOf(batch[i]) in w || HeightOf(batch[i]) <= s.expected)
  }

  lemma {:induction false} HandleAllFits(c: Config, s: State, batch: seq<Arrival>, w: set<int>)
    requires AlwaysOk(c) && Keyed(s) && s.buffer.Keys <= w && |w| <= BufferLimit(c)
    requires Welcome(s, batch, w)
    ensures Fits(s, HandleAll(c, s, batch).0, w)
    decreases |batch|
  {
    if batch != [] {
      var n, d := HeightOf(batch[0]), Hydrate(batch[0]);
      CleanIsPlaced(c, s, batch[0]);
      PlaceTracks(c, s, n, d, s.expected, s.buffer.Keys, s.ledger, {});
      var t := Place(c, s, n, d).0;
      if n > s.expected {
        SmallerKeys(s.buffer.Keys + {n}, w);
      }
      assert Fits(s, t, w);
      HandleAllFits(c, t, batch[1..], w);
      NoSkipsTrans(s.ledger, t.ledger, HandleAll(c, t, batch[1..]).0.ledger);
    }
  }

  lemma HandleRunFits(c: Config, s: State, batch: seq<Arrival>, i: nat, j: nat, w: set<int>)
    requires AlwaysOk(c) && Keyed(s) && s.buffer.Keys <= w && |w| <= BufferLimit(c)
    requires Welcome(s, batch, w) && i < j <= |batch|
    requires forall k :: i <= k < j ==> KeyOf(batch[k].data) == Some(s.expected + (k - i))
    ensures Fits(s, HandleRun(c, s, batch, i, j).0, w)
  {
    if j == i + 1 {
      HandleAllFits(c, s, batch[i..] + batch[..i], w);
    } else {
      var run := DataOf(batch[i..j]);
      var u := CommitRun(s, run);
      CommitDelivers(s, run);
      DrainAccepts(c, u);
      var t := Drain(c, u);
      DeliversTrans(s.ledger, s.expected, u.ledger, u.expected, t.ledger, t.expected);
      assert Fits(s, t, w);
      HandleAllFits(c, t, batch[j..] + batch[..i], w);
      NoSkipsTrans(s.ledger, t.ledger, HandleAll(c, t, batch[j..] + batch[..i]).0.ledger);
    }
  }

  lemma PauseFits(c: Config, s: State, batch: seq<Arrival>, w: set<int>)
    ensures var p := PauseIfHigh(c, s);
      && p.buffer == s.buffer && (Keyed(p) <==> Keyed(s)) && (Welcome(p, batch, w) <==> Welcome(s, batch, w))
      && forall t :: Fits(p, t, w) <==> Fits(s, t, w)
  {
    hide Clean;
  }

  /** While the buffered heights and the new ones together are within the limit, neither path skips anything. */
  lemma HandleBatchFits(c: Config, s: State, batch: seq<Arrival>, w: set<int>)
    requires AlwaysOk(c) && Keyed(s) && s.buffer.Keys <= w && |w| <= BufferLimit(c)
    requires Welcome(s, batch, w)
    ensures Fits(s, HandleBatch(c, s, batch).0, w)
  {
    hide *;
    var p := PauseIfHigh(c, s);
    PauseFits(c, s, batch, w);
    var i, j := BatchSplits(c, s, batch);
    if i == |batch| {
      HandleAllFits(c, p, batch, w);
    } else {
      HandleRunFits(c, p, batch, i, j, w);
    }
  }

  /** The refinement with a condition on its inputs alone. */
  lemma {:induction false} FastPathRefinesBelowLimit(c: Config, s: State, batch: seq<Arrival>)
    requires AlwaysOk(c) && AllClean(batch) && Keyed(s)
    requires |s.buffer.Keys + Heights(batch)| <= BufferLimit(c)
    ensures Agree(s.ledger, HandleBatch(c, s, batch), HandleAll(c, s, batch))
  {
    var w := s.buffer.Keys + Heights(batch);
    forall i | 0 <= i < |batch| ensures HeightOf(batch[i]) in w {
      assert HeightOf(batch[i]) in Heights(batch);
    }
    HandleBatchFits(c, s, batch, w);
    HandleAllFits(c, s, batch, w);
    FastPathRefines(c, s, batch);
  }

  // --- order independence from the initial state ---

  /** s is what results for exactly the heights `seen` leave of a fresh sequencer. */
  ghost predicate Settled(s: State, start: int, seen: set<int>) {
    && Tracks(s, start, {}, [], seen)
    && s.expected == Frontier(start, seen)
    && s.buffer.Keys == Pending(start, seen)
  }

  /** After every arrival the pending heights are within the buffer limit. */
  ghost predicate WithinLimit(c: Config, start: int, seen: set<int>, batch: seq<Arrival>)
    requires AllClean(batch)
    decreases |batch|
  {
    && |Pending(start, seen)| <= BufferLimit(c)
    && (batch != [] ==> WithinLimit(c, start, seen + {HeightOf(batch[0])}, batch[1..]))
  }

  lemma FrontierUnique(base: int, seen: set<int>, f: int)
    requires IsFrontier(base, {}, seen, f)
    ensures f == Frontier(base, seen)
  {
  }

  lemma TrackedFrontier(s: State, start: int, seen: set<int>)
    requires Tracks(s, start, {}, [], seen)
    ensures s.expected == Frontier(start, seen)
  {
    if start !in seen { assert s.expected == start; }
    FrontierUnique(start, seen, s.expected);
  }

  lemma PlaceSettlesWithin(c: Config, s: State, t: State, start: int, seen: set<int>, n: int)
    requires Settled(s, start, seen) && !Overflows(c, s, n)
    requires PlacedWell(c, s, n, t, start, {}, [], seen) && s.expected <= t.expected
    ensures Settled(t, start, seen + {n})
  {
    TrackedFrontier(t, start, seen + {n});
    ExactKeys(s, t, start, seen, n);
  }

  /** Nothing below the expected block was buffered before, and nothing is now. */
  lemma ExactKeys(s: State, t: State, start: int, seen: set<int>, n: int)
    requires s.buffer.Keys == Pending(start, seen) && s.expected == Frontier(start, seen)
    requires Tracks(t, start, {}, [], seen + {n}) && t.expected == Frontier(start, seen + {n}) &&
      s.expected <= t.expected
    requires t.buffer.Keys == KeysAfter(s, n, t.expected)
    ensures t.buffer.Keys == Pending(start, seen + {n})
  {
    forall k | k in t.buffer.Keys ensures k > t.expected {
      assert k in s.buffer.Keys || k == n;
      assert k > s.expected;
      if n == s.expected { assert InSpan(k, n + 1, t.expected) ==> k in Span(n + 1, t.expected); }
      if n == s.expected && start in seen + {n} { assert k != t.expected; }
    }
    forall k ensures k in t.buffer.Keys <==> k in Pending(start, seen + {n}) {
      if k > t.expected { assert k in t.buffer <==> k in seen + {n}; }
    }
  }

  lemma PendingGrows(c: Config, s: State, start: int, seen: set<int>, n: int)
    requires Settled(s, start, seen) && |s.buffer| <= BufferLimit(c)
    ensures |Pending(start, seen + {n})| <= BufferLimit(c) <==> !Overflows(c, s, n)
  {
    var p, q := Pending(start, seen), Pending(start, seen + {n});
    if n > s.expected {
      FrontierUnique(start, seen + {n}, s.expected);
      assert q == s.buffer.Keys + {n};
    } else {
      assert Frontier(start, seen + {n}) >= s.expected;
      SmallerKeys(q, p);
      assert |p| == |s.buffer|;
    }
  }

  lemma PlaceSettles(c: Config, s: State, start: int, seen: set<int>, n: int, d: BlockData)
    requires AlwaysOk(c) && Settled(s, start, seen) && |s.buffer| <= BufferLimit(c) && PositionOf(d) == Some(n)
    ensures var t := Place(c, s, n, d).0;
      if |Pending(start, seen + {n})| <= BufferLimit(c)
      then Settled(t, start, seen + {n}) && |t.buffer| <= BufferLimit(c) else Overflowed(s, t)
  {
    var t := Place(c, s, n, d).0;
    PlaceTracks(c, s, n, d, start, {}, [], seen);
    PendingGrows(c, s, start, seen, n);
    if !Overflows(c, s, n) {
      PlaceSettlesWithin(c, s, t, start, seen, n);
      assert |t.buffer| == |t.buffer.Keys|;
    }
  }

  /** Nothing was skipped exactly if the pending heights stayed within the limit, and then the sequencer is settled. */
  ghost predicate SettlesAll(c: Config, s: State, start: int, seen: set<int>, batch: seq<Arrival>,
                             out: (State, Outcome))
    requires AllClean(batch)
  {
    && out.1.Ok?
    && (WithinLimit(c, start, seen, batch) <==> NoSkips(s.ledger, out.0.ledger))
    && (WithinLimit(c, start, seen, batch) ==> Settled(out.0, start, seen + Heights(batch)))
  }

  lemma {:induction false} HandleAllSettles(c: Config, s: State, start: int, seen: set<int>, batch: seq<Arrival>)
    requires AlwaysOk(c) && AllClean(batch) && Settled(s, start, seen) && |s.buffer| <= BufferLimit(c)
    ensures SettlesAll(c, s, start, seen, batch, HandleAll(c, s, batch))
    decreases |batch|
  {
    HandleAllGrows(c, s, batch);
    if batch == [] {
      assert seen + Heights(batch) == seen;
    } else {
      var n, d := HeightOf(batch[0]), Hydrate(batch[0]);
      CleanIsPlaced(c, s, batch[0]);
      HeightsFirst(batch);
      PlaceSettles(c, s, start, seen, n, d);
      var next := Place(c, s, n, d).0;
      var t := HandleAll(c, next, batch[1..]).0;
      PlaceTracks(c, s, n, d, start, {}, [], seen);
      HandleAllGrows(c, next, batch[1..]);
      if |Pending(start, seen + {n})| <= BufferLimit(c) {
        HandleAllSettles(c, next, start, seen + {n}, batch[1..]);
        assert seen + {n} + Heights(batch[1..]) == seen + Heights(batch);
        PlacedWithoutSkip(s, next, t, start, seen, n);
      } else {
        assert t.ledger[|s.ledger|] == next.ledger[|s.ledger|];
      }
    }
  }

  lemma PlacedWithoutSkip(s: State, next: State, t: State, start: int, seen: set<int>, n: int)
    requires Settled(s, start, seen) && Settled(next, start, seen + {n})
    requires s.ledger <= next.ledger <= t.ledger
    ensures NoSkips(s.ledger, t.ledger) <==> NoSkips(next.ledger, t.ledger)
  {
    forall i | 0 <= i < |next.ledger| ensures t.ledger[i].Delivered? {
      assert t.ledger[i] == next.ledger[i];
    }
  }

  /** The deliveries are start, start+1, ... up to the least height not received, once each; the buffer holds the
      received rest. */
  ghost predicate DeliveredInOrder(start: int, seen: set<int>, s: State) {
    && s.expected == Frontier(start, seen)
    && Delivers([], start, s.ledger, s.expected)
    && s.buffer.Keys == Pending(start, seen)
  }

  ghost predicate Ordered(c: Config, start: int, batch: seq<Arrival>, out: (State, Outcome))
    requires AllClean(batch)
  {
    && out.1.Ok?
    && (WithinLimit(c, start, {}, batch) <==> NoSkips([], out.0.ledger))
    && (WithinLimit(c, start, {}, batch) ==> DeliveredInOrder(start, Heights(batch), out.0))
  }

  /** Every arrival order gives the same deliveries.  Fed one by one to a fresh sequencer, error-free results are
      delivered without a skip exactly when the pending heights never exceed the buffer limit, and then the expected
      block is the least height not received, the deliveries are start, start+1, ... up to it, once each, and the buffer
      holds exactly the received heights above it. */
  lemma OrderIndependence(c: Config, start: int, batch: seq<Arrival>)
    requires AlwaysOk(c) && AllClean(batch)
    ensures Ordered(c, start, batch, HandleAll(c, Init(start), batch))
  {
    FrontierUnique(start, {}, start);
    assert Pending(start, {}) == {};
    HandleAllSettles(c, Init(start), start, {}, batch);
    assert {} + Heights(batch) == Heights(batch);
  }

  /** In particular a permutation, or repetition, of the arrivals ends with the same deliveries, frontier and
      buffered heights. */
  lemma {:induction false} ArrivalOrderIsIrrelevant(c: Config, start: int, a: seq<Arrival>, b: seq<Arrival>)
    requires AlwaysOk(c) && AllClean(a) && AllClean(b)
    requires Heights(a) == Heights(b)
    requires WithinLimit(c, start, {}, a) && WithinLimit(c, start, {}, b)
    ensures Agree([], HandleAll(c, Init(start), a), HandleAll(c, Init(start), b))
    ensures HandleAll(c, Init(start), a).0.buffer.Keys == HandleAll(c, Init(start), b).0.buffer.Keys
  {
    OrderIndependence(c, start, a);
    OrderIndependence(c, start, b);
  }
}
