// The sliding-window rate limiter: a ring of timestamps, and the bound it keeps on every window of its whole history.
module SlidingWindow {

  ghost predicate Sorted(h: seq<int>)
    decreases |h|
  {
    |h| <= 1 || (h[|h| - 2] <= h[|h| - 1] && Sorted(h[..|h| - 1]))
  }

  /** Any limit + 1 successive admissions span more than the window. */
  ghost predicate Spaced(h: seq<int>, limit: nat, window: int)
    decreases |h|
  {
    h == [] || ((|h| > limit ==> h[|h| - 1] - h[|h| - 1 - limit] > window) && Spaced(h[..|h| - 1], limit, window))
  }

  lemma {:induction false} SortedAt(h: seq<int>, i: nat, j: nat)
    requires Sorted(h) && i <= j < |h|
    ensures h[i] <= h[j]
    decreases |h|
  {
    var n := |h| - 1;
    if j < n { SortedAt(h[..n], i, j); } else if i < n { SortedAt(h[..n], i, n - 1); }
  }

  lemma {:induction false} SpacedAt(h: seq<int>, limit: nat, window: int, i: nat)
    requires Spaced(h, limit, window) && i + limit < |h|
    ensures h[i + limit] - h[i] > window
    decreases |h|
  {
    if i + limit < |h| - 1 { SpacedAt(h[..|h| - 1], limit, window, i); }
  }

  /** The ring read from head for count slots. */
  function Ring(slots: seq<int>, head: nat, count: nat): (s: seq<int>)
    requires head <= |slots| && count <= |slots|
    ensures |s| == count
  {
    if head + count <= |slots| then slots[head..head + count] else slots[head..] + slots[..head + count - |slots|]
  }

  /** Admissions at or after the cutoff. */
  function CountSince(h: seq<int>, cutoff: int): nat
    decreases |h|
  {
    if h == [] then 0 else CountSince(h[..|h| - 1], cutoff) + if h[|h| - 1] >= cutoff then 1 else 0
  }

  lemma {:induction false} CountSplits(h: seq<int>, k: nat, cutoff: int)
    requires k <= |h|
    requires forall i :: 0 <= i < k ==> h[i] < cutoff
    requires forall i :: k <= i < |h| ==> h[i] >= cutoff
    ensures CountSince(h, cutoff) == |h| - k
    decreases |h|
  {
    if |h| > k {
      CountSplits(h[..|h| - 1], k, cutoff);
    } else if k > 0 {
      CountSplits(h[..|h| - 1], k - 1, cutoff);
    }
  }

  lemma {:induction false} CountIsCardinality(h: seq<int>, cutoff: int)
    ensures CountSince(h, cutoff) == |set k | 0 <= k < |h| && h[k] >= cutoff|
    decreases |h|
  {
    var all := set k | 0 <= k < |h| && h[k] >= cutoff;
    if h == [] {
      assert all == {};
    } else {
      var n := |h| - 1;
      CountIsCardinality(h[..n], cutoff);
      var before := set k | 0 <= k < |h[..n]| && h[..n][k] >= cutoff;
      assert forall k :: k in all <==> k in before || (k == n && h[n] >= cutoff);
      if h[n] >= cutoff { assert all == before + {n}; } else { assert all == before; }
    }
  }

  lemma ModOnce(x: nat, m: nat)
    requires 0 < m && x < 2 * m
    ensures x % m == if x < m then x else x - m
  {
    var q := x / m;
    assert x == m * q + x % m;
    assert q >= 2 ==> m * q >= m * 2;
    assert q == 0 || q == 1;
  }

  /** Position x of a ring of m slots, at most one turn ahead. */
  method Wrap(x: nat, m: nat) returns (r: nat)
    requires 0 < m && x < 2 * m
    ensures r == if x < m then x else x - m
  {
    ModOnce(x, m);
    r := x % m;
  }

  lemma RingDrops(slots: seq<int>, head: nat, count: nat)
    requires head < |slots| && 0 < count <= |slots|
    ensures var next := if head + 1 < |slots| then head + 1 else 0;
      Ring(slots, next, count - 1) == Ring(slots, head, count)[1..]
    ensures Ring(slots, head, count)[0] == slots[head]
  {
  }

  lemma RingAdds(slots: seq<int>, head: nat, count: nat, x: int)
    requires head < |slots| && count < |slots|
    ensures var tail := if head + count < |slots| then head + count else head + count - |slots|;
      Ring(slots[tail := x], head, count + 1) == Ring(slots, head, count) + [x]
  {
  }

  /** One pass of the waiting loop: its clock readings, and whether the context has ended. */
  datatype Attempt = Attempt(evictAt: int, recordAt: int, checkAt: int, cancelled: bool)

  /** Which attempt admitted the request, or noticed the cancellation. */
  datatype WaitResult = Admitted(at: nat) | Cancelled(at: nat) | StillWaiting

  class SlidingWindowLimiter {
    const window: int
    const limit: nat
    var timestamps: array<int>
    var head: nat
    var count: nat
    ghost var history: seq<int>    // the times of all admissions
    ghost var clock: int           // the latest reading of the clock

    ghost predicate Valid()
      reads this, timestamps
    {
      timestamps.Length == limit && Holds(timestamps[..], head, count, history, clock, window)
    }

    constructor (limit: nat, window: int, now: int)
      requires window >= 0
      ensures Valid() && fresh(timestamps) && this.limit == limit && this.window == window
      ensures history == [] && clock == now
    {
      this.limit, this.window := limit, window;
      timestamps := new int[limit];
      head, count := 0, 0;
      history, clock := [], now;
      new;
      EmptyRing(timestamps[..], now, window);
      hide Holds;
    }

    method DropOldest()
      requires Valid() && count > 0 && timestamps[head] < clock - window
      modifies this`head, this`count
      ensures Valid() && count == old(count) - 1
    {
      Drops(timestamps[..], head, count, history, clock, window);
      head := Wrap(head + 1, limit);
      count := count - 1;
    }

    method DropExpired(now: int)
      requires Valid() && clock <= now
      modifies this`head, this`count, this`clock
      ensures Valid() && clock == now && count <= old(count)
      ensures count > 0 ==> history[|history| - count] >= now - window
    {
      clock := now;
      while count > 0 && timestamps[head] < now - window
        invariant Valid() && clock == now && count <= old(count)
        decreases count
      {
        DropOldest();
      }
      if count > 0 { Oldest(timestamps[..], head, count, history, clock, window); }
    }

    /** Exactly the admissions before now - window leave the ring. */
    method Evict(now: int)
      requires Valid() && clock <= now
      modifies this`head, this`count, this`clock
      ensures Valid() && clock == now && count <= old(count)
      ensures Evicted(history, count, now - window)
      ensures count == CountSince(history, now - window)
    {
      DropExpired(now);
      EvictedExactly(history, count, clock, limit, window, now - window);
    }

    method Store(slot: nat, now: int)
      requires slot < timestamps.Length
      modifies timestamps
      ensures timestamps[..] == old(timestamps[..])[slot := now]
    {
      timestamps[slot] := now;
    }

    method Record(now: int)
      requires Valid() && clock <= now && count < limit
      modifies this`count, this`history, this`clock, timestamps
      ensures Valid() && clock == now && history == old(history) + [now] && count == old(count) + 1
    {
      hide Holds;
      ghost var slots := timestamps[..];
      InBounds(slots, head, count, history, clock, window);
      Adds(slots, head, count, history, clock, window, now);
      var tail := Wrap(head + count, limit);
      Store(tail, now);
      count := count + 1;
      history := history + [now];
      clock := now;
    }

    /** A request is admitted exactly when fewer than `limit` admissions lie in the window that ends now. */
    method Allow(now: int, recordAt: int) returns (ok: bool)
      requires Valid() && clock <= now <= recordAt
      modifies this, timestamps
      ensures Valid() && timestamps == old(timestamps) && clock == if ok then recordAt else now
      ensures ok <==> CountSince(old(history), now - window) < limit
      ensures ok <==> |set k | 0 <= k < |old(history)| && old(history)[k] >= now - window| < limit
      ensures history == if ok then old(history) + [recordAt] else old(history)
    {
      CountIsCardinality(history, now - window);
      hide Holds;
      hide CountSince;
      Evict(now);
      if count >= limit { return false; }
      Record(recordAt);
      return true;
    }

    /** Blocks until admitted or cancelled; each attempt reads the clock when evicting, when recording and when
        computing the delay, and a cancellation is noticed only while there is a delay to wait out.  With a limit of 0
        the first attempt would read a slot of an empty ring. */
    method Wait(attempts: seq<Attempt>) returns (r: WaitResult)
      requires Valid() && limit > 0 && Ordered(attempts) && (attempts != [] ==> clock <= attempts[0].evictAt)
      modifies this, timestamps
      ensures Valid() && timestamps == old(timestamps)
      ensures Waited(r, old(history), history, attempts, window, limit)
    {
      ghost var before := history;
      var i := 0;
      while i < |attempts|
        invariant 0 <= i <= |attempts| && Valid() && timestamps == old(timestamps) && history == before
        invariant i < |attempts| ==> clock <= attempts[i].evictAt
        invariant AllFull(before, attempts, i, window, limit)
      {
        var tried := TryOnce(attempts[i]);
        if tried.Admitted? { return Admitted(i); }
        if tried.Cancelled? { return Cancelled(i); }
        i := i + 1;
      }
      return StillWaiting;
    }

    /** One pass of the waiting loop. */
    method TryOnce(a: Attempt) returns (r: WaitResult)
      requires Valid() && limit > 0 && clock <= a.evictAt <= a.recordAt
      modifies this, timestamps
      ensures Valid() && timestamps == old(timestamps)
      ensures r.Admitted? <==> !Full(old(history), a, window, limit)
      ensures history == if r.Admitted? then old(history) + [a.recordAt] else old(history)
      ensures !r.Admitted? ==> clock == a.evictAt
      ensures r.Cancelled? <==> Notices(old(history), a, window, limit)
      ensures r.Admitted? <==> |set k | 0 <= k < |old(history)| && old(history)[k] >= a.evictAt - window| < limit
      ensures r.Cancelled? <==>
        !r.Admitted? && a.cancelled &&
        exists k :: OldestSince(old(history), a.evictAt - window, k) && old(history)[k] + window > a.checkAt
    {
      CountIsCardinality(history, a.evictAt - window);
      hide Holds;
      hide CountSince;
      Evict(a.evictAt);
      OldestKept(history, count, a.evictAt - window);
      InBounds(timestamps[..], head, count, history, clock, window);
      if count > 0 { Oldest(timestamps[..], head, count, history, clock, window); }
      if count < limit {
        Record(a.recordAt);
        return Admitted(0);
      }
      var waitUntil := timestamps[head] + window;
      if waitUntil - a.checkAt > 0 && a.cancelled {
        return Cancelled(0);
      }
      return StillWaiting;
    }
  }

  /** The last `count` admissions are those at or after the cutoff. */
  ghost predicate Evicted(h: seq<int>, count: nat, cutoff: int) {
    && count <= |h|
    && (forall i :: 0 <= i < |h| - count ==> h[i] < cutoff)
    && (forall i :: |h| - count <= i < |h| ==> h[i] >= cutoff)
  }

  /** Admission k is the first one at or after the cutoff. */
  ghost predicate OldestSince(h: seq<int>, cutoff: int, k: int) {
    0 <= k < |h| && h[k] >= cutoff && (k > 0 ==> h[k - 1] < cutoff)
  }

  lemma OldestKept(h: seq<int>, count: nat, cutoff: int)
    requires Evicted(h, count, cutoff)
    ensures forall k :: OldestSince(h, cutoff, k) <==> count > 0 && k == |h| - count
  {
  }

  lemma EvictedExactly(h: seq<int>, count: nat, clock: int, limit: nat, window: int, cutoff: int)
    requires Chronicle(h, count, clock, limit, window) && cutoff == clock - window
    requires count > 0 ==> h[|h| - count] >= cutoff
    ensures Evicted(h, count, cutoff) && count == CountSince(h, cutoff)
  {
    forall i | 0 <= i < |h| - count ensures h[i] < cutoff { SortedAt(h, i, |h| - count - 1); }
    forall i | |h| - count <= i < |h| ensures h[i] >= cutoff { SortedAt(h, |h| - count, i); }
    CountSplits(h, |h| - count, cutoff);
  }

  /** The clock readings of the attempts never go back. */
  ghost predicate Ordered(attempts: seq<Attempt>) {
    && (forall i :: 0 <= i < |attempts| ==> attempts[i].evictAt <= attempts[i].recordAt)
    && (forall i :: 0 < i < |attempts| ==> attempts[i - 1].evictAt <= attempts[i].evictAt)
  }

  predicate Full(h: seq<int>, a: Attempt, window: int, limit: nat) {
    CountSince(h, a.evictAt - window) >= limit
  }

  /** The attempt finds the window full, its oldest admission has not left the window when the delay is computed,
      and the context ends before that delay is over. */
  ghost predicate Notices(h: seq<int>, a: Attempt, window: int, limit: nat) {
    var n := CountSince(h, a.evictAt - window);
    Full(h, a, window, limit) && 0 < n <= |h| && h[|h| - n] + window > a.checkAt && a.cancelled
  }

  /** Each of the first n attempts found the window full and went on waiting. */
  ghost predicate AllFull(h: seq<int>, attempts: seq<Attempt>, n: nat, window: int, limit: nat) {
    forall i :: 0 <= i < n && i < |attempts| ==>
      Full(h, attempts[i], window, limit) && !Notices(h, attempts[i], window, limit)
  }

  /** The first attempt that finds room admits at its recording time; the first that finds none and has a delay to
      wait out when the context ends is cancelled; otherwise every attempt was full and waited.  Nothing else is
      recorded. */
  ghost predicate Waited(r: WaitResult, before: seq<int>, after: seq<int>, attempts: seq<Attempt>, window: int,
                         limit: nat) {
    match r
    case Admitted(k) =>
      && k < |attempts| && after == before + [attempts[k].recordAt]
      && !Full(before, attempts[k], window, limit) && AllFull(before, attempts, k, window, limit)
    case Cancelled(k) =>
      && k < |attempts| && after == before
      && Notices(before, attempts[k], window, limit) && AllFull(before, attempts, k, window, limit)
    case StillWaiting => after == before && AllFull(before, attempts, |attempts|, window, limit)
  }

  /** Fewer than `limit` admissions lie in the window that ends at this attempt. */
  ghost predicate HasRoom(h: seq<int>, a: Attempt, window: int, limit: nat) {
    |set k | 0 <= k < |h| && h[k] >= a.evictAt - window| < limit
  }

  /** The context has ended, and the oldest admission of the window leaves it only later. */
  ghost predicate EndsFirst(h: seq<int>, a: Attempt, window: int) {
    a.cancelled && exists k :: OldestSince(h, a.evictAt - window, k) && h[k] + window > a.checkAt
  }

  lemma FullIffNoRoom(h: seq<int>, a: Attempt, window: int, limit: nat)
    ensures Full(h, a, window, limit) <==> !HasRoom(h, a, window, limit)
  {
    CountIsCardinality(h, a.evictAt - window);
  }

  lemma {:induction false} SinceIsSuffix(h: seq<int>, cutoff: int)
    requires Sorted(h)
    ensures CountSince(h, cutoff) <= |h| && Evicted(h, CountSince(h, cutoff), cutoff)
    decreases |h|
  {
    if h != [] {
      var n := |h| - 1;
      SinceIsSuffix(h[..n], cutoff);
      forall i | 0 <= i < n ensures h[i] <= h[n] { SortedAt(h, i, n); }
      assert forall i :: 0 <= i < n ==> h[..n][i] == h[i];
    }
  }

  lemma NoticesIffEndsFirst(h: seq<int>, a: Attempt, window: int, limit: nat)
    requires Sorted(h) && limit > 0
    ensures Notices(h, a, window, limit) <==> !HasRoom(h, a, window, limit) && EndsFirst(h, a, window)
  {
    FullIffNoRoom(h, a, window, limit);
    SinceIsSuffix(h, a.evictAt - window);
    OldestKept(h, CountSince(h, a.evictAt - window), a.evictAt - window);
    hide HasRoom;
    hide Evicted;
    hide OldestSince;
    hide CountSince;
  }

  /** The first attempt at which there is room, or at which the context ends before there is, decides; without one the
      request still waits. */
  lemma {:induction false} WaitDecided(r: WaitResult, h: seq<int>, after: seq<int>, attempts: seq<Attempt>, window: int,
                                       limit: nat, k: nat)
    requires Waited(r, h, after, attempts, window, limit) && Sorted(h) && limit > 0 && k < |attempts|
    requires forall i :: 0 <= i < k ==>
      !HasRoom(h, attempts[i], window, limit) && !EndsFirst(h, attempts[i], window)
    ensures HasRoom(h, attempts[k], window, limit) ==> r == Admitted(k) && after == h + [attempts[k].recordAt]
    ensures !HasRoom(h, attempts[k], window, limit) && EndsFirst(h, attempts[k], window) ==>
      r == Cancelled(k) && after == h
    ensures !HasRoom(h, attempts[k], window, limit) && !EndsFirst(h, attempts[k], window) && k == |attempts| - 1 ==>
      r == StillWaiting && after == h
  {
    forall i | 0 <= i < |attempts|
      ensures Full(h, attempts[i], window, limit) <==> !HasRoom(h, attempts[i], window, limit)
      ensures Notices(h, attempts[i], window, limit) <==>
        !HasRoom(h, attempts[i], window, limit) && EndsFirst(h, attempts[i], window)
    {
      FullIffNoRoom(h, attempts[i], window, limit);
      NoticesIffEndsFirst(h, attempts[i], window, limit);
    }
    hide HasRoom;
    hide EndsFirst;
    hide Full;
    hide Notices;
  }

  /** What a limiter keeps true of its history: times in order, none in the future, everything outside the ring
      expired, and any limit + 1 successive admissions further apart than the window. */
  ghost predicate Chronicle(h: seq<int>, count: nat, clock: int, limit: nat, window: int) {
    && count <= |h|
    && Sorted(h) && Spaced(h, limit, window)
    && (h != [] ==> h[|h| - 1] <= clock)
    && (|h| > count ==> h[|h| - count - 1] < clock - window)
  }

  lemma TailGrows(h: seq<int>, count: nat, now: int)
    requires count <= |h|
    ensures (h + [now])[|h| - count..] == h[|h| - count..] + [now]
  {
  }

  lemma ChronicleGrows(h: seq<int>, count: nat, clock: int, limit: nat, window: int, now: int)
    requires Chronicle(h, count, clock, limit, window) && count < limit && clock <= now
    ensures Chronicle(h + [now], count + 1, now, limit, window)
  {
    assert (h + [now])[..|h|] == h;
    if |h| >= limit { SortedAt(h, |h| - limit, |h| - count - 1); }
  }

  /** The ring read from head for count slots is the chronological suffix of the history. */
  ghost predicate Holds(slots: seq<int>, head: nat, count: nat, h: seq<int>, clock: int, window: int) {
    && count <= |slots| && (if slots == [] then head == 0 else head < |slots|)
    && Chronicle(h, count, clock, |slots|, window)
    && Ring(slots, head, count) == h[|h| - count..]
  }

  lemma EmptyRing(slots: seq<int>, now: int, window: int)
    ensures Holds(slots, 0, 0, [], now, window)
  {
  }

  lemma InBounds(slots: seq<int>, head: nat, count: nat, h: seq<int>, clock: int, window: int)
    requires Holds(slots, head, count, h, clock, window)
    ensures count <= |slots| && count <= |h| && (slots != [] ==> head < |slots|)
  {
  }

  lemma Oldest(slots: seq<int>, head: nat, count: nat, h: seq<int>, clock: int, window: int)
    requires Holds(slots, head, count, h, clock, window) && count > 0
    ensures h[|h| - count] == slots[head]
  {
    RingDrops(slots, head, count);
    assert h[|h| - count..][0] == h[|h| - count];
  }

  lemma Drops(slots: seq<int>, head: nat, count: nat, h: seq<int>, clock: int, window: int)
    requires Holds(slots, head, count, h, clock, window) && count > 0 && slots[head] < clock - window
    ensures Holds(slots, if head + 1 < |slots| then head + 1 else 0, count - 1, h, clock, window)
  {
    Oldest(slots, head, count, h, clock, window);
    RingDrops(slots, head, count);
    assert h[|h| - count..][1..] == h[|h| - (count - 1)..];
  }

  lemma Adds(slots: seq<int>, head: nat, count: nat, h: seq<int>, clock: int, window: int, now: int)
    requires Holds(slots, head, count, h, clock, window) && count < |slots| && clock <= now
    ensures var tail := if head + count < |slots| then head + count else head + count - |slots|;
      Holds(slots[tail := now], head, count + 1, h + [now], now, window)
  {
    RingAdds(slots, head, count, now);
    ChronicleGrows(h, count, clock, |slots|, window, now);
    TailGrows(h, count, now);
  }

  ghost function InWindow(h: seq<int>, from: int, window: int): set<int> {
    set k | 0 <= k < |h| && from <= h[k] <= from + window
  }

  lemma {:induction false} IndexRange(s: set<int>, lo: int, n: nat)
    requires forall k :: k in s ==> lo <= k < lo + n
    ensures |s| <= n
    decreases n
  {
    if n == 0 {
      assert s == {} by { assert forall k :: k !in s; }
    } else {
      var top := lo + n - 1;
      IndexRange(s - {top}, lo, n - 1);
      if top in s { assert s == (s - {top}) + {top}; } else { assert s == s - {top}; }
    }
  }

  lemma FarApart(h: seq<int>, limit: nat, window: int, i: nat, k: nat)
    requires Sorted(h) && Spaced(h, limit, window) && i + limit <= k < |h|
    ensures h[k] - h[i] > window
  {
    SpacedAt(h, limit, window, i);
    SortedAt(h, i + limit, k);
  }

  ghost predicate Least(s: set<int>, i: int) {
    i in s && forall k :: k in s ==> i <= k
  }

  lemma NearLeast(h: seq<int>, limit: nat, window: int, from: int, i: int)
    requires Sorted(h) && Spaced(h, limit, window)
    requires Least(InWindow(h, from, window), i)
    ensures forall k :: k in InWindow(h, from, window) ==> i <= k < i + limit
  {
    forall k | k in InWindow(h, from, window) ensures i <= k < i + limit {
      if k >= i + limit { FarApart(h, limit, window, i, k); }
    }
  }

  /** Every closed interval of the window's length, anywhere in the history of a valid limiter, contains at most `limit`
      admissions. */
  lemma WindowBound(h: seq<int>, limit: nat, window: int, from: int)
    requires Sorted(h) && Spaced(h, limit, window)
    ensures |InWindow(h, from, window)| <= limit
  {
    var s := InWindow(h, from, window);
    assert forall k :: k in s ==> 0 <= k < |h|;
    hide InWindow;
    hide Sorted;
    hide Spaced;
    if i :| Least(s, i) {
      NearLeast(h, limit, window, from, i);
      IndexRange(s, i, limit);
    } else {
      NoLeast(s, |h|);
    }
  }

  lemma {:induction false} NoLeast(s: set<int>, n: nat)
    requires forall k :: k in s ==> 0 <= k < n
    requires !exists i :: Least(s, i)
    ensures s == {}
  {
    var i := 0;
    while i < n
      invariant 0 <= i <= n && forall k :: k in s ==> i <= k
    {
      assert !Least(s, i);
      i := i + 1;
    }
  }

  /** So at every moment of every run of a limiter, no interval of the window's length ever saw more than `limit`
      admissions. */
  lemma LimiterBound(l: SlidingWindowLimiter, from: int)
    requires l.Valid()
    ensures |InWindow(l.history, from, l.window)| <= l.limit
  {
    WindowBound(l.history, l.limit, l.window, from);
  }
}
