// The in-memory pool of the most recent transfers.
module HotBuffers {

  type Transfer = int

  function Newest(history: seq<Transfer>, n: nat): (s: seq<Transfer>)
    requires n <= |history|
    ensures |s| == n
  {
    seq(n, i requires 0 <= i < n => history[|history| - 1 - i])
  }

  /** The pool is a suffix of the history: all of it while it is short, and never less than the part that eviction
      keeps. */
  ghost predicate Pool(transfers: seq<Transfer>, history: seq<Transfer>, maxSize: nat) {
    && Sized(|transfers|, |history|, maxSize)
    && transfers == history[|history| - |transfers|..]
  }

  predicate Sized(pool: nat, all: nat, maxSize: nat) {
    && 0 < maxSize && pool <= all
    && pool >= (if all <= maxSize then all else maxSize - maxSize / 10 + 1)
    && (if maxSize >= 10 then pool <= maxSize else pool == all)
  }

  lemma SizeKept(pool: nat, all: nat, maxSize: nat)
    requires Sized(pool, all, maxSize)
    ensures Sized(pool + 1 - (if pool + 1 > maxSize then maxSize / 10 else 0), all + 1, maxSize)
  {
  }

  /** One transfer more, with the oldest tenth dropped when the pool is over its size. */
  function Added(transfers: seq<Transfer>, maxSize: nat, t: Transfer): seq<Transfer>
    requires maxSize > 0
  {
    var more := transfers + [t];
    if |more| > maxSize then more[maxSize / 10..] else more
  }

  lemma AddedLength(transfers: seq<Transfer>, maxSize: nat, t: Transfer)
    requires maxSize > 0
    ensures |Added(transfers, maxSize, t)| == |transfers| + 1 - (if |transfers| + 1 > maxSize then maxSize / 10 else 0)
  {
  }

  lemma AddedIsSuffix(transfers: seq<Transfer>, history: seq<Transfer>, maxSize: nat, t: Transfer)
    requires maxSize > 0 && |transfers| <= |history| && transfers == history[|history| - |transfers|..]
    ensures |Added(transfers, maxSize, t)| <= |history| + 1
    ensures Added(transfers, maxSize, t) == (history + [t])[|history| + 1 - |Added(transfers, maxSize, t)|..]
  {
    SuffixSnoc(history, |history| - |transfers|, t);
    if |transfers| + 1 > maxSize { SuffixOfSuffix(history + [t], |history| - |transfers|, maxSize / 10); }
  }

  lemma PoolGrows(transfers: seq<Transfer>, history: seq<Transfer>, maxSize: nat, t: Transfer)
    requires Pool(transfers, history, maxSize)
    ensures maxSize > 0 && Pool(Added(transfers, maxSize, t), history + [t], maxSize)
  {
    SizeKept(|transfers|, |history|, maxSize);
    AddedIsSuffix(transfers, history, maxSize, t);
    AddedLength(transfers, maxSize, t);
    hide Sized;
    hide Added;
  }

  lemma SuffixSnoc(history: seq<Transfer>, k: nat, t: Transfer)
    requires k <= |history|
    ensures (history + [t])[k..] == history[k..] + [t]
  {
  }

  /** The pool is the end of the history, and within the limit as good as all of it. */
  lemma PoolServes(pool: nat, all: nat, maxSize: nat, limit: nat)
    requires Sized(pool, all, maxSize) && limit <= maxSize - maxSize / 10 + 1
    ensures (if limit < pool then limit else pool) == (if limit < all then limit else all)
  {
  }

  lemma LatestServes(pool: seq<Transfer>, history: seq<Transfer>, maxSize: nat, limit: nat, result: seq<Transfer>)
    requires Pool(pool, history, maxSize) && |result| == (if limit < |pool| then limit else |pool|)
    requires forall k :: 0 <= k < |result| ==> result[k] == pool[|pool| - 1 - k]
    ensures |result| <= |history| && result == Newest(history, |result|)
    ensures limit <= maxSize - maxSize / 10 + 1 ==> |result| == (if limit < |history| then limit else |history|)
  {
    if limit <= maxSize - maxSize / 10 + 1 { PoolServes(|pool|, |history|, maxSize, limit); }
    NewestIsReversed(history, pool, result);
  }

  class HotBuffer {
    const maxSize: nat
    var transfers: seq<Transfer>
    ghost var history: seq<Transfer>      // everything ever added

    ghost predicate Valid()
      reads this
    {
      Pool(transfers, history, maxSize)
    }

    constructor (maxSize: int)
      ensures Valid() && history == [] && this.maxSize == if maxSize <= 0 then 50000 else maxSize
    {
      this.maxSize := if maxSize <= 0 then 50000 else maxSize;
      transfers, history := [], [];
    }

    method Add(t: Transfer)
      requires Valid()
      modifies this
      ensures Valid() && history == old(history) + [t]
      ensures |old(transfers)| < maxSize ==> transfers == old(transfers) + [t]
      ensures |old(transfers)| >= maxSize ==> transfers == (old(transfers) + [t])[maxSize / 10..]
    {
      PoolGrows(transfers, history, maxSize, t);
      hide Pool;
      transfers := transfers + [t];
      history := history + [t];
      if |transfers| > maxSize {
        var drain := maxSize / 10;
        transfers := transfers[drain..];
      }
    }

    method WriteTransfers(more: seq<Transfer>)
      requires Valid()
      modifies this
      ensures Valid() && history == old(history) + more
    {
      hide Pool;
      var i := 0;
      while i < |more|
        invariant 0 <= i <= |more| && Valid() && history == old(history) + more[..i]
      {
        assert more[..i] + [more[i]] == more[..i + 1];
        Add(more[i]);
        i := i + 1;
      }
      assert more[..i] == more;
    }

    /** The newest transfers first: the answer is the newest-first suffix of everything ever added, as long as the
        limit is no more than what eviction always keeps. */
    method GetLatest(limit: nat) returns (result: seq<Transfer>)
      requires Valid()
      ensures |result| == (if limit < |transfers| then limit else |transfers|)
      ensures result == Newest(history, |result|)
      ensures |result| <= |history| && forall k :: 0 <= k < |result| ==> result[k] == history[|history| - 1 - k]
      ensures limit <= maxSize - maxSize / 10 + 1 ==> |result| == (if limit < |history| then limit else |history|)
    {
      hide Pool;
      var n := |transfers|;
      var count := if limit > n then n else limit;
      result := Latest(transfers, count);
      LatestServes(transfers, history, maxSize, limit, result);
    }

    /** The last `count` transfers of the pool, newest first. */
    static method Latest(pool: seq<Transfer>, count: nat) returns (result: seq<Transfer>)
      requires count <= |pool|
      ensures |result| == count && forall k :: 0 <= k < count ==> result[k] == pool[|pool| - 1 - k]
    {
      if |pool| == 0 { return []; }
      var kept := pool[|pool| - count..];
      result := Reverse(kept);
      forall k | 0 <= k < count ensures result[k] == pool[|pool| - 1 - k] {
        assert result[k] == kept[count - 1 - k];
      }
    }

    /** Swaps the ends inwards. */
    static method Reverse(kept: seq<Transfer>) returns (result: seq<Transfer>)
      ensures |result| == |kept| && forall k :: 0 <= k < |kept| ==> result[k] == kept[|kept| - 1 - k]
    {
      result := kept;
      var i, j := 0, |result| - 1;
      while i < j
        invariant |result| == |kept| && 0 <= i && j == |kept| - 1 - i && i <= j + 1
        invariant forall k :: 0 <= k < i || j < k < |kept| ==> result[k] == kept[|kept| - 1 - k]
        invariant forall k :: i <= k <= j ==> result[k] == kept[k]
      {
        result := result[i := result[j]][j := result[i]];
        i, j := i + 1, j - 1;
      }
    }
  }

  lemma NewestIsReversed(history: seq<Transfer>, pool: seq<Transfer>, result: seq<Transfer>)
    requires |result| <= |pool| <= |history| && pool == history[|history| - |pool|..]
    requires forall k :: 0 <= k < |result| ==> result[k] == pool[|pool| - 1 - k]
    ensures result == Newest(history, |result|)
  {
  }

  lemma SuffixOfSuffix(history: seq<Transfer>, k: nat, drop: nat)
    requires k + drop <= |history|
    ensures history[k..][drop..] == history[k + drop..]
  {
  }
}
