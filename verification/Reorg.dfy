// Deep reorganisations: finding the common ancestor and rolling the tables back to it.
module Reorganising {
  import opened Blocks

  datatype Row = Row(hash: Hash, parent: Hash)

  /** What the node answers for a height, and where the database fails. */
  datatype World = World(rpc: int -> Option<Block>, dbFails: int -> bool)

  datatype Search =
    | Found(ancestor: int, hash: Hash, toDelete: seq<int>)
    | RpcError(at: int)
    | DbError(at: int)
    | NotFound

  /** The step of the transaction that fails, if any. */
  datatype TxFault = NoFault | BeginFails | DeleteFails | CheckpointFails | CommitFails

  const MAX_LOOKBACK := 1000

  predicate InWindow(blockNum: int, h: int) {
    0 < h <= blockNum && blockNum - h <= MAX_LOOKBACK
  }

  /** The stored block at h is the node's block. */
  predicate Matches(blocks: map<int, Row>, w: World, h: int) {
    w.rpc(h).Some? && !w.dbFails(h) && h in blocks && blocks[h].hash == w.rpc(h).value.hash
  }

  /** Both lookups at h succeed and show no common block. */
  predicate Differs(blocks: map<int, Row>, w: World, h: int) {
    w.rpc(h).Some? && !w.dbFails(h) && (h in blocks ==> blocks[h].hash != w.rpc(h).value.hash)
  }

  ghost predicate DiffersAbove(blocks: map<int, Row>, w: World, h: int, blockNum: int) {
    forall k :: h < k <= blockNum ==> Differs(blocks, w, k)
  }

  predicate Descends(toDelete: seq<int>, from: int, to: int) {
    && |toDelete| == (if from >= to then from - to + 1 else 0)
    && forall i :: 0 <= i < |toDelete| ==> toDelete[i] == from - i
  }

  /** What the search may answer. */
  ghost predicate IsSearch(blocks: map<int, Row>, w: World, blockNum: int, r: Search) {
    match r
    case Found(a, hash, toDelete) =>
      && InWindow(blockNum, a) && Matches(blocks, w, a) && blocks[a].hash == hash
      && DiffersAbove(blocks, w, a, blockNum) && Descends(toDelete, blockNum, a + 1)
    case RpcError(h) => InWindow(blockNum, h) && w.rpc(h).None? && DiffersAbove(blocks, w, h, blockNum)
    case DbError(h) => InWindow(blockNum, h) && w.rpc(h).Some? && w.dbFails(h) && DiffersAbove(blocks, w, h, blockNum)
    case NotFound => forall h :: InWindow(blockNum, h) ==> Differs(blocks, w, h)
  }

  class Store {
    var blocks: map<int, Row>
    var checkpoints: map<int, int>
    var cursorResets: seq<int>       // resets sent to the orchestrator

    method FindCommonAncestor(w: World, blockNum: int) returns (r: Search)
      ensures IsSearch(blocks, w, blockNum, r)
    {
      var toDelete := [];
      var currentNum := blockNum;
      while currentNum > 0 && blockNum - currentNum <= MAX_LOOKBACK
        invariant currentNum <= blockNum
        invariant DiffersAbove(blocks, w, currentNum, blockNum)
        invariant Descends(toDelete, blockNum, currentNum + 1)
        decreases currentNum
      {
        var rpcBlock := w.rpc(currentNum);
        if rpcBlock.None? { return RpcError(currentNum); }
        if w.dbFails(currentNum) { return DbError(currentNum); }
        if currentNum in blocks && blocks[currentNum].hash == rpcBlock.value.hash {
          return Found(currentNum, blocks[currentNum].hash, toDelete);
        }
        toDelete := toDelete + [currentNum];
        currentNum := currentNum - 1;
      }
      return NotFound;
    }

    /** Rolls back to the common ancestor in one transaction, or changes nothing.  The checkpoint row written is
        always that of chain 1. */
    method HandleDeepReorg(w: World, blockNum: int, fault: TxFault) returns (r: Option<int>)
      modifies this
      ensures r.Some? <==>
        exists a :: IsAncestor(old(blocks), w, blockNum, a) && (fault.NoFault? || (fault.DeleteFails? && a == blockNum))
      ensures r.Some? ==> IsAncestor(old(blocks), w, blockNum, r.value)
      ensures r.Some? ==> blocks == RolledBack(old(blocks), blockNum, r.value)
      ensures r.Some? ==>
        && (forall h :: h in blocks <==> h in old(blocks) && (h <= r.value || r.value == blockNum))
        && (forall h :: h in blocks ==> blocks[h] == old(blocks)[h])
      ensures r.Some? ==> checkpoints == old(checkpoints)[1 := r.value] && cursorResets == old(cursorResets) + [r.value]
      ensures r.None? ==> blocks == old(blocks) && checkpoints == old(checkpoints) && cursorResets == old(cursorResets)
    {
      var found := FindCommonAncestor(w, blockNum);
      forall a | IsAncestor(blocks, w, blockNum, a) ensures found.Found? && found.ancestor == a {
        SearchFindsAncestor(blocks, w, blockNum, found, a);
      }
      if !found.Found? { return None; }
      var ancestor, toDelete := found.ancestor, found.toDelete;
      assert IsAncestor(blocks, w, blockNum, ancestor);
      if fault.BeginFails? { return None; }
      var txBlocks := blocks;
      if |toDelete| > 0 {
        var minDelete := MinOf(toDelete);
        assert minDelete == toDelete[|toDelete| - 1] == ancestor + 1;
        if fault.DeleteFails? { return None; }
        txBlocks := map h | h in blocks && h < minDelete :: blocks[h];
      }
      if fault.CheckpointFails? || fault.CommitFails? { return None; }
      blocks := txBlocks;
      checkpoints := checkpoints[1 := ancestor];
      cursorResets := cursorResets + [ancestor];
      assert blocks == RolledBack(old(blocks), blockNum, ancestor);
      return Some(ancestor);
    }
  }

  method MinOf(nums: seq<int>) returns (m: int)
    requires nums != []
    ensures m in nums && forall i :: 0 <= i < |nums| ==> m <= nums[i]
  {
    m := nums[0];
    for i := 0 to |nums|
      invariant m in nums && forall k :: 0 <= k < i ==> m <= nums[k]
    {
      if nums[i] < m { m := nums[i]; }
    }
  }

  /** a is the greatest common height in the window, and every lookup above it succeeded. */
  ghost predicate IsAncestor(blocks: map<int, Row>, w: World, blockNum: int, a: int) {
    InWindow(blockNum, a) && Matches(blocks, w, a) && DiffersAbove(blocks, w, a, blockNum)
  }

  /** All rows from the first differing height upward go; rows above blockNum stay when nothing differed. */
  function RolledBack(blocks: map<int, Row>, blockNum: int, ancestor: int): map<int, Row> {
    map h | h in blocks && (ancestor == blockNum || h <= ancestor) :: blocks[h]
  }

  /** The answer is determined by the greatest height in the window at which the lookups do not differ. */
  lemma SearchUnique(blocks: map<int, Row>, w: World, blockNum: int, r: Search, q: Search)
    requires IsSearch(blocks, w, blockNum, r) && IsSearch(blocks, w, blockNum, q)
    ensures r == q
  {
    var h := match r case Found(a, _, _) => a case RpcError(h) => h case DbError(h) => h case NotFound => 0;
    var k := match q case Found(a, _, _) => a case RpcError(h) => h case DbError(h) => h case NotFound => 0;
    assert InWindow(blockNum, h) ==> !Differs(blocks, w, h);
    assert InWindow(blockNum, k) ==> !Differs(blocks, w, k);
    assert h == k;
    if r.Found? && q.Found? { assert r.toDelete == q.toDelete; }
  }

  lemma SearchFindsAncestor(blocks: map<int, Row>, w: World, blockNum: int, r: Search, a: int)
    requires IsSearch(blocks, w, blockNum, r) && IsAncestor(blocks, w, blockNum, a)
    ensures r.Found? && r.ancestor == a
  {
    var toDelete := seq(blockNum - a, i => blockNum - i);
    SearchUnique(blocks, w, blockNum, r, Found(a, blocks[a].hash, toDelete));
  }

  /** Height h is one that the search may look at. */
  predicate Reachable(blockNum: int, h: int) {
    1 <= h <= blockNum && blockNum - 1000 <= h
  }

  /** The table has a row for h with the hash the node gives. */
  predicate Common(blocks: map<int, Row>, w: World, h: int) {
    w.rpc(h).Some? && h in blocks && blocks[h].hash == w.rpc(h).value.hash
  }

  /** When every lookup from max(1, blockNum - 1000) to blockNum succeeds, the search succeeds exactly if one of these
      heights is common; it then returns the greatest one, and the heights to delete are blockNum down to the one above
      it. */
  lemma AncestorSearchExact(blocks: map<int, Row>, w: World, blockNum: int, r: Search)
    requires IsSearch(blocks, w, blockNum, r)
    requires forall h :: Reachable(blockNum, h) ==> w.rpc(h).Some? && !w.dbFails(h)
    ensures r.Found? || r.NotFound?
    ensures r.Found? <==> exists h :: Reachable(blockNum, h) && Common(blocks, w, h)
    ensures r.Found? ==> Common(blocks, w, r.ancestor) && r.hash == blocks[r.ancestor].hash
    ensures r.Found? ==> forall h :: Reachable(blockNum, h) && Common(blocks, w, h) ==> h <= r.ancestor
    ensures r.Found? ==> forall h :: h in r.toDelete <==> r.ancestor < h <= blockNum
  {
    assert forall h :: Reachable(blockNum, h) <==> InWindow(blockNum, h);
    forall h | Reachable(blockNum, h) && Common(blocks, w, h) ensures r.Found? && h <= r.ancestor {
      assert !Differs(blocks, w, h);
    }
    if r.Found? {
      assert Reachable(blockNum, r.ancestor) && Common(blocks, w, r.ancestor);
      forall h ensures h in r.toDelete <==> r.ancestor < h <= blockNum {
        if r.ancestor < h <= blockNum { assert r.toDelete[blockNum - h] == h; }
      }
    }
  }

  /** The window's edge: a common height exactly 1000 below blockNum, with none above it, is found; one 1001 below
      is not. */
  lemma LookbackEnds(blocks: map<int, Row>, w: World, blockNum: int, r: Search)
    requires IsSearch(blocks, w, blockNum, r) && blockNum > 1001
    requires forall h :: w.rpc(h).Some? && !w.dbFails(h)
    requires forall h :: blockNum - 1000 < h <= blockNum ==> !Common(blocks, w, h)
    ensures Common(blocks, w, blockNum - 1000) ==> r.Found? && r.ancestor == blockNum - 1000
    ensures !Common(blocks, w, blockNum - 1000) ==> r.NotFound?
  {
    AncestorSearchExact(blocks, w, blockNum, r);
    assert Reachable(blockNum, blockNum - 1000);
  }

  /** The first lookup that fails, with no common height above it, ends the search with its error. */
  lemma FailedLookupEnds(blocks: map<int, Row>, w: World, blockNum: int, r: Search, h: int)
    requires IsSearch(blocks, w, blockNum, r) && Reachable(blockNum, h)
    requires forall k :: h < k <= blockNum ==> w.rpc(k).Some? && !w.dbFails(k) && !Common(blocks, w, k)
    ensures w.rpc(h).None? ==> r == RpcError(h)
    ensures w.rpc(h).Some? && w.dbFails(h) ==> r == DbError(h)
  {
    assert DiffersAbove(blocks, w, h, blockNum);
    if w.rpc(h).None? { SearchUnique(blocks, w, blockNum, r, RpcError(h)); }
    if w.rpc(h).Some? && w.dbFails(h) { SearchUnique(blocks, w, blockNum, r, DbError(h)); }
  }

  // --- agreement with the chain after a rollback ---

  /** The chain the node serves: every height has a block, linked to the one below by its parent hash. */
  ghost predicate IsChain(chain: int -> Block) {
    forall h :: chain(h).number == h && chain(h).parent == chain(h - 1).hash
  }

  ghost predicate Serves(w: World, chain: int -> Block) {
    forall h :: w.rpc(h).Some? ==> w.rpc(h).value == chain(h)
  }

  ghost predicate Contiguous(blocks: map<int, Row>) {
    forall a, b, h :: a in blocks && b in blocks && a <= h <= b ==> h in blocks
  }

  ghost predicate Linked(blocks: map<int, Row>) {
    forall h :: h in blocks && h - 1 in blocks ==> blocks[h].parent == blocks[h - 1].hash
  }

  /** A hash fixes the parent of the block it names. */
  ghost predicate HashFixesParent(blocks: map<int, Row>, chain: int -> Block) {
    forall h :: h in blocks && blocks[h].hash == chain(h).hash ==> blocks[h].parent == chain(h).parent
  }

  predicate Agrees(blocks: map<int, Row>, chain: int -> Block, h: int)
    requires h in blocks
  {
    blocks[h] == Row(chain(h).hash, chain(h).parent)
  }

  /** Agreement at one height carries down to every stored height below it. */
  lemma {:induction false} AgreementDescends(blocks: map<int, Row>, chain: int -> Block, a: int, h: int)
    requires IsChain(chain) && Contiguous(blocks) && Linked(blocks) && HashFixesParent(blocks, chain)
    requires a in blocks && h in blocks && h <= a && blocks[a].hash == chain(a).hash
    ensures Agrees(blocks, chain, h)
    decreases a - h
  {
    if h < a {
      assert a - 1 in blocks;
      assert chain(a).parent == chain(a - 1).hash;
      AgreementDescends(blocks, chain, a - 1, h);
    }
  }

  /** A successful rollback to an ancestor below blockNum leaves no row above it, and every row it leaves is the
      chain's block at that height. */
  lemma DeepReorgRestoresAgreement(blocks: map<int, Row>, w: World, chain: int -> Block, blockNum: int, a: int)
    requires IsChain(chain) && Serves(w, chain)
    requires Contiguous(blocks) && Linked(blocks) && HashFixesParent(blocks, chain)
    requires IsAncestor(blocks, w, blockNum, a)
    ensures forall h :: h in RolledBack(blocks, blockNum, a) && h <= a ==>
      Agrees(RolledBack(blocks, blockNum, a), chain, h)
    ensures Contiguous(RolledBack(blocks, blockNum, a)) && Linked(RolledBack(blocks, blockNum, a))
    ensures (exists h :: h in RolledBack(blocks, blockNum, a) && h > a) <==> a == blockNum && blockNum + 1 in blocks
  {
    var rest := RolledBack(blocks, blockNum, a);
    forall h | h in rest && h <= a ensures Agrees(rest, chain, h) {
      AgreementDescends(blocks, chain, a, h);
    }
    if a == blockNum && blockNum + 1 in blocks { assert blockNum + 1 in rest; }
    if h :| h in rest && h > a { assert a in blocks && a <= a + 1 <= h; }
  }
}
