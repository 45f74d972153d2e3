// Weighted choice of the next RPC node.
module NodePool {
  import opened Blocks

  datatype Node = Node(isHealthy: bool, retryElapsed: bool, weight: int)

  const TWO_63 := 0x8000_0000_0000_0000

  predicate Eligible(n: Node) {
    n.isHealthy || n.retryElapsed
  }

  function EffectiveWeight(n: Node): (w: nat)
    ensures w >= 1
  {
    if n.weight <= 0 then 1 else n.weight
  }

  /** Remainder with the sign of the dividend. */
  function Rem(x: int, m: int): int
    requires m > 0
  {
    if x >= 0 then x % m else -((-x) % m)
  }

  /** A 64-bit signed counter after one increment. */
  function Next(count: int): int {
    if count + 1 == TWO_63 then -TWO_63 else count + 1
  }

  /** Sum of the weights of the first i nodes. */
  function Prefix(nodes: seq<Node>, i: nat): (p: nat)
    requires i <= |nodes|
    ensures p >= i
  {
    if i == 0 then 0 else Prefix(nodes, i - 1) + EffectiveWeight(nodes[i - 1])
  }

  function TotalWeight(nodes: seq<Node>): nat {
    Prefix(nodes, |nodes|)
  }

  /** Value val falls into the share of node i. */
  predicate Picks(nodes: seq<Node>, val: int, i: nat)
    requires i < |nodes|
  {
    Prefix(nodes, i) <= val < Prefix(nodes, i + 1)
  }

  function EligibleNodes(clients: seq<Node>): seq<Node>
    decreases |clients|
  {
    if clients == [] then [] else
    var last := clients[|clients| - 1];
    EligibleNodes(clients[..|clients| - 1]) + if Eligible(last) then [last] else []
  }

  lemma PrefixOfAppend(nodes: seq<Node>, n: Node, i: nat)
    requires i <= |nodes|
    ensures Prefix(nodes + [n], i) == Prefix(nodes, i)
    decreases i
  {
    if i > 0 { PrefixOfAppend(nodes, n, i - 1); }
  }

  /** Which of the first n clients are healthy, or unhealthy with their retry time passed. */
  ghost function Usable(clients: seq<Node>, n: nat): set<int>
    requires n <= |clients|
  {
    set i | 0 <= i < n && (clients[i].isHealthy || clients[i].retryElapsed)
  }

  lemma UsableGrows(clients: seq<Node>, n: nat)
    requires n < |clients|
    ensures |Usable(clients, n + 1)| ==
      |Usable(clients, n)| + if clients[n].isHealthy || clients[n].retryElapsed then 1 else 0
  {
    var before, after := Usable(clients, n), Usable(clients, n + 1);
    assert forall k :: k in after <==> k in before || (k == n && (clients[n].isHealthy || clients[n].retryElapsed));
    hide Usable;
    if clients[n].isHealthy || clients[n].retryElapsed {
      assert after == before + {n};
    } else {
      assert after == before;
    }
  }

  lemma EligibleSnoc(clients: seq<Node>, n: nat)
    requires n < |clients|
    ensures EligibleNodes(clients[..n + 1]) ==
      EligibleNodes(clients[..n]) + if clients[n].isHealthy || clients[n].retryElapsed then [clients[n]] else []
  {
    assert clients[..n + 1][..n] == clients[..n];
  }

  /** Each of these clients is among the eligible nodes once, in the order of the clients. */
  lemma {:induction false} EligibleInOrder(clients: seq<Node>, n: nat)
    requires n <= |clients|
    ensures |EligibleNodes(clients[..n])| == |Usable(clients, n)|
    ensures forall i :: 0 <= i < n && (clients[i].isHealthy || clients[i].retryElapsed) ==>
      |Usable(clients, i)| < |Usable(clients, n)| && EligibleNodes(clients[..n])[|Usable(clients, i)|] == clients[i]
    decreases n
  {
    if n == 0 {
      assert Usable(clients, 0) == {};
    } else {
      EligibleInOrder(clients, n - 1);
      UsableGrows(clients, n - 1);
      EligibleSnoc(clients, n - 1);
      hide Usable;
      hide EligibleNodes;
    }
  }

  class EnhancedRPCClientPool {
    var clients: seq<Node>
    var requestCount: int

    /** The eligible nodes and the chosen one's index among them.  A non-negative counter chooses by shares, a
        negative one always the first node; the fallback behind the search is unreachable. */
    method GetNextHealthyNode() returns (healthy: seq<Node>, r: Option<nat>)
      requires -TWO_63 <= requestCount < TWO_63
      modifies this`requestCount
      ensures healthy == EligibleNodes(clients)
      ensures |healthy| == |Usable(clients, |clients|)|
      ensures forall i :: 0 <= i < |clients| && (clients[i].isHealthy || clients[i].retryElapsed) ==>
        |Usable(clients, i)| < |healthy| && healthy[|Usable(clients, i)|] == clients[i]
      ensures healthy != [] ==>
        requestCount == if old(requestCount) == 0x7FFF_FFFF_FFFF_FFFF then -0x8000_0000_0000_0000
          else old(requestCount) + 1
      ensures r.None? <==> healthy == []
      ensures requestCount == if r.None? then old(requestCount) else Next(old(requestCount))
      ensures r.Some? ==> r.value < |healthy|
      ensures r.Some? && requestCount >= 0 ==> Picks(healthy, requestCount % TotalWeight(healthy), r.value)
      ensures r.Some? && requestCount < 0 ==> r.value == 0
    {
      healthy := [];
      r := None;
      var totalWeight := 0;
      var i := 0;
      while i < |clients|
        invariant 0 <= i <= |clients| && requestCount == old(requestCount)
        invariant healthy == EligibleNodes(clients[..i]) && totalWeight == TotalWeight(healthy)
      {
        var node := clients[i];
        assert clients[..i + 1][..i] == clients[..i];
        if Eligible(node) {
          PrefixOfAppend(healthy, node, |healthy|);
          healthy := healthy + [node];
          var w := node.weight;
          if w <= 0 { w := 1; }
          totalWeight := totalWeight + w;
        }
        i := i + 1;
      }
      assert clients[..i] == clients;
      EligibleInOrder(clients, |clients|);
      if |healthy| == 0 { return; }
      requestCount := Next(requestCount);
      var val := Rem(requestCount, totalWeight);
      var chosen := Choose(healthy, val);
      r := Some(chosen);
    }
  }

  /** The node whose share contains val; below 0 the first.  The search always ends inside the list. */
  method Choose(nodes: seq<Node>, val: int) returns (i: nat)
    requires nodes != [] && val < TotalWeight(nodes)
    ensures i < |nodes|
    ensures val >= 0 ==> Picks(nodes, val, i)
    ensures val < 0 ==> i == 0
  {
    var current := 0;
    i := 0;
    while i < |nodes|
      invariant 0 <= i <= |nodes| && current == Prefix(nodes, i)
      invariant i > 0 ==> current <= val
    {
      var w := nodes[i].weight;
      if w <= 0 { w := 1; }
      current := current + w;
      if val < current { return; }
      i := i + 1;
    }
    assert false;
  }

  // --- shares ---

  lemma {:induction false} PrefixMonotone(nodes: seq<Node>, i: nat, j: nat)
    requires i <= j <= |nodes|
    ensures Prefix(nodes, i) <= Prefix(nodes, j)
    decreases j
  {
    if i < j { PrefixMonotone(nodes, i, j - 1); }
  }

  /** How many of the n counter values from c on choose node i. */
  ghost function Picked(nodes: seq<Node>, i: nat, c: nat, n: nat): nat
    requires i < |nodes|
    decreases n
  {
    if n == 0 then 0 else
    Picked(nodes, i, c, n - 1) + if Picks(nodes, (c + n - 1) % TotalWeight(nodes), i) then 1 else 0
  }

  lemma SmallMod(x: nat, m: nat)
    requires x < m
    ensures x % m == x
  {
  }

  lemma ModPeriod(x: nat, m: nat)
    requires m > 0
    ensures (x + m) % m == x % m
  {
    var q, r := x / m, x % m;
    assert x + m == m * (q + 1) + r;
    UniqueRemainder(x + m, m, q + 1, r);
  }

  lemma UniqueRemainder(x: nat, m: nat, q: nat, r: nat)
    requires m > 0 && r < m && x == m * q + r
    ensures x % m == r
  {
    var p, s := x / m, x % m;
    assert x == m * p + s;
    assert m * (p - q) == r - s;
    assert p - q >= 1 ==> m * (p - q) >= m;
    assert p - q <= -1 ==> m * (p - q) + m <= 0;
  }

  /** Among the first n values, n no more than the total weight, node i is chosen once for each value in its share. */
  lemma {:induction false} PickedFromZero(nodes: seq<Node>, i: nat, n: nat)
    requires i < |nodes| && n <= TotalWeight(nodes)
    ensures Picked(nodes, i, 0, n) ==
      if n <= Prefix(nodes, i) then 0
      else if n <= Prefix(nodes, i + 1) then n - Prefix(nodes, i)
      else EffectiveWeight(nodes[i])
    decreases n
  {
    if n > 0 {
      PickedFromZero(nodes, i, n - 1);
      SmallMod(n - 1, TotalWeight(nodes));
    }
  }

  lemma {:induction false} PickedShift(nodes: seq<Node>, i: nat, c: nat, n: nat)
    requires i < |nodes|
    ensures Picked(nodes, i, c, n + 1) ==
      Picked(nodes, i, c + 1, n) + if Picks(nodes, c % TotalWeight(nodes), i) then 1 else 0
    decreases n
  {
    if n > 0 {
      PickedShift(nodes, i, c, n - 1);
      assert c + n == (c + 1) + (n - 1);
    }
  }

  /** Exact weighted share: among any totalWeight consecutive counter values each eligible node is chosen exactly as
      often as its effective weight. */
  lemma {:induction false} ExactShare(nodes: seq<Node>, i: nat, c: nat)
    requires i < |nodes|
    ensures Picked(nodes, i, c, TotalWeight(nodes)) == if nodes[i].weight <= 0 then 1 else nodes[i].weight
    decreases c
  {
    var total := TotalWeight(nodes);
    if c == 0 {
      PrefixMonotone(nodes, i + 1, |nodes|);
      PickedFromZero(nodes, i, total);
    } else {
      ExactShare(nodes, i, c - 1);
      PickedShift(nodes, i, c - 1, total);
      ModPeriod(c - 1, total);
      assert c - 1 + total == (c - 1) + (total + 1) - 1;
    }
  }

  /** For each counter value one node is chosen and no other. */
  lemma PicksOne(nodes: seq<Node>, val: nat, i: nat, j: nat)
    requires i < |nodes| && j < |nodes| && Picks(nodes, val, i) && Picks(nodes, val, j)
    ensures i == j
  {
    if i < j { PrefixMonotone(nodes, i + 1, j); }
    if j < i { PrefixMonotone(nodes, j + 1, i); }
  }
}
