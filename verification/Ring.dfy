/** The ring that the configuration generator builds and the greedy choice of a link on it.

    Node `k` of `n` listens on port `root + k` and has links to the nodes `1, 2, 4, ...` places
    further on. A message for another node takes the first link whose doubled width exceeds the
    distance left. Everything is proved for an arbitrary ring size; `CLUSTER_SIZE` is the size
    the daemon has built in.
 */
module Ring {

  import opened Machine

  /** The `% 4` of the daemon. */
  const CLUSTER_SIZE := 4

  function Pow2(e: nat): (r: nat)
    ensures r > 0
  {
    if e == 0 then 1 else 2 * Pow2(e - 1)
  }

  /** Number of one bits. */
  function Popcount(d: nat): nat {
    if d == 0 then 0 else d % 2 + Popcount(d / 2)
  }

  /** Index of the highest one bit. */
  function TopBit(d: nat): (e: nat)
    requires d > 0
    ensures Pow2(e) <= d < Pow2(e + 1)
  {
    if d == 1 then 0 else TopBit(d / 2) + 1
  }

  /** Places from `source` forward to `target`. */
  function Distance(source: int, target: int, n: nat): (d: nat)
    requires n > 0
    ensures d < n
  {
    (target - source) % n
  }

  /** The same computed by the daemon on unsigned 64-bit words, with 32 added to the difference. */
  function WrappedDistance(source: nat, target: nat, n: nat): (d: nat)
    requires n > 0
    ensures d < n
  {
    (target - source + 32) % WORD % n
  }

  /** Where a message at node `i` for node `owner` goes next: forward by the top bit of its distance. */
  function NextNode(i: nat, owner: nat, n: nat): (j: nat)
    requires i < n && owner < n && i != owner
    ensures j < n
  {
    OtherNodeDistance(i, owner, n);
    (i + Pow2(TopBit(Distance(i, owner, n)))) % n
  }

  lemma OtherNodeDistance(i: nat, owner: nat, n: nat)
    requires i < n && owner < n && i != owner
    ensures Distance(i, owner, n) > 0
    ensures Distance(i, owner, n) == if owner > i then owner - i else owner - i + n
  {
    if owner > i {
      ModUnique(owner - i, 0, owner - i, n);
    } else {
      ModUnique(owner - i, -1, owner - i + n, n);
    }
  }

  /** The remainder is the only `r` below `n` at a multiple of `n` from `x`. */
  lemma ModUnique(x: int, q: int, r: int, n: nat)
    requires 0 <= r < n && x == q * n + r
    ensures x % n == r
  {
    var k := q - x / n;
    assert k * n == x % n - r;
    if k > 0 {
      MulAtLeast(k, n);
    } else if k < 0 {
      MulAtLeast(-k, n);
    }
  }

  lemma MulAtLeast(k: int, n: nat)
    requires k > 0
    ensures k * n >= n
  {
  }

  /** Adding a multiple of the modulus first, and reducing by a multiple of it first, change nothing. */
  lemma ModAbsorbs(x: int, a: int, c: int, w: nat, n: nat)
    requires n > 0 && w > 0 && w == c * n
    ensures (x + a * n) % w % n == x % n
  {
    var q, r := (x + a * n) / w, (x + a * n) % w;
    var q', r' := r / n, r % n;
    assert x + a * n == q * w + r;
    assert q * w == q * (c * n) == (q * c) * n;
    assert x == (q * c) * n + q' * n - a * n + r' == (q * c + q' - a) * n + r';
    ModUnique(x, q * c + q' - a, r', n);
  }

  /** The port of the node `offset` places after node `k`. */
  function LinkPort(n: nat, root: nat, k: nat, offset: nat): nat
    requires n > 0
  {
    root + (k + offset) % n
  }

  /** One link per power of two below `n`, narrowest first, and none missing. */
  predicate IsRingConfiguration(connections: seq<nat>, n: nat, root: nat, k: nat)
    requires n > 0
  {
    n <= Pow2(|connections|) && AreLinks(connections, n, root, k)
  }

  predicate AreLinks(connections: seq<nat>, n: nat, root: nat, k: nat)
    requires n > 0
  {
    forall j :: 0 <= j < |connections| ==> Pow2(j) < n && connections[j] == LinkPort(n, root, k, Pow2(j))
  }

  lemma OneMoreLink(connections: seq<nat>, n: nat, root: nat, k: nat)
    requires n > 0 && AreLinks(connections, n, root, k) && Pow2(|connections|) < n
    ensures AreLinks(connections + [LinkPort(n, root, k, Pow2(|connections|))], n, root, k)
  {
    var links := connections + [LinkPort(n, root, k, Pow2(|connections|))];
    forall j | 0 <= j < |links|
      ensures Pow2(j) < n && links[j] == LinkPort(n, root, k, Pow2(j))
    {
      assert j < |connections| ==> links[j] == connections[j];
    }
  }

  /** Generates the links of node `k`. */
  method GenerateLinks(n: nat, root: nat, k: nat) returns (connections: seq<nat>)
    requires k < n
    ensures IsRingConfiguration(connections, n, root, k)
  {
    connections := [];
    var offset := 1;
    while offset < n
      invariant offset == Pow2(|connections|)
      invariant AreLinks(connections, n, root, k)
      decreases n - offset
    {
      OneMoreLink(connections, n, root, k);
      connections := connections + [LinkPort(n, root, k, offset)];
      offset := 2 * offset;
    }
  }

  /** The widths of the links, as the daemon computes them. */
  function Widths(connections: seq<nat>, hostPort: nat, n: nat): (widths: seq<nat>)
    requires n > 0
    ensures |widths| == |connections|
  {
    seq(|connections|, k requires 0 <= k < |connections| => WrappedDistance(hostPort, connections[k], n))
  }

  /** `ret` is the first link whose doubled width exceeds the distance, or -1 if there is none. */
  predicate IsFirstWideLink(ret: int, widths: seq<nat>, dist: nat) {
    && -1 <= ret < |widths|
    && (forall k :: 0 <= k < (if ret == -1 then |widths| else ret) ==> 2 * widths[k] <= dist)
    && (ret >= 0 ==> 2 * widths[ret] > dist)
  }

  /** The daemon's choice of a link; -1 stands for `std::size_t(-1)`. */
  method FindChordConnection(connections: seq<nat>, hostPort: nat, index: nat, n: nat) returns (ret: int)
    requires n > 0
    ensures IsFirstWideLink(ret, Widths(connections, hostPort, n), WrappedDistance(hostPort, index, n))
  {
    ret := -1;
    ghost var widths := Widths(connections, hostPort, n);
    var k := 0;
    while k < |connections|
      invariant 0 <= k <= |connections|
      invariant ret == -1
      invariant forall j :: 0 <= j < k ==> 2 * widths[j] <= WrappedDistance(hostPort, index, n)
    {
      var width := WrappedDistance(hostPort, connections[k], n);
      var dist := WrappedDistance(hostPort, index, n);
      if 2 * width > dist {
        ret := k;
        break;
      }
      k := k + 1;
    }
  }

  lemma OneStepWrapped(n: nat, root: nat)
    requires n > 0 && WrappedDistance(root, root + 1, n) == Distance(root, root + 1, n)
    ensures 32 % n == 0
  {
    assert 33 % n == 1 % n;
    ModUnique(32, 33 / n - 1 / n, 0, n);
  }

  /** The added 32 and the 64-bit wrap do no harm exactly when the ring size divides 32, and otherwise they
      already give a wrong distance between one port and the next. */
  lemma WrapIsNeutral(n: nat, root: nat)
    requires n > 0
    ensures 32 % n == 0 <==> WrappedDistance(root, root + 1, n) == Distance(root, root + 1, n)
    ensures 32 % n == 0 <==> (forall source: nat, target: nat ::
                                WrappedDistance(source, target, n) == Distance(source, target, n))
  {
    if 32 % n == 0 {
      forall source: nat, target: nat
        ensures WrappedDistance(source, target, n) == Distance(source, target, n)
      {
        WrappedIsDistance(source, target, n);
      }
    } else if WrappedDistance(root, root + 1, n) == Distance(root, root + 1, n) {
      OneStepWrapped(n, root);
    }
  }

  lemma WrappedIsDistance(source: nat, target: nat, n: nat)
    requires n > 0 && 32 % n == 0
    ensures WrappedDistance(source, target, n) == Distance(source, target, n)
  {
    var d := 32 / n;
    assert 32 == d * n;
    assert WORD == (WORD / 32 * d) * n by {
      assert WORD == WORD / 32 * 32 == WORD / 32 * (d * n);
    }
    ModAbsorbs(target - source, d, WORD / 32 * d, WORD, n);
  }

  lemma {:induction false} Pow2Monotone(a: nat, b: nat)
    requires a <= b
    ensures Pow2(a) <= Pow2(b)
  {
    if a < b {
      Pow2Monotone(a, b - 1);
    }
  }

  lemma StepDistance(i: int, w: nat, n: nat)
    requires w < n
    ensures ((i + w) % n - i) % n == w
  {
    ModUnique((i + w) % n - i, -((i + w) / n), w, n);
  }

  lemma DistanceLeft(i: int, owner: int, w: nat, n: nat)
    requires n > 0 && w <= (owner - i) % n
    ensures (owner - (i + w) % n) % n == (owner - i) % n - w
  {
    var m, q := (i + w) / n, (owner - i) / n;
    assert owner - (i + w) % n == (q + m) * n + ((owner - i) % n - w);
    ModUnique(owner - (i + w) % n, q + m, (owner - i) % n - w, n);
  }

  lemma ShiftByMultiple(x: int, r: int, n: nat)
    requires n > 0 && r % n == 0
    ensures (x - r) % n == x % n
  {
    ModUnique(x - r, x / n - r / n, x % n, n);
  }

  /** On a generated ring the width of link `k` is `2^k`. */
  lemma LinkWidth(connections: seq<nat>, n: nat, root: nat, i: nat, k: nat)
    requires i < n && 32 % n == 0
    requires IsRingConfiguration(connections, n, root, i) && k < |connections|
    ensures WrappedDistance(root + i, connections[k], n) == Pow2(k)
  {
    WrappedIsDistance(root + i, connections[k], n);
    StepDistance(i, Pow2(k), n);
    assert connections[k] - (root + i) == (i + Pow2(k)) % n - i;
  }

  /** The distance to another node of a generated ring, from ports as from positions. */
  lemma IndexDistance(n: nat, root: nat, i: nat, index: nat)
    requires i < n && 32 % n == 0 && root % n == 0
    ensures WrappedDistance(root + i, index, n) == Distance(i, index, n)
  {
    WrappedIsDistance(root + i, index, n);
    ShiftByMultiple(index - i, root, n);
    assert index - (root + i) == index - i - root;
  }

  /** The first power of two whose double exceeds `dist` is the top bit of `dist`. */
  lemma FirstWideIsTopBit(ret: int, widths: seq<nat>, dist: nat)
    requires 0 < dist < Pow2(|widths|)
    requires forall k :: 0 <= k < |widths| ==> widths[k] == Pow2(k)
    requires IsFirstWideLink(ret, widths, dist)
    ensures ret >= 0 && ret == TopBit(dist)
  {
    assert Pow2(0) == 1;
    var last := |widths| - 1;
    assert last >= 0;
    assert 2 * widths[last] > dist;
    assert ret >= 0;
    assert ret > 0 ==> 2 * widths[ret - 1] <= dist;
    TopBitUnique(dist, ret);
  }

  /** On a generated ring a link is always found for another node, and it is the one whose width is
      the top bit of the distance: the largest power of two not above it. */
  lemma ChordPicksTopBit(ret: int, connections: seq<nat>, n: nat, root: nat, i: nat, index: nat)
    requires i < n && index < n && i != index
    requires 32 % n == 0 && root % n == 0
    requires IsRingConfiguration(connections, n, root, i)
    requires IsFirstWideLink(ret, Widths(connections, root + i, n), WrappedDistance(root + i, index, n))
    ensures 0 <= ret < |connections|
    ensures Distance(i, index, n) > 0
    ensures ret == TopBit(Distance(i, index, n))
  {
    OtherNodeDistance(i, index, n);
    IndexDistance(n, root, i, index);
    RingWidths(connections, n, root, i);
    FirstWideIsTopBit(ret, Widths(connections, root + i, n), Distance(i, index, n));
  }

  lemma RingWidths(connections: seq<nat>, n: nat, root: nat, i: nat)
    requires i < n && 32 % n == 0
    requires IsRingConfiguration(connections, n, root, i)
    ensures forall k :: 0 <= k < |connections| ==> Widths(connections, root + i, n)[k] == Pow2(k)
  {
    forall k | 0 <= k < |connections|
      ensures Widths(connections, root + i, n)[k] == Pow2(k)
    {
      LinkWidth(connections, n, root, i, k);
    }
  }

  /** The link that is picked leads to the next node of the route. */
  lemma ChordLinkLeadsOn(connections: seq<nat>, n: nat, root: nat, i: nat, index: nat)
    requires i < n && index < n && i != index
    requires IsRingConfiguration(connections, n, root, i)
    ensures Distance(i, index, n) > 0
    ensures TopBit(Distance(i, index, n)) < |connections|
    ensures connections[TopBit(Distance(i, index, n))] == root + NextNode(i, index, n)
  {
    OtherNodeDistance(i, index, n);
    var e := TopBit(Distance(i, index, n));
    if e >= |connections| {
      Pow2Monotone(|connections|, e);
    }
  }

  lemma TopBitUnique(d: nat, e: nat)
    requires Pow2(e) <= d < Pow2(e + 1)
    ensures TopBit(d) == e
  {
    var t := TopBit(d);
    if t < e {
      Pow2Monotone(t + 1, e);
    } else if e < t {
      Pow2Monotone(e + 1, t);
    }
  }

  /** Removing the top bit removes exactly one of the one bits. */
  lemma {:induction false} TopBitCleared(d: nat, e: nat)
    requires Pow2(e) <= d < Pow2(e + 1)
    ensures Popcount(d - Pow2(e)) == Popcount(d) - 1
  {
    if e > 0 {
      TopBitCleared(d / 2, e - 1);
      HalveDifference(d, Pow2(e - 1));
    } else {
      assert d == 1;
    }
  }

  lemma PopcountHalf(d: nat)
    ensures Popcount(d) == d % 2 + Popcount(d / 2)
  {
  }

  lemma HalveDifference(d: nat, w: nat)
    requires 2 * w <= d
    ensures Popcount(d - 2 * w) - Popcount(d / 2 - w) == d % 2
  {
    assert (d - 2 * w) / 2 == d / 2 - w && (d - 2 * w) % 2 == d % 2;
    PopcountHalf(d - 2 * w);
  }

  /** One hop clears the top bit of the distance and leaves the other bits alone. */
  lemma HopClearsTopBit(i: nat, owner: nat, n: nat)
    requires i < n && owner < n && i != owner
    ensures Distance(i, owner, n) > 0
    ensures var d := Distance(i, owner, n);
            Distance(NextNode(i, owner, n), owner, n) == d - Pow2(TopBit(d))
  {
    OtherNodeDistance(i, owner, n);
    DistanceLeft(i, owner, Pow2(TopBit(Distance(i, owner, n))), n);
  }

  lemma HopLosesOneBit(i: nat, owner: nat, n: nat)
    requires i < n && owner < n && i != owner
    ensures Popcount(Distance(NextNode(i, owner, n), owner, n)) == Popcount(Distance(i, owner, n)) - 1
  {
    HopClearsTopBit(i, owner, n);
    OtherNodeDistance(i, owner, n);
    TopBitCleared(Distance(i, owner, n), TopBit(Distance(i, owner, n)));
  }

  /** The nodes that a key of `owner` visits from node `i` on, both ends included. */
  function Route(i: nat, owner: nat, n: nat): seq<nat>
    requires i < n && owner < n
    decreases Distance(i, owner, n)
  {
    if i == owner then [i]
    else
      HopClearsTopBit(i, owner, n);
      [i] + Route(NextNode(i, owner, n), owner, n)
  }

  /** A key reaches its owner, in as many hops as the distance has one bits, and the generator never
      needs more links than that bound: at most one hop per link. */
  lemma RouteReachesOwner(i: nat, owner: nat, n: nat, connections: seq<nat>, root: nat)
    requires i < n && owner < n
    requires IsRingConfiguration(connections, n, root, i)
    ensures |Route(i, owner, n)| == Popcount(Distance(i, owner, n)) + 1
    ensures Route(i, owner, n)[|Route(i, owner, n)| - 1] == owner
    ensures |Route(i, owner, n)| - 1 <= |connections|
  {
    RouteLength(i, owner, n);
    PopcountBound(Distance(i, owner, n), |connections|);
  }

  lemma {:induction false} RouteLength(i: nat, owner: nat, n: nat)
    requires i < n && owner < n
    ensures |Route(i, owner, n)| == Popcount(Distance(i, owner, n)) + 1
    ensures Route(i, owner, n)[|Route(i, owner, n)| - 1] == owner
    decreases Distance(i, owner, n)
  {
    if i != owner {
      HopClearsTopBit(i, owner, n);
      HopLosesOneBit(i, owner, n);
      RouteLength(NextNode(i, owner, n), owner, n);
    } else {
      assert Distance(i, owner, n) == 0;
    }
  }

  lemma {:induction false} PopcountBound(d: nat, e: nat)
    requires d < Pow2(e)
    ensures Popcount(d) <= e
  {
    if d > 0 {
      assert e > 0 by {
        assert Pow2(0) == 1;
      }
      PopcountBound(d / 2, e - 1);
    }
  }

  /** `node_index` of the daemon. */
  function NodeIndex(port: nat): (index: nat)
    ensures index < 10 && (port - index) % 10 == 0
  {
    port % 10
  }

  /** The node index and the position that the routing computes agree on node `k`. */
  predicate IndexesAgree(root: nat, k: nat) {
    NodeIndex(root + k) == (root + k) % CLUSTER_SIZE
  }

  /** The two ways of computing a node's position agree on all four nodes exactly when the port root is
      a multiple of 20. */
  lemma NodeIndexAgrees(root: nat)
    ensures root % 20 == 0 <==> forall k: nat | k < CLUSTER_SIZE :: IndexesAgree(root, k)
  {
    if forall k: nat | k < CLUSTER_SIZE :: IndexesAgree(root, k) {
      assert IndexesAgree(root, 0) && IndexesAgree(root, 3);
      TwoResidues(root);
    } else {
      var k: nat :| k < CLUSTER_SIZE && !IndexesAgree(root, k);
      if root % 20 == 0 {
        PositionResidues(root, k);
      }
    }
  }

  lemma TwoResidues(root: nat)
    requires root % 10 == root % 4 && (root + 3) % 10 == (root + 3) % 4
    ensures root % 20 == 0
  {
    var q, r := root / 20, root % 20;
    var low := if r < 10 then r else r - 10;
    ModUnique(root, if r < 10 then 2 * q else 2 * q + 1, low, 10);
    assert low < 4;
    if r < 10 {
      ModUnique(root + 3, 2 * q, r + 3, 10);
      assert r + 3 < 4;
    } else {
      ModUnique(root, 5 * q + (if r < 12 then 2 else 3), if r < 12 then r - 8 else r - 12, 4);
    }
  }

  lemma PositionResidues(root: nat, k: nat)
    requires root % 20 == 0 && k < 4
    ensures (root + k) % 10 == k && (root + k) % 4 == k
  {
    ModUnique(root + k, root / 20 * 2, k, 10);
    ModUnique(root + k, root / 20 * 5, k, 4);
  }

  /** The shipped cluster: with four nodes on a root that is a multiple of 20, the daemon's routine
      returns a link to the next node of the route. */
  lemma ShippedClusterRoutes(ret: int, connections: seq<nat>, root: nat, i: nat, index: nat)
    requires root % 20 == 0 && i < CLUSTER_SIZE && index < CLUSTER_SIZE
    requires IsRingConfiguration(connections, CLUSTER_SIZE, root, i)
    requires index != NodeIndex(root + i)
    requires IsFirstWideLink(ret, Widths(connections, root + i, CLUSTER_SIZE), WrappedDistance(root + i, index, CLUSTER_SIZE))
    ensures i == NodeIndex(root + i)
    ensures 0 <= ret < |connections| && connections[ret] == root + NextNode(i, index, CLUSTER_SIZE)
  {
    PositionResidues(root, i);
    PositionResidues(root, 0);
    ChordPicksTopBit(ret, connections, CLUSTER_SIZE, root, i, index);
    ChordLinkLeadsOn(connections, CLUSTER_SIZE, root, i, index);
  }
}
