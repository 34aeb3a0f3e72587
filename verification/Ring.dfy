/** Consistent hashing: queues go to consumers, and topics' keys to stores
    (phxqueue/consumer/consumer.cpp:816-872, phxqueue/comm/utils/hash_util.h:39-67). The consumer's ring
    has 32-bit points, the generic one 64-bit points; hash functions are arbitrary. */
module Rings {
  import opened Options

  datatype NodeScale<N> = NodeScale(node: N, scale: int)

  // ---------------------------------------------------------------- specification

  /** std::map::emplace: a point that is taken keeps its node. */
  function Place<N>(ring: map<nat, N>, h: nat, n: N): map<nat, N> { if h in ring then ring else ring[h := n] }

  function PlaceNode<N>(ring: map<nat, N>, n: N, j: nat, scale: int, hash: (N, int) -> nat): map<nat, N>
    decreases scale - j
  {
    if j >= scale then ring else PlaceNode(Place(ring, hash(n, j), n), n, j + 1, scale, hash)
  }

  function PlaceAll<N>(ring: map<nat, N>, nodes: seq<NodeScale<N>>, hash: (N, int) -> nat): map<nat, N>
    decreases |nodes|
  {
    if nodes == [] then ring else PlaceAll(PlaceNode(ring, nodes[0].node, 0, nodes[0].scale, hash), nodes[1..], hash)
  }

  function RingOf<N>(nodes: seq<NodeScale<N>>, hash: (N, int) -> nat): map<nat, N> { PlaceAll(map[], nodes, hash) }

  ghost predicate IsLeast(points: set<nat>, k: nat) { k in points && forall l :: l in points ==> k <= l }

  /** Where a hash lands: the least point not below it, or the least point of all. */
  ghost predicate IsSuccessor(points: set<nat>, h: nat, k: nat) {
    && k in points
    && if exists l :: l in points && h <= l
       then h <= k && forall l :: l in points && h <= l ==> k <= l
       else forall l :: l in points ==> k <= l
  }

  lemma SomeLeast(points: set<nat>) returns (k: nat)
    requires points != {}
    ensures IsLeast(points, k)
    decreases |points|
  {
    k :| k in points;
    if l :| l in points && l < k {
      var first, rest := k, points - {k};
      k := SomeLeast(rest);
      assert l in rest;
      forall m | m in points ensures k <= m { assert m == first || m in rest; }
    }
  }

  lemma SomeSuccessor(points: set<nat>, h: nat) returns (k: nat)
    requires points != {}
    ensures IsSuccessor(points, h, k)
  {
    var above := set l | l in points && h <= l;
    if l :| l in points && h <= l {
      assert l in above;
      k := SomeLeast(above);
      forall m | m in points && h <= m ensures k <= m { assert m in above; }
    } else {
      k := SomeLeast(points);
    }
  }

  lemma SuccessorIsUnique(points: set<nat>, h: nat, k: nat, l: nat)
    requires IsSuccessor(points, h, k) && IsSuccessor(points, h, l)
    ensures k == l
  {
  }

  ghost function Successor(points: set<nat>, h: nat): (k: nat)
    requires points != {}
    ensures IsSuccessor(points, h, k)
  {
    assert exists k :: IsSuccessor(points, h, k) by { var k := SomeSuccessor(points, h); }
    var k :| IsSuccessor(points, h, k);
    k
  }

  ghost function Pick<N>(ring: map<nat, N>, h: nat): N
    requires ring != map[]
  {
    assert ring.Keys != {} by { assert ring != map[]; NotEmptyKeys(ring); }
    ring[Successor(ring.Keys, h)]
  }

  lemma NotEmptyKeys<N>(ring: map<nat, N>)
    ensures ring != map[] ==> ring.Keys != {}
  {
  }

  // ---------------------------------------------------------------- one node with fewer points

  /** `fewer` is `more` without some points of `x`, which may have passed to other nodes. */
  ghost predicate Fewer<N>(more: map<nat, N>, fewer: map<nat, N>, x: N) {
    && (forall k :: k in fewer ==> k in more)
    && (forall k :: k in more && more[k] != x ==> k in fewer && fewer[k] == more[k])
  }

  lemma PlaceKeepsFewer<N>(more: map<nat, N>, fewer: map<nat, N>, x: N, h: nat, n: N)
    requires Fewer(more, fewer, x)
    ensures Fewer(Place(more, h, n), Place(fewer, h, n), x)
  {
  }

  lemma ExtraKeepsFewer<N>(more: map<nat, N>, fewer: map<nat, N>, x: N, h: nat)
    requires Fewer(more, fewer, x)
    ensures Fewer(Place(more, h, x), fewer, x)
  {
  }

  lemma {:induction false} NodeKeepsFewer<N>(more: map<nat, N>, fewer: map<nat, N>, x: N, n: N, j: nat, s: int, t: int,
      hash: (N, int) -> nat)
    requires Fewer(more, fewer, x) && (if n == x then t <= s else t == s)
    ensures Fewer(PlaceNode(more, n, j, s, hash), PlaceNode(fewer, n, j, t, hash), x)
    decreases s - j
  {
    hide Fewer, Place;
    if j < t {
      PlaceKeepsFewer(more, fewer, x, hash(n, j), n);
      NodeKeepsFewer(Place(more, hash(n, j), n), Place(fewer, hash(n, j), n), x, n, j + 1, s, t, hash);
    } else if j < s {
      ExtraKeepsFewer(more, fewer, x, hash(n, j));
      NodeKeepsFewer(Place(more, hash(n, j), n), fewer, x, n, j + 1, s, t, hash);
    }
  }

  /** The same view except that the scale of `x` is lower in `b`. */
  ghost predicate Lowered<N>(a: seq<NodeScale<N>>, b: seq<NodeScale<N>>, x: N) {
    |a| == |b| && forall i :: 0 <= i < |a| ==>
      a[i].node == b[i].node && (if a[i].node == x then b[i].scale <= a[i].scale else b[i].scale == a[i].scale)
  }

  lemma {:induction false} LoweredIsFewer<N>(more: map<nat, N>, fewer: map<nat, N>, a: seq<NodeScale<N>>,
      b: seq<NodeScale<N>>, x: N, hash: (N, int) -> nat)
    requires Fewer(more, fewer, x) && Lowered(a, b, x)
    ensures Fewer(PlaceAll(more, a, hash), PlaceAll(fewer, b, hash), x)
    decreases |a|
  {
    hide Fewer;
    if a != [] {
      NodeKeepsFewer(more, fewer, x, a[0].node, 0, a[0].scale, b[0].scale, hash);
      LoweredIsFewer(PlaceNode(more, a[0].node, 0, a[0].scale, hash),
        PlaceNode(fewer, b[0].node, 0, b[0].scale, hash), a[1..], b[1..], x, hash);
    }
  }

  /** A consumer that leaves the view leaves the same ring as one whose scale drops to zero. */
  lemma {:induction false} LeavingIsZero<N>(ring: map<nat, N>, before: seq<NodeScale<N>>, x: N, scale: int,
      after: seq<NodeScale<N>>, hash: (N, int) -> nat)
    requires scale <= 0
    ensures PlaceAll(ring, before + [NodeScale(x, scale)] + after, hash) == PlaceAll(ring, before + after, hash)
    decreases |before|
  {
    var nodes := before + [NodeScale(x, scale)] + after;
    if before == [] {
      assert nodes[0] == NodeScale(x, scale) && nodes[1..] == after && before + after == after;
    } else {
      assert nodes[1..] == before[1..] + [NodeScale(x, scale)] + after && (before + after)[1..] == before[1..] + after;
      LeavingIsZero(PlaceNode(ring, before[0].node, 0, before[0].scale, hash), before[1..], x, scale, after, hash);
    }
  }

  lemma FewerMovesOnly<N>(more: map<nat, N>, fewer: map<nat, N>, x: N, h: nat)
    requires Fewer(more, fewer, x) && more != map[] && fewer != map[]
    ensures Pick(more, h) != x ==> Pick(fewer, h) == Pick(more, h)
  {
  }

  /** Lowering the scale of `x`, or removing it, moves only what `x` had; read the other way round,
      raising it or adding it moves things only to `x`. Points that collide included. */
  lemma LoweringMovesOnlyFrom<N>(a: seq<NodeScale<N>>, b: seq<NodeScale<N>>, x: N, hash: (N, int) -> nat, h: nat)
    requires Lowered(a, b, x) && RingOf(a, hash) != map[] && RingOf(b, hash) != map[]
    ensures Pick(RingOf(a, hash), h) != Pick(RingOf(b, hash), h) ==> Pick(RingOf(a, hash), h) == x
  {
    var none: map<nat, N> := map[];
    assert Fewer(none, none, x);
    LoweredIsFewer(none, none, a, b, x, hash);
    FewerMovesOnly(RingOf(a, hash), RingOf(b, hash), x, h);
  }

  // ---------------------------------------------------------------- who is on the ring

  ghost predicate Listed<N>(nodes: seq<NodeScale<N>>, n: N) {
    exists i :: 0 <= i < |nodes| && nodes[i].node == n && nodes[i].scale > 0
  }

  lemma {:induction false} PlacedNode<N>(ring: map<nat, N>, n: N, j: nat, scale: int, hash: (N, int) -> nat, k: nat)
    requires k in PlaceNode(ring, n, j, scale, hash)
    ensures (k in ring && PlaceNode(ring, n, j, scale, hash)[k] == ring[k])
      || (j < scale && PlaceNode(ring, n, j, scale, hash)[k] == n)
    decreases scale - j
  {
    if j < scale { PlacedNode(Place(ring, hash(n, j), n), n, j + 1, scale, hash, k); }
  }

  lemma {:induction false} PlacedIsListed<N>(ring: map<nat, N>, nodes: seq<NodeScale<N>>, hash: (N, int) -> nat, k: nat)
    requires k in PlaceAll(ring, nodes, hash)
    ensures k in ring || Listed(nodes, PlaceAll(ring, nodes, hash)[k])
    ensures k in ring ==> PlaceAll(ring, nodes, hash)[k] == ring[k] || Listed(nodes, PlaceAll(ring, nodes, hash)[k])
    decreases |nodes|
  {
    if nodes != [] {
      var one := PlaceNode(ring, nodes[0].node, 0, nodes[0].scale, hash);
      PlacedIsListed(one, nodes[1..], hash, k);
      var n := PlaceAll(ring, nodes, hash)[k];
      if Listed(nodes[1..], n) {
        var i :| 0 <= i < |nodes[1..]| && nodes[1..][i].node == n && nodes[1..][i].scale > 0;
        assert nodes[i + 1].node == n;
      } else {
        PlacedNode(ring, nodes[0].node, 0, nodes[0].scale, hash, k);
      }
    }
  }

  // ---------------------------------------------------------------- what a ring is

  /** Point `j` of the i-th node of a list. */
  predicate Listing<N>(nodes: seq<NodeScale<N>>, i: int, j: int) { 0 <= i < |nodes| && 0 <= j < nodes[i].scale }

  /** Point `j` of node `i` is `k`, and no node earlier in the list has that point. */
  ghost predicate First<N>(nodes: seq<NodeScale<N>>, hash: (N, int) -> nat, i: int, j: int, k: nat) {
    && Listing(nodes, i, j) && hash(nodes[i].node, j) == k
    && forall b, l :: Listing(nodes, b, l) && b < i ==> hash(nodes[b].node, l) != k
  }

  /** Exactly the points of the list are on the ring, each for the first node that has it. */
  ghost predicate Holds<N>(ring: map<nat, N>, nodes: seq<NodeScale<N>>, hash: (N, int) -> nat) {
    && (forall i, j :: Listing(nodes, i, j) ==> hash(nodes[i].node, j) in ring)
    && (forall k :: k in ring ==> exists i, j :: First(nodes, hash, i, j, k) && ring[k] == nodes[i].node)
  }

  lemma {:induction false} NodeHolds<N>(ring: map<nat, N>, n: N, j: nat, scale: int, hash: (N, int) -> nat, k: nat)
    ensures var r := PlaceNode(ring, n, j, scale, hash);
      && (k in r <==> k in ring || exists l :: j <= l < scale && hash(n, l) == k)
      && (k in r ==> r[k] == if k in ring then ring[k] else n)
    decreases scale - j
  {
    if j < scale {
      var one := Place(ring, hash(n, j), n);
      NodeHolds(one, n, j + 1, scale, hash, k);
      hide PlaceNode;
      assert k in one <==> k in ring || hash(n, j) == k;
      if l :| j <= l < scale && hash(n, l) == k { assert l == j || j + 1 <= l; }
    }
  }

  lemma {:induction false} AllHold<N>(ring: map<nat, N>, nodes: seq<NodeScale<N>>, hash: (N, int) -> nat, k: nat)
    ensures var r := PlaceAll(ring, nodes, hash);
      && (k in ring ==> k in r && r[k] == ring[k])
      && (k in r && k !in ring ==> exists i, j :: First(nodes, hash, i, j, k) && r[k] == nodes[i].node)
      && (k !in r ==> forall i, j :: Listing(nodes, i, j) ==> hash(nodes[i].node, j) != k)
    decreases |nodes|
  {
    if nodes != [] {
      var n, rest := nodes[0], nodes[1..];
      var one, r := PlaceNode(ring, n.node, 0, n.scale, hash), PlaceAll(ring, nodes, hash);
      NodeHolds(ring, n.node, 0, n.scale, hash, k);
      AllHold(one, rest, hash, k);
      hide PlaceNode, PlaceAll;
      if k in one && k !in ring {
        var l :| 0 <= l < n.scale && hash(n.node, l) == k;
        assert First(nodes, hash, 0, l, k);
      } else if k in r && k !in ring {
        var i, j :| First(rest, hash, i, j, k) && r[k] == rest[i].node;
        FirstOfRest(nodes, hash, i, j, k);
      }
      forall i, j | k !in r && Listing(nodes, i, j) ensures hash(nodes[i].node, j) != k {
        assert i > 0 ==> Listing(rest, i - 1, j) && rest[i - 1] == nodes[i];
      }
    }
  }

  lemma FirstOfRest<N>(nodes: seq<NodeScale<N>>, hash: (N, int) -> nat, i: int, j: int, k: nat)
    requires nodes != [] && First(nodes[1..], hash, i, j, k)
    requires forall l :: 0 <= l < nodes[0].scale ==> hash(nodes[0].node, l) != k
    ensures First(nodes, hash, i + 1, j, k) && nodes[i + 1] == nodes[1..][i]
  {
    forall b, l | Listing(nodes, b, l) && b < i + 1 ensures hash(nodes[b].node, l) != k {
      if b > 0 { assert Listing(nodes[1..], b - 1, l); }
    }
  }

  lemma RingHolds<N>(nodes: seq<NodeScale<N>>, hash: (N, int) -> nat)
    ensures Holds(RingOf(nodes, hash), nodes, hash)
  {
    var none: map<nat, N> := map[];
    forall i, j | Listing(nodes, i, j) ensures hash(nodes[i].node, j) in RingOf(nodes, hash) {
      AllHold(none, nodes, hash, hash(nodes[i].node, j));
    }
    forall k | k in RingOf(nodes, hash)
      ensures exists i, j :: First(nodes, hash, i, j, k) && RingOf(nodes, hash)[k] == nodes[i].node
    {
      AllHold(none, nodes, hash, k);
    }
  }

  /** `k` is the least listed point not below `h`, or the least of all when none is. */
  ghost predicate Lands<N>(nodes: seq<NodeScale<N>>, hash: (N, int) -> nat, h: nat, k: nat) {
    if exists b, l :: Listing(nodes, b, l) && h <= hash(nodes[b].node, l)
    then h <= k && forall b, l :: Listing(nodes, b, l) && h <= hash(nodes[b].node, l) ==> k <= hash(nodes[b].node, l)
    else forall b, l :: Listing(nodes, b, l) ==> k <= hash(nodes[b].node, l)
  }

  /** A listed point of `local` is where `h` lands, and no node earlier in the list has that point. */
  ghost predicate Owns<N>(nodes: seq<NodeScale<N>>, hash: (N, int) -> nat, h: nat, local: N) {
    exists i, j :: && Listing(nodes, i, j) && nodes[i].node == local
                   && First(nodes, hash, i, j, hash(local, j)) && Lands(nodes, hash, h, hash(local, j))
  }

  lemma PickOwns<N>(nodes: seq<NodeScale<N>>, hash: (N, int) -> nat, h: nat, local: N)
    ensures Owns(nodes, hash, h, local) <==> RingOf(nodes, hash) != map[] && Pick(RingOf(nodes, hash), h) == local
  {
    var ring := RingOf(nodes, hash);
    RingHolds(nodes, hash);
    hide RingOf;
    NotEmptyKeys(ring);
    if ring != map[] {
      var k := Successor(ring.Keys, h);
      hide Successor;
      LandsIsSuccessor(ring, nodes, hash, h, k);
      var i, j :| First(nodes, hash, i, j, k) && ring[k] == nodes[i].node;
      if ring[k] == local { assert Listing(nodes, i, j) && nodes[i].node == local; }
      if Owns(nodes, hash, h, local) { OwnerIsUnique(ring, nodes, hash, h, local, k); }
    }
  }

  lemma LandsIsSuccessor<N>(ring: map<nat, N>, nodes: seq<NodeScale<N>>, hash: (N, int) -> nat, h: nat, k: nat)
    requires Holds(ring, nodes, hash) && k in ring
    ensures IsSuccessor(ring.Keys, h, k) <==> Lands(nodes, hash, h, k)
  {
    forall b, l | Listing(nodes, b, l) ensures hash(nodes[b].node, l) in ring.Keys {}
    forall m | m in ring.Keys ensures exists b, l :: Listing(nodes, b, l) && hash(nodes[b].node, l) == m {
      var b, l :| First(nodes, hash, b, l, m) && ring[m] == nodes[b].node;
    }
    hide Holds, First, Listing;
  }

  lemma OwnerIsUnique<N>(ring: map<nat, N>, nodes: seq<NodeScale<N>>, hash: (N, int) -> nat, h: nat, local: N, k: nat)
    requires Holds(ring, nodes, hash) && Owns(nodes, hash, h, local) && IsSuccessor(ring.Keys, h, k)
    ensures k in ring && ring[k] == local
  {
    var i, j :| && Listing(nodes, i, j) && nodes[i].node == local
                && First(nodes, hash, i, j, hash(local, j)) && Lands(nodes, hash, h, hash(local, j));
    var m := hash(local, j);
    assert m in ring;
    LandsIsSuccessor(ring, nodes, hash, h, m);
    SuccessorIsUnique(ring.Keys, h, k, m);
    var b, l :| First(nodes, hash, b, l, m) && ring[m] == nodes[b].node;
    assert Listing(nodes, i, j) && Listing(nodes, b, l);
  }

  /** Hashes that agree on the list are as good as each other. */
  lemma OwnsDepends<N>(nodes: seq<NodeScale<N>>, f: (N, int) -> nat, g: (N, int) -> nat, h: nat, local: N)
    requires forall i, j :: Listing(nodes, i, j) ==> f(nodes[i].node, j) == g(nodes[i].node, j)
    requires Owns(nodes, f, h, local)
    ensures Owns(nodes, g, h, local)
  {
    var i, j :| && Listing(nodes, i, j) && nodes[i].node == local
                && First(nodes, f, i, j, f(local, j)) && Lands(nodes, f, h, f(local, j));
    var k := f(local, j);
    assert g(local, j) == k;
    assert First(nodes, g, i, j, k);
    assert Lands(nodes, g, h, k) by {
      hide First;
      if exists b, l :: Listing(nodes, b, l) && h <= g(nodes[b].node, l) {
        var b, l :| Listing(nodes, b, l) && h <= g(nodes[b].node, l);
        assert h <= f(nodes[b].node, l);
      }
    }
  }

  // ---------------------------------------------------------------- the generic ring

  predicate Better(h: nat, l: nat, k: nat) {
    if h <= l && h <= k then l < k else if h <= l || h <= k then h <= l else l < k
  }

  lemma BetterIsSuccessor(points: set<nat>, h: nat, k: nat, l: nat)
    requires IsSuccessor(points, h, k)
    ensures IsSuccessor(points + {l}, h, if Better(h, l, k) then l else k)
  {
  }

  lemma OneSuccessor(h: nat, l: nat)
    ensures IsSuccessor({l}, h, l)
  {
  }

  /** std::map::lower_bound, going on at the beginning when nothing is left. */
  method Seek(points: set<nat>, h: nat) returns (found: bool, k: nat)
    ensures found <==> points != {}
    ensures found ==> k == Successor(points, h)
  {
    hide IsSuccessor, Better, Successor;
    var rest := points;
    ghost var seen: set<nat> := {};
    found, k := false, 0;
    while rest != {}
      invariant points == seen + rest
      invariant found <==> seen != {}
      invariant found ==> IsSuccessor(seen, h, k)
      decreases |rest|
    {
      var l :| l in rest;
      rest := rest - {l};
      if found {
        BetterIsSuccessor(seen, h, k, l);
        if Better(h, l, k) { k := l; }
      } else {
        OneSuccessor(h, l);
        assert seen + {l} == {l};
        k := l;
      }
      seen := seen + {l};
      found := true;
    }
    if found {
      assert seen == points;
      SuccessorIsUnique(points, h, k, Successor(points, h));
    }
  }

  class ConsistenHash<Key, N> {
    var hash2node: map<nat, N>
    var keyHash: Key -> nat

    constructor (keyHash: Key -> nat)
      ensures hash2node == map[] && this.keyHash == keyHash
    {
      hash2node := map[];
      this.keyHash := keyHash;
    }

    method Init(nodes: seq<NodeScale<N>>, keyHash: Key -> nat, nodeHash: (N, int) -> nat) returns (ok: bool)
      modifies this
      ensures nodes == [] ==> !ok && hash2node == old(hash2node) && this.keyHash == old(this.keyHash)
      ensures nodes != [] ==>
        && hash2node == RingOf(nodes, nodeHash) && Holds(hash2node, nodes, nodeHash)
        && this.keyHash == keyHash && (ok <==> hash2node != map[])
    {
      if nodes == [] { return false; }
      this.keyHash := keyHash;
      hash2node := BuildRing(nodes, nodeHash);
      hide Holds;
      return |hash2node| > 0;
    }

    method PickNodeByKey(key: Key) returns (found: bool, node: Option<N>)
      ensures found <==> hash2node != map[]
      ensures found ==> node == Some(Pick(hash2node, keyHash(key)))
      ensures found ==> exists k :: IsSuccessor(hash2node.Keys, keyHash(key), k) && node == Some(hash2node[k])
      ensures !found ==> node == None
    {
      var k;
      NotEmptyKeys(hash2node);
      found, k := Seek(hash2node.Keys, keyHash(key));
      if !found { return false, None; }
      return true, Some(hash2node[k]);
    }
  }

  method BuildRing<N>(nodes: seq<NodeScale<N>>, hash: (N, int) -> nat) returns (ring: map<nat, N>)
    ensures ring == RingOf(nodes, hash) && Holds(ring, nodes, hash)
  {
    ring := map[];
    var i := 0;
    while i < |nodes|
      invariant 0 <= i <= |nodes|
      invariant PlaceAll(ring, nodes[i..], hash) == RingOf(nodes, hash)
    {
      var n, scale := nodes[i].node, nodes[i].scale;
      ghost var before := ring;
      assert nodes[i..][0] == nodes[i] && nodes[i..][1..] == nodes[i + 1..];
      var j := 0;
      while j < scale
        invariant 0 <= j
        invariant PlaceNode(ring, n, j, scale, hash) == PlaceNode(before, n, 0, scale, hash)
        decreases scale - j
      {
        var h := hash(n, j);
        if h !in ring { ring := ring[h := n]; }
        j := j + 1;
      }
      i := i + 1;
    }
    assert nodes[i..] == [];
    RingHolds(nodes, hash);
  }

  // ---------------------------------------------------------------- the consumer's choice

  /** Points and queue hashes are cut to 32 bits. */
  function Cut(h: nat): nat { h % 0x1_0000_0000 }

  /** With points and hash cut to 32 bits, `local` owns where the hash lands. */
  ghost predicate Takes<N>(scales: seq<NodeScale<N>>, hash: (N, int) -> nat, h: nat, local: N) {
    Owns(scales, (n: N, j: int) => hash(n, j) % 0x1_0000_0000, h % 0x1_0000_0000, local)
  }

  lemma CutTakes<N>(scales: seq<NodeScale<N>>, hash: (N, int) -> nat, h: nat, local: N)
    ensures var ring := ConsumerRing(scales, hash);
      Takes(scales, hash, h, local) <==> ring != map[] && Pick(ring, Cut(h)) == local
  {
    var f, g := (n: N, j: int) => Cut(hash(n, j)), (n: N, j: int) => hash(n, j) % 0x1_0000_0000;
    PickOwns(scales, f, Cut(h), local);
    forall i, j | Listing(scales, i, j) ensures f(scales[i].node, j) == g(scales[i].node, j) {
      var n := scales[i].node;
      assert f(n, j) == Cut(hash(n, j)) == g(n, j);
    }
    hide Owns, RingOf, Pick;
    if Owns(scales, f, Cut(h), local) { OwnsDepends(scales, f, g, Cut(h), local); }
    if Owns(scales, g, Cut(h), local) { OwnsDepends(scales, g, f, Cut(h), local); }
  }

  function ConsumerRing<N>(scales: seq<NodeScale<N>>, hash: (N, int) -> nat): map<nat, N> {
    RingOf(scales, (n: N, j: int) => Cut(hash(n, j)))
  }

  /** The queues, by index, that the consumer at `local` takes. */
  ghost function Chosen<N, Q>(queues: seq<Q>, scales: seq<NodeScale<N>>, hash: (N, int) -> nat, queueHash: Q -> nat,
      local: N): set<nat>
  {
    var ring := ConsumerRing(scales, hash);
    if ring == map[] then {} else set i | 0 <= i < |queues| && Pick(ring, Cut(queueHash(queues[i]))) == local
  }

  lemma ChosenTakes<N, Q>(queues: seq<Q>, scales: seq<NodeScale<N>>, hash: (N, int) -> nat, queueHash: Q -> nat,
      local: N)
    ensures forall i: nat :: i in Chosen(queues, scales, hash, queueHash, local) <==>
      i < |queues| && Takes(scales, hash, queueHash(queues[i]), local)
  {
    forall i: nat | i < |queues|
      ensures i in Chosen(queues, scales, hash, queueHash, local) <==> Takes(scales, hash, queueHash(queues[i]), local)
    {
      CutTakes(scales, hash, queueHash(queues[i]), local);
    }
  }

  method GetQueueByAddrScale<N(==), Q>(queues: seq<Q>, scales: seq<NodeScale<N>>, hash: (N, int) -> nat,
      queueHash: Q -> nat, local: N)
    returns (idxs: set<nat>)
    ensures idxs == Chosen(queues, scales, hash, queueHash, local)
    ensures forall i: nat :: i in idxs <==> i < |queues| && Takes(scales, hash, queueHash(queues[i]), local)
  {
    ChosenTakes(queues, scales, hash, queueHash, local);
    hide Takes, Holds, RingOf, Cut;
    idxs := {};
    var ring := BuildRing(scales, (n: N, j: int) => Cut(hash(n, j)));
    if |ring| == 0 { return; }
    NotEmptyKeys(ring);
    var i := 0;
    while i < |queues|
      invariant 0 <= i <= |queues|
      invariant idxs == set k | 0 <= k < i && Pick(ring, Cut(queueHash(queues[k]))) == local
    {
      var h := Cut(queueHash(queues[i]));
      var found, k := Seek(ring.Keys, h);
      if ring[k] == local { idxs := idxs + {i}; }
      i := i + 1;
    }
  }

  /** All consumers that share a view with at least one point divide the queues among them: each queue is
      taken by exactly one address, and that address is in the view with a positive scale. */
  lemma QueuesArePartitioned<N, Q>(queues: seq<Q>, scales: seq<NodeScale<N>>, hash: (N, int) -> nat,
      queueHash: Q -> nat, i: nat)
    requires ConsumerRing(scales, hash) != map[] && i < |queues|
    ensures exists local ::
      && Listed(scales, local)
      && i in Chosen(queues, scales, hash, queueHash, local)
      && (forall other :: i in Chosen(queues, scales, hash, queueHash, other) ==> other == local)
  {
    var ring := ConsumerRing(scales, hash);
    var local := Pick(ring, Cut(queueHash(queues[i])));
    NotEmptyKeys(ring);
    PlacedIsListed(map[], scales, (n: N, j: int) => Cut(hash(n, j)), Successor(ring.Keys, Cut(queueHash(queues[i]))));
    assert i in Chosen(queues, scales, hash, queueHash, local);
  }

  /** Lowering or removing `x` takes queues only from `x`; everybody else keeps what it had. */
  lemma OthersKeepTheirQueues<N, Q>(queues: seq<Q>, a: seq<NodeScale<N>>, b: seq<NodeScale<N>>, x: N,
      hash: (N, int) -> nat, queueHash: Q -> nat, other: N)
    requires Lowered(a, b, x) && ConsumerRing(a, hash) != map[] && ConsumerRing(b, hash) != map[] && other != x
    ensures Chosen(queues, a, hash, queueHash, other) <= Chosen(queues, b, hash, queueHash, other)
    ensures Chosen(queues, b, hash, queueHash, x) <= Chosen(queues, a, hash, queueHash, x)
  {
    forall i | 0 <= i < |queues|
      ensures i in Chosen(queues, a, hash, queueHash, other) ==> i in Chosen(queues, b, hash, queueHash, other)
      ensures i in Chosen(queues, b, hash, queueHash, x) ==> i in Chosen(queues, a, hash, queueHash, x)
    {
      LoweringMovesOnlyFrom(a, b, x, (n: N, j: int) => Cut(hash(n, j)), Cut(queueHash(queues[i])));
    }
  }
}
