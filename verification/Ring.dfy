/** The consistent-hash ring that assigns shards to nodes. */
module Ring {

  const HASHES: int := 0x1_0000_0000

  type Hash = h: int | 0 <= h < HASHES

  const DEFAULT_REPLICAS: nat := 32

  /** The checksum of a node's replica; any function will do. */
  type HashKey = (string, nat) -> Hash

  // ------------------------------------------------------------ points of a ring

  /** Later replicas and later nodes overwrite earlier ones on a collision. */
  function PutReplicas(points: map<Hash, string>, id: string, count: nat, hash: HashKey): map<Hash, string> {
    if count == 0 then points else PutReplicas(points, id, count - 1, hash)[hash(id, count - 1) := id]
  }

  function Points(nodes: seq<string>, replicas: nat, hash: HashKey): map<Hash, string> {
    if nodes == [] then map[]
    else PutReplicas(Points(nodes[..|nodes| - 1], replicas, hash), nodes[|nodes| - 1], replicas, hash)
  }

  /** Node i of the list has a replica at h. */
  ghost predicate Lands(nodes: seq<string>, replicas: nat, hash: HashKey, i: nat, h: Hash)
    requires i < |nodes|
  {
    exists r: nat :: r < replicas && hash(nodes[i], r) == h
  }

  lemma {:induction false} ReplicasExactly(points: map<Hash, string>, id: string, count: nat, hash: HashKey, h: Hash)
    ensures var landed := exists r: nat :: r < count && hash(id, r) == h;
      && (h in PutReplicas(points, id, count, hash) <==> landed || h in points)
      && (landed ==> PutReplicas(points, id, count, hash)[h] == id)
      && (!landed && h in points ==> PutReplicas(points, id, count, hash)[h] == points[h])
    decreases count
  {
    if count > 0 {
      ReplicasExactly(points, id, count - 1, hash, h);
      assert (exists r: nat :: r < count && hash(id, r) == h)
        <==> (exists r: nat :: r < count - 1 && hash(id, r) == h) || hash(id, count - 1) == h;
    }
  }

  lemma FrontLands(nodes: seq<string>, k: nat, replicas: nat, hash: HashKey, i: nat, h: Hash)
    requires i < k <= |nodes|
    ensures Lands(nodes[..k], replicas, hash, i, h) <==> Lands(nodes, replicas, hash, i, h)
  {
    assert nodes[..k][i] == nodes[i];
  }

  /** A replica of some node of the list is at h. */
  ghost predicate Occupied(nodes: seq<string>, replicas: nat, hash: HashKey, h: Hash) {
    exists i :: 0 <= i < |nodes| && Lands(nodes, replicas, hash, i, h)
  }

  lemma {:induction false} PointIffOccupied(nodes: seq<string>, replicas: nat, hash: HashKey, h: Hash)
    ensures h in Points(nodes, replicas, hash) <==> Occupied(nodes, replicas, hash, h)
    decreases |nodes|
  {
    hide PutReplicas, Lands;
    if nodes != [] {
      var k := |nodes| - 1;
      PointIffOccupied(nodes[..k], replicas, hash, h);
      ReplicasExactly(Points(nodes[..k], replicas, hash), nodes[k], replicas, hash, h);
      LandsMeans(nodes, replicas, hash, k, h);
      forall i: nat | i < k ensures Lands(nodes[..k], replicas, hash, i, h) <==> Lands(nodes, replicas, hash, i, h) {
        FrontLands(nodes, k, replicas, hash, i, h);
      }
    }
  }

  lemma LandsMeans(nodes: seq<string>, replicas: nat, hash: HashKey, i: nat, h: Hash)
    requires i < |nodes|
    ensures Lands(nodes, replicas, hash, i, h) <==> exists r: nat :: r < replicas && hash(nodes[i], r) == h
  {
  }

  /** Node i is the last of the list with a replica at h. */
  ghost predicate LastAt(nodes: seq<string>, replicas: nat, hash: HashKey, i: nat, h: Hash)
    requires i < |nodes|
  {
    Lands(nodes, replicas, hash, i, h) && forall j :: i < j < |nodes| ==> !Lands(nodes, replicas, hash, j, h)
  }

  lemma {:induction false} LastGetsPoint(nodes: seq<string>, replicas: nat, hash: HashKey, i: nat, h: Hash)
    requires i < |nodes| && LastAt(nodes, replicas, hash, i, h)
    ensures h in Points(nodes, replicas, hash) && Points(nodes, replicas, hash)[h] == nodes[i]
    decreases |nodes|
  {
    hide PutReplicas, Lands;
    var k := |nodes| - 1;
    ReplicasExactly(Points(nodes[..k], replicas, hash), nodes[k], replicas, hash, h);
    LandsMeans(nodes, replicas, hash, k, h);
    if i < k {
      FrontLands(nodes, k, replicas, hash, i, h);
      forall j: nat | i < j < k ensures !Lands(nodes[..k], replicas, hash, j, h) {
        FrontLands(nodes, k, replicas, hash, j, h);
      }
      LastGetsPoint(nodes[..k], replicas, hash, i, h);
    }
  }

  /** There is a point at h exactly if the hash of some replica of some node is h, and it is
      the point of the last such node of the list. */
  lemma PointsExactly(nodes: seq<string>, replicas: nat, hash: HashKey, h: Hash)
    ensures h in Points(nodes, replicas, hash) <==>
      exists i, r: nat :: 0 <= i < |nodes| && r < replicas && hash(nodes[i], r) == h
    ensures forall i :: 0 <= i < |nodes| && LastAt(nodes, replicas, hash, i, h) ==>
      h in Points(nodes, replicas, hash) && Points(nodes, replicas, hash)[h] == nodes[i]
  {
    hide Points, LastAt;
    PointIffOccupied(nodes, replicas, hash, h);
    if Occupied(nodes, replicas, hash, h) {
      var i :| 0 <= i < |nodes| && Lands(nodes, replicas, hash, i, h);
      var r: nat :| r < replicas && hash(nodes[i], r) == h;
    }
    forall i, r: nat | 0 <= i < |nodes| && r < replicas && hash(nodes[i], r) == h ensures Occupied(nodes, replicas, hash, h) {
      assert Lands(nodes, replicas, hash, i, h);
    }
    forall i | 0 <= i < |nodes| && LastAt(nodes, replicas, hash, i, h)
      ensures h in Points(nodes, replicas, hash) && Points(nodes, replicas, hash)[h] == nodes[i]
    {
      LastGetsPoint(nodes, replicas, hash, i, h);
    }
  }

  /** The first point at or above the key, or the lowest of all when there is none. */
  predicate IsSuccessor(keys: set<Hash>, key: Hash, s: Hash) {
    && s in keys
    && (if key <= s then forall t :: t in keys && key <= t ==> s <= t
        else forall t :: t in keys ==> t < key && s <= t)
  }

  /** The reference: the node at the key's successor, or "" on an empty ring. */
  predicate Owns(points: map<Hash, string>, key: Hash, node: string) {
    if points == map[] then node == ""
    else exists s :: s in points && IsSuccessor(points.Keys, key, s) && points[s] == node
  }

  /** A key has at most one owner. */
  lemma OwnerUnique(points: map<Hash, string>, key: Hash, a: string, b: string)
    requires Owns(points, key, a) && Owns(points, key, b)
    ensures a == b
  {
    if points != map[] {
      var s :| s in points && IsSuccessor(points.Keys, key, s) && points[s] == a;
      var t :| t in points && IsSuccessor(points.Keys, key, t) && points[t] == b;
      assert s == t;
    }
  }

  // ------------------------------------------------------------ minimal movement

  function Without(nodes: seq<string>, x: string): seq<string> {
    if nodes == [] then []
    else
      var last := nodes[|nodes| - 1];
      Without(nodes[..|nodes| - 1], x) + if last == x then [] else [last]
  }

  /** Without the node: every other name in the list is kept, in order and as often as it was. */
  lemma {:induction false} WithoutKeepsOthers(nodes: seq<string>, x: string)
    ensures x !in Without(nodes, x) && multiset(Without(nodes, x)) == multiset(nodes)[x := 0]
    ensures x !in nodes ==> Without(nodes, x) == nodes
    decreases |nodes|
  {
    if nodes != [] {
      var k := |nodes| - 1;
      WithoutKeepsOthers(nodes[..k], x);
      assert nodes == nodes[..k] + [nodes[k]];
    }
  }

  /** small has no point that big lacks, and every point that big gives to another node than x. */
  ghost predicate Sheds(big: map<Hash, string>, small: map<Hash, string>, x: string) {
    && (forall p :: p in small ==> p in big)
    && (forall p :: p in big && big[p] != x ==> p in small && small[p] == big[p])
  }

  lemma {:induction false} PutKeepsShed(big: map<Hash, string>, small: map<Hash, string>, x: string, id: string, count: nat, hash: HashKey)
    requires Sheds(big, small, x)
    ensures id == x ==> Sheds(PutReplicas(big, id, count, hash), small, x)
    ensures id != x ==> Sheds(PutReplicas(big, id, count, hash), PutReplicas(small, id, count, hash), x)
    decreases count
  {
    if count > 0 {
      PutKeepsShed(big, small, x, id, count - 1, hash);
    }
  }

  lemma {:induction false} WithoutSheds(nodes: seq<string>, x: string, replicas: nat, hash: HashKey)
    ensures Sheds(Points(nodes, replicas, hash), Points(Without(nodes, x), replicas, hash), x)
    decreases |nodes|
  {
    if nodes != [] {
      var k := |nodes| - 1;
      WithoutSheds(nodes[..k], x, replicas, hash);
      PutKeepsShed(Points(nodes[..k], replicas, hash), Points(Without(nodes[..k], x), replicas, hash), x, nodes[k], replicas, hash);
      if nodes[k] == x {
        assert Without(nodes, x) == Without(nodes[..k], x);
      } else {
        assert Without(nodes, x)[..|Without(nodes, x)| - 1] == Without(nodes[..k], x);
      }
    }
  }

  /** Removing a node moves only what it owned; adding one moves keys only to it.  This
      holds through hash collisions, as long as the other nodes keep their order. */
  lemma MinimalMovement(nodes: seq<string>, x: string, replicas: nat, hash: HashKey, key: Hash, owner: string)
    requires Owns(Points(nodes, replicas, hash), key, owner) && owner != x && nodes != [] && replicas > 0
    ensures Owns(Points(Without(nodes, x), replicas, hash), key, owner)
  {
    var big, small := Points(nodes, replicas, hash), Points(Without(nodes, x), replicas, hash);
    WithoutSheds(nodes, x, replicas, hash);
    SomePoint(nodes, replicas, hash);
    var s :| s in big && IsSuccessor(big.Keys, key, s) && big[s] == owner;
    assert s in small && small[s] == owner;
    assert IsSuccessor(small.Keys, key, s);
  }

  lemma {:induction false} PutAddsPoint(points: map<Hash, string>, id: string, count: nat, hash: HashKey)
    ensures forall p :: p in points ==> p in PutReplicas(points, id, count, hash)
    ensures forall p :: p in PutReplicas(points, id, count, hash) ==>
      PutReplicas(points, id, count, hash)[p] == id || (p in points && PutReplicas(points, id, count, hash)[p] == points[p])
    ensures count > 0 ==> hash(id, count - 1) in PutReplicas(points, id, count, hash)
    decreases count
  {
    if count > 0 {
      PutAddsPoint(points, id, count - 1, hash);
    }
  }

  lemma SomePoint(nodes: seq<string>, replicas: nat, hash: HashKey)
    requires nodes != [] && replicas > 0
    ensures Points(nodes, replicas, hash) != map[]
  {
    var k := |nodes| - 1;
    PutAddsPoint(Points(nodes[..k], replicas, hash), nodes[k], replicas, hash);
  }

  /** Every point belongs to a node of the list. */
  lemma {:induction false} PointsAreNodes(nodes: seq<string>, replicas: nat, hash: HashKey, p: Hash)
    requires p in Points(nodes, replicas, hash)
    ensures Points(nodes, replicas, hash)[p] in nodes
    decreases |nodes|
  {
    var k := |nodes| - 1;
    PutAddsPoint(Points(nodes[..k], replicas, hash), nodes[k], replicas, hash);
    if Points(nodes, replicas, hash)[p] != nodes[k] {
      PointsAreNodes(nodes[..k], replicas, hash, p);
    }
  }

  // ------------------------------------------------------------------- the ring

  predicate Ascending(s: seq<Hash>) {
    forall i, j :: 0 <= i < j < |s| ==> s[i] <= s[j]
  }

  /** Inserts x before the first larger element. */
  method Insert(s: seq<Hash>, x: Hash) returns (r: seq<Hash>)
    requires Ascending(s)
    ensures Ascending(r) && multiset(r) == multiset(s) + multiset{x}
  {
    var i := |s|;
    while i > 0 && x < s[i - 1]
      invariant 0 <= i <= |s| && forall j :: i <= j < |s| ==> x < s[j]
    {
      i := i - 1;
    }
    InsertedAscends(s, i, x);
    hide Ascending;
    r := s[..i] + [x] + s[i..];
    assert s == s[..i] + s[i..];
  }

  lemma InsertedAscends(s: seq<Hash>, i: nat, x: Hash)
    requires Ascending(s) && i <= |s| && (i > 0 ==> s[i - 1] <= x) && forall j :: i <= j < |s| ==> x < s[j]
    ensures Ascending(s[..i] + [x] + s[i..])
  {
    var r := s[..i] + [x] + s[i..];
    forall a, b | 0 <= a < b < |r| ensures r[a] <= r[b] {
      assert r[a] == if a < i then s[a] else if a == i then x else s[a - 1];
      assert r[b] == if b < i then s[b] else if b == i then x else s[b - 1];
      assert a < i ==> s[a] <= s[i - 1];
    }
  }

  method Sort(s: seq<Hash>) returns (r: seq<Hash>)
    ensures Ascending(r) && multiset(r) == multiset(s)
  {
    r := [];
    for i := 0 to |s|
      invariant Ascending(r) && multiset(r) == multiset(s[..i])
    {
      r := Insert(r, s[i]);
      assert s[..i + 1] == s[..i] + [s[i]];
    }
    assert s[..|s|] == s;
  }

  lemma SameElements(s: seq<Hash>, r: seq<Hash>)
    requires multiset(s) == multiset(r)
    ensures forall x :: x in s <==> x in r
  {
    assert forall x :: x in s <==> x in multiset(s);
    assert forall x :: x in r <==> x in multiset(r);
  }

  /** The least hash from the key on, if there is one, and else the least of all. */
  ghost predicate LeastFrom(hashes: set<Hash>, key: Hash, s: Hash) {
    if exists t :: t in hashes && key <= t then key <= s && forall t :: t in hashes && key <= t ==> s <= t
    else forall t :: t in hashes ==> s <= t
  }

  class HashRing {
    var replicas: nat
    var sortedHashes: seq<Hash>
    var hashToNode: map<Hash, string>

    ghost predicate Valid()
      reads this
    {
      Ascending(sortedHashes) && forall h :: h in sortedHashes <==> h in hashToNode
    }

    constructor (nodes: seq<string>, count: int, hash: HashKey)
      ensures Valid() && replicas == (if count <= 0 then 32 else count)
      ensures hashToNode == Points(nodes, replicas, hash)
    {
      replicas := if count <= 0 then DEFAULT_REPLICAS else count;
      sortedHashes, hashToNode := [], map[];
      new;
      for i := 0 to |nodes|
        invariant hashToNode == Points(nodes[..i], replicas, hash)
        invariant replicas == (if count <= 0 then DEFAULT_REPLICAS else count)
        invariant forall h :: h in sortedHashes <==> h in hashToNode
      {
        ghost var points := hashToNode;
        for k := 0 to replicas
          invariant hashToNode == PutReplicas(points, nodes[i], k, hash)
          invariant replicas == (if count <= 0 then DEFAULT_REPLICAS else count)
          invariant forall h :: h in sortedHashes <==> h in hashToNode
        {
          var h := hash(nodes[i], k);
          hashToNode := hashToNode[h := nodes[i]];
          sortedHashes := sortedHashes + [h];
        }
        assert nodes[..i + 1][..i] == nodes[..i];
      }
      assert nodes[..|nodes|] == nodes;
      var unsorted := sortedHashes;
      sortedHashes := Sort(unsorted);
      SameElements(unsorted, sortedHashes);
    }

    /** The least index whose hash is at or above the key, or the length. */
    method Search(key: Hash) returns (idx: nat)
      requires Valid()
      ensures idx <= |sortedHashes|
      ensures forall i :: 0 <= i < idx ==> sortedHashes[i] < key
      ensures forall i :: idx <= i < |sortedHashes| ==> key <= sortedHashes[i]
    {
      var i, j := 0, |sortedHashes|;
      while i < j
        invariant 0 <= i <= j <= |sortedHashes|
        invariant forall k :: 0 <= k < i ==> sortedHashes[k] < key
        invariant forall k :: j <= k < |sortedHashes| ==> key <= sortedHashes[k]
      {
        var h := (i + j) / 2;
        if sortedHashes[h] < key {
          i := h + 1;
        } else {
          j := h;
        }
      }
      idx := i;
    }

    /** The binary search finds the owner the reference names. */
    method Get(key: Hash) returns (node: string)
      requires Valid()
      ensures Owns(hashToNode, key, node)
      ensures hashToNode == map[] ==> node == ""
      ensures hashToNode != map[] ==> exists s :: s in hashToNode && hashToNode[s] == node && LeastFrom(hashToNode.Keys, key, s)
    {
      if |sortedHashes| == 0 {
        assert hashToNode == map[] by {
          assert forall h :: h !in hashToNode;
        }
        return "";
      }
      var idx := Search(key);
      if idx == |sortedHashes| {
        idx := 0;
      }
      var s := sortedHashes[idx];
      assert s in hashToNode;
      forall t | t in hashToNode ensures exists i :: 0 <= i < |sortedHashes| && sortedHashes[i] == t {
        assert t in sortedHashes;
      }
      assert IsSuccessor(hashToNode.Keys, key, s);
      assert LeastFrom(hashToNode.Keys, key, s);
      node := hashToNode[s];
    }
  }

  /** Every shard is owned as the ring says, by a node of the list when there is one. */
  method AssignShards(nodes: seq<string>, numShards: nat, hash: HashKey, shardKey: nat -> Hash) returns (out: seq<string>)
    ensures |out| == numShards
    ensures forall i :: 0 <= i < numShards ==> Owns(Points(nodes, 32, hash), shardKey(i), out[i])
    ensures forall i :: 0 <= i < numShards ==> if nodes == [] then out[i] == "" else out[i] in nodes
  {
    hide Points, PutReplicas, Owns, IsSuccessor;
    var ring := new HashRing(nodes, DEFAULT_REPLICAS, hash);
    out := [];
    for i := 0 to numShards
      invariant ring.Valid() && ring.hashToNode == Points(nodes, DEFAULT_REPLICAS, hash)
      invariant |out| == i && forall k :: 0 <= k < i ==> Owns(ring.hashToNode, shardKey(k), out[k])
      invariant forall k :: 0 <= k < i ==> if nodes == [] then out[k] == "" else out[k] in nodes
    {
      var node := ring.Get(shardKey(i));
      OwnerIsNode(nodes, hash, shardKey(i), node);
      out := out + [node];
    }
  }

  lemma OwnerIsNode(nodes: seq<string>, hash: HashKey, key: Hash, node: string)
    requires Owns(Points(nodes, DEFAULT_REPLICAS, hash), key, node)
    ensures if nodes == [] then node == "" else node in nodes
  {
    if nodes != [] {
      var points := Points(nodes, DEFAULT_REPLICAS, hash);
      SomePoint(nodes, DEFAULT_REPLICAS, hash);
      var s :| s in points && IsSuccessor(points.Keys, key, s) && points[s] == node;
      PointsAreNodes(nodes, DEFAULT_REPLICAS, hash, s);
    }
  }

  /** Over a whole assignment: taking a node off the list changes the owner of those
      shards only that it owned, and putting it back gives shards to it alone. */
  lemma ShardsMoveMinimally(nodes: seq<string>, x: string, hash: HashKey, shardKey: nat -> Hash, before: seq<string>, after: seq<string>)
    requires nodes != [] && |before| == |after|
    requires forall i :: 0 <= i < |before| ==> Owns(Points(nodes, DEFAULT_REPLICAS, hash), shardKey(i), before[i])
    requires forall i :: 0 <= i < |after| ==> Owns(Points(Without(nodes, x), DEFAULT_REPLICAS, hash), shardKey(i), after[i])
    ensures forall i :: 0 <= i < |before| && before[i] != after[i] ==> before[i] == x
  {
    forall i | 0 <= i < |before| && before[i] != x ensures before[i] == after[i] {
      MinimalMovement(nodes, x, DEFAULT_REPLICAS, hash, shardKey(i), before[i]);
      OwnerUnique(Points(Without(nodes, x), DEFAULT_REPLICAS, hash), shardKey(i), before[i], after[i]);
    }
  }
}
