/** The consistent hash ring of
    go-cache/day6-single-flight/gencache/consistenthash/consistenthash.go.
    Each node gets `replicas` virtual points `hash(Itoa(i) + node)` on a
    sorted ring; a key belongs to the first point clockwise of its hash.
    The default hash `crc32.ChecksumIEEE` is not part of this model: it is
    passed to `New` as the parameter `ieee`. */
module ConsistentHash {
  import opened Wrappers
  import opened Text

  /** Go's `uint32`. */
  type uint32 = x: int | 0 <= x < 0x1_0000_0000

  /** `type Hash func(data []byte) uint32`. */
  type Hash = string -> uint32

  ghost predicate Sorted(s: seq<int>) {
    forall i, j :: 0 <= i < j < |s| ==> s[i] <= s[j]
  }

  /** One insertion step of the sort: `x` goes before the first element
      it does not exceed. */
  function InsertSorted(x: int, s: seq<int>): (r: seq<int>)
    ensures multiset(r) == multiset(s) + multiset{x}
    ensures |r| == |s| + 1
    ensures r[0] == if |s| == 0 || x <= s[0] then x else s[0]
    decreases |s|
  {
    if |s| == 0 then [x]
    else if x <= s[0] then [x] + s
    else
      assert s == [s[0]] + s[1..];
      [s[0]] + InsertSorted(x, s[1..])
  }

  /** Inserting into a sorted sequence keeps it sorted. */
  lemma {:induction false} InsertSortedSorted(x: int, s: seq<int>)
    requires Sorted(s)
    ensures Sorted(InsertSorted(x, s))
    decreases |s|
  {
    if |s| > 0 && x > s[0] {
      var tail := InsertSorted(x, s[1..]);
      InsertSortedSorted(x, s[1..]);
      assert s[0] <= tail[0];
      assert InsertSorted(x, s) == [s[0]] + tail;
    }
  }

  /** `sort.Ints`, by its postcondition: ascending and a permutation. */
  function SortInts(s: seq<int>): (r: seq<int>)
    ensures Sorted(r) && multiset(r) == multiset(s)
    decreases |s|
  {
    if |s| == 0 then []
    else
      assert s == [s[0]] + s[1..];
      var sorted := SortInts(s[1..]);
      InsertSortedSorted(s[0], sorted);
      InsertSorted(s[0], sorted)
  }

  /** The number of replicas the loop `for i := 0; i < replicas; i++` makes. */
  function ReplicaCount(replicas: int): nat {
    if replicas > 0 then replicas else 0
  }

  /** The ring position of replica `i` of `node`. */
  function ReplicaHash(hash: Hash, i: nat, node: string): int {
    hash(Itoa(i) + node)
  }

  /** The first `count` replica positions of `node`, in replica order. */
  function NodeHashes(hash: Hash, node: string, count: nat): (r: seq<int>)
    ensures |r| == count
  {
    if count == 0 then [] else NodeHashes(hash, node, count - 1) + [ReplicaHash(hash, count - 1, node)]
  }

  /** Replica `i` of a node is hashed from the decimal `i` followed by the
      node's name. */
  lemma {:induction false} NodeHashesAt(hash: Hash, node: string, count: nat, i: nat)
    requires i < count
    ensures NodeHashes(hash, node, count)[i] == hash(Itoa(i) + node)
  {
    if i < count - 1 {
      NodeHashesAt(hash, node, count - 1, i);
    }
  }

  /** The positions `Add(nodes...)` appends, in the order it appends them. */
  function VirtualKeys(hash: Hash, replicas: int, nodes: seq<string>): seq<int>
    decreases |nodes|
  {
    if |nodes| == 0 then []
    else VirtualKeys(hash, replicas, nodes[..|nodes| - 1]) + NodeHashes(hash, nodes[|nodes| - 1], ReplicaCount(replicas))
  }

  /** `k` strides of `r`: `k * r` without nonlinear arithmetic. */
  function Stride(k: nat, r: nat): (n: nat)
    ensures n == k * r
  {
    if k == 0 then 0 else Stride(k - 1, r) + r
  }

  /** `Add` appends exactly `replicas` positions per node. */
  lemma {:induction false} VirtualKeysLength(hash: Hash, replicas: int, nodes: seq<string>)
    ensures |VirtualKeys(hash, replicas, nodes)| == Stride(|nodes|, ReplicaCount(replicas))
    decreases |nodes|
  {
    if |nodes| > 0 {
      VirtualKeysLength(hash, replicas, nodes[..|nodes| - 1]);
    }
  }

  /** Replica `i` of the `k`-th node lands at offset `k * replicas + i`. */
  lemma {:induction false} VirtualKeysAt(hash: Hash, replicas: int, nodes: seq<string>, k: nat, i: nat)
    requires k < |nodes| && i < ReplicaCount(replicas)
    ensures Stride(k, ReplicaCount(replicas)) + i < |VirtualKeys(hash, replicas, nodes)|
    ensures VirtualKeys(hash, replicas, nodes)[Stride(k, ReplicaCount(replicas)) + i] == hash(Itoa(i) + nodes[k])
    decreases |nodes|
  {
    var r := ReplicaCount(replicas);
    var init := nodes[..|nodes| - 1];
    var prev := VirtualKeys(hash, replicas, init);
    assert VirtualKeys(hash, replicas, nodes) == prev + NodeHashes(hash, nodes[|nodes| - 1], r);
    VirtualKeysLength(hash, replicas, init);
    if k < |init| {
      VirtualKeysAt(hash, replicas, init, k, i);
      assert nodes[k] == init[k];
    } else {
      NodeHashesAt(hash, nodes[k], r, i);
    }
  }

  lemma {:induction false} StrideMono(a: nat, b: nat, r: nat)
    requires a <= b
    ensures Stride(a, r) <= Stride(b, r)
    decreases b
  {
    if a < b { StrideMono(a, b - 1, r); }
  }

  /** The `hashMap` writes of one node's replicas, replica 0 first. */
  function AssignNode(m: map<int, string>, hash: Hash, node: string, count: nat): map<int, string> {
    if count == 0 then m else AssignNode(m, hash, node, count - 1)[ReplicaHash(hash, count - 1, node) := node]
  }

  /** The `hashMap` after the writes of `Add(nodes...)`: later writes win. */
  function Assign(m: map<int, string>, hash: Hash, replicas: int, nodes: seq<string>): map<int, string>
    decreases |nodes|
  {
    if |nodes| == 0 then m
    else AssignNode(Assign(m, hash, replicas, nodes[..|nodes| - 1]), hash, nodes[|nodes| - 1], ReplicaCount(replicas))
  }

  /** One node's writes keep the old positions, map each of its replica
      positions, and only ever write that node's name. */
  lemma {:induction false} AssignNodeFacts(m: map<int, string>, hash: Hash, node: string, count: nat)
    ensures m.Keys <= AssignNode(m, hash, node, count).Keys
    ensures forall i :: 0 <= i < count ==> ReplicaHash(hash, i, node) in AssignNode(m, hash, node, count)
    ensures forall h :: h in AssignNode(m, hash, node, count) ==>
      (h in m && AssignNode(m, hash, node, count)[h] == m[h]) || AssignNode(m, hash, node, count)[h] == node
  {
    if count > 0 {
      AssignNodeFacts(m, hash, node, count - 1);
    }
  }

  /** After `Add`, every appended position has an owner, every owner is a
      node that was passed in or was there before, and nothing is lost. */
  lemma {:induction false} AssignFacts(m: map<int, string>, hash: Hash, replicas: int, nodes: seq<string>)
    ensures m.Keys <= Assign(m, hash, replicas, nodes).Keys
    ensures forall j :: 0 <= j < |VirtualKeys(hash, replicas, nodes)| ==>
      VirtualKeys(hash, replicas, nodes)[j] in Assign(m, hash, replicas, nodes)
    ensures forall h :: h in Assign(m, hash, replicas, nodes) ==>
      (h in m && Assign(m, hash, replicas, nodes)[h] == m[h]) || Assign(m, hash, replicas, nodes)[h] in nodes
    decreases |nodes|
  {
    if |nodes| > 0 {
      var init := nodes[..|nodes| - 1];
      var node := nodes[|nodes| - 1];
      var r := ReplicaCount(replicas);
      AssignFacts(m, hash, replicas, init);
      var before := Assign(m, hash, replicas, init);
      AssignNodeFacts(before, hash, node, r);
      var after := Assign(m, hash, replicas, nodes);
      var vk := VirtualKeys(hash, replicas, nodes);
      var prev := VirtualKeys(hash, replicas, init);
      assert vk == prev + NodeHashes(hash, node, r);
      forall j | 0 <= j < |vk| ensures vk[j] in after {
        if j < |prev| {
          assert vk[j] == prev[j];
        } else {
          NodeHashesAt(hash, node, r, j - |prev|);
          assert vk[j] == ReplicaHash(hash, j - |prev|, node);
        }
      }
      forall h | h in after ensures (h in m && after[h] == m[h]) || after[h] in nodes {
        if h in before && after[h] == before[h] {
          if !(h in m && before[h] == m[h]) {
            assert before[h] in init;
          }
        }
      }
    }
  }

  /** On a collision the later node owns the position: the last node's
      replicas all map to it. */
  lemma {:induction false} AssignLastWins(m: map<int, string>, hash: Hash, replicas: int, nodes: seq<string>, i: nat)
    requires |nodes| > 0 && i < ReplicaCount(replicas)
    ensures ReplicaHash(hash, i, nodes[|nodes| - 1]) in Assign(m, hash, replicas, nodes)
    ensures Assign(m, hash, replicas, nodes)[ReplicaHash(hash, i, nodes[|nodes| - 1])] == nodes[|nodes| - 1]
  {
    var node := nodes[|nodes| - 1];
    var before := Assign(m, hash, replicas, nodes[..|nodes| - 1]);
    AssignNodeLastWins(before, hash, node, ReplicaCount(replicas), i);
  }

  lemma {:induction false} AssignNodeLastWins(m: map<int, string>, hash: Hash, node: string, count: nat, i: nat)
    requires i < count
    ensures ReplicaHash(hash, i, node) in AssignNode(m, hash, node, count)
    ensures AssignNode(m, hash, node, count)[ReplicaHash(hash, i, node)] == node
    decreases count
  {
    AssignNodeFacts(m, hash, node, count);
    if i < count - 1 {
      AssignNodeLastWins(m, hash, node, count - 1, i);
    }
  }

  /** `sort.Search(len(keys), keys[i] >= h)` read linearly: the first index
      whose position is at least `h`, or `len(keys)` if there is none. */
  function FirstAtLeast(keys: seq<int>, h: int): (i: nat)
    ensures i <= |keys|
    ensures forall j :: 0 <= j < i ==> keys[j] < h
    ensures i < |keys| ==> keys[i] >= h
    decreases |keys|
  {
    if |keys| == 0 then 0
    else if keys[0] >= h then 0
    else 1 + FirstAtLeast(keys[1..], h)
  }

  /** The ring invariant survives `Add`: after re-sorting, every position
      has an owner and every owner is an old owner or a new node. */
  lemma AddKeepsRing(keys: seq<int>, m: map<int, string>, nodes: set<string>,
                     hash: Hash, replicas: int, names: seq<string>)
    requires forall i :: 0 <= i < |keys| ==> keys[i] in m
    requires forall h :: h in m ==> m[h] in nodes
    ensures var ring := SortInts(keys + VirtualKeys(hash, replicas, names));
      var owners := Assign(m, hash, replicas, names);
      && (forall i :: 0 <= i < |ring| ==> ring[i] in owners)
      && (forall h :: h in owners ==> owners[h] in nodes + set x | x in names)
  {
    var appended := keys + VirtualKeys(hash, replicas, names);
    var ring := SortInts(appended);
    var owners := Assign(m, hash, replicas, names);
    AssignFacts(m, hash, replicas, names);
    forall i | 0 <= i < |ring| ensures ring[i] in owners {
      assert ring[i] in multiset(appended);
      var j :| 0 <= j < |appended| && appended[j] == ring[i];
      if j >= |keys| {
        assert appended[j] == VirtualKeys(hash, replicas, names)[j - |keys|];
      }
    }
  }

  /** The index `sort.Search` returns is pinned down by its two properties. */
  lemma FirstAtLeastUnique(keys: seq<int>, h: int, i: nat)
    requires i <= |keys|
    requires forall j :: 0 <= j < i ==> keys[j] < h
    requires i < |keys| ==> keys[i] >= h
    ensures i == FirstAtLeast(keys, h)
  {
  }

  class Map {
    const hash: Hash
    const replicas: int
    /** The ring: sorted virtual node positions. */
    var keys: seq<int>
    /** Virtual node position to real node name. */
    var hashMap: map<int, string>
    /** Every node name passed to `Add` so far. */
    ghost var nodes: set<string>

    /** The ring is sorted, every position has an owner, and every owner
        was added. */
    ghost predicate Valid()
      reads this
    {
      && Sorted(keys)
      && (forall i :: 0 <= i < |keys| ==> keys[i] in hashMap)
      && (forall h :: h in hashMap ==> hashMap[h] in nodes)
    }

    /** `New(replicas, fn)`: an empty ring using `fn`, or the IEEE CRC-32
        (`ieee`) when `fn` is nil. */
    constructor New(replicas: int, fn: Option<Hash>, ieee: Hash)
      ensures Valid()
      ensures this.replicas == replicas && hash == (if fn.Some? then fn.value else ieee)
      ensures keys == [] && hashMap == map[] && nodes == {}
    {
      this.replicas := replicas;
      var chosen: Hash := if fn.Some? then fn.value else ieee;
      hash := chosen;
      keys := [];
      hashMap := map[];
      nodes := {};
    }

    /** The inner loop of `Add`: the replica positions of one node are
        appended and their owner recorded. */
    method AddReplicas(node: string)
      modifies this
      ensures keys == old(keys) + NodeHashes(hash, node, ReplicaCount(replicas))
      ensures hashMap == AssignNode(old(hashMap), hash, node, ReplicaCount(replicas))
      ensures nodes == old(nodes)
    {
      ghost var keys0, map0, nodes0 := keys, hashMap, nodes;
      var i := 0;
      while i < replicas
        invariant 0 <= i <= ReplicaCount(replicas)
        invariant keys == keys0 + NodeHashes(hash, node, i)
        invariant hashMap == AssignNode(map0, hash, node, i)
        invariant nodes == nodes0
      {
        var h := hash(Itoa(i) + node);
        keys := keys + [h];
        hashMap := hashMap[h := node];
        i := i + 1;
      }
    }

    /** The outer loop of `Add`: every node's replicas, in argument order. */
    method AddNodes(names: seq<string>)
      modifies this
      ensures keys == old(keys) + VirtualKeys(hash, replicas, names)
      ensures hashMap == Assign(old(hashMap), hash, replicas, names)
      ensures nodes == old(nodes)
    {
      ghost var keys0, map0, nodes0 := keys, hashMap, nodes;
      var n := 0;
      while n < |names|
        invariant 0 <= n <= |names|
        invariant keys == keys0 + VirtualKeys(hash, replicas, names[..n])
        invariant hashMap == Assign(map0, hash, replicas, names[..n])
        invariant nodes == nodes0
      {
        ghost var next := names[..n + 1];
        assert next[..n] == names[..n] && next[n] == names[n];
        assert VirtualKeys(hash, replicas, next)
          == VirtualKeys(hash, replicas, names[..n]) + NodeHashes(hash, names[n], ReplicaCount(replicas));
        assert Assign(map0, hash, replicas, next)
          == AssignNode(Assign(map0, hash, replicas, names[..n]), hash, names[n], ReplicaCount(replicas));
        AddReplicas(names[n]);
        n := n + 1;
      }
      assert names[..n] == names;
    }

    /** `Add(nodes...)`: appends every replica position of every node,
        records its owner (a later write wins) and re-sorts the ring. */
    method Add(names: seq<string>)
      requires Valid()
      modifies this
      ensures Valid()
      ensures multiset(keys) == multiset(old(keys) + VirtualKeys(hash, replicas, names))
      ensures hashMap == Assign(old(hashMap), hash, replicas, names)
      ensures nodes == old(nodes) + set x | x in names
    {
      ghost var keys0, map0 := keys, hashMap;
      AddKeepsRing(keys0, map0, nodes, hash, replicas, names);
      AddNodes(names);
      assert keys == keys0 + VirtualKeys(hash, replicas, names);
      keys := SortInts(keys);
      assert keys == SortInts(keys0 + VirtualKeys(hash, replicas, names));
      nodes := nodes + set x | x in names;
    }

    /** `sort.Search` over the ring: binary search for the first position
        at or after `h`. */
    method Search(h: int) returns (idx: nat)
      requires Valid()
      ensures idx == FirstAtLeast(keys, h)
    {
      var lo, hi := 0, |keys|;
      while lo < hi
        invariant 0 <= lo <= hi <= |keys|
        invariant forall j :: 0 <= j < lo ==> keys[j] < h
        invariant forall j :: hi <= j < |keys| ==> keys[j] >= h
      {
        var mid := (lo + hi) / 2;
        if keys[mid] >= h {
          hi := mid;
        } else {
          lo := mid + 1;
        }
      }
      FirstAtLeastUnique(keys, h, lo);
      idx := lo;
    }

    /** The node owning a hash: the first position at or after it, wrapping
        to the first position when the hash is past the last one. */
    ghost function Owner(h: int): string
      reads this
      requires Valid()
    {
      if |keys| == 0 then "" else hashMap[keys[FirstAtLeast(keys, h) % |keys|]]
    }

    /** `Get(key)`: `""` on an empty ring, otherwise the owner of
        `hash(key)`, always a node that was added; the ring is unchanged. */
    method Get(key: string) returns (node: string)
      requires Valid()
      ensures node == Owner(hash(key))
      ensures |keys| == 0 ==> node == ""
      ensures |keys| > 0 ==> node in nodes
    {
      if |keys| == 0 {
        return "";
      }
      var h := hash(key);
      var idx := Search(h);
      node := hashMap[keys[idx % |keys|]];
    }
  }
}
