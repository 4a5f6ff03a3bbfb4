// The chained hash map of src/map.c: in-place relinking, power-of-two growth, a failure path.

module HashMap {
  import opened Bits
  import opened MapLayout
  import opened Sequences
  import opened Wrappers

  /** The largest power of two of the C `int` that carries a bucket count to `map_resize`. */
  const MAX_BUCKETS: nat := 0x4000_0000

  function GrownSize(nbuckets: nat): nat {
    if nbuckets > 0 then nbuckets * 2 else 1
  }

  lemma GrownIsPow2(nbuckets: nat)
    requires nbuckets == 0 || IsPow2(nbuckets)
    ensures IsPow2(GrownSize(nbuckets))
  {
    if nbuckets == 0 {
      assert Pow2(0) == 1;
    } else {
      var k: nat :| Pow2(k) == nbuckets;
      assert Pow2(k + 1) == 2 * nbuckets;
    }
  }

  function Max(a: nat, b: nat): nat {
    if a < b then b else a
  }

  /** How the bucket count and the relinking work hang on the highest node count there has been. */
  ghost predicate Grown(nbuckets: nat, nnodes: nat, peak: nat, relinked: nat) {
    && nnodes <= peak <= nbuckets
    && (nbuckets > 0 ==> nbuckets < 2 * peak)
    && relinked == if nbuckets == 0 then 0 else nbuckets - 1
  }

  class HashMap<V> {
    var buckets: array<MapNode?<V>>
    var nbuckets: nat
    var nnodes: nat

    ghost var layout: Layout<V>
    ghost var peak: nat      // the highest `nnodes` there has been
    ghost var relinked: nat  // how many nodes successful resizes have filed again
    ghost var repr: set<object>

    ghost predicate Core()
      reads this`buckets, this`nbuckets, this`layout, buckets, layout.after.Keys
    {
      && nbuckets == buckets.Length == |layout.chains|
      && (nbuckets == 0 || IsPow2(nbuckets))
      && layout.Filed()
      && (forall i {:trigger BucketAt(i)} :: 0 <= i < nbuckets ==> BucketAt(i))
      && (forall d {:trigger LinkOf(d)} :: d in layout.after ==> LinkOf(d))
    }

    /** The bucket starts with the first node of its chain. */
    ghost predicate BucketAt(i: nat)
      requires i < buckets.Length == |layout.chains|
      reads this`buckets, this`layout, buckets
    {
      buckets[i] == NodeAt(layout.chains[i], 0)
    }

    /** The node's link and value are those of the layout. */
    ghost predicate LinkOf(d: MapNode<V>)
      requires d in layout.after && d in layout.values
      reads this`layout, d
    {
      d.next == layout.after[d] && d.value == layout.values[d]
    }

    ghost predicate Valid()
      reads this, repr
      ensures Valid() ==> this in repr
    {
      && this in repr && buckets in repr && layout.after.Keys <= repr
      && Core()
      && nnodes == layout.Size()
      && nbuckets <= MAX_BUCKETS
      && Grown(nbuckets, nnodes, peak, relinked)
    }

    /** The finite map this table stands for. */
    ghost function Contents(): map<Key, V>
      reads this
    {
      layout.Contents()
    }

    /** A zeroed `map_t`. */
    constructor ()
      ensures Valid() && Contents() == map[] && fresh(repr)
      ensures nbuckets == peak == relinked == 0
    {
      buckets, nbuckets, nnodes := new MapNode?<V>[0], 0, 0;
      layout, peak, relinked, repr := Unused(0), 0, 0, {this, buckets};
    }

    /** Puts a detached node at the head of the bucket its hash selects. */
    method AddNode(node: MapNode<V>)
      requires Core() && nbuckets > 0
      requires node.hash == MapHash(node.key) && node.key !in layout.nodeOf
      modifies this`layout, buckets, node`next
      ensures Core()
      ensures layout.nodeOf == old(layout.nodeOf)[node.key := node]
      ensures layout.after.Keys == old(layout.after.Keys) + {node}
      ensures layout.values == old(layout.values)[node := node.value] && layout.Size() == old(layout.Size()) + 1
    {
      var n := BucketIdx(node.hash, nbuckets);
      BucketIdxIsMod(node.hash, nbuckets);
      FiledAfterAdd(layout, node, n, node.value);
      assert BucketAt(n);
      node.next := buckets[n];
      buckets[n] := node;
      layout := layout.Add(node, n, node.value);
      forall i | 0 <= i < nbuckets ensures BucketAt(i) {
        assert old(BucketAt(i));
      }
      forall d | d in layout.after ensures LinkOf(d) {
        assert d != node ==> old(LinkOf(d));
      }
    }

    /** `map_getref`: the link that points at the key's node, as the node before it, null when the bucket head does. */
    method GetRef(key: Key) returns (bucket: nat, prev: MapNode?<V>, node: MapNode?<V>, ghost j: nat)
      requires Core()
      ensures node != null <==> key in layout.nodeOf
      ensures node != null ==>
                && node == layout.nodeOf[key] && node.key == key && node in layout.after
                && bucket < nbuckets && j < |layout.chains[bucket]| && layout.chains[bucket][j] == node
                && prev == (if j == 0 then null else layout.chains[bucket][j - 1])
    {
      var hash := ComputeHash(key);
      bucket, prev, node, j := 0, null, null, 0;
      if key in layout.nodeOf {
        FiledNode(layout, key);
      }
      if nbuckets > 0 {
        bucket := BucketIdx(hash, nbuckets);
        BucketIdxIsMod(hash, nbuckets);
        node := buckets[bucket];
        assert BucketAt(bucket);
        ghost var c := layout.chains[bucket];
        while node != null
          invariant j <= |c| && node == NodeAt(c, j)
          invariant prev == (if j == 0 then null else c[j - 1])
          invariant forall t :: 0 <= t < j ==> c[t].key != key
          decreases |c| - j
        {
          assert layout.FiledAt(bucket, j) && LinkOf(node);
          if node.hash == hash && node.key == key {
            return;
          }
          prev, node, j := node, node.next, j + 1;
        }
      }
    }

    method Get(key: Key) returns (r: Option<V>)
      requires Valid()
      ensures r == if key in Contents() then Some(Contents()[key]) else None
    {
      ContentsKeys(layout);
      var _, _, node, _ := GetRef(key);
      assert node != null ==> LinkOf(node);
      r := if node == null then None else Some(node.value);
    }

    /** `map_set_`: `newnodeOk` and `reallocOk` say whether the two allocations it may ask for succeed. */
    method Set(key: Key, value: V, newnodeOk: bool, reallocOk: bool) returns (rc: int)
      requires Valid()
      modifies repr
      ensures Valid() && fresh(repr - old(repr))
      ensures rc == 0 || rc == -1
      ensures Contents() == if rc == 0 then old(Contents())[key := value] else old(Contents())
      ensures rc == -1 <==>
                && key !in old(Contents())
                && (!newnodeOk || (old(nnodes >= nbuckets) && !(reallocOk && GrownSize(old(nbuckets)) <= MAX_BUCKETS)))
      ensures nbuckets == old(nbuckets) || (rc == 0 && key !in old(Contents()))
      ensures peak == Max(old(peak), nnodes)
      ensures relinked == old(relinked) + if nbuckets != old(nbuckets) then old(nnodes) else 0
    {
      ContentsKeys(layout);
      var _, _, node, _ := GetRef(key);
      if node != null {
        Overwrite(node, value);
        rc := 0;
      } else if !newnodeOk {
        rc := -1;
      } else {
        rc := InsertNew(key, value, reallocOk);
      }
    }

    method InsertNew(key: Key, value: V, reallocOk: bool) returns (rc: int)
      requires Valid() && key !in layout.nodeOf
      modifies this, buckets, layout.after.Keys`next
      ensures Valid() && fresh(repr - old(repr))
      ensures rc == 0 || rc == -1
      ensures Contents() == if rc == 0 then old(Contents())[key := value] else old(Contents())
      ensures rc == -1 <==> old(nnodes >= nbuckets) && !(reallocOk && GrownSize(old(nbuckets)) <= MAX_BUCKETS)
      ensures rc == -1 ==> nbuckets == old(nbuckets)
      ensures peak == Max(old(peak), nnodes)
      ensures relinked == old(relinked) + if nbuckets != old(nbuckets) then old(nnodes) else 0
    {
      var hash := ComputeHash(key);
      var node := new MapNode(hash, key, value);
      rc := Insert(node, reallocOk);
    }

    method Overwrite(node: MapNode<V>, value: V)
      requires Valid() && node in layout.after
      modifies this`layout, node`value
      ensures Valid()
      ensures Contents() == old(Contents())[node.key := value]
    {
      FiledAfterOverwrite(layout, node, value);
      ghost var t := layout;
      node.value := value;
      layout := layout.(values := layout.values[node := value]);
      ContentsAfterAdd(t, layout, node, value);
      forall i | 0 <= i < nbuckets ensures BucketAt(i) {
        assert old(BucketAt(i));
      }
      forall d | d in layout.after ensures LinkOf(d) {
        assert old(LinkOf(d));
      }
    }

    /** The second half of `map_set_`: grows the table if it is full, then files the node. */
    method Insert(node: MapNode<V>, reallocOk: bool) returns (rc: int)
      requires Valid() && node.hash == MapHash(node.key) && node.key !in layout.nodeOf
      modifies this, buckets, layout.after.Keys`next, node`next
      ensures Valid() && fresh(repr - old(repr) - {node})
      ensures rc == 0 || rc == -1
      ensures Contents() == if rc == 0 then old(Contents())[node.key := node.value] else old(Contents())
      ensures rc == -1 <==> old(nnodes >= nbuckets) && !(reallocOk && GrownSize(old(nbuckets)) <= MAX_BUCKETS)
      ensures rc == -1 ==> nbuckets == old(nbuckets)
      ensures peak == Max(old(peak), nnodes)
      ensures relinked == old(relinked) + if nbuckets != old(nbuckets) then old(nnodes) else 0
    {
      if nnodes >= nbuckets {
        GrownIsPow2(nbuckets);
        var ok := reallocOk && GrownSize(nbuckets) <= MAX_BUCKETS;
        Resize(GrownSize(nbuckets), ok);
        if !ok {
          return -1;
        }
      }
      Append(node);
      rc := 0;
    }

    /** `map_addnode` and the count, when there is room. */
    method Append(node: MapNode<V>)
      requires Core() && node.hash == MapHash(node.key) && node.key !in layout.nodeOf
      requires nnodes == layout.Size() < nbuckets <= MAX_BUCKETS
      requires nnodes <= peak <= nbuckets < 2 * (if peak == nnodes then peak + 1 else peak)
      requires relinked == nbuckets - 1 && this in repr && layout.after.Keys <= repr
      modifies this`nnodes, this`layout, this`peak, this`repr, buckets, node`next
      ensures Valid() && repr == old(repr) + {buckets, node}
      ensures Contents() == old(Contents())[node.key := node.value]
      ensures peak == Max(old(peak), nnodes)
    {
      peak, repr := Max(peak, nnodes + 1), repr + {buckets, node};
      File(node);
      nnodes := nnodes + 1;
    }

    method File(node: MapNode<V>)
      requires Core() && nbuckets > 0 && node.hash == MapHash(node.key) && node.key !in layout.nodeOf
      modifies this`layout, buckets, node`next
      ensures Core() && layout.Size() == old(layout.Size()) + 1
      ensures layout.after.Keys == old(layout.after.Keys) + {node}
      ensures Contents() == old(Contents())[node.key := node.value]
    {
      ghost var t := layout;
      AddNode(node);
      ContentsAfterAdd(t, layout, node, node.value);
    }

    method Remove(key: Key)
      requires Valid()
      modifies repr
      ensures Valid() && repr == old(repr)
      ensures Contents() == old(Contents()) - {key}
      ensures nbuckets == old(nbuckets) && peak == old(peak) && relinked == old(relinked)
    {
      ContentsKeys(layout);
      var bucket, prev, node, j := GetRef(key);
      if node != null {
        ghost var t := layout;
        Unlink(bucket, prev, node, j);
        ContentsAfterRemove(t, layout, key);
        nnodes := nnodes - 1;
      } else {
        assert Contents() - {key} == Contents();
      }
    }

    /** `*next = (*next)->next`. */
    method Unlink(bucket: nat, prev: MapNode?<V>, node: MapNode<V>, ghost j: nat)
      requires Core() && bucket < nbuckets && j < |layout.chains[bucket]| && layout.chains[bucket][j] == node
      requires prev == (if j == 0 then null else layout.chains[bucket][j - 1])
      modifies this`layout, buckets, layout.after.Keys`next
      ensures Core()
      ensures layout.nodeOf == old(layout.nodeOf) - {node.key} && layout.after.Keys == old(layout.after.Keys) - {node}
      ensures layout.values == old(layout.values) && layout.Size() == old(layout.Size()) - 1
    {
      FiledAfterRemove(layout, bucket, j);
      assert layout.FiledAt(bucket, j) && LinkOf(node);
      assert prev != null ==> layout.FiledAt(bucket, j - 1);
      if prev == null {
        buckets[bucket] := node.next;
      } else {
        prev.next := node.next;
      }
      layout := layout.Remove(bucket, j);
      forall i | 0 <= i < nbuckets ensures BucketAt(i) {
        assert old(BucketAt(i));
      }
      forall d | d in layout.after ensures LinkOf(d) {
        assert old(LinkOf(d));
      }
    }

    /** The first half of `map_resize`: every node of every bucket, from the last bucket down, on one list. */
    method Unchain() returns (nodes: MapNode?<V>, ghost flat: Chain<V>, ghost below: NextMap<V>)
      requires Core()
      modifies layout.after.Keys`next
      ensures Stack(nodes, flat, below) && Keyed(flat, layout.nodeOf) && below.Keys == layout.after.Keys
      ensures nodes != null ==> nbuckets > 0
      ensures |flat| == layout.Size() && forall d :: d in below ==> d.next == below[d] && d.value == layout.values[d]
    {
      nodes, flat, below := null, [], map[];
      AllNodesChained(layout);
      forall d | d in layout.after ensures d.next == layout.after[d] && d.value == layout.values[d] {
        assert LinkOf(d);
      }
      var i: nat := nbuckets;
      while i > 0
        invariant i <= nbuckets
        invariant Stack(nodes, flat, below) && NoDup(flat)
        invariant |flat| + TotalLength(layout.chains, i) == layout.Size()
        invariant Elems(flat) == layout.after.Keys - layout.FirstNodes(i)
        invariant forall d :: d in below ==> d.next == below[d]
        invariant forall d :: d in layout.FirstNodes(i) ==> d.next == layout.after[d]
      {
        i := i - 1;
        assert old(BucketAt(i));
        BucketNodes(layout, i);
        UnchainStep(layout, i, flat);
        assert TotalLength(layout.chains, i + 1) == TotalLength(layout.chains, i) + |layout.chains[i]|;
        nodes, below := PushAll(buckets[i], layout.chains[i], nodes, flat, below);
        flat := flat + layout.chains[i];
      }
      StackKeys(nodes, flat, below);
      KeyedBy(flat, layout);
      if nodes != null {
        assert KeyedAt(flat, layout.nodeOf, |flat| - 1);
        FiledNode(layout, nodes.key);
      }
    }

    /** The nodes of the list from position `j` on are filed; the others are still linked as on the list. */
    ghost predicate Refiling(node: MapNode?<V>, flat: Chain<V>, below: NextMap<V>, j: nat)
      reads this, buckets, layout.after.Keys, below.Keys
    {
      && Core() && j <= |flat| && node == (if j == 0 then null else flat[j - 1])
      && layout.Size() == |flat| - j
      && layout.nodeOf == KeyMap(flat, j) && layout.after.Keys == NodesFrom(flat, j)
      && forall d :: d in below && d !in layout.after ==> d.next == below[d]
    }

    /** The second half of `map_resize`: files every node of the list again. */
    method Relink(nodes: MapNode?<V>, ghost flat: Chain<V>, ghost below: NextMap<V>, ghost orig: map<Key, MapNode<V>>)
      requires Core() && layout == Unused(nbuckets) && (nodes != null ==> nbuckets > 0)
      requires Stack(nodes, flat, below) && forall d :: d in below ==> d.next == below[d]
      requires Keyed(flat, orig)
      modifies this`layout, buckets, below.Keys`next
      ensures Core() && layout.nodeOf == orig && layout.after.Keys == below.Keys && layout.Size() == |flat|
    {
      StackKeys(nodes, flat, below);
      TotalLengthUnused<V>(nbuckets, nbuckets);
      var node := nodes;
      ghost var j: nat := |flat|;
      while node != null
        invariant Refiling(node, flat, below, j)
        decreases j
      {
        j := j - 1;
        assert StackAt(flat, below, j);
        node := RelinkFirst(node, flat, below, orig, j);
      }
      KeyMapAll(flat, orig);
    }

    /** The body of that loop: files the first node of the list, and goes on to the next. */
    method RelinkFirst(node: MapNode<V>, ghost flat: Chain<V>, ghost below: NextMap<V>,
                       ghost orig: map<Key, MapNode<V>>, ghost j: nat)
        returns (next: MapNode?<V>)
      requires nbuckets > 0 && j < |flat| && Refiling(node, flat, below, j + 1)
      requires StackAt(flat, below, j) && Keyed(flat, orig)
      modifies this`layout, buckets, node`next
      ensures Refiling(next, flat, below, j)
    {
      KeyMapStep(flat, orig, j);
      next := node.next;
      AddNode(node);
    }

    /** `realloc`, if it succeeds, and `memset`. */
    method Reallocate(n: nat, reallocOk: bool)
      requires IsPow2(n) && (buckets.Length == 0 || IsPow2(buckets.Length))
      modifies this`buckets, this`nbuckets, this`layout, buckets
      ensures Core() && layout == Unused(nbuckets)
      ensures nbuckets == if reallocOk then n else old(buckets.Length)
      ensures if reallocOk then fresh(buckets) else buckets == old(buckets)
    {
      if reallocOk {
        buckets := new MapNode?<V>[n];
      }
      Reset();
    }

    /** Empties the table, keeping the buckets it has. */
    method Reset()
      requires buckets.Length == 0 || IsPow2(buckets.Length)
      modifies this`nbuckets, this`layout, buckets
      ensures Core() && nbuckets == buckets.Length && layout == Unused(nbuckets)
    {
      forall i | 0 <= i < buckets.Length {
        buckets[i] := null;
      }
      nbuckets, layout := buckets.Length, Unused(buckets.Length);
    }

    /** Files the nodes of the layout `t` again; what they hold has not changed. */
    method Refill(ghost t: Layout<V>, nodes: MapNode?<V>, ghost flat: Chain<V>, ghost below: NextMap<V>)
      requires Core() && layout == Unused(nbuckets) && (nodes != null ==> nbuckets > 0)
      requires Stack(nodes, flat, below) && forall d :: d in below ==> d.next == below[d]
      requires t.Filed() && Keyed(flat, t.nodeOf) && below.Keys == t.after.Keys
      requires forall d :: d in t.after ==> d.value == t.values[d]
      modifies this`layout, buckets, below.Keys`next
      ensures Core() && layout.nodeOf == t.nodeOf && layout.after.Keys == t.after.Keys && layout.Size() == |flat|
      ensures Contents() == t.Contents()
    {
      Relink(nodes, flat, below, t.nodeOf);
      forall d | d in t.after ensures layout.values[d] == t.values[d] {
        assert LinkOf(d);
      }
      SameContents(t, layout);
    }

    /**
     * `map_resize`: every chain is taken apart before `realloc` runs; when it fails the nodes are filed again in the
     * buckets there were.
     */
    method Resize(n: nat, reallocOk: bool)
      requires Core() && n > 0 && IsPow2(n)
      modifies this`buckets, this`nbuckets, this`layout, this`relinked
      modifies buckets, layout.after.Keys`next
      ensures Core() && layout.nodeOf == old(layout.nodeOf) && layout.after.Keys == old(layout.after.Keys)
      ensures nbuckets == if reallocOk then n else old(nbuckets)
      ensures Contents() == old(Contents())
      ensures layout.Size() == old(layout.Size())
      ensures relinked == old(relinked) + if reallocOk then layout.Size() else 0
      ensures if reallocOk then fresh(buckets) else buckets == old(buckets)
    {
      ghost var t := layout;
      var nodes, flat, below := Unchain();
      relinked := relinked + if reallocOk then |flat| else 0;
      Reallocate(n, reallocOk);
      Refill(t, nodes, flat, below);
    }
  }

  /** Moves the nodes of one bucket onto the stack of all nodes. */
  method PushAll<V>(head: MapNode?<V>, ghost c: Chain<V>, acc: MapNode?<V>, ghost done: Chain<V>, ghost under: NextMap<V>)
      returns (nodes: MapNode?<V>, ghost below: NextMap<V>)
    requires head == NodeAt(c, 0) && NoDup(c)
    requires forall j :: 0 <= j < |c| ==> c[j].next == NodeAt(c, j + 1) && c[j] !in under
    requires Stack(acc, done, under) && forall d :: d in under ==> d.next == under[d]
    modifies c`next
    ensures Stack(nodes, done + c, below) && forall d :: d in below ==> d.next == below[d]
  {
    AllApart(c);
    var node := head;
    ghost var j := 0;
    nodes, below := acc, under;
    assert done + c[..0] == done;
    while node != null
      invariant j <= |c| && node == NodeAt(c, j)
      invariant forall t :: j <= t < |c| ==> c[t].next == NodeAt(c, t + 1) && c[t] !in below
      invariant Stack(nodes, done + c[..j], below)
      invariant forall d :: d in below ==> d.next == below[d]
      decreases |c| - j
    {
      var next := node.next;
      StackPush(nodes, done + c[..j], below, node);
      assert done + c[..j + 1] == (done + c[..j]) + [node];
      node.next := nodes;
      nodes, below, node, j := node, below[node := nodes], next, j + 1;
    }
    assert c[..j] == c;
  }
}
