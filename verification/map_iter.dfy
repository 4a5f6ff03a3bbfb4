// Iteration over an unmodified map of src/map.c, and what its invariant says of size and growth.

module MapIteration {
  import opened Bits
  import opened HashMap
  import opened MapLayout
  import opened Sequences
  import opened Wrappers

  // ---- the order of iteration ----

  /** The keys of a chain from position `j` on. */
  ghost function KeysOf<V>(c: Chain<V>, j: nat): seq<Key>
    decreases |c| - j
  {
    if j >= |c| then [] else [c[j].key] + KeysOf(c, j + 1)
  }

  /** The keys of the buckets from bucket `i` on. */
  ghost function KeysFrom<V>(chains: seq<Chain<V>>, i: nat): seq<Key>
    decreases |chains| - i
  {
    if i >= |chains| then [] else KeysOf(chains[i], 0) + KeysFrom(chains, i + 1)
  }

  lemma {:induction false} KeysOfChain<V>(t: Layout<V>, i: nat, j: nat)
    requires t.Filed() && i < |t.chains| && j <= |t.chains[i]|
    ensures NoDup(KeysOf(t.chains[i], j)) && |KeysOf(t.chains[i], j)| == |t.chains[i]| - j
    ensures forall k :: k in KeysOf(t.chains[i], j) <==> k in t.nodeOf && t.nodeOf[k] in t.chains[i][j..]
    decreases |t.chains[i]| - j
  {
    var c := t.chains[i];
    if j < |c| {
      KeysOfChain(t, i, j + 1);
      assert t.FiledAt(i, j);
      assert c[j..] == [c[j]] + c[j + 1..];
      assert c[j] !in c[j + 1..] by {
        BucketNodes(t, i);
        AllApart(c);
      }
      forall k | k in t.nodeOf && t.nodeOf[k] == c[j] ensures k == c[j].key {
        assert t.Found(k);
      }
      NoDupConcat([c[j].key], KeysOf(c, j + 1));
    }
  }

  lemma {:induction false} KeysFromBuckets<V>(t: Layout<V>, i: nat)
    requires t.Filed() && i <= |t.chains|
    ensures NoDup(KeysFrom(t.chains, i))
    ensures |KeysFrom(t.chains, i)| + TotalLength(t.chains, i) == t.Size()
    ensures forall k :: k in KeysFrom(t.chains, i) <==> k in t.nodeOf && |t.chains| > 0 && Home(k, |t.chains|) >= i
    decreases |t.chains| - i
  {
    if i < |t.chains| {
      KeysFromBuckets(t, i + 1);
      KeysOfChain(t, i, 0);
      var c := t.chains[i];
      assert c[0..] == c;
      forall k | k in t.nodeOf ensures t.nodeOf[k] in c <==> Home(k, |t.chains|) == i {
        assert t.Found(k);
        if t.nodeOf[k] in c {
          var j :| 0 <= j < |c| && c[j] == t.nodeOf[k];
          assert t.FiledAt(i, j);
        }
      }
      NoDupConcat(KeysOf(c, 0), KeysFrom(t.chains, i + 1));
    } else {
      forall k | k in t.nodeOf ensures |t.chains| > 0 && Home(k, |t.chains|) < i {
        assert t.Found(k);
      }
    }
  }

  /** Every key of the table is met exactly once when its buckets are walked in order. */
  lemma OrderIsExact<V>(t: Layout<V>)
    requires t.Filed()
    ensures NoDup(KeysFrom(t.chains, 0)) && Elems(KeysFrom(t.chains, 0)) == t.Contents().Keys
  {
    KeysFromBuckets(t, 0);
    ContentsKeys(t);
    forall k | k in t.nodeOf ensures |t.chains| > 0 && Home(k, |t.chains|) >= 0 {
      assert t.Found(k);
    }
  }

  /** `nnodes`, the total chain length, is the number of keys. */
  lemma SizeIsKeyCount<V>(t: Layout<V>)
    requires t.Filed()
    ensures t.Size() == |t.Contents()|
  {
    OrderIsExact(t);
    KeysFromBuckets(t, 0);
    NoDupCount(KeysFrom(t.chains, 0));
    assert |t.Contents()| == |t.Contents().Keys|;
  }

  // ---- growth ----

  lemma {:induction false} Pow2Order(j: nat, k: nat)
    requires j < k
    ensures 2 * Pow2(j) <= Pow2(k)
  {
    if j + 1 < k {
      Pow2Order(j, k - 1);
    }
  }

  /** The bucket count is the least power of two not below the highest node count, and 0 while there was none. */
  lemma BucketsAreLeast<V>(m: HashMap<V>, p: nat)
    requires m.Valid()
    ensures m.nbuckets == 0 <==> m.peak == 0
    ensures m.nbuckets > 0 ==> IsPow2(m.nbuckets) && m.peak <= m.nbuckets
    ensures IsPow2(p) && m.peak <= p ==> m.nbuckets <= p
    ensures m.relinked == if m.peak == 0 then 0 else m.nbuckets - 1
  {
    if IsPow2(p) && m.peak <= p && p < m.nbuckets {
      var k: nat :| Pow2(k) == p;
      var b: nat :| Pow2(b) == m.nbuckets;
      if b <= k {
        if b < k {
          Pow2Order(b, k);
        }
        assert false;
      }
      Pow2Order(k, b);
    }
  }

  // ---- map_iter_t ----

  /** `++` on an unsigned `int`. */
  function Increment(n: nat): nat {
    if n == UINT_RANGE - 1 then 0 else n + 1
  }

  class MapIter<V> {
    var bucketidx: nat
    var node: MapNode?<V>
    ghost var pos: nat

    ghost predicate Valid(t: Layout<V>)
      reads this
    {
      && bucketidx < UINT_RANGE
      && (node == null ==> bucketidx == UINT_RANGE - 1 || bucketidx >= |t.chains|)
      && (node != null ==> bucketidx < |t.chains| && pos < |t.chains[bucketidx]| && t.chains[bucketidx][pos] == node)
    }

    /** The keys still to come. */
    ghost function Remaining(t: Layout<V>): seq<Key>
      requires Valid(t)
      reads this
    {
      if node != null then KeysOf(t.chains[bucketidx], pos + 1) + KeysFrom(t.chains, bucketidx + 1)
      else KeysFrom(t.chains, Increment(bucketidx))
    }

    /** `map_iter_`: the index starts at the unsigned value of -1. */
    constructor (ghost t: Layout<V>)
      ensures Valid(t) && Remaining(t) == KeysFrom(t.chains, 0)
    {
      bucketidx, node := UINT_RANGE - 1, null;
    }

    /** `map_next_` */
    method Next(m: HashMap<V>) returns (key: Option<Key>)
      requires m.Valid() && Valid(m.layout)
      modifies this
      ensures Valid(m.layout)
      ensures key.None? <==> old(Remaining(m.layout)) == []
      ensures key.Some? ==> old(Remaining(m.layout)) == [key.value] + Remaining(m.layout)
    {
      var left := false;
      if node != null {
        left := Advance(m);
      }
      if !left {
        NextBucket(m);
      }
      key := if node == null then None else Some(node.key);
    }

    /** Follows `next` in the chain of the bucket. */
    method Advance(m: HashMap<V>) returns (left: bool)
      requires m.Valid() && Valid(m.layout) && node != null
      modifies this`node, this`pos
      ensures left <==> node != null
      ensures left ==> Valid(m.layout) && old(Remaining(m.layout)) == [node.key] + Remaining(m.layout)
      ensures !left ==> old(Remaining(m.layout)) == KeysFrom(m.layout.chains, Increment(bucketidx))
    {
      assert m.layout.FiledAt(bucketidx, pos) && m.LinkOf(node);
      node, pos := node.next, pos + 1;
      left := node != null;
    }

    /** The `nextBucket` loop: on to the first bucket that is not empty. */
    method NextBucket(m: HashMap<V>)
      requires m.Valid() && node == null && bucketidx < UINT_RANGE
      modifies this
      ensures Valid(m.layout)
      ensures KeysFrom(m.layout.chains, Increment(old(bucketidx))) ==
              if node == null then [] else [node.key] + Remaining(m.layout)
    {
      ghost var t := m.layout;
      var more := true;
      while more
        invariant m.Valid() && m.layout == t && bucketidx < UINT_RANGE
        invariant if more then node == null else Valid(t)
        invariant KeysFrom(t.chains, Increment(old(bucketidx))) ==
                  if more then KeysFrom(t.chains, Increment(bucketidx))
                  else if node == null then [] else [node.key] + Remaining(t)
        decreases if more then 1 else 0, if bucketidx == UINT_RANGE - 1 then m.nbuckets + 1 else m.nbuckets - bucketidx
      {
        more := OneBucket(m);
      }
    }

    method OneBucket(m: HashMap<V>) returns (more: bool)
      requires m.Valid() && node == null && bucketidx < UINT_RANGE
      modifies this
      ensures bucketidx == Increment(old(bucketidx))
      ensures more ==> node == null && bucketidx < m.nbuckets
      ensures !more ==> Valid(m.layout)
      ensures KeysFrom(m.layout.chains, bucketidx) ==
              if more then KeysFrom(m.layout.chains, Increment(bucketidx))
              else if node == null then [] else [node.key] + Remaining(m.layout)
    {
      bucketidx := Increment(bucketidx);
      if bucketidx >= m.nbuckets {
        return false;
      }
      assert m.BucketAt(bucketidx);
      node, pos := m.buckets[bucketidx], 0;
      more := node == null;
    }
  }

  /** Calls `map_next_` until it returns NULL. */
  method Iterate<V>(m: HashMap<V>) returns (keys: seq<Key>)
    requires m.Valid()
    ensures NoDup(keys) && Elems(keys) == m.Contents().Keys
  {
    OrderIsExact(m.layout);
    ghost var all := KeysFrom(m.layout.chains, 0);
    var iter := new MapIter<V>(m.layout);
    keys := [];
    var key := iter.Next(m);
    while key.Some?
      invariant iter.Valid(m.layout)
      invariant all == if key.Some? then keys + ([key.value] + iter.Remaining(m.layout)) else keys
      decreases |all| - |keys|
    {
      Associative(keys, [key.value], iter.Remaining(m.layout));
      keys := keys + [key.value];
      key := iter.Next(m);
    }
  }
}
