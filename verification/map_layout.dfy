// The value side of the hash map of src/map.c: hashing, and how nodes are laid out in buckets.

module MapLayout {
  import opened Bits
  import opened Sequences

  /** A C `char`, which is signed on the platforms the program targets. */
  newtype CChar = c: int | -128 <= c < 128

  /** The characters of a C string before its terminator. */
  type Key = seq<CChar>

  const UINT_RANGE: nat := 0x1_0000_0000

  // ---- hashing ----

  /** `hash = ((hash << 5) + hash) ^ *str`, on 32-bit unsigned values. */
  function HashStep(h: nat, c: CChar): nat {
    BitXor((h * 32 + h) % UINT_RANGE, (c as int) % UINT_RANGE)
  }

  function HashFrom(h: nat, key: Key): nat
    decreases |key|
  {
    if key == [] then h else HashFrom(HashStep(h, key[0]), key[1..])
  }

  function MapHash(key: Key): nat {
    HashFrom(5381, key)
  }

  /** The character 255 counts as -1, and so it flips the upper bits too. */
  lemma StepOfMinusOne(h: nat)
    ensures HashStep(h, -1) == UINT_RANGE - 1 - (33 * h) % UINT_RANGE
  {
    Pow2Of32();
    XorOnes((33 * h) % UINT_RANGE, 32);
  }

  lemma HashOfMinusOne()
    ensures MapHash([]) == 5381 && MapHash([-1]) == 4_294_967_295 - 177_573
  {
    StepOfMinusOne(5381);
    assert MapHash([-1]) == HashFrom(HashStep(5381, -1), []);
  }

  method ComputeHash(key: Key) returns (hash: nat)
    ensures hash == MapHash(key) && hash < UINT_RANGE
  {
    hash := 5381;
    assert key[0..] == key;
    for i := 0 to |key|
      invariant HashFrom(hash, key[i..]) == MapHash(key)
      invariant hash < UINT_RANGE
    {
      assert key[i..][1..] == key[i + 1..];
      Pow2Of32();
      XorFits((hash * 32 + hash) % UINT_RANGE, (key[i] as int) % UINT_RANGE, 32);
      hash := HashStep(hash, key[i]);
    }
  }

  function BucketIdx(hash: nat, nbuckets: nat): nat
    requires nbuckets > 0
  {
    BitAnd(hash, nbuckets - 1)
  }

  /** With a power-of-two bucket count the AND selects the bucket `hash` mod `nbuckets`. */
  lemma BucketIdxIsMod(hash: nat, nbuckets: nat)
    requires nbuckets > 0 && IsPow2(nbuckets)
    ensures BucketIdx(hash, nbuckets) == hash % nbuckets < nbuckets
  {
    var k: nat :| Pow2(k) == nbuckets;
    AndMaskIsMod(hash, k);
  }

  /** The bucket a key belongs to. */
  ghost function Home(key: Key, nbuckets: nat): nat
    requires nbuckets > 0
  {
    BucketIdx(MapHash(key), nbuckets)
  }

  // ---- nodes and chains ----

  class MapNode<V> {
    const hash: nat
    const key: Key
    var value: V
    var next: MapNode?<V>

    constructor (hash: nat, key: Key, value: V)
      ensures this.hash == hash && this.key == key && this.value == value
    {
      this.hash, this.key, this.value, this.next := hash, key, value, null;
    }
  }

  type Chain<V> = seq<MapNode<V>>
  type NextMap<V> = map<MapNode<V>, MapNode?<V>>

  ghost function NodeAt<V>(c: Chain<V>, j: nat): MapNode?<V> {
    if j < |c| then c[j] else null
  }

  /** The total length of the first `i` chains. */
  ghost function TotalLength<V>(chains: seq<Chain<V>>, i: nat): nat
    requires i <= |chains|
  {
    if i == 0 then 0 else TotalLength(chains, i - 1) + |chains[i - 1]|
  }

  lemma {:induction false} TotalLengthUpdate<V>(chains: seq<Chain<V>>, n: nat, c: Chain<V>, i: nat)
    requires n < |chains| && i <= |chains|
    ensures TotalLength(chains[n := c], i) == TotalLength(chains, i) + if n < i then |c| - |chains[n]| else 0
  {
    if i > 0 {
      TotalLengthUpdate(chains, n, c, i - 1);
    }
  }

  lemma {:induction false} TotalLengthUnused<V>(n: nat, i: nat)
    requires i <= n
    ensures TotalLength(Unused<V>(n).chains, i) == 0
  {
    if i > 0 {
      TotalLengthUnused<V>(n, i - 1);
    }
  }

  /** The nodes of each bucket, the node of each key, and the `next` and `value` of each node. */
  datatype Layout<V> = Layout(chains: seq<Chain<V>>, nodeOf: map<Key, MapNode<V>>,
                              after: NextMap<V>, values: map<MapNode<V>, V>)
  {
    ghost function Size(): nat {
      TotalLength(chains, |chains|)
    }

    /** The finite map that the table stands for. */
    ghost function Contents(): map<Key, V> {
      map k | k in nodeOf && nodeOf[k] in values :: values[nodeOf[k]]
    }

    /** The node at position `j` of bucket `i` is there by its hash, is the only one of its key, and leads to the next. */
    ghost predicate FiledAt(i: nat, j: nat)
      requires i < |chains| && j < |chains[i]|
    {
      var d := chains[i][j];
      && d.hash == MapHash(d.key)
      && Home(d.key, |chains|) == i
      && d.key in nodeOf
      && nodeOf[d.key] == d
      && d in after
      && after[d] == NodeAt(chains[i], j + 1)
    }

    /** The node of a key is in the chain the key's hash selects. */
    ghost predicate Found(k: Key)
      requires k in nodeOf
    {
      && |chains| > 0
      && nodeOf[k].key == k
      && nodeOf[k] in after
      && Home(k, |chains|) < |chains|
      && nodeOf[k] in chains[Home(k, |chains|)]
    }

    ghost predicate Filed() {
      && (forall i, j {:trigger FiledAt(i, j)} :: 0 <= i < |chains| && 0 <= j < |chains[i]| ==> FiledAt(i, j))
      && (forall i {:trigger NoDup(chains[i])} :: 0 <= i < |chains| ==> NoDup(chains[i]))
      && (forall k {:trigger Found(k)} :: k in nodeOf ==> Found(k))
      && (forall d :: d in after ==> d in values && d.key in nodeOf && nodeOf[d.key] == d)
    }

    ghost function Add(d: MapNode<V>, n: nat, value: V): Layout<V>
      requires n < |chains|
    {
      Layout(chains[n := [d] + chains[n]], nodeOf[d.key := d], after[d := NodeAt(chains[n], 0)], values[d := value])
    }

    ghost function Remove(n: nat, u: nat): Layout<V>
      requires n < |chains| && u < |chains[n]|
    {
      var c, d := chains[n], chains[n][u];
      var after' := if u == 0 then after else after[c[u - 1] := NodeAt(c, u + 1)];
      Layout(chains[n := c[..u] + c[u + 1..]], nodeOf - {d.key}, after' - {d}, values)
    }

    /** The nodes of the first `i` buckets. */
    ghost function FirstNodes(i: nat): set<MapNode<V>>
      requires i <= |chains|
    {
      set b, d | 0 <= b < i && d in chains[b] :: d
    }
  }

  ghost function Unused<V>(nbuckets: nat): Layout<V> {
    Layout(seq(nbuckets, _ => []), map[], map[], map[])
  }

  lemma FiledAfterAdd<V>(t: Layout<V>, d: MapNode<V>, n: nat, value: V)
    requires t.Filed() && n < |t.chains|
    requires d.hash == MapHash(d.key) && d.key !in t.nodeOf && n == Home(d.key, |t.chains|)
    ensures d !in t.after && t.Add(d, n, value).Filed()
    ensures t.Add(d, n, value).Size() == t.Size() + 1
  {
    var t' := t.Add(d, n, value);
    TotalLengthUpdate(t.chains, n, t'.chains[n], |t.chains|);
    forall i, j {:trigger t'.FiledAt(i, j)} | 0 <= i < |t'.chains| && 0 <= j < |t'.chains[i]|
      ensures t'.FiledAt(i, j)
    {
      if i != n {
        assert t.FiledAt(i, j);
      } else if j > 0 {
        assert t.FiledAt(n, j - 1);
      }
    }
    assert NoDup(t'.chains[n]) by {
      forall j | 0 <= j < |t.chains[n]| ensures t.chains[n][j] != d {
        assert t.FiledAt(n, j);
      }
      NoDupConcat([d], t.chains[n]);
    }
    forall k | k in t'.nodeOf ensures t'.Found(k) {
      if k == d.key {
        assert t'.chains[n][0] == d;
      } else {
        assert t.Found(k) && t.nodeOf[k] != d;
        var h := Home(k, |t.chains|);
        var j :| 0 <= j < |t.chains[h]| && t.chains[h][j] == t.nodeOf[k];
        assert h == n ==> t'.chains[h][j + 1] == t.nodeOf[k];
      }
    }
  }

  lemma FiledAfterRemove<V>(t: Layout<V>, n: nat, u: nat)
    requires t.Filed() && n < |t.chains| && u < |t.chains[n]|
    ensures t.FiledAt(n, u) && (u > 0 ==> t.FiledAt(n, u - 1) && t.chains[n][u - 1] != t.chains[n][u])
    ensures t.Remove(n, u).Filed() && t.Remove(n, u).Size() == t.Size() - 1
  {
    var t' := t.Remove(n, u);
    var c, c', d := t.chains[n], t'.chains[n], t.chains[n][u];
    TotalLengthUpdate(t.chains, n, c', |t.chains|);
    assert t.FiledAt(n, u) && (u > 0 ==> t.FiledAt(n, u - 1));
    AllApart(c);
    forall i, j {:trigger t'.FiledAt(i, j)} | 0 <= i < |t'.chains| && 0 <= j < |t'.chains[i]|
      ensures t'.FiledAt(i, j)
    {
      var j0 := if i == n && j >= u then j + 1 else j;
      assert t'.chains[i][j] == t.chains[i][j0];
      assert t.FiledAt(i, j0);
    }
    forall k | k in t'.nodeOf ensures t'.Found(k) {
      assert t.Found(k);
      var h := Home(k, |t.chains|);
      var j :| 0 <= j < |t.chains[h]| && t.chains[h][j] == t.nodeOf[k];
      assert h == n && j != u ==> c'[if j < u then j else j - 1] == t.nodeOf[k];
    }
    forall i | 0 <= i < |t'.chains| ensures NoDup(t'.chains[i]) {
      if i == n {
        forall a, b {:trigger Apart(c', a, b)} | 0 <= a < b < |c'| ensures Apart(c', a, b) {}
      } else {
        assert NoDup(t.chains[i]);
      }
    }
  }

  lemma FiledAfterOverwrite<V>(t: Layout<V>, d: MapNode<V>, value: V)
    requires t.Filed() && d in t.after
    ensures t.(values := t.values[d := value]).Filed()
  {
    var t' := t.(values := t.values[d := value]);
    forall i, j {:trigger t'.FiledAt(i, j)} | 0 <= i < |t'.chains| && 0 <= j < |t'.chains[i]|
      ensures t'.FiledAt(i, j)
    {
      assert t.FiledAt(i, j);
    }
    forall k | k in t'.nodeOf ensures t'.Found(k) {
      assert t.Found(k);
    }
    forall i | 0 <= i < |t'.chains| ensures NoDup(t'.chains[i]) {
      assert NoDup(t.chains[i]);
    }
  }

  lemma ContentsAfterAdd<V>(t: Layout<V>, t': Layout<V>, d: MapNode<V>, value: V)
    requires t.Filed() && t'.nodeOf == t.nodeOf[d.key := d] && t'.values == t.values[d := value]
    ensures t'.Contents() == t.Contents()[d.key := value]
  {
    forall k | k in t.nodeOf && k != d.key ensures t.nodeOf[k] != d {
      assert t.Found(k);
    }
  }

  lemma ContentsAfterRemove<V>(t: Layout<V>, t': Layout<V>, k: Key)
    requires t'.nodeOf == t.nodeOf - {k} && t'.values == t.values
    ensures t'.Contents() == t.Contents() - {k}
  {
  }

  lemma SameContents<V>(t: Layout<V>, t': Layout<V>)
    requires t.Filed() && t'.Filed() && t'.nodeOf == t.nodeOf
    requires forall d :: d in t.after ==> d in t'.after && t'.values[d] == t.values[d]
    ensures t'.Contents() == t.Contents()
  {
    forall k | k in t.nodeOf ensures t.nodeOf[k] in t.after {
      assert t.Found(k);
    }
  }

  lemma ContentsKeys<V>(t: Layout<V>)
    requires t.Filed()
    ensures t.Contents().Keys == t.nodeOf.Keys
  {
    forall k | k in t.nodeOf ensures t.nodeOf[k] in t.values {
      assert t.Found(k);
    }
  }

  lemma FiledNode<V>(t: Layout<V>, k: Key)
    requires t.Filed() && k in t.nodeOf
    ensures t.nodeOf[k].key == k && t.nodeOf[k].hash == MapHash(k) && t.nodeOf[k] in t.after && |t.chains| > 0
    ensures Home(k, |t.chains|) < |t.chains| && t.nodeOf[k] in t.chains[Home(k, |t.chains|)]
  {
    assert t.Found(k);
    var i := Home(k, |t.chains|);
    var j :| 0 <= j < |t.chains[i]| && t.chains[i][j] == t.nodeOf[k];
    assert t.FiledAt(i, j);
  }

  lemma BucketNodes<V>(t: Layout<V>, i: nat)
    requires t.Filed() && i < |t.chains|
    ensures NoDup(t.chains[i])
    ensures forall j :: 0 <= j < |t.chains[i]| ==>
              var d := t.chains[i][j];
              d in t.after && t.after[d] == NodeAt(t.chains[i], j + 1) && d !in t.FirstNodes(i)
  {
    assert NoDup(t.chains[i]);
    forall j | 0 <= j < |t.chains[i]|
      ensures t.FiledAt(i, j) && t.chains[i][j] !in t.FirstNodes(i)
    {
      assert t.FiledAt(i, j);
      forall b, u | 0 <= b < i && 0 <= u < |t.chains[b]| ensures t.chains[b][u] != t.chains[i][j] {
        assert t.FiledAt(b, u);
      }
    }
  }

  lemma AllNodesChained<V>(t: Layout<V>)
    requires t.Filed()
    ensures t.FirstNodes(|t.chains|) == t.after.Keys
  {
    forall d | d in t.after ensures d in t.FirstNodes(|t.chains|) {
      assert t.Found(d.key);
    }
    forall d | d in t.FirstNodes(|t.chains|) ensures d in t.after {
      var b :| 0 <= b < |t.chains| && d in t.chains[b];
      BucketNodes(t, b);
    }
  }

  // ---- one list of nodes, as map_resize threads it ----

  /** `top` starts a list that runs down to null through exactly the nodes of `s`, last first. */
  ghost predicate Stack<V>(top: MapNode?<V>, s: Chain<V>, below: NextMap<V>) {
    && top == (if s == [] then null else s[|s| - 1])
    && (forall j {:trigger StackAt(s, below, j)} :: 0 <= j < |s| ==> StackAt(s, below, j))
    && (forall d :: d in below ==> d in s)
  }

  ghost predicate StackAt<V>(s: Chain<V>, below: NextMap<V>, j: nat)
    requires j < |s|
  {
    s[j] in below && below[s[j]] == (if j == 0 then null else s[j - 1])
  }

  lemma StackPush<V>(top: MapNode?<V>, s: Chain<V>, below: NextMap<V>, d: MapNode<V>)
    requires Stack(top, s, below) && d !in below
    ensures Stack(d, s + [d], below[d := top])
  {
    forall j {:trigger StackAt(s + [d], below[d := top], j)} | 0 <= j < |s + [d]|
      ensures StackAt(s + [d], below[d := top], j)
    {
      if j < |s| {
        assert StackAt(s, below, j);
      }
    }
  }

  lemma StackKeys<V>(top: MapNode?<V>, s: Chain<V>, below: NextMap<V>)
    requires Stack(top, s, below)
    ensures below.Keys == Elems(s)
  {
    forall j | 0 <= j < |s| ensures s[j] in below {
      assert StackAt(s, below, j);
    }
  }

  /** The nodes of `s` are exactly those of `nodeOf`, each once. */
  ghost predicate Keyed<V>(s: Chain<V>, nodeOf: map<Key, MapNode<V>>) {
    && (forall j {:trigger KeyedAt(s, nodeOf, j)} :: 0 <= j < |s| ==> KeyedAt(s, nodeOf, j))
    && (forall k :: k in nodeOf ==> nodeOf[k].key == k && nodeOf[k] in s)
    && NoDup(s)
  }

  ghost predicate KeyedAt<V>(s: Chain<V>, nodeOf: map<Key, MapNode<V>>, j: nat)
    requires j < |s|
  {
    s[j].key in nodeOf && nodeOf[s[j].key] == s[j] && s[j].hash == MapHash(s[j].key)
  }

  lemma UnchainStep<V>(t: Layout<V>, i: nat, flat: Chain<V>)
    requires t.Filed() && i < |t.chains|
    requires NoDup(flat) && Elems(flat) == t.after.Keys - t.FirstNodes(i + 1)
    ensures NoDup(flat + t.chains[i])
    ensures Elems(flat + t.chains[i]) == t.after.Keys - t.FirstNodes(i)
    ensures t.FirstNodes(i) <= t.FirstNodes(i + 1)
    ensures forall j :: 0 <= j < |t.chains[i]| ==> t.chains[i][j] !in flat && t.chains[i][j] in t.FirstNodes(i + 1)
  {
    BucketNodes(t, i);
    assert forall d :: d in t.FirstNodes(i + 1) <==> d in t.FirstNodes(i) || d in t.chains[i];
    forall d | d in t.chains[i] ensures d !in flat {
      assert d !in Elems(flat);
    }
    NoDupConcat(flat, t.chains[i]);
    assert forall d :: d in Elems(flat + t.chains[i]) <==> d in Elems(flat) || d in t.chains[i];
  }

  lemma KeyedBy<V>(s: Chain<V>, t: Layout<V>)
    requires NoDup(s) && Elems(s) == t.after.Keys && t.Filed()
    ensures Keyed(s, t.nodeOf)
  {
    forall j | 0 <= j < |s|
      ensures KeyedAt(s, t.nodeOf, j)
    {
      assert s[j] in Elems(s);
      FiledNode(t, s[j].key);
    }
    forall k | k in t.nodeOf ensures t.nodeOf[k].key == k && t.nodeOf[k] in s {
      FiledNode(t, k);
      assert t.nodeOf[k] in Elems(s);
    }
  }

  /** The key map of the nodes of `s` from position `j` on. */
  ghost function KeyMap<V>(s: Chain<V>, j: nat): map<Key, MapNode<V>>
    decreases |s| - j
  {
    if j >= |s| then map[] else KeyMap(s, j + 1)[s[j].key := s[j]]
  }

  ghost function NodesFrom<V>(s: Chain<V>, j: nat): set<MapNode<V>> {
    set u | j <= u < |s| :: s[u]
  }

  lemma {:induction false} KeyMapIs<V>(s: Chain<V>, orig: map<Key, MapNode<V>>, j: nat)
    requires Keyed(s, orig) && j <= |s|
    ensures forall k :: k in KeyMap(s, j) ==> k in orig && KeyMap(s, j)[k] == orig[k] && orig[k] in NodesFrom(s, j)
    ensures forall u :: j <= u < |s| ==> s[u].key in KeyMap(s, j)
    decreases |s| - j
  {
    if j < |s| {
      KeyMapIs(s, orig, j + 1);
      assert KeyedAt(s, orig, j);
    }
  }

  lemma KeyMapStep<V>(s: Chain<V>, orig: map<Key, MapNode<V>>, j: nat)
    requires Keyed(s, orig) && j < |s|
    ensures KeyMap(s, j) == KeyMap(s, j + 1)[s[j].key := s[j]]
    ensures NodesFrom(s, j) == NodesFrom(s, j + 1) + {s[j]} && s[j] !in NodesFrom(s, j + 1)
    ensures s[j].key !in KeyMap(s, j + 1) && s[j].hash == MapHash(s[j].key)
  {
    KeyMapIs(s, orig, j + 1);
    AllApart(s);
    assert KeyedAt(s, orig, j);
  }

  lemma KeyMapAll<V>(s: Chain<V>, orig: map<Key, MapNode<V>>)
    requires Keyed(s, orig)
    ensures KeyMap(s, 0) == orig && NodesFrom(s, 0) == Elems(s)
  {
    KeyMapIs(s, orig, 0);
    forall k | k in orig ensures k in KeyMap(s, 0) {
      var u :| 0 <= u < |s| && s[u] == orig[k];
    }
  }
}
