// Whole histories of a hash map of src/map.c: contents, growth, and the work of growing.

module MapHistory {
  import opened Bits
  import opened HashMap
  import opened MapIteration
  import opened MapLayout

  /** A call of `map_set_`, with what the allocator answers, or of `map_remove_`. */
  datatype Op<V> = Set(key: Key, value: V, newnodeOk: bool, reallocOk: bool) | Remove(key: Key)

  /** What a call makes of the finite map, when `done` says that it did not fail. */
  function Performed<V>(m: map<Key, V>, op: Op<V>, done: bool): map<Key, V> {
    if !done then m
    else match op
      case Set(key, value, _, _) => m[key := value]
      case Remove(key) => m - {key}
  }

  /**
   * Whether a call succeeds on the finite map `m` in so many buckets: a removal always does, and so does a new value for
   * a key that is there; a new key takes a node, and a larger table if this one is full.
   */
  predicate Succeeds<V>(m: map<Key, V>, nbuckets: nat, op: Op<V>) {
    match op
    case Set(key, _, newnodeOk, reallocOk) =>
      key in m || (newnodeOk && (|m| < nbuckets || (reallocOk && GrownSize(nbuckets) <= MAX_BUCKETS)))
    case Remove(_) => true
  }

  /** The finite map after the first `n` calls. */
  function After<V>(ops: seq<Op<V>>, done: seq<bool>, n: nat): map<Key, V>
    requires n <= |ops| && n <= |done|
  {
    if n == 0 then map[] else Performed(After(ops, done, n - 1), ops[n - 1], done[n - 1])
  }

  /** The highest number of keys there has been. */
  function Highest<V>(ops: seq<Op<V>>, done: seq<bool>, n: nat): nat
    requires n <= |ops| && n <= |done|
  {
    if n == 0 then 0 else Max(Highest(ops, done, n - 1), |After(ops, done, n)|)
  }

  /** How many nodes were filed again, when the bucket counts were `counts`: all there were, whenever the count changed. */
  function Refiled<V>(ops: seq<Op<V>>, done: seq<bool>, counts: seq<nat>, n: nat): nat
    requires n <= |ops| && n <= |done| && n < |counts|
  {
    if n == 0 then 0
    else Refiled(ops, done, counts, n - 1) + if counts[n] != counts[n - 1] then |After(ops, done, n - 1)| else 0
  }

  /** `n` is the least power of two not below `h`, or 0 if `h` is. */
  ghost predicate LeastPow2(n: nat, h: nat) {
    if h == 0 then n == 0 else IsPow2(n) && h <= n && forall p: nat :: IsPow2(p) && h <= p ==> n <= p
  }

  lemma CountIsLeast<V>(m: HashMap<V>)
    requires m.Valid()
    ensures LeastPow2(m.nbuckets, m.peak) && m.relinked == if m.peak == 0 then 0 else m.nbuckets - 1
  {
    BucketsAreLeast(m, m.nbuckets);
    forall p: nat | IsPow2(p) && m.peak <= p ensures m.nbuckets <= p {
      BucketsAreLeast(m, p);
    }
  }

  lemma {:induction false} AfterPrefix<V>(ops: seq<Op<V>>, done: seq<bool>, ok: bool, n: nat)
    requires n <= |ops| && n <= |done|
    ensures After(ops, done + [ok], n) == After(ops, done, n) && Highest(ops, done + [ok], n) == Highest(ops, done, n)
  {
    if n > 0 {
      AfterPrefix(ops, done, ok, n - 1);
    }
  }

  lemma {:induction false} RefiledPrefix<V>(ops: seq<Op<V>>, done: seq<bool>, ok: bool, counts: seq<nat>, c: nat, n: nat)
    requires n <= |ops| && n <= |done| && n < |counts|
    ensures Refiled(ops, done + [ok], counts + [c], n) == Refiled(ops, done, counts, n)
  {
    if n > 0 {
      RefiledPrefix(ops, done, ok, counts, c, n - 1);
      AfterPrefix(ops, done, ok, n - 1);
    }
  }

  /** The `i`-th call has answered what the map and the buckets before it, and the allocator, say. */
  ghost predicate AnsweredAt<V>(ops: seq<Op<V>>, done: seq<bool>, counts: seq<nat>, i: nat)
    requires i < |done| <= |ops| && i < |counts|
  {
    done[i] == Succeeds(After(ops, done, i), counts[i], ops[i])
  }

  /** What a table has come to after the calls that `done` and `counts` tell of. */
  ghost predicate Recorded<V>(ops: seq<Op<V>>, done: seq<bool>, counts: seq<nat>, contents: map<Key, V>,
                              peak: nat, relinked: nat)
  {
    && |done| <= |ops| && |counts| == |done| + 1
    && contents == After(ops, done, |done|)
    && peak == Highest(ops, done, |done|)
    && relinked == Refiled(ops, done, counts, |done|)
    && (forall i {:trigger AnsweredAt(ops, done, counts, i)} :: 0 <= i < |done| ==> AnsweredAt(ops, done, counts, i))
    && forall i :: 0 <= i <= |done| ==> LeastPow2(counts[i], Highest(ops, done, i))
  }

  lemma OneMore<V>(ops: seq<Op<V>>, done: seq<bool>, counts: seq<nat>, contents: map<Key, V>, peak: nat, relinked: nat,
                   ok: bool, contents': map<Key, V>, c: nat, peak': nat, relinked': nat)
    requires Recorded(ops, done, counts, contents, peak, relinked) && |done| < |ops|
    requires ok == Succeeds(contents, counts[|done|], ops[|done|])
    requires contents' == Performed(contents, ops[|done|], ok) && peak' == Max(peak, |contents'|) && LeastPow2(c, peak')
    requires relinked' == relinked + if c != counts[|done|] then |contents| else 0
    ensures Recorded(ops, done + [ok], counts + [c], contents', peak', relinked')
  {
    var n := |done|;
    AfterPrefix(ops, done, ok, n);
    RefiledPrefix(ops, done, ok, counts, c, n);
    forall i | 0 <= i < n + 1 ensures AnsweredAt(ops, done + [ok], counts + [c], i) {
      AfterPrefix(ops, done, ok, i);
      assert i < n ==> AnsweredAt(ops, done, counts, i);
    }
    forall i | 0 <= i <= n + 1 ensures LeastPow2((counts + [c])[i], Highest(ops, done + [ok], i)) {
      if i <= n {
        AfterPrefix(ops, done, ok, i);
      }
    }
  }

  /** One call on the table. */
  method Perform<V>(m: HashMap<V>, op: Op<V>) returns (done: bool)
    requires m.Valid()
    modifies m.repr
    ensures m.Valid() && fresh(m.repr - old(m.repr))
    ensures done == Succeeds(old(m.Contents()), old(m.nbuckets), op)
    ensures m.Contents() == Performed(old(m.Contents()), op, done)
    ensures m.peak == Max(old(m.peak), |m.Contents()|)
    ensures m.relinked == old(m.relinked) + if m.nbuckets != old(m.nbuckets) then |old(m.Contents())| else 0
    ensures LeastPow2(m.nbuckets, m.peak)
  {
    SizeIsKeyCount(m.layout);
    match op
    case Set(key, value, newnodeOk, reallocOk) =>
      var rc := m.Set(key, value, newnodeOk, reallocOk);
      done := rc == 0;
      SizeIsKeyCount(m.layout);
      CountIsLeast(m);
    case Remove(key) =>
      m.Remove(key);
      done := true;
      SizeIsKeyCount(m.layout);
      CountIsLeast(m);
  }

  /**
   * Over any history each call succeeds exactly when it should, the table is the finite map that the calls make, its
   * bucket count is always the least power of two not below the highest number of keys so far, and the relinking of all
   * growth together comes to one node less.
   */
  method Replay<V>(ops: seq<Op<V>>) returns (m: HashMap<V>, ghost done: seq<bool>, ghost counts: seq<nat>)
    ensures m.Valid() && fresh(m.repr) && |done| == |ops| && |counts| == |ops| + 1
    ensures forall i :: 0 <= i < |ops| ==> done[i] == Succeeds(After(ops, done, i), counts[i], ops[i])
    ensures m.Contents() == After(ops, done, |ops|) && m.nbuckets == counts[|ops|]
    ensures forall i :: 0 <= i <= |ops| ==> LeastPow2(counts[i], Highest(ops, done, i))
    ensures Refiled(ops, done, counts, |ops|) == if counts[|ops|] == 0 then 0 else counts[|ops|] - 1
  {
    m, done, counts := ReplayFirst(ops, |ops|);
    forall i | 0 <= i < |ops| ensures done[i] == Succeeds(After(ops, done, i), counts[i], ops[i]) {
      assert AnsweredAt(ops, done, counts, i);
    }
    CountIsLeast(m);
  }

  method ReplayFirst<V>(ops: seq<Op<V>>, n: nat) returns (m: HashMap<V>, ghost done: seq<bool>, ghost counts: seq<nat>)
    requires n <= |ops|
    ensures m.Valid() && fresh(m.repr) && |done| == n
    ensures Recorded(ops, done, counts, m.Contents(), m.peak, m.relinked) && counts[n] == m.nbuckets
  {
    if n == 0 {
      m := new HashMap();
      done, counts := [], [0];
    } else {
      m, done, counts := ReplayFirst(ops, n - 1);
      done, counts := PerformNext(m, ops, n - 1, done, counts);
    }
  }

  method PerformNext<V>(m: HashMap<V>, ops: seq<Op<V>>, i: nat, ghost done0: seq<bool>, ghost counts0: seq<nat>)
      returns (ghost done: seq<bool>, ghost counts: seq<nat>)
    requires m.Valid() && |done0| == i < |ops|
    requires Recorded(ops, done0, counts0, m.Contents(), m.peak, m.relinked) && counts0[i] == m.nbuckets
    modifies m.repr
    ensures m.Valid() && fresh(m.repr - old(m.repr)) && |done| == i + 1
    ensures Recorded(ops, done, counts, m.Contents(), m.peak, m.relinked) && counts[i + 1] == m.nbuckets
  {
    ghost var contents, peak, relinked := m.Contents(), m.peak, m.relinked;
    var ok := Perform(m, ops[i]);
    OneMore(ops, done0, counts0, contents, peak, relinked, ok, m.Contents(), m.nbuckets, m.peak, m.relinked);
    done, counts := done0 + [ok], counts0 + [m.nbuckets];
  }
}
