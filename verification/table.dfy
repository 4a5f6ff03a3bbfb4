// The hash map of src/map.c with keys of any type that are written as text, and the loops over it.

module Tables {
  import opened Bits
  import opened HashMap
  import opened MapIteration
  import opened MapLayout
  import opened Sequences
  import opened Wrappers

  ghost predicate Injective<K(!new)>(key: K -> Key) {
    forall a, b {:trigger ToldApart(key, a, b)} :: ToldApart(key, a, b)
  }

  ghost predicate ToldApart<K(!new)>(key: K -> Key, a: K, b: K) {
    key(a) == key(b) ==> a == b
  }

  /** The map `m`, with its keys written by `key`, is the map `t`. */
  ghost predicate Tabled<K(!new), V>(key: K -> Key, t: map<Key, V>, m: map<K, V>) {
    && (forall a {:trigger RowAt(key, t, m, a)} :: a in m ==> RowAt(key, t, m, a))
    && (forall k {:trigger Written(key, m, k)} :: k in t ==> Written(key, m, k))
  }

  ghost predicate RowAt<K(!new), V>(key: K -> Key, t: map<Key, V>, m: map<K, V>, a: K)
    requires a in m
  {
    key(a) in t && t[key(a)] == m[a]
  }

  ghost predicate Written<K(!new), V>(key: K -> Key, m: map<K, V>, k: Key) {
    exists a :: a in m && key(a) == k
  }

  lemma TabledGet<K(!new), V>(key: K -> Key, t: map<Key, V>, m: map<K, V>, a: K)
    requires Injective(key) && Tabled(key, t, m)
    ensures key(a) in t <==> a in m
    ensures a in m ==> t[key(a)] == m[a]
  {
    if a in m {
      assert RowAt(key, t, m, a);
    }
    if key(a) in t {
      assert Written(key, m, key(a));
      var b :| b in m && key(b) == key(a);
      assert ToldApart(key, a, b);
    }
  }

  lemma TabledSet<K(!new), V>(key: K -> Key, t: map<Key, V>, m: map<K, V>, a: K, v: V)
    requires Injective(key) && Tabled(key, t, m)
    ensures Tabled(key, t[key(a) := v], m[a := v])
  {
    var t', m' := t[key(a) := v], m[a := v];
    forall b | b in m' ensures RowAt(key, t', m', b) {
      assert ToldApart(key, a, b) && (b in m ==> RowAt(key, t, m, b));
    }
    forall k | k in t' ensures Written(key, m', k) {
      if k == key(a) {
        assert a in m';
      } else {
        assert Written(key, m, k);
        var b :| b in m && key(b) == k;
        assert b in m';
      }
    }
  }

  lemma TabledRemove<K(!new), V>(key: K -> Key, t: map<Key, V>, m: map<K, V>, a: K)
    requires Injective(key) && Tabled(key, t, m)
    ensures Tabled(key, t - {key(a)}, m - {a})
  {
    var t', m' := t - {key(a)}, m - {a};
    forall b | b in m' ensures RowAt(key, t', m', b) {
      assert ToldApart(key, a, b) && RowAt(key, t, m, b);
    }
    forall k | k in t' ensures Written(key, m', k) {
      assert Written(key, m, k);
      var b :| b in m && key(b) == k;
      assert b in m';
    }
  }

  lemma {:induction false} TabledSize<K(!new), V>(key: K -> Key, t: map<Key, V>, m: map<K, V>)
    requires Injective(key) && Tabled(key, t, m)
    ensures |t| == |m|
    decreases |m|
  {
    if a :| a in m {
      assert RowAt(key, t, m, a);
      TabledRemove(key, t, m, a);
      TabledSize(key, t - {key(a)}, m - {a});
      assert t.Keys == (t - {key(a)}).Keys + {key(a)} && m.Keys == (m - {a}).Keys + {a};
    } else {
      forall k ensures k !in t {
        assert k in t ==> Written(key, m, k);
      }
      assert m.Keys == {} && t.Keys == {};
    }
  }

  class Table<K(!new), V> {
    const key: K -> Key
    const rows: HashMap<V>
    ghost var view: map<K, V>
    ghost var repr: set<object>

    ghost predicate Intact()
      reads this, repr
    {
      && this in repr && rows in repr && rows.repr <= repr && this !in rows.repr
      && Injective(key) && rows.Valid() && Tabled(key, rows.Contents(), view)
    }

    /** Stated so that only a proof that names `Intact` looks into it. */
    ghost predicate Valid()
      reads this, repr
      ensures Valid() ==> this in repr
    {
      this in repr && forall t {:trigger t.Intact()} :: t in {this} ==> t.Intact()
    }

    twostate lemma Kept()
      requires old(allocated(repr)) && repr == old(repr) && old(Valid()) && unchanged(repr)
      ensures Valid() && view == old(view)
    {
      assert old(Intact());
    }

    constructor (key: K -> Key)
      requires Injective(key)
      ensures Valid() && view == map[] && this.key == key && fresh(repr)
    {
      this.key, view := key, map[];
      rows := new HashMap();
      new;
      repr := {this} + rows.repr;
      assert Intact();
    }

    method Get(k: K) returns (v: Option<V>)
      requires Valid()
      ensures v == if k in view then Some(view[k]) else None
    {
      assert Intact();
      v := rows.Get(key(k));
      TabledGet(key, rows.Contents(), view, k);
    }

    /** `map_set`, with enough memory. */
    method Set(k: K, v: V)
      requires Valid() && |view| < MAX_BUCKETS
      modifies repr
      ensures Valid() && view == old(view)[k := v] && fresh(repr - old(repr))
    {
      SetRow(k, v);
      view, repr := view[k := v], repr + rows.repr;
      RowsChanged();
    }

    method SetRow(k: K, v: V)
      requires Valid() && |view| < MAX_BUCKETS
      modifies repr
      ensures unchanged(this) && this !in rows.repr && fresh(rows.repr - old(rows.repr))
      ensures rows.Valid() && Tabled(key, rows.Contents(), view[k := v])
    {
      assert Intact();
      HasRoom(key, rows, view);
      TabledSet(key, rows.Contents(), view, k, v);
      var _ := rows.Set(key(k), v, true, true);
    }

    /** Only the rows have changed. */
    twostate lemma RowsChanged()
      requires old(allocated(repr)) && old(Valid()) && this !in rows.repr && fresh(rows.repr - old(rows.repr))
      requires rows.Valid() && Tabled(key, rows.Contents(), view) && repr == old(repr) + rows.repr
      ensures Valid() && fresh(repr - old(repr))
    {
      assert old(Intact());
      assert Intact();
    }

    method Remove(k: K)
      requires Valid()
      modifies repr
      ensures Valid() && view == old(view) - {k} && repr == old(repr)
    {
      assert Intact();
      TabledRemove(key, rows.Contents(), view, k);
      rows.Remove(key(k));
      view := view - {k};
      assert Intact();
    }
  }

  /** A table of fewer than 2^30 rows can grow. */
  lemma HasRoom<K(!new), V>(key: K -> Key, rows: HashMap<V>, m: map<K, V>)
    requires Injective(key) && rows.Valid() && Tabled(key, rows.Contents(), m) && |m| < MAX_BUCKETS
    ensures rows.nnodes >= rows.nbuckets ==> GrownSize(rows.nbuckets) <= MAX_BUCKETS
  {
    TabledSize(key, rows.Contents(), m);
    SizeIsKeyCount(rows.layout);
    if 0 < rows.nbuckets <= rows.nnodes {
      var k: nat :| Pow2(k) == rows.nbuckets;
      CanDouble(k);
    }
  }

  lemma CanDouble(k: nat)
    requires Pow2(k) < MAX_BUCKETS
    ensures 2 * Pow2(k) <= MAX_BUCKETS
  {
    Pow2Of32();
    assert Pow2(32) == 2 * Pow2(31) == 4 * Pow2(30);
    if k < 30 {
      Pow2Order(k, 30);
    } else if k > 30 {
      Pow2Order(30, k);
    }
  }

  // ---- iteration ----

  /** Keys that are written as `names` are as distinct as those, and if those are all names then they are all keys. */
  lemma NamedKeys<K(!new), V>(key: K -> Key, t: map<Key, V>, m: map<K, V>, names: seq<Key>, keys: seq<K>)
    requires Injective(key) && Tabled(key, t, m) && NoDup(names) && Elems(names) == t.Keys
    requires |keys| == |names| && forall i :: 0 <= i < |keys| ==> keys[i] in m && key(keys[i]) == names[i]
    ensures NoDup(keys) && Elems(keys) == m.Keys
  {
    forall i, j {:trigger Apart(keys, i, j)} | 0 <= i < j < |keys| ensures Apart(keys, i, j) {
      assert Apart(names, i, j);
    }
    forall a | a in m ensures a in keys {
      assert RowAt(key, t, m, a) && key(a) in Elems(names);
      var i :| 0 <= i < |names| && names[i] == key(a);
      assert ToldApart(key, a, keys[i]);
    }
  }

  /** The loop over `map_next`, with `map_get` of each key: every row once. */
  method Rows<K(!new), V>(table: Table<K, V>) returns (rows: seq<V>, ghost keys: seq<K>)
    requires table.Valid()
    ensures NoDup(keys) && Elems(keys) == table.view.Keys
    ensures |rows| == |keys| && forall i :: 0 <= i < |rows| ==> keys[i] in table.view && rows[i] == table.view[keys[i]]
  {
    assert table.Intact();
    ghost var t := table.rows.Contents();
    var names := Iterate(table.rows);
    rows, keys := [], [];
    for i := 0 to |names|
      invariant |rows| == |keys| == i
      invariant forall j :: 0 <= j < i ==> keys[j] in table.view && table.key(keys[j]) == names[j]
      invariant forall j :: 0 <= j < i ==> keys[j] in table.view && rows[j] == table.view[keys[j]]
    {
      assert names[i] in Elems(names) && Written(table.key, table.view, names[i]);
      ghost var a :| a in table.view && table.key(a) == names[i];
      assert RowAt(table.key, t, table.view, a);
      var row := table.rows.Get(names[i]);
      rows, keys := rows + [row.value], keys + [a];
    }
    NamedKeys(table.key, t, table.view, names, keys);
  }
}
