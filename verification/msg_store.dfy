// The messages of a peer, src/msg_list.c: the keys in order of arrival on a linked list, and the bodies in a hash map.

module MsgStore {
  import opened Codec
  import opened DoublyLinkedList
  import opened HashMap
  import opened KeyText
  import opened PendingQueue
  import opened Tables
  import opened Wrappers

  class MsgStore {
    const list: DList<MsgKey>
    const bodies: Table<MsgKey, DataBody>

    ghost var keys: seq<MsgKey>
    ghost var kept: map<MsgKey, DataBody>
    ghost var repr: set<object>

    ghost predicate Intact()
      reads this, repr
    {
      && this in repr && list in repr && list.shape.cells.Keys <= repr && bodies in repr && bodies.repr <= repr
      && {this, list} + list.shape.cells.Keys !! bodies.repr
      && list.Valid() && list.kind == DllString && list.Model() == keys
      && bodies in bodies.repr && bodies.Valid() && bodies.view == kept
    }

    /** Stated so that only a proof that names `Intact` looks into it. */
    ghost predicate Valid()
      reads this, repr
      ensures Valid() ==> this in repr
    {
      this in repr && forall s {:trigger s.Intact()} :: s in {this} ==> s.Intact()
    }

    twostate lemma Kept()
      requires old(allocated(repr)) && repr == old(repr) && old(Valid()) && unchanged(repr)
      ensures Valid() && keys == old(keys) && kept == old(kept)
    {
      assert old(Intact());
    }

    constructor ()
      ensures Valid() && keys == [] && kept == map[] && fresh(repr)
    {
      MsgTextInjective();
      list := new DList(DllString);
      bodies := new Table(MsgText);
      keys, kept := [], map[];
      new;
      repr := {this, list} + bodies.repr;
      assert Intact();
    }

    /** `is_in_msg_list` */
    method Has(k: MsgKey) returns (found: bool)
      requires Valid()
      ensures found <==> k in keys
    {
      assert Intact();
      var n, i := list.first, 0;
      while n != null
        invariant 0 <= i <= list.size && n == DoublyLinkedList.NodeAt(list.shape.nodes, i)
        invariant k !in keys[..i]
        decreases list.size - i
      {
        LinkedAround(list.shape, i);
        if n.data == k {
          return true;
        }
        n := list.Next(n, i);
        i := i + 1;
      }
      found := false;
    }

    /** `map_set` and `dllist_push_front` of `add_msg`. */
    method Store(b: DataBody)
      requires Valid() && |kept| < MAX_BUCKETS
      modifies repr
      ensures Valid() && fresh(repr - old(repr))
      ensures kept == old(kept)[KeyOf(b) := b] && keys == [KeyOf(b)] + old(keys)
    {
      SetBody(b);
      PushKey(KeyOf(b));
    }

    method SetBody(b: DataBody)
      requires Valid() && |kept| < MAX_BUCKETS
      modifies repr
      ensures Valid() && fresh(repr - old(repr)) && kept == old(kept)[KeyOf(b) := b] && keys == old(keys)
    {
      assert Intact();
      bodies.Set(KeyOf(b), b);
      list.Kept();
      kept, repr := bodies.view, repr + bodies.repr;
      assert Intact();
    }

    method PushKey(k: MsgKey)
      requires Valid()
      modifies repr
      ensures Valid() && fresh(repr - old(repr)) && keys == [k] + old(keys) && kept == old(kept)
    {
      assert Intact();
      var _ := list.PushFront(DllString, Some(k));
      bodies.Kept();
      keys, repr := [k] + keys, repr + list.shape.cells.Keys;
      assert Intact();
    }

    /** `dllist_pop_back` of `rm_msg`, and the body of the key that it yields. */
    method PopOldest() returns (b: Option<DataBody>)
      requires Valid() && (keys != [] ==> keys[|keys| - 1] in kept)
      modifies repr
      ensures Valid() && fresh(repr - old(repr)) && kept == old(kept)
      ensures old(keys) == [] ==> b.None? && keys == []
      ensures old(keys) != [] ==>
                && keys == old(keys)[..|old(keys)| - 1]
                && b == Some(kept[old(keys)[|old(keys)| - 1]])
    {
      assert Intact();
      var k := list.PopBack();
      keys := list.Model();
      bodies.Kept();
      b := None;
      if k.Some? {
        b := bodies.Get(k.value);
      }
      assert Intact();
    }
  }
}
