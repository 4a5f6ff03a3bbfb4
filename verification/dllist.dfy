// The doubly linked list of src/dllist.c, as a sequence of values.

module DoublyLinkedList {
  import opened Sequences
  import opened Wrappers

  datatype NodeKind = DllNeighbour | DllInt | DllString | DllMsg

  class Node<T> {
    var data: T
    var next: Node?<T>
    var prev: Node?<T>

    constructor (data: T)
      ensures this.data == data && next == null && prev == null
    {
      this.data, next, prev := data, null, null;
    }
  }

  ghost function NodeAt<T>(s: seq<Node<T>>, i: int): Node?<T> {
    if 0 <= i < |s| then s[i] else null
  }

  datatype Cell<T> = Cell(next: Node?<T>, prev: Node?<T>, data: T)

  /** The nodes of a list in order, the sequence of their data, and what each node holds. */
  datatype Shape<T> = Shape(nodes: seq<Node<T>>, model: seq<T>, cells: map<Node<T>, Cell<T>>)
  {
    /** Forward and backward links mirror each other around position `i`, and end in null. */
    ghost predicate LinkedAt(i: nat)
      requires i < |nodes| == |model|
    {
      && nodes[i] in cells
      && cells[nodes[i]] == Cell(NodeAt(nodes, i + 1), NodeAt(nodes, i - 1), model[i])
    }

    ghost predicate Linked() {
      && |nodes| == |model|
      && (forall i {:trigger LinkedAt(i)} :: 0 <= i < |nodes| ==> LinkedAt(i))
      && NoDup(nodes)
      && (forall n :: n in cells ==> n in nodes)
    }

    /** The shape with node `n`, holding `x`, put in at position `i`. */
    ghost function Insert(i: nat, n: Node<T>, x: T): Shape<T>
      requires i <= |nodes| == |model| && n !in nodes
      requires i > 0 ==> nodes[i - 1] in cells
      requires i < |nodes| ==> nodes[i] in cells
    {
      var before := if i > 0 then cells[nodes[i - 1] := cells[nodes[i - 1]].(next := n)] else cells;
      var around := if i < |nodes| && nodes[i] in before then before[nodes[i] := before[nodes[i]].(prev := n)] else before;
      Shape(nodes[..i] + [n] + nodes[i..], model[..i] + [x] + model[i..],
            around[n := Cell(NodeAt(nodes, i), NodeAt(nodes, i - 1), x)])
    }

    /** The shape with `x` held at position `i`. */
    ghost function Update(i: nat, x: T): Shape<T>
      requires i < |nodes| == |model|
    {
      var n := nodes[i];
      Shape(nodes, model[i := x], if n in cells then cells[n := cells[n].(data := x)] else cells)
    }

    /** The shape without the node at position `i`. */
    ghost function Remove(i: nat): Shape<T>
      requires i < |nodes| == |model|
    {
      var p, q := NodeAt(nodes, i - 1), NodeAt(nodes, i + 1);
      var before := if p != null && p in cells then cells[p := cells[p].(next := q)] else cells;
      var around := if q != null && q in before then before[q := before[q].(prev := p)] else before;
      Shape(nodes[..i] + nodes[i + 1..], model[..i] + model[i + 1..], around - {nodes[i]})
    }
  }

  lemma LinkedAround<T>(s: Shape<T>, i: nat)
    requires s.Linked() && i < |s.nodes|
    ensures s.LinkedAt(i)
    ensures i > 0 ==> s.LinkedAt(i - 1) && s.nodes[i - 1] != s.nodes[i]
    ensures i + 1 < |s.nodes| ==> s.LinkedAt(i + 1) && s.nodes[i] != s.nodes[i + 1]
    ensures 0 < i && i + 1 < |s.nodes| ==> s.nodes[i - 1] != s.nodes[i + 1]
  {
    assert s.LinkedAt(i);
    assert i > 0 ==> s.LinkedAt(i - 1) && Apart(s.nodes, i - 1, i);
    assert i + 1 < |s.nodes| ==> s.LinkedAt(i + 1) && Apart(s.nodes, i, i + 1);
    assert 0 < i && i + 1 < |s.nodes| ==> Apart(s.nodes, i - 1, i + 1);
  }

  ghost predicate EndsAs<T>(s: Shape<T>, t: Shape<T>) {
    NodeAt(t.nodes, 0) == NodeAt(s.nodes, 0) && NodeAt(t.nodes, |t.nodes| - 1) == NodeAt(s.nodes, |s.nodes| - 1)
  }

  lemma InsertEnds<T>(s: Shape<T>, i: nat, n: Node<T>, x: T)
    requires i <= |s.nodes| == |s.model| && n !in s.nodes
    requires (i > 0 ==> s.nodes[i - 1] in s.cells) && (i < |s.nodes| ==> s.nodes[i] in s.cells)
    ensures i == 0 ==> s.Insert(i, n, x).nodes == [n] + s.nodes && s.Insert(i, n, x).model == [x] + s.model
    ensures i == |s.nodes| ==> s.Insert(i, n, x).nodes == s.nodes + [n] && s.Insert(i, n, x).model == s.model + [x]
    ensures 0 < i < |s.nodes| ==> EndsAs(s, s.Insert(i, n, x)) && |s.Insert(i, n, x).nodes| == |s.nodes| + 1
  {
  }

  /** A node that is put in changes one link of each of the nodes next to it, and nothing else. */
  lemma InsertCells<T>(s: Shape<T>, i: nat, n: Node<T>, x: T)
    requires s.Linked() && i <= |s.nodes| && n !in s.cells && n !in s.nodes
    requires (i > 0 ==> s.nodes[i - 1] in s.cells) && (i < |s.nodes| ==> s.nodes[i] in s.cells)
    ensures var p, q, t := NodeAt(s.nodes, i - 1), NodeAt(s.nodes, i), s.Insert(i, n, x).cells;
            && t.Keys == s.cells.Keys + {n} && t[n] == Cell(q, p, x)
            && (p != null ==> p != q && p in s.cells && t[p] == s.cells[p].(next := n))
            && (q != null ==> q in s.cells && t[q] == s.cells[q].(prev := n))
            && forall m :: m in s.cells && m != p && m != q ==> t[m] == s.cells[m]
  {
    if i < |s.nodes| {
      LinkedAround(s, i);
    }
  }

  lemma LinkedAfterInsert<T>(s: Shape<T>, i: nat, n: Node<T>, x: T)
    requires s.Linked() && i <= |s.nodes| && n !in s.cells
    ensures n !in s.nodes && (i > 0 ==> s.nodes[i - 1] in s.cells) && (i < |s.nodes| ==> s.nodes[i] in s.cells)
    ensures s.Insert(i, n, x).Linked()
  {
    forall j | 0 <= j < |s.nodes| ensures s.nodes[j] != n && s.nodes[j] in s.cells {
      assert s.LinkedAt(j);
    }
    var t := s.Insert(i, n, x);
    forall j {:trigger t.LinkedAt(j)} | 0 <= j < |t.nodes| ensures t.LinkedAt(j) {
      if j < i {
        InsertKeepsBefore(s, i, n, x, j);
      } else if j > i {
        InsertKeepsAfter(s, i, n, x, j - 1);
      }
    }
    NoDupInsert(s.nodes, i, n);
    assert forall m :: m in t.nodes <==> m in s.nodes || m == n;
  }

  lemma InsertKeepsBefore<T>(s: Shape<T>, i: nat, n: Node<T>, x: T, j: nat)
    requires s.Linked() && j < i <= |s.nodes| && n !in s.nodes
    requires s.nodes[i - 1] in s.cells && (i < |s.nodes| ==> s.nodes[i] in s.cells)
    ensures s.Insert(i, n, x).LinkedAt(j)
  {
    LinkedAround(s, j);
    if j != i - 1 {
      ApartFrom(s, j, i - 1);
    }
    if i < |s.nodes| {
      ApartFrom(s, j, i);
    }
  }

  lemma InsertKeepsAfter<T>(s: Shape<T>, i: nat, n: Node<T>, x: T, j: nat)
    requires s.Linked() && i <= j < |s.nodes| && n !in s.nodes
    requires (i > 0 ==> s.nodes[i - 1] in s.cells) && s.nodes[i] in s.cells
    ensures s.Insert(i, n, x).LinkedAt(j + 1)
  {
    LinkedAround(s, j);
    if i > 0 {
      ApartFrom(s, j, i - 1);
    }
    if j != i {
      ApartFrom(s, j, i);
    }
  }

  lemma LinkedAfterRemove<T>(s: Shape<T>, i: nat)
    requires s.Linked() && i < |s.nodes|
    ensures s.Remove(i).Linked()
  {
    var t := s.Remove(i);
    forall j {:trigger t.LinkedAt(j)} | 0 <= j < |t.nodes| ensures t.LinkedAt(j) {
      RemoveKeepsLink(s, i, if j < i then j else j + 1);
    }
    NoDupWithout(s.nodes, i);
    LinkedAround(s, i);
    assert forall m :: m in s.nodes <==> m in t.nodes || m == s.nodes[i];
  }

  lemma RemoveKeepsLink<T>(s: Shape<T>, i: nat, j: nat)
    requires s.Linked() && i < |s.nodes| && j < |s.nodes| && j != i
    ensures j < i ==> s.Remove(i).LinkedAt(j)
    ensures j > i ==> s.Remove(i).LinkedAt(j - 1)
  {
    LinkedAround(s, i);
    assert s.LinkedAt(j);
    ApartFrom(s, j, i);
    if i > 0 && j != i - 1 {
      ApartFrom(s, j, i - 1);
    }
    if i + 1 < |s.nodes| && j != i + 1 {
      ApartFrom(s, j, i + 1);
    }
  }

  lemma LinkedAfterUpdate<T>(s: Shape<T>, i: nat, x: T)
    requires s.Linked() && i < |s.nodes|
    ensures s.nodes[i] in s.cells && s.Update(i, x).Linked()
  {
    var t := s.Update(i, x);
    assert s.LinkedAt(i);
    forall j {:trigger t.LinkedAt(j)} | 0 <= j < |t.nodes| ensures t.LinkedAt(j) {
      assert s.LinkedAt(j);
      if j != i {
        ApartFrom(s, i, j);
      }
    }
  }

  lemma ApartFrom<T>(s: Shape<T>, i: nat, j: nat)
    requires s.Linked() && i < |s.nodes| && j < |s.nodes| && i != j
    ensures s.nodes[i] != s.nodes[j]
  {
    if i < j {
      assert Apart(s.nodes, i, j);
    } else {
      assert Apart(s.nodes, j, i);
    }
  }

  class DList<T> {
    const kind: NodeKind
    var first: Node?<T>
    var last: Node?<T>
    var size: nat
    ghost var shape: Shape<T>

    ghost predicate Valid()
      reads this, shape.cells.Keys
    {
      && shape.Linked()
      && first == NodeAt(shape.nodes, 0)
      && last == NodeAt(shape.nodes, |shape.nodes| - 1)
      && size == |shape.nodes|
      && forall n :: n in shape.cells ==> shape.cells[n] == Cell(n.next, n.prev, n.data)
    }

    /** The sequence this list stands for. */
    ghost function Model(): seq<T>
      reads this
    {
      shape.model
    }

    twostate lemma Kept()
      requires old(Valid()) && unchanged(this) && unchanged(shape.cells.Keys)
      ensures Valid()
    {
    }

    constructor (kind: NodeKind)
      ensures Valid() && Model() == [] && this.kind == kind && shape.cells == map[]
    {
      this.kind := kind;
      first, last, size, shape := null, null, 0, Shape([], [], map[]);
    }

    function IsEmpty(): bool
      reads this
    {
      first == null || last == null
    }

    method PushBack(kind: NodeKind, data: Option<T>) returns (ok: bool)
      requires Valid()
      modifies this, shape.cells.Keys
      ensures Valid() && fresh(shape.cells.Keys - old(shape.cells.Keys))
      ensures ok == (data.Some? && kind == this.kind)
      ensures Model() == if ok then old(Model()) + [data.value] else old(Model())
    {
      if data.None? || kind != this.kind {
        return false;
      }
      var node := new Node(data.value);
      var placed := FirstNode(node);
      if !placed {
        LinkBack(node);
      }
      ok := true;
    }

    /** `dllist_first_node`: puts the node in if the list is empty. */
    method FirstNode(node: Node<T>) returns (placed: bool)
      requires Valid() && node !in shape.cells && node.next == null && node.prev == null
      modifies this
      ensures Valid() && placed == (old(Model()) == [])
      ensures placed ==> Model() == [node.data] && shape.cells.Keys == {node}
      ensures !placed ==> shape == old(shape)
    {
      if first != null || last != null {
        return false;
      }
      LinkedAfterInsert(shape, 0, node, node.data);
      InsertEnds(shape, 0, node, node.data);
      first, last, size := node, node, size + 1;
      shape := shape.Insert(0, node, node.data);
      placed := true;
    }

    method LinkBack(node: Node<T>)
      requires Valid() && size > 0 && node !in shape.cells && node.next == null && node.prev == null
      modifies this, shape.cells.Keys`next, node`prev
      ensures Valid() && shape.cells.Keys == old(shape.cells.Keys) + {node}
      ensures Model() == old(Model()) + [node.data]
    {
      LinkedAround(shape, size - 1);
      LinkedAfterInsert(shape, size, node, node.data);
      InsertEnds(shape, size, node, node.data);
      InsertCells(shape, size, node, node.data);
      last.next := node;
      node.prev := last;
      last, size := node, size + 1;
      shape := shape.Insert(|shape.nodes|, node, node.data);
    }

    method LinkFront(node: Node<T>)
      requires Valid() && size > 0 && node !in shape.cells && node.next == null && node.prev == null
      modifies this, shape.cells.Keys`prev, node`next
      ensures Valid() && shape.cells.Keys == old(shape.cells.Keys) + {node}
      ensures Model() == [node.data] + old(Model())
    {
      LinkedAround(shape, 0);
      LinkedAfterInsert(shape, 0, node, node.data);
      InsertEnds(shape, 0, node, node.data);
      InsertCells(shape, 0, node, node.data);
      first.prev := node;
      node.next := first;
      first, size := node, size + 1;
      shape := shape.Insert(0, node, node.data);
    }

    method PushFront(kind: NodeKind, data: Option<T>) returns (ok: bool)
      requires Valid()
      modifies this, shape.cells.Keys
      ensures Valid() && fresh(shape.cells.Keys - old(shape.cells.Keys))
      ensures ok == (data.Some? && kind == this.kind)
      ensures Model() == if ok then [data.value] + old(Model()) else old(Model())
    {
      if data.None? || kind != this.kind {
        return false;
      }
      var node := new Node(data.value);
      var placed := FirstNode(node);
      if !placed {
        LinkFront(node);
      }
      ok := true;
    }

    method PopBack() returns (data: Option<T>)
      requires Valid()
      modifies this, shape.cells.Keys
      ensures Valid() && shape.cells.Keys <= old(shape.cells.Keys)
      ensures old(Model()) == [] ==> data.None? && Model() == []
      ensures old(Model()) != [] ==> data.Some? && old(Model()) == Model() + [data.value]
    {
      if IsEmpty() {
        return None;
      }
      LinkedAround(shape, size - 1);
      data := Some(last.data);
      if first == last {
        DropOnly();
      } else {
        DropBack();
      }
    }

    method PopFront() returns (data: Option<T>)
      requires Valid()
      modifies this, shape.cells.Keys
      ensures Valid() && shape.cells.Keys <= old(shape.cells.Keys)
      ensures old(Model()) == [] ==> data.None? && Model() == []
      ensures old(Model()) != [] ==> data.Some? && old(Model()) == [data.value] + Model()
    {
      if IsEmpty() {
        return None;
      }
      LinkedAround(shape, 0);
      data := Some(first.data);
      if first == last {
        DropOnly();
      } else {
        DropFront();
      }
    }

    method DropOnly()
      requires Valid() && size > 0 && first == last
      modifies this
      ensures Valid() && Model() == [] && shape.cells.Keys <= old(shape.cells.Keys)
      ensures |old(Model())| == 1
    {
      if size > 1 {
        ApartFrom(shape, 0, size - 1);
      }
      LinkedAfterRemove(shape, 0);
      first, last, size := null, null, 0;
      shape := shape.Remove(0);
    }

    method DropBack()
      requires Valid() && size > 0 && first != last
      modifies this, shape.cells.Keys`next
      ensures Valid() && shape.cells.Keys <= old(shape.cells.Keys)
      ensures Model() == old(Model())[..|old(Model())| - 1]
    {
      LinkedAround(shape, size - 1);
      LinkedAfterRemove(shape, size - 1);
      last := last.prev;
      last.next := null;
      size := size - 1;
      shape := shape.Remove(size);
    }

    method DropFront()
      requires Valid() && size > 0 && first != last
      modifies this, shape.cells.Keys`prev
      ensures Valid() && shape.cells.Keys <= old(shape.cells.Keys)
      ensures Model() == old(Model())[1..]
    {
      LinkedAround(shape, 0);
      LinkedAfterRemove(shape, 0);
      first := first.next;
      first.prev := null;
      size := size - 1;
      shape := shape.Remove(0);
    }

    /** Follows `next` from the first node. */
    method Walk(index: nat) returns (node: Node<T>)
      requires Valid() && index < size
      ensures node == shape.nodes[index] && node in shape.cells && node.data == Model()[index]
    {
      node := first;
      for i := 0 to index
        invariant node == shape.nodes[i]
      {
        LinkedAround(shape, i);
        node := node.next;
      }
      LinkedAround(shape, index);
    }

    method Insert(index: nat, kind: NodeKind, data: Option<T>) returns (ok: bool)
      requires Valid()
      modifies this, shape.cells.Keys
      ensures Valid() && fresh(shape.cells.Keys - old(shape.cells.Keys))
      ensures ok == (data.Some? && kind == this.kind)
      ensures !ok ==> Model() == old(Model())
      ensures ok ==> Model() == var i := if index < |old(Model())| then index else |old(Model())|;
                              old(Model())[..i] + [data.value] + old(Model())[i..]
    {
      if data.None? || kind != this.kind {
        return false;
      }
      if index > 0 {
        if index >= size {
          ok := PushBack(kind, data);
        } else {
          var n := new Node(data.value);
          var node := Walk(index);
          Splice(index, node, n);
          ok := true;
        }
      } else {
        ok := PushFront(kind, data);
      }
    }

    method Splice(index: nat, node: Node<T>, n: Node<T>)
      requires Valid() && 0 < index < size && node == shape.nodes[index] && n !in shape.cells
      modifies this`size, this`shape, shape.cells.Keys`next, shape.cells.Keys`prev, n`next, n`prev
      ensures Valid() && shape.cells.Keys == old(shape.cells.Keys) + {n}
      ensures Model() == old(Model())[..index] + [old(n.data)] + old(Model())[index..]
    {
      LinkedAround(shape, index);
      LinkedAfterInsert(shape, index, n, n.data);
      InsertEnds(shape, index, n, n.data);
      InsertCells(shape, index, n, n.data);
      ghost var s, t := shape, shape.Insert(index, n, n.data);
      var before := node.prev;
      before.next, node.prev, n.prev, n.next, size := n, n, before, node, size + 1;
      shape := t;
      assert t.model == s.model[..index] + [n.data] + s.model[index..];
      assert t.Linked() && size == |t.nodes|;
      assert first == NodeAt(t.nodes, 0) && last == NodeAt(t.nodes, |t.nodes| - 1);
      assert t.cells[n] == Cell(n.next, n.prev, n.data);
      assert t.cells[before] == Cell(before.next, before.prev, before.data);
      assert t.cells[node] == Cell(node.next, node.prev, node.data);
    }

    method Remove(index: nat) returns (data: Option<T>)
      requires Valid()
      modifies this, shape.cells.Keys
      ensures Valid() && shape.cells.Keys <= old(shape.cells.Keys)
      ensures index >= |old(Model())| ==> data.None? && Model() == old(Model())
      ensures index < |old(Model())| ==>
                && data == Some(old(Model())[index])
                && Model() == old(Model())[..index] + old(Model())[index + 1..]
    {
      if IsEmpty() || (index > 0 && index >= size) {
        return None;
      }
      if index + 1 == size {
        data := PopBack();
      } else if index == 0 {
        data := PopFront();
      } else {
        var n := Walk(index);
        data := Some(n.data);
        Unlink(index, n);
      }
    }

    method Unlink(index: nat, n: Node<T>)
      requires Valid() && 0 < index < size - 1 && n == shape.nodes[index]
      modifies this, shape.cells.Keys
      ensures Valid() && shape.cells.Keys == old(shape.cells.Keys) - {n}
      ensures Model() == old(Model())[..index] + old(Model())[index + 1..]
    {
      LinkedAround(shape, index);
      LinkedAfterRemove(shape, index);
      n.next.prev := n.prev;
      n.prev.next := n.next;
      size := size - 1;
      shape := shape.Remove(index);
    }

    /** As coded: position 0 of a longer list is answered with the last element. */
    method Get(index: nat) returns (data: Option<T>)
      requires Valid()
      ensures data == CodedGet(Model(), index)
    {
      if IsEmpty() || (index > 0 && index >= size) {
        return None;
      }
      if index + 1 == size || index == 0 {
        LinkedAround(shape, size - 1);
        data := Some(last.data);
      } else {
        var n := Walk(index);
        data := Some(n.data);
      }
    }

    /** Assigns to the data of a node that a traversal has reached. */
    method Update(node: Node<T>, ghost index: nat, data: T)
      requires Valid() && index < size && node == shape.nodes[index]
      modifies this`shape, node`data
      ensures Valid() && shape.nodes == old(shape.nodes) && shape.cells.Keys == old(shape.cells.Keys)
      ensures Model() == old(Model())[index := data]
    {
      LinkedAfterUpdate(shape, index, data);
      node.data := data;
      shape := shape.Update(index, data);
    }

    /** `n = n->next` */
    method Next(node: Node<T>, ghost index: nat) returns (next: Node?<T>)
      requires Valid() && index < size && node == shape.nodes[index]
      ensures next == NodeAt(shape.nodes, index + 1)
    {
      LinkedAround(shape, index);
      next := node.next;
    }

    /** Drops every node, one after the other. */
    method Empty()
      requires Valid()
      modifies this, shape.cells.Keys
      ensures Valid() && Model() == []
    {
      while first != null
        invariant Valid() && shape.cells.Keys <= old(shape.cells.Keys)
        decreases |Model()|
      {
        var _ := PopFront();
      }
    }
  }

  ghost function CodedGet<T>(s: seq<T>, index: nat): Option<T> {
    if index >= |s| then None else if index == 0 then Some(s[|s| - 1]) else Some(s[index])
  }

  /** `dllist_get` answers with the element at `index` unless it is asked for the first of several. */
  lemma GetIsIndexing<T>(s: seq<T>, index: nat)
    ensures CodedGet(s, index) == (if index < |s| then Some(s[index]) else None)
            <==> index != 0 || |s| <= 1 || s[0] == s[|s| - 1]
  {
    if index == 0 && |s| > 1 {
      assert CodedGet(s, index) == Some(s[|s| - 1]);
    }
  }

  lemma GetMissesFirst()
    ensures CodedGet([1, 2], 0) == Some(2)
  {
  }
}
