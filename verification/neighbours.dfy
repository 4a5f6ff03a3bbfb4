// A map of neighbours, src/neighbour_map.c: a hash map, and for each neighbour a linked list of what it is owed.

module NeighbourMaps {
  import opened Codec
  import opened DoublyLinkedList
  import opened HashMap
  import opened KeyText
  import opened P = PeerModel
  import opened PendingQueue
  import opened Sequences
  import opened Tables
  import opened Worker
  import opened Wrappers

  type PendingList = DList<Pending>

  /** `neighbour_entry_t`: the entry keeps its list as long as it lives. */
  datatype Nbr = Nbr(addr: Addr, pmtu: nat, list: PendingList) {
    /** The list and its nodes. */
    ghost function Parts(): set<object>
      reads list
    {
      {list} + list.shape.cells.Keys
    }

    /** Its list is sound, and it stands for the entry `e`. */
    ghost predicate Stands(e: Entry)
      reads list, list.shape.cells.Keys
    {
      list.Valid() && list.kind == DllMsg && e == Entry(addr, pmtu, list.Model())
    }
  }

  type NbrTable = Table<Addr, Nbr>

  /** What a list stands for, and which neighbour it belongs to. */
  datatype Held = Held(model: Queue, addr: Addr)

  /** The pending lists, and the list that each of their nodes belongs to. */
  datatype Lists = Lists(held: map<PendingList, Held>, owner: map<Node<Pending>, PendingList>)

  // ---- neighbour maps and their values ----

  ghost predicate MirrorsAt(m: map<Addr, Nbr>, n: Neighbours, held: map<PendingList, Held>, a: Addr)
    requires a in m && a in n
  {
    && m[a].list in held
    && held[m[a].list] == Held(n[a].pending, a)
    && m[a].addr == a && n[a] == Entry(a, m[a].pmtu, n[a].pending)
  }

  /** The map `n` is what the neighbours in `m`, with a list of their own each, stand for. */
  ghost predicate Mirrors(m: map<Addr, Nbr>, n: Neighbours, held: map<PendingList, Held>) {
    && m.Keys == n.Keys
    && forall a {:trigger MirrorsAt(m, n, held, a)} :: a in m && a in n ==> MirrorsAt(m, n, held, a)
  }

  lemma MirrorsChange(m: map<Addr, Nbr>, n: Neighbours, held: map<PendingList, Held>, a: Addr, q: Queue)
    requires Mirrors(m, n, held) && a in m
    ensures a in n && Mirrors(m, WithQueue(n, a, q), held[m[a].list := Held(q, a)])
  {
    var n', held' := WithQueue(n, a, q), held[m[a].list := Held(q, a)];
    assert MirrorsAt(m, n, held, a);
    forall b | b in m && b in n' ensures MirrorsAt(m, n', held', b) {
      assert MirrorsAt(m, n, held, b);
    }
  }

  lemma MirrorsRemove(m: map<Addr, Nbr>, n: Neighbours, held: map<PendingList, Held>, a: Addr)
    requires Mirrors(m, n, held) && a in m
    ensures a in n && m[a].addr == a && n[a] == Entry(a, m[a].pmtu, n[a].pending)
    ensures m[a].list in held && held[m[a].list].model == n[a].pending
    ensures Mirrors(m - {a}, n - {a}, held - {m[a].list})
  {
    var m', n', held' := m - {a}, n - {a}, held - {m[a].list};
    assert MirrorsAt(m, n, held, a);
    forall b | b in m' && b in n' ensures MirrorsAt(m', n', held', b) {
      assert MirrorsAt(m, n, held, b);
    }
  }

  lemma MirrorsElse(m: map<Addr, Nbr>, n: Neighbours, held: map<PendingList, Held>, l: PendingList, h: Held)
    requires Mirrors(m, n, held) && l !in held
    ensures Mirrors(m, n, held[l := h])
  {
    forall a | a in m && a in n ensures MirrorsAt(m, n, held[l := h], a) {
      assert MirrorsAt(m, n, held, a);
    }
  }

  lemma MirrorsInsert(m: map<Addr, Nbr>, n: Neighbours, held: map<PendingList, Held>, e: Nbr, q: Queue)
    requires Mirrors(m, n, held) && e.addr !in m && e.list in held && held[e.list] == Held(q, e.addr)
    ensures Mirrors(m[e.addr := e], n[e.addr := Entry(e.addr, e.pmtu, q)], held)
  {
    var m', n' := m[e.addr := e], n[e.addr := Entry(e.addr, e.pmtu, q)];
    forall b | b in m' && b in n' ensures MirrorsAt(m', n', held, b) {
      if b != e.addr {
        assert MirrorsAt(m, n, held, b);
      }
    }
  }

  // ---- loops over the neighbours ----

  /** The first `i` of the neighbours `at` are as in `goal`, and the rest is as it was. */
  ghost predicate Reached(n: Neighbours, n': Neighbours, at: seq<Addr>, i: nat, goal: Neighbours) {
    && n'.Keys == n.Keys == goal.Keys == Elems(at) && NoDup(at) && i <= |at|
    && forall a {:trigger ReachedAt(n, n', at, i, goal, a)} :: a in n ==> ReachedAt(n, n', at, i, goal, a)
  }

  ghost predicate ReachedAt(n: Neighbours, n': Neighbours, at: seq<Addr>, i: nat, goal: Neighbours, a: Addr)
    requires a in n && a in n' && a in goal && i <= |at|
  {
    n'[a] == if a in at[..i] then goal[a] else n[a]
  }

  lemma ReachedNone(n: Neighbours, at: seq<Addr>, goal: Neighbours)
    requires n.Keys == goal.Keys == Elems(at) && NoDup(at)
    ensures Reached(n, n, at, 0, goal)
  {
  }

  lemma ReachedNext(n: Neighbours, n': Neighbours, at: seq<Addr>, i: nat, goal: Neighbours, q: Queue)
    requires Reached(n, n', at, i, goal) && i < |at|
    ensures at[i] in n' && at[i] in n && n'[at[i]] == n[at[i]]
    ensures at[i] in goal && goal[at[i]] == n[at[i]].(pending := q) ==> Reached(n, WithQueue(n', at[i], q), at, i + 1, goal)
  {
    var a := at[i];
    assert a in Elems(at) && a !in at[..i] by {
      AllApart(at);
    }
    assert ReachedAt(n, n', at, i, goal, a);
    if goal[a] == n[a].(pending := q) {
      var n2 := WithQueue(n', a, q);
      forall b | b in n ensures ReachedAt(n, n2, at, i + 1, goal, b) {
        assert ReachedAt(n, n', at, i, goal, b);
        assert at[..i + 1] == at[..i] + [a];
      }
    }
  }

  lemma ReachedAll(n: Neighbours, n': Neighbours, at: seq<Addr>, goal: Neighbours)
    requires Reached(n, n', at, |at|, goal)
    ensures n' == goal
  {
    forall a | a in goal ensures n'[a] == goal[a] {
      assert ReachedAt(n, n', at, |at|, goal, a) && a in Elems(at);
    }
  }

  class NbrMap {
    const table: NbrTable

    ghost var view: Neighbours
    ghost var lists: Lists
    ghost var repr: set<object>

    // ---- what holds between calls ----

    ghost predicate ListOk(l: PendingList)
      requires l in lists.held
      reads this`lists, lists.held.Keys, lists.owner.Keys
    {
      && l.shape.cells.Keys <= lists.owner.Keys
      && l.Valid()
      && l.kind == DllMsg
      && l.Model() == lists.held[l].model
      && forall n :: n in l.shape.cells ==> lists.owner[n] == l
    }

    ghost predicate ListsOk()
      reads this`lists, lists.held.Keys, lists.owner.Keys
    {
      forall l {:trigger ListOk(l)} :: l in lists.held ==> ListOk(l)
    }

    /** The table and the lists stand for the view. */
    ghost predicate Matches()
      reads this`lists, this`view, table`view
    {
      Mirrors(table.view, view, lists.held)
    }

    /** The table and the lists are sound, and apart from each other. */
    ghost predicate Laid()
      reads this, repr
    {
      && this in repr && table in repr && table.repr <= repr && table in table.repr
      && lists.held.Keys <= repr && lists.owner.Keys <= repr
      && {this} + lists.held.Keys + lists.owner.Keys !! table.repr
      && table.Valid() && ListsOk()
    }

    ghost predicate Intact()
      reads this, repr
    {
      Laid() && Matches()
    }

    /** Stated so that only a proof that names `Intact` looks into it. */
    ghost predicate Valid()
      reads this, repr
      ensures Valid() ==> this in repr
    {
      this in repr && forall m {:trigger m.Intact()} :: m in {this} ==> m.Intact()
    }

    twostate lemma Kept()
      requires old(allocated(repr)) && repr == old(repr) && old(Valid()) && unchanged(repr)
      ensures Valid() && view == old(view)
    {
      assert old(Intact());
    }

    constructor ()
      ensures Valid() && view == map[] && fresh(repr)
    {
      AddrTextInjective();
      table := new Table(AddrText);
      view, lists := map[], Lists(map[], map[]);
      new;
      repr := {this} + table.repr;
      assert Intact();
    }

    /** Lists and nodes that were not there before are new objects. */
    twostate predicate NewLists()
      reads this`lists
    {
      fresh(lists.held.Keys - old(lists.held.Keys)) && fresh(lists.owner.Keys - old(lists.owner.Keys))
    }

    // ---- one pending list ----

    /** `dllist_push_front`, with the type of the list. */
    method Push(ghost a: Addr, l: PendingList, e: Pending)
      requires ListsOk() && Matches() && a in table.view && l == table.view[a].list
      modifies this`lists, this`view, lists.held.Keys, lists.owner.Keys
      ensures ListsOk() && Matches() && NewLists() && view == WithQueue(old(view), a, [e] + old(view)[a].pending)
    {
      assert MirrorsAt(table.view, view, lists.held, a) && ListOk(l);
      var _ := l.PushFront(DllMsg, Some(e));
      forall l' | l' in lists.held && l' != l ensures ListOk(l') {
        assert old(ListOk(l'));
      }
      Claim(a, [e] + view[a].pending);
    }

    /** Takes note of what the list of a neighbour stands for now, and of the nodes it has got. */
    ghost method Claim(a: Addr, q: Queue)
      requires Matches() && a in table.view && table.view[a].list in lists.held
      requires var l := table.view[a].list; l.Valid() && l.kind == DllMsg && l.Model() == q
      requires forall l :: l in lists.held && l != table.view[a].list ==> ListOk(l)
      requires forall n :: n in table.view[a].list.shape.cells && n in lists.owner ==> lists.owner[n] == table.view[a].list
      modifies this`lists, this`view
      ensures ListsOk() && Matches() && view == WithQueue(old(view), a, q)
      ensures lists.held.Keys == old(lists.held.Keys)
      ensures lists.owner.Keys == old(lists.owner.Keys) + table.view[a].list.shape.cells.Keys
    {
      var l, h := table.view[a].list, Held(q, a);
      MirrorsChange(table.view, view, lists.held, a, q);
      assert MirrorsAt(table.view, view, lists.held, a);
      Retake(l, h);
      view := WithQueue(view, a, q);
    }

    ghost method Retake(l: PendingList, h: Held)
      requires l.Valid() && l.kind == DllMsg && l.Model() == h.model
      requires forall l' :: l' in lists.held && l' != l ==> ListOk(l')
      requires forall n :: n in l.shape.cells && n in lists.owner ==> lists.owner[n] == l
      modifies this`lists
      ensures ListsOk() && lists.held == old(lists.held)[l := h]
      ensures lists.owner.Keys == old(lists.owner.Keys) + l.shape.cells.Keys
    {
      lists := Lists(lists.held[l := h],
                     map n | n in lists.owner.Keys + l.shape.cells.Keys :: if n in l.shape.cells then l else lists.owner[n]);
      forall l' | l' in lists.held ensures ListOk(l') {
        if l' != l {
          assert old(ListOk(l'));
        }
      }
    }

    /** `rm_nbr_msg` */
    method RmPending(ghost a: Addr, l: PendingList, k: MsgKey)
      requires ListsOk() && Matches() && a in table.view && l == table.view[a].list
      modifies this`lists, this`view, lists.held.Keys, lists.owner.Keys
      ensures ListsOk() && Matches() && NewLists() && view == WithQueue(old(view), a, RmKey(old(view)[a].pending, k))
    {
      assert MirrorsAt(table.view, view, lists.held, a) && ListOk(l);
      var _ := RmNbrMsg(l, k);
      forall l' | l' in lists.held && l' != l ensures ListOk(l') {
        assert old(ListOk(l'));
      }
      Claim(a, RmKey(view[a].pending, k));
    }

    /** `dllist_empty` */
    method EmptyPending(ghost a: Addr, l: PendingList)
      requires ListsOk() && Matches() && a in table.view && l == table.view[a].list
      modifies this`lists, this`view, lists.held.Keys, lists.owner.Keys
      ensures ListsOk() && Matches() && NewLists() && view == WithQueue(old(view), a, [])
    {
      assert MirrorsAt(table.view, view, lists.held, a) && ListOk(l);
      l.Empty();
      forall l' | l' in lists.held && l' != l ensures ListOk(l') {
        assert old(ListOk(l'));
      }
      Claim(a, []);
    }

    /** `worker_iter_msg` */
    method PassPending(ghost a: Addr, e: Nbr, now: int, random: nat -> nat)
        returns (msgs: seq<Msg>, status: int, ghost q': Queue, ghost batches: seq<seq<DataBody>>)
      requires ListsOk() && Matches() && a in table.view && e == table.view[a]
      requires a in view && TableHolds(view[a].pending, now, view[a].pmtu)
      modifies this`lists, this`view, lists.held.Keys, lists.owner.Keys
      ensures ListsOk() && Matches() && NewLists() && view == WithQueue(old(view), a, q')
      ensures PassOk(old(view)[a].pending, now, old(view)[a].pmtu, q', batches, status)
      ensures AreDataMsgs(msgs, batches)
    {
      var l := e.list;
      assert MirrorsAt(table.view, view, lists.held, a) && ListOk(l);
      msgs, status, batches := WorkerIterMsg(l, e.pmtu, now, random);
      q' := l.Model();
      forall l' | l' in lists.held && l' != l ensures ListOk(l') {
        assert old(ListOk(l'));
      }
      Claim(a, q');
    }

    // ---- the same under the invariant ----

    /** Only the pending lists have changed, and new ones have been taken into account. */
    twostate lemma ListsChanged()
      requires old(allocated(repr)) && old(Intact()) && ListsOk() && Matches() && NewLists()
      requires table.repr == old(table.repr) && unchanged(table.repr)
      requires repr == old(repr) + lists.held.Keys + lists.owner.Keys
      ensures Valid() && fresh(repr - old(repr))
    {
      table.Kept();
      assert Intact();
    }

    method RmFor(a: Addr, k: MsgKey)
      requires Valid() && a in view
      modifies repr
      ensures Valid() && fresh(repr - old(repr))
      ensures view == WithQueue(old(view), a, RmKey(old(view)[a].pending, k))
    {
      assert Intact();
      var e := table.Get(a);
      RmPending(a, e.value.list, k);
      repr := repr + lists.held.Keys + lists.owner.Keys;
      ListsChanged();
    }

    method EmptyFor(a: Addr)
      requires Valid() && a in view
      modifies repr
      ensures Valid() && fresh(repr - old(repr))
      ensures view == WithQueue(old(view), a, [])
    {
      assert Intact();
      var e := table.Get(a);
      EmptyPending(a, e.value.list);
      repr := repr + lists.held.Keys + lists.owner.Keys;
      ListsChanged();
    }

    method PassFor(a: Addr, now: int, random: nat -> nat)
        returns (dest: Addr, msgs: seq<Msg>, status: int, ghost q': Queue, ghost batches: seq<seq<DataBody>>)
      requires Valid() && a in view && TableHolds(view[a].pending, now, view[a].pmtu)
      modifies repr
      ensures dest == old(view)[a].addr
      ensures Valid() && fresh(repr - old(repr))
      ensures view == WithQueue(old(view), a, q')
      ensures PassOk(old(view)[a].pending, now, old(view)[a].pmtu, q', batches, status)
      ensures AreDataMsgs(msgs, batches)
    {
      assert Intact();
      var e := table.Get(a);
      dest := e.value.addr;
      assert MirrorsAt(table.view, view, lists.held, a);
      msgs, status, q', batches := PassPending(a, e.value, now, random);
      repr := repr + lists.held.Keys + lists.owner.Keys;
      ListsChanged();
    }

    // ---- loops over the neighbours ----

    ghost predicate AreRows(es: seq<Nbr>, at: seq<Addr>)
      reads table`view
    {
      && NoDup(at) && Elems(at) == table.view.Keys && |es| == |at|
      && forall i :: 0 <= i < |es| ==> at[i] in table.view && es[i] == table.view[at[i]]
    }

    method PushEach(es: seq<Nbr>, ghost at: seq<Addr>, b: DataBody, now: int)
      requires ListsOk() && Matches() && AreRows(es, at)
      modifies this`lists, this`view, lists.held.Keys, lists.owner.Keys
      ensures ListsOk() && Matches() && NewLists() && view == FanOut(old(view), b, now)
    {
      ghost var n := view;
      ReachedNone(n, at, FanOut(n, b, now));
      for i := 0 to |es|
        invariant ListsOk() && Matches() && NewLists() && AreRows(es, at)
        invariant Reached(n, view, at, i, FanOut(n, b, now))
      {
        ReachedNext(n, view, at, i, FanOut(n, b, now), [NewPending(b, now)] + n[at[i]].pending);
        Push(at[i], es[i].list, NewPending(b, now));
      }
      ReachedAll(n, view, at, FanOut(n, b, now));
    }

    method RmEach(es: seq<Nbr>, ghost at: seq<Addr>, k: MsgKey)
      requires ListsOk() && Matches() && AreRows(es, at)
      modifies this`lists, this`view, lists.held.Keys, lists.owner.Keys
      ensures ListsOk() && Matches() && NewLists() && view == RmEverywhere(old(view), k)
    {
      ghost var n := view;
      ReachedNone(n, at, RmEverywhere(n, k));
      for i := 0 to |es|
        invariant ListsOk() && Matches() && NewLists() && AreRows(es, at)
        invariant Reached(n, view, at, i, RmEverywhere(n, k))
      {
        ReachedNext(n, view, at, i, RmEverywhere(n, k), RmKey(n[at[i]].pending, k));
        RmPending(at[i], es[i].list, k);
      }
      ReachedAll(n, view, at, RmEverywhere(n, k));
    }

    /** The loop of `add_msg`. */
    method PushAll(b: DataBody, now: int)
      requires Valid()
      modifies repr
      ensures Valid() && fresh(repr - old(repr))
      ensures view == FanOut(old(view), b, now)
    {
      assert Intact();
      var es;
      ghost var at;
      es, at := Rows(table);
      PushEach(es, at, b, now);
      repr := repr + lists.held.Keys + lists.owner.Keys;
      ListsChanged();
    }

    /** The loop of `rm_msg`. */
    method RmAll(k: MsgKey)
      requires Valid()
      modifies repr
      ensures Valid() && fresh(repr - old(repr))
      ensures view == RmEverywhere(old(view), k)
    {
      assert Intact();
      var es;
      ghost var at;
      es, at := Rows(table);
      RmEach(es, at, k);
      repr := repr + lists.held.Keys + lists.owner.Keys;
      ListsChanged();
    }

    /** The addresses of the neighbours, in the order in which a loop over the map meets them. */
    method Addresses() returns (at: seq<Addr>)
      requires Valid()
      ensures NoDup(at) && Elems(at) == view.Keys
    {
      assert Intact();
      var es;
      ghost var keys;
      es, keys := Rows(table);
      at := seq(|es|, i requires 0 <= i < |es| => es[i].addr);
      forall i | 0 <= i < |es| ensures at[i] == keys[i] {
        assert MirrorsAt(table.view, view, lists.held, keys[i]);
      }
      assert at == keys;
    }

    // ---- moving a neighbour from map to map ----

    method Has(a: Addr) returns (found: bool)
      requires Valid()
      ensures found <==> a in view
    {
      assert Intact();
      var e := table.Get(a);
      found := e.Some?;
    }

    twostate lemma KeptLists()
      requires old(ListsOk()) && lists == old(lists)
      requires unchanged(lists.held.Keys) && unchanged(lists.owner.Keys)
      ensures ListsOk()
    {
      forall l | l in lists.held ensures ListOk(l) {
        assert old(ListOk(l));
      }
    }

    /** `map_pop_neighbour`: the entry and its list are the map's no longer. */
    method Pop(a: Addr) returns (e: Option<Nbr>)
      requires Valid()
      modifies repr
      ensures Valid()
      ensures e.None? ==> a !in old(view) && view == old(view) && repr == old(repr)
      ensures e.Some? ==> a in old(view) && view == old(view) - {a} && e.value.addr == a && e.value.Stands(old(view)[a])
      ensures e.Some? ==> old(repr) == repr + e.value.Parts() && repr !! e.value.Parts()
    {
      assert Intact();
      e := table.Get(a);
      if e.Some? {
        MirrorsRemove(table.view, view, lists.held, a);
        assert ListOk(e.value.list);
        table.Remove(a);
        KeptLists();
        Release(a, e.value);
      }
    }

    /** Gives up an entry that has gone from the table. */
    ghost method Release(a: Addr, e: Nbr)
      requires Laid() && e.list in lists.held && Mirrors(table.view, view - {a}, lists.held - {e.list})
      modifies this`lists, this`view, this`repr
      ensures Valid() && view == old(view) - {a} && repr == old(repr) - e.Parts() && e.Parts() <= old(repr)
    {
      assert ListOk(e.list);
      Forget(e.list);
      view, repr := view - {a}, repr - e.Parts();
      assert Intact();
    }

    ghost method Forget(l: PendingList)
      requires ListsOk() && l in lists.held
      modifies this`lists
      ensures ListsOk() && lists == Lists(old(lists).held - {l}, old(lists).owner - l.shape.cells.Keys)
      ensures l.shape.cells.Keys <= old(lists).owner.Keys
    {
      assert ListOk(l);
      lists := Lists(lists.held - {l}, lists.owner - l.shape.cells.Keys);
      forall l' | l' in lists.held ensures ListOk(l') {
        assert old(ListOk(l'));
      }
    }

    /** `map_add_neighbour_entry`: unless its address is there already, the entry and its list are the map's from now on. */
    method Add(e: Nbr, ghost q: Queue)
      requires Valid() && |view| < MAX_BUCKETS && e.Stands(Entry(e.addr, e.pmtu, q)) && repr !! e.Parts()
      modifies repr, e.Parts()
      ensures Valid() && fresh(repr - old(repr) - old(e.Parts()))
      ensures view == AddEntry(old(view), Entry(e.addr, e.pmtu, q))
    {
      var found := Has(e.addr);
      if !found {
        Adopt(e, q);
        assert Intact();
        MirrorsInsert(table.view, view, lists.held, e, q);
        AddRow(e, view[e.addr := Entry(e.addr, e.pmtu, q)]);
      }
    }

    /** Takes over the list of an entry. */
    ghost method Adopt(e: Nbr, q: Queue)
      requires Valid() && e.Stands(Entry(e.addr, e.pmtu, q)) && repr !! e.Parts()
      modifies this`lists, this`repr
      ensures Valid() && view == old(view) && repr == old(repr) + e.Parts()
      ensures lists.held == old(lists).held[e.list := Held(q, e.addr)]
    {
      assert Intact();
      MirrorsElse(table.view, view, lists.held, e.list, Held(q, e.addr));
      Retake(e.list, Held(q, e.addr));
      repr := repr + e.Parts();
      assert Intact();
    }

    /** Files the entry, which makes the table stand for `n`. */
    method AddRow(e: Nbr, ghost n: Neighbours)
      requires Valid() && |view| < MAX_BUCKETS && Mirrors(table.view[e.addr := e], n, lists.held)
      modifies repr
      ensures Valid() && view == n && fresh(repr - old(repr))
    {
      WriteRow(e);
      view, repr := n, repr + table.repr;
      TableChanged();
    }

    method WriteRow(e: Nbr)
      requires Valid() && |view| < MAX_BUCKETS
      modifies repr
      ensures table.Valid() && table.view == old(table.view)[e.addr := e] && fresh(table.repr - old(table.repr))
      ensures unchanged(this) && unchanged(lists.held.Keys) && unchanged(lists.owner.Keys) && this !in table.repr
    {
      assert Intact();
      assert |view| == |view.Keys| == |table.view.Keys| == |table.view|;
      table.Set(e.addr, e);
    }

    /** Only the table has changed. */
    twostate lemma TableChanged()
      requires old(allocated(repr)) && old(Valid()) && table.Valid() && Matches()
      requires lists == old(lists) && unchanged(lists.held.Keys) && unchanged(lists.owner.Keys)
      requires fresh(table.repr - old(table.repr)) && repr == old(repr) + table.repr
      ensures Valid() && fresh(repr - old(repr))
    {
      assert old(Intact());
      KeptLists();
      assert Intact();
    }
  }

  /** `map_add_neighbour_entry` of a `new_neighbour_entry` */
  method AddNewEntry(m: NbrMap, a: Addr)
    requires m.Valid() && |m.view| < MAX_BUCKETS
    modifies m.repr
    ensures m.Valid() && fresh(m.repr - old(m.repr)) && m.view == AddEntry(old(m.view), NewEntry(a))
  {
    var list := new DList<Pending>(DllMsg);
    m.Kept();
    m.Add(Nbr(a, PMTU, list), []);
  }

  /** `map_transfer_neighbour` */
  method TransferNeighbour(from: NbrMap, to: NbrMap, a: Addr)
    requires from.Valid() && to.Valid() && from.repr !! to.repr && |to.view| < MAX_BUCKETS
    modifies from.repr, to.repr
    ensures from.Valid() && to.Valid() && from.repr !! to.repr
    ensures from.repr <= old(from.repr) && fresh(to.repr - old(to.repr) - old(from.repr))
    ensures (from.view, to.view) == Transfer(old(from.view), old(to.view), a)
  {
    ghost var n := from.view;
    var e := from.Pop(a);
    to.Kept();
    if e.Some? {
      label Popped:
      assert e.value.Stands(n[a]);
      to.Add(e.value, n[a].pending);
      from.Kept@Popped();
    }
  }
}
