// The loops over a pending queue, on the linked list itself: rm_nbr_msg of src/msg_list.c and worker_iter_msg of
// src/worker.c.

module Worker {
  import opened Codec
  import opened DoublyLinkedList
  import opened PendingQueue
  import opened Sequences

  /** `rm_nbr_msg`: walks to the entry of the message, counting, and removes the element at that index. */
  method RmNbrMsg(list: DList<Pending>, key: MsgKey) returns (found: bool)
    requires list.Valid()
    modifies list, list.shape.cells.Keys
    ensures list.Valid() && list.shape.cells.Keys <= old(list.shape.cells.Keys)
    ensures list.Model() == RmKey(old(list.Model()), key) && found == HasKey(old(list.Model()), key)
  {
    ghost var q := list.Model();
    var n, index := list.first, 0;
    while n != null
      invariant list.Valid() && list.shape == old(list.shape)
      invariant 0 <= index <= list.size && n == NodeAt(list.shape.nodes, index)
      invariant forall j :: 0 <= j < index ==> KeyOf(q[j].body) != key
      decreases list.size - index
    {
      LinkedAround(list.shape, index);
      if KeyOf(n.data.body) == key {
        assert Keys(q)[index] == key;
        RmKeyAt(q, key, index);
        var _ := list.Remove(index);
        return true;
      }
      n := list.Next(n, index);
      index := index + 1;
    }
    RmKeyAbsent(q, key);
    found := false;
  }

  /** How far a pass has come: the messages sent so far, and the length and size of what is set aside in the table. */
  datatype Progress = Progress(msgs: seq<Msg>, count: nat, size: nat)

  /** The bodies behind it: those of the messages sent, and those set aside. */
  datatype Dealt = Dealt(batches: seq<seq<DataBody>>, bodies: seq<DataBody>)

  ghost predicate AreDataMsgs(msgs: seq<Msg>, batches: seq<seq<DataBody>>) {
    |msgs| == |batches| && forall i :: 0 <= i < |msgs| ==> msgs[i] == DataMsg(batches[i])
  }

  /** The table holds the TLVs of the bodies set aside, and the messages are those of the batches. */
  ghost predicate Carries(tab: array<Tlv>, p: Progress, d: Dealt)
    reads tab
  {
    && tab.Length == MSG_TLV_NB_DEF && p.count == |d.bodies| <= tab.Length && tab[..p.count] == DataTlvs(d.bodies)
    && AreDataMsgs(p.msgs, d.batches)
  }

  /**
   * `worker_iter_msg`: sends what is due, in messages of about one PMTU, and counts the tries in the entries themselves.
   * `random` is what `random()` will answer for each entry.
   */
  method WorkerIterMsg(list: DList<Pending>, pmtu: nat, now: int, random: nat -> nat)
      returns (msgs: seq<Msg>, status: int, ghost batches: seq<seq<DataBody>>)
    requires list.Valid()
    requires TableHolds(list.Model(), now, pmtu)
    modifies list`shape, list.shape.cells.Keys`data
    ensures list.Valid() && list.shape.cells.Keys == old(list.shape.cells.Keys)
    ensures PassOk(old(list.Model()), now, pmtu, list.Model(), batches, status)
    ensures AreDataMsgs(msgs, batches)
  {
    if list.first == null {
      return [], 0, [];
    }
    var tab := new Tlv[MSG_TLV_NB_DEF](_ => Pad1(0));
    var p, spent;
    ghost var d;
    p, spent, d := PassOver(list, tab, pmtu, now, random);
    var msg := NewMsg(tab[..p.count]);
    msgs, batches := p.msgs + [msg], d.batches + [d.bodies];
    status := if spent then -1 else 1;
  }

  /** The loop of `worker_iter_msg`: what is sent on the way, and what is left in the table at the end. */
  method PassOver(list: DList<Pending>, tab: array<Tlv>, pmtu: nat, now: int, random: nat -> nat)
      returns (p: Progress, spent: bool, ghost d: Dealt)
    requires list.Valid()
    requires TableHolds(list.Model(), now, pmtu) && tab.Length == MSG_TLV_NB_DEF
    modifies list`shape, list.shape.cells.Keys`data, tab
    ensures list.Valid() && list.shape.cells.Keys == old(list.shape.cells.Keys)
    ensures Carries(tab, p, d)
    ensures Ended(old(list.Model()), list.Model(), now, pmtu, d, if spent then -1 else 1)
  {
    ghost var q := list.Model();
    p, spent, d := Progress([], 0, 0), false, Dealt([], []);
    var n, index: nat := list.first, 0;
    StartOfPass(q, now, pmtu);
    while n != null && !spent
      invariant list.Valid() && list.shape.cells.Keys == old(list.shape.cells.Keys) && list.size == |q|
      invariant 0 <= index <= |q| && (!spent ==> n == NodeAt(list.shape.nodes, index))
      invariant Carries(tab, p, d)
      invariant if spent then Ended(q, list.Model(), now, pmtu, d, -1)
                else UpTo(q, list.Model(), now, pmtu, index, d, p.size)
      decreases |q| - index, if spent then 0 else 1
    {
      LinkedAround(list.shape, index);
      p, spent, n, d := Visit(list, n, index, tab, p, pmtu, now, random(index), q, d);
      index := if spent then index else index + 1;
    }
    if !spent {
      EndOfPass(q, list.Model(), now, pmtu, d, p.size);
    }
  }

  /** The body of the loop: for a due entry the guard, the test of the tries, and the try; then on to the next entry. */
  method Visit(list: DList<Pending>, n: Node<Pending>, ghost index: nat, tab: array<Tlv>, p0: Progress,
               pmtu: nat, now: int, random: nat, ghost q: Queue, ghost d0: Dealt)
      returns (p: Progress, spent: bool, next: Node?<Pending>, ghost d: Dealt)
    requires list.Valid() && index < list.size == |q| && n == list.shape.nodes[index]
    requires Carries(tab, p0, d0) && UpTo(q, list.Model(), now, pmtu, index, d0, p0.size)
    requires TableHolds(q, now, pmtu)
    modifies list`shape, n`data, tab
    ensures list.Valid() && list.shape.cells.Keys == old(list.shape.cells.Keys)
    ensures list.shape.nodes == old(list.shape.nodes) && next == NodeAt(list.shape.nodes, index + 1)
    ensures Carries(tab, p, d)
    ensures if spent then Ended(q, list.Model(), now, pmtu, d, -1)
            else UpTo(q, list.Model(), now, pmtu, index + 1, d, p.size)
  {
    LinkedAround(list.shape, index);
    if n.data.timeSend < now {
      p, spent, d := VisitDue(list, n, index, tab, p0, pmtu, now, random, q, d0);
    } else {
      p, spent, d := p0, false, d0;
      SkipKeeps(q, list.Model(), now, pmtu, index, d, p.size);
    }
    next := list.Next(n, index);
  }

  method VisitDue(list: DList<Pending>, n: Node<Pending>, ghost index: nat, tab: array<Tlv>, p0: Progress,
                  pmtu: nat, now: int, random: nat, ghost q: Queue, ghost d0: Dealt)
      returns (p: Progress, spent: bool, ghost d: Dealt)
    requires list.Valid() && index < list.size == |q| && n == list.shape.nodes[index] && n.data == q[index]
    requires Carries(tab, p0, d0) && UpTo(q, list.Model(), now, pmtu, index, d0, p0.size) && Due(q[index], now)
    requires TableHolds(q, now, pmtu)
    modifies list`shape, n`data, tab
    ensures list.Valid() && list.shape.cells.Keys == old(list.shape.cells.Keys)
    ensures list.shape.nodes == old(list.shape.nodes)
    ensures Carries(tab, p, d)
    ensures if spent then Ended(q, list.Model(), now, pmtu, d, -1)
            else UpTo(q, list.Model(), now, pmtu, index + 1, d, p.size)
  {
    FlushKeeps(q, list.Model(), now, pmtu, index, d0, p0.size);
    p, d := FlushIfFull(tab, p0, |n.data.body.data|, pmtu, d0);
    spent := n.data.tries >= MAX_TRIES;
    if spent {
      SpentEnds(q, list.Model(), now, pmtu, index, d, p.size);
    } else {
      p, d := TryDue(list, n, index, tab, p, pmtu, now, random, q, d);
    }
  }

  /** A due entry that has tries left joins the table. */
  method TryDue(list: DList<Pending>, n: Node<Pending>, ghost index: nat, tab: array<Tlv>, p0: Progress,
                ghost pmtu: nat, now: int, random: nat, ghost q: Queue, ghost d0: Dealt)
      returns (p: Progress, ghost d: Dealt)
    requires list.Valid() && index < list.size == |q| && n == list.shape.nodes[index]
    requires Carries(tab, p0, d0) && AtDue(q, list.Model(), now, pmtu, index, d0, p0.size)
    requires TableHolds(q, now, pmtu) && q[index].tries < MAX_TRIES
    modifies list`shape, n`data, tab
    ensures list.Valid() && list.shape.cells.Keys == old(list.shape.cells.Keys)
    ensures list.shape.nodes == old(list.shape.nodes)
    ensures Carries(tab, p, d) && UpTo(q, list.Model(), now, pmtu, index + 1, d, p.size)
  {
    ghost var q' := list.Model();
    RoomForOneMore(q, q', now, pmtu, index, d0, p0.size);
    p, d := Try(list, n, index, tab, p0, now, random, d0);
    TryKeeps(q, q', now, pmtu, index, d0, p0.size, list.Model()[index]);
  }

  /** Sends what is set aside when the next body would take it past the PMTU. */
  method FlushIfFull(tab: array<Tlv>, p0: Progress, length: nat, pmtu: nat, ghost d0: Dealt)
      returns (p: Progress, ghost d: Dealt)
    requires Carries(tab, p0, d0)
    ensures Carries(tab, p, d)
    ensures (p.size, d) == if p0.size + length + 4 > pmtu then (0, Dealt(d0.batches + [d0.bodies], []))
                           else (p0.size, d0)
  {
    p, d := p0, d0;
    if p.size + length + 4 > pmtu {
      var msg := NewMsg(tab[..p.count]);
      p, d := Progress(p.msgs + [msg], 0, 0), Dealt(d.batches + [d.bodies], []);
    }
  }

  lemma DataTlvsAppend(bodies: seq<DataBody>, b: DataBody)
    ensures DataTlvs(bodies + [b]) == DataTlvs(bodies) + [NewTlvData(b)]
  {
  }

  ghost predicate Ended(q: Queue, q': Queue, now: int, pmtu: nat, d: Dealt, status: int) {
    Passed(q, q', now) && Batches(q, 0, now, pmtu, [], 0) == (d.batches + [d.bodies], status)
  }

  /** Sets the message of an entry aside in the table, and counts the try in the entry. */
  method Try(list: DList<Pending>, n: Node<Pending>, ghost index: nat, tab: array<Tlv>, p0: Progress,
             now: int, random: nat, ghost d0: Dealt)
      returns (p: Progress, ghost d: Dealt)
    requires list.Valid() && index < list.size && n == list.shape.nodes[index]
    requires Carries(tab, p0, d0) && |d0.bodies| < MSG_TLV_NB_DEF
    modifies list`shape, n`data, tab
    ensures list.Valid() && list.shape.cells.Keys == old(list.shape.cells.Keys)
    ensures list.shape.nodes == old(list.shape.nodes)
    ensures list.Model() == old(list.Model())[index := list.Model()[index]]
    ensures Tried(old(list.Model())[index], list.Model()[index], now)
    ensures Carries(tab, p, d) && d == SetAside(d0, old(list.Model())[index].body)
    ensures p.size == p0.size + NewTlvData(old(list.Model())[index].body).length + 2
  {
    LinkedAround(list.shape, index);
    var m := n.data;
    DataTlvsAppend(d0.bodies, m.body);
    tab[p0.count] := NewTlvData(m.body);
    p := p0.(count := p0.count + 1, size := p0.size + tab[p0.count].length + 2);
    d := SetAside(d0, m.body);
    var time := SetTimeSend(m.tries + 1, now, random);
    list.Update(n, index, m.(tries := m.tries + 1, timeSend := time, sent := m.sent + [now]));
  }

  ghost function SetAside(d: Dealt, b: DataBody): Dealt {
    d.(bodies := d.bodies + [b])
  }

  /** The entries before `index` are dealt with, and the rest of the list makes the rest of the batches. */
  ghost predicate UpTo(q: Queue, q': Queue, now: int, pmtu: nat, index: nat, d: Dealt, size: nat) {
    && |q'| == |q|
    && index <= Stop(q, 0, now) <= |q|
    && (forall i {:trigger PassedAt(q, q', now, i)} :: 0 <= i < index ==> PassedAt(q, q', now, i))
    && (forall i :: index <= i < |q| ==> q'[i] == q[i])
    && Batches(q, 0, now, pmtu, [], 0) == Prepend(d.batches, Batches(q, index, now, pmtu, d.bodies, size))
  }

  ghost function Prepend<T>(ss: seq<T>, r: (seq<T>, int)): (seq<T>, int) {
    (ss + r.0, r.1)
  }

  lemma StartOfPass(q: Queue, now: int, pmtu: nat)
    ensures UpTo(q, q, now, pmtu, 0, Dealt([], []), 0)
  {
    assert [] + Batches(q, 0, now, pmtu, [], 0).0 == Batches(q, 0, now, pmtu, [], 0).0;
  }

  /** The state of the loop at a due entry, after the guard may have made it send what was set aside. */
  ghost predicate AtDue(q: Queue, q': Queue, now: int, pmtu: nat, index: nat, d: Dealt, size: nat) {
    && |q'| == |q|
    && index < |q| && index <= Stop(q, 0, now) && Due(q[index], now)
    && (forall i {:trigger PassedAt(q, q', now, i)} :: 0 <= i < index ==> PassedAt(q, q', now, i))
    && (forall i :: index <= i < |q| ==> q'[i] == q[i])
    && Batches(q, 0, now, pmtu, [], 0) ==
       if q[index].tries >= MAX_TRIES then (d.batches + [d.bodies], -1)
       else Prepend(d.batches, Batches(q, index + 1, now, pmtu, d.bodies + [q[index].body],
                                       size + NewTlvData(q[index].body).length + 2))
  }

  lemma FlushKeeps(q: Queue, q': Queue, now: int, pmtu: nat, index: nat, d: Dealt, size: nat)
    requires UpTo(q, q', now, pmtu, index, d, size) && index < |q| && Due(q[index], now)
    ensures if size + |q[index].body.data| + 4 > pmtu
            then AtDue(q, q', now, pmtu, index, Dealt(d.batches + [d.bodies], []), 0)
            else AtDue(q, q', now, pmtu, index, d, size)
  {
    if size + |q[index].body.data| + 4 > pmtu {
      var rest := Batches(q, index + 1, now, pmtu, [q[index].body], NewTlvData(q[index].body).length + 2);
      assert [] + [q[index].body] == [q[index].body];
      Associative(d.batches, [d.bodies], rest.0);
      Associative(d.batches, [d.bodies], [[]]);
    } else if q[index].tries >= MAX_TRIES {
      assert [] + [d.bodies] == [d.bodies];
    } else {
      var rest := Batches(q, index + 1, now, pmtu, d.bodies + [q[index].body],
                          size + NewTlvData(q[index].body).length + 2);
      assert [] + rest.0 == rest.0;
    }
  }

  /** If the table holds every batch of the pass, then it has a free slot for an entry that is sent. */
  lemma RoomForOneMore(q: Queue, q': Queue, now: int, pmtu: nat, index: nat, d: Dealt, size: nat)
    requires AtDue(q, q', now, pmtu, index, d, size) && q[index].tries < MAX_TRIES
    requires TableHolds(q, now, pmtu)
    ensures |d.bodies| < MSG_TLV_NB_DEF
  {
    var tab', size' := d.bodies + [q[index].body], size + NewTlvData(q[index].body).length + 2;
    FirstBatch(q, index + 1, now, pmtu, tab', size');
    var all := Batches(q, 0, now, pmtu, [], 0).0;
    assert all[|d.batches|] == Batches(q, index + 1, now, pmtu, tab', size').0[0];
  }

  lemma SpentEnds(q: Queue, q': Queue, now: int, pmtu: nat, index: nat, d: Dealt, size: nat)
    requires AtDue(q, q', now, pmtu, index, d, size) && q[index].tries >= MAX_TRIES
    ensures Ended(q, q', now, pmtu, d, -1)
  {
    StopIsFirst(q, 0, now);
  }

  lemma TryKeeps(q: Queue, q': Queue, now: int, pmtu: nat, index: nat, d: Dealt, size: nat, e: Pending)
    requires AtDue(q, q', now, pmtu, index, d, size) && q[index].tries < MAX_TRIES
    requires Tried(q[index], e, now)
    ensures UpTo(q, q'[index := e], now, pmtu, index + 1, SetAside(d, q[index].body),
                 size + NewTlvData(q[index].body).length + 2)
  {
    StopIsFirst(q, 0, now);
    var p := q'[index := e];
    forall i {:trigger PassedAt(q, p, now, i)} | 0 <= i < index + 1 ensures PassedAt(q, p, now, i) {
      if i < index {
        assert PassedAt(q, q', now, i);
      }
    }
  }

  lemma SkipKeeps(q: Queue, q': Queue, now: int, pmtu: nat, index: nat, d: Dealt, size: nat)
    requires UpTo(q, q', now, pmtu, index, d, size) && index < |q| && !Due(q[index], now)
    ensures UpTo(q, q', now, pmtu, index + 1, d, size)
  {
    StopIsFirst(q, 0, now);
  }

  lemma EndOfPass(q: Queue, q': Queue, now: int, pmtu: nat, d: Dealt, size: nat)
    requires UpTo(q, q', now, pmtu, |q|, d, size)
    ensures Ended(q, q', now, pmtu, d, 1)
  {
  }
}
