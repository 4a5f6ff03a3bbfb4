// A peer that updates its shared resources in place: the handlers of src/connect.c, src/msg_list.c and
// src/neighbour_map.c and the worker of src/worker.c, on the hash maps and linked lists themselves.

module ChatPeer {
  import opened Codec
  import opened HashMap
  import opened MsgStore
  import opened NeighbourMaps
  import opened P = PeerModel
  import opened PendingQueue
  import opened Sbuff
  import opened Sequences
  import opened Wire
  import opened Worker
  import opened Wrappers

  datatype Datagram = Datagram(dest: Addr, bytes: Bytes)

  // ---- what the socket gets ----

  function Wired(sends: seq<Send>): seq<Datagram> {
    seq(|sends|, i requires 0 <= i < |sends| => Datagram(sends[i].dest, PrintMsg(sends[i].msg)))
  }

  lemma WiredAppend(sends: seq<Send>, s: Send)
    ensures Wired(sends + [s]) == Wired(sends) + [Datagram(s.dest, PrintMsg(s.msg))]
  {
  }

  // ---- how much room the maps need ----

  /** With `n` more entries, the maps of the peer stay within what a C table can hold. */
  predicate RoomFor(s: Peer, n: nat) {
    |s.cur| + |s.pot| + n <= MAX_BUCKETS && |s.msgMap| + n <= MAX_BUCKETS
  }

  /** By how much the TLVs from the `i`-th on may make the maps grow. */
  function Growth(envs: seq<Env>, i: nat): nat
    requires i <= |envs|
    decreases |envs| - i
  {
    if i == |envs| then 0 else 1 + |envs[i].resolved| + Growth(envs, i + 1)
  }

  lemma SizeOfSet<K, V>(m: map<K, V>, k: K, v: V)
    ensures |m| <= |m[k := v]| <= |m| + 1
  {
    assert m[k := v].Keys == m.Keys + {k};
  }

  lemma AddOneGrows(s: Peer, a: Addr, ok: bool, n: nat)
    requires RoomFor(s, n) && n > 0
    ensures RoomFor(AddOne(s, a, ok), n - 1)
  {
    SizeOfSet(s.cur, a, NewEntry(a));
    SizeOfSet(s.pot, a, NewEntry(a));
  }

  lemma {:induction false} AddFirstGrows(s: Peer, resolved: seq<(Addr, bool)>, k: nat, n: nat)
    requires k <= |resolved| && RoomFor(s, k + n)
    ensures RoomFor(AddFirst(s, resolved, k).0, n)
  {
    if k > 0 {
      AddFirstGrows(s, resolved, k - 1, n + 1);
      AddOneGrows(AddFirst(s, resolved, k - 1).0, resolved[k - 1].0, resolved[k - 1].1, n + 1);
    }
  }

  lemma TransferGrows(from: Neighbours, to: Neighbours, a: Addr)
    ensures var (from', to') := Transfer(from, to, a);
            |from'| + |to'| <= |from| + |to|
  {
    if a in from {
      assert from.Keys == (from - {a}).Keys + {a};
      SizeOfSet(to, from[a].addr, from[a]);
    }
  }

  lemma EvictFits(s: Peer, a: Addr, n: nat)
    requires a in s.cur && RoomFor(s, n)
    ensures RoomFor(Evict(s, a), n)
  {
    TransferGrows(Owe(s, a, []).cur, s.pot, a);
  }

  lemma VisitFits(s: Peer, v: NbrPass)
    requires v.addr in s.cur && RoomFor(s, 0)
    ensures RoomFor(WorkerVisit(s, v.addr, v.queue, v.batches, v.status).0, 0)
  {
    EvictFits(Owe(s, v.addr, v.queue), v.addr, 0);
  }

  lemma DataGrows(s: Peer, b: DataBody, from: Addr, env: Env, n: nat)
    requires RoomFor(s, 1 + n)
    ensures RoomFor(ProcessData(s, b, from, env).0, n)
  {
    SizeOfSet(s.msgMap, KeyOf(b), b);
    var cur := FanOut(s.cur, b, env.now);
    assert cur.Keys == s.cur.Keys && |cur| == |cur.Keys| && |s.cur| == |s.cur.Keys|;
  }

  lemma HelloGrows(s: Peer, isLong: bool, source: uint64, from: Addr, env: Env, n: nat)
    requires RoomFor(s, |env.resolved| + n)
    ensures RoomFor(ProcessHello(s, isLong, source, from, env).0, n)
  {
    AddFirstGrows(s, env.resolved, |env.resolved|, n);
    TransferGrows(s.pot, s.cur, from);
  }

  /** A TLV makes the maps grow by one message, or by the addresses that were looked up. */
  lemma TlvGrows(s: Peer, t: Tlv, from: Addr, env: Env, n: nat)
    requires RoomFor(s, 1 + |env.resolved| + n)
    ensures RoomFor(ProcessTlv(s, t, from, env).0, n)
  {
    match t
    case Hello(_, isLong, source, _) =>
      HelloGrows(s, isLong, source, from, env, n);
    case Neighbour(_, _, _) =>
      AddFirstGrows(s, env.resolved, |env.resolved|, n);
    case Data(_, b) =>
      DataGrows(s, b, from, env, n);
    case GoAway(_, _, _) =>
      if from in s.cur {
        EvictFits(s, from, n);
      }
    case _ =>
  }

  class ChatPeer {
    const id: uint64
    const cur: NbrMap
    const pot: NbrMap
    const msgs: MsgStore
    var display: seq<DataBody>
    var outbox: seq<Datagram>

    ghost var state: Peer        // the value of the peer
    ghost var sent: seq<Send>    // the messages behind the datagrams
    ghost var repr: set<object>

    ghost predicate Intact()
      reads this, repr
    {
      && this in repr && cur in repr && pot in repr && msgs in repr
      && cur.repr <= repr && pot.repr <= repr && msgs.repr <= repr
      && this !in cur.repr && this !in pot.repr && this !in msgs.repr
      && cur.repr !! pot.repr && cur.repr !! msgs.repr && pot.repr !! msgs.repr
      && cur.Valid() && pot.Valid() && msgs.Valid()
      && state == Peer(id, cur.view, pot.view, msgs.kept, msgs.keys, display)
      && outbox == Wired(sent)
    }

    /**
     * The fields stand for the value `state`, and what has gone out to the socket are the printed messages of `sent`.
     * Stated so that only a proof that names `Intact` looks into it.
     */
    ghost predicate Valid()
      reads this, repr
      ensures Valid() ==> this in repr
    {
      this in repr && forall p {:trigger p.Intact()} :: p in {this} ==> p.Intact()
    }

    constructor (id: uint64)
      ensures Valid() && fresh(repr) && state == Peer(id, map[], map[], map[], [], []) && sent == []
    {
      this.id := id;
      cur := new NbrMap();
      pot := new NbrMap();
      msgs := new MsgStore();
      display, outbox, sent, state := [], [], [], Peer(id, map[], map[], map[], [], []);
      new;
      repr := {this} + cur.repr + pot.repr + msgs.repr;
      assert Intact();
    }

    lemma OwnId()
      requires Valid()
      ensures state.id == id
    {
      assert Intact();
    }

    // ---- what is left as it was ----

    /** Only the map of the current neighbours has changed. */
    twostate lemma CurChanged()
      requires old(allocated(repr)) && old(Intact()) && unchanged(`display, `outbox, `sent)
      requires pot.repr == old(pot.repr) && msgs.repr == old(msgs.repr) && unchanged(pot.repr) && unchanged(msgs.repr)
      requires cur.Valid() && fresh(cur.repr - old(cur.repr))
      requires state == old(state).(cur := cur.view) && repr == old(repr) + cur.repr
      ensures Valid() && fresh(repr - old(repr))
    {
      pot.Kept();
      msgs.Kept();
      assert Intact();
    }

    /** Only the neighbour maps have changed. */
    twostate lemma MapsChanged()
      requires old(allocated(repr)) && old(Intact()) && unchanged(`display, `outbox, `sent)
      requires msgs.repr == old(msgs.repr) && unchanged(msgs.repr)
      requires cur.Valid() && pot.Valid() && cur.repr !! pot.repr
      requires fresh(cur.repr + pot.repr - old(cur.repr) - old(pot.repr))
      requires state == old(state).(cur := cur.view, pot := pot.view) && repr == old(repr) + cur.repr + pot.repr
      ensures Valid() && fresh(repr - old(repr))
    {
      msgs.Kept();
      assert Intact();
    }

    /** Only the messages have changed. */
    twostate lemma MsgsChanged()
      requires old(allocated(repr)) && old(Intact()) && unchanged(`display, `outbox, `sent)
      requires cur.repr == old(cur.repr) && pot.repr == old(pot.repr) && unchanged(cur.repr) && unchanged(pot.repr)
      requires msgs.Valid() && fresh(msgs.repr - old(msgs.repr))
      requires state == old(state).(msgMap := msgs.kept, msgList := msgs.keys) && repr == old(repr) + msgs.repr
      ensures Valid() && fresh(repr - old(repr))
    {
      cur.Kept();
      pot.Kept();
      assert Intact();
    }

    // ---- sending ----

    /** `send_msg`: prints the message into a new buffer and hands it to the socket. */
    method SendMsg(dest: Addr, m: Msg)
      requires Valid()
      modifies this`outbox, this`sent
      ensures Valid() && sent == old(sent) + [Send(dest, m)]
    {
      assert Intact();
      var bytes := Serialised(m);
      WiredAppend(sent, Send(dest, m));
      outbox, sent := outbox + [Datagram(dest, bytes)], sent + [Send(dest, m)];
      assert Intact();
    }

    method SendHello(dest: Addr, isLong: bool, source: uint64, destId: uint64)
      requires Valid()
      modifies this`outbox, this`sent
      ensures Valid() && sent == old(sent) + [Send(dest, HelloMsg(isLong, source, destId))]
    {
      var m := NewMsg([NewTlvHello(isLong, source, destId)]);
      SendMsg(dest, m);
    }

    // ---- messages ----

    /** `add_msg` */
    method AddMsg(b: DataBody, now: int) returns (added: bool)
      requires Valid() && |state.msgMap| < MAX_BUCKETS
      modifies repr
      ensures Valid() && fresh(repr - old(repr)) && sent == old(sent) && state == P.AddMsg(old(state), b, now)
      ensures added <==> KeyOf(b) !in old(state).msgList
    {
      var found := IsInMsgList(KeyOf(b));
      if !found {
        Store(b);
        FanOutMsg(b, now);
        Show(b);
      }
      added := !found;
    }

    /** `is_in_msg_list` */
    method IsInMsgList(k: MsgKey) returns (found: bool)
      requires Valid()
      ensures found <==> k in state.msgList
    {
      assert Intact();
      found := msgs.Has(k);
    }

    method Store(b: DataBody)
      requires Valid() && |state.msgMap| < MAX_BUCKETS
      modifies repr
      ensures Valid() && fresh(repr - old(repr)) && sent == old(sent)
      ensures state == old(state).(msgMap := old(state).msgMap[KeyOf(b) := b], msgList := [KeyOf(b)] + old(state).msgList)
    {
      assert Intact();
      msgs.Store(b);
      state, repr := state.(msgMap := msgs.kept, msgList := msgs.keys), repr + msgs.repr;
      MsgsChanged();
    }

    /** The loop of `add_msg` over the current neighbours. */
    method FanOutMsg(b: DataBody, now: int)
      requires Valid()
      modifies repr
      ensures Valid() && fresh(repr - old(repr)) && sent == old(sent)
      ensures state == old(state).(cur := FanOut(old(state).cur, b, now))
    {
      assert Intact();
      cur.PushAll(b, now);
      state, repr := state.(cur := cur.view), repr + cur.repr;
      CurChanged();
    }

    /** `print_message` */
    method Show(b: DataBody)
      requires Valid()
      modifies this`display, this`state
      ensures Valid() && state == old(state).(display := old(state).display + [b])
    {
      assert Intact();
      display := display + [b];
      state := state.(display := display);
      assert Intact();
    }

    /** `rm_msg` */
    method RmMsg() returns (removed: bool)
      requires Valid() && (state.msgList != [] ==> state.msgList[|state.msgList| - 1] in state.msgMap)
      modifies repr
      ensures Valid() && fresh(repr - old(repr)) && sent == old(sent) && state == P.RmMsg(old(state))
      ensures removed <==> old(state).msgList != []
    {
      var b := DropOldest();
      removed := b.Some?;
      if removed {
        RmFromAll(KeyOf(b.value));
      }
    }

    method DropOldest() returns (b: Option<DataBody>)
      requires Valid() && (state.msgList != [] ==> state.msgList[|state.msgList| - 1] in state.msgMap)
      modifies repr
      ensures Valid() && fresh(repr - old(repr)) && sent == old(sent)
      ensures old(state).msgList == [] ==> b.None? && state == old(state)
      ensures old(state).msgList != [] ==>
                var n := |old(state).msgList| - 1;
                && b == Some(old(state).msgMap[old(state).msgList[n]])
                && state == old(state).(msgList := old(state).msgList[..n])
    {
      assert Intact();
      b := msgs.PopOldest();
      state, repr := state.(msgList := msgs.keys), repr + msgs.repr;
      MsgsChanged();
    }

    /** The loop of `rm_msg` over the current neighbours. */
    method RmFromAll(k: MsgKey)
      requires Valid()
      modifies repr
      ensures Valid() && fresh(repr - old(repr)) && sent == old(sent)
      ensures state == old(state).(cur := RmEverywhere(old(state).cur, k))
    {
      assert Intact();
      cur.RmAll(k);
      state, repr := state.(cur := cur.view), repr + cur.repr;
      CurChanged();
    }

    /** `rm_n_msg` */
    method RmNMsg(n: nat)
      requires Valid() && Consistent(state)
      modifies repr
      ensures Valid() && fresh(repr - old(repr)) && sent == old(sent)
      ensures Consistent(state) && state == Purged(old(state), n)
    {
      var i := 0;
      var more := true;
      while i < n && more
        invariant Valid() && fresh(repr - old(repr)) && sent == old(sent) && Consistent(state) && i <= n
        invariant Purged(state, n - i) == Purged(old(state), n)
        invariant !more ==> state.msgList == []
        decreases n - i
      {
        PurgeConsistent(state);
        more := RmMsg();
        i := i + 1;
      }
      PurgedNothing(state, n - i);
    }

    // ---- the neighbour maps ----

    method IsCurrent(a: Addr) returns (found: bool)
      requires Valid()
      ensures found <==> a in state.cur
    {
      assert Intact();
      found := cur.Has(a);
    }

    method IsPotential(a: Addr) returns (found: bool)
      requires Valid()
      ensures found <==> a in state.pot
    {
      assert Intact();
      found := pot.Has(a);
    }

    /** `map_transfer_neighbour(cur, pot, key)` */
    method MoveToPotential(a: Addr)
      requires Valid() && |state.pot| < MAX_BUCKETS
      modifies repr
      ensures Valid() && fresh(repr - old(repr)) && sent == old(sent)
      ensures var (from, to) := Transfer(old(state).cur, old(state).pot, a);
              state == old(state).(cur := from, pot := to)
    {
      assert Intact();
      TransferNeighbour(cur, pot, a);
      state, repr := state.(cur := cur.view, pot := pot.view), repr + cur.repr + pot.repr;
      MapsChanged();
    }

    /** `map_transfer_neighbour(pot, cur, key)` */
    method MoveToCurrent(a: Addr)
      requires Valid() && |state.cur| < MAX_BUCKETS
      modifies repr
      ensures Valid() && fresh(repr - old(repr)) && sent == old(sent)
      ensures var (from, to) := Transfer(old(state).pot, old(state).cur, a);
              state == old(state).(cur := to, pot := from)
    {
      assert Intact();
      TransferNeighbour(pot, cur, a);
      state, repr := state.(cur := cur.view, pot := pot.view), repr + cur.repr + pot.repr;
      MapsChanged();
    }

    /** `map_add_neighbour_entry` of a new entry: current if the Hello could be sent, else potential. */
    method AddEntryFor(a: Addr, ok: bool)
      requires Valid() && RoomFor(state, 1)
      modifies repr
      ensures Valid() && fresh(repr - old(repr)) && sent == old(sent) && state == AddOne(old(state), a, ok)
    {
      if ok {
        AddCurrent(a);
      } else {
        AddPotential(a);
      }
    }

    method AddCurrent(a: Addr)
      requires Valid() && |state.cur| < MAX_BUCKETS
      modifies repr
      ensures Valid() && fresh(repr - old(repr)) && sent == old(sent)
      ensures state == old(state).(cur := AddEntry(old(state).cur, NewEntry(a)))
    {
      assert Intact();
      AddNewEntry(cur, a);
      state, repr := state.(cur := cur.view), repr + cur.repr;
      CurChanged();
    }

    method AddPotential(a: Addr)
      requires Valid() && |state.pot| < MAX_BUCKETS
      modifies repr
      ensures Valid() && fresh(repr - old(repr)) && sent == old(sent)
      ensures state == old(state).(pot := AddEntry(old(state).pot, NewEntry(a)))
    {
      assert Intact();
      AddNewEntry(pot, a);
      cur.Kept();
      state, repr := state.(pot := pot.view), repr + cur.repr + pot.repr;
      MapsChanged();
    }

    // ---- handlers ----

    /** The loop of `add_new_neighbour` over the addresses that the look-up yields. */
    method AddNewNeighbour(resolved: seq<(Addr, bool)>)
      requires Valid() && RoomFor(state, |resolved|)
      modifies repr
      ensures Valid() && fresh(repr - old(repr))
      ensures state == P.AddNewNeighbour(old(state), resolved).0
      ensures sent == old(sent) + P.AddNewNeighbour(old(state), resolved).1
    {
      for i := 0 to |resolved|
        invariant Valid() && fresh(repr - old(repr)) && RoomFor(state, |resolved| - i)
        invariant state == AddFirst(old(state), resolved, i).0
        invariant sent == old(sent) + AddFirst(old(state), resolved, i).1
      {
        var (a, ok) := resolved[i];
        OwnId();
        Associative(old(sent), AddFirst(old(state), resolved, i).1, [Send(a, HelloMsg(false, id, 0))]);
        SendHello(a, false, id, 0);
        AddOneGrows(state, a, ok, |resolved| - i);
        AddEntryFor(a, ok);
      }
    }

    method ProcessHello(isLong: bool, source: uint64, from: Addr, env: Env)
      requires Valid() && RoomFor(state, 1 + |env.resolved|)
      modifies repr
      ensures Valid() && fresh(repr - old(repr))
      ensures state == P.ProcessHello(old(state), isLong, source, from, env).0
      ensures sent == old(sent) + P.ProcessHello(old(state), isLong, source, from, env).1
    {
      OwnId();
      if !isLong {
        SendHello(from, true, source, id);
      }
      var current := IsCurrent(from);
      var potential := IsPotential(from);
      if current {
      } else if !potential {
        AddNewNeighbour(env.resolved);
      } else {
        MoveToCurrent(from);
      }
    }

    method ProcessData(b: DataBody, from: Addr, env: Env)
      requires Valid() && |state.msgMap| < MAX_BUCKETS
      modifies repr
      ensures Valid() && fresh(repr - old(repr))
      ensures state == P.ProcessData(old(state), b, from, env).0
      ensures sent == old(sent) + P.ProcessData(old(state), b, from, env).1
    {
      var ack := NewMsg([NewTlvAck(b.sender, b.nonce)]);
      SendMsg(from, ack);
      var _ := AddMsg(b, env.now);
    }

    method ProcessAck(k: MsgKey, from: Addr)
      requires Valid()
      modifies repr
      ensures Valid() && fresh(repr - old(repr)) && sent == old(sent) && state == P.ProcessAck(old(state), k, from)
    {
      var current := IsCurrent(from);
      if current {
        assert Intact();
        cur.RmFor(from, k);
        state, repr := state.(cur := cur.view), repr + cur.repr;
        CurChanged();
      }
    }

    method ProcessGoAway(from: Addr)
      requires Valid() && RoomFor(state, 0)
      modifies repr
      ensures Valid() && fresh(repr - old(repr)) && sent == old(sent) && state == P.ProcessGoAway(old(state), from)
    {
      var current := IsCurrent(from);
      if current {
        EmptyPending(from);
        MoveToPotential(from);
      }
    }

    /** `dllist_empty` for a current neighbour. */
    method EmptyPending(a: Addr)
      requires Valid() && a in state.cur
      modifies repr
      ensures Valid() && fresh(repr - old(repr)) && sent == old(sent) && state == Owe(old(state), a, [])
    {
      assert Intact();
      cur.EmptyFor(a);
      state, repr := state.(cur := cur.view), repr + cur.repr;
      CurChanged();
    }

    /** The switch of `process_datagram`. */
    method ProcessTlv(t: Tlv, from: Addr, env: Env)
      requires Valid() && RoomFor(state, 1 + |env.resolved|)
      modifies repr
      ensures Valid() && fresh(repr - old(repr))
      ensures state == P.ProcessTlv(old(state), t, from, env).0
      ensures sent == old(sent) + P.ProcessTlv(old(state), t, from, env).1
    {
      match t
      case Hello(_, isLong, source, _) => ProcessHello(isLong, source, from, env);
      case Neighbour(_, _, _) => AddNewNeighbour(env.resolved);
      case Data(_, b) => ProcessData(b, from, env);
      case Ack(_, sender, nonce) => ProcessAck(MsgKey(sender, nonce), from);
      case GoAway(_, _, _) => ProcessGoAway(from);
      case _ =>
    }

    /** The loop of `process_datagram`. */
    method ProcessTlvs(ts: seq<Tlv>, from: Addr, envs: seq<Env>)
      requires Valid() && |envs| == |ts| && RoomFor(state, Growth(envs, 0))
      modifies repr
      ensures Valid() && fresh(repr - old(repr))
      ensures state == ProcessFirst(old(state), ts, from, envs, FirstPadN(ts, 0)).0
      ensures sent == old(sent) + ProcessFirst(old(state), ts, from, envs, FirstPadN(ts, 0)).1
    {
      var i: nat := 0;
      while i < |ts| && !ts[i].PadN?
        invariant i <= FirstPadN(ts, 0) == FirstPadN(ts, i)
        invariant Valid() && fresh(repr - old(repr)) && RoomFor(state, Growth(envs, i))
        invariant state == ProcessFirst(old(state), ts, from, envs, i).0
        invariant sent == old(sent) + ProcessFirst(old(state), ts, from, envs, i).1
      {
        TlvGrows(state, ts[i], from, envs[i], Growth(envs, i + 1));
        Associative(old(sent), ProcessFirst(old(state), ts, from, envs, i).1, P.ProcessTlv(state, ts[i], from, envs[i]).1);
        ProcessTlv(ts[i], from, envs[i]);
        i := i + 1;
      }
    }

    /** `process_datagram`: parses what came in, and handles its TLVs up to the first PadN. */
    method ProcessDatagram(input: array<byte>, from: Addr, envs: seq<Env>)
      requires Valid() && ParseMsg(input[..]).Some? && |envs| == |ParseMsg(input[..]).value.body|
      requires RoomFor(state, Growth(envs, 0))
      modifies repr
      ensures Valid() && fresh(repr - old(repr))
      ensures state == ProcessMsg(old(state), ParseMsg(old(input[..])).value, from, envs).0
      ensures sent == old(sent) + ProcessMsg(old(state), ParseMsg(old(input[..])).value, from, envs).1
    {
      var m := Parse(input);
      if m.magic == MSG_MAGIC && m.version == MSG_VERSION {
        ProcessTlvs(m.body, from, envs);
      }
    }

    // ---- the worker ----

    method SendAll(dest: Addr, ms: seq<Msg>, ghost batches: seq<seq<DataBody>>)
      requires Valid() && AreDataMsgs(ms, batches)
      modifies this`outbox, this`sent
      ensures Valid() && sent == old(sent) + SendsTo(dest, batches)
    {
      for i := 0 to |ms|
        invariant Valid() && sent == old(sent) + SendsTo(dest, batches[..i])
      {
        SendMsg(dest, ms[i]);
        assert SendsTo(dest, batches[..i + 1]) == SendsTo(dest, batches[..i]) + [Send(dest, ms[i])];
      }
      assert batches[..|ms|] == batches;
    }

    /** The body of the loop of `worker_iter_nbr`. */
    method VisitNeighbour(a: Addr, now: int, random: nat -> nat) returns (ghost v: NbrPass)
      requires Valid() && a in state.cur && RoomFor(state, 0)
      requires TableHolds(state.cur[a].pending, now, state.cur[a].pmtu)
      modifies repr
      ensures Valid() && fresh(repr - old(repr)) && v.addr == a && VisitOk(old(state), v, now)
      ensures state == WorkerVisit(old(state), a, v.queue, v.batches, v.status).0
      ensures sent == old(sent) + WorkerVisit(old(state), a, v.queue, v.batches, v.status).1
    {
      var dest, ms, status;
      ghost var q', batches;
      dest, ms, status, q', batches := PassPending(a, now, random);
      SendAll(dest, ms, batches);
      if status < 0 {
        EvictNeighbour(a, dest);
      }
      v := NbrPass(a, q', batches, status);
    }

    /** `worker_iter_msg` for a current neighbour. */
    method PassPending(a: Addr, now: int, random: nat -> nat)
        returns (dest: Addr, ms: seq<Msg>, status: int, ghost q': Queue, ghost batches: seq<seq<DataBody>>)
      requires Valid() && a in state.cur && TableHolds(state.cur[a].pending, now, state.cur[a].pmtu)
      modifies repr
      ensures Valid() && fresh(repr - old(repr)) && sent == old(sent) && state == Owe(old(state), a, q')
      ensures PassOk(old(state).cur[a].pending, now, old(state).cur[a].pmtu, q', batches, status)
      ensures dest == old(state).cur[a].addr && AreDataMsgs(ms, batches)
    {
      assert Intact();
      dest, ms, status, q', batches := cur.PassFor(a, now, random);
      state, repr := state.(cur := cur.view), repr + cur.repr;
      CurChanged();
    }

    method EvictNeighbour(a: Addr, dest: Addr)
      requires Valid() && a in state.cur && RoomFor(state, 0)
      modifies repr
      ensures Valid() && fresh(repr - old(repr)) && state == Evict(old(state), a)
      ensures sent == old(sent) + [Send(dest, GO_AWAY_MSG)]
    {
      EmptyPending(a);
      var goAway := NewMsg([NewTlvGoAway(2, [])]);
      SendMsg(dest, goAway);
      MoveToPotential(a);
    }

    /** `worker_iter_nbr`, over the neighbours that are current when it starts. */
    method WorkerIterNbr(now: int, random: Addr -> nat -> nat) returns (ghost visits: seq<NbrPass>)
      requires Valid() && RoomFor(state, 0)
      requires forall a :: a in state.cur ==> TableHolds(state.cur[a].pending, now, state.cur[a].pmtu)
      modifies repr
      ensures Valid() && fresh(repr - old(repr))
      ensures forall i :: 0 <= i < |visits| ==> VisitOk(old(state), visits[i], now)
      ensures NoDup(Visited(visits)) && Elems(Visited(visits)) == old(state).cur.Keys
      ensures state == AfterVisits(old(state), visits, |visits|).0
      ensures sent == old(sent) + AfterVisits(old(state), visits, |visits|).1
    {
      assert Intact();
      visits := [];
      var at := cur.Addresses();
      for i := 0 to |at|
        invariant Valid() && fresh(repr - old(repr)) && RoomFor(state, 0)
        invariant SoFar(old(state), state, Elems(at[i..]), visits, now)
        invariant sent == old(sent) + AfterVisits(old(state), visits, |visits|).1
      {
        ElemsRest(at, i);
        visits := VisitNext(at[i], now, random(at[i]), old(state), old(sent), Elems(at[i..]), visits);
      }
    }

    /** The body of the loop, after the visits that led from `s0` to here. */
    method VisitNext(a: Addr, now: int, random: nat -> nat, ghost s0: Peer, ghost sent0: seq<Send>,
                     ghost left: set<Addr>, ghost visits0: seq<NbrPass>)
        returns (ghost visits: seq<NbrPass>)
      requires Valid() && SoFar(s0, state, left, visits0, now) && a in left && RoomFor(state, 0)
      requires sent == sent0 + AfterVisits(s0, visits0, |visits0|).1
      requires TableHolds(s0.cur[a].pending, now, s0.cur[a].pmtu)
      modifies repr
      ensures Valid() && fresh(repr - old(repr)) && SoFar(s0, state, left - {a}, visits, now) && RoomFor(state, 0)
      ensures sent == sent0 + AfterVisits(s0, visits, |visits|).1
    {
      ghost var s := state;
      ghost var v := VisitNeighbour(a, now, random);
      VisitFits(s, v);
      OneMoreVisit(s0, s, left, visits0, v, now);
      visits := visits0 + [v];
      Associative(sent0, AfterVisits(s0, visits0, |visits0|).1, WorkerVisit(s, a, v.queue, v.batches, v.status).1);
    }
  }

  /** The buffer of `send_msg`, and what it holds in the end. */
  method Serialised(m: Msg) returns (bytes: Bytes)
    ensures bytes == PrintMsg(m)
  {
    var b := new Sbuff();
    b.SerialMsg(m);
    assert b.Log() == PrintMsg(m);
    bytes := b.data[..b.realSize];
  }

  /** The parsing of `process_datagram`. */
  method Parse(input: array<byte>) returns (m: Msg)
    requires ParseMsg(input[..]).Some?
    ensures ParseMsg(input[..]) == Some(m)
  {
    var buffer := new Sbuff.FromData(input);
    assert buffer.Unread() == input[..];
    m := buffer.DserialMsg();
  }
}
