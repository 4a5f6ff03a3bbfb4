// The state of one peer and what its handlers do to it, on values: src/connect.c, src/msg_list.c, src/neighbour_map.c
// and the eviction of src/worker.c.

module PeerModel {
  import opened Codec
  import opened PendingQueue
  import opened Sequences
  import opened Wire
  import opened Wrappers

  datatype Addr = Addr(ip: Ip, port: uint16)

  /** `neighbour_entry_t` */
  datatype Entry = Entry(addr: Addr, pmtu: nat, pending: Queue)

  type Neighbours = map<Addr, Entry>

  /** The shared resources of a peer, its client id, and the log of what `print_message` has shown. */
  datatype Peer = Peer(id: uint64, cur: Neighbours, pot: Neighbours,
                       msgMap: map<MsgKey, DataBody>, msgList: seq<MsgKey>, display: seq<DataBody>)

  datatype Send = Send(dest: Addr, msg: Msg)

  /** What the outside answers: the clock, and the addresses that a look-up yields with whether each could be sent to. */
  datatype Env = Env(now: int, resolved: seq<(Addr, bool)>)

  // ---- neighbour maps ----

  function NewEntry(a: Addr): Entry {
    Entry(a, PMTU, [])
  }

  function AddEntry(m: Neighbours, e: Entry): Neighbours {
    if e.addr in m then m else m[e.addr := e]
  }

  function Transfer(from: Neighbours, to: Neighbours, key: Addr): (Neighbours, Neighbours) {
    if key in from then (from - {key}, AddEntry(to, from[key])) else (from, to)
  }

  function HelloMsg(isLong: bool, source: uint64, dest: uint64): Msg {
    MsgOf([NewTlvHello(isLong, source, dest)])
  }

  function AddOne(s: Peer, a: Addr, ok: bool): Peer {
    if ok then s.(cur := AddEntry(s.cur, NewEntry(a))) else s.(pot := AddEntry(s.pot, NewEntry(a)))
  }

  /** The loop of `add_new_neighbour`, up to the `n`-th of the addresses that the look-up yields. */
  function AddFirst(s: Peer, resolved: seq<(Addr, bool)>, n: nat): (Peer, seq<Send>)
    requires n <= |resolved|
  {
    if n == 0 then (s, [])
    else
      var (s1, sends) := AddFirst(s, resolved, n - 1);
      var (a, ok) := resolved[n - 1];
      (AddOne(s1, a, ok), sends + [Send(a, HelloMsg(false, s1.id, 0))])
  }

  function AddNewNeighbour(s: Peer, resolved: seq<(Addr, bool)>): (Peer, seq<Send>) {
    AddFirst(s, resolved, |resolved|)
  }

  function WithQueue(m: Neighbours, a: Addr, q: Queue): Neighbours
    requires a in m
  {
    m[a := m[a].(pending := q)]
  }

  /** `q` is what the current neighbour `a` is owed now. */
  function Owe(s: Peer, a: Addr, q: Queue): Peer
    requires a in s.cur
  {
    s.(cur := WithQueue(s.cur, a, q))
  }

  /** `dllist_empty` and the transfer of a current neighbour to the potential ones. */
  function Evict(s: Peer, a: Addr): Peer
    requires a in s.cur
  {
    var (cur, pot) := Transfer(Owe(s, a, []).cur, s.pot, a);
    s.(cur := cur, pot := pot)
  }

  // ---- messages ----

  function FanOut(cur: Neighbours, b: DataBody, now: int): Neighbours {
    map a | a in cur :: cur[a].(pending := [NewPending(b, now)] + cur[a].pending)
  }

  function AddMsg(s: Peer, b: DataBody, now: int): Peer {
    if KeyOf(b) in s.msgList then s
    else s.(msgMap := s.msgMap[KeyOf(b) := b], msgList := [KeyOf(b)] + s.msgList,
            cur := FanOut(s.cur, b, now), display := s.display + [b])
  }

  function RmEverywhere(cur: Neighbours, k: MsgKey): Neighbours {
    map a | a in cur :: cur[a].(pending := RmKey(cur[a].pending, k))
  }

  /** `rm_msg`: forgets the oldest message, if there is one. */
  function RmMsg(s: Peer): Peer
    requires s.msgList != [] ==> s.msgList[|s.msgList| - 1] in s.msgMap
  {
    if s.msgList == [] then s
    else
      var n := |s.msgList| - 1;
      var k := KeyOf(s.msgMap[s.msgList[n]]);
      s.(msgList := s.msgList[..n], cur := RmEverywhere(s.cur, k))
  }

  // ---- handlers ----

  /** As coded, the answer to a short Hello carries the two ids the wrong way round. */
  function ProcessHello(s: Peer, isLong: bool, source: uint64, from: Addr, env: Env): (Peer, seq<Send>) {
    var answer := if isLong then [] else [Send(from, HelloMsg(true, source, s.id))];
    if from in s.cur then (s, answer)
    else if from !in s.pot then
      var (s', sends) := AddNewNeighbour(s, env.resolved);
      (s', answer + sends)
    else
      var (pot, cur) := Transfer(s.pot, s.cur, from);
      (s.(cur := cur, pot := pot), answer)
  }

  function ProcessData(s: Peer, b: DataBody, from: Addr, env: Env): (Peer, seq<Send>) {
    (AddMsg(s, b, env.now), [Send(from, MsgOf([NewTlvAck(b.sender, b.nonce)]))])
  }

  function ProcessAck(s: Peer, k: MsgKey, from: Addr): Peer {
    if from in s.cur then Owe(s, from, RmKey(s.cur[from].pending, k)) else s
  }

  function ProcessGoAway(s: Peer, from: Addr): Peer {
    if from in s.cur then Evict(s, from) else s
  }

  function ProcessTlv(s: Peer, t: Tlv, from: Addr, env: Env): (Peer, seq<Send>) {
    match t
    case Hello(_, isLong, source, _) => ProcessHello(s, isLong, source, from, env)
    case Neighbour(_, _, _) => AddNewNeighbour(s, env.resolved)
    case Data(_, b) => ProcessData(s, b, from, env)
    case Ack(_, sender, nonce) => (ProcessAck(s, MsgKey(sender, nonce), from), [])
    case GoAway(_, _, _) => (ProcessGoAway(s, from), [])
    case _ => (s, [])
  }

  /** From position `i` on, the first PadN, which ends the loop of `process_datagram`. */
  function FirstPadN(ts: seq<Tlv>, i: nat): (r: nat)
    requires i <= |ts|
    ensures i <= r <= |ts| && (r < |ts| ==> ts[r].PadN?) && forall j :: i <= j < r ==> !ts[j].PadN?
    decreases |ts| - i
  {
    if i == |ts| || ts[i].PadN? then i else FirstPadN(ts, i + 1)
  }

  function ProcessFirst(s: Peer, ts: seq<Tlv>, from: Addr, envs: seq<Env>, n: nat): (Peer, seq<Send>)
    requires n <= |ts| == |envs|
  {
    if n == 0 then (s, [])
    else
      var (s1, sends1) := ProcessFirst(s, ts, from, envs, n - 1);
      var (s2, sends2) := ProcessTlv(s1, ts[n - 1], from, envs[n - 1]);
      (s2, sends1 + sends2)
  }

  predicate Accepted(m: Msg) {
    m.magic == MSG_MAGIC && m.version == MSG_VERSION
  }

  function ProcessMsg(s: Peer, m: Msg, from: Addr, envs: seq<Env>): (Peer, seq<Send>)
    requires |envs| == |m.body|
  {
    if Accepted(m) then ProcessFirst(s, m.body, from, envs, FirstPadN(m.body, 0)) else (s, [])
  }

  // ---- the worker and one current neighbour ----

  function SendsTo(a: Addr, batches: seq<seq<DataBody>>): seq<Send> {
    seq(|batches|, i requires 0 <= i < |batches| => Send(a, DataMsg(batches[i])))
  }

  const GO_AWAY_MSG: Msg := MsgOf([NewTlvGoAway(2, [])])

  /** `worker_iter_msg` for the neighbour, and its eviction when that returns a negative status. */
  function WorkerVisit(s: Peer, a: Addr, q': Queue, batches: seq<seq<DataBody>>, status: int): (Peer, seq<Send>)
    requires a in s.cur
  {
    var s1, to := Owe(s, a, q'), s.cur[a].addr;
    if status < 0 then (Evict(s1, a), SendsTo(to, batches) + [Send(to, GO_AWAY_MSG)]) else (s1, SendsTo(to, batches))
  }

  // ---- the worker's visits ----

  /** What the worker did for one neighbour. */
  datatype NbrPass = NbrPass(addr: Addr, queue: Queue, batches: seq<seq<DataBody>>, status: int)

  /** A pass over the list of a current neighbour, as it is in `s`. */
  ghost predicate VisitOk(s: Peer, v: NbrPass, now: int) {
    v.addr in s.cur && PassOk(s.cur[v.addr].pending, now, s.cur[v.addr].pmtu, v.queue, v.batches, v.status)
  }

  /** The first `n` of the visits, one after the other. */
  ghost function AfterVisits(s: Peer, visits: seq<NbrPass>, n: nat): (Peer, seq<Send>)
    requires n <= |visits|
  {
    if n == 0 then (s, [])
    else
      var (s1, sends1) := AfterVisits(s, visits, n - 1);
      var v := visits[n - 1];
      if v.addr !in s1.cur then (s1, sends1)
      else
        var (s2, sends2) := WorkerVisit(s1, v.addr, v.queue, v.batches, v.status);
        (s2, sends1 + sends2)
  }

  ghost function Visited(visits: seq<NbrPass>): seq<Addr> {
    seq(|visits|, i requires 0 <= i < |visits| => visits[i].addr)
  }

  lemma {:induction false} AfterVisitsPrefix(s: Peer, visits: seq<NbrPass>, v: NbrPass, n: nat)
    requires n <= |visits|
    ensures AfterVisits(s, visits + [v], n) == AfterVisits(s, visits, n)
  {
    if n > 0 {
      AfterVisitsPrefix(s, visits, v, n - 1);
    }
  }

  /** The visits led from `s0` to `s`, and the neighbours that are left are still as they were. */
  ghost predicate SoFar(s0: Peer, s: Peer, left: set<Addr>, visits: seq<NbrPass>, now: int) {
    && (forall a :: a in left ==> a in s.cur && a in s0.cur && s.cur[a] == s0.cur[a])
    && (forall i :: 0 <= i < |visits| ==> VisitOk(s0, visits[i], now))
    && NoDup(Visited(visits)) && Elems(Visited(visits)) == s0.cur.Keys - left
    && s == AfterVisits(s0, visits, |visits|).0
  }

  lemma {:induction false} AfterVisitsSoFar(s: Peer, visits: seq<NbrPass>, n: nat, now: int)
    requires n <= |visits| && NoDup(Visited(visits))
    requires forall i :: 0 <= i < |visits| ==> VisitOk(s, visits[i], now)
    ensures forall i :: n <= i < |visits| ==> VisitOk(AfterVisits(s, visits, n).0, visits[i], now)
  {
    if n > 0 {
      AfterVisitsSoFar(s, visits, n - 1, now);
      var s1 := AfterVisits(s, visits, n - 1).0;
      forall i | n <= i < |visits| ensures VisitOk(AfterVisits(s, visits, n).0, visits[i], now) {
        assert VisitOk(s1, visits[i], now) && VisitOk(s1, visits[n - 1], now);
        assert Apart(Visited(visits), n - 1, i);
      }
    }
  }

  lemma OneMoreVisit(s0: Peer, s: Peer, left: set<Addr>, visits: seq<NbrPass>, v: NbrPass, now: int)
    requires SoFar(s0, s, left, visits, now) && v.addr in left && VisitOk(s, v, now)
    ensures var (s', sends) := WorkerVisit(s, v.addr, v.queue, v.batches, v.status);
            && SoFar(s0, s', left - {v.addr}, visits + [v], now)
            && AfterVisits(s0, visits + [v], |visits| + 1) == (s', AfterVisits(s0, visits, |visits|).1 + sends)
  {
    AfterVisitsPrefix(s0, visits, v, |visits|);
    assert Visited(visits + [v]) == Visited(visits) + [v.addr];
    assert v.addr !in Elems(Visited(visits));
    NoDupConcat(Visited(visits), [v.addr]);
    assert Elems(Visited(visits + [v])) == Elems(Visited(visits)) + {v.addr};
  }

  // ---- store and pending lists stay consistent ----

  ghost predicate QueueConsistent(q: Queue, list: seq<MsgKey>) {
    && DistinctKeys(q)
    && forall k :: k in Keys(q) ==> k in list
  }

  ghost predicate Consistent(s: Peer) {
    && NoDup(s.msgList)
    && (forall k :: k in s.msgList ==> k in s.msgMap && KeyOf(s.msgMap[k]) == k)
    && (forall a :: a in s.cur ==>
          s.cur[a].addr == a && s.cur[a].pmtu == PMTU && QueueConsistent(s.cur[a].pending, s.msgList))
    && (forall a :: a in s.pot ==> s.pot[a] == NewEntry(a))
  }

  lemma KeysCons(e: Pending, q: Queue)
    ensures Keys([e] + q) == [KeyOf(e.body)] + Keys(q)
  {
  }

  lemma AddMsgConsistent(s: Peer, b: DataBody, now: int)
    requires Consistent(s)
    ensures Consistent(AddMsg(s, b, now))
    ensures KeyOf(b) in AddMsg(s, b, now).msgList
  {
    var k := KeyOf(b);
    if k !in s.msgList {
      var s' := AddMsg(s, b, now);
      NoDupConcat([k], s.msgList);
      forall a | a in s'.cur ensures QueueConsistent(s'.cur[a].pending, s'.msgList) {
        var e, q := NewPending(b, now), s.cur[a].pending;
        KeysCons(e, q);
        NoDupConcat([k], Keys(q));
      }
    }
  }

  lemma {:induction false} AddFirstConsistent(s: Peer, resolved: seq<(Addr, bool)>, n: nat)
    requires Consistent(s) && n <= |resolved|
    ensures Consistent(AddFirst(s, resolved, n).0)
  {
    if n > 0 {
      AddFirstConsistent(s, resolved, n - 1);
      assert Keys([]) == [];
    }
  }

  lemma RmKeyConsistent(q: Queue, k: MsgKey, list: seq<MsgKey>)
    requires QueueConsistent(q, list)
    ensures QueueConsistent(RmKey(q, k), list) && !HasKey(RmKey(q, k), k)
  {
    RmKeyExact(q, k);
    forall k' | k' in Keys(RmKey(q, k)) ensures k' in list {
      assert HasKey(RmKey(q, k), k');
    }
  }

  lemma EvictConsistent(s: Peer, a: Addr)
    requires Consistent(s) && a in s.cur
    ensures Consistent(Evict(s, a)) && a !in Evict(s, a).cur
  {
  }

  /** Every handler keeps a peer consistent. */
  lemma HandlerConsistent(s: Peer, t: Tlv, from: Addr, env: Env)
    requires Consistent(s)
    ensures Consistent(ProcessTlv(s, t, from, env).0)
  {
    match t
    case Hello(_, isLong, source, _) =>
      AddFirstConsistent(s, env.resolved, |env.resolved|);
      assert Keys([]) == [];
    case Neighbour(_, _, _) =>
      AddFirstConsistent(s, env.resolved, |env.resolved|);
    case Data(_, b) =>
      AddMsgConsistent(s, b, env.now);
    case Ack(_, sender, nonce) =>
      if from in s.cur {
        RmKeyConsistent(s.cur[from].pending, MsgKey(sender, nonce), s.msgList);
      }
    case GoAway(_, _, _) =>
      if from in s.cur {
        EvictConsistent(s, from);
      }
    case _ =>
  }

  lemma WorkerConsistent(s: Peer, a: Addr, now: int, q': Queue, batches: seq<seq<DataBody>>, status: int)
    requires Consistent(s) && a in s.cur && PassOk(s.cur[a].pending, now, s.cur[a].pmtu, q', batches, status)
    ensures Consistent(Owe(s, a, q'))
    ensures Consistent(WorkerVisit(s, a, q', batches, status).0)
  {
    if s.cur[a].pending != [] {
      PassKeepsKeys(s.cur[a].pending, q', now);
    }
    var s1 := Owe(s, a, q');
    if status < 0 {
      EvictConsistent(s1, a);
    }
  }

  /** A purged message is pending nowhere, and the rest stays consistent. */
  lemma PurgeConsistent(s: Peer)
    requires Consistent(s)
    ensures Consistent(RmMsg(s))
    ensures s.msgList != [] ==>
              var k := s.msgList[|s.msgList| - 1];
              k !in RmMsg(s).msgList && forall a :: a in RmMsg(s).cur ==> !HasKey(RmMsg(s).cur[a].pending, k)
  {
    if s.msgList != [] {
      var n := |s.msgList| - 1;
      var k, s' := s.msgList[n], RmMsg(s);
      NoDupWithout(s.msgList, n);
      assert s.msgList[..n] + s.msgList[n + 1..] == s.msgList[..n];
      forall a | a in s'.cur
        ensures QueueConsistent(s'.cur[a].pending, s'.msgList) && !HasKey(s'.cur[a].pending, k)
      {
        RmKeyExact(s.cur[a].pending, k);
        forall k' | k' in Keys(s'.cur[a].pending) ensures k' in s'.msgList {
          assert HasKey(s'.cur[a].pending, k');
          assert k' in s.msgList && k' != k;
        }
      }
    }
  }

  /** `rm_n_msg` */
  ghost function Purged(s: Peer, n: nat): Peer
    requires Consistent(s)
    decreases n
  {
    if n == 0 then s else
      PurgeConsistent(s);
      Purged(RmMsg(s), n - 1)
  }

  lemma {:induction false} PurgedNothing(s: Peer, n: nat)
    requires Consistent(s)
    ensures s.msgList == [] || n == 0 ==> Purged(s, n) == s
  {
    if n > 0 && s.msgList == [] {
      PurgedNothing(s, n - 1);
    }
  }

  /** A message that comes in again after it has been purged is shown again. */
  lemma PurgeForgets(id: uint64, b: DataBody)
    ensures var s := AddMsg(Peer(id, map[], map[], map[], [], []), b, 0);
            AddMsg(RmMsg(s), b, 1).display == [b, b]
  {
    var s0 := Peer(id, map[], map[], map[], [], []);
    var s := AddMsg(s0, b, 0);
    assert s.msgList == [KeyOf(b)] && RmMsg(s).msgList == [];
  }

  // ---- what the long Hello and the empty message come to ----

  /** The answer to a short Hello names the peer that asked as its source; that is right only if the two share an id. */
  lemma AnswerIsSwapped(s: Peer, source: uint64, from: Addr, env: Env)
    ensures var sends := ProcessHello(s, false, source, from, env).1;
            && sends != [] && sends[0].dest == from && |sends[0].msg.body| == 1
            && sends[0].msg.body[0].Hello? && sends[0].msg.body[0].source == source && sends[0].msg.body[0].dest == s.id
            && (sends[0].msg == HelloMsg(true, s.id, source) <==> source == s.id)
  {
    var right := MsgOf([NewTlvHello(true, s.id, source)]);
    assert right.body[0].source == s.id;
  }

  /** But no peer takes notice of the ids of a long Hello. */
  lemma LongHelloIdsUnread(s: Peer, t: Tlv, t': Tlv, from: Addr, env: Env)
    requires t.Hello? && t.isLong && t'.Hello? && t'.isLong
    ensures ProcessTlv(s, t, from, env) == ProcessTlv(s, t', from, env)
  {
  }

  /** The message that a pass without due entries sends takes four bytes, comes back as it is, and has no effect. */
  lemma EmptyMessageHasNoEffect(s: Peer, from: Addr)
    ensures |PrintMsg(DataMsg([]))| == 4 && ParseMsg(PrintMsg(DataMsg([]))) == Some(DataMsg([]))
    ensures ProcessMsg(s, DataMsg([]), from, []) == (s, [])
  {
    MsgRoundTrip(DataMsg([]));
  }

  // ---- known peers are never forgotten ----

  ghost function Known(s: Peer): set<Addr> {
    s.cur.Keys + s.pot.Keys
  }

  /** A transfer keeps the union of the two maps exactly, even when the destination holds the key already. */
  lemma TransferKeepsUnion(from: Neighbours, to: Neighbours, key: Addr)
    requires forall a :: a in from ==> from[a].addr == a
    ensures var (from', to') := Transfer(from, to, key);
            && from'.Keys + to'.Keys == from.Keys + to.Keys
            && from'.Keys == from.Keys - {key}
            && (key in from ==> key in to')
            && (key in from ==> to'[key] == if key in to then to[key] else from[key])
            && (forall a :: a in from' ==> from'[a] == from[a]) && forall a :: a in to && a != key ==> to'[a] == to[a]
  {
  }

  lemma {:induction false} AddingKeepsKnown(s: Peer, resolved: seq<(Addr, bool)>, n: nat)
    requires n <= |resolved|
    ensures Known(s) <= Known(AddFirst(s, resolved, n).0)
    ensures forall i :: 0 <= i < n ==> resolved[i].0 in Known(AddFirst(s, resolved, n).0)
  {
    if n > 0 {
      AddingKeepsKnown(s, resolved, n - 1);
    }
  }

  lemma EvictKeepsKnown(s: Peer, a: Addr)
    requires Consistent(s) && a in s.cur
    ensures Known(Evict(s, a)) == Known(s)
  {
    var cur := Owe(s, a, []).cur;
    TransferKeepsUnion(cur, s.pot, a);
  }

  lemma HandlerKeepsKnown(s: Peer, t: Tlv, from: Addr, env: Env)
    requires Consistent(s)
    ensures Known(s) <= Known(ProcessTlv(s, t, from, env).0)
  {
    match t
    case Hello(_, isLong, source, _) =>
      AddingKeepsKnown(s, env.resolved, |env.resolved|);
      TransferKeepsUnion(s.pot, s.cur, from);
    case Neighbour(_, _, _) =>
      AddingKeepsKnown(s, env.resolved, |env.resolved|);
    case GoAway(_, _, _) =>
      if from in s.cur {
        EvictKeepsKnown(s, from);
      }
    case _ =>
  }

  lemma WorkerKeepsKnown(s: Peer, a: Addr, q': Queue, batches: seq<seq<DataBody>>, status: int)
    requires forall a' :: a' in s.cur ==> s.cur[a'].addr == a'
    requires a in s.cur
    ensures Known(WorkerVisit(s, a, q', batches, status).0) == Known(s)
  {
    var s1 := Owe(s, a, q');
    TransferKeepsUnion(Owe(s1, a, []).cur, s1.pot, a);
  }
}
