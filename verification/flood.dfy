// The network: peers that run the handlers of peer.dfy, and datagrams that may be lost, duplicated and reordered.

module Flood {
  import opened Bits
  import opened Codec
  import opened PeerModel
  import opened PendingQueue
  import opened Sequences
  import opened Wire
  import opened Wrappers

  datatype Packet = Packet(src: Addr, dst: Addr, bytes: Bytes)

  /**
   * The packets are all that were ever sent: one may be handled any number of times, at any time, or never. `originated`
   * is a history variable: the body that was introduced under each key.
   */
  datatype Net = Net(peers: map<Addr, Peer>, packets: set<Packet>, originated: map<MsgKey, DataBody>, clock: int)

  datatype Step =
    | Tick(seconds: nat)
    | Originate(n: Addr, body: DataBody)
    | LookUp(n: Addr, resolved: seq<(Addr, bool)>)
    | Handle(packet: Packet, i: nat, resolved: seq<(Addr, bool)>)
    | Visit(n: Addr, a: Addr, q': Queue, batches: seq<seq<DataBody>>, status: int)

  function Printed(n: Addr, sends: seq<Send>): set<Packet> {
    set i | 0 <= i < |sends| :: Packet(n, sends[i].dest, PrintMsg(sends[i].msg))
  }

  function After(s: Net, n: Addr, r: (Peer, seq<Send>)): Net {
    s.(peers := s.peers[n := r.0], packets := s.packets + Printed(n, r.1))
  }

  /** The TLV at position `i` of the datagram, if the receiver gets to handle it. */
  function HandledTlv(p: Packet, i: nat): Option<Tlv> {
    match ParseMsg(p.bytes)
    case None => None
    case Some(m) =>
      if Accepted(m) && i < |m.body| && (forall j :: 0 <= j <= i ==> !m.body[j].PadN?) then Some(m.body[i]) else None
  }

  ghost predicate Enabled(s: Net, step: Step) {
    match step
    case Tick(_) => true
    case Originate(n, body) => n in s.peers && Sendable(body) && KeyOf(body) !in s.originated
    case LookUp(n, _) => n in s.peers
    case Handle(p, i, _) => p in s.packets && p.dst in s.peers && HandledTlv(p, i).Some?
    case Visit(n, a, q', batches, status) =>
      && n in s.peers && a in s.peers[n].cur
      && PassOk(s.peers[n].cur[a].pending, s.clock, s.peers[n].cur[a].pmtu, q', batches, status)
  }

  ghost function Do(s: Net, step: Step): Net
    requires Enabled(s, step)
  {
    match step
    case Tick(seconds) => s.(clock := s.clock + seconds)
    case Originate(n, body) =>
      After(s, n, (AddMsg(s.peers[n], body, s.clock), [])).(originated := s.originated[KeyOf(body) := body])
    case LookUp(n, resolved) => After(s, n, AddNewNeighbour(s.peers[n], resolved))
    case Handle(p, i, resolved) =>
      After(s, p.dst, ProcessTlv(s.peers[p.dst], HandledTlv(p, i).value, p.src, Env(s.clock, resolved)))
    case Visit(n, a, q', batches, status) => After(s, n, WorkerVisit(s.peers[n], a, q', batches, status))
  }

  ghost predicate Init(s: Net) {
    && (forall n :: n in s.peers ==> s.peers[n] == Peer(s.peers[n].id, map[], map[], map[], [], []))
    && s.packets == {} && s.originated == map[]
  }

  ghost predicate Next(s: Net, s': Net) {
    exists step :: Enabled(s, step) && s' == Do(s, step)
  }

  ghost predicate IsRun(run: seq<Net>) {
    && |run| > 0 && Init(run[0])
    && forall i {:trigger NextAt(run, i)} :: 0 <= i < |run| - 1 ==> NextAt(run, i)
  }

  ghost predicate NextAt(run: seq<Net>, i: nat)
    requires i + 1 < |run|
  {
    Next(run[i], run[i + 1])
  }

  /** The step that led to a state of a run. */
  lemma StepTo(run: seq<Net>, i: nat) returns (step: Step)
    requires IsRun(run) && 0 < i < |run|
    ensures Enabled(run[i - 1], step) && run[i] == Do(run[i - 1], step)
  {
    assert NextAt(run, i - 1);
    step :| Enabled(run[i - 1], step) && run[i] == Do(run[i - 1], step);
  }

  // ---- what holds in every reachable state ----

  /** The body is the one that was originated under its key. */
  predicate Genuine(b: DataBody, originated: map<MsgKey, DataBody>) {
    KeyOf(b) in originated && originated[KeyOf(b)] == b && Sendable(b)
  }

  ghost predicate QueueGenuine(q: Queue, originated: map<MsgKey, DataBody>, now: int) {
    AllTimed(q, now) && forall i :: 0 <= i < |q| ==> Genuine(q[i].body, originated)
  }

  /** A peer shows each stored message once, in the order it came in. */
  ghost predicate ShownOnce(s: Peer) {
    && |s.display| == |s.msgList|
    && forall i :: 0 <= i < |s.display| ==> KeyOf(s.display[i]) == s.msgList[|s.msgList| - 1 - i]
  }

  ghost predicate PeerOk(s: Peer, originated: map<MsgKey, DataBody>, now: int) {
    && Consistent(s)
    && ShownOnce(s)
    && (forall k :: k in s.msgMap ==> Genuine(s.msgMap[k], originated) && KeyOf(s.msgMap[k]) == k)
    && (forall i :: 0 <= i < |s.display| ==> Genuine(s.display[i], originated))
    && (forall a :: a in s.cur ==> QueueGenuine(s.cur[a].pending, originated, now))
  }

  /** A TLV in flight: a Data carries a genuine body, and an Ack comes from a peer that has stored the message. */
  ghost predicate TlvOk(t: Tlv, src: Addr, peers: map<Addr, Peer>, originated: map<MsgKey, DataBody>) {
    match t
    case Data(_, b) => Genuine(b, originated)
    case Ack(_, sender, nonce) => src in peers && MsgKey(sender, nonce) in peers[src].msgList
    case _ => true
  }

  const REQ_LEN: nat := 4096

  /** A datagram in flight fits the receive buffer and can be parsed. */
  ghost predicate PacketOk(p: Packet, peers: map<Addr, Peer>, originated: map<MsgKey, DataBody>) {
    && |p.bytes| <= REQ_LEN
    && ParseMsg(p.bytes).Some?
    && forall i :: 0 <= i < |ParseMsg(p.bytes).value.body| ==>
         TlvOk(ParseMsg(p.bytes).value.body[i], p.src, peers, originated)
  }

  ghost predicate Inv(s: Net) {
    && (forall n :: n in s.peers ==> PeerOk(s.peers[n], s.originated, s.clock))
    && (forall p :: p in s.packets ==> PacketOk(p, s.peers, s.originated))
  }

  // ---- handlers keep a peer sound ----

  ghost predicate Extends(originated: map<MsgKey, DataBody>, originated': map<MsgKey, DataBody>) {
    forall k :: k in originated ==> k in originated' && originated'[k] == originated[k]
  }

  lemma PeerOkLater(s: Peer, originated: map<MsgKey, DataBody>, now: int, originated': map<MsgKey, DataBody>, now': int)
    requires PeerOk(s, originated, now) && Extends(originated, originated') && now <= now'
    ensures PeerOk(s, originated', now')
  {
    forall a | a in s.cur ensures QueueGenuine(s.cur[a].pending, originated', now') {
      assert QueueGenuine(s.cur[a].pending, originated, now);
    }
  }

  lemma AddMsgOk(s: Peer, b: DataBody, originated: map<MsgKey, DataBody>, now: int)
    requires PeerOk(s, originated, now) && Genuine(b, originated)
    ensures PeerOk(AddMsg(s, b, now), originated, now)
    ensures forall k :: k in AddMsg(s, b, now).msgList <==> k in s.msgList || k == KeyOf(b)
  {
    var s' := AddMsg(s, b, now);
    AddMsgConsistent(s, b, now);
    if KeyOf(b) !in s.msgList {
      assert Timed(NewPending(b, now), now);
      forall a | a in s'.cur ensures QueueGenuine(s'.cur[a].pending, originated, now) {
        assert QueueGenuine(s.cur[a].pending, originated, now);
        assert s'.cur[a].pending == [NewPending(b, now)] + s.cur[a].pending;
      }
    }
  }

  lemma AddNewNeighbourOk(s: Peer, resolved: seq<(Addr, bool)>, originated: map<MsgKey, DataBody>, now: int)
    requires PeerOk(s, originated, now)
    ensures PeerOk(AddNewNeighbour(s, resolved).0, originated, now)
    ensures AddNewNeighbour(s, resolved).0.msgList == s.msgList
    ensures forall p :: p in s.cur ==>
              p in AddNewNeighbour(s, resolved).0.cur && AddNewNeighbour(s, resolved).0.cur[p] == s.cur[p]
    ensures SendsOk(AddNewNeighbour(s, resolved).1, s.msgList, originated)
  {
    AddFirstOk(s, resolved, |resolved|, originated, now);
  }

  lemma AddOneOk(s: Peer, a: Addr, ok: bool, originated: map<MsgKey, DataBody>, now: int)
    requires PeerOk(s, originated, now)
    ensures PeerOk(AddOne(s, a, ok), originated, now) && AddOne(s, a, ok).msgList == s.msgList
    ensures forall p :: p in s.cur ==> p in AddOne(s, a, ok).cur && AddOne(s, a, ok).cur[p] == s.cur[p]
  {
    assert Keys([]) == [];
    assert Consistent(AddOne(s, a, ok));
  }

  lemma {:induction false} AddFirstOk(s: Peer, resolved: seq<(Addr, bool)>, n: nat,
                                      originated: map<MsgKey, DataBody>, now: int)
    requires PeerOk(s, originated, now) && n <= |resolved|
    ensures PeerOk(AddFirst(s, resolved, n).0, originated, now)
    ensures AddFirst(s, resolved, n).0.msgList == s.msgList
    ensures forall p :: p in s.cur ==>
              p in AddFirst(s, resolved, n).0.cur && AddFirst(s, resolved, n).0.cur[p] == s.cur[p]
    ensures SendsOk(AddFirst(s, resolved, n).1, s.msgList, originated)
  {
    if n > 0 {
      AddFirstOk(s, resolved, n - 1, originated, now);
      var s1 := AddFirst(s, resolved, n - 1).0;
      AddOneOk(s1, resolved[n - 1].0, resolved[n - 1].1, originated, now);
      HelloOk(false, s1.id, 0, s.msgList, originated);
    }
  }

  // ---- what handlers send can be parsed and is sound ----

  ghost predicate TlvGood(t: Tlv, list: seq<MsgKey>, originated: map<MsgKey, DataBody>) {
    match t
    case Data(_, b) => Genuine(b, originated)
    case Ack(_, sender, nonce) => MsgKey(sender, nonce) in list
    case _ => true
  }

  ghost predicate MsgGood(m: Msg, list: seq<MsgKey>, originated: map<MsgKey, DataBody>) {
    && |PrintMsg(m)| <= REQ_LEN
    && AllWellFormed(m.body) && |m.body| <= MSG_TLV_NB_DEF
    && forall i :: 0 <= i < |m.body| ==> TlvGood(m.body[i], list, originated)
  }

  ghost predicate SendsOk(sends: seq<Send>, list: seq<MsgKey>, originated: map<MsgKey, DataBody>) {
    forall i :: 0 <= i < |sends| ==> MsgGood(sends[i].msg, list, originated)
  }

  lemma OneTlvSize(t: Tlv)
    requires Built(t) && Uncounted([t]) == 0
    ensures |PrintMsg(MsgOf([t]))| == 6 + t.length
  {
    assert [t][1..] == [];
    MsgSize([t]);
  }

  lemma HelloOk(isLong: bool, source: uint64, dest: uint64, list: seq<MsgKey>, originated: map<MsgKey, DataBody>)
    ensures MsgGood(HelloMsg(isLong, source, dest), list, originated)
  {
    OneTlvSize(NewTlvHello(isLong, source, dest));
  }

  lemma AckOk(k: MsgKey, list: seq<MsgKey>, originated: map<MsgKey, DataBody>)
    requires k in list
    ensures MsgGood(MsgOf([NewTlvAck(k.sender, k.nonce)]), list, originated)
  {
    OneTlvSize(NewTlvAck(k.sender, k.nonce));
  }

  lemma GoAwayOk(list: seq<MsgKey>, originated: map<MsgKey, DataBody>)
    ensures MsgGood(GO_AWAY_MSG, list, originated)
  {
    OneTlvSize(NewTlvGoAway(2, []));
  }

  /** What the worker sends to a neighbour fits the receive buffer of 4096 bytes and the parser's 64 entries. */
  lemma BatchesOk(q: Queue, now: int, q': Queue, batches: seq<seq<DataBody>>, status: int, a: Addr,
                  list: seq<MsgKey>, originated: map<MsgKey, DataBody>)
    requires QueueGenuine(q, originated, now) && PassOk(q, now, PMTU, q', batches, status)
    ensures SendsOk(SendsTo(a, batches), list, originated)
  {
    if q != [] {
      BatchesBounded(q, 0, now, PMTU, []);
      BatchesAreDue(q, 0, now, PMTU, [], 0);
      forall i | 0 <= i < |batches| ensures MsgGood(DataMsg(batches[i]), list, originated) {
        assert Bounded(batches[i], PMTU);
        BatchDatagram(batches[i], PMTU);
        MsgRoundTrip(DataMsg(batches[i]));
        forall j | 0 <= j < |batches[i]| ensures Genuine(batches[i][j], originated) {
          FlattenHas(batches, i, j);
          DueBodiesGenuine(q, 0, Stop(q, 0, now), now, originated);
        }
      }
    }
  }

  lemma {:induction false} FlattenHas<T>(ss: seq<seq<T>>, i: nat, j: nat)
    requires i < |ss| && j < |ss[i]|
    ensures ss[i][j] in Flatten(ss)
  {
    if i > 0 {
      FlattenHas(ss[1..], i - 1, j);
    }
  }

  lemma {:induction false} DueBodiesGenuine(q: Queue, i: nat, j: nat, now: int, originated: map<MsgKey, DataBody>)
    requires j <= |q| && forall t :: 0 <= t < |q| ==> Genuine(q[t].body, originated)
    ensures forall b :: b in DueBodies(q, i, j, now) ==> Genuine(b, originated)
    decreases j - i
  {
    if i < j {
      DueBodiesGenuine(q, i + 1, j, now, originated);
    }
  }

  // ---- a peer through one step ----

  /** What a step of a peer may do to what it has stored and to what it owes to a neighbour that stays current. */
  ghost predicate StepOk(s: Peer, r: (Peer, seq<Send>), originated: map<MsgKey, DataBody>, now: int) {
    && PeerOk(r.0, originated, now)
    && (forall k :: k in s.msgList ==> k in r.0.msgList)
    && SendsOk(r.1, r.0.msgList, originated)
  }

  /** `k` stays owed to `p`, or becomes owed with its storing, unless `excuse`. */
  ghost predicate OwedKept(s: Peer, s': Peer, p: Addr, k: MsgKey, excuse: bool) {
    k in s'.msgList && p in s'.cur && (k in s.msgList ==> p in s.cur && HasKey(s.cur[p].pending, k))
    ==> HasKey(s'.cur[p].pending, k) || excuse
  }

  lemma AddMsgOwes(s: Peer, b: DataBody, now: int, p: Addr, k: MsgKey)
    ensures OwedKept(s, AddMsg(s, b, now), p, k, false)
  {
    if KeyOf(b) !in s.msgList && p in s.cur {
      KeysCons(NewPending(b, now), s.cur[p].pending);
      assert Keys(AddMsg(s, b, now).cur[p].pending)[0] == KeyOf(b);
    }
  }

  lemma EvictOk(s: Peer, a: Addr, originated: map<MsgKey, DataBody>, now: int)
    requires PeerOk(s, originated, now) && a in s.cur
    ensures PeerOk(Evict(s, a), originated, now) && Evict(s, a).msgList == s.msgList
    ensures forall p :: p in Evict(s, a).cur ==> p in s.cur && Evict(s, a).cur[p] == s.cur[p]
  {
    EvictConsistent(s, a);
  }

  lemma AckedOk(s: Peer, k: MsgKey, from: Addr, originated: map<MsgKey, DataBody>, now: int)
    requires PeerOk(s, originated, now) && from in s.cur
    ensures PeerOk(ProcessAck(s, k, from), originated, now)
    ensures forall p, k' :: p in s.cur && HasKey(s.cur[p].pending, k') && (p != from || k' != k) ==>
              HasKey(ProcessAck(s, k, from).cur[p].pending, k')
  {
    var q := s.cur[from].pending;
    RmKeyConsistent(q, k, s.msgList);
    RmKeyExact(q, k);
    assert QueueGenuine(q, originated, now);
    forall i | 0 <= i < |RmKey(q, k)|
      ensures Timed(RmKey(q, k)[i], now) && Genuine(RmKey(q, k)[i].body, originated)
    {
      assert RmKey(q, k)[i] in q;
    }
  }

  lemma HandlerOk(s: Peer, t: Tlv, from: Addr, env: Env, originated: map<MsgKey, DataBody>)
    requires PeerOk(s, originated, env.now)
    requires t.Data? ==> Genuine(t.body, originated)
    ensures StepOk(s, ProcessTlv(s, t, from, env), originated, env.now)
  {
    match t
    case Hello(_, isLong, source, _) =>
      HelloHandlerOk(s, isLong, source, from, env, originated);
    case Neighbour(_, _, _) =>
      AddNewNeighbourOk(s, env.resolved, originated, env.now);
    case Data(_, b) =>
      AddMsgOk(s, b, originated, env.now);
      AckOk(KeyOf(b), AddMsg(s, b, env.now).msgList, originated);
    case Ack(_, sender, nonce) =>
      if from in s.cur {
        AckedOk(s, MsgKey(sender, nonce), from, originated, env.now);
      }
    case GoAway(_, _, _) =>
      if from in s.cur {
        EvictOk(s, from, originated, env.now);
      }
    case _ =>
  }

  /** What is owed to a neighbour stays owed while it is current, but for the Ack of that neighbour for that message. */
  lemma HandlerOwes(s: Peer, t: Tlv, from: Addr, env: Env, originated: map<MsgKey, DataBody>, p: Addr, k: MsgKey)
    requires PeerOk(s, originated, env.now)
    ensures OwedKept(s, ProcessTlv(s, t, from, env).0, p, k, t.Ack? && p == from && k == MsgKey(t.sender, t.nonce))
  {
    match t
    case Hello(_, isLong, source, _) =>
      HelloHandlerOk(s, isLong, source, from, env, originated);
    case Neighbour(_, _, _) =>
      AddNewNeighbourOk(s, env.resolved, originated, env.now);
    case Data(_, b) =>
      AddMsgOwes(s, b, env.now, p, k);
    case Ack(_, sender, nonce) =>
      if from in s.cur {
        AckedOk(s, MsgKey(sender, nonce), from, originated, env.now);
      }
    case GoAway(_, _, _) =>
      if from in s.cur {
        EvictOk(s, from, originated, env.now);
      }
    case _ =>
  }

  lemma PromotedOk(s: Peer, a: Addr, originated: map<MsgKey, DataBody>, now: int)
    requires PeerOk(s, originated, now) && a in s.pot && a !in s.cur
    ensures var (pot, cur) := Transfer(s.pot, s.cur, a);
            PeerOk(s.(cur := cur, pot := pot), originated, now) && forall p :: p in s.cur ==> p in cur && cur[p] == s.cur[p]
  {
    assert Keys([]) == [];
  }

  lemma HelloHandlerOk(s: Peer, isLong: bool, source: uint64, from: Addr, env: Env, originated: map<MsgKey, DataBody>)
    requires PeerOk(s, originated, env.now)
    ensures StepOk(s, ProcessHello(s, isLong, source, from, env), originated, env.now)
    ensures ProcessHello(s, isLong, source, from, env).0.msgList == s.msgList
    ensures forall p :: p in s.cur ==>
              && p in ProcessHello(s, isLong, source, from, env).0.cur
              && ProcessHello(s, isLong, source, from, env).0.cur[p] == s.cur[p]
  {
    HelloOk(true, source, s.id, s.msgList, originated);
    if from in s.cur {
    } else if from in s.pot {
      PromotedOk(s, from, originated, env.now);
    } else {
      AddNewNeighbourOk(s, env.resolved, originated, env.now);
    }
  }

  lemma WorkerOk(s: Peer, a: Addr, q': Queue, batches: seq<seq<DataBody>>, status: int,
                 originated: map<MsgKey, DataBody>, now: int)
    requires PeerOk(s, originated, now) && a in s.cur
    requires PassOk(s.cur[a].pending, now, s.cur[a].pmtu, q', batches, status)
    ensures StepOk(s, WorkerVisit(s, a, q', batches, status), originated, now)
    ensures forall p, k ::
              p in s.cur && p in WorkerVisit(s, a, q', batches, status).0.cur && HasKey(s.cur[p].pending, k) ==>
                HasKey(WorkerVisit(s, a, q', batches, status).0.cur[p].pending, k)
    ensures forall p :: p in WorkerVisit(s, a, q', batches, status).0.cur ==> p in s.cur
  {
    var q := s.cur[a].pending;
    var s1 := Owe(s, a, q');
    assert QueueGenuine(q, originated, now);
    WorkerConsistent(s, a, now, q', batches, status);
    assert QueueGenuine(q', originated, now) && Keys(q') == Keys(q) by {
      if q != [] {
        PassKeepsKeys(q, q', now);
        PassKeepsTiming(q, q', now, now);
        PassKeepsGenuine(q, q', now, originated);
      }
    }
    assert PeerOk(s1, originated, now);
    BatchesOk(q, now, q', batches, status, s.cur[a].addr, s.msgList, originated);
    GoAwayOk(s.msgList, originated);
    if status < 0 {
      EvictOk(s1, a, originated, now);
    }
  }

  lemma PassKeepsGenuine(q: Queue, q': Queue, now: int, originated: map<MsgKey, DataBody>)
    requires Passed(q, q', now) && forall i :: 0 <= i < |q| ==> Genuine(q[i].body, originated)
    ensures forall i :: 0 <= i < |q'| ==> Genuine(q'[i].body, originated)
  {
    forall i | 0 <= i < |q'| ensures Genuine(q'[i].body, originated) {
      assert PassedAt(q, q', now, i);
    }
  }

  // ---- the network through one step ----

  /** Stores, and what was originated, only grow. */
  ghost predicate Grows(s: Net, s': Net) {
    && s'.peers.Keys == s.peers.Keys
    && s.packets <= s'.packets
    && Extends(s.originated, s'.originated)
    && s.clock <= s'.clock
    && forall n, k :: n in s.peers && k in s.peers[n].msgList ==> k in s'.peers[n].msgList
  }

  lemma PacketOkLater(p: Packet, s: Net, s': Net)
    requires PacketOk(p, s.peers, s.originated) && Grows(s, s')
    ensures PacketOk(p, s'.peers, s'.originated)
  {
    var ts := ParseMsg(p.bytes).value.body;
    forall i | 0 <= i < |ts| ensures TlvOk(ts[i], p.src, s'.peers, s'.originated) {
      assert TlvOk(ts[i], p.src, s.peers, s.originated);
    }
  }

  /** What a peer prints, any peer parses back. */
  lemma SentPacketOk(n: Addr, dest: Addr, m: Msg, s: Net)
    requires n in s.peers && MsgGood(m, s.peers[n].msgList, s.originated)
    ensures PacketOk(Packet(n, dest, PrintMsg(m)), s.peers, s.originated)
  {
    MsgRoundTrip(m);
    forall i | 0 <= i < |m.body| ensures TlvOk(m.body[i], n, s.peers, s.originated) {
      assert TlvGood(m.body[i], s.peers[n].msgList, s.originated);
    }
  }

  lemma AfterOk(s: Net, n: Addr, r: (Peer, seq<Send>), originated: map<MsgKey, DataBody>)
    requires Inv(s) && n in s.peers && Extends(s.originated, originated)
    requires StepOk(s.peers[n], r, originated, s.clock)
    ensures Inv(After(s, n, r).(originated := originated)) && Grows(s, After(s, n, r).(originated := originated))
  {
    var s' := After(s, n, r).(originated := originated);
    forall m | m in s'.peers ensures PeerOk(s'.peers[m], originated, s.clock) {
      if m != n {
        PeerOkLater(s.peers[m], s.originated, s.clock, originated, s.clock);
      }
    }
    forall p | p in s'.packets ensures PacketOk(p, s'.peers, originated) {
      if p in s.packets {
        PacketOkLater(p, s, s');
      } else {
        var i :| 0 <= i < |r.1| && p == Packet(n, r.1[i].dest, PrintMsg(r.1[i].msg));
        SentPacketOk(n, r.1[i].dest, r.1[i].msg, s');
      }
    }
  }

  lemma HandledOk(s: Net, p: Packet, i: nat)
    requires Inv(s) && p in s.packets && HandledTlv(p, i).Some?
    ensures TlvOk(HandledTlv(p, i).value, p.src, s.peers, s.originated)
  {
    assert PacketOk(p, s.peers, s.originated);
  }

  /** Every step keeps the invariant. */
  lemma StepKeepsInv(s: Net, step: Step)
    requires Inv(s) && Enabled(s, step)
    ensures Inv(Do(s, step)) && Grows(s, Do(s, step))
  {
    match step
    case Tick(seconds) =>
      TickOk(s, seconds);
    case Originate(n, body) =>
      var originated := s.originated[KeyOf(body) := body];
      PeerOkLater(s.peers[n], s.originated, s.clock, originated, s.clock);
      AddMsgOk(s.peers[n], body, originated, s.clock);
      AfterOk(s, n, (AddMsg(s.peers[n], body, s.clock), []), originated);
    case LookUp(n, resolved) =>
      AddNewNeighbourOk(s.peers[n], resolved, s.originated, s.clock);
      AfterOk(s, n, AddNewNeighbour(s.peers[n], resolved), s.originated);
    case Handle(p, i, resolved) =>
      var t, env := HandledTlv(p, i).value, Env(s.clock, resolved);
      HandledOk(s, p, i);
      HandlerOk(s.peers[p.dst], t, p.src, env, s.originated);
      AfterOk(s, p.dst, ProcessTlv(s.peers[p.dst], t, p.src, env), s.originated);
    case Visit(n, a, q', batches, status) =>
      WorkerOk(s.peers[n], a, q', batches, status, s.originated, s.clock);
      AfterOk(s, n, WorkerVisit(s.peers[n], a, q', batches, status), s.originated);
  }

  lemma TickOk(s: Net, seconds: nat)
    requires Inv(s)
    ensures Inv(s.(clock := s.clock + seconds))
  {
    forall n | n in s.peers ensures PeerOk(s.peers[n], s.originated, s.clock + seconds) {
      PeerOkLater(s.peers[n], s.originated, s.clock, s.originated, s.clock + seconds);
    }
  }

  lemma InitHasInv(s: Net)
    requires Init(s)
    ensures Inv(s)
  {
  }

  lemma {:induction false} RunKeepsInv(run: seq<Net>, i: nat)
    requires IsRun(run) && i < |run|
    ensures Inv(run[i])
  {
    if i == 0 {
      InitHasInv(run[0]);
    } else {
      RunKeepsInv(run, i - 1);
      var step := StepTo(run, i);
      StepKeepsInv(run[i - 1], step);
    }
  }

  lemma GrowsOn(a: Net, b: Net, c: Net)
    requires Grows(a, b) && Grows(b, c)
    ensures Grows(a, c)
  {
  }

  lemma {:induction false} RunGrows(run: seq<Net>, i: nat, j: nat)
    requires IsRun(run) && i <= j < |run|
    ensures Grows(run[i], run[j])
    decreases j - i
  {
    if i < j {
      RunGrows(run, i, j - 1);
      RunKeepsInv(run, j - 1);
      var step := StepTo(run, j);
      StepKeepsInv(run[j - 1], step);
      GrowsOn(run[i], run[j - 1], run[j]);
    }
  }

  // ---- flooding is complete ----

  ghost predicate Stored(s: Net, n: Addr, k: MsgKey) {
    n in s.peers && k in s.peers[n].msgList
  }

  ghost predicate Linked(s: Net, n: Addr, p: Addr) {
    n in s.peers && p in s.peers[n].cur
  }

  ghost predicate PendingAt(s: Net, n: Addr, p: Addr, k: MsgKey) {
    Linked(s, n, p) && HasKey(s.peers[n].cur[p].pending, k)
  }

  /** If one peer makes a step that keeps what it owes, then a link stays served. */
  lemma PeerServesLink(s: Net, s': Net, m: Addr, excuse: bool, n: Addr, p: Addr, k: MsgKey)
    requires m in s.peers && n in s.peers && Grows(s, s') && s'.peers == s.peers[m := s'.peers[m]]
    requires OwedKept(s.peers[m], s'.peers[m], p, k, excuse) && (excuse ==> Stored(s', p, k))
    requires Stored(s, n, k) ==> Linked(s, n, p) && (PendingAt(s, n, p, k) || Stored(s, p, k))
    ensures Stored(s', n, k) && Linked(s', n, p) ==> PendingAt(s', n, p, k) || Stored(s', p, k)
  {
  }

  /** A link stays served: the message is still pending for the neighbour, or the neighbour has stored it. */
  lemma StepServesLink(s: Net, step: Step, n: Addr, p: Addr, k: MsgKey)
    requires Inv(s) && Enabled(s, step) && n in s.peers
    requires Stored(s, n, k) ==> Linked(s, n, p) && (PendingAt(s, n, p, k) || Stored(s, p, k))
    ensures var s' := Do(s, step);
            Stored(s', n, k) && Linked(s', n, p) ==> PendingAt(s', n, p, k) || Stored(s', p, k)
  {
    StepKeepsInv(s, step);
    var s' := Do(s, step);
    match step
    case Tick(_) =>
    case Originate(m, body) =>
      AddMsgOwes(s.peers[m], body, s.clock, p, k);
      PeerServesLink(s, s', m, false, n, p, k);
    case LookUp(m, resolved) =>
      AddNewNeighbourOk(s.peers[m], resolved, s.originated, s.clock);
      PeerServesLink(s, s', m, false, n, p, k);
    case Handle(packet, i, resolved) =>
      var t := HandledTlv(packet, i).value;
      HandledOk(s, packet, i);
      HandlerOwes(s.peers[packet.dst], t, packet.src, Env(s.clock, resolved), s.originated, p, k);
      PeerServesLink(s, s', packet.dst, t.Ack? && p == packet.src && k == MsgKey(t.sender, t.nonce), n, p, k);
    case Visit(m, a, q', batches, status) =>
      WorkerOk(s.peers[m], a, q', batches, status, s.originated, s.clock);
      PeerServesLink(s, s', m, false, n, p, k);
  }

  /** The neighbour `p` has been current at `n` in every state of the run in which `n` has stored the message. */
  ghost predicate StayedCurrent(run: seq<Net>, n: Addr, p: Addr, k: MsgKey) {
    forall i :: 0 <= i < |run| && Stored(run[i], n, k) ==> Linked(run[i], n, p)
  }

  lemma {:induction false} LinkServed(run: seq<Net>, i: nat, n: Addr, p: Addr, k: MsgKey)
    requires IsRun(run) && i < |run| && n in run[0].peers && StayedCurrent(run, n, p, k)
    ensures Stored(run[i], n, k) ==> PendingAt(run[i], n, p, k) || Stored(run[i], p, k)
  {
    if i > 0 {
      LinkServed(run, i - 1, n, p, k);
      RunKeepsInv(run, i - 1);
      RunGrows(run, 0, i - 1);
      var step := StepTo(run, i);
      assert Stored(run[i - 1], n, k) ==> Linked(run[i - 1], n, p);
      StepServesLink(run[i - 1], step, n, p, k);
    }
  }

  /** No peer of the state owes the message to any neighbour. */
  ghost predicate Quiescent(s: Net, k: MsgKey) {
    forall n, p :: !PendingAt(s, n, p, k)
  }

  ghost predicate SteadyPath(run: seq<Net>, path: seq<Addr>, k: MsgKey) {
    forall i :: 0 <= i < |path| - 1 ==> StayedCurrent(run, path[i], path[i + 1], k)
  }

  /**
   * Flooding is complete: whatever the network lost, duplicated or reordered, once a message is pending nowhere, it is
   * stored by every peer that a path of links leads to which stayed current since the message was stored at their start.
   */
  lemma {:induction false} FloodingIsComplete(run: seq<Net>, path: seq<Addr>, k: MsgKey)
    requires IsRun(run) && path != [] && SteadyPath(run, path, k)
    requires Stored(run[|run| - 1], path[0], k) && Quiescent(run[|run| - 1], k)
    ensures forall i :: 0 <= i < |path| ==> Stored(run[|run| - 1], path[i], k)
    decreases |path|
  {
    var last := |run| - 1;
    if |path| > 1 {
      RunGrows(run, 0, last);
      assert StayedCurrent(run, path[0], path[0 + 1], k);
      LinkServed(run, last, path[0], path[1], k);
      assert !PendingAt(run[last], path[0], path[1], k);
      var rest := path[1..];
      forall i | 0 <= i < |rest| - 1 ensures StayedCurrent(run, rest[i], rest[i + 1], k) {
        assert StayedCurrent(run, path[i + 1], path[i + 1 + 1], k);
      }
      FloodingIsComplete(run, rest, k);
      forall i | 0 <= i < |path| ensures Stored(run[last], path[i], k) {
        assert i > 0 ==> path[i] == rest[i - 1];
      }
    }
  }

  // ---- only links that were there serve a message ----

  /** What `p` is owed, it was owed before, or it was current and the message has just been stored. */
  ghost predicate OwedBefore(s: Peer, s': Peer, p: Addr, k: MsgKey) {
    p in s'.cur && HasKey(s'.cur[p].pending, k)
    ==> p in s.cur && (HasKey(s.cur[p].pending, k) || (k !in s.msgList && k in s'.msgList))
  }

  lemma AddMsgOwedBefore(s: Peer, b: DataBody, now: int, p: Addr, k: MsgKey)
    ensures OwedBefore(s, AddMsg(s, b, now), p, k)
  {
    if KeyOf(b) !in s.msgList && p in s.cur {
      KeysCons(NewPending(b, now), s.cur[p].pending);
    }
  }

  lemma {:induction false} AddFirstOwedBefore(s: Peer, resolved: seq<(Addr, bool)>, n: nat, p: Addr, k: MsgKey)
    requires n <= |resolved|
    ensures OwedBefore(s, AddFirst(s, resolved, n).0, p, k) && AddFirst(s, resolved, n).0.msgList == s.msgList
  {
    assert Keys([]) == [];
    if n > 0 {
      AddFirstOwedBefore(s, resolved, n - 1, p, k);
    }
  }

  lemma HandlerOwedBefore(s: Peer, t: Tlv, from: Addr, env: Env, p: Addr, k: MsgKey)
    requires Consistent(s)
    ensures OwedBefore(s, ProcessTlv(s, t, from, env).0, p, k)
  {
    assert Keys([]) == [];
    match t
    case Hello(_, isLong, source, _) =>
      AddFirstOwedBefore(s, env.resolved, |env.resolved|, p, k);
    case Neighbour(_, _, _) =>
      AddFirstOwedBefore(s, env.resolved, |env.resolved|, p, k);
    case Data(_, b) =>
      AddMsgOwedBefore(s, b, env.now, p, k);
    case Ack(_, sender, nonce) =>
      if from in s.cur {
        RmKeyExact(s.cur[from].pending, MsgKey(sender, nonce));
      }
    case _ =>
  }

  lemma WorkerOwedBefore(s: Peer, a: Addr, now: int, q': Queue, batches: seq<seq<DataBody>>, status: int, p: Addr, k: MsgKey)
    requires a in s.cur && PassOk(s.cur[a].pending, now, s.cur[a].pmtu, q', batches, status)
    ensures OwedBefore(s, WorkerVisit(s, a, q', batches, status).0, p, k)
  {
    if s.cur[a].pending != [] {
      PassKeepsKeys(s.cur[a].pending, q', now);
    }
  }

  lemma StepOwedBefore(s: Net, step: Step, n: Addr, p: Addr, k: MsgKey)
    requires Inv(s) && Enabled(s, step) && n in s.peers
    ensures n in Do(s, step).peers && OwedBefore(s.peers[n], Do(s, step).peers[n], p, k)
  {
    match step
    case Tick(_) =>
    case Originate(m, body) =>
      AddMsgOwedBefore(s.peers[m], body, s.clock, p, k);
    case LookUp(m, resolved) =>
      AddFirstOwedBefore(s.peers[m], resolved, |resolved|, p, k);
    case Handle(packet, i, resolved) =>
      HandlerOwedBefore(s.peers[packet.dst], HandledTlv(packet, i).value, packet.src, Env(s.clock, resolved), p, k);
    case Visit(m, a, q', batches, status) =>
      WorkerOwedBefore(s.peers[m], a, s.clock, q', batches, status, p, k);
  }

  /** The peer stored the message in step `j`, and the neighbour was current then and has been ever since. */
  ghost predicate LinkedSinceStored(run: seq<Net>, j: nat, i: nat, n: Addr, p: Addr, k: MsgKey) {
    && 0 < j <= i < |run|
    && !Stored(run[j - 1], n, k) && Stored(run[j], n, k)
    && forall t :: j - 1 <= t <= i ==> Linked(run[t], n, p)
  }

  lemma OwedOneStepBefore(run: seq<Net>, i: nat, n: Addr, p: Addr, k: MsgKey)
    requires IsRun(run) && 0 < i < |run| && PendingAt(run[i], n, p, k)
    ensures Linked(run[i - 1], n, p)
    ensures PendingAt(run[i - 1], n, p, k) || (!Stored(run[i - 1], n, k) && Stored(run[i], n, k))
  {
    RunGrows(run, i - 1, i);
    RunKeepsInv(run, i - 1);
    var step := StepTo(run, i);
    StepOwedBefore(run[i - 1], step, n, p, k);
  }

  /** In every run a peer owes a message only to neighbours that were current when it stored it and have stayed so. */
  lemma {:induction false} OwedOnlyOnOldLinks(run: seq<Net>, i: nat, n: Addr, p: Addr, k: MsgKey) returns (j: nat)
    requires IsRun(run) && i < |run| && PendingAt(run[i], n, p, k)
    ensures LinkedSinceStored(run, j, i, n, p, k)
  {
    if i == 0 {
      assert false;
    } else {
      OwedOneStepBefore(run, i, n, p, k);
      if PendingAt(run[i - 1], n, p, k) {
        j := OwedOnlyOnOldLinks(run, i - 1, n, p, k);
      } else {
        j := i;
      }
    }
  }

  /** A neighbour that becomes current after the message was stored is never sent it: the links must have been there. */
  lemma LateNeighbourMissesIt(x: Addr, y: Addr, b: DataBody) returns (run: seq<Net>)
    requires x != y && Sendable(b)
    ensures IsRun(run) && Stored(run[|run| - 1], x, KeyOf(b)) && Linked(run[|run| - 1], x, y)
    ensures Quiescent(run[|run| - 1], KeyOf(b)) && !Stored(run[|run| - 1], y, KeyOf(b))
  {
    var p, q := Peer(1, map[], map[], map[], [], []), Peer(2, map[], map[], map[], [], []);
    var s0 := Net(map[x := p, y := q], {}, map[], 0);
    var s1, s2 := Do(s0, Originate(x, b)), Do(Do(s0, Originate(x, b)), LookUp(x, [(y, true)]));
    run := [s0, s1, s2];
    assert NextAt(run, 0) by { assert Enabled(s0, Originate(x, b)); }
    assert NextAt(run, 1) by { assert Enabled(s1, LookUp(x, [(y, true)])); }
    assert AddFirst(s1.peers[x], [(y, true)], 0).0 == s1.peers[x];
    assert s2.peers[x].cur == map[y := NewEntry(y)] && Keys([]) == [];
  }

  // ---- at most once, no invention, in every run ----

  /** A peer has shown exactly what it has stored, each message once, and every body is the one that was originated. */
  lemma ShownAtMostOnce(run: seq<Net>, i: nat, n: Addr)
    requires IsRun(run) && i < |run| && n in run[i].peers
    ensures var s := run[i].peers[n];
            && NoDup(KeysShown(s)) && Elems(KeysShown(s)) == Elems(s.msgList)
            && (forall b :: b in s.display ==> Genuine(b, run[i].originated))
            && (forall k :: k in s.msgList ==>
                  k in s.msgMap && KeyOf(s.msgMap[k]) == k && Genuine(s.msgMap[k], run[i].originated))
            && (forall a, e :: a in s.cur && e in s.cur[a].pending ==> Genuine(e.body, run[i].originated))
  {
    RunKeepsInv(run, i);
    var s := run[i].peers[n];
    assert PeerOk(s, run[i].originated, run[i].clock);
    var shown := KeysShown(s);
    AllApart(s.msgList);
    forall a, b {:trigger Apart(shown, a, b)} | 0 <= a < b < |shown| ensures Apart(shown, a, b) {
      assert s.msgList[|shown| - 1 - b] != s.msgList[|shown| - 1 - a];
    }
    forall k | k in s.msgList ensures k in shown {
      var j :| 0 <= j < |s.msgList| && s.msgList[j] == k;
      assert shown[|shown| - 1 - j] == k;
    }
    forall k | k in shown ensures k in s.msgList {
      var j :| 0 <= j < |shown| && shown[j] == k;
    }
    forall a, e | a in s.cur && e in s.cur[a].pending ensures Genuine(e.body, run[i].originated) {
      assert QueueGenuine(s.cur[a].pending, run[i].originated, run[i].clock);
    }
  }

  function KeysShown(s: Peer): seq<MsgKey> {
    seq(|s.display|, i requires 0 <= i < |s.display| => KeyOf(s.display[i]))
  }

  /** Every datagram of a run parses and fits the receive buffer; its Data bodies are genuine and its Acks justified. */
  lemma NothingInvented(run: seq<Net>, i: nat, p: Packet)
    requires IsRun(run) && i < |run| && p in run[i].packets
    ensures PacketOk(p, run[i].peers, run[i].originated)
  {
    RunKeepsInv(run, i);
  }

  /** In every run the table of the worker holds whatever it is about to send, at any time. */
  lemma WorkerNeverOverflows(run: seq<Net>, i: nat, n: Addr, a: Addr, now: int)
    requires IsRun(run) && i < |run| && Linked(run[i], n, a)
    ensures TableHolds(run[i].peers[n].cur[a].pending, now, run[i].peers[n].cur[a].pmtu)
  {
    RunKeepsInv(run, i);
    var q := run[i].peers[n].cur[a].pending;
    assert QueueGenuine(q, run[i].originated, run[i].clock);
    SendableHolds(q, now, PMTU);
  }

  // ---- retries, in every run ----

  /** At most five sends, and the (k+1)-th comes at least 2^k + 1 seconds after the k-th, the first after queueing. */
  lemma RetriesBackOff(run: seq<Net>, i: nat, n: Addr, a: Addr, e: Pending, j: nat)
    requires IsRun(run) && i < |run| && Linked(run[i], n, a) && e in run[i].peers[n].cur[a].pending
    ensures |e.sent| <= 5
    ensures j < |e.sent| ==> e.sent[j] >= (if j == 0 then e.queued else e.sent[j - 1]) + Pow2(j) + 1
  {
    RunKeepsInv(run, i);
    assert QueueGenuine(run[i].peers[n].cur[a].pending, run[i].originated, run[i].clock);
    var x :| 0 <= x < |run[i].peers[n].cur[a].pending| && run[i].peers[n].cur[a].pending[x] == e;
    assert Timed(e, run[i].clock);
  }

  /** A neighbour is evicted only for a message that was queued for it 69 seconds ago. */
  lemma EvictedLate(run: seq<Net>, i: nat, n: Addr, a: Addr, q': Queue, batches: seq<seq<DataBody>>, status: int)
    requires IsRun(run) && i < |run| && Enabled(run[i], Visit(n, a, q', batches, status)) && status < 0
    ensures exists e :: e in run[i].peers[n].cur[a].pending && |e.sent| == 5 && run[i].clock >= e.queued + 69
  {
    RunKeepsInv(run, i);
    var q, now := run[i].peers[n].cur[a].pending, run[i].clock;
    assert QueueGenuine(q, run[i].originated, now);
    BatchesAreDue(q, 0, now, PMTU, [], 0);
    StopIsFirst(q, 0, now);
    var e := q[Stop(q, 0, now)];
    assert Timed(e, now);
    GivenUpLate(e, now, now);
  }

  // ---- known peers, in every run ----

  lemma StepKeepsKnown(s: Net, step: Step, n: Addr)
    requires Inv(s) && Enabled(s, step) && n in s.peers
    ensures Known(s.peers[n]) <= Known(Do(s, step).peers[n])
  {
    match step
    case Tick(_) =>
    case Originate(m, body) =>
    case LookUp(m, resolved) =>
      AddingKeepsKnown(s.peers[m], resolved, |resolved|);
    case Handle(packet, i, resolved) =>
      HandlerKeepsKnown(s.peers[packet.dst], HandledTlv(packet, i).value, packet.src, Env(s.clock, resolved));
    case Visit(m, a, q', batches, status) =>
      WorkerKeepsKnown(s.peers[m], a, q', batches, status);
  }

  /** A peer that is known once, as a current or a potential neighbour, is known for ever. */
  lemma {:induction false} NeverForgotten(run: seq<Net>, i: nat, j: nat, n: Addr)
    requires IsRun(run) && i <= j < |run| && n in run[0].peers
    ensures n in run[i].peers && n in run[j].peers && Known(run[i].peers[n]) <= Known(run[j].peers[n])
    decreases j - i
  {
    RunGrows(run, 0, i);
    if i < j {
      NeverForgotten(run, i, j - 1, n);
      RunKeepsInv(run, j - 1);
      var step := StepTo(run, j);
      StepKeepsKnown(run[j - 1], step, n);
    }
  }

  // ---- whole datagrams and whole passes of the worker are runs of these steps ----

  /** The steps lead from each state to the next. */
  ghost predicate LeadThrough(steps: seq<Step>, states: seq<Net>) {
    && |states| == |steps| + 1
    && forall i {:trigger LeadsOn(steps, states, i)} :: 0 <= i < |steps| ==> LeadsOn(steps, states, i)
  }

  ghost predicate LeadsOn(steps: seq<Step>, states: seq<Net>, i: nat)
    requires i < |steps| && i + 1 < |states|
  {
    Enabled(states[i], steps[i]) && states[i + 1] == Do(states[i], steps[i])
  }

  lemma OneStepMore(steps: seq<Step>, states: seq<Net>, step: Step, s: Net)
    requires LeadThrough(steps, states) && Enabled(states[|steps|], step) && s == Do(states[|steps|], step)
    ensures LeadThrough(steps + [step], states + [s])
  {
    var steps', states' := steps + [step], states + [s];
    forall i | 0 <= i < |steps'| ensures LeadsOn(steps', states', i) {
      assert i < |steps| ==> LeadsOn(steps, states, i);
    }
  }

  lemma PrintedTwice(n: Addr, first: seq<Send>, more: seq<Send>)
    ensures Printed(n, first + more) == Printed(n, first) + Printed(n, more)
  {
    var all := first + more;
    forall x | x in Printed(n, first) ensures x in Printed(n, all) {
      var i :| 0 <= i < |first| && x == Packet(n, first[i].dest, PrintMsg(first[i].msg));
      assert all[i] == first[i];
    }
    forall x | x in Printed(n, more) ensures x in Printed(n, all) {
      var i :| 0 <= i < |more| && x == Packet(n, more[i].dest, PrintMsg(more[i].msg));
      assert all[|first| + i] == more[i];
    }
  }

  lemma AfterTwice(s: Net, n: Addr, r1: (Peer, seq<Send>), r2: (Peer, seq<Send>))
    ensures After(After(s, n, r1), n, r2) == After(s, n, (r2.0, r1.1 + r2.1))
  {
    PrintedTwice(n, r1.1, r2.1);
    assert s.packets + Printed(n, r1.1) + Printed(n, r2.1) == s.packets + Printed(n, r1.1 + r2.1);
  }

  lemma AfterNothing(s: Net, n: Addr)
    requires n in s.peers
    ensures After(s, n, (s.peers[n], [])) == s
  {
    assert s.peers[n := s.peers[n]] == s.peers;
  }

  /** The steps that handle the first `n` TLVs of a datagram, one after the other. */
  function HandleSteps(p: Packet, envs: seq<Env>, n: nat): seq<Step>
    requires n <= |envs|
  {
    seq(n, i requires 0 <= i < n => Handle(p, i, envs[i].resolved))
  }

  lemma {:induction false} TlvsInSteps(s: Net, p: Packet, m: Msg, envs: seq<Env>, n: nat) returns (states: seq<Net>)
    requires p in s.packets && p.dst in s.peers && ParseMsg(p.bytes) == Some(m) && Accepted(m)
    requires n <= FirstPadN(m.body, 0) && |envs| == |m.body|
    requires forall i :: 0 <= i < |envs| ==> envs[i].now == s.clock
    ensures LeadThrough(HandleSteps(p, envs, n), states) && states[0] == s
    ensures states[n] == After(s, p.dst, ProcessFirst(s.peers[p.dst], m.body, p.src, envs, n))
  {
    if n == 0 {
      AfterNothing(s, p.dst);
      states := [s];
    } else {
      states := TlvsInSteps(s, p, m, envs, n - 1);
      var r := ProcessFirst(s.peers[p.dst], m.body, p.src, envs, n - 1);
      assert HandledTlv(p, n - 1) == Some(m.body[n - 1]) && Env(s.clock, envs[n - 1].resolved) == envs[n - 1];
      var mid, step := After(s, p.dst, r), Handle(p, n - 1, envs[n - 1].resolved);
      AfterTwice(s, p.dst, r, ProcessTlv(r.0, m.body[n - 1], p.src, envs[n - 1]));
      OneStepMore(HandleSteps(p, envs, n - 1), states, step, Do(mid, step));
      assert HandleSteps(p, envs, n) == HandleSteps(p, envs, n - 1) + [step];
      states := states + [Do(mid, step)];
    }
  }

  /** What `process_datagram` does to the network, the steps that handle its TLVs up to the first PadN do in this order. */
  lemma DatagramInSteps(s: Net, p: Packet, m: Msg, envs: seq<Env>) returns (states: seq<Net>)
    requires p in s.packets && p.dst in s.peers && ParseMsg(p.bytes) == Some(m) && |envs| == |m.body|
    requires forall i :: 0 <= i < |envs| ==> envs[i].now == s.clock
    ensures var n := if m.magic == 93 && m.version == 2 then FirstPadN(m.body, 0) else 0;
            && LeadThrough(HandleSteps(p, envs, n), states) && states[0] == s
            && states[n] == After(s, p.dst, ProcessMsg(s.peers[p.dst], m, p.src, envs))
  {
    if Accepted(m) {
      states := TlvsInSteps(s, p, m, envs, FirstPadN(m.body, 0));
    } else {
      AfterNothing(s, p.dst);
      states := [s];
    }
  }

  /** The steps of the first `n` visits of a worker, one after the other. */
  function VisitSteps(n: Addr, visits: seq<NbrPass>, k: nat): seq<Step>
    requires k <= |visits|
  {
    seq(k, i requires 0 <= i < k => Visit(n, visits[i].addr, visits[i].queue, visits[i].batches, visits[i].status))
  }

  /** What `worker_iter_nbr` does to the network, the visits of its neighbours do one after the other. */
  lemma {:induction false} WorkerInSteps(s: Net, n: Addr, visits: seq<NbrPass>, k: nat) returns (states: seq<Net>)
    requires n in s.peers && k <= |visits| && NoDup(Visited(visits))
    requires forall i :: 0 <= i < |visits| ==> VisitOk(s.peers[n], visits[i], s.clock)
    ensures LeadThrough(VisitSteps(n, visits, k), states) && states[0] == s
    ensures states[k] == After(s, n, AfterVisits(s.peers[n], visits, k))
  {
    if k == 0 {
      AfterNothing(s, n);
      states := [s];
    } else {
      states := WorkerInSteps(s, n, visits, k - 1);
      AfterVisitsSoFar(s.peers[n], visits, k - 1, s.clock);
      var r, v := AfterVisits(s.peers[n], visits, k - 1), visits[k - 1];
      assert VisitOk(r.0, v, s.clock);
      var mid, step := After(s, n, r), Visit(n, v.addr, v.queue, v.batches, v.status);
      AfterTwice(s, n, r, WorkerVisit(r.0, v.addr, v.queue, v.batches, v.status));
      OneStepMore(VisitSteps(n, visits, k - 1), states, step, Do(mid, step));
      assert VisitSteps(n, visits, k) == VisitSteps(n, visits, k - 1) + [step];
      states := states + [Do(mid, step)];
    }
  }
}
