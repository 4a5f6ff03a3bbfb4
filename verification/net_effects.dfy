// What the steps of the network bring about: Acks that come back and settle debts, links that come and go.

module NetEffects {
  import ChatPeer
  import opened Codec
  import opened Effects
  import opened Flood
  import opened PeerModel
  import opened PendingQueue
  import opened Wrappers

  /** What a peer hands to the socket are the packets that the network gets from it. */
  lemma OutboxIsPackets(n: Addr, sends: seq<Send>)
    ensures Printed(n, sends) == set d | d in ChatPeer.Wired(sends) :: Packet(n, d.dest, d.bytes)
  {
    var outbox := ChatPeer.Wired(sends);
    forall p | p in Printed(n, sends) ensures exists d :: d in outbox && p == Packet(n, d.dest, d.bytes) {
      var i :| 0 <= i < |sends| && p == Packet(n, sends[i].dest, PrintMsg(sends[i].msg));
      assert outbox[i] in outbox;
    }
    forall d | d in outbox ensures Packet(n, d.dest, d.bytes) in Printed(n, sends) {
      var i :| 0 <= i < |outbox| && outbox[i] == d;
      assert d == ChatPeer.Datagram(sends[i].dest, PrintMsg(sends[i].msg));
    }
  }

  /** There is a packet from `src` to `dst` with just that TLV. */
  ghost predicate Tells(s: Net, src: Addr, dst: Addr, t: Tlv) {
    exists p :: p in s.packets && p.src == src && p.dst == dst
                && ParseMsg(p.bytes) == Some(Msg(93, 2, 2 + t.length, [t]))
  }

  lemma SaidIsTold(s: Net, n: Addr, r: (Peer, seq<Send>), i: nat, dest: Addr, t: Tlv)
    requires i < |r.1| && Says(r.1[i], dest, t)
    ensures Tells(After(s, n, r), n, dest, t)
  {
    assert Packet(n, r.1[i].dest, PrintMsg(r.1[i].msg)) in Printed(n, r.1);
    assert ParseMsg(PrintMsg(r.1[i].msg)) == Some(Msg(93, 2, 2 + t.length, [t]));
  }

  // ---- Data and Ack ----

  /** A peer that handles a Data TLV has stored the message afterwards, and an Ack is on its way back. */
  lemma DataComesToAck(s: Net, p: Packet, i: nat, resolved: seq<(Addr, bool)>)
    requires Enabled(s, Handle(p, i, resolved)) && HandledTlv(p, i).value.Data?
    ensures var s', b := Do(s, Handle(p, i, resolved)), HandledTlv(p, i).value.body;
            Stored(s', p.dst, KeyOf(b)) && Tells(s', p.dst, p.src, Ack(12, b.sender, b.nonce))
  {
    var t, env := HandledTlv(p, i).value, Env(s.clock, resolved);
    DataIsAcknowledged(s.peers[p.dst], t, p.src, env);
    DataIsStored(s.peers[p.dst], t, p.src, env);
    SaidIsTold(s, p.dst, ProcessTlv(s.peers[p.dst], t, p.src, env), 0, p.src, Ack(12, t.body.sender, t.body.nonce));
  }

  lemma {:induction false} WithoutHas(q: Queue, ks: set<MsgKey>, k: MsgKey)
    ensures HasKey(Without(q, ks), k) <==> HasKey(q, k) && k !in ks
  {
    if q != [] {
      WithoutHas(q[1..], ks, k);
      assert Keys(q) == [KeyOf(q[0].body)] + Keys(q[1..]);
      assert Keys([q[0]] + Without(q[1..], ks)) == [KeyOf(q[0].body)] + Keys(Without(q[1..], ks));
    }
  }

  /** Once a peer has handled an Ack, that message is not pending for the sender, and everything else pending still is. */
  lemma AckSettlesDebt(s: Net, p: Packet, i: nat, resolved: seq<(Addr, bool)>, n: Addr, a: Addr, k: MsgKey)
    requires Inv(s) && Enabled(s, Handle(p, i, resolved)) && HandledTlv(p, i).value.Ack?
    ensures var s', t := Do(s, Handle(p, i, resolved)), HandledTlv(p, i).value;
            PendingAt(s', n, a, k)
            <==> PendingAt(s, n, a, k) && !(n == p.dst && a == p.src && k == MsgKey(t.sender, t.nonce))
  {
    AckedOnly(s.peers[p.dst], HandledTlv(p, i).value, p.src, Env(s.clock, resolved), a, k);
  }

  lemma AckedOnly(s: Peer, t: Tlv, from: Addr, env: Env, a: Addr, k: MsgKey)
    requires Consistent(s) && t.Ack?
    ensures var s' := ProcessTlv(s, t, from, env).0;
            && (a in s'.cur <==> a in s.cur)
            && (a in s.cur ==>
                  (HasKey(s'.cur[a].pending, k)
                   <==> HasKey(s.cur[a].pending, k) && !(a == from && k == MsgKey(t.sender, t.nonce))))
  {
    AckSettles(s, t, from, env);
    if from in s.cur {
      WithoutHas(s.cur[from].pending, {MsgKey(t.sender, t.nonce)}, k);
    }
  }

  // ---- links ----

  /** A Hello from a known peer links it. */
  lemma HelloLinks(s: Net, p: Packet, i: nat, resolved: seq<(Addr, bool)>)
    requires Inv(s) && Enabled(s, Handle(p, i, resolved)) && HandledTlv(p, i).value.Hello?
    requires p.src in Known(s.peers[p.dst])
    ensures Linked(Do(s, Handle(p, i, resolved)), p.dst, p.src)
  {
    KnownSenderIsCurrent(s.peers[p.dst], HandledTlv(p, i).value, p.src, Env(s.clock, resolved));
  }

  /** The step is a GoAway of `a` that `n` handles. */
  ghost predicate TakesLeave(step: Step, n: Addr, a: Addr) {
    && step.Handle? && step.packet.dst == n && step.packet.src == a
    && HandledTlv(step.packet, step.i).Some? && HandledTlv(step.packet, step.i).value.GoAway?
  }

  /** The step is a visit of `a` by the worker of `n`, with an entry that was sent five times and queued 69 seconds ago. */
  ghost predicate GivesUp(s: Net, step: Step, n: Addr, a: Addr) {
    && step.Visit? && step.n == n && step.a == a && Linked(s, n, a)
    && exists e :: e in s.peers[n].cur[a].pending && |e.sent| == 5 && s.clock >= e.queued + 69
  }

  lemma HandlerUnlinks(s: Peer, t: Tlv, from: Addr, env: Env, a: Addr)
    requires Consistent(s) && a in s.cur && a !in ProcessTlv(s, t, from, env).0.cur
    ensures t.GoAway? && a == from
  {
    match t
    case Hello(_, _, _, _) =>
      if from in Known(s) {
        KnownSenderIsPromoted(s, t, from, env);
      } else {
        UnknownSenderGreets(s, t, from, env);
      }
    case Neighbour(_, _, _) => NeighbourGreets(s, t, from, env);
    case Data(_, _) => DataIsStored(s, t, from, env);
    case Ack(_, _, _) => AckSettles(s, t, from, env);
    case GoAway(_, _, _) => GoAwayLeaves(s, t, from, env);
    case _ =>
  }

  lemma GivenUpIsOld(s: Net, n: Addr, a: Addr)
    requires Inv(s) && Linked(s, n, a) && GivenUp(s.peers[n].cur[a].pending, s.clock)
    ensures exists e :: e in s.peers[n].cur[a].pending && |e.sent| == 5 && s.clock >= e.queued + 69
  {
    var q := s.peers[n].cur[a].pending;
    assert QueueGenuine(q, s.originated, s.clock);
    var i :| 0 <= i < |q| && q[i].timeSend < s.clock && q[i].tries >= 5;
    GivenUpLate(q[i], s.clock, s.clock);
    assert q[i] in q;
  }

  lemma StepUnlinks(s: Net, step: Step, n: Addr, a: Addr)
    requires Inv(s) && Enabled(s, step) && Linked(s, n, a) && !Linked(Do(s, step), n, a)
    ensures TakesLeave(step, n, a) || GivesUp(s, step, n, a)
  {
    match step
    case Tick(_) =>
    case Originate(m, body) =>
    case LookUp(m, resolved) =>
      NeighbourGreets(s.peers[m], Neighbour(0, seq(16, _ => 0), 0), m, Env(0, resolved));
    case Handle(p, i, resolved) =>
      HandlerUnlinks(s.peers[p.dst], HandledTlv(p, i).value, p.src, Env(s.clock, resolved), a);
    case Visit(m, b, q', batches, status) =>
      VisitEffects(s.peers[m], NbrPass(b, q', batches, status), s.clock);
      if GivenUp(s.peers[m].cur[b].pending, s.clock) {
        GivenUpIsOld(s, m, b);
      }
  }

  /**
   * In every run a current neighbour is lost only by its own GoAway, or by a visit that gives up a message for it which
   * was sent five times and queued 69 seconds ago.
   */
  lemma LostOnlyIfLate(run: seq<Net>, i: nat, n: Addr, a: Addr) returns (step: Step)
    requires IsRun(run) && i + 1 < |run| && Linked(run[i], n, a) && !Linked(run[i + 1], n, a)
    ensures Enabled(run[i], step) && run[i + 1] == Do(run[i], step)
    ensures TakesLeave(step, n, a) || GivesUp(run[i], step, n, a)
  {
    RunKeepsInv(run, i);
    step := StepTo(run, i + 1);
    StepUnlinks(run[i], step, n, a);
  }

  /** All packets that the step adds come from `n`, go to `a`, and carry no GoAway. */
  ghost predicate NoGoAwaySent(s: Net, s': Net, n: Addr, a: Addr) {
    forall p :: p in s'.packets && p !in s.packets ==>
      p.src == n && p.dst == a && ParseMsg(p.bytes).Some? && !HasGoAway(ParseMsg(p.bytes).value)
  }

  /**
   * A visit that finds an entry due that was sent five times makes the neighbour potential, owes it nothing more, and
   * tells it so; any other visit leaves it current, and sends no GoAway.
   */
  lemma VisitGivesUpExactly(s: Net, n: Addr, a: Addr, q': Queue, batches: seq<seq<DataBody>>, status: int)
    requires Inv(s) && Enabled(s, Visit(n, a, q', batches, status))
    ensures var s' := Do(s, Visit(n, a, q', batches, status));
            if GivenUp(s.peers[n].cur[a].pending, s.clock)
            then !Linked(s', n, a) && a in s'.peers[n].pot && s'.peers[n].pot[a] == Idle(a)
                 && Tells(s', n, a, GoAway(1, 2, []))
            else Linked(s', n, a) && NoGoAwaySent(s, s', n, a)
  {
    var v, p := NbrPass(a, q', batches, status), s.peers[n];
    var r := WorkerVisit(p, a, q', batches, status);
    VisitEffects(p, v, s.clock);
    VisitSends(p, v, s.clock);
    if GivenUp(p.cur[a].pending, s.clock) {
      SaidIsTold(s, n, r, |r.1| - 1, a, GoAway(1, 2, []));
    } else {
      WorkerOk(p, a, q', batches, status, s.originated, s.clock);
      forall i | 0 <= i < |r.1| ensures ParseMsg(PrintMsg(r.1[i].msg)) == Some(r.1[i].msg) {
        assert MsgGood(r.1[i].msg, r.0.msgList, s.originated);
        MsgRoundTrip(r.1[i].msg);
      }
    }
  }

  // ---- what is due is sent ----

  /** There is a packet from `src` to `dst` with the message in a Data TLV. */
  ghost predicate Carries(s: Net, src: Addr, dst: Addr, b: DataBody) {
    exists p :: p in s.packets && p.src == src && p.dst == dst
                && ParseMsg(p.bytes).Some? && b in BodiesIn(ParseMsg(p.bytes).value.body)
  }

  lemma {:induction false} CarriedBySome(sends: seq<Send>, b: DataBody) returns (i: nat)
    requires b in Carried(sends)
    ensures i < |sends| && b in BodiesIn(sends[i].msg.body)
  {
    if b in BodiesIn(sends[0].msg.body) {
      i := 0;
    } else {
      i := CarriedBySome(sends[1..], b);
      i := i + 1;
    }
  }

  lemma {:induction false} DueBodiesHas(q: Queue, i: nat, j: nat, x: nat, now: int)
    requires i <= x < j <= |q| && Due(q[x], now)
    ensures q[x].body in DueBodies(q, i, j, now)
    decreases j - i
  {
    if i < x {
      DueBodiesHas(q, i + 1, j, x, now);
    }
  }

  /** A visit sends every entry that is due, unless one before it in the list is given up. */
  lemma DueIsSent(s: Net, n: Addr, a: Addr, q': Queue, batches: seq<seq<DataBody>>, status: int, x: nat)
    requires Inv(s) && Enabled(s, Visit(n, a, q', batches, status))
    requires x < |s.peers[n].cur[a].pending| && Due(s.peers[n].cur[a].pending[x], s.clock)
    requires !GivenUp(s.peers[n].cur[a].pending[..x + 1], s.clock)
    ensures Carries(Do(s, Visit(n, a, q', batches, status)), n, a, s.peers[n].cur[a].pending[x].body)
  {
    var p := s.peers[n];
    var q, r := p.cur[a].pending, WorkerVisit(p, a, q', batches, status);
    VisitSends(p, NbrPass(a, q', batches, status), s.clock);
    StopIsFirst(q, 0, s.clock);
    forall y | 0 <= y <= x ensures !Spent(q[y], s.clock) {
      assert q[..x + 1][y] == q[y];
    }
    DueBodiesHas(q, 0, Stop(q, 0, s.clock), x, s.clock);
    var i := CarriedBySome(r.1, q[x].body);
    WorkerOk(p, a, q', batches, status, s.originated, s.clock);
    assert MsgGood(r.1[i].msg, r.0.msgList, s.originated);
    MsgRoundTrip(r.1[i].msg);
    assert Packet(n, r.1[i].dest, PrintMsg(r.1[i].msg)) in Printed(n, r.1);
  }
}
