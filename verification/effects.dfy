// What each handler, the worker's visit and the purge bring about in a peer, and what they send.

module Effects {
  import opened Codec
  import H = PeerHistory
  import opened PeerModel
  import opened PendingQueue
  import opened Sequences
  import opened Wire
  import opened Wrappers

  /** The bytes are those of a message of that one TLV; stated so that only a proof that names `ParseMsg` looks into it. */
  ghost predicate Spells(bytes: Bytes, t: Tlv) {
    forall b {:trigger ParseMsg(b)} :: b == bytes ==> ParseMsg(b) == Some(Msg(93, 2, 2 + t.length, [t]))
  }

  /** What is sent goes to `dest`, and comes back there as a message of that one TLV. */
  ghost predicate Says(send: Send, dest: Addr, t: Tlv) {
    send.dest == dest && Spells(PrintMsg(send.msg), t)
  }

  lemma OneTlvSays(dest: Addr, t: Tlv)
    requires WellFormed(t)
    ensures Says(Send(dest, MsgOf([t])), dest, t)
  {
    assert [t][1..] == [];
    assert SumLengths([t]) == 2 + t.length;
    MsgRoundTrip(MsgOf([t]));
  }

  // ---- entries that leave a list ----

  /** The entries of other messages, in their order. */
  ghost function Without(q: Queue, ks: set<MsgKey>): Queue {
    if q == [] then []
    else if KeyOf(q[0].body) in ks then Without(q[1..], ks)
    else [q[0]] + Without(q[1..], ks)
  }

  lemma {:induction false} WithoutAbsent(q: Queue, k: MsgKey)
    requires !HasKey(q, k)
    ensures Without(q, {k}) == q
  {
    if q != [] {
      assert Keys(q)[0] in Keys(q) && Keys(q[1..]) == Keys(q)[1..];
      WithoutAbsent(q[1..], k);
    }
  }

  /** `rm_nbr_msg` takes just the entry of the message off the list. */
  lemma {:induction false} RmKeyIsWithout(q: Queue, k: MsgKey)
    requires DistinctKeys(q)
    ensures RmKey(q, k) == Without(q, {k}) && !HasKey(RmKey(q, k), k)
  {
    RmKeyExact(q, k);
    if q != [] {
      var ks := Keys(q);
      assert ks == [ks[0]] + Keys(q[1..]);
      NoDupWithout(ks, 0);
      assert ks[..0] + ks[0 + 1..] == Keys(q[1..]);
      if ks[0] == k {
        WithoutAbsent(q[1..], k);
      } else {
        RmKeyIsWithout(q[1..], k);
      }
    }
  }

  lemma {:induction false} WithoutTwice(q: Queue, ks: set<MsgKey>, ks': set<MsgKey>)
    ensures Without(Without(q, ks), ks') == Without(q, ks + ks')
  {
    if q != [] {
      WithoutTwice(q[1..], ks, ks');
      var r := Without(q[1..], ks);
      assert ([q[0]] + r)[1..] == r;
    }
  }

  lemma {:induction false} WithoutNone(q: Queue)
    ensures Without(q, {}) == q
  {
    if q != [] {
      WithoutNone(q[1..]);
    }
  }

  // ---- Data ----

  /** A Data TLV is acknowledged to its sender by one message, whether it is new or not. */
  lemma DataIsAcknowledged(s: Peer, t: Tlv, from: Addr, env: Env)
    requires t.Data?
    ensures var sends := ProcessTlv(s, t, from, env).1;
            |sends| == 1 && Says(sends[0], from, Ack(12, t.body.sender, t.body.nonce))
  {
    OneTlvSays(from, Ack(12, t.body.sender, t.body.nonce));
  }

  /** The list begins with a fresh entry for the body, to be sent in one second, and goes on as it was. */
  ghost predicate QueuedFirst(q: Queue, q': Queue, b: DataBody, now: int) {
    |q'| == |q| + 1 && q'[1..] == q && q'[0] == Pending(b, 0, now + 1, now, [])
  }

  /** A known message changes nothing; a new one is stored, shown, and queued first for every current neighbour. */
  lemma DataIsStored(s: Peer, t: Tlv, from: Addr, env: Env)
    requires t.Data?
    ensures var s', b := ProcessTlv(s, t, from, env).0, t.body;
            if KeyOf(b) in s.msgList then s' == s
            else
              && (s'.id, s'.pot, s'.msgList, s'.display) == (s.id, s.pot, [KeyOf(b)] + s.msgList, s.display + [b])
              && s'.msgMap == s.msgMap[KeyOf(b) := b]
              && s'.cur.Keys == s.cur.Keys
              && forall a :: a in s.cur ==>
                   && (s'.cur[a].addr, s'.cur[a].pmtu) == (s.cur[a].addr, s.cur[a].pmtu)
                   && QueuedFirst(s.cur[a].pending, s'.cur[a].pending, b, env.now)
  {
  }

  // ---- Ack ----

  /** Only what is owed to `a` is different. */
  ghost predicate OnlyOwed(s: Peer, s': Peer, a: Addr, q: Queue) {
    && a in s.cur && s' == s.(cur := s'.cur) && s'.cur.Keys == s.cur.Keys
    && s'.cur[a] == Entry(s.cur[a].addr, s.cur[a].pmtu, q)
    && forall b :: b in s.cur && b != a ==> s'.cur[b] == s.cur[b]
  }

  /** An Ack from a current neighbour takes the entry of its message off that neighbour's list, and does nothing else. */
  lemma AckSettles(s: Peer, t: Tlv, from: Addr, env: Env)
    requires Consistent(s) && t.Ack?
    ensures var (s', sends) := ProcessTlv(s, t, from, env);
            && sends == []
            && (from !in s.cur ==> s' == s)
            && (from in s.cur ==>
                  var k := MsgKey(t.sender, t.nonce);
                  OnlyOwed(s, s', from, Without(s.cur[from].pending, {k})) && !HasKey(s'.cur[from].pending, k))
  {
    if from in s.cur {
      RmKeyIsWithout(s.cur[from].pending, MsgKey(t.sender, t.nonce));
    }
  }

  // ---- addresses that are looked up ----

  /** An entry that nothing is owed to, with the PMTU that all entries have. */
  function Idle(a: Addr): Entry {
    Entry(a, 1024, [])
  }

  /** `n` is `m` with a new entry for each of the addresses that was not there. */
  ghost predicate Joined(m: Neighbours, n: Neighbours, added: set<Addr>) {
    && n.Keys == m.Keys + added
    && forall a :: a in n ==> n[a] == if a in m then m[a] else Idle(a)
  }

  /** The addresses that a Hello could be sent to, or that it could not be sent to. */
  ghost function WithOutcome(resolved: seq<(Addr, bool)>, ok: bool): set<Addr> {
    if resolved == [] then {}
    else
      var (a, sent) := resolved[|resolved| - 1];
      WithOutcome(resolved[..|resolved| - 1], ok) + if sent == ok then {a} else {}
  }

  lemma {:induction false} OutcomeHas(resolved: seq<(Addr, bool)>, a: Addr, ok: bool)
    ensures a in WithOutcome(resolved, ok) <==> (a, ok) in resolved
  {
    if resolved != [] {
      OutcomeHas(resolved[..|resolved| - 1], a, ok);
      var last := resolved[|resolved| - 1];
      assert resolved == resolved[..|resolved| - 1] + [last];
      assert last == (last.0, last.1);
    }
  }

  /** Each address is greeted with one short Hello, and becomes current or potential by whether that could be sent. */
  ghost predicate Greeted(s: Peer, r: (Peer, seq<Send>), resolved: seq<(Addr, bool)>) {
    && r.0 == s.(cur := r.0.cur, pot := r.0.pot)
    && Joined(s.cur, r.0.cur, WithOutcome(resolved, true)) && Joined(s.pot, r.0.pot, WithOutcome(resolved, false))
    && |r.1| == |resolved| && forall i :: 0 <= i < |resolved| ==> Says(r.1[i], resolved[i].0, Hello(8, false, s.id, 0))
  }

  lemma {:induction false} AddFirstGreets(s: Peer, resolved: seq<(Addr, bool)>, n: nat)
    requires n <= |resolved|
    ensures Greeted(s, AddFirst(s, resolved, n), resolved[..n])
  {
    if n > 0 {
      AddFirstGreets(s, resolved, n - 1);
      assert resolved[..n][..n - 1] == resolved[..n - 1];
      OneMoreGreeted(s, AddFirst(s, resolved, n - 1), resolved[..n - 1], resolved[n - 1].0, resolved[n - 1].1, resolved[..n]);
    }
  }

  lemma OneMoreGreeted(s: Peer, r: (Peer, seq<Send>), first: seq<(Addr, bool)>, a: Addr, ok: bool,
                       all: seq<(Addr, bool)>)
    requires Greeted(s, r, first) && all == first + [(a, ok)]
    ensures Greeted(s, (AddOne(r.0, a, ok), r.1 + [Send(a, HelloMsg(false, r.0.id, 0))]), all)
  {
    OneTlvSays(a, Hello(8, false, s.id, 0));
    assert all[..|all| - 1] == first;
    JoinedOneMore(s.cur, r.0.cur, WithOutcome(first, true), a);
    JoinedOneMore(s.pot, r.0.pot, WithOutcome(first, false), a);
  }

  lemma JoinedOneMore(m: Neighbours, n: Neighbours, added: set<Addr>, a: Addr)
    requires Joined(m, n, added)
    ensures Joined(m, n, added + {}) && Joined(m, AddEntry(n, NewEntry(a)), added + {a})
  {
    assert added + {} == added;
  }

  /** So does a look-up by itself, or for a Neighbour TLV. */
  lemma NeighbourGreets(s: Peer, t: Tlv, from: Addr, env: Env)
    requires t.Neighbour?
    ensures Greeted(s, AddNewNeighbour(s, env.resolved), env.resolved)
    ensures Greeted(s, ProcessTlv(s, t, from, env), env.resolved)
  {
    AddFirstGreets(s, env.resolved, |env.resolved|);
    assert env.resolved[..|env.resolved|] == env.resolved;
  }

  /** After a look-up an address is current exactly if it was or a Hello could be sent to it; else potential likewise. */
  lemma LookedUpIsKnown(s: Peer, resolved: seq<(Addr, bool)>, a: Addr)
    ensures var s' := AddNewNeighbour(s, resolved).0;
            && (a in s'.cur <==> a in s.cur || (a, true) in resolved)
            && (a in s'.pot <==> a in s.pot || (a, false) in resolved)
  {
    AddFirstGreets(s, resolved, |resolved|);
    assert resolved[..|resolved|] == resolved;
    OutcomeHas(resolved, a, true);
    OutcomeHas(resolved, a, false);
  }

  // ---- Hello ----

  /** A potential neighbour has become a current one, unless it was that already. */
  ghost predicate Promoted(s: Peer, s': Peer, a: Addr) {
    && s' == s.(cur := s'.cur, pot := s'.pot)
    && s'.cur.Keys == s.cur.Keys + {a} && s'.pot.Keys == (if a in s.cur then s.pot.Keys else s.pot.Keys - {a})
    && (forall b :: b in s'.cur ==> s'.cur[b] == if b in s.cur then s.cur[b] else Idle(b))
    && forall b :: b in s'.pot ==> s'.pot[b] == s.pot[b]
  }

  /** How many messages answer a Hello. */
  function Answers(t: Tlv): nat
    requires t.Hello?
  {
    if t.isLong then 0 else 1
  }

  /** A short Hello is answered with one long Hello to its sender, and a long one is not. */
  lemma HelloIsAnswered(s: Peer, t: Tlv, from: Addr, env: Env)
    requires t.Hello?
    ensures var sends := ProcessTlv(s, t, from, env).1;
            && Answers(t) <= |sends|
            && (!t.isLong ==> Says(sends[0], from, Hello(16, true, t.source, s.id)))
            && (from in Known(s) ==> |sends| == Answers(t))
            && (from !in Known(s) ==> sends[Answers(t)..] == AddNewNeighbour(s, env.resolved).1)
  {
    OneTlvSays(from, Hello(16, true, t.source, s.id));
  }

  /** What else is sent are short Hellos: for an unknown sender the addresses of the look-up are greeted. */
  lemma UnknownSenderGreets(s: Peer, t: Tlv, from: Addr, env: Env)
    requires t.Hello? && from !in Known(s)
    ensures Answers(t) <= |ProcessTlv(s, t, from, env).1|
    ensures var (s', sends) := ProcessTlv(s, t, from, env); Greeted(s, (s', sends[Answers(t)..]), env.resolved)
  {
    HelloIsAnswered(s, t, from, env);
    AddFirstGreets(s, env.resolved, |env.resolved|);
    assert env.resolved[..|env.resolved|] == env.resolved;
  }

  /** A known sender is promoted. */
  lemma KnownSenderIsPromoted(s: Peer, t: Tlv, from: Addr, env: Env)
    requires Consistent(s) && t.Hello? && from in Known(s)
    ensures Promoted(s, ProcessTlv(s, t, from, env).0, from)
  {
  }

  /** After a Hello a known sender is current; and it is potential exactly if it was in both maps before. */
  lemma KnownSenderIsCurrent(s: Peer, t: Tlv, from: Addr, env: Env)
    requires Consistent(s) && t.Hello? && from in Known(s)
    ensures var s' := ProcessTlv(s, t, from, env).0;
            from in s'.cur && (from in s'.pot <==> from in s.cur && from in s.pot)
  {
    KnownSenderIsPromoted(s, t, from, env);
  }

  /** An address that a look-up yields twice can be in both maps, and a Hello from it leaves it there. */
  lemma PotentialForGood(id: uint64, a: Addr, t: Tlv, env: Env)
    requires t.Hello?
    ensures var s := AddNewNeighbour(Peer(id, map[], map[], map[], [], []), [(a, false), (a, true)]).0;
            && Consistent(s) && a in s.cur && a in s.pot
            && a in ProcessTlv(s, t, a, env).0.pot
  {
    var s0, twice := Peer(id, map[], map[], map[], [], []), [(a, false), (a, true)];
    AddFirstConsistent(s0, twice, 2);
    LookedUpIsKnown(s0, twice, a);
    assert twice[0] in twice && twice[1] in twice;
    var s := AddNewNeighbour(s0, twice).0;
    KnownSenderIsPromoted(s, t, a, env);
  }

  // ---- GoAway, and what has no effect ----

  /** The neighbour has left the current ones and is potential, and nothing is owed to it. */
  ghost predicate Left(s: Peer, s': Peer, a: Addr) {
    && s' == s.(cur := s'.cur, pot := s'.pot)
    && a in s.cur && s'.cur == s.cur - {a}
    && s'.pot.Keys == s.pot.Keys + {a} && s'.pot[a] == Idle(a)
    && forall b :: b in s.pot ==> s'.pot[b] == s.pot[b]
  }

  lemma EvictLeaves(s: Peer, a: Addr)
    requires Consistent(s) && a in s.cur
    ensures Left(s, Evict(s, a), a)
  {
    assert Owe(s, a, []).cur - {a} == s.cur - {a};
  }

  /** A GoAway from a current neighbour makes it potential; from anybody else it does nothing. */
  lemma GoAwayLeaves(s: Peer, t: Tlv, from: Addr, env: Env)
    requires Consistent(s) && t.GoAway?
    ensures var (s', sends) := ProcessTlv(s, t, from, env);
            sends == [] && if from in s.cur then Left(s, s', from) else s' == s
  {
    if from in s.cur {
      EvictLeaves(s, from);
    }
  }

  lemma OthersHaveNoEffect(s: Peer, t: Tlv, from: Addr, env: Env)
    requires t.Pad1? || t.PadN? || t.Warning? || t.Unknown?
    ensures ProcessTlv(s, t, from, env) == (s, [])
  {
  }

  // ---- whole datagrams ----

  /** Any other magic number or version, and the message is ignored. */
  lemma ForeignMessageIgnored(s: Peer, m: Msg, from: Addr, envs: seq<Env>)
    requires |envs| == |m.body| && (m.magic != 93 || m.version != 2)
    ensures ProcessMsg(s, m, from, envs) == (s, [])
  {
  }

  ghost predicate SaidAmong(sends: seq<Send>, dest: Addr, t: Tlv) {
    exists i :: 0 <= i < |sends| && Says(sends[i], dest, t)
  }

  lemma SaidAmongMore(sends: seq<Send>, more: seq<Send>, dest: Addr, t: Tlv)
    requires SaidAmong(sends, dest, t) || SaidAmong(more, dest, t)
    ensures SaidAmong(sends + more, dest, t)
  {
    if SaidAmong(sends, dest, t) {
      var i :| 0 <= i < |sends| && Says(sends[i], dest, t);
      assert (sends + more)[i] == sends[i];
    } else {
      var i :| 0 <= i < |more| && Says(more[i], dest, t);
      assert (sends + more)[|sends| + i] == more[i];
    }
  }

  /** Of the first `n` TLVs each Data is stored and acknowledged. */
  lemma {:induction false} FirstDataStored(s: Peer, ts: seq<Tlv>, from: Addr, envs: seq<Env>, n: nat, i: nat)
    requires i < n <= |ts| == |envs| && ts[i].Data?
    ensures KeyOf(ts[i].body) in ProcessFirst(s, ts, from, envs, n).0.msgList
    ensures SaidAmong(ProcessFirst(s, ts, from, envs, n).1, from, Ack(12, ts[i].body.sender, ts[i].body.nonce))
  {
    var (s1, sends1) := ProcessFirst(s, ts, from, envs, n - 1);
    var t, env, ack := ts[n - 1], envs[n - 1], Ack(12, ts[i].body.sender, ts[i].body.nonce);
    H.HandlerKeepsList(s1, t, from, env);
    if i < n - 1 {
      FirstDataStored(s, ts, from, envs, n - 1, i);
    } else {
      DataIsAcknowledged(s1, t, from, env);
      assert SaidAmong(ProcessTlv(s1, t, from, env).1, from, ack);
    }
    SaidAmongMore(sends1, ProcessTlv(s1, t, from, env).1, from, ack);
  }

  /** Every Data TLV of a datagram before the first PadN is stored and acknowledged. */
  lemma DatagramDataStored(s: Peer, m: Msg, from: Addr, envs: seq<Env>, i: nat)
    requires |envs| == |m.body| && m.magic == 93 && m.version == 2
    requires i < |m.body| && m.body[i].Data? && forall j :: 0 <= j <= i ==> !m.body[j].PadN?
    ensures var (s', sends), b := ProcessMsg(s, m, from, envs), m.body[i].body;
            && KeyOf(b) in s'.msgList
            && SaidAmong(sends, from, Ack(12, b.sender, b.nonce))
  {
    FirstDataStored(s, m.body, from, envs, FirstPadN(m.body, 0), i);
  }

  // ---- the worker's visit ----

  /** The bodies that messages carry in Data TLVs. */
  function BodiesIn(ts: seq<Tlv>): seq<DataBody> {
    if ts == [] then [] else (if ts[0].Data? then [ts[0].body] else []) + BodiesIn(ts[1..])
  }

  function Carried(sends: seq<Send>): seq<DataBody> {
    if sends == [] then [] else BodiesIn(sends[0].msg.body) + Carried(sends[1..])
  }

  predicate HasGoAway(m: Msg) {
    exists i :: 0 <= i < |m.body| && m.body[i].GoAway?
  }

  lemma {:induction false} BodiesInData(bodies: seq<DataBody>)
    ensures BodiesIn(DataTlvs(bodies)) == bodies
  {
    if bodies != [] {
      BodiesInData(bodies[1..]);
      assert DataTlvs(bodies)[1..] == DataTlvs(bodies[1..]);
    }
  }

  lemma {:induction false} CarriedByBatches(a: Addr, batches: seq<seq<DataBody>>, last: seq<Send>)
    ensures Carried(SendsTo(a, batches) + last) == Flatten(batches) + Carried(last)
  {
    if batches == [] {
      assert SendsTo(a, batches) + last == last;
    } else {
      var sends := SendsTo(a, batches) + last;
      assert sends[1..] == SendsTo(a, batches[1..]) + last;
      BodiesInData(batches[0]);
      CarriedByBatches(a, batches[1..], last);
      Associative(batches[0], Flatten(batches[1..]), Carried(last));
    }
  }

  /** Some entry is due that has been tried five times. */
  ghost predicate GivenUp(q: Queue, now: int) {
    exists i :: 0 <= i < |q| && q[i].timeSend < now && q[i].tries >= 5
  }

  lemma StatusIsStop(q: Queue, now: int, pmtu: nat, q': Queue, batches: seq<seq<DataBody>>, status: int)
    requires PassOk(q, now, pmtu, q', batches, status)
    ensures status < 0 <==> GivenUp(q, now)
    ensures Flatten(batches) == DueBodies(q, 0, Stop(q, 0, now), now)
  {
    StopIsFirst(q, 0, now);
    if q != [] {
      BatchesAreDue(q, 0, now, pmtu, [], 0);
      assert forall i :: 0 <= i < |q| ==> (Spent(q[i], now) <==> q[i].timeSend < now && q[i].tries >= 5);
    }
  }

  ghost predicate WithoutGoAway(sends: seq<Send>) {
    forall i :: 0 <= i < |sends| ==> !HasGoAway(sends[i].msg)
  }

  /** The last message sent, and no other, is a GoAway to `a`. */
  ghost predicate EndsInGoAway(sends: seq<Send>, a: Addr) {
    sends != [] && Says(sends[|sends| - 1], a, GoAway(1, 2, [])) && WithoutGoAway(sends[..|sends| - 1])
  }

  ghost predicate AllTo(sends: seq<Send>, a: Addr) {
    forall i :: 0 <= i < |sends| ==> sends[i].dest == a
  }

  lemma DataSends(a: Addr, batches: seq<seq<DataBody>>)
    ensures Carried(SendsTo(a, batches)) == Flatten(batches)
    ensures AllTo(SendsTo(a, batches), a) && WithoutGoAway(SendsTo(a, batches))
  {
    forall i | 0 <= i < |batches| ensures !HasGoAway(SendsTo(a, batches)[i].msg) {
      assert SendsTo(a, batches)[i].msg.body == DataTlvs(batches[i]);
    }
    CarriedByBatches(a, batches, []);
    assert SendsTo(a, batches) + [] == SendsTo(a, batches);
  }

  lemma GoodbyeSends(a: Addr, batches: seq<seq<DataBody>>)
    ensures var sends := SendsTo(a, batches) + [Send(a, GO_AWAY_MSG)];
            Carried(sends) == Flatten(batches) && AllTo(sends, a) && EndsInGoAway(sends, a)
  {
    var goodbye := [Send(a, GO_AWAY_MSG)];
    DataSends(a, batches);
    OneTlvSays(a, GoAway(1, 2, []));
    CarriedByBatches(a, batches, goodbye);
    assert BodiesIn(GO_AWAY_MSG.body[1..]) == [] && goodbye[1..] == [];
    assert (SendsTo(a, batches) + goodbye)[..|batches|] == SendsTo(a, batches);
  }

  /**
   * What a visit sends goes to the neighbour: the due bodies before the first that is given up, in their order, and then,
   * exactly if there is such a one, a GoAway.
   */
  lemma VisitSends(s: Peer, v: NbrPass, now: int)
    requires Consistent(s) && VisitOk(s, v, now)
    ensures var sends, q := WorkerVisit(s, v.addr, v.queue, v.batches, v.status).1, s.cur[v.addr].pending;
            && AllTo(sends, v.addr)
            && Carried(sends) == DueBodies(q, 0, Stop(q, 0, now), now)
            && if GivenUp(q, now) then EndsInGoAway(sends, v.addr) else WithoutGoAway(sends)
  {
    StatusIsStop(s.cur[v.addr].pending, now, s.cur[v.addr].pmtu, v.queue, v.batches, v.status);
    if v.status < 0 {
      GoodbyeSends(v.addr, v.batches);
    } else {
      DataSends(v.addr, v.batches);
    }
  }

  /** The neighbour is evicted exactly if an entry of its list is given up; else its list has gone through the pass. */
  lemma VisitEffects(s: Peer, v: NbrPass, now: int)
    requires Consistent(s) && VisitOk(s, v, now)
    ensures var s' := WorkerVisit(s, v.addr, v.queue, v.batches, v.status).0;
            if GivenUp(s.cur[v.addr].pending, now) then Left(s, s', v.addr)
            else OnlyOwed(s, s', v.addr, v.queue) && Passed(s.cur[v.addr].pending, v.queue, now)
  {
    StatusIsStop(s.cur[v.addr].pending, now, s.cur[v.addr].pmtu, v.queue, v.batches, v.status);
    var s1 := Owe(s, v.addr, v.queue);
    WorkerConsistent(s, v.addr, now, v.queue, v.batches, v.status);
    EvictLeaves(s1, v.addr);
    assert s1.cur - {v.addr} == s.cur - {v.addr};
  }

  // ---- purging ----

  /** The `n` oldest messages have left the list and every pending list, and nothing else has changed. */
  ghost predicate Forgotten(s: Peer, s': Peer, n: nat)
    requires n <= |s.msgList|
  {
    var kept := |s.msgList| - n;
    && s' == s.(msgList := s.msgList[..kept], cur := s'.cur)
    && Settled(s.cur, s'.cur, Elems(s.msgList[kept..]))
  }

  /** The messages are off every pending list, and nothing else is. */
  ghost predicate Settled(m: Neighbours, n: Neighbours, ks: set<MsgKey>) {
    && n.Keys == m.Keys
    && forall a :: a in m ==> n[a] == m[a].(pending := Without(m[a].pending, ks))
  }

  lemma SettledTwice(m: Neighbours, n: Neighbours, p: Neighbours, ks: set<MsgKey>, ks': set<MsgKey>)
    requires Settled(m, n, ks) && Settled(n, p, ks')
    ensures Settled(m, p, ks + ks')
  {
    forall a | a in m ensures p[a] == m[a].(pending := Without(m[a].pending, ks + ks')) {
      WithoutTwice(m[a].pending, ks, ks');
    }
  }

  lemma RmMsgForgets(s: Peer)
    requires Consistent(s) && s.msgList != []
    ensures Forgotten(s, RmMsg(s), 1)
  {
    var n := |s.msgList| - 1;
    assert s.msgList[n..] == [s.msgList[n]] && Elems(s.msgList[n..]) == {s.msgList[n]};
    forall a | a in s.cur ensures RmKey(s.cur[a].pending, s.msgList[n]) == Without(s.cur[a].pending, {s.msgList[n]}) {
      RmKeyIsWithout(s.cur[a].pending, s.msgList[n]);
    }
  }

  function Min(a: nat, b: nat): nat {
    if a < b then a else b
  }

  lemma NothingForgotten(s: Peer)
    ensures Forgotten(s, s, 0)
  {
    assert Elems(s.msgList[|s.msgList|..]) == {};
    forall a | a in s.cur ensures s.cur[a].pending == Without(s.cur[a].pending, {}) {
      WithoutNone(s.cur[a].pending);
    }
  }

  /** `rm_n_msg` forgets exactly the oldest messages, `n` of them or all there are. */
  lemma {:induction false} PurgedForgets(s: Peer, n: nat)
    requires Consistent(s)
    ensures Forgotten(s, Purged(s, n), Min(n, |s.msgList|))
    decreases n
  {
    if n == 0 || s.msgList == [] {
      PurgedNothing(s, n);
      NothingForgotten(s);
    } else {
      var s1 := RmMsg(s);
      RmMsgForgets(s);
      PurgeConsistent(s);
      PurgedForgets(s1, n - 1);
      assert Purged(s, n) == Purged(s1, n - 1);
      ForgottenOn(s, s1, Purged(s1, n - 1), 1, Min(n - 1, |s.msgList| - 1));
    }
  }

  lemma ForgottenOn(s: Peer, s1: Peer, s2: Peer, m: nat, n: nat)
    requires m <= |s.msgList| && Forgotten(s, s1, m) && n <= |s1.msgList| && Forgotten(s1, s2, n)
    ensures Forgotten(s, s2, m + n)
  {
    var list, kept1, kept2 := s.msgList, |s.msgList| - m, |s.msgList| - m - n;
    assert list[kept2..] == list[..kept1][kept2..] + list[kept1..];
    assert Elems(list[kept2..]) == Elems(list[kept1..]) + Elems(list[..kept1][kept2..]);
    assert list[..kept1][..kept2] == list[..kept2];
    SettledTwice(s.cur, s1.cur, s2.cur, Elems(list[kept1..]), Elems(list[..kept1][kept2..]));
  }
}
