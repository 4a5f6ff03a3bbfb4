// Whole histories of one peer, purging included: what stays consistent, and what is shown when.

module PeerHistory {
  import opened Codec
  import opened PeerModel
  import opened PendingQueue
  import opened Sequences
  import opened Wrappers

  /** What can happen to a peer. */
  datatype Event =
    | Handled(t: Tlv, from: Addr, env: Env)
    | Originated(b: DataBody, now: int)
    | LookedUp(resolved: seq<(Addr, bool)>)
    | Visited(v: NbrPass, now: int)
    | Purged

  ghost predicate Happens(s: Peer, e: Event, s': Peer) {
    match e
    case Handled(t, from, env) => s' == ProcessTlv(s, t, from, env).0
    case Originated(b, now) => s' == AddMsg(s, b, now)
    case LookedUp(resolved) => s' == AddNewNeighbour(s, resolved).0
    case Visited(v, now) => VisitOk(s, v, now) && s' == WorkerVisit(s, v.addr, v.queue, v.batches, v.status).0
    case Purged => (s.msgList != [] ==> s.msgList[|s.msgList| - 1] in s.msgMap) && s' == RmMsg(s)
  }

  ghost predicate HappensAt(h: seq<Peer>, es: seq<Event>, i: nat)
    requires i < |es| && i + 1 < |h|
  {
    Happens(h[i], es[i], h[i + 1])
  }

  /** The states of a peer that starts empty. */
  ghost predicate IsHistory(h: seq<Peer>, es: seq<Event>) {
    && |h| == |es| + 1
    && h[0] == Peer(h[0].id, map[], map[], map[], [], [])
    && forall i {:trigger HappensAt(h, es, i)} :: 0 <= i < |es| ==> HappensAt(h, es, i)
  }

  // ---- consistency ----

  lemma EventConsistent(s: Peer, e: Event, s': Peer)
    requires Consistent(s) && Happens(s, e, s')
    ensures Consistent(s')
  {
    match e
    case Handled(t, from, env) => HandlerConsistent(s, t, from, env);
    case Originated(b, now) => AddMsgConsistent(s, b, now);
    case LookedUp(resolved) => AddFirstConsistent(s, resolved, |resolved|);
    case Visited(v, now) => WorkerConsistent(s, v.addr, now, v.queue, v.batches, v.status);
    case Purged => PurgeConsistent(s);
  }

  /** In every state of every history store and pending lists are consistent, however often messages were purged. */
  lemma {:induction false} AlwaysConsistent(h: seq<Peer>, es: seq<Event>, i: nat)
    requires IsHistory(h, es) && i < |h|
    ensures Consistent(h[i])
  {
    if i > 0 {
      AlwaysConsistent(h, es, i - 1);
      assert HappensAt(h, es, i - 1);
      EventConsistent(h[i - 1], es[i - 1], h[i]);
    }
  }

  /** A message that is not in the list is pending nowhere; so a purged one is not, until it comes in again. */
  lemma NothingPendingUnstored(h: seq<Peer>, es: seq<Event>, i: nat, a: Addr, k: MsgKey)
    requires IsHistory(h, es) && i < |h| && k !in h[i].msgList && a in h[i].cur
    ensures !HasKey(h[i].cur[a].pending, k)
  {
    AlwaysConsistent(h, es, i);
  }

  // ---- what is shown ----

  /** The message that an event brings in. */
  function Brings(e: Event): Option<DataBody> {
    match e
    case Handled(Data(_, b), _, _) => Some(b)
    case Originated(b, _) => Some(b)
    case _ => None
  }

  predicate BringsKey(e: Event, k: MsgKey) {
    Brings(e).Some? && KeyOf(Brings(e).value) == k
  }

  ghost predicate PurgesKey(s: Peer, e: Event, k: MsgKey) {
    e.Purged? && s.msgList != [] && s.msgList[|s.msgList| - 1] == k
  }

  ghost predicate PurgedBetween(h: seq<Peer>, es: seq<Event>, j: nat, i: nat, k: MsgKey)
    requires i <= |es| <= |h|
  {
    exists m :: j < m < i && PurgesKey(h[m], es[m], k)
  }

  /** Whenever the message came in before, it has been purged since. */
  ghost predicate IsNew(h: seq<Peer>, es: seq<Event>, i: nat, k: MsgKey)
    requires i <= |es| <= |h|
  {
    forall j :: 0 <= j < i && BringsKey(es[j], k) ==> PurgedBetween(h, es, j, i, k)
  }

  lemma {:induction false} AddFirstKeepsList(s: Peer, resolved: seq<(Addr, bool)>, n: nat)
    requires n <= |resolved|
    ensures var s' := AddFirst(s, resolved, n).0; s'.msgList == s.msgList && s'.display == s.display
  {
    if n > 0 {
      AddFirstKeepsList(s, resolved, n - 1);
    }
  }

  lemma HandlerKeepsList(s: Peer, t: Tlv, from: Addr, env: Env)
    ensures var s' := ProcessTlv(s, t, from, env).0;
            if t.Data? then s' == AddMsg(s, t.body, env.now) else s'.msgList == s.msgList && s'.display == s.display
  {
    AddFirstKeepsList(s, env.resolved, |env.resolved|);
  }

  /** What one event does to the list and to what has been shown. */
  lemma EventList(s: Peer, e: Event, s': Peer, k: MsgKey)
    requires Consistent(s) && Happens(s, e, s')
    ensures k in s'.msgList <==> BringsKey(e, k) || (k in s.msgList && !PurgesKey(s, e, k))
    ensures s'.display == if Brings(e).Some? && KeyOf(Brings(e).value) !in s.msgList then s.display + [Brings(e).value]
                          else s.display
  {
    match e
    case Handled(t, from, env) => HandlerKeepsList(s, t, from, env);
    case LookedUp(resolved) => AddFirstKeepsList(s, resolved, |resolved|);
    case Purged =>
      if s.msgList != [] {
        var n := |s.msgList| - 1;
        NoDupWithout(s.msgList, n);
        assert s.msgList[..n] + s.msgList[n + 1..] == s.msgList[..n];
        assert s.msgList == s.msgList[..n] + [s.msgList[n]];
      }
    case _ =>
  }

  lemma {:induction false} StoredUnlessNew(h: seq<Peer>, es: seq<Event>, i: nat, k: MsgKey)
    requires IsHistory(h, es) && i <= |es|
    ensures k !in h[i].msgList <==> IsNew(h, es, i, k)
  {
    if i > 0 {
      var last := i - 1;
      StoredUnlessNew(h, es, last, k);
      AlwaysConsistent(h, es, last);
      assert HappensAt(h, es, last);
      EventList(h[last], es[last], h[i], k);
      if IsNew(h, es, i, k) {
        assert !BringsKey(es[last], k);
        if !PurgesKey(h[last], es[last], k) {
          forall j | 0 <= j < last && BringsKey(es[j], k) ensures PurgedBetween(h, es, j, last, k) {
            assert PurgedBetween(h, es, j, i, k);
          }
        }
      } else {
        var j :| 0 <= j < i && BringsKey(es[j], k) && !PurgedBetween(h, es, j, i, k);
        if j < last {
          assert !PurgedBetween(h, es, j, last, k);
        }
      }
    }
  }

  /** In every history a message that comes in is shown exactly if it never came in before or has been purged since. */
  lemma ShownExactlyIfNew(h: seq<Peer>, es: seq<Event>, i: nat)
    requires IsHistory(h, es) && i < |es|
    ensures Brings(es[i]).None? ==> h[i + 1].display == h[i].display
    ensures Brings(es[i]).Some? ==>
              var b := Brings(es[i]).value;
              h[i + 1].display == h[i].display + if IsNew(h, es, i, KeyOf(b)) then [b] else []
  {
    AlwaysConsistent(h, es, i);
    assert HappensAt(h, es, i);
    if Brings(es[i]).Some? {
      StoredUnlessNew(h, es, i, KeyOf(Brings(es[i]).value));
    }
    EventList(h[i], es[i], h[i + 1], MsgKey(0, 0));
  }
}
