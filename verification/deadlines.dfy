// How soon a debt is settled, and a message flooded, when the workers keep going round.

module Deadlines {
  import opened Bits
  import opened Codec
  import opened Flood
  import opened PeerModel
  import opened PendingQueue

  // ---- where an entry comes from ----

  /** What `a` is owed it was owed before, or it has just been tried, or just been queued for a message that is new. */
  ghost predicate EntryFrom(s: Peer, s': Peer, a: Addr, e: Pending, now: int) {
    a in s'.cur && e in s'.cur[a].pending
    ==> && a in s.cur
        && (e in s.cur[a].pending || TriedFrom(s.cur[a].pending, e, now) || JustQueued(s, e, now))
  }

  ghost predicate TriedFrom(q: Queue, e: Pending, now: int) {
    exists e0 :: e0 in q && e0.tries < MAX_TRIES && Tried(e0, e, now)
  }

  ghost predicate JustQueued(s: Peer, e: Pending, now: int) {
    KeyOf(e.body) !in s.msgList && e == NewPending(e.body, now)
  }

  lemma AddMsgEntry(s: Peer, b: DataBody, now: int, a: Addr, e: Pending)
    ensures EntryFrom(s, AddMsg(s, b, now), a, e, now)
  {
  }

  lemma {:induction false} AddFirstEntry(s: Peer, resolved: seq<(Addr, bool)>, n: nat, a: Addr, e: Pending, now: int)
    requires n <= |resolved|
    ensures EntryFrom(s, AddFirst(s, resolved, n).0, a, e, now)
  {
    if n > 0 {
      AddFirstEntry(s, resolved, n - 1, a, e, now);
    }
  }

  lemma {:induction false} RmKeyKeeps(q: Queue, k: MsgKey, e: Pending)
    requires e in RmKey(q, k)
    ensures e in q
  {
    if q != [] && KeyOf(q[0].body) != k && e != q[0] {
      RmKeyKeeps(q[1..], k, e);
    }
  }

  lemma HandlerEntry(s: Peer, t: Tlv, from: Addr, env: Env, a: Addr, e: Pending)
    requires Consistent(s)
    ensures EntryFrom(s, ProcessTlv(s, t, from, env).0, a, e, env.now)
  {
    match t
    case Hello(_, _, _, _) =>
      AddFirstEntry(s, env.resolved, |env.resolved|, a, e, env.now);
    case Neighbour(_, _, _) =>
      AddFirstEntry(s, env.resolved, |env.resolved|, a, e, env.now);
    case Data(_, b) =>
      AddMsgEntry(s, b, env.now, a, e);
    case Ack(_, sender, nonce) =>
      if from in s.cur && e in RmKey(s.cur[from].pending, MsgKey(sender, nonce)) {
        RmKeyKeeps(s.cur[from].pending, MsgKey(sender, nonce), e);
      }
    case _ =>
  }

  lemma PassEntry(q: Queue, q': Queue, now: int, e: Pending)
    requires Passed(q, q', now) && e in q'
    ensures e in q || TriedFrom(q, e, now)
  {
    StopIsFirst(q, 0, now);
    var i :| 0 <= i < |q'| && q'[i] == e;
    assert PassedAt(q, q', now, i);
  }

  lemma VisitEntry(s: Peer, a: Addr, q': Queue, batches: seq<seq<DataBody>>, status: int, now: int, p: Addr, e: Pending)
    requires Consistent(s) && a in s.cur && PassOk(s.cur[a].pending, now, s.cur[a].pmtu, q', batches, status)
    ensures EntryFrom(s, WorkerVisit(s, a, q', batches, status).0, p, e, now)
  {
    if s.cur[a].pending != [] && e in q' {
      PassEntry(s.cur[a].pending, q', now, e);
    }
  }

  lemma StepEntry(s: Net, step: Step, n: Addr, a: Addr, e: Pending)
    requires Inv(s) && Enabled(s, step) && n in s.peers
    ensures n in Do(s, step).peers && EntryFrom(s.peers[n], Do(s, step).peers[n], a, e, s.clock)
  {
    match step
    case Tick(_) =>
    case Originate(m, body) =>
      AddMsgEntry(s.peers[m], body, s.clock, a, e);
    case LookUp(m, resolved) =>
      AddFirstEntry(s.peers[m], resolved, |resolved|, a, e, s.clock);
    case Handle(packet, i, resolved) =>
      HandlerEntry(s.peers[packet.dst], HandledTlv(packet, i).value, packet.src, Env(s.clock, resolved), a, e);
    case Visit(m, p, q', batches, status) =>
      VisitEntry(s.peers[m], p, q', batches, status, s.clock, a, e);
  }

  ghost predicate Owed(s: Net, n: Addr, a: Addr, e: Pending) {
    Linked(s, n, a) && e in s.peers[n].cur[a].pending
  }

  lemma EntryOneStepBefore(run: seq<Net>, i: nat, n: Addr, a: Addr, e: Pending)
    requires IsRun(run) && 0 < i < |run| && Owed(run[i], n, a, e)
    ensures Linked(run[i - 1], n, a) && EntryFrom(run[i - 1].peers[n], run[i].peers[n], a, e, run[i - 1].clock)
  {
    RunGrows(run, i - 1, i);
    RunKeepsInv(run, i - 1);
    var step := StepTo(run, i);
    StepEntry(run[i - 1], step, n, a, e);
  }

  // ---- a worker that keeps going round ----

  /** The step from state `i` is the worker's visit. */
  ghost predicate VisitedAt(run: seq<Net>, i: nat, n: Addr, a: Addr)
    requires i + 1 < |run|
  {
    exists q', batches, status ::
      && Enabled(run[i], Visit(n, a, q', batches, status))
      && run[i + 1] == Do(run[i], Visit(n, a, q', batches, status))
  }

  /** In every stretch of more than `g` seconds in which `a` is current at `n`, the worker of `n` visits it. */
  ghost predicate Attentive(run: seq<Net>, n: Addr, a: Addr, g: nat) {
    forall i, j {:trigger VisitedWithin(run, i, j, n, a)} ::
      0 <= i < j < |run| && run[j].clock > run[i].clock + g && LinkedFrom(run, i, j, n, a)
      ==> VisitedWithin(run, i, j, n, a)
  }

  ghost predicate LinkedFrom(run: seq<Net>, i: nat, j: nat, n: Addr, a: Addr)
    requires j < |run|
  {
    forall m :: i <= m <= j ==> Linked(run[m], n, a)
  }

  ghost predicate VisitedWithin(run: seq<Net>, i: nat, j: nat, n: Addr, a: Addr)
    requires j < |run|
  {
    exists m :: i <= m < j && VisitedAt(run, m, n, a)
  }

  /** A visit leaves nothing that was due as it was: it has been tried, or everything has been given up. */
  lemma VisitLeavesNothingDue(run: seq<Net>, i: nat, n: Addr, a: Addr, e: Pending)
    requires IsRun(run) && i + 1 < |run| && VisitedAt(run, i, n, a) && Owed(run[i], n, a, e) && Due(e, run[i].clock)
    ensures run[i + 1].clock == run[i].clock && !Owed(run[i + 1], n, a, e)
  {
    var q', batches, status :| Enabled(run[i], Visit(n, a, q', batches, status))
      && run[i + 1] == Do(run[i], Visit(n, a, q', batches, status));
    RunKeepsInv(run, i);
    var s, now := run[i].peers[n], run[i].clock;
    var q := s.cur[a].pending;
    BatchesAreDue(q, 0, now, s.cur[a].pmtu, [], 0);
    if status < 0 {
      WorkerConsistent(s, a, now, q', batches, status);
      EvictConsistent(Owe(s, a, q'), a);
    } else {
      forall x | 0 <= x < |q'| ensures q'[x] != e {
        assert PassedAt(q, q', now, x);
      }
    }
  }

  // ---- no entry is late ----

  /** Since state `s`, when it was not due yet, the entry has been owed as it is. */
  ghost predicate WaitingSince(run: seq<Net>, s: nat, i: nat, n: Addr, a: Addr, e: Pending) {
    s <= i < |run| && run[s].clock <= e.timeSend && forall m :: s <= m <= i ==> Owed(run[m], n, a, e)
  }

  lemma {:induction false} WaitsSince(run: seq<Net>, i: nat, n: Addr, a: Addr, e: Pending) returns (s: nat)
    requires IsRun(run) && i < |run| && Owed(run[i], n, a, e)
    ensures WaitingSince(run, s, i, n, a, e)
  {
    if i == 0 {
      assert false;
    } else {
      EntryOneStepBefore(run, i, n, a, e);
      RunGrows(run, i - 1, i);
      if Owed(run[i - 1], n, a, e) {
        s := WaitsSince(run, i - 1, n, a, e);
      } else {
        s := i;
        NewEntryWaits(run, i, n, a, e);
      }
    }
  }

  /** An entry that is not as it was one state ago is due later. */
  lemma NewEntryWaits(run: seq<Net>, i: nat, n: Addr, a: Addr, e: Pending)
    requires IsRun(run) && 0 < i < |run| && Owed(run[i], n, a, e) && !Owed(run[i - 1], n, a, e)
    ensures run[i].clock == run[i - 1].clock < e.timeSend
  {
    var step := StepTo(run, i);
    EntryOneStepBefore(run, i, n, a, e);
  }

  /** The last state at which it was not due. */
  lemma {:induction false} LastNotDue(run: seq<Net>, s: nat, i: nat, time: int) returns (l: nat)
    requires s <= i < |run| && run[s].clock <= time < run[i].clock
    ensures s <= l < i && run[l].clock <= time && forall m :: l < m <= i ==> run[m].clock > time
    decreases i - s
  {
    if run[i - 1].clock <= time {
      l := i - 1;
    } else {
      l := LastNotDue(run, s, i - 1, time);
    }
  }

  /** No entry is more than `g` seconds past the time it is due. */
  lemma NeverLate(run: seq<Net>, i: nat, n: Addr, a: Addr, e: Pending, g: nat)
    requires IsRun(run) && i < |run| && Attentive(run, n, a, g) && Owed(run[i], n, a, e)
    ensures run[i].clock <= e.timeSend + g
  {
    if run[i].clock > e.timeSend + g {
      var s := WaitsSince(run, i, n, a, e);
      var l := LastNotDue(run, s, i, e.timeSend);
      assert LinkedFrom(run, l, i, n, a);
      assert VisitedWithin(run, l, i, n, a);
      var m :| l <= m < i && VisitedAt(run, m, n, a);
      assert run[m + 1].clock == run[m].clock;
      VisitLeavesNothingDue(run, m, n, a, e);
      assert false;
    }
  }

  /** Every try has come at most `g` seconds after its time, which was drawn as it should be. */
  ghost predicate Prompt(e: Pending, g: nat) {
    && e.tries == |e.sent| <= MAX_TRIES
    && (forall i: nat :: i < |e.sent| ==> e.sent[i] < Previous(e, i) + Pow2(i + 1) + g)
    && e.timeSend < Previous(e, |e.sent|) + Pow2(e.tries + 1)
  }

  lemma TriedIsPrompt(e0: Pending, e: Pending, now: int, g: nat)
    requires Prompt(e0, g) && e0.tries < MAX_TRIES && Tried(e0, e, now) && now <= e0.timeSend + g
    ensures Prompt(e, g) && e.queued == e0.queued
  {
    forall i: nat | i < |e.sent| ensures e.sent[i] < Previous(e, i) + Pow2(i + 1) + g {
      if i < |e0.sent| {
        assert e0.sent[i] < Previous(e0, i) + Pow2(i + 1) + g;
      }
    }
  }

  lemma {:induction false} AlwaysPrompt(run: seq<Net>, i: nat, n: Addr, a: Addr, e: Pending, g: nat)
    requires IsRun(run) && i < |run| && Attentive(run, n, a, g) && Owed(run[i], n, a, e)
    ensures Prompt(e, g)
  {
    if i == 0 {
      assert false;
    } else {
      EntryOneStepBefore(run, i, n, a, e);
      var q, now := run[i - 1].peers[n].cur[a].pending, run[i - 1].clock;
      if e in q {
        AlwaysPrompt(run, i - 1, n, a, e, g);
      } else if TriedFrom(q, e, now) {
        var e0 :| e0 in q && e0.tries < MAX_TRIES && Tried(e0, e, now);
        AlwaysPrompt(run, i - 1, n, a, e0, g);
        NeverLate(run, i - 1, n, a, e0, g);
        TriedIsPrompt(e0, e, now, g);
      } else {
        OnlyOneSecond(now, e.timeSend);
        assert Pow2(1) == 2;
      }
    }
  }

  // ---- debts are settled ----

  /** The seconds that `n` consecutive waits take at most, apart from the worker's delays. */
  function LongestWait(n: nat): nat {
    if n == 0 then 0 else LongestWait(n - 1) + Pow2(n) - 1
  }

  lemma {:induction false} PromptWaitsAddUp(e: Pending, g: nat, n: nat)
    requires Prompt(e, g) && n <= |e.sent|
    ensures Previous(e, n) <= e.queued + LongestWait(n) + n * g
  {
    if n > 0 {
      PromptWaitsAddUp(e, g, n - 1);
      assert e.sent[n - 1] < Previous(e, n - 1) + Pow2(n - 1 + 1) + g;
    }
  }

  lemma LongestWaits()
    ensures LongestWait(1) == 1 && LongestWait(2) == 4 && LongestWait(3) == 11 && LongestWait(4) == 26
    ensures LongestWait(5) == 57 && LongestWait(6) == 120
  {
    assert Pow2(2) == 4;
    assert Pow2(4) == 16;
    assert Pow2(6) == 64;
    assert LongestWait(2) == 4;
    assert LongestWait(4) == 26;
  }

  /** The seconds within which an entry is settled, when the worker comes by every `g` seconds. */
  function SettlingTime(g: nat): nat {
    120 + 6 * g
  }

  /**
   * If the worker visits a neighbour in every stretch of more than `g` seconds, then an entry that is still pending was
   * queued at most 120 + 6g seconds ago: after that it has been acknowledged, or given up together with the neighbour.
   */
  lemma DebtsAreSettled(run: seq<Net>, i: nat, n: Addr, a: Addr, e: Pending, g: nat)
    requires IsRun(run) && i < |run| && Attentive(run, n, a, g) && Owed(run[i], n, a, e)
    ensures run[i].clock <= e.queued + SettlingTime(g)
  {
    AlwaysPrompt(run, i, n, a, e, g);
    NeverLate(run, i, n, a, e, g);
    PromptWaitsAddUp(e, g, |e.sent|);
    LongestWaits();
    assert LongestWait(|e.sent|) + Pow2(|e.sent| + 1) - 1 == LongestWait(|e.sent| + 1) <= 120;
  }

  // ---- flooding takes so long ----

  /** What a peer owes of a message that it had stored was queued by then. */
  lemma {:induction false} QueuedByThen(run: seq<Net>, i0: nat, i: nat, n: Addr, a: Addr, e: Pending)
    requires IsRun(run) && i0 <= i < |run| && Stored(run[i0], n, KeyOf(e.body)) && Owed(run[i], n, a, e)
    ensures e.queued <= run[i0].clock
    decreases i
  {
    if i == i0 {
      RunKeepsInv(run, i);
      var q := run[i].peers[n].cur[a].pending;
      assert QueueGenuine(q, run[i].originated, run[i].clock);
      var x :| 0 <= x < |q| && q[x] == e;
      assert Timed(e, run[i].clock);
      WaitsAddUp(e, run[i].clock, |e.sent|);
    } else {
      EntryOneStepBefore(run, i, n, a, e);
      RunGrows(run, i0, i - 1);
      var q, now := run[i - 1].peers[n].cur[a].pending, run[i - 1].clock;
      if e in q {
        QueuedByThen(run, i0, i - 1, n, a, e);
      } else {
        var e0 :| e0 in q && e0.tries < MAX_TRIES && Tried(e0, e, now);
        QueuedByThen(run, i0, i - 1, n, a, e0);
      }
    }
  }

  /** A message that a peer has stored is not pending there for an attended neighbour any more. */
  lemma SettledByThen(run: seq<Net>, i0: nat, i: nat, n: Addr, a: Addr, k: MsgKey, g: nat)
    requires IsRun(run) && i0 <= i < |run| && Stored(run[i0], n, k) && Attentive(run, n, a, g)
    requires run[i].clock > run[i0].clock + SettlingTime(g)
    ensures !PendingAt(run[i], n, a, k)
  {
    if PendingAt(run[i], n, a, k) {
      var q := run[i].peers[n].cur[a].pending;
      var x :| 0 <= x < |q| && Keys(q)[x] == k;
      DebtsAreSettled(run, i, n, a, q[x], g);
      QueuedByThen(run, i0, i, n, a, q[x]);
      assert false;
    }
  }

  /**
   * If every worker keeps going round, then a message is pending nowhere once nobody has stored it anew for 120 + 6g
   * seconds: what completes flooding comes about by itself.
   */
  lemma QuiescentByThen(run: seq<Net>, i0: nat, i: nat, k: MsgKey, g: nat)
    requires IsRun(run) && i0 <= i < |run| && forall n, a :: Attentive(run, n, a, g)
    requires forall n :: Stored(run[i], n, k) ==> Stored(run[i0], n, k)
    requires run[i].clock > run[i0].clock + SettlingTime(g)
    ensures Quiescent(run[i], k)
  {
    forall n, a ensures !PendingAt(run[i], n, a, k) {
      if PendingAt(run[i], n, a, k) {
        RunKeepsInv(run, i);
        assert Stored(run[i], n, k);
        SettledByThen(run, i0, i, n, a, k, g);
      }
    }
  }

  lemma OneHop(run: seq<Net>, i0: nat, n: Addr, p: Addr, k: MsgKey, g: nat, last: nat) returns (i: nat)
    requires IsRun(run) && i0 <= last < |run| && StayedCurrent(run, n, p, k) && Attentive(run, n, p, g)
    requires Stored(run[i0], n, k) && run[last].clock > run[i0].clock + SettlingTime(g)
    ensures i0 <= i < last && run[i].clock <= run[i0].clock + SettlingTime(g) && Stored(run[i], p, k)
  {
    var time := run[i0].clock + SettlingTime(g);
    i := LastNotDue(run, i0, last, time);
    RunGrows(run, 0, i0);
    RunGrows(run, i0, i);
    RunGrows(run, i0, i + 1);
    SettledByThen(run, i0, i + 1, n, p, k, g);
    LinkServed(run, i + 1, n, p, k);
    ClockStep(run, i);
  }

  /** The step that moves the clock changes no peer. */
  lemma ClockStep(run: seq<Net>, i: nat)
    requires IsRun(run) && i + 1 < |run| && run[i].clock < run[i + 1].clock
    ensures run[i + 1].peers == run[i].peers
  {
    var step := StepTo(run, i + 1);
  }

  /**
   * Flooding is complete in time: if the links of a path stay current, and the workers visit them in every stretch of
   * more than `g` seconds, then the peer at distance `d` has stored the message within d * (120 + 6g) seconds, whatever
   * the network lost, duplicated or reordered.
   */
  lemma {:induction false} FloodedByThen(run: seq<Net>, path: seq<Addr>, k: MsgKey, i0: nat, g: nat, d: nat)
      returns (i: nat)
    requires IsRun(run) && i0 < |run| && d < |path| && SteadyPath(run, path, k)
    requires forall x :: 0 <= x < |path| - 1 ==> Attentive(run, path[x], path[x + 1], g)
    requires Stored(run[i0], path[0], k) && run[|run| - 1].clock > run[i0].clock + d * SettlingTime(g)
    ensures i < |run| && run[i].clock <= run[i0].clock + d * SettlingTime(g) && Stored(run[i], path[d], k)
  {
    if d == 0 {
      i := i0;
    } else {
      var t := SettlingTime(g);
      assert d * t == (d - 1) * t + t;
      i := FloodedByThen(run, path, k, i0, g, d - 1);
      assert StayedCurrent(run, path[d - 1], path[d - 1 + 1], k) && Attentive(run, path[d - 1], path[d - 1 + 1], g);
      i := OneHop(run, i, path[d - 1], path[d], k, g, |run| - 1);
    }
  }
}
