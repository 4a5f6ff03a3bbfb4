// What a neighbour is still owed: the queue entries of src/types.c, their removal in src/msg_list.c, and the worker's
// pass over them in src/worker.c.

module PendingQueue {
  import opened Bits
  import opened Codec
  import opened Sequences
  import opened Wire
  import opened Wrappers

  /** The pair that names a message globally. */
  datatype MsgKey = MsgKey(sender: uint64, nonce: uint32)

  function KeyOf(b: DataBody): MsgKey {
    MsgKey(b.sender, b.nonce)
  }

  /** `dllist_msg_t`, with its history: when it was queued and when it was sent. */
  datatype Pending = Pending(body: DataBody, tries: nat, timeSend: int, queued: int, sent: seq<int>)

  type Queue = seq<Pending>

  function Keys(q: Queue): seq<MsgKey> {
    seq(|q|, i requires 0 <= i < |q| => KeyOf(q[i].body))
  }

  ghost predicate HasKey(q: Queue, k: MsgKey) {
    k in Keys(q)
  }

  ghost predicate DistinctKeys(q: Queue) {
    NoDup(Keys(q))
  }

  // ---- send times ----

  /** What `set_time_send` may answer: a delay drawn from [2^tries, 2^(tries+1)). */
  ghost predicate Scheduled(now: int, tries: nat, time: int) {
    now + Pow2(tries) <= time < now + Pow2(tries + 1)
  }

  method SetTimeSend(tries: nat, now: int, random: nat) returns (time: int)
    ensures Scheduled(now, tries, time)
  {
    var min, max := Pow2(tries), Pow2(tries + 1);
    var r := random % (max - min) + min;
    time := now + r;
  }

  /** `new_dllist_msg`: with no try made, the delay can only be one second. */
  function NewPending(b: DataBody, now: int): (e: Pending)
    ensures Scheduled(now, 0, e.timeSend)
  {
    assert Pow2(1) == 2 * Pow2(0);
    Pending(b, 0, now + 1, now, [])
  }

  lemma OnlyOneSecond(now: int, time: int)
    ensures Scheduled(now, 0, time) <==> time == now + 1
  {
    assert Pow2(1) == 2 * Pow2(0);
  }

  /** The seconds that `n` consecutive waits take at least. */
  function Elapsed(n: nat): nat {
    if n == 0 then 0 else Elapsed(n - 1) + Pow2(n - 1) + 1
  }

  function Previous(e: Pending, i: nat): int
    requires i <= |e.sent|
  {
    if i == 0 then e.queued else e.sent[i - 1]
  }

  const MAX_TRIES := 5

  /** The retry discipline of an entry, at a time `now`. */
  ghost predicate Timed(e: Pending, now: int) {
    && e.tries == |e.sent| <= MAX_TRIES
    && (forall i: nat :: i < |e.sent| ==> e.sent[i] >= Previous(e, i) + Pow2(i) + 1)
    && e.timeSend >= Previous(e, |e.sent|) + Pow2(e.tries)
    && Previous(e, |e.sent|) <= now
  }

  lemma {:induction false} WaitsAddUp(e: Pending, now: int, n: nat)
    requires Timed(e, now) && n <= |e.sent|
    ensures Previous(e, n) >= e.queued + Elapsed(n)
  {
    if n > 0 {
      WaitsAddUp(e, now, n - 1);
      assert e.sent[n - 1] >= Previous(e, n - 1) + Pow2(n - 1) + 1;
    }
  }

  /** An entry that is given up has been queued for 69 seconds. */
  lemma GivenUpLate(e: Pending, before: int, now: int)
    requires Timed(e, before) && e.tries >= MAX_TRIES && e.timeSend < now
    ensures now >= e.queued + 69
  {
    WaitsAddUp(e, before, 5);
    assert Elapsed(5) == 36 && Pow2(5) == 32 by {
      assert Pow2(2) == 4 && Pow2(3) == 8 && Pow2(4) == 16;
      assert Elapsed(2) == 5 && Elapsed(3) == 10 && Elapsed(4) == 19;
    }
  }

  // ---- rm_nbr_msg ----

  function RmKey(q: Queue, k: MsgKey): Queue {
    if q == [] then [] else if KeyOf(q[0].body) == k then q[1..] else [q[0]] + RmKey(q[1..], k)
  }

  lemma {:induction false} RmKeyAt(q: Queue, k: MsgKey, i: nat)
    requires i < |q| && KeyOf(q[i].body) == k && forall j :: 0 <= j < i ==> KeyOf(q[j].body) != k
    ensures RmKey(q, k) == q[..i] + q[i + 1..]
  {
    if i > 0 {
      RmKeyAt(q[1..], k, i - 1);
    }
  }

  lemma {:induction false} RmKeyAbsent(q: Queue, k: MsgKey)
    requires !HasKey(q, k)
    ensures RmKey(q, k) == q
  {
    if q != [] {
      assert Keys(q)[0] in Keys(q);
      assert Keys(q[1..]) == Keys(q)[1..];
      RmKeyAbsent(q[1..], k);
    }
  }

  lemma {:induction false} FirstWithKey(q: Queue, k: MsgKey) returns (i: nat)
    requires HasKey(q, k)
    ensures i < |q| && KeyOf(q[i].body) == k && forall j :: 0 <= j < i ==> KeyOf(q[j].body) != k
  {
    if KeyOf(q[0].body) == k {
      i := 0;
    } else {
      assert Keys(q) == [Keys(q)[0]] + Keys(q[1..]);
      i := FirstWithKey(q[1..], k);
      i := i + 1;
    }
  }

  lemma KeysWithout(q: Queue, i: nat)
    requires i < |q|
    ensures Keys(q[..i] + q[i + 1..]) == Keys(q)[..i] + Keys(q)[i + 1..]
  {
  }

  /** The entry of the key goes, and nothing else does. */
  lemma RmKeyExact(q: Queue, k: MsgKey)
    requires DistinctKeys(q)
    ensures DistinctKeys(RmKey(q, k)) && !HasKey(RmKey(q, k), k)
    ensures forall k' :: k' != k && HasKey(q, k') ==> HasKey(RmKey(q, k), k')
    ensures forall e :: e in RmKey(q, k) ==> e in q
    ensures forall k' :: HasKey(RmKey(q, k), k') ==> HasKey(q, k')
  {
    if HasKey(q, k) {
      var i := FirstWithKey(q, k);
      RmKeyAt(q, k, i);
      var ks, r := Keys(q), RmKey(q, k);
      KeysWithout(q, i);
      NoDupWithout(ks, i);
      assert forall k' :: k' in ks <==> k' in Keys(r) || k' == ks[i];
    } else {
      RmKeyAbsent(q, k);
    }
  }

  // ---- worker_iter_msg ----

  predicate Due(e: Pending, now: int) {
    e.timeSend < now
  }

  predicate Spent(e: Pending, now: int) {
    Due(e, now) && e.tries >= MAX_TRIES
  }

  /** From position `i` on, the first due entry that has been tried five times already; the pass stops there. */
  function Stop(q: Queue, i: nat, now: int): (r: nat)
    requires i <= |q|
    ensures i <= r <= |q|
    decreases |q| - i
  {
    if i == |q| || Spent(q[i], now) then i else Stop(q, i + 1, now)
  }

  lemma {:induction false} StopIsFirst(q: Queue, i: nat, now: int)
    requires i <= |q|
    ensures forall j :: i <= j < Stop(q, i, now) ==> !Spent(q[j], now)
    ensures Stop(q, i, now) < |q| ==> Spent(q[Stop(q, i, now)], now)
    decreases |q| - i
  {
    if i < |q| && !Spent(q[i], now) {
      StopIsFirst(q, i + 1, now);
    }
  }

  /** The bodies that are due from position `i` up to `j`, in list order. */
  function DueBodies(q: Queue, i: nat, j: nat, now: int): seq<DataBody>
    requires j <= |q|
    decreases j - i
  {
    if i >= j then [] else (if Due(q[i], now) then [q[i].body] else []) + DueBodies(q, i + 1, j, now)
  }

  function DataTlvs(bodies: seq<DataBody>): seq<Tlv> {
    seq(|bodies|, i requires 0 <= i < |bodies| => NewTlvData(bodies[i]))
  }

  function DataMsg(bodies: seq<DataBody>): Msg {
    MsgOf(DataTlvs(bodies))
  }

  /**
   * The batches that a pass makes of a list from position `i` on, when `tab` and `size` are already set aside, and the
   * status it returns.
   */
  function Batches(q: Queue, i: nat, now: int, pmtu: nat, tab: seq<DataBody>, size: nat): (seq<seq<DataBody>>, int)
    decreases |q| - i
  {
    if i >= |q| then ([tab], 1)
    else if !Due(q[i], now) then Batches(q, i + 1, now, pmtu, tab, size)
    else
      var full := size + |q[i].body.data| + 4 > pmtu;
      var flushed := if full then [tab] else [];
      var tab', size' := if full then [] else tab, if full then 0 else size;
      if q[i].tries >= MAX_TRIES then (flushed + [tab'], -1)
      else
        var (rest, status) :=
          Batches(q, i + 1, now, pmtu, tab' + [q[i].body], size' + NewTlvData(q[i].body).length + 2);
        (flushed + rest, status)
  }

  /** An entry after it was sent: one more try, and a new send time. */
  ghost predicate Tried(e: Pending, e': Pending, now: int) {
    && e' == e.(tries := e.tries + 1, timeSend := e'.timeSend, sent := e.sent + [now])
    && Scheduled(now, e.tries + 1, e'.timeSend)
  }

  ghost predicate PassedAt(q: Queue, q': Queue, now: int, i: nat)
    requires i < |q| == |q'|
  {
    if i < Stop(q, 0, now) && Due(q[i], now) then Tried(q[i], q'[i], now) else q'[i] == q[i]
  }

  /** What one pass does to a list: every due entry before the stop is sent, and nothing else changes. */
  ghost predicate Passed(q: Queue, q': Queue, now: int) {
    && |q'| == |q|
    && forall i {:trigger PassedAt(q, q', now, i)} :: 0 <= i < |q| ==> PassedAt(q, q', now, i)
  }

  ghost predicate PassOk(q: Queue, now: int, pmtu: nat, q': Queue, batches: seq<seq<DataBody>>, status: int) {
    if q == [] then q' == [] && batches == [] && status == 0
    else Passed(q, q', now) && (batches, status) == Batches(q, 0, now, pmtu, [], 0)
  }

  lemma PassKeepsKeys(q: Queue, q': Queue, now: int)
    requires Passed(q, q', now)
    ensures Keys(q') == Keys(q)
  {
    forall i | 0 <= i < |q| ensures q'[i].body == q[i].body {
      assert PassedAt(q, q', now, i);
    }
  }

  ghost predicate AllTimed(q: Queue, now: int) {
    forall i :: 0 <= i < |q| ==> Timed(q[i], now)
  }

  lemma TimedLater(e: Pending, before: int, now: int)
    requires Timed(e, before) && before <= now
    ensures Timed(e, now)
  {
  }

  lemma TriedIsTimed(e: Pending, e': Pending, before: int, now: int)
    requires Timed(e, before) && before <= now && Due(e, now) && e.tries < MAX_TRIES && Tried(e, e', now)
    ensures Timed(e', now)
  {
    forall i: nat | i < |e'.sent| ensures e'.sent[i] >= Previous(e', i) + Pow2(i) + 1 {
      if i < |e.sent| {
        assert e.sent[i] >= Previous(e, i) + Pow2(i) + 1;
      }
    }
  }

  lemma PassKeepsTiming(q: Queue, q': Queue, before: int, now: int)
    requires AllTimed(q, before) && before <= now && Passed(q, q', now)
    ensures AllTimed(q', now)
  {
    StopIsFirst(q, 0, now);
    forall i | 0 <= i < |q'| ensures Timed(q'[i], now) {
      assert PassedAt(q, q', now, i);
      if i < Stop(q, 0, now) && Due(q[i], now) {
        TriedIsTimed(q[i], q'[i], before, now);
      } else {
        TimedLater(q[i], before, now);
      }
    }
  }

  function Flatten<T>(ss: seq<seq<T>>): seq<T> {
    if ss == [] then [] else ss[0] + Flatten(ss[1..])
  }

  lemma FlattenCons<T>(s: seq<T>, ss: seq<seq<T>>)
    ensures Flatten([s] + ss) == s + Flatten(ss)
  {
    assert ([s] + ss)[1..] == ss;
  }

  /** The batches carry exactly the due entries before the stop, in list order. */
  lemma {:induction false} BatchesAreDue(q: Queue, i: nat, now: int, pmtu: nat, tab: seq<DataBody>, size: nat)
    requires i <= |q|
    ensures Flatten(Batches(q, i, now, pmtu, tab, size).0) == tab + DueBodies(q, i, Stop(q, i, now), now)
    ensures Batches(q, i, now, pmtu, tab, size).1 == if Stop(q, i, now) < |q| then -1 else 1
    decreases |q| - i
  {
    FlattenCons(tab, []);
    if i < |q| {
      if !Due(q[i], now) {
        BatchesAreDue(q, i + 1, now, pmtu, tab, size);
      } else {
        var full := size + |q[i].body.data| + 4 > pmtu;
        var tab', size' := if full then [] else tab, if full then 0 else size;
        if q[i].tries >= MAX_TRIES {
          FlattenCons(tab', []);
          FlattenCons(tab, [tab']);
        } else {
          var tab'', size'' := tab' + [q[i].body], size' + NewTlvData(q[i].body).length + 2;
          var rest := Batches(q, i + 1, now, pmtu, tab'', size'').0;
          var due := DueBodies(q, i + 1, Stop(q, i + 1, now), now);
          BatchesAreDue(q, i + 1, now, pmtu, tab'', size'');
          FlattenCons(tab, rest);
          Associative(tab', [q[i].body], due);
          assert full ==> tab + ([] + [q[i].body] + due) == tab + ([q[i].body] + due);
          assert !full ==> [] + rest == rest;
        }
      }
    }
  }

  lemma {:induction false} FlattenEmpty<T>(ss: seq<seq<T>>)
    ensures Flatten(ss) == [] <==> forall i :: 0 <= i < |ss| ==> ss[i] == []
  {
    if ss != [] {
      FlattenEmpty(ss[1..]);
      assert forall i :: 0 < i < |ss| ==> ss[i] == ss[1..][i - 1];
    }
  }

  /** A pass over a list sends a message in any case, and none but empty ones exactly if nothing is due before the stop. */
  lemma EmptyMessages(q: Queue, now: int, pmtu: nat, q': Queue, batches: seq<seq<DataBody>>, status: int)
    requires q != [] && PassOk(q, now, pmtu, q', batches, status)
    ensures batches != []
    ensures (forall i :: 0 <= i < |batches| ==> batches[i] == []) <==> DueBodies(q, 0, Stop(q, 0, now), now) == []
  {
    BatchesAreDue(q, 0, now, pmtu, [], 0);
    FirstBatch(q, 0, now, pmtu, [], 0);
    FlattenEmpty(batches);
  }

  // ---- batches are as full as the guard lets them be ----

  /** What `size` counts of the bodies set aside. */
  function Counted(bodies: seq<DataBody>): nat {
    if bodies == [] then 0 else Counted(bodies[..|bodies| - 1]) + NewTlvData(bodies[|bodies| - 1]).length + 2
  }

  /** A body can be set aside with those that are there. */
  predicate Fits(bodies: seq<DataBody>, b: DataBody, pmtu: nat) {
    Counted(bodies) + |b.data| + 4 <= pmtu
  }

  /** Each body but the first was set aside with those before it because it fitted. */
  ghost predicate Admitted(batch: seq<DataBody>, pmtu: nat) {
    forall j {:trigger batch[j]} :: 0 < j < |batch| ==> Fits(batch[..j], batch[j], pmtu)
  }

  /** The first body of `next` did not fit with the bodies of `batch`. */
  ghost predicate Needed(batch: seq<DataBody>, next: seq<DataBody>, pmtu: nat) {
    next != [] ==> !Fits(batch, next[0], pmtu)
  }

  ghost predicate Greedy(batches: seq<seq<DataBody>>, pmtu: nat) {
    && (forall i :: 0 <= i < |batches| ==> Admitted(batches[i], pmtu))
    && forall i {:trigger NeededAt(batches, i, pmtu)} :: 0 <= i < |batches| - 1 ==> NeededAt(batches, i, pmtu)
  }

  ghost predicate NeededAt(batches: seq<seq<DataBody>>, i: nat, pmtu: nat)
    requires i + 1 < |batches|
  {
    Needed(batches[i], batches[i + 1], pmtu)
  }

  lemma GreedyCons(batch: seq<DataBody>, rest: seq<seq<DataBody>>, pmtu: nat)
    requires Admitted(batch, pmtu) && rest != [] && Greedy(rest, pmtu) && Needed(batch, rest[0], pmtu)
    ensures Greedy([batch] + rest, pmtu)
  {
    var all := [batch] + rest;
    forall i | 0 <= i < |all| - 1 ensures NeededAt(all, i, pmtu) {
      assert i > 0 ==> NeededAt(rest, i - 1, pmtu);
    }
  }

  lemma AdmittedMore(tab: seq<DataBody>, b: DataBody, pmtu: nat)
    requires Admitted(tab, pmtu) && (tab == [] || Fits(tab, b, pmtu))
    ensures Admitted(tab + [b], pmtu) && Counted(tab + [b]) == Counted(tab) + NewTlvData(b).length + 2
  {
    var more := tab + [b];
    assert more[..|tab|] == tab;
    forall j {:trigger more[j]} | 0 < j < |more| ensures Fits(more[..j], more[j], pmtu) {
      if j < |tab| {
        assert more[..j] == tab[..j] && more[j] == tab[j];
      }
    }
  }

  /** What is there of the batch when the guard has looked at the next body. */
  function Guarded(tab: seq<DataBody>, b: DataBody, pmtu: nat): seq<DataBody> {
    if Fits(tab, b, pmtu) then tab else []
  }

  /** The batches are greedy, and the first goes on from `tab`; only a proof that names `Greedy` looks into it. */
  ghost predicate GreedyFrom(tab: seq<DataBody>, batches: seq<seq<DataBody>>, pmtu: nat) {
    forall bs {:trigger Greedy(bs, pmtu)} :: bs == batches ==> bs != [] && tab <= bs[0] && Greedy(bs, pmtu)
  }

  lemma GreedyOn(tab: seq<DataBody>, b: DataBody, rest: seq<seq<DataBody>>, pmtu: nat)
    requires Admitted(tab, pmtu) && GreedyFrom(Guarded(tab, b, pmtu) + [b], rest, pmtu)
    ensures GreedyFrom(tab, (if Fits(tab, b, pmtu) then [] else [tab]) + rest, pmtu)
  {
    assert Greedy(rest, pmtu);
    if Fits(tab, b, pmtu) {
      assert [] + rest == rest && tab <= tab + [b];
    } else {
      assert ([] + [b])[0] == b;
      GreedyCons(tab, rest, pmtu);
    }
  }

  lemma GreedyEnd(tab: seq<DataBody>, b: DataBody, pmtu: nat)
    requires Admitted(tab, pmtu)
    ensures GreedyFrom(tab, (if Fits(tab, b, pmtu) then [] else [tab]) + [Guarded(tab, b, pmtu)], pmtu)
  {
    if Fits(tab, b, pmtu) {
      assert [] + [tab] == [tab];
    } else {
      GreedyCons(tab, [[]], pmtu);
    }
  }

  /** A pass fills its batches greedily: a body goes into the batch of the one before it exactly if it fits. */
  lemma {:induction false} BatchesAreGreedy(q: Queue, i: nat, now: int, pmtu: nat, tab: seq<DataBody>, size: nat)
    requires Admitted(tab, pmtu) && size == Counted(tab)
    ensures GreedyFrom(tab, Batches(q, i, now, pmtu, tab, size).0, pmtu)
    decreases |q| - i
  {
    if i < |q| {
      if !Due(q[i], now) {
        BatchesAreGreedy(q, i + 1, now, pmtu, tab, size);
        assert Batches(q, i, now, pmtu, tab, size) == Batches(q, i + 1, now, pmtu, tab, size);
      } else if q[i].tries >= MAX_TRIES {
        SpentIsGreedy(q, i, now, pmtu, tab, size);
      } else {
        var b, tab' := q[i].body, Guarded(tab, q[i].body, pmtu);
        AdmittedMore(tab', b, pmtu);
        BatchesAreGreedy(q, i + 1, now, pmtu, tab' + [b], Counted(tab') + NewTlvData(b).length + 2);
        DueIsGreedy(q, i, now, pmtu, tab, size);
      }
    } else {
      assert Batches(q, i, now, pmtu, tab, size).0 == [tab];
    }
  }

  lemma SpentIsGreedy(q: Queue, i: nat, now: int, pmtu: nat, tab: seq<DataBody>, size: nat)
    requires Admitted(tab, pmtu) && size == Counted(tab) && i < |q| && Spent(q[i], now)
    ensures GreedyFrom(tab, Batches(q, i, now, pmtu, tab, size).0, pmtu)
  {
    GreedyEnd(tab, q[i].body, pmtu);
  }

  lemma DueIsGreedy(q: Queue, i: nat, now: int, pmtu: nat, tab: seq<DataBody>, size: nat)
    requires Admitted(tab, pmtu) && size == Counted(tab) && i < |q| && Due(q[i], now) && q[i].tries < MAX_TRIES
    requires var b, tab' := q[i].body, Guarded(tab, q[i].body, pmtu);
             GreedyFrom(tab' + [b], Batches(q, i + 1, now, pmtu, tab' + [b], Counted(tab') + NewTlvData(b).length + 2).0, pmtu)
    ensures GreedyFrom(tab, Batches(q, i, now, pmtu, tab, size).0, pmtu)
  {
    var b, tab' := q[i].body, Guarded(tab, q[i].body, pmtu);
    var rest := Batches(q, i + 1, now, pmtu, tab' + [b], Counted(tab') + NewTlvData(b).length + 2).0;
    GreedyOn(tab, b, rest, pmtu);
    assert Batches(q, i, now, pmtu, tab, size).0 == (if Fits(tab, b, pmtu) then [] else [tab]) + rest;
  }

  // ---- bounds ----

  const PMTU := 1024

  /** Between one byte and what the length byte of a Data TLV has room for. */
  predicate Sendable(b: DataBody) {
    1 <= |b.data| <= 242
  }

  ghost predicate AllSendable(q: Queue) {
    forall i :: 0 <= i < |q| ==> Sendable(q[i].body)
  }

  function TlvsSize(bodies: seq<DataBody>): nat {
    if bodies == [] then 0 else TlvsSize(bodies[..|bodies| - 1]) + |bodies[|bodies| - 1].data| + 15
  }

  /** A batch fits the table of 64, and its TLVs take at most 11 bytes more than the PMTU. */
  ghost predicate Bounded(batch: seq<DataBody>, pmtu: nat) {
    && |batch| <= MSG_TLV_NB_DEF
    && TlvsSize(batch) <= pmtu + 11
    && forall i :: 0 <= i < |batch| ==> Sendable(batch[i])
  }

  lemma {:induction false} AtLeastSixteen(bodies: seq<DataBody>)
    requires forall i :: 0 <= i < |bodies| ==> Sendable(bodies[i])
    ensures TlvsSize(bodies) >= 16 * |bodies|
  {
    if bodies != [] {
      AtLeastSixteen(bodies[..|bodies| - 1]);
    }
  }

  /** One more body that the guard lets in finds a free slot and keeps the batch within its bounds. */
  lemma GuardKeepsBounds(tab: seq<DataBody>, b: DataBody, pmtu: nat)
    requires Bounded(tab, pmtu) && Sendable(b) && 246 <= pmtu <= PMTU
    requires tab == [] || TlvsSize(tab) + |b.data| + 4 <= pmtu
    ensures |tab| < MSG_TLV_NB_DEF && Bounded(tab + [b], pmtu)
    ensures TlvsSize(tab + [b]) == TlvsSize(tab) + NewTlvData(b).length + 2
  {
    AtLeastSixteen(tab);
    TlvsSizeAppend(tab, b);
    DataLength(b);
  }

  lemma DataLength(b: DataBody)
    ensures Sendable(b) ==> NewTlvData(b).length == |b.data| + 13
  {
  }

  lemma TlvsSizeAppend(tab: seq<DataBody>, b: DataBody)
    ensures TlvsSize(tab + [b]) == TlvsSize(tab) + |b.data| + 15
  {
    assert (tab + [b])[..|tab|] == tab;
  }

  ghost predicate AllBounded(batches: seq<seq<DataBody>>, pmtu: nat) {
    forall i :: 0 <= i < |batches| ==> Bounded(batches[i], pmtu)
  }

  /** With bodies of 1 to 242 bytes the guard keeps every batch within its bounds. */
  lemma {:induction false} BatchesBounded(q: Queue, i: nat, now: int, pmtu: nat, tab: seq<DataBody>)
    requires AllSendable(q) && Bounded(tab, pmtu) && 246 <= pmtu <= PMTU
    ensures AllBounded(Batches(q, i, now, pmtu, tab, TlvsSize(tab)).0, pmtu)
    decreases |q| - i
  {
    if i < |q| {
      if !Due(q[i], now) {
        BatchesBounded(q, i + 1, now, pmtu, tab);
      } else {
        var full := TlvsSize(tab) + |q[i].body.data| + 4 > pmtu;
        var tab' := if full then [] else tab;
        if q[i].tries < MAX_TRIES {
          GuardKeepsBounds(tab', q[i].body, pmtu);
          BatchesBounded(q, i + 1, now, pmtu, tab' + [q[i].body]);
        }
      }
    }
  }

  /** The datagram of a bounded batch: 4 bytes of header more, a length that does not wrap, and it parses back. */
  lemma {:induction false} DataTlvsSize(bodies: seq<DataBody>)
    requires forall i :: 0 <= i < |bodies| ==> Sendable(bodies[i])
    ensures SumLengths(DataTlvs(bodies)) == TlvsSize(bodies) && Uncounted(DataTlvs(bodies)) == 0
  {
    if bodies != [] {
      var front, last := bodies[..|bodies| - 1], bodies[|bodies| - 1];
      DataTlvsSize(front);
      assert DataTlvs(bodies) == DataTlvs(front) + [NewTlvData(last)];
      SumLengthsAppend(DataTlvs(front), NewTlvData(last));
      UncountedAppend(DataTlvs(front), last);
    }
  }

  lemma {:induction false} UncountedAppend(ts: seq<Tlv>, b: DataBody)
    ensures Uncounted(ts + [NewTlvData(b)]) == Uncounted(ts)
  {
    if ts != [] {
      UncountedAppend(ts[1..], b);
      assert (ts + [NewTlvData(b)])[1..] == ts[1..] + [NewTlvData(b)];
    }
  }

  lemma BatchDatagram(batch: seq<DataBody>, pmtu: nat)
    requires Bounded(batch, pmtu) && pmtu <= PMTU
    ensures |PrintMsg(DataMsg(batch))| <= pmtu + 15 && |PrintMsg(DataMsg(batch))| == 4 + DataMsg(batch).length
    ensures ParseMsg(PrintMsg(DataMsg(batch))) == Some(DataMsg(batch))
  {
    var ts := DataTlvs(batch);
    forall i | 0 <= i < |ts| ensures Built(ts[i]) && WellFormed(ts[i]) {
      assert Sendable(batch[i]);
    }
    DataTlvsSize(batch);
    MsgSize(ts);
    MsgRoundTrip(DataMsg(batch));
  }

  /** Without any data in the bodies the guard lets 65 of them into the table of 64. */
  lemma {:induction false} EmptyDataOverflows(q: Queue, i: nat, now: int, tab: seq<DataBody>)
    requires |tab| + (|q| - i) == 65 && i <= |q|
    requires forall j :: i <= j < |q| ==> Due(q[j], now) && q[j].tries < MAX_TRIES && q[j].body.data == []
    ensures exists batch :: Batches(q, i, now, PMTU, tab, 15 * |tab|) == ([batch], 1) && |batch| == 65
    decreases |q| - i
  {
    if i == |q| {
      assert Batches(q, i, now, PMTU, tab, 15 * |tab|) == ([tab], 1);
    } else {
      EmptyDataOverflows(q, i + 1, now, tab + [q[i].body]);
      var batch :| Batches(q, i + 1, now, PMTU, tab + [q[i].body], 15 * (|tab| + 1)) == ([batch], 1) && |batch| == 65;
      assert [] + [batch] == [batch];
    }
  }

  /** No batch of the pass is longer than the table of `worker_iter_msg`. */
  ghost predicate TableHolds(q: Queue, now: int, pmtu: nat) {
    forall i :: 0 <= i < |Batches(q, 0, now, pmtu, [], 0).0| ==> |Batches(q, 0, now, pmtu, [], 0).0[i]| <= MSG_TLV_NB_DEF
  }

  lemma SendableHolds(q: Queue, now: int, pmtu: nat)
    requires AllSendable(q) && 246 <= pmtu <= PMTU
    ensures TableHolds(q, now, pmtu)
  {
    BatchesBounded(q, 0, now, pmtu, []);
    forall i | 0 <= i < |Batches(q, 0, now, pmtu, [], 0).0| ensures |Batches(q, 0, now, pmtu, [], 0).0[i]| <= MSG_TLV_NB_DEF {
      assert Bounded(Batches(q, 0, now, pmtu, [], 0).0[i], pmtu);
    }
  }

  /** What is set aside already is part of the next batch. */
  lemma {:induction false} FirstBatch(q: Queue, i: nat, now: int, pmtu: nat, tab: seq<DataBody>, size: nat)
    ensures |Batches(q, i, now, pmtu, tab, size).0| > 0 && |Batches(q, i, now, pmtu, tab, size).0[0]| >= |tab|
    decreases |q| - i
  {
    if i < |q| {
      if !Due(q[i], now) {
        FirstBatch(q, i + 1, now, pmtu, tab, size);
      } else {
        var full := size + |q[i].body.data| + 4 > pmtu;
        var tab', size' := if full then [] else tab, if full then 0 else size;
        if q[i].tries < MAX_TRIES {
          FirstBatch(q, i + 1, now, pmtu, tab' + [q[i].body], size' + NewTlvData(q[i].body).length + 2);
        }
      }
    }
  }

  /** The lengths of the bodies of a queue. */
  predicate DataBetween(q: Queue, least: nat, most: nat) {
    forall i :: 0 <= i < |q| ==> least <= |q[i].body.data| <= most
  }

  /** The table of 64 holds every batch, whatever the queue, exactly if no body may be empty. */
  lemma TableHoldsBatches(least: nat)
    requires least <= 242
    ensures (forall q: Queue, now: int :: DataBetween(q, least, 242) ==> TableHolds(q, now, PMTU)) <==> least >= 1
  {
    if least >= 1 {
      forall q: Queue, now: int | DataBetween(q, least, 242) ensures TableHolds(q, now, PMTU) {
        SendableHolds(q, now, PMTU);
      }
    } else {
      var q: Queue := seq(65, _ => NewPending(DataBody(0, 0, 0, []), 0));
      EmptyDataOverflows(q, 0, 2, []);
      var batch :| Batches(q, 0, 2, PMTU, [], 0) == ([batch], 1) && |batch| == 65;
      assert |Batches(q, 0, 2, PMTU, [], 0).0[0]| > MSG_TLV_NB_DEF;
      assert DataBetween(q, least, 242) && !TableHolds(q, 2, PMTU);
    }
  }
}
