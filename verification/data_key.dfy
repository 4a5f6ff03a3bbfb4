// The keys of the message store as src/types.c writes them, `%ld%d` into 20 bytes, and what they tell apart.

module DataKey {
  import opened PendingQueue
  import opened Sequences
  import opened Wire

  /** 20 bytes, one of them for the terminating zero. */
  const KEY_LEN: nat := 19

  function Digit(d: nat): char
    requires d < 10
  {
    ('0' as int + d) as char
  }

  function Decimal(n: nat): (r: string)
    ensures r != [] && r[0] != '-'
  {
    if n < 10 then [Digit(n)] else Decimal(n / 10) + [Digit(n % 10)]
  }

  function Signed(x: int): string {
    if x < 0 then ['-'] + Decimal(-x) else Decimal(x)
  }

  /** `%ld` takes the id for a `long`, `%d` the nonce for an `int`. */
  function AsLong(n: uint64): int {
    if n < 0x8000_0000_0000_0000 then n else n - 0x1_0000_0000_0000_0000
  }

  function AsInt(n: uint32): int {
    if n < 0x8000_0000 then n else n - 0x1_0000_0000
  }

  function Truncated(s: string): string {
    if |s| <= KEY_LEN then s else s[..KEY_LEN]
  }

  /** `new_data_key` */
  function CodedKey(k: MsgKey): string {
    Truncated(Signed(AsLong(k.sender)) + Signed(AsInt(k.nonce)))
  }

  lemma {:induction false} DecimalInjective(m: nat, n: nat)
    requires Decimal(m) == Decimal(n)
    ensures m == n
  {
    var s := Decimal(m);
    if m >= 10 && n >= 10 {
      assert s[..|s| - 1] == Decimal(m / 10) && s[..|s| - 1] == Decimal(n / 10);
      assert s[|s| - 1] == Digit(m % 10) == Digit(n % 10);
      DecimalInjective(m / 10, n / 10);
    }
  }

  lemma SignedInjective(x: int, y: int)
    ensures Signed(x) == Signed(y) ==> x == y
  {
    if x < 0 && y < 0 && Signed(x) == Signed(y) {
      assert Signed(x)[1..] == Decimal(-x) && Signed(y)[1..] == Decimal(-y);
      DecimalInjective(-x, -y);
    } else if x >= 0 && y >= 0 && Signed(x) == Signed(y) {
      DecimalInjective(x, y);
    } else if (x < 0) != (y < 0) {
      assert (Signed(x)[0] == '-') != (Signed(y)[0] == '-');
    }
  }

  function Pow10(d: nat): (p: nat)
    ensures p > 0
  {
    if d == 0 then 1 else 10 * Pow10(d - 1)
  }

  lemma {:induction false} DecimalLength(n: nat, d: nat)
    requires d > 0
    ensures |Decimal(n)| <= d <==> n < Pow10(d)
  {
    if n >= 10 && d > 1 {
      DecimalLength(n / 10, d - 1);
    }
  }

  lemma EightCharacters(x: int)
    ensures |Signed(x)| <= 8 <==> -10_000_000 < x < 100_000_000
  {
    assert Pow10(4) == 10_000;
    assert Pow10(7) == 10_000_000;
    if x < 0 {
      DecimalLength(-x, 7);
    } else {
      DecimalLength(x, 8);
    }
  }

  lemma ElevenCharacters(n: uint32)
    ensures |Signed(AsInt(n))| <= 11
  {
    assert Pow10(4) == 10_000;
    assert Pow10(7) == 10_000_000;
    assert Pow10(10) == 10_000_000_000;
    DecimalLength(if AsInt(n) < 0 then -AsInt(n) else AsInt(n), 10);
  }

  /** The keys tell the messages of one sender apart exactly if its id takes at most eight characters. */
  lemma KeysOfOneSender(sender: uint64)
    ensures (forall n: uint32, n': uint32 :: CodedKey(MsgKey(sender, n)) == CodedKey(MsgKey(sender, n')) ==> n == n')
            <==> -10_000_000 < AsLong(sender) < 100_000_000
  {
    EightCharacters(AsLong(sender));
    if |Signed(AsLong(sender))| <= 8 {
      forall n: uint32, n': uint32 | CodedKey(MsgKey(sender, n)) == CodedKey(MsgKey(sender, n')) ensures n == n' {
        ShortIdsKeepKeysApart(sender, n, n');
      }
    } else {
      LongIdsMixKeysUp(sender);
    }
  }

  lemma ShortIdsKeepKeysApart(sender: uint64, n: uint32, n': uint32)
    requires |Signed(AsLong(sender))| <= 8
    requires CodedKey(MsgKey(sender, n)) == CodedKey(MsgKey(sender, n'))
    ensures n == n'
  {
    var s, t, t' := Signed(AsLong(sender)), Signed(AsInt(n)), Signed(AsInt(n'));
    ElevenCharacters(n);
    ElevenCharacters(n');
    assert (s + t)[|s|..] == t && (s + t')[|s|..] == t';
    SignedInjective(AsInt(n), AsInt(n'));
  }

  /** The nonces that `%d` prints as -1000000000 and -1000000001 differ in a character that is cut off. */
  lemma LongIdsMixKeysUp(sender: uint64)
    requires |Signed(AsLong(sender))| > 8
    ensures CodedKey(MsgKey(sender, 3_294_967_296)) == CodedKey(MsgKey(sender, 3_294_967_295))
  {
    var s, head := Signed(AsLong(sender)), ['-'] + Decimal(100_000_000);
    assert Pow10(4) == 10_000;
    assert Pow10(8) == 100_000_000;
    DecimalLength(100_000_000, 8);
    assert Signed(-1_000_000_000) == head + [Digit(0)] && Signed(-1_000_000_001) == head + [Digit(1)];
    Associative(s, head, [Digit(0)]);
    Associative(s, head, [Digit(1)]);
    CutOff(s + head, [Digit(0)]);
    CutOff(s + head, [Digit(1)]);
  }

  lemma CutOff(s: string, t: string)
    requires |s| >= KEY_LEN
    ensures Truncated(s + t) == s[..KEY_LEN]
  {
  }

  // ---- two senders, when nothing is cut off ----

  predicate Digits(s: string) {
    forall i :: 0 <= i < |s| ==> '0' <= s[i] <= '9'
  }

  lemma {:induction false} DecimalDigits(n: nat)
    ensures Digits(Decimal(n)) && (n > 0 ==> Decimal(n)[0] != '0')
  {
    if n >= 10 {
      DecimalDigits(n / 10);
    }
  }

  function Value(s: string): nat
    requires Digits(s)
  {
    if s == [] then 0
    else 10 * Value(s[..|s| - 1]) + (s[|s| - 1] as int - '0' as int)
  }

  lemma {:induction false} DecimalOfValue(s: string)
    requires Digits(s) && s != [] && s[0] != '0'
    ensures Value(s) > 0 && Decimal(Value(s)) == s
  {
    var front, d := s[..|s| - 1], s[|s| - 1] as int - '0' as int;
    assert s == front + [Digit(d)];
    if front == [] {
      assert Value(s) == d && Decimal(d) == [Digit(d)];
    } else {
      DecimalOfValue(front);
      var v := 10 * Value(front) + d;
      assert Value(s) == v && v / 10 == Value(front) && v % 10 == d;
      assert Decimal(v) == Decimal(v / 10) + [Digit(v % 10)];
    }
  }

  /** The text `t` is `s` followed by a number without leading zeros. */
  predicate Extends(s: string, t: string) {
    |s| < |t| && t[..|s|] == s && t[|s|] != '0' && Digits(t[|s|..])
  }

  predicate Short(id: uint64) {
    |Signed(AsLong(id))| <= 8
  }

  /** Two senders with short ids share a key exactly if the text of the one id extends that of the other. */
  lemma ShortIdsShareKeys(a: uint64, b: uint64)
    requires a != b && Short(a) && Short(b)
    ensures (exists n: uint32, n': uint32 :: CodedKey(MsgKey(a, n)) == CodedKey(MsgKey(b, n')))
            <==> Extends(Signed(AsLong(a)), Signed(AsLong(b))) || Extends(Signed(AsLong(b)), Signed(AsLong(a)))
  {
    var s, t := Signed(AsLong(a)), Signed(AsLong(b));
    if n: uint32, n': uint32 :| CodedKey(MsgKey(a, n)) == CodedKey(MsgKey(b, n')) {
      NothingCutOff(a, n);
      NothingCutOff(b, n');
      SignedInjective(AsLong(a), AsLong(b));
      if |s| <= |t| {
        SharedKeyExtends(s, AsLong(b), AsInt(n), AsInt(n'));
      } else {
        SharedKeyExtends(t, AsLong(a), AsInt(n'), AsInt(n));
      }
    }
    if Extends(s, t) {
      var n := ExtensionIsShared(a, b);
      assert CodedKey(MsgKey(a, n)) == CodedKey(MsgKey(b, 0));
    }
    if Extends(t, s) {
      var n := ExtensionIsShared(b, a);
      assert CodedKey(MsgKey(a, 0)) == CodedKey(MsgKey(b, n));
    }
  }

  lemma NothingCutOff(id: uint64, n: uint32)
    requires Short(id)
    ensures CodedKey(MsgKey(id, n)) == Signed(AsLong(id)) + Signed(AsInt(n))
  {
    ElevenCharacters(n);
  }

  lemma SharedKeyExtends(s: string, y: int, n: int, n': int)
    requires s != [] && |s| <= |Signed(y)| && s != Signed(y)
    requires s + Signed(n) == Signed(y) + Signed(n')
    ensures Extends(s, Signed(y))
  {
    var t := Signed(y);
    Overlap(s, Signed(n), t, Signed(n'));
    DecimalDigits(if y < 0 then -y else y);
    DecimalDigits(if n < 0 then -n else n);
  }

  lemma Overlap(s: string, u: string, t: string, v: string)
    requires |s| <= |t| && s != t && s + u == t + v && v != []
    ensures |s| < |t| && t[..|s|] == s && |u| >= 2 && u[0] == t[|s|]
  {
    var key := s + u;
    assert s == key[..|s|] && t == key[..|t|] && t[..|t|] == t;
    assert key[|s|] == u[0];
  }

  lemma ExtensionIsShared(a: uint64, b: uint64) returns (n: uint32)
    requires Short(a) && Short(b) && Extends(Signed(AsLong(a)), Signed(AsLong(b)))
    ensures CodedKey(MsgKey(a, n)) == CodedKey(MsgKey(b, 0))
  {
    var s, t := Signed(AsLong(a)), Signed(AsLong(b));
    var r := t[|s|..];
    DecimalOfValue(r);
    var v := Value(r);
    assert Pow10(3) == 1000;
    assert Pow10(7) == 10_000_000;
    DecimalLength(v, 7);
    n := 10 * v;
    assert Decimal(10 * v) == Decimal(v) + [Digit(0)] == r + Signed(AsInt(0));
    NothingCutOff(a, n);
    NothingCutOff(b, 0);
    assert t == s + r;
    Associative(s, r, [Digit(0)]);
  }

  lemma SameSenderSameKey(k: MsgKey, k': MsgKey)
    requires Short(k.sender) && CodedKey(k) == CodedKey(k')
    ensures k.sender == k'.sender ==> k == k'
  {
    assert k == MsgKey(k.sender, k.nonce) && k' == MsgKey(k'.sender, k'.nonce);
    if k.sender == k'.sender {
      ShortIdsKeepKeysApart(k.sender, k.nonce, k'.nonce);
    }
  }

  predicate OfEither(k: MsgKey, a: uint64, b: uint64) {
    k.sender == a || k.sender == b
  }

  /**
   * The keys tell all messages of two senders apart exactly if both ids take at most eight characters and the text of
   * neither extends that of the other.
   */
  lemma KeysOfTwoSenders(a: uint64, b: uint64)
    requires a != b
    ensures (forall k, k' :: OfEither(k, a, b) && OfEither(k', a, b) && CodedKey(k) == CodedKey(k') ==> k == k')
            <==> Short(a) && Short(b) && !Extends(Signed(AsLong(a)), Signed(AsLong(b)))
                 && !Extends(Signed(AsLong(b)), Signed(AsLong(a)))
  {
    if !Short(a) {
      LongIdsMixKeysUp(a);
      assert OfEither(MsgKey(a, 3_294_967_296), a, b) && OfEither(MsgKey(a, 3_294_967_295), a, b);
    } else if !Short(b) {
      LongIdsMixKeysUp(b);
      assert OfEither(MsgKey(b, 3_294_967_296), a, b) && OfEither(MsgKey(b, 3_294_967_295), a, b);
    } else {
      ShortIdsShareKeys(a, b);
      if n: uint32, n': uint32 :| CodedKey(MsgKey(a, n)) == CodedKey(MsgKey(b, n')) {
        assert OfEither(MsgKey(a, n), a, b) && OfEither(MsgKey(b, n'), a, b);
      } else {
        forall k, k' | OfEither(k, a, b) && OfEither(k', a, b) && CodedKey(k) == CodedKey(k') ensures k == k' {
          SameSenderSameKey(k, k');
        }
      }
    }
  }
}
