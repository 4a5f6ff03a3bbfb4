// Integers and their memory images, and the byte-order macros of src/serialization.c on a little-endian host.

module Wire {
  import opened Bits
  import opened Sequences

  type byte = n: int | 0 <= n < 0x100
  type uint16 = n: int | 0 <= n < 0x1_0000
  type uint32 = n: int | 0 <= n < 0x1_0000_0000
  type uint64 = n: int | 0 <= n < 0x1_0000_0000_0000_0000

  type Bytes = seq<byte>

  /** What `memcpy` copies out of an `n`-byte unsigned value, lowest byte first. */
  function LittleEndian(x: nat, n: nat): (r: Bytes)
    ensures |r| == n
  {
    if n == 0 then [] else [x % 0x100] + LittleEndian(x / 0x100, n - 1)
  }

  /** The value whose image `s` is. */
  function FromLittle(s: Bytes): nat {
    if s == [] then 0 else s[0] + 0x100 * FromLittle(s[1..])
  }

  /** Network byte order. */
  function BigEndian(x: nat, n: nat): (r: Bytes)
    ensures |r| == n
  {
    Reverse(LittleEndian(x, n))
  }

  function FromBig(s: Bytes): nat {
    FromLittle(Reverse(s))
  }

  // ---- values and images ----

  lemma {:induction false} FromLittleBound(s: Bytes)
    ensures FromLittle(s) < Pow2(8 * |s|)
  {
    if s != [] {
      FromLittleBound(s[1..]);
      Pow2Add(8, 8 * (|s| - 1));
      Pow2Of32();
    }
  }

  lemma {:induction false} LittleOfFrom(s: Bytes)
    ensures LittleEndian(FromLittle(s), |s|) == s
  {
    if s != [] {
      LittleOfFrom(s[1..]);
      var v := FromLittle(s[1..]);
      assert (s[0] + 0x100 * v) % 0x100 == s[0] && (s[0] + 0x100 * v) / 0x100 == v;
    }
  }

  lemma {:induction false} FromOfLittle(x: nat, n: nat)
    requires x < Pow2(8 * n)
    ensures FromLittle(LittleEndian(x, n)) == x
  {
    if n > 0 {
      Pow2Add(8, 8 * (n - 1));
      Pow2Of32();
      FromOfLittle(x / 0x100, n - 1);
    }
  }

  lemma BigRoundTrip(x: nat, n: nat)
    requires x < Pow2(8 * n)
    ensures FromBig(BigEndian(x, n)) == x
  {
    ReverseTwice(LittleEndian(x, n));
    FromOfLittle(x, n);
  }

  lemma BigImage(s: Bytes)
    ensures BigEndian(FromBig(s), |s|) == s && FromBig(s) < Pow2(8 * |s|)
  {
    LittleOfFrom(Reverse(s));
    ReverseTwice(s);
    FromLittleBound(Reverse(s));
  }

  /** The image of a value made of a high and a low part. */
  lemma {:induction false} LittleOfParts(hi: nat, lo: nat, n: nat, k: nat)
    requires lo < Pow2(8 * k)
    ensures LittleEndian(hi * Pow2(8 * k) + lo, k + n) == LittleEndian(lo, k) + LittleEndian(hi, n)
  {
    if k > 0 {
      LowByteOfParts(hi, lo, k);
      LittleOfParts(hi, lo / 0x100, n, k - 1);
      LittleStep(hi * Pow2(8 * k) + lo, k + n);
      LittleStep(lo, k);
    }
  }

  lemma LittleStep(x: nat, n: nat)
    requires n > 0
    ensures LittleEndian(x, n) == [x % 0x100] + LittleEndian(x / 0x100, n - 1)
  {
  }

  lemma LowByteOfParts(hi: nat, lo: nat, k: nat)
    requires k > 0 && lo < Pow2(8 * k)
    ensures lo / 0x100 < Pow2(8 * (k - 1))
    ensures (hi * Pow2(8 * k) + lo) % 0x100 == lo % 0x100
    ensures (hi * Pow2(8 * k) + lo) / 0x100 == hi * Pow2(8 * (k - 1)) + lo / 0x100
  {
    Pow2Add(8, 8 * (k - 1));
    Pow2Of32();
    ShiftByte(hi, Pow2(8 * (k - 1)), lo);
  }

  lemma ShiftByte(hi: nat, p: nat, lo: nat)
    ensures (hi * (0x100 * p) + lo) % 0x100 == lo % 0x100
    ensures (hi * (0x100 * p) + lo) / 0x100 == hi * p + lo / 0x100
  {
    var v := hi * p;
    assert hi * (0x100 * p) == 0x100 * v;
  }

  // ---- htonl, htonll ----

  /** `htons` and `ntohs`. */
  function Htons(x: uint16): (r: uint16) {
    FromLittleBound(Reverse(LittleEndian(x, 2)));
    Pow2Of32();
    FromLittle(Reverse(LittleEndian(x, 2)))
  }

  /** `htonl` and `ntohl` of a little-endian host: the four bytes the other way round. */
  function Htonl(x: uint32): (r: uint32) {
    FromLittleBound(Reverse(LittleEndian(x, 4)));
    Pow2Of32();
    FromLittle(Reverse(LittleEndian(x, 4)))
  }

  /** The macro `htonll`, which is `ntohll` as well. */
  function Htonll(x: uint64): nat {
    LowHalf(x);
    if Htonl(1) == 1 then x
    else BitOr(Htonl(BitAnd(x, 0xFFFF_FFFF)) * Pow2(32), Htonl(x / Pow2(32)))
  }

  lemma LowHalf(x: uint64)
    ensures Pow2(32) == 0x1_0000_0000 && 0 <= x / Pow2(32) < 0x1_0000_0000
    ensures BitAnd(x, 0xFFFF_FFFF) == x % 0x1_0000_0000
  {
    Pow2Of32();
    AndMaskIsMod(x, 32);
  }

  lemma HtonlOfOne()
    ensures Htonl(1) == 0x100_0000
  {
    assert LittleEndian(1, 4) == [1, 0, 0, 0];
    assert Reverse([1, 0, 0, 0]) == [0, 0, 0, 1];
    assert FromLittle([0, 0, 0, 1]) == 0x100_0000;
  }

  lemma HtonlImage(x: uint32)
    ensures LittleEndian(Htonl(x), 4) == BigEndian(x, 4)
  {
    LittleOfFrom(Reverse(LittleEndian(x, 4)));
  }

  lemma HtonsImage(x: uint16)
    ensures LittleEndian(Htons(x), 2) == BigEndian(x, 2)
  {
    LittleOfFrom(Reverse(LittleEndian(x, 2)));
  }

  /** `ntohs` and `ntohl` read network order off the little-endian value of the bytes. */
  lemma NtohReads(s: Bytes)
    ensures |s| == 2 ==> FromLittle(s) < 0x1_0000 && Htons(FromLittle(s)) == FromBig(s)
    ensures |s| == 4 ==> FromLittle(s) < 0x1_0000_0000 && Htonl(FromLittle(s)) == FromBig(s)
  {
    Pow2Of32();
    FromLittleBound(s);
    LittleOfFrom(s);
  }

  lemma HtonllParts(x: uint64)
    ensures Htonll(x) == Htonl(x % 0x1_0000_0000) * 0x1_0000_0000 + Htonl(x / 0x1_0000_0000)
    ensures Htonll(x) < 0x1_0000_0000_0000_0000
  {
    LowHalf(x);
    HtonlOfOne();
    OrDisjointIsSum(Htonl(x % 0x1_0000_0000), Htonl(x / Pow2(32)), 32);
  }

  /** Two halves that are stored the other way round, and changed places, make the whole stored the other way round. */
  lemma SwappedParts(hi: nat, lo: nat, hi': nat, lo': nat, n: nat)
    requires lo < Pow2(8 * n) && hi' < Pow2(8 * n)
    requires LittleEndian(hi', n) == BigEndian(hi, n) && LittleEndian(lo', n) == BigEndian(lo, n)
    ensures LittleEndian(lo' * Pow2(8 * n) + hi', n + n) == BigEndian(hi * Pow2(8 * n) + lo, n + n)
  {
    LittleOfParts(lo', hi', n, n);
    LittleOfParts(hi, lo, n, n);
    ReverseConcat(LittleEndian(lo, n), LittleEndian(hi, n));
  }

  /** Stored little-endian, `htonll` of a value is its eight bytes in network order. */
  lemma HtonllImage(x: uint64)
    ensures Htonll(x) < 0x1_0000_0000_0000_0000
    ensures LittleEndian(Htonll(x), 8) == BigEndian(x, 8)
  {
    HtonllParts(x);
    SwappedWords(x / 0x1_0000_0000, x % 0x1_0000_0000);
  }

  lemma SwappedWords(hi: uint32, lo: uint32)
    ensures LittleEndian(Htonl(lo) * 0x1_0000_0000 + Htonl(hi), 8) == BigEndian(hi * 0x1_0000_0000 + lo, 8)
  {
    HtonlImage(lo);
    HtonlImage(hi);
    Pow2Of32();
    SwappedParts(hi, lo, Htonl(hi), Htonl(lo), 4);
  }

  /** `ntohll` undoes `htonll`. */
  lemma NtohllInverts(x: uint64)
    ensures Htonll(x) < 0x1_0000_0000_0000_0000 && Htonll(Htonll(x)) == x
  {
    EightBytes();
    SwapOfImage(x);
    var y: uint64 := Htonll(x);
    SwapOfImage(y);
    HtonllImage(x);
    ReverseTwice(LittleEndian(x, 8));
    FromOfLittle(x, 8);
  }

  /** `ntohll` of the little-endian value of eight bytes is their value in network order. */
  lemma NtohllReads(s: Bytes)
    requires |s| == 8
    ensures FromLittle(s) < 0x1_0000_0000_0000_0000 && Htonll(FromLittle(s)) < 0x1_0000_0000_0000_0000
    ensures BigEndian(Htonll(FromLittle(s)), |s|) == s
  {
    EightBytes();
    FromLittleBound(s);
    SwapOfImage(FromLittle(s));
    LittleOfFrom(s);
    BigImage(s);
  }

  lemma EightBytes()
    ensures Pow2(64) == 0x1_0000_0000_0000_0000 && Pow2(16) == 0x1_0000
  {
    Pow2Of32();
    Pow2Add(32, 32);
  }

  lemma SwapOfImage(x: uint64)
    ensures Htonll(x) < 0x1_0000_0000_0000_0000
    ensures Htonll(x) == FromLittle(Reverse(LittleEndian(x, 8)))
  {
    EightBytes();
    HtonllImage(x);
    FromOfLittle(Htonll(x), 8);
  }
}
