// The keys of the tables as text: every byte of the pair that a key names, as two letters.

module KeyText {
  import Bits
  import opened MapLayout
  import opened PeerModel
  import opened PendingQueue
  import opened Tables
  import opened Wire

  function Letters(s: Bytes): Key {
    if s == [] then [] else [(97 + s[0] / 16) as CChar, (97 + s[0] % 16) as CChar] + Letters(s[1..])
  }

  lemma {:induction false} LettersInjective(s: Bytes, t: Bytes)
    requires Letters(s) == Letters(t)
    ensures s == t
  {
    if s != [] && t != [] {
      var k := Letters(s);
      assert k[0] == (97 + s[0] / 16) as CChar == (97 + t[0] / 16) as CChar;
      assert k[1] == (97 + s[0] % 16) as CChar == (97 + t[0] % 16) as CChar;
      assert k[2..] == Letters(s[1..]) && k[2..] == Letters(t[1..]);
      LettersInjective(s[1..], t[1..]);
      assert s == [s[0]] + s[1..] && t == [t[0]] + t[1..];
    }
  }

  function AddrText(a: Addr): Key {
    Letters(a.ip + BigEndian(a.port, 2))
  }

  function MsgText(k: MsgKey): Key {
    Letters(BigEndian(k.sender, 8) + BigEndian(k.nonce, 4))
  }

  /** No two neighbours share a key. */
  lemma AddrTextInjective()
    ensures Injective(AddrText)
  {
    forall a, b ensures ToldApart(AddrText, a, b) {
      if AddrText(a) == AddrText(b) {
        LettersInjective(a.ip + BigEndian(a.port, 2), b.ip + BigEndian(b.port, 2));
        SameHalves(a.ip, BigEndian(a.port, 2), b.ip, BigEndian(b.port, 2));
        BigInjective(a.port, b.port, 2);
      }
    }
  }

  /** No two messages share a key. */
  lemma MsgTextInjective()
    ensures Injective(MsgText)
  {
    forall a, b ensures ToldApart(MsgText, a, b) {
      if MsgText(a) == MsgText(b) {
        LettersInjective(BigEndian(a.sender, 8) + BigEndian(a.nonce, 4), BigEndian(b.sender, 8) + BigEndian(b.nonce, 4));
        SameHalves(BigEndian(a.sender, 8), BigEndian(a.nonce, 4), BigEndian(b.sender, 8), BigEndian(b.nonce, 4));
        BigInjective(a.sender, b.sender, 8);
        BigInjective(a.nonce, b.nonce, 4);
      }
    }
  }

  lemma SameHalves(s: Bytes, t: Bytes, s': Bytes, t': Bytes)
    requires |s| == |s'| && s + t == s' + t'
    ensures s == s' && t == t'
  {
    assert s == (s + t)[..|s|] && t == (s + t)[|s|..];
    assert s' == (s' + t')[..|s|] && t' == (s' + t')[|s|..];
  }

  lemma BigInjective(x: nat, y: nat, n: nat)
    requires x < 0x1_0000_0000_0000_0000 && y < 0x1_0000_0000_0000_0000 && n <= 8
    requires n == 8 || (n == 4 && x < 0x1_0000_0000 && y < 0x1_0000_0000) || (n == 2 && x < 0x1_0000 && y < 0x1_0000)
    requires BigEndian(x, n) == BigEndian(y, n)
    ensures x == y
  {
    EightBytes();
    Bits.Pow2Of32();
    BigRoundTrip(x, n);
    BigRoundTrip(y, n);
  }
}
