// Runs of self-delimiting encodings: printing a sequence of elements one after the other, and parsing them back.

module Runs {
  import opened Sequences
  import opened Wire
  import opened Wrappers

  type Printer<!T> = T -> Bytes
  type Parser<T> = Bytes -> Option<(T, Bytes)>

  function PrintAll<T>(encode: Printer<T>, ts: seq<T>): Bytes {
    if ts == [] then [] else encode(ts[0]) + PrintAll(encode, ts[1..])
  }

  /** All elements of `s`, while there is room for them. */
  function ParseAll<T>(decode: Parser<T>, s: Bytes, room: nat): Option<seq<T>>
    decreases room, |s|
  {
    if s == [] then Some([])
    else if room == 0 then None
    else match decode(s)
      case None => None
      case Some((t, rest)) =>
        match ParseAll(decode, rest, room - 1)
        case None => None
        case Some(ts) => Some([t] + ts)
  }

  lemma {:induction false} PrintAllAppend<T>(encode: Printer<T>, ts: seq<T>, t: T)
    ensures PrintAll(encode, ts + [t]) == PrintAll(encode, ts) + encode(t)
  {
    if ts == [] {
      assert ts + [t] == [t];
    } else {
      PrintAllAppend(encode, ts[1..], t);
      assert (ts + [t])[1..] == ts[1..] + [t];
      Associative(encode(ts[0]), PrintAll(encode, ts[1..]), encode(t));
    }
  }

  lemma {:induction false} PrintAllAt<T>(encode: Printer<T>, ts: seq<T>, i: nat)
    requires i < |ts|
    ensures PrintAll(encode, ts) == PrintAll(encode, ts[..i]) + encode(ts[i]) + PrintAll(encode, ts[i + 1..])
  {
    if i == 0 {
      assert ts[..0] == [];
    } else {
      PrintAllAt(encode, ts[1..], i - 1);
      assert ts[1..][..i - 1] == ts[..i][1..] && ts[1..][i..] == ts[i + 1..];
      var before, rest := PrintAll(encode, ts[..i][1..]), PrintAll(encode, ts[i + 1..]);
      Associative(encode(ts[0]), before + encode(ts[i]), rest);
      Associative(encode(ts[0]), before, encode(ts[i]));
    }
  }

  /** The parser reads back what was printed of `t`, whatever follows it. */
  ghost predicate ReadsBack<T>(decode: Parser<T>, encode: Printer<T>, t: T) {
    encode(t) != [] && forall rest :: decode(encode(t) + rest) == Some((t, rest))
  }

  /** If every element is read back under any suffix, then so is the run, if there is room for it. */
  lemma {:induction false} RunRoundTrip<T>(decode: Parser<T>, encode: Printer<T>, ts: seq<T>, room: nat)
    requires forall i :: 0 <= i < |ts| ==> ReadsBack(decode, encode, ts[i])
    ensures ParseAll(decode, PrintAll(encode, ts), room) == if |ts| <= room then Some(ts) else None
  {
    if ts != [] {
      assert ReadsBack(decode, encode, ts[0]);
      var s, rest := PrintAll(encode, ts), PrintAll(encode, ts[1..]);
      assert s == encode(ts[0]) + rest && s != [];
      if room > 0 {
        assert decode(s) == Some((ts[0], rest));
        RunRoundTrip(decode, encode, ts[1..], room - 1);
        assert ts == [ts[0]] + ts[1..];
      }
    }
  }

  /** Every element that the parser meets in `s` starts with bytes that satisfy `canonical`. */
  ghost predicate AllCanonical<T>(decode: Parser<T>, canonical: Bytes -> bool, s: Bytes, room: nat)
    decreases room, |s|
  {
    s != [] && room > 0 && decode(s).Some? ==> canonical(s) && AllCanonical(decode, canonical, decode(s).value.1, room - 1)
  }

  /** The parser takes as many bytes as are printed again, and they are the same exactly if they were canonical. */
  ghost predicate Reprints<T>(decode: Parser<T>, encode: Printer<T>, canonical: Bytes -> bool, s: Bytes) {
    decode(s).Some? ==>
      var (t, rest) := decode(s).value;
      && |s| == |encode(t)| + |rest|
      && s[|encode(t)|..] == rest
      && (encode(t) == s[..|encode(t)|] <==> canonical(s))
  }

  /** If that holds of every element, then it does of the run. */
  lemma {:induction false} RunReprinted<T>(decode: Parser<T>, encode: Printer<T>, canonical: Bytes -> bool,
                                           s: Bytes, room: nat)
    requires ParseAll(decode, s, room).Some?
    requires forall s :: Reprints(decode, encode, canonical, s)
    ensures |PrintAll(encode, ParseAll(decode, s, room).value)| == |s|
    ensures PrintAll(encode, ParseAll(decode, s, room).value) == s <==> AllCanonical(decode, canonical, s, room)
  {
    if s != [] {
      assert Reprints(decode, encode, canonical, s);
      var (t, rest) := decode(s).value;
      var ts := ParseAll(decode, rest, room - 1).value;
      RunReprinted(decode, encode, canonical, rest, room - 1);
      assert ([t] + ts)[1..] == ts;
      SplitEqual(encode(t), PrintAll(encode, ts), s, |encode(t)|);
    }
  }

  lemma SplitEqual<T>(a: seq<T>, b: seq<T>, s: seq<T>, n: nat)
    requires |a| == n <= |s| && |a| + |b| == |s|
    ensures a + b == s <==> a == s[..n] && b == s[n..]
  {
    assert s == s[..n] + s[n..];
    assert (a + b)[..n] == a && (a + b)[n..] == b;
  }

  /** The first element of a run that can be parsed. */
  lemma FirstOfRun<T>(decode: Parser<T>, s: Bytes, room: nat) returns (rest: seq<T>)
    requires s != [] && ParseAll(decode, s, room).Some?
    ensures room > 0 && decode(s).Some?
    ensures ParseAll(decode, decode(s).value.1, room - 1) == Some(rest)
    ensures ParseAll(decode, s, room).value == [decode(s).value.0] + rest
  {
    rest := ParseAll(decode, decode(s).value.1, room - 1).value;
  }
}
