// Sequences without repetition, and reversal.

module Sequences {

  ghost predicate NoDup<T>(s: seq<T>) {
    forall i, j {:trigger Apart(s, i, j)} :: 0 <= i < j < |s| ==> Apart(s, i, j)
  }

  ghost predicate Apart<T>(s: seq<T>, i: nat, j: nat)
    requires i < j < |s|
  {
    s[i] != s[j]
  }

  lemma AllApart<T>(s: seq<T>)
    requires NoDup(s)
    ensures forall i, j :: 0 <= i < j < |s| ==> s[i] != s[j]
  {
    forall i, j | 0 <= i < j < |s| ensures s[i] != s[j] {
      assert Apart(s, i, j);
    }
  }

  ghost function Elems<T>(s: seq<T>): set<T> {
    set x | x in s
  }

  lemma NoDupConcat<T>(s: seq<T>, t: seq<T>)
    requires NoDup(s) && NoDup(t) && forall x :: x in t ==> x !in s
    ensures NoDup(s + t)
  {
    AllApart(s);
    AllApart(t);
    forall i, j {:trigger Apart(s + t, i, j)} | 0 <= i < j < |s + t| ensures Apart(s + t, i, j) {
      if i < |s| <= j {
        assert t[j - |s|] in t;
      }
    }
  }

  lemma NoDupWithout<T>(s: seq<T>, i: nat)
    requires NoDup(s) && i < |s|
    ensures NoDup(s[..i] + s[i + 1..]) && s[i] !in s[..i] + s[i + 1..]
  {
    AllApart(s);
    var t := s[..i] + s[i + 1..];
    forall a, b {:trigger Apart(t, a, b)} | 0 <= a < b < |t| ensures Apart(t, a, b) {}
  }

  lemma ElemsRest<T>(s: seq<T>, i: nat)
    requires NoDup(s) && i < |s|
    ensures s[i] in Elems(s[i..]) && Elems(s[i + 1..]) == Elems(s[i..]) - {s[i]}
  {
    AllApart(s);
    assert s[i..] == [s[i]] + s[i + 1..];
    assert s[i] !in s[i + 1..];
  }

  lemma NoDupInsert<T>(s: seq<T>, i: nat, x: T)
    requires NoDup(s) && i <= |s| && x !in s
    ensures NoDup(s[..i] + [x] + s[i..])
  {
    AllApart(s);
    var t := s[..i] + [x] + s[i..];
    forall a, b {:trigger Apart(t, a, b)} | 0 <= a < b < |t| ensures Apart(t, a, b) {
      assert a != i ==> t[a] == s[if a < i then a else a - 1];
      assert b != i ==> t[b] == s[if b < i then b else b - 1];
    }
  }

  lemma {:induction false} NoDupCount<T>(s: seq<T>)
    requires NoDup(s)
    ensures |Elems(s)| == |s|
  {
    if s != [] {
      var r := s[..|s| - 1];
      AllApart(s);
      forall i, j {:trigger Apart(r, i, j)} | 0 <= i < j < |r| ensures Apart(r, i, j) {}
      NoDupCount(r);
      assert Elems(s) == Elems(r) + {s[|s| - 1]};
    }
  }

  function Reverse<T>(s: seq<T>): (r: seq<T>)
    ensures |r| == |s|
  {
    if s == [] then [] else Reverse(s[1..]) + [s[0]]
  }

  lemma {:induction false} ReverseConcat<T>(s: seq<T>, t: seq<T>)
    ensures Reverse(s + t) == Reverse(t) + Reverse(s)
  {
    if s == [] {
      assert s + t == t;
    } else {
      ReverseConcat(s[1..], t);
      assert (s + t)[1..] == s[1..] + t;
    }
  }

  lemma {:induction false} ReverseTwice<T>(s: seq<T>)
    ensures Reverse(Reverse(s)) == s
  {
    if s != [] {
      ReverseConcat(Reverse(s[1..]), [s[0]]);
      ReverseTwice(s[1..]);
    }
  }

  lemma Associative<T>(a: seq<T>, b: seq<T>, c: seq<T>)
    ensures (a + b) + c == a + (b + c)
  {
  }
}
