/** Slices of concatenated sequences: small facts the verifier is given one at a time. */
module Seqs {

  lemma SliceLeft<T>(a: seq<T>, b: seq<T>, i: nat, j: nat)
    requires i <= j <= |a|
    ensures (a + b)[i..j] == a[i..j]
  {
  }

  lemma SliceRight<T>(a: seq<T>, b: seq<T>, i: nat, j: nat)
    requires |a| <= i <= j <= |a| + |b|
    ensures (a + b)[i..j] == b[i - |a|..j - |a|]
  {
  }

  lemma SliceSlice<T>(s: seq<T>, lo: nat, hi: nat, i: nat, j: nat)
    requires lo <= hi <= |s| && i <= j <= hi - lo
    ensures s[lo..hi][i..j] == s[lo + i..lo + j]
  {
    var a, b := s[lo..hi][i..j], s[lo + i..lo + j];
    assert forall k | 0 <= k < j - i :: a[k] == s[lo + i + k] == b[k];
  }

  lemma Window<T>(a: seq<T>, x: seq<T>, y: seq<T>)
    ensures (a + x + y)[|a|..|a| + |x|] == x
  {
  }

  lemma Associative<T>(a: seq<T>, b: seq<T>, c: seq<T>)
    ensures a + (b + c) == a + b + c
  {
  }

  lemma TwoFields<T>(a: seq<T>, b: seq<T>)
    ensures (a + b)[0..|a|] == a && (a + b)[|a|..|a| + |b|] == b
  {
  }

  lemma DropDrop<T>(s: seq<T>, i: nat, j: nat)
    requires i + j <= |s|
    ensures s[i..][j..] == s[i + j..] && s[i..][..j] == s[i..i + j]
  {
  }

  lemma TwoParts<T>(a: seq<T>, b: seq<T>)
    ensures (a + b)[..|a|] == a && (a + b)[|a|..] == b
  {
  }

  lemma {:induction false} Front<T>(s: seq<T>, at: nat, a: seq<T>, rest: seq<T>)
    requires at <= |s| && s[at..] == a + rest
    ensures at + |a| <= |s| && s[at..at + |a|] == a && s[at + |a|..] == rest
  {
    assert s[at..at + |a|] == s[at..][..|a|];
    assert s[at + |a|..] == s[at..][|a|..];
  }
}
