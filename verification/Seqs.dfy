/** Optional values, and counting elements of sequences. */
module Seqs {

  datatype Option<+T> = None | Some(value: T)

  lemma Assoc<T>(a: seq<T>, b: seq<T>, c: seq<T>)
    ensures a + (b + c) == (a + b) + c
  {
  }

  /** Two different places holding one value count twice. */
  lemma TwiceCounts<T>(s: seq<T>, u: nat, v: nat)
    requires u < v < |s| && s[u] == s[v]
    ensures multiset(s)[s[u]] >= 2
  {
    assert s == s[..v] + s[v..];
    assert s[u] in s[..v] && s[u] in s[v..];
  }

  lemma {:induction false} CountsTwice<T>(s: seq<T>, x: T) returns (u: nat, v: nat)
    requires multiset(s)[x] >= 2
    ensures u < v < |s| && s[u] == s[v] == x
  {
    assert s == [s[0]] + s[1..];
    if s[0] == x {
      assert x in multiset(s[1..]);
      v :| 0 <= v < |s[1..]| && s[1..][v] == x;
      u, v := 0, v + 1;
    } else {
      u, v := CountsTwice(s[1..], x);
      u, v := u + 1, v + 1;
    }
  }
}
