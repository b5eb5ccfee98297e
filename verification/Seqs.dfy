/** Facts about sequences, each one proved by itself. */
module Seqs {
  lemma LastOfJoin<T>(a: seq<T>, b: seq<T>)
    requires b != []
    ensures (a + b)[..|a + b| - 1] == a + b[..|b| - 1] && (a + b)[|a + b| - 1] == b[|b| - 1]
  {
  }

  lemma FirstOfJoin<T>(a: seq<T>, b: seq<T>)
    requires a != []
    ensures (a + b)[1..] == a[1..] + b && (a + b)[0] == a[0]
  {
  }

  lemma JoinNothing<T>(a: seq<T>)
    ensures a + [] == a && [] + a == a
  {
  }

  lemma JoinThree<T>(a: seq<T>, b: seq<T>, c: seq<T>)
    ensures a + b + c == a + (b + c)
  {
  }

  lemma SliceOfRest<T>(s: seq<T>, from: nat, n: nat)
    requires from + n <= |s|
    ensures s[from..][..n] == s[from..from + n] && s[from..][n..] == s[from + n..]
  {
    forall i | 0 <= i < n
      ensures s[from..][..n][i] == s[from..from + n][i]
    {
      assert s[from..][i] == s[from + i];
    }
    forall i | 0 <= i < |s| - from - n
      ensures s[from..][n..][i] == s[from + n..][i]
    {
      assert s[from..][n + i] == s[from + n + i];
    }
  }
}
