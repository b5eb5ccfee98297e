/** White space, and cutting it off at both ends. */
module Spaces {
  import Seqs

  /** What strings.TrimSpace removes. */
  predicate IsSpace(c: char) {
    c == ' ' || c == '\t' || c == '\n' || c == '\U{0B}' || c == '\U{0C}' || c == '\r'
  }

  function TrimLeft(s: string): string {
    if s != "" && IsSpace(s[0]) then TrimLeft(s[1..]) else s
  }

  function TrimRight(s: string): string {
    if s != "" && IsSpace(s[|s| - 1]) then TrimRight(s[..|s| - 1]) else s
  }

  function TrimSpace(s: string): string {
    TrimRight(TrimLeft(s))
  }

  predicate AllSpace(s: string) {
    forall i | 0 <= i < |s| :: IsSpace(s[i])
  }

  /** No white space at either end. */
  predicate Trimmed(s: string) {
    s != "" ==> !IsSpace(s[0]) && !IsSpace(s[|s| - 1])
  }

  /** s[lo..hi] is what stays: white space lies on both sides of it and at neither of its ends. */
  predicate Core(s: string, lo: nat, hi: nat) {
    && lo <= hi <= |s|
    && AllSpace(s[..lo]) && AllSpace(s[hi..])
    && Trimmed(s[lo..hi])
  }

  lemma {:induction false} TrimLeftKeeps(s: string) returns (lo: nat)
    ensures lo <= |s| && TrimLeft(s) == s[lo..] && AllSpace(s[..lo])
    ensures lo < |s| ==> !IsSpace(s[lo])
  {
    if s != "" && IsSpace(s[0]) {
      var rest := TrimLeftKeeps(s[1..]);
      lo := rest + 1;
      assert forall i | 0 < i < lo :: s[i] == s[1..][..rest][i - 1];
    } else {
      lo := 0;
    }
  }

  lemma {:induction false} TrimRightKeeps(s: string) returns (hi: nat)
    ensures hi <= |s| && TrimRight(s) == s[..hi] && AllSpace(s[hi..])
    ensures hi > 0 ==> !IsSpace(s[hi - 1])
  {
    if s != "" && IsSpace(s[|s| - 1]) {
      var shorter := s[..|s| - 1];
      hi := TrimRightKeeps(shorter);
      assert shorter[..hi] == s[..hi];
      assert forall i | hi <= i < |shorter| :: s[i] == shorter[hi..][i - hi];
    } else {
      hi := |s|;
    }
  }

  /** TrimSpace keeps one slice of the text, and cuts off white space only. */
  lemma TrimSpaceKeeps(s: string) returns (lo: nat, hi: nat)
    ensures Core(s, lo, hi) && TrimSpace(s) == s[lo..hi]
  {
    lo := TrimLeftKeeps(s);
    var left := TrimRightKeeps(s[lo..]);
    hi := lo + left;
    Seqs.SliceOfRest(s, lo, left);
    if lo < hi {
      assert s[lo..hi][0] == s[lo] && s[lo..hi][left - 1] == s[lo..][left - 1];
    }
  }

  /** A text with no white space at its ends stays as it is. */
  lemma TrimmedStays(s: string)
    requires Trimmed(s)
    ensures TrimSpace(s) == s
  {
  }
}
