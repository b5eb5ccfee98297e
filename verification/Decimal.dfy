/** Decimal text of 64-bit integers: the form in which a history cursor is stored. */
module Decimal {
  import opened Errors

  const TWO_63: int := 0x8000_0000_0000_0000
  const TWO_64: int := 0x1_0000_0000_0000_0000

  type Uint64 = n: int | 0 <= n < TWO_64 witness 0

  function Digit(d: nat): char
    requires d < 10
  {
    '0' + d as char
  }

  /** fmt.Sprintf("%d", n) for an unsigned n. */
  function Print(n: nat): string {
    if n < 10 then [Digit(n)] else Print(n / 10) + [Digit(n % 10)]
  }

  predicate IsDigit(c: char) {
    '0' <= c <= '9'
  }

  function DigitsValue(s: string): Option<nat> {
    if s == "" then Some(0)
    else
      var last := s[|s| - 1];
      match DigitsValue(s[..|s| - 1])
      case None => None
      case Some(v) => if IsDigit(last) then Some(10 * v + (last as int - '0' as int)) else None
  }

  /** strconv.ParseUint(s, 10, 64). */
  function ParseUint(s: string): Option<Uint64> {
    if s == "" then None
    else match DigitsValue(s)
      case None => None
      case Some(v) => if v < TWO_64 then Some(v) else None
  }

  /** strconv.Atoi on a 64-bit platform. */
  function Atoi(s: string): Option<int> {
    var negative := s != "" && s[0] == '-';
    var digits := if s != "" && (s[0] == '-' || s[0] == '+') then s[1..] else s;
    if digits == "" then None
    else match DigitsValue(digits)
      case None => None
      case Some(v) =>
        var magnitude: int := v;
        var value := if negative then -magnitude else magnitude;
        if -TWO_63 <= value < TWO_63 then Some(value) else None
  }

  /** The form in which a history cursor is stored. */
  ghost predicate Canonical(s: string) {
    exists n: Uint64 :: s == Print(n)
  }

  /** What is printed reads back as the number that was printed. */
  lemma {:induction false} PrintReadsBack(n: nat)
    ensures Print(n) != "" && IsDigit(Print(n)[0]) && DigitsValue(Print(n)) == Some(n)
  {
    if n < 10 {
      assert Print(n)[..0] == "";
    } else {
      PrintReadsBack(n / 10);
      var s := Print(n);
      assert s[..|s| - 1] == Print(n / 10);
      assert s[0] == Print(n / 10)[0];
    }
  }

  /** A character that is no digit spoils the number, wherever it stands. */
  lemma {:induction false} OnlyDigits(s: string, i: nat)
    requires i < |s| && !IsDigit(s[i])
    ensures DigitsValue(s).None?
  {
    if i < |s| - 1 {
      OnlyDigits(s[..|s| - 1], i);
    }
  }

  /** Decimal digits, the most significant first; a sign only for Atoi. */
  lemma SomeNumbers()
    ensures Print(120) == "120" && ParseUint("120") == Some(120)
    ensures Atoi("-120") == Some(-120) && Atoi("+120") == Some(120)
    ensures ParseUint("-120").None? && ParseUint("12a").None? && ParseUint("").None?
  {
    assert Print(1) == "1" && Print(12) == "12";
    PrintReadsBack(120);
    OnlyDigits("-120", 0);
    OnlyDigits("12a", 2);
    hide DigitsValue, Print;
    assert "-120"[1..] == "120" && "+120"[1..] == "120";
  }

  /** Every 64-bit number survives printing and parsing, and no larger number parses at all. */
  lemma ParseUintOfPrint(n: nat)
    ensures ParseUint(Print(n)) == if n < TWO_64 then Some(n) else None
  {
    PrintReadsBack(n);
  }

  lemma AtoiOfPrint(n: nat)
    ensures Atoi(Print(n)) == if n < TWO_63 then Some(n) else None
  {
    PrintReadsBack(n);
  }
}
