/** Making a body short and tidy for the language model. */
module CleanText {
  import opened Errors
  import opened Spaces
  import ReplyText

  // ---------------------------------------------------------------- white space

  predicate Blank(c: char) {
    c == ' ' || c == '\t'
  }

  /** Of a run of blanks the last stays, as a space. */
  function CollapseBlanks(s: string): string {
    if s == "" then ""
    else if Blank(s[0]) && |s| > 1 && Blank(s[1]) then CollapseBlanks(s[1..])
    else [if Blank(s[0]) then ' ' else s[0]] + CollapseBlanks(s[1..])
  }

  /** Of a run of line feeds the last two stay. */
  function CollapseNewlines(s: string): string {
    if s == "" then ""
    else if |s| > 2 && s[0] == s[1] == s[2] == '\n' then CollapseNewlines(s[1..])
    else [s[0]] + CollapseNewlines(s[1..])
  }

  function Normalized(s: string): string {
    CollapseNewlines(CollapseBlanks(s))
  }

  method NormalizeWhitespace(text: string) returns (s: string)
    ensures s == Normalized(text)
    ensures Tidy(s) && |s| <= |text| && Ink(s) == Ink(text)
    ensures s == text <==> Tidy(text)
  {
    NormalForm(text);
    NormalizingKeepsInk(text);
    s := text;
    s := CollapseBlanks(s);
    s := CollapseNewlines(s);
  }

  // ---------------------------------------------------------------- the normal form

  predicate TidyBlanks(s: string) {
    forall i | 0 <= i < |s| :: s[i] != '\t' && (i + 1 < |s| ==> !(s[i] == ' ' && s[i + 1] == ' '))
  }

  predicate TidyNewlines(s: string) {
    forall i | 0 <= i < |s| - 2 :: !(s[i] == '\n' && s[i + 1] == '\n' && s[i + 2] == '\n')
  }

  /** No tab, no two adjacent spaces, no three adjacent line feeds. */
  predicate Tidy(s: string) {
    TidyBlanks(s) && TidyNewlines(s)
  }

  /** Two texts that do not both have a blank where they meet collapse apart. */
  lemma {:induction false} BlanksJoin(u: string, v: string)
    requires u == "" || v == "" || !(Blank(u[|u| - 1]) && Blank(v[0]))
    ensures CollapseBlanks(u + v) == CollapseBlanks(u) + CollapseBlanks(v)
  {
    if u == "" {
      assert u + v == v;
    } else {
      BlanksJoin(u[1..], v);
      assert (u + v)[1..] == u[1..] + v;
    }
  }

  /** A run of blanks becomes one space. */
  lemma {:induction false} BlanksBecomeOneSpace(run: string)
    requires run != "" && forall i | 0 <= i < |run| :: Blank(run[i])
    ensures CollapseBlanks(run) == " "
  {
    if |run| > 1 {
      BlanksBecomeOneSpace(run[1..]);
    } else {
      assert CollapseBlanks(run[1..]) == "";
    }
  }

  lemma {:induction false} NewlinesJoin(u: string, v: string)
    requires u == "" || v == "" || !(u[|u| - 1] == '\n' && v[0] == '\n')
    ensures CollapseNewlines(u + v) == CollapseNewlines(u) + CollapseNewlines(v)
  {
    if u == "" {
      assert u + v == v;
    } else {
      NewlinesJoin(u[1..], v);
      var whole := u + v;
      assert whole[1..] == u[1..] + v && whole[0] == u[0];
      hide CollapseBlanks;
      assert |u| > 1 ==> whole[1] == u[1];
      assert |u| > 2 ==> whole[2] == u[2];
      assert |u| == 2 && v != "" ==> whole[2] == v[0] && u[1] == u[|u| - 1];
      assert |u| == 1 && v != "" ==> whole[1] == v[0];
      assert CollapseNewlines(u[1..] + v) == CollapseNewlines(u[1..]) + CollapseNewlines(v);
    }
  }

  /** A run of line feeds becomes one of at most two. */
  lemma {:induction false} NewlinesBecomeTwo(run: string)
    requires forall i | 0 <= i < |run| :: run[i] == '\n'
    ensures CollapseNewlines(run) == if |run| > 2 then "\n\n" else run
  {
    if |run| > 0 {
      NewlinesBecomeTwo(run[1..]);
      if |run| == 3 {
        assert run[1..] == "\n\n";
      } else if |run| <= 2 {
        assert run == [run[0]] + run[1..];
      }
    }
  }

  lemma {:induction false} CollapsedBlanks(s: string)
    ensures TidyBlanks(CollapseBlanks(s)) && |CollapseBlanks(s)| <= |s|
    ensures s != "" ==> CollapseBlanks(s) != "" && (CollapseBlanks(s)[0] == ' ' <==> Blank(s[0]))
    ensures TidyBlanks(s) ==> CollapseBlanks(s) == s
  {
    if s != "" {
      CollapsedBlanks(s[1..]);
      if TidyBlanks(s) {
        assert forall i | 0 <= i < |s[1..]| :: s[1..][i] == s[i + 1];
        assert TidyBlanks(s[1..]);
      }
    }
  }

  /** How a collapsed text begins, and that it is no longer. */
  lemma {:induction false} NewlinesHead(s: string)
    ensures |CollapseNewlines(s)| <= |s|
    ensures s != "" ==> CollapseNewlines(s) != "" && CollapseNewlines(s)[0] == s[0]
    ensures |s| > 1 && s[1] != '\n' ==> |CollapseNewlines(s)| > 1 && CollapseNewlines(s)[1] == s[1]
  {
    if s != "" {
      NewlinesHead(s[1..]);
    }
  }

  lemma {:induction false} CollapsedNewlines(s: string)
    ensures TidyNewlines(CollapseNewlines(s))
  {
    if s != "" {
      CollapsedNewlines(s[1..]);
      if !(|s| > 2 && s[0] == s[1] == s[2] == '\n') {
        NoThird(s);
      }
    }
  }

  lemma {:induction false} NewlinesKeepBlanks(s: string)
    requires TidyBlanks(s)
    ensures TidyBlanks(CollapseNewlines(s))
  {
    if s != "" {
      assert forall i | 0 <= i < |s[1..]| :: s[1..][i] == s[i + 1];
      NewlinesKeepBlanks(s[1..]);
      NewlinesHead(s[1..]);
      assert |s| > 1 ==> s[1..][0] == s[1];
    }
  }

  lemma {:induction false} TidyNewlinesStay(s: string)
    requires TidyNewlines(s)
    ensures CollapseNewlines(s) == s
  {
    if s != "" {
      assert forall i | 0 <= i < |s[1..]| :: s[1..][i] == s[i + 1];
      TidyNewlinesStay(s[1..]);
    }
  }

  /** If a text does not begin with three line feeds, what it collapses to does not either. */
  lemma NoThird(s: string)
    requires s != "" && !(|s| > 2 && s[0] == s[1] == s[2] == '\n')
    ensures
      var rest := CollapseNewlines(s[1..]);
      s[0] == '\n' && |rest| > 1 ==> !(rest[0] == '\n' && rest[1] == '\n')
  {
    NewlinesHead(s[1..]);
    if |s| > 2 {
      NewlinesHead(s[2..]);
    }
  }

  /** The result is tidy, never longer, and the text itself exactly if that was tidy: so twice is once. */
  lemma NormalForm(s: string)
    ensures Tidy(Normalized(s)) && |Normalized(s)| <= |s|
    ensures Normalized(s) == s <==> Tidy(s)
    ensures Normalized(Normalized(s)) == Normalized(s)
  {
    hide CollapseBlanks, CollapseNewlines, TidyBlanks, TidyNewlines;
    var b, n := CollapseBlanks(s), Normalized(s);
    CollapsedBlanks(s);
    CollapsedNewlines(b);
    NewlinesHead(b);
    NewlinesKeepBlanks(b);
    CollapsedBlanks(n);
    TidyNewlinesStay(n);
    if TidyNewlines(s) {
      TidyNewlinesStay(s);
    }
  }

  // ---------------------------------------------------------------- what is written

  /** The characters that are not white space, in their order. */
  function Ink(s: string): string {
    if s == "" then "" else (if IsSpace(s[0]) then "" else [s[0]]) + Ink(s[1..])
  }

  lemma {:induction false} BlanksKeepEnds(s: string)
    requires s != ""
    ensures
      var b := CollapseBlanks(s);
      b != "" && (IsSpace(b[0]) <==> IsSpace(s[0])) && (IsSpace(b[|b| - 1]) <==> IsSpace(s[|s| - 1]))
  {
    if |s| > 1 {
      BlanksKeepEnds(s[1..]);
    } else {
      assert s[1..] == "" && CollapseBlanks("") == "";
    }
  }

  lemma {:induction false} NewlinesKeepEnds(s: string)
    requires s != ""
    ensures
      var n := CollapseNewlines(s);
      n != "" && (IsSpace(n[0]) <==> IsSpace(s[0])) && (IsSpace(n[|n| - 1]) <==> IsSpace(s[|s| - 1]))
  {
    if |s| > 1 {
      NewlinesKeepEnds(s[1..]);
    } else {
      assert s[1..] == "" && CollapseNewlines("") == "";
    }
  }

  /** White space at its ends is neither made nor lost when a text is tidied. */
  lemma NormalizedStaysTrimmed(s: string)
    requires Trimmed(s)
    ensures Trimmed(Normalized(s))
  {
    if s != "" {
      hide CollapseBlanks, CollapseNewlines;
      BlanksKeepEnds(s);
      NewlinesKeepEnds(CollapseBlanks(s));
    } else {
      assert CollapseBlanks("") == "" && CollapseNewlines("") == "";
    }
  }

  lemma {:induction false} InkJoins(u: string, v: string)
    ensures Ink(u + v) == Ink(u) + Ink(v)
  {
    if u == "" {
      assert u + v == v;
    } else {
      InkJoins(u[1..], v);
      assert (u + v)[1..] == u[1..] + v && (u + v)[0] == u[0];
      var h := if IsSpace(u[0]) then "" else [u[0]];
      hide IsSpace;
      assert (h + Ink(u[1..])) + Ink(v) == h + (Ink(u[1..]) + Ink(v));
    }
  }

  lemma {:induction false} InkOfSpace(s: string)
    requires AllSpace(s)
    ensures Ink(s) == ""
  {
    if s != "" {
      InkOfSpace(s[1..]);
    }
  }

  lemma {:induction false} BlanksKeepInk(s: string)
    ensures Ink(CollapseBlanks(s)) == Ink(s)
  {
    if s != "" {
      BlanksKeepInk(s[1..]);
      var c := if Blank(s[0]) then ' ' else s[0];
      InkJoins([c], CollapseBlanks(s[1..]));
      InkOfOne(c);
    }
  }

  lemma {:induction false} NewlinesKeepInk(s: string)
    ensures Ink(CollapseNewlines(s)) == Ink(s)
  {
    if s != "" {
      NewlinesKeepInk(s[1..]);
      InkJoins([s[0]], CollapseNewlines(s[1..]));
      InkOfOne(s[0]);
    }
  }

  lemma InkOfOne(c: char)
    ensures Ink([c]) == if IsSpace(c) then "" else [c]
  {
    assert Ink([c][1..]) == "";
  }

  lemma NormalizingKeepsInk(s: string)
    ensures Ink(Normalized(s)) == Ink(s)
  {
    BlanksKeepInk(s);
    NewlinesKeepInk(CollapseBlanks(s));
  }

  lemma TrimmingKeepsInk(s: string)
    ensures Ink(TrimSpace(s)) == Ink(s)
  {
    var lo, hi := TrimSpaceKeeps(s);
    assert s == s[..lo] + s[lo..hi] + s[hi..];
    InkJoins(s[..lo] + s[lo..hi], s[hi..]);
    InkJoins(s[..lo], s[lo..hi]);
    InkOfSpace(s[..lo]);
    InkOfSpace(s[hi..]);
  }

  lemma InkOfPrefix(s: string, k: nat)
    requires k <= |s|
    ensures Ink(s[..k]) <= Ink(s)
  {
    hide Ink;
    InkJoins(s[..k], s[k..]);
    assert s == s[..k] + s[k..];
  }

  // ---------------------------------------------------------------- truncation

  /** strings.LastIndex(s, " "). */
  function LastSpace(s: string): (i: int)
    ensures -1 <= i < |s|
    ensures i >= 0 ==> s[i] == ' '
    ensures forall k | i < k < |s| :: s[k] != ' '
  {
    if s == "" then -1
    else if s[|s| - 1] == ' ' then |s| - 1
    else LastSpace(s[..|s| - 1])
  }

  function TruncateBody(body: string, maxLength: int): string {
    if maxLength <= 0 || |body| <= maxLength then body
    else
      var idx := LastSpace(body[..maxLength]);
      TrimSpace(body[..if idx > maxLength - 100 && idx > 0 then idx else maxLength]) + "..."
  }

  /** No space from here to the end, as far as the last hundred characters before maxLength go. */
  predicate NoSpaceBetween(body: string, from: int, maxLength: int) {
    forall k | 0 < k < maxLength <= |body| :: from < k && maxLength - 100 < k ==> body[k] != ' '
  }

  /** The cut is at the last space if that is among the last hundred characters, else at maxLength. */
  predicate CutsAt(body: string, maxLength: int, cut: nat) {
    && 0 < cut <= maxLength < |body|
    && (cut < maxLength ==> body[cut] == ' ' && cut > maxLength - 100)
    && NoSpaceBetween(body, if cut < maxLength then cut else 0, maxLength)
  }

  /** At most three characters too long, and only where the text does not fit at all. */
  lemma TruncatesAtWord(body: string, maxLength: int)
    requires 0 < maxLength
    ensures |TruncateBody(body, maxLength)| <= maxLength + 3
    ensures |body| <= maxLength ==> TruncateBody(body, maxLength) == body
    ensures |body| > maxLength ==>
              exists cut: nat :: CutsAt(body, maxLength, cut) && TruncateBody(body, maxLength) == TrimSpace(body[..cut]) + "..."
  {
    if |body| > maxLength {
      var short := body[..maxLength];
      var idx := LastSpace(short);
      var cut := if idx > maxLength - 100 && idx > 0 then idx else maxLength;
      assert forall k | 0 <= k < maxLength :: short[k] == body[k];
      assert CutsAt(body, maxLength, cut);
      var lo, hi := TrimSpaceKeeps(body[..cut]);
    }
  }

  lemma CutIsOne(body: string, maxLength: int, cut: nat, cut': nat)
    requires CutsAt(body, maxLength, cut) && CutsAt(body, maxLength, cut')
    ensures cut == cut'
  {
  }

  /**
   * The dots come on top of the limit, which is kept exactly if the text fits as it is, or what stays
   * before the cut, without the white space at its ends, leaves room for them.
   */
  lemma KeepsLimitExactly(body: string, maxLength: int)
    requires 0 < maxLength
    ensures |TruncateBody(body, maxLength)| <= maxLength
       <==> || |body| <= maxLength
            || exists cut: nat :: CutsAt(body, maxLength, cut) && |TrimSpace(body[..cut])| + 3 <= maxLength
  {
    TruncatesAtWord(body, maxLength);
    if |body| > maxLength {
      var cut: nat :| CutsAt(body, maxLength, cut) && TruncateBody(body, maxLength) == TrimSpace(body[..cut]) + "...";
      hide CutsAt, TrimSpace, TruncateBody;
      forall other: nat | CutsAt(body, maxLength, other)
        ensures other == cut
      {
        CutIsOne(body, maxLength, other, cut);
      }
    }
  }

  /** Four letters under a limit of three become six characters. */
  lemma LimitCanBeExceeded()
    ensures TruncateBody("abcd", 3) == "abc..."
  {
    var short := "abcd"[..3];
    assert short == "abc" && short[..2] == "ab" && short[..2][..1] == "a" && short[..2][..1][..0] == "";
    assert LastSpace(short) == -1 by { assert forall i | 0 <= i < 3 :: short[i] != ' '; }
    TrimmedStays(short);
  }

  // ---------------------------------------------------------------- the whole

  function Cleaned(body: string, maxLength: int): string {
    var tidy := Normalized(ReplyText.Stripped(ReplyText.ALL, body));
    TrimSpace(if maxLength > 0 then TruncateBody(tidy, maxLength) else tidy)
  }

  method CleanBody(text: string, maxLength: int) returns (body: string)
    ensures body == Cleaned(text, maxLength)
    ensures maxLength > 0 ==> |body| <= maxLength + 3
    ensures Tidy(body) && Trimmed(body)
  {
    hide Normalized, TruncateBody, TrimSpace, Tidy;
    body := text;
    body := ReplyText.StripQuotedReply(body);
    body := NormalizeWhitespace(body);
    if maxLength > 0 {
      body := TruncateBody(body, maxLength);
    }
    body := TrimSpace(body);
    CleanedIsTidy(text, maxLength);
  }

  lemma SliceIsTidy(s: string, lo: nat, hi: nat)
    requires lo <= hi <= |s| && Tidy(s)
    ensures Tidy(s[lo..hi])
  {
    assert forall i | 0 <= i < hi - lo :: s[lo..hi][i] == s[lo + i];
  }

  lemma TrimIsTidy(s: string)
    requires Tidy(s)
    ensures Tidy(TrimSpace(s)) && Trimmed(TrimSpace(s)) && |TrimSpace(s)| <= |s|
  {
    var lo, hi := TrimSpaceKeeps(s);
    SliceIsTidy(s, lo, hi);
  }

  lemma DotsAreTidy(s: string)
    requires Tidy(s)
    ensures Tidy(s + "...")
  {
    assert forall i | |s| <= i < |s| + 3 :: (s + "...")[i] == '.';
  }

  lemma TruncatedIsTidy(s: string, maxLength: int)
    requires Tidy(s) && 0 < maxLength
    ensures Tidy(TruncateBody(s, maxLength)) && |TruncateBody(s, maxLength)| <= maxLength + 3
  {
    hide Tidy, TrimSpace, TruncateBody;
    TruncatesAtWord(s, maxLength);
    if |s| > maxLength {
      var cut: nat :| CutsAt(s, maxLength, cut) && TruncateBody(s, maxLength) == TrimSpace(s[..cut]) + "...";
      SliceIsTidy(s, 0, cut);
      assert s[0..cut] == s[..cut];
      TrimIsTidy(s[..cut]);
      DotsAreTidy(TrimSpace(s[..cut]));
    }
  }

  /** Whatever the body: the result is tidy, trimmed and at most three characters too long. */
  lemma CleanedIsTidy(body: string, maxLength: int)
    ensures Tidy(Cleaned(body, maxLength)) && Trimmed(Cleaned(body, maxLength))
    ensures maxLength > 0 ==> |Cleaned(body, maxLength)| <= maxLength + 3
  {
    hide Tidy, TrimSpace, TruncateBody, Normalized;
    var stripped := ReplyText.Stripped(ReplyText.ALL, body);
    NormalForm(stripped);
    var tidy := Normalized(stripped);
    if maxLength > 0 {
      TruncatedIsTidy(tidy, maxLength);
      TrimIsTidy(TruncateBody(tidy, maxLength));
    } else {
      TrimIsTidy(tidy);
    }
  }

  /** Nothing is made up: up to the dots, what is written was written at the beginning of the body. */
  lemma CleanedIsFromTheBody(body: string, maxLength: int)
    ensures
      var cut := ReplyText.FirstMarker(ReplyText.ALL, body, 0);
      var r := Ink(Cleaned(body, maxLength));
      r == Ink(body[..cut]) || exists k | 0 <= k <= |Ink(body[..cut])| :: r == Ink(body[..cut])[..k] + "..."
  {
    hide Ink, TrimSpace, Normalized, TruncateBody;
    var before := body[..ReplyText.FirstMarker(ReplyText.ALL, body, 0)];
    var tidy := Normalized(TrimSpace(before));
    TrimmingKeepsInk(before);
    NormalizingKeepsInk(TrimSpace(before));
    TrimmingKeepsInk(if maxLength > 0 then TruncateBody(tidy, maxLength) else tidy);
    if maxLength > 0 {
      TruncatesAtWord(tidy, maxLength);
      if |tidy| > maxLength {
        var cut: nat :| CutsAt(tidy, maxLength, cut) && TruncateBody(tidy, maxLength) == TrimSpace(tidy[..cut]) + "...";
        InkJoins(TrimSpace(tidy[..cut]), "...");
        InkOfDots();
        TrimmingKeepsInk(tidy[..cut]);
        InkOfPrefix(tidy, cut);
        var k := |Ink(tidy[..cut])|;
        assert Ink(tidy[..cut]) == Ink(before)[..k];
      }
    }
  }

  /** The body up to its first marker, trimmed and tidied. */
  function TidyPart(body: string): string {
    Normalized(TrimSpace(body[..ReplyText.FirstMarker(ReplyText.ALL, body, 0)]))
  }

  /**
   * What comes back is the tidied part before the first marker if there is no limit or it fits; else what
   * stands before its cut, trimmed, and the dots.
   */
  lemma CleanedExactly(body: string, maxLength: int)
    ensures
      var part := TidyPart(body);
      if maxLength <= 0 || |part| <= maxLength then Cleaned(body, maxLength) == part
      else exists cut: nat :: CutsAt(part, maxLength, cut) && Cleaned(body, maxLength) == TrimSpace(part[..cut]) + "..."
  {
    hide TrimSpace, Normalized, TruncateBody, Trimmed;
    var part := TidyPart(body);
    TrimmedPart(body);
    TrimmedStays(part);
    if maxLength > 0 {
      TruncatesAtWord(part, maxLength);
      if |part| > maxLength {
        var cut: nat :| CutsAt(part, maxLength, cut) && TruncateBody(part, maxLength) == TrimSpace(part[..cut]) + "...";
        TrimmedWithDots(part[..cut]);
        TrimmedStays(TrimSpace(part[..cut]) + "...");
      }
    }
  }

  lemma TrimmedPart(body: string)
    ensures Trimmed(TidyPart(body))
  {
    hide TrimSpace, Normalized;
    var before := body[..ReplyText.FirstMarker(ReplyText.ALL, body, 0)];
    var lo, hi := TrimSpaceKeeps(before);
    NormalizedStaysTrimmed(TrimSpace(before));
  }

  lemma TrimmedWithDots(s: string)
    ensures Trimmed(TrimSpace(s) + "...")
  {
    hide TrimSpace;
    var lo, hi := TrimSpaceKeeps(s);
    var t := TrimSpace(s) + "...";
    assert t[|t| - 1] == '.';
    assert t[0] == if TrimSpace(s) == "" then '.' else TrimSpace(s)[0];
  }

  /** Nothing that is written before the first marker is lost if there is no limit or the part fits. */
  lemma CleanedKeepsInk(body: string, maxLength: int)
    requires maxLength <= 0 || |TidyPart(body)| <= maxLength
    ensures Ink(Cleaned(body, maxLength)) == Ink(body[..ReplyText.FirstMarker(ReplyText.ALL, body, 0)])
  {
    hide Ink, TrimSpace, Normalized, Cleaned;
    var before := body[..ReplyText.FirstMarker(ReplyText.ALL, body, 0)];
    CleanedExactly(body, maxLength);
    TrimmingKeepsInk(before);
    NormalizingKeepsInk(TrimSpace(before));
  }

  /** A body with nothing to clean comes back as it is. */
  lemma CleanStaysAsItIs(body: string, maxLength: int)
    requires Tidy(body) && Trimmed(body) && forall i: nat | i < |body| :: !ReplyText.MarkerAt(ReplyText.ALL, body, i)
    requires maxLength <= 0 || |body| <= maxLength
    ensures Cleaned(body, maxLength) == body
  {
    hide TrimSpace, Normalized, Cleaned, ReplyText.MarkerAt, Tidy, Trimmed;
    assert body[..|body|] == body;
    TrimmedStays(body);
    NormalForm(body);
    CleanedExactly(body, maxLength);
  }

  /** Such a body. */
  lemma GreetingStays()
    ensures Cleaned("Hello Bob", 4000) == "Hello Bob"
  {
    hide Cleaned;
    ReplyText.NoMarkerInGreeting();
    assert forall i: nat | i < 9 :: "Hello Bob"[i] != '\t' && "Hello Bob"[i] != '\n';
    CleanStaysAsItIs("Hello Bob", 4000);
  }

  lemma InkOfDots()
    ensures Ink("...") == "..."
  {
    assert "..."[1..] == ".." && ".."[1..] == "." && "."[1..] == "";
    assert Ink("") == "" && Ink(".") == "." && Ink("..") == "..";
  }
}
