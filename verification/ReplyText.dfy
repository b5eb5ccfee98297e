/** Where the quoted part of a reply begins. */
module ReplyText {
  import opened Errors
  import opened Spaces

  /** The eight expressions of quotedReplyPatterns, in their order. */
  datatype Pattern =
    | OnWrote           // ^On .+wrote:$
    | OriginalMessage   // ^-+\s*Original Message\s*-+$
    | QuoteMark         // ^>\s
    | DateWrote         // ^.+\d{4}.+wrote:$
    | OnAddressWrote    // ^On .+<.+@.+>.+wrote:$
    | FromHeader        // ^From:\s*.+$
    | Underscores       // ^_{3,}$
    | Dashes            // ^-{3,}$

  const PATTERNS: seq<Pattern> :=
    [OnWrote, OriginalMessage, QuoteMark, DateWrote, OnAddressWrote, FromHeader, Underscores, Dashes]

  function SetOf(patterns: seq<Pattern>): set<Pattern> {
    set p | p in patterns
  }

  const ALL: set<Pattern> := SetOf(PATTERNS)

  // ---------------------------------------------------------------- characters

  /** The class \s of a regular expression: it includes the line feed but not the vertical tab. */
  predicate RegexSpace(c: char) {
    c == ' ' || c == '\t' || c == '\n' || c == '\U{0C}' || c == '\r'
  }

  /** The dot of a regular expression. */
  predicate NotNewline(c: char) {
    c != '\n'
  }

  predicate Digit(c: char) {
    '0' <= c <= '9'
  }

  predicate Dash(c: char) {
    c == '-'
  }

  predicate Underscore(c: char) {
    c == '_'
  }

  predicate LineStart(s: string, i: nat) {
    i == 0 || (i <= |s| && s[i - 1] == '\n')
  }

  predicate LineEnd(s: string, j: nat) {
    j == |s| || (j < |s| && s[j] == '\n')
  }

  /** Every character from i up to j is of one class. */
  predicate Run(s: string, i: nat, j: nat, f: char -> bool) {
    i <= j <= |s| && forall k | i <= k < j :: f(s[k])
  }

  // ---------------------------------------------------------------- the patterns

  /** At least n characters of one class, then the end of the line. */
  predicate Rule(s: string, i: nat, n: nat, f: char -> bool) {
    exists j | i + n <= j <= |s| :: Run(s, i, j, f) && LineEnd(s, j)
  }

  /** Some text that stays on its line, then "wrote:" and the end of the line. */
  predicate SomeWrote(s: string, i: nat) {
    exists j | i < j <= |s| :: Run(s, i, j, NotNewline) && OccursAt(s, "wrote:", j) && LineEnd(s, j + 6)
  }

  /** Some text that stays on its line, then the character c. */
  predicate SomeThen(s: string, i: nat, j: nat, c: char) {
    i < j < |s| && Run(s, i, j, NotNewline) && s[j] == c
  }

  /** After "On ": an address in angle brackets, with text around each of its signs. */
  predicate Address(s: string, i: nat, a: nat, b: nat, c: nat) {
    SomeThen(s, i + 3, a, '<') && SomeThen(s, a + 1, b, '@') && SomeThen(s, b + 1, c, '>') && SomeWrote(s, c + 1)
  }

  predicate Original(s: string, i: nat, a: nat, b: nat, c: nat) {
    && i < a && Run(s, i, a, Dash)
    && Run(s, a, b, RegexSpace)
    && OccursAt(s, "Original Message", b)
    && Run(s, b + 16, c, RegexSpace)
    && Rule(s, c, 1, Dash)
  }

  /** A match of the pattern begins at i. */
  predicate Matches(p: Pattern, s: string, i: nat) {
    && i < |s|
    && LineStart(s, i)
    && match p
       case OnWrote => OccursAt(s, "On ", i) && SomeWrote(s, i + 3)
       case OriginalMessage =>
         exists a, b, c | 0 <= a <= |s| && 0 <= b <= |s| && 0 <= c <= |s| :: Original(s, i, a, b, c)
       case QuoteMark => s[i] == '>' && i + 1 < |s| && RegexSpace(s[i + 1])
       case DateWrote =>
         exists a | i < a && a + 4 <= |s| ::
           Run(s, i, a, NotNewline) && Run(s, a, a + 4, Digit) && SomeWrote(s, a + 4)
       case OnAddressWrote =>
         && OccursAt(s, "On ", i)
         && exists a, b, c | 0 <= a < |s| && 0 <= b < |s| && 0 <= c < |s| ::
              Address(s, i, a, b, c)
       case FromHeader =>
         && OccursAt(s, "From:", i)
         && exists a | i + 5 <= a <= |s| :: Run(s, i + 5, a, RegexSpace) && Rule(s, a, 1, NotNewline)
       case Underscores => Rule(s, i, 3, Underscore)
       case Dashes => Rule(s, i, 3, Dash)
  }

  predicate MarkerAt(ps: set<Pattern>, s: string, i: nat) {
    exists p | p in ps :: Matches(p, s, i)
  }

  // ---------------------------------------------------------------- the patterns as conditions on lines

  /** Where the line that holds i ends. */
  function LineStop(s: string, i: nat): (j: nat)
    requires i <= |s|
    ensures i <= j <= |s| && LineEnd(s, j) && Run(s, i, j, NotNewline)
    decreases |s| - i
  {
    if i == |s| || s[i] == '\n' then i else LineStop(s, i + 1)
  }

  lemma LineStopIs(s: string, i: nat, j: nat)
    requires Run(s, i, j, NotNewline) && LineEnd(s, j)
    ensures LineStop(s, i) == j
  {
    var stop := LineStop(s, i);
  }

  /** The two rules: a line of nothing but three or more of the character. */
  lemma RulesExactly(s: string, i: nat)
    requires i < |s| && LineStart(s, i)
    ensures Matches(Underscores, s, i) <==> LineStop(s, i) >= i + 3 && Run(s, i, LineStop(s, i), Underscore)
    ensures Matches(Dashes, s, i) <==> LineStop(s, i) >= i + 3 && Run(s, i, LineStop(s, i), Dash)
  {
    var stop := LineStop(s, i);
    forall j: nat | Run(s, i, j, NotNewline) && LineEnd(s, j)
      ensures j == stop
    {
      LineStopIs(s, i, j);
    }
    forall j: nat | Run(s, i, j, Underscore) || Run(s, i, j, Dash)
      ensures Run(s, i, j, NotNewline)
    {
    }
  }

  /** "On … wrote:": the line begins with the one, ends with the other, and has something in between. */
  lemma OnWroteExactly(s: string, i: nat)
    requires i < |s| && LineStart(s, i)
    ensures
      var stop: int := LineStop(s, i);
      Matches(OnWrote, s, i) <==> OccursAt(s, "On ", i) && stop - 6 > i + 3 && OccursAt(s, "wrote:", stop - 6)
  {
    var stop := LineStop(s, i);
    if Matches(OnWrote, s, i) {
      var j :| i + 3 < j <= |s| && Run(s, i + 3, j, NotNewline) && OccursAt(s, "wrote:", j) && LineEnd(s, j + 6);
      WordIsRun(s, "On ", i);
      WordIsRun(s, "wrote:", j);
      hide OccursAt;
      assert Run(s, i, j + 6, NotNewline);
      LineStopIs(s, i, j + 6);
    }
    if OccursAt(s, "On ", i) && stop - 6 > i + 3 && OccursAt(s, "wrote:", stop - 6) {
      hide OccursAt;
      assert Run(s, i + 3, stop - 6, NotNewline);
    }
  }

  lemma WordIsRun(s: string, word: string, i: nat)
    requires OccursAt(s, word, i) && forall k | 0 <= k < |word| :: word[k] != '\n'
    ensures Run(s, i, i + |word|, NotNewline)
  {
    assert forall k | i <= k < i + |word| :: s[k] == s[i..i + |word|][k - i];
  }

  /** "From:" need not have anything on its own line: any text below it will do, since \s crosses lines. */
  lemma FromHeaderExactly(s: string, i: nat)
    requires i < |s| && LineStart(s, i)
    ensures Matches(FromHeader, s, i) <==> OccursAt(s, "From:", i) && exists k | i + 5 <= k < |s| :: s[k] != '\n'
  {
    if Matches(FromHeader, s, i) {
      var a :| i + 5 <= a <= |s| && Run(s, i + 5, a, RegexSpace) && Rule(s, a, 1, NotNewline);
      assert s[a] != '\n';
    }
    if OccursAt(s, "From:", i) && exists k | i + 5 <= k < |s| :: s[k] != '\n' {
      var a := FirstText(s, i + 5);
      var stop := LineStop(s, a);
      assert stop > a;
      assert Rule(s, a, 1, NotNewline);
      assert Run(s, i + 5, a, RegexSpace);
    }
  }

  /** Where the characters of one class that begin at i end. */
  function RunStop(s: string, i: nat, f: char -> bool): (j: nat)
    requires i <= |s|
    ensures i <= j <= |s| && Run(s, i, j, f) && (j < |s| ==> !f(s[j]))
    decreases |s| - i
  {
    if i == |s| || !f(s[i]) then i else RunStop(s, i + 1, f)
  }

  lemma RunStopIs(s: string, i: nat, j: nat, f: char -> bool)
    requires Run(s, i, j, f) && (j < |s| ==> !f(s[j]))
    ensures RunStop(s, i, f) == j
  {
    var stop := RunStop(s, i, f);
  }

  /** Read from left to right: dashes, white space, the words, white space, dashes, the end of the line. */
  predicate ReadsOriginalMessage(s: string, i: nat)
    requires i <= |s|
  {
    var a := RunStop(s, i, Dash);
    var b := RunStop(s, a, RegexSpace);
    && i < a && OccursAt(s, "Original Message", b)
    && var c := RunStop(s, b + 16, RegexSpace);
       var d := RunStop(s, c, Dash);
       c < d && LineEnd(s, d)
  }

  /** The second pattern matches exactly what reads so; the white space may run over line ends. */
  lemma OriginalMessageExactly(s: string, i: nat)
    requires i < |s| && LineStart(s, i)
    ensures Matches(OriginalMessage, s, i) <==> ReadsOriginalMessage(s, i)
  {
    hide Run, LineStart, LineEnd, OccursAt, Original, ReadsOriginalMessage;
    if Matches(OriginalMessage, s, i) {
      var a, b, c :| 0 <= a <= |s| && 0 <= b <= |s| && 0 <= c <= |s| && Original(s, i, a, b, c);
      OriginalIsRead(s, i, a, b, c);
    }
    if ReadsOriginalMessage(s, i) {
      var a, b, c := ReadIsOriginal(s, i);
    }
  }

  lemma ReadIsOriginal(s: string, i: nat) returns (a: nat, b: nat, c: nat)
    requires i <= |s| && ReadsOriginalMessage(s, i)
    ensures a <= |s| && b <= |s| && c <= |s| && Original(s, i, a, b, c)
  {
    hide Run, LineEnd, OccursAt;
    a := RunStop(s, i, Dash);
    b := RunStop(s, a, RegexSpace);
    assert b + 16 <= |s| by { WordFits(s, "Original Message", b); }
    c := RunStop(s, b + 16, RegexSpace);
    var d := RunStop(s, c, Dash);
    assert Run(s, c, d, Dash) && LineEnd(s, d);
    assert Rule(s, c, 1, Dash);
  }

  lemma WordFits(s: string, word: string, i: nat)
    requires OccursAt(s, word, i)
    ensures i + |word| <= |s|
  {
  }

  lemma OriginalIsRead(s: string, i: nat, a: nat, b: nat, c: nat)
    requires Original(s, i, a, b, c)
    ensures i <= |s| && ReadsOriginalMessage(s, i)
  {
    var d :| c + 1 <= d <= |s| && Run(s, c, d, Dash) && LineEnd(s, d);
    assert s[b] == s[b..b + 16][0] == 'O';
    assert a < b ==> RegexSpace(s[a]);
    assert Dash(s[c]);
    RunStopIs(s, i, a, Dash);
    RunStopIs(s, a, b, RegexSpace);
    RunStopIs(s, b + 16, c, RegexSpace);
    RunStopIs(s, c, d, Dash);
  }

  predicate FourDigits(s: string, a: nat) {
    Run(s, a, a + 4, Digit)
  }

  /** The fourth pattern: the line ends with "wrote:", and four digits stand inside what comes before. */
  lemma DateWroteExactly(s: string, i: nat)
    requires i < |s| && LineStart(s, i)
    ensures
      var stop: int := LineStop(s, i);
      Matches(DateWrote, s, i)
      <==> stop >= 6 && OccursAt(s, "wrote:", stop - 6) && exists a | i < a && a + 4 < stop - 6 :: FourDigits(s, a)
  {
    hide Run, OccursAt, LineEnd, SomeWrote;
    if Matches(DateWrote, s, i) {
      var a :| i < a && a + 4 <= |s| && Run(s, i, a, NotNewline) && Run(s, a, a + 4, Digit) && SomeWrote(s, a + 4);
      DateOnLine(s, i, a);
    }
    var stop: int := LineStop(s, i);
    if stop >= 6 && OccursAt(s, "wrote:", stop - 6) && exists a | i < a && a + 4 < stop - 6 :: FourDigits(s, a) {
      var a :| i < a && a + 4 < stop - 6 && FourDigits(s, a);
      DateFromLine(s, i, a);
    }
  }

  lemma DateOnLine(s: string, i: nat, a: nat)
    requires i < a && Run(s, i, a, NotNewline) && FourDigits(s, a) && SomeWrote(s, a + 4)
    ensures
      var stop: int := LineStop(s, i);
      stop >= 6 && a + 4 < stop - 6 && OccursAt(s, "wrote:", stop - 6)
  {
    var j :| a + 4 < j <= |s| && Run(s, a + 4, j, NotNewline) && OccursAt(s, "wrote:", j) && LineEnd(s, j + 6);
    WordIsRun(s, "wrote:", j);
    hide OccursAt, LineEnd;
    DigitsStayOnLine(s, a);
    RunsMeet(s, i, a, a + 4);
    RunsMeet(s, i, a + 4, j);
    RunsMeet(s, i, j, j + 6);
    LineStopIs(s, i, j + 6);
  }

  lemma DateFromLine(s: string, i: nat, a: nat)
    requires i <= |s| && i < a && a + 10 < LineStop(s, i) && FourDigits(s, a) && OccursAt(s, "wrote:", LineStop(s, i) - 6)
    ensures Run(s, i, a, NotNewline) && Run(s, a, a + 4, Digit) && SomeWrote(s, a + 4)
  {
    hide OccursAt, LineEnd;
    var j: nat := LineStop(s, i) - 6;
    assert Run(s, a + 4, j, NotNewline);
  }

  lemma DigitsStayOnLine(s: string, a: nat)
    requires FourDigits(s, a)
    ensures Run(s, a, a + 4, NotNewline)
  {
  }

  lemma RunsMeet(s: string, i: nat, j: nat, k: nat)
    requires Run(s, i, j, NotNewline) && Run(s, j, k, NotNewline)
    ensures Run(s, i, k, NotNewline)
  {
  }

  /** All eight patterns are tried. */
  lemma AllPatternsAreTried(p: Pattern)
    ensures p in ALL
  {
    assert PATTERNS[0] == OnWrote && PATTERNS[1] == OriginalMessage && PATTERNS[2] == QuoteMark && PATTERNS[3] == DateWrote;
    assert PATTERNS[4] == OnAddressWrote && PATTERNS[5] == FromHeader && PATTERNS[6] == Underscores && PATTERNS[7] == Dashes;
  }

  /** Text on one line that begins like none of them and has no digits is not cut. */
  lemma NoMarkerInGreeting()
    ensures forall i: nat :: !MarkerAt(ALL, "Hello Bob", i)
  {
    forall p, i: nat
      ensures !Matches(p, "Hello Bob", i)
    {
    }
  }

  /** The first character from i on that is no line feed. */
  function FirstText(s: string, i: nat): (k: nat)
    requires exists k | i <= k < |s| :: s[k] != '\n'
    ensures i <= k < |s| && s[k] != '\n' && forall j | i <= j < k :: s[j] == '\n'
    decreases |s| - i
  {
    if s[i] != '\n' then i else FirstText(s, i + 1)
  }

  // ---------------------------------------------------------------- the cut

  /** e is where the first match of any of the patterns begins; the length if there is none. */
  predicate IsEarliest(ps: set<Pattern>, s: string, e: nat) {
    && e <= |s|
    && (forall i: nat | i < e :: !MarkerAt(ps, s, i))
    && (e < |s| ==> MarkerAt(ps, s, e))
  }

  /** FindStringIndex: the leftmost match, from i on. */
  function FirstMatch(p: Pattern, s: string, i: nat): (r: Option<nat>)
    requires i <= |s|
    ensures r.None? ==> forall k: nat | i <= k :: !Matches(p, s, k)
    ensures r.Some? ==> i <= r.value < |s| && Matches(p, s, r.value) && forall k: nat | i <= k < r.value :: !Matches(p, s, k)
    decreases |s| - i
  {
    if i == |s| then None
    else if Matches(p, s, i) then Some(i)
    else FirstMatch(p, s, i + 1)
  }

  method Earliest(patterns: seq<Pattern>, body: string) returns (earliestIndex: nat)
    ensures IsEarliest(SetOf(patterns), body, earliestIndex)
  {
    hide Matches;
    earliestIndex := |body|;
    for k := 0 to |patterns|
      invariant IsEarliest(SetOf(patterns[..k]), body, earliestIndex)
    {
      var loc := FirstMatch(patterns[k], body, 0);
      AddPattern(SetOf(patterns[..k]), patterns[k], body, earliestIndex);
      assert SetOf(patterns[..k + 1]) == SetOf(patterns[..k]) + {patterns[k]};
      if loc.Some? && loc.value < earliestIndex {
        earliestIndex := loc.value;
      }
    }
    assert patterns[..|patterns|] == patterns;
  }

  /** One more pattern moves the earliest match to its own first match, if that comes first. */
  lemma AddPattern(ps: set<Pattern>, p: Pattern, s: string, e: nat)
    requires IsEarliest(ps, s, e)
    ensures
      var loc := FirstMatch(p, s, 0);
      IsEarliest(ps + {p}, s, if loc.Some? && loc.value < e then loc.value else e)
  {
    hide Matches;
    var loc := FirstMatch(p, s, 0);
    forall i: nat
      ensures MarkerAt(ps + {p}, s, i) <==> MarkerAt(ps, s, i) || Matches(p, s, i)
    {
      assert Matches(p, s, i) ==> p in ps + {p};
    }
  }

  function FirstMarker(ps: set<Pattern>, s: string, i: nat): (r: nat)
    requires i <= |s|
    ensures i <= r <= |s|
    ensures forall k: nat | i <= k < r :: !MarkerAt(ps, s, k)
    ensures r < |s| ==> MarkerAt(ps, s, r)
    decreases |s| - i
  {
    if i == |s| || MarkerAt(ps, s, i) then i else FirstMarker(ps, s, i + 1)
  }

  /** The body up to its first marker, trimmed. */
  function Stripped(ps: set<Pattern>, s: string): string {
    TrimSpace(s[..FirstMarker(ps, s, 0)])
  }

  method StripQuotedReply(body: string) returns (r: string)
    ensures r == Stripped(ALL, body)
  {
    hide MarkerAt;
    r := body;
    var earliestIndex := Earliest(PATTERNS, body);
    EarliestIsOne(ALL, body, earliestIndex, FirstMarker(ALL, body, 0));
    if earliestIndex < |body| {
      r := r[..earliestIndex];
    } else {
      assert body[..|body|] == body;
    }
    r := TrimSpace(r);
  }

  lemma EarliestIsOne(ps: set<Pattern>, s: string, e: nat, f: nat)
    requires IsEarliest(ps, s, e) && IsEarliest(ps, s, f)
    ensures e == f
  {
    hide MarkerAt;
  }

  // ---------------------------------------------------------------- what the cut is

  /** A prefix that ends with a line, or with the text, and in which no marker begins. */
  predicate MarkerFree(ps: set<Pattern>, s: string, k: nat) {
    && k <= |s|
    && (k == |s| || LineStart(s, k))
    && forall i: nat | i < k :: !MarkerAt(ps, s, i)
  }

  /** What stays is the trim of the longest prefix of whole lines in which no marker begins. */
  lemma StripsToLongestPrefix(ps: set<Pattern>, s: string)
    ensures exists cut: nat :: MarkerFree(ps, s, cut) && Stripped(ps, s) == TrimSpace(s[..cut])
                          && forall k: nat | MarkerFree(ps, s, k) :: k <= cut
  {
    var cut := FirstMarker(ps, s, 0);
    assert MarkerFree(ps, s, cut);
    forall k: nat | MarkerFree(ps, s, k)
      ensures k <= cut
    {
      assert cut < |s| ==> MarkerAt(ps, s, cut);
    }
  }

  /** The order in which the patterns are tried, and trying one twice, makes no difference. */
  method OrderIsIrrelevant(patterns: seq<Pattern>, others: seq<Pattern>, body: string) returns (e: nat, f: nat)
    requires forall p :: p in patterns <==> p in others
    ensures e == f && IsEarliest(SetOf(patterns), body, e)
  {
    e := Earliest(patterns, body);
    f := Earliest(others, body);
    assert SetOf(patterns) == SetOf(others);
    EarliestIsOne(SetOf(patterns), body, e, f);
  }

  lemma RunsJoin(s: string, i: nat, j: nat, k: nat)
    requires SomeThen(s, i, j, '<') || SomeThen(s, i, j, '@') || SomeThen(s, i, j, '>')
    requires Run(s, j + 1, k, NotNewline)
    ensures Run(s, i, k, NotNewline)
  {
  }

  /** The fifth pattern finds nothing that the first does not find. */
  lemma AddressIsSubsumed(s: string, i: nat)
    requires Matches(OnAddressWrote, s, i)
    ensures Matches(OnWrote, s, i)
  {
    var a, b, c :| 0 <= a < |s| && 0 <= b < |s| && 0 <= c < |s|
                   && Address(s, i, a, b, c);
    var j :| c + 1 < j <= |s| && Run(s, c + 1, j, NotNewline) && OccursAt(s, "wrote:", j) && LineEnd(s, j + 6);
    RunsJoin(s, b + 1, c, j);
    RunsJoin(s, a + 1, b, j);
    RunsJoin(s, i + 3, a, j);
  }

  /** So it may be dropped, wherever the first is present. */
  lemma FifthPatternAddsNothing(ps: set<Pattern>, s: string)
    requires OnWrote in ps
    ensures Stripped(ps - {OnAddressWrote}, s) == Stripped(ps, s)
  {
    hide Matches;
    var fewer := ps - {OnAddressWrote};
    forall i: nat
      ensures MarkerAt(fewer, s, i) <==> MarkerAt(ps, s, i)
    {
      if MarkerAt(ps, s, i) {
        var p :| p in ps && Matches(p, s, i);
        if p == OnAddressWrote {
          AddressIsSubsumed(s, i);
          assert OnWrote in fewer;
        } else {
          assert p in fewer;
        }
      }
    }
    EarliestIsOne(ps, s, FirstMarker(ps, s, 0), FirstMarker(fewer, s, 0));
  }

  // ---------------------------------------------------------------- stripping twice

  /** From an index on, y goes on as x does, d characters further along, and x ends where a line of y does. */
  predicate Follows(x: string, y: string, d: int, from: nat) {
    && 0 <= from + d && from <= |x| && |x| + d <= |y| && LineEnd(y, |x| + d)
    && forall k | from <= k < |x| :: y[k + d] == x[k]
  }

  lemma RunMoves(x: string, y: string, d: int, from: nat, i: nat, j: nat, f: char -> bool)
    requires Follows(x, y, d, from) && from <= i && Run(x, i, j, f)
    ensures Run(y, i + d, j + d, f)
  {
    forall k | i + d <= k < j + d
      ensures f(y[k])
    {
      assert x[k - d] == y[(k - d) + d];
    }
  }

  lemma WordMoves(x: string, y: string, d: int, from: nat, word: string, i: nat)
    requires Follows(x, y, d, from) && from <= i && OccursAt(x, word, i)
    ensures OccursAt(y, word, i + d)
  {
    forall k | 0 <= k < |word|
      ensures y[i + d..i + d + |word|][k] == word[k]
    {
      assert x[i..i + |word|][k] == x[i + k] == y[(i + k) + d];
    }
  }

  lemma LineEndMoves(x: string, y: string, d: int, from: nat, j: nat)
    requires Follows(x, y, d, from) && from <= j && LineEnd(x, j)
    ensures LineEnd(y, j + d)
  {
    assert j < |x| ==> y[j + d] == x[j];
  }

  lemma RuleMoves(x: string, y: string, d: int, from: nat, i: nat, n: nat, f: char -> bool)
    requires Follows(x, y, d, from) && from <= i && Rule(x, i, n, f)
    ensures Rule(y, i + d, n, f)
  {
    var j :| i + n <= j <= |x| && Run(x, i, j, f) && LineEnd(x, j);
    RunMoves(x, y, d, from, i, j, f);
    LineEndMoves(x, y, d, from, j);
    assert Run(y, i + d, j + d, f);
  }

  lemma SomeWroteMoves(x: string, y: string, d: int, from: nat, i: nat)
    requires Follows(x, y, d, from) && from <= i && SomeWrote(x, i)
    ensures SomeWrote(y, i + d)
  {
    var j :| i < j <= |x| && Run(x, i, j, NotNewline) && OccursAt(x, "wrote:", j) && LineEnd(x, j + 6);
    RunMoves(x, y, d, from, i, j, NotNewline);
    WordMoves(x, y, d, from, "wrote:", j);
    LineEndMoves(x, y, d, from, j + 6);
    assert Run(y, i + d, j + d, NotNewline);
  }

  lemma OriginalMoves(x: string, y: string, d: int, from: nat, i: nat)
    requires Follows(x, y, d, from) && from <= i && Matches(OriginalMessage, x, i) && LineStart(y, i + d)
    ensures Matches(OriginalMessage, y, i + d)
  {
    var a, b, c :| 0 <= a <= |x| && 0 <= b <= |x| && 0 <= c <= |x| && Original(x, i, a, b, c);
    assert i < a <= b && b + 16 <= c && i + d < |y|;
    hide Run, OccursAt, LineEnd, LineStart, Rule, Follows;
    RunMoves(x, y, d, from, i, a, Dash);
    RunMoves(x, y, d, from, a, b, RegexSpace);
    WordMoves(x, y, d, from, "Original Message", b);
    RunMoves(x, y, d, from, b + 16, c, RegexSpace);
    RuleMoves(x, y, d, from, c, 1, Dash);
    assert Original(y, i + d, a + d, b + d, c + d);
    InBounds(x, y, d, from, a, b, c);
  }

  lemma InBounds(x: string, y: string, d: int, from: nat, a: nat, b: nat, c: nat)
    requires Follows(x, y, d, from) && from <= a <= |x| && from <= b <= |x| && from <= c <= |x|
    ensures 0 <= a + d <= |y| && 0 <= b + d <= |y| && 0 <= c + d <= |y|
  {
  }

  lemma DateMoves(x: string, y: string, d: int, from: nat, i: nat)
    requires Follows(x, y, d, from) && from <= i && Matches(DateWrote, x, i) && LineStart(y, i + d)
    ensures Matches(DateWrote, y, i + d)
  {
    assert i + d < |y|;
    hide OccursAt, LineEnd, LineStart, SomeWrote, Follows;
    var a :| i < a && a + 4 <= |x| && Run(x, i, a, NotNewline) && Run(x, a, a + 4, Digit) && SomeWrote(x, a + 4);
    RunMoves(x, y, d, from, i, a, NotNewline);
    RunMoves(x, y, d, from, a, a + 4, Digit);
    SomeWroteMoves(x, y, d, from, a + 4);
    assert Run(y, a + d, a + d + 4, Digit);
  }

  lemma SomeThenMoves(x: string, y: string, d: int, from: nat, i: nat, j: nat, c: char)
    requires Follows(x, y, d, from) && from <= i && SomeThen(x, i, j, c)
    ensures SomeThen(y, i + d, j + d, c)
  {
    RunMoves(x, y, d, from, i, j, NotNewline);
    assert y[j + d] == x[j];
  }

  lemma AddressMoves(x: string, y: string, d: int, from: nat, i: nat)
    requires Follows(x, y, d, from) && from <= i && Matches(OnAddressWrote, x, i) && LineStart(y, i + d)
    ensures Matches(OnAddressWrote, y, i + d)
  {
    assert i + d < |y|;
    var a, b, c :| 0 <= a < |x| && 0 <= b < |x| && 0 <= c < |x| && Address(x, i, a, b, c);
    assert i + 3 < a && a + 1 < b && b + 1 < c;
    hide OccursAt, LineEnd, LineStart, SomeWrote, Run, Follows;
    WordMoves(x, y, d, from, "On ", i);
    SomeThenMoves(x, y, d, from, i + 3, a, '<');
    SomeThenMoves(x, y, d, from, a + 1, b, '@');
    SomeThenMoves(x, y, d, from, b + 1, c, '>');
    SomeWroteMoves(x, y, d, from, c + 1);
    assert Address(y, i + d, a + d, b + d, c + d);
  }

  lemma FromMoves(x: string, y: string, d: int, from: nat, i: nat)
    requires Follows(x, y, d, from) && from <= i && Matches(FromHeader, x, i) && LineStart(y, i + d)
    ensures Matches(FromHeader, y, i + d)
  {
    assert i + d < |y|;
    var a :| i + 5 <= a <= |x| && Run(x, i + 5, a, RegexSpace) && Rule(x, a, 1, NotNewline);
    InBounds(x, y, d, from, a, a, a);
    hide OccursAt, LineEnd, LineStart, Run, Rule, Follows;
    WordMoves(x, y, d, from, "From:", i);
    RunMoves(x, y, d, from, i + 5, a, RegexSpace);
    RuleMoves(x, y, d, from, a, 1, NotNewline);
    assert Run(y, i + d + 5, a + d, RegexSpace);
  }

  /** A match depends on what follows it only, and on the line starting where it does. */
  lemma MatchMoves(p: Pattern, x: string, y: string, d: int, from: nat, i: nat)
    requires Follows(x, y, d, from) && from <= i && Matches(p, x, i) && LineStart(y, i + d)
    ensures Matches(p, y, i + d)
  {
    assert i + d < |y| && y[i + d] == x[i];
    assert i + 1 < |x| ==> i + 1 + d < |y| && y[i + 1 + d] == x[i + 1];
    hide Run, OccursAt, LineEnd, Rule, SomeWrote, LineStart, Original, Address, Follows;
    match p
    case OnWrote =>
      WordMoves(x, y, d, from, "On ", i);
      SomeWroteMoves(x, y, d, from, i + 3);
    case OriginalMessage => OriginalMoves(x, y, d, from, i);
    case QuoteMark =>
    case DateWrote => DateMoves(x, y, d, from, i);
    case OnAddressWrote => AddressMoves(x, y, d, from, i);
    case FromHeader => FromMoves(x, y, d, from, i);
    case Underscores => RuleMoves(x, y, d, from, i, 3, Underscore);
    case Dashes => RuleMoves(x, y, d, from, i, 3, Dash);
  }

  /** Stripping its own result changes nothing exactly when no marker begins in that result. */
  lemma StableExactly(ps: set<Pattern>, t: string)
    requires Trimmed(t)
    ensures Stripped(ps, t) == t <==> forall i: nat | i < |t| :: !MarkerAt(ps, t, i)
  {
    hide MarkerAt;
    var cut := FirstMarker(ps, t, 0);
    var lo, hi := TrimSpaceKeeps(t[..cut]);
    if cut == |t| {
      assert t[..cut] == t;
      TrimmedStays(t);
    }
  }

  /** The markers that begin in the part of a text that stays. */
  lemma StripAgain(ps: set<Pattern>, s: string, lo: nat, hi: nat)
    requires Core(s[..FirstMarker(ps, s, 0)], lo, hi) && Stripped(ps, s) == s[lo..hi]
    ensures
      var t := s[lo..hi];
      Stripped(ps, t) == t
      <==> && !(!LineStart(s, lo) && MarkerAt(ps, t, 0))
           && !(!LineEnd(s, hi) && exists i: nat | i < |t| :: MarkerAt(ps, t, i))
  {
    hide Matches;
    var t, cut := s[lo..hi], FirstMarker(ps, s, 0);
    SliceOfPrefix(s, cut, lo, hi);
    StableExactly(ps, t);
    assert MarkerAt(ps, t, 0) ==> t != "" by { MarkersAreInside(ps, t); }
    forall i: nat | i < |t| && MarkerAt(ps, t, i) && (i > 0 || LineStart(s, lo)) && LineEnd(s, hi)
      ensures MarkerAt(ps, s, lo + i)
    {
      var p :| p in ps && Matches(p, t, i);
      if i > 0 {
        LineStartInside(p, s, lo, hi, i);
      }
      MatchMoves(p, t, s, lo, 0, i);
    }
  }

  lemma LineStartInside(p: Pattern, s: string, lo: nat, hi: nat, i: nat)
    requires lo <= hi <= |s| && Matches(p, s[lo..hi], i) && i > 0
    ensures LineStart(s, lo + i)
  {
    assert s[lo..hi][i - 1] == s[lo + i - 1];
  }

  /** A marker at i, seen from there to the end of the text: the same marker in the text that begins at i. */
  lemma MarkerFromHere(ps: set<Pattern>, t: string, i: nat)
    requires i < |t| && LineStart(t, i)
    ensures MarkerAt(ps, t, i) <==> MarkerAt(ps, t[i..], 0)
  {
    hide Matches;
    var rest := t[i..];
    var back: int := i;
    if MarkerAt(ps, t, i) {
      var p :| p in ps && Matches(p, t, i);
      assert Follows(t, rest, -back, i);
      MatchMoves(p, t, rest, -back, i, i);
    }
    if MarkerAt(ps, rest, 0) {
      var p :| p in ps && Matches(p, rest, 0);
      assert Follows(rest, t, i, 0);
      MatchMoves(p, rest, t, i, 0, 0);
    }
  }

  /** The part of a text before its first marker is s[lo..hi], apart from white space around it. */
  predicate StaysBetween(ps: set<Pattern>, s: string, cut: nat, lo: nat, hi: nat) {
    IsEarliest(ps, s, cut) && Core(s[..cut], lo, hi)
  }

  /**
   * What stands from i to hi would be a marker if a line began at i and the text ended at hi, and blanks
   * hide it: those before the first line of what stays, if it stands there, or those after the last line.
   */
  predicate HiddenByBlanks(ps: set<Pattern>, s: string, lo: nat, hi: nat, i: nat) {
    && lo <= i < hi <= |s| && MarkerAt(ps, s[i..hi], 0)
    && ((i == lo && !LineStart(s, lo)) || (LineStart(s, i) && !LineEnd(s, hi)))
  }

  ghost predicate BlanksHideMarker(ps: set<Pattern>, s: string) {
    exists cut: nat, lo: nat, hi: nat, i: nat :: StaysBetween(ps, s, cut, lo, hi) && HiddenByBlanks(ps, s, lo, hi, i)
  }

  /**
   * Stripping twice differs from stripping once exactly if blanks at the edge of a line hide a marker: the
   * blanks before the first line of the part before the first marker, or those after its last line.
   */
  lemma StripTwiceExactly(ps: set<Pattern>, s: string)
    ensures Stripped(ps, Stripped(ps, s)) == Stripped(ps, s) <==> !BlanksHideMarker(ps, s)
  {
    hide Matches, MarkerAt, Core, LineEnd;
    var cut := FirstMarker(ps, s, 0);
    var lo, hi := TrimSpaceKeeps(s[..cut]);
    CoreIsInside(s, cut, lo, hi);
    SliceOfPrefix(s, cut, lo, hi);
    StripAgain(ps, s, lo, hi);
    var t := s[lo..hi];
    forall i: nat | lo <= i < hi && (i == lo || LineStart(s, i))
      ensures MarkerAt(ps, t, i - lo) <==> MarkerAt(ps, s[i..hi], 0)
    {
      assert t[i - lo..] == s[i..hi];
      assert LineStart(t, i - lo) by { assert i > lo ==> t[i - lo - 1] == s[i - 1]; }
      MarkerFromHere(ps, t, i - lo);
    }
    forall i: nat | i < |t| && MarkerAt(ps, t, i)
      ensures i == 0 || LineStart(s, lo + i)
    {
      if i > 0 {
        MarkersStartLines(ps, s, lo, hi, i);
      }
    }
    assert StaysBetween(ps, s, cut, lo, hi);
    if Stripped(ps, t) != t {
      if !LineStart(s, lo) && MarkerAt(ps, t, 0) {
        MarkersAreInside(ps, t);
        assert HiddenByBlanks(ps, s, lo, hi, lo);
      } else {
        var i: nat :| i < |t| && MarkerAt(ps, t, i);
        assert MarkerAt(ps, s[lo + i..hi], 0);
        assert HiddenByBlanks(ps, s, lo, hi, lo + i);
      }
    }
    if BlanksHideMarker(ps, s) {
      var cut', lo', hi', i: nat :| StaysBetween(ps, s, cut', lo', hi') && HiddenByBlanks(ps, s, lo', hi', i);
      EarliestIsOne(ps, s, cut, cut');
      CoreIsOne(s[..cut], lo, hi, lo', hi');
      assert MarkerAt(ps, t, i - lo);
    }
  }

  lemma CoreIsInside(s: string, cut: nat, lo: nat, hi: nat)
    requires cut <= |s| && Core(s[..cut], lo, hi)
    ensures lo <= hi <= cut
  {
  }

  lemma CoreAt(s: string, lo: nat, hi: nat)
    requires Core(s, lo, hi)
    ensures forall k | 0 <= k < lo || hi <= k < |s| :: IsSpace(s[k])
    ensures lo < hi ==> !IsSpace(s[lo]) && !IsSpace(s[hi - 1])
  {
    assert forall k | 0 <= k < lo :: s[..lo][k] == s[k];
    assert forall k | hi <= k < |s| :: s[hi..][k - hi] == s[k];
    assert lo < hi ==> s[lo..hi][0] == s[lo] && s[lo..hi][hi - lo - 1] == s[hi - 1];
  }

  /** A text has one core, unless it is all white space. */
  lemma CoreIsOne(s: string, lo: nat, hi: nat, lo': nat, hi': nat)
    requires Core(s, lo, hi) && Core(s, lo', hi') && lo' < hi'
    ensures lo == lo' && hi == hi'
  {
    CoreAt(s, lo, hi);
    CoreAt(s, lo', hi');
    hide Core, IsSpace;
  }

  lemma MarkersStartLines(ps: set<Pattern>, s: string, lo: nat, hi: nat, i: nat)
    requires lo <= hi <= |s| && i > 0 && MarkerAt(ps, s[lo..hi], i)
    ensures LineStart(s, lo + i)
  {
    var p :| p in ps && Matches(p, s[lo..hi], i);
    LineStartInside(p, s, lo, hi, i);
  }

  // ---------------------------------------------------------------- the caller's test

  /** No white space but line feeds stands at the edge of any line. */
  predicate CleanEdges(s: string) {
    forall i: nat | i < |s| && IsSpace(s[i]) && s[i] != '\n' :: !LineStart(s, i) && !LineEnd(s, i + 1)
  }

  lemma {:induction false} LeadingLines(s: string, lo: nat)
    requires CleanEdges(s) && lo <= |s| && AllSpace(s[..lo])
    ensures LineStart(s, lo)
  {
    if lo > 0 {
      assert forall k | 0 <= k < lo :: IsSpace(s[..lo][k]) && s[..lo][k] == s[k];
      assert AllSpace(s[..lo - 1]);
      LeadingLines(s, lo - 1);
      assert s[lo - 1] == '\n';
    }
  }

  lemma {:induction false} TrailingLines(s: string, hi: nat, cut: nat)
    requires CleanEdges(s) && hi < cut <= |s| && AllSpace(s[hi..cut]) && (cut == |s| || LineStart(s, cut))
    ensures s[hi] == '\n' && LineEnd(s, hi)
    decreases cut - hi
  {
    assert s[hi..cut][0] == s[hi];
    if hi + 1 < cut {
      assert s[hi..cut][1..] == s[hi + 1..cut];
      TrailingLines(s, hi + 1, cut);
    }
    assert LineEnd(s, hi + 1) || s[hi] == '\n';
  }

  /** A body with clean edges is stripped once and for all. */
  lemma CleanEdgesStripOnce(ps: set<Pattern>, s: string)
    requires CleanEdges(s)
    ensures Stripped(ps, Stripped(ps, s)) == Stripped(ps, s)
  {
    hide Matches, CleanEdges, LineStart, LineEnd;
    var cut := FirstMarker(ps, s, 0);
    var lo, hi := TrimSpaceKeeps(s[..cut]);
    SliceOfPrefix(s, cut, lo, hi);
    StripAgain(ps, s, lo, hi);
    assert s[..cut][..lo] == s[..lo] && s[..cut][hi..] == s[hi..cut];
    LeadingLines(s, lo);
    MarkersAreInside(ps, s[lo..hi]);
    assert cut == |s| || LineStart(s, cut) by { CutStartsLine(ps, s, cut); }
    if lo < hi < cut {
      TrailingLines(s, hi, cut);
    } else if lo < hi {
      CoreAt(s[..cut], lo, hi);
      assert s[..cut][hi - 1] == s[cut - 1];
      CutAtText(s, cut);
    }
  }

  lemma CutStartsLine(ps: set<Pattern>, s: string, cut: nat)
    requires IsEarliest(ps, s, cut)
    ensures cut == |s| || LineStart(s, cut)
  {
  }

  /** A line that begins behind a character that is no white space is none: the text ends there. */
  lemma CutAtText(s: string, cut: nat)
    requires 0 < cut <= |s| && (cut == |s| || LineStart(s, cut)) && !IsSpace(s[cut - 1])
    ensures LineEnd(s, cut)
  {
  }

  lemma SliceOfPrefix(s: string, cut: nat, lo: nat, hi: nat)
    requires lo <= hi <= cut <= |s|
    ensures s[..cut][lo..hi] == s[lo..hi]
  {
  }

  lemma MarkersAreInside(ps: set<Pattern>, t: string)
    ensures forall i: nat | MarkerAt(ps, t, i) :: i < |t|
  {
  }

  /** It does happen: the two blanks hid a quote mark. */
  lemma StrippingTwiceCanDiffer()
    ensures Stripped(ALL, "  > x") == "> x" && Stripped(ALL, "> x") == ""
  {
    var s, t := "  > x", "> x";
    forall p, i: nat
      ensures !Matches(p, s, i)
    {
    }
    assert s[..|s|] == s;
    assert TrimLeft(s) == TrimLeft(s[1..]) == t by { assert s[1..][1..] == t; }
    assert Matches(QuoteMark, t, 0) && QuoteMark == PATTERNS[2];
    assert t[..0] == "";
  }
}
