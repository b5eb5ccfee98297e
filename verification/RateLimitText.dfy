/** A rate limit is recognised by the text of an error, and that text holds the id of the message. */
module RateLimitText {
  import opened Errors
  import opened HistorySync
  import opened AccountModel

  /** The five phrases. */
  lemma PhrasesExactly(text: string)
    ensures ReadsAsRateLimit(text)
       <==> || Contains(text, "429") || Contains(text, "rate limit") || Contains(text, "rate_limit")
            || Contains(text, "too many requests") || Contains(text, "quota exceeded")
  {
    hide Contains;
    assert RATE_LIMIT_PHRASES[0] == "429" && RATE_LIMIT_PHRASES[1] == "rate limit" && RATE_LIMIT_PHRASES[2] == "rate_limit";
    assert RATE_LIMIT_PHRASES[3] == "too many requests" && RATE_LIMIT_PHRASES[4] == "quota exceeded";
  }

  /** Capital letters make no difference. */
  lemma CapitalsReadAlike()
    ensures IsRateLimitError(Plain("Quota EXCEEDED"))
  {
    assert Lower("Quota EXCEEDED") == "quota exceeded";
    assert OccursAt("quota exceeded", "quota exceeded", 0) by { assert "quota exceeded"[0..14] == "quota exceeded"; }
    PhrasesExactly("quota exceeded");
  }

  lemma LowerJoins(a: string, b: string)
    ensures Lower(a + b) == Lower(a) + Lower(b)
  {
  }

  lemma OccursLeft(a: string, b: string, sub: string, i: nat)
    requires i + |sub| <= |a|
    ensures OccursAt(a + b, sub, i) <==> OccursAt(a, sub, i)
  {
    assert (a + b)[i..i + |sub|] == a[i..i + |sub|];
  }

  lemma OccursRight(a: string, b: string, sub: string, i: nat)
    requires |a| <= i
    ensures OccursAt(a + b, sub, i) <==> OccursAt(b, sub, i - |a|)
  {
    if i + |sub| <= |a + b| {
      assert (a + b)[i..i + |sub|] == b[i - |a|..i - |a| + |sub|];
    }
  }

  /** Before a text in which no occurrence can begin, nothing changes. */
  lemma ContainsBehind(a: string, b: string, sub: string)
    requires forall i | 0 <= i < |a| :: !OccursAt(a + b, sub, i)
    ensures Contains(a + b, sub) <==> Contains(b, sub)
  {
    hide OccursAt;
    if Contains(a + b, sub) {
      var i :| 0 <= i <= |a + b| && OccursAt(a + b, sub, i);
      OccursRight(a, b, sub, i);
    }
    if Contains(b, sub) {
      var i :| 0 <= i <= |b| && OccursAt(b, sub, i);
      OccursRight(a, b, sub, i + |a|);
    }
  }

  /** A character that the phrase does not have keeps the two sides apart. */
  lemma ContainsApart(a: string, c: char, b: string, sub: string)
    requires sub != "" && forall k | 0 <= k < |sub| :: sub[k] != c
    ensures Contains(a + [c] + b, sub) <==> Contains(a, sub) || Contains(b, sub)
  {
    var all, left := a + [c] + b, a + [c];
    if Contains(all, sub) {
      var i :| 0 <= i <= |all| && OccursAt(all, sub, i);
      NotAcross(a, c, b, sub, i);
      if i + |sub| <= |a| {
        assert all == a + ([c] + b);
        OccursLeft(a, [c] + b, sub, i);
      } else {
        OccursRight(left, b, sub, i);
      }
    }
    if Contains(a, sub) {
      var i :| 0 <= i <= |a| && OccursAt(a, sub, i);
      assert all == a + ([c] + b);
      OccursLeft(a, [c] + b, sub, i);
    }
    if Contains(b, sub) {
      var i :| 0 <= i <= |b| && OccursAt(b, sub, i);
      OccursRight(left, b, sub, i + |left|);
    }
  }

  lemma NotAcross(a: string, c: char, b: string, sub: string, i: nat)
    requires sub != "" && (forall k | 0 <= k < |sub| :: sub[k] != c) && OccursAt(a + [c] + b, sub, i)
    ensures i + |sub| <= |a| || |a| < i
  {
    var all := a + [c] + b;
    forall m | i <= m < i + |sub|
      ensures all[m] != c
    {
      assert all[m] == all[i..i + |sub|][m - i] == sub[m - i];
    }
    assert all[|a|] == c;
  }

  const GET_MESSAGE := "failed to get message "

  /** No phrase begins inside the words before the id. */
  lemma NoPhraseInWords(rest: string, k: nat, i: nat)
    requires k < |RATE_LIMIT_PHRASES| && i < |GET_MESSAGE|
    ensures !OccursAt(GET_MESSAGE + rest, RATE_LIMIT_PHRASES[k], i)
  {
    var all := GET_MESSAGE + rest;
    OccursStarts(all, RATE_LIMIT_PHRASES[k], i);
    assert all[i] == GET_MESSAGE[i];
    assert i + 1 < |GET_MESSAGE| ==> all[i + 1] == GET_MESSAGE[i + 1];
    assert i + 2 < |GET_MESSAGE| ==> all[i + 2] == GET_MESSAGE[i + 2];
  }

  lemma OccursStarts(s: string, sub: string, i: nat)
    requires |sub| >= 3
    ensures OccursAt(s, sub, i) ==> i + 3 <= |s| && s[i] == sub[0] && s[i + 1] == sub[1] && s[i + 2] == sub[2]
  {
    if OccursAt(s, sub, i) {
      var part := s[i..i + |sub|];
      assert part[0] == s[i] && part[1] == s[i + 1] && part[2] == s[i + 2];
    }
  }

  lemma PhraseOfFailedGet(id: MsgId, text: string, k: nat)
    requires k < |RATE_LIMIT_PHRASES|
    ensures
      var phrase := RATE_LIMIT_PHRASES[k];
      Contains(GET_MESSAGE + id + ": " + text, phrase) <==> Contains(id, phrase) || Contains(text, phrase)
  {
    var phrase := RATE_LIMIT_PHRASES[k];
    assert GET_MESSAGE + id + ": " + text == (GET_MESSAGE + id) + [':'] + (" " + text);
    ContainsApart(GET_MESSAGE + id, ':', " " + text, phrase);
    forall i | 0 <= i < |GET_MESSAGE|
      ensures !OccursAt(GET_MESSAGE + id, phrase, i)
    {
      NoPhraseInWords(id, k, i);
    }
    ContainsBehind(GET_MESSAGE, id, phrase);
    assert !OccursAt(" " + text, phrase, 0) by {
      assert |phrase| <= |" " + text| ==> (" " + text)[0..|phrase|][0] == ' ';
    }
    ContainsBehind(" ", text, phrase);
  }

  /**
   * A GetMessage that fails counts as a rate limit exactly if its error does by itself, or the id of the
   * message has one of the phrases in it, such as 429.
   */
  lemma FailedGetExactly(id: MsgId, e: Err)
    requires id != ""
    ensures GetMessageErr(id, Some(e)).Some?
    ensures IsRateLimitError(GetMessageErr(id, Some(e)).value) <==> ReadsAsRateLimit(Lower(id)) || IsRateLimitError(e)
  {
    var whole := Lower(Text(GetMessageErr(id, Some(e)).value));
    LowerJoins("failed to get message ", id);
    LowerJoins("failed to get message " + id, ": ");
    LowerJoins("failed to get message " + id + ": ", Text(e));
    assert Lower("failed to get message ") == GET_MESSAGE && Lower(": ") == ": ";
    assert whole == GET_MESSAGE + Lower(id) + ": " + Lower(Text(e));
    forall k: nat | k < |RATE_LIMIT_PHRASES|
      ensures Contains(whole, RATE_LIMIT_PHRASES[k])
         <==> Contains(Lower(id), RATE_LIMIT_PHRASES[k]) || Contains(Lower(Text(e)), RATE_LIMIT_PHRASES[k])
    {
      PhraseOfFailedGet(Lower(id), Lower(Text(e)), k);
    }
    hide Contains, Lower;
  }

  /**
   * Such a message gets the pause and the second attempt of a rate limit when its first fetch fails:
   * it counts exactly if the second attempt succeeds.
   */
  lemma FailedFetchIsTriedAgain(cfg: Config, s: AccountState, w: Work)
    requires w.id != "" && ReadsAsRateLimit(Lower(w.id)) && w.id !in s.rows
    requires w.turn.first.existsErr.None? && w.turn.first.firstGetErr.Some?
    requires !w.turn.cancelled && !w.turn.pauseCancelled
    ensures
      var again := ProcessMessage(cfg, s, w.id, w.turn.second);
      TakeTurn(cfg, s, w).processed == if again.err.None? then 1 else 0
  {
    FailedGetExactly(w.id, w.turn.first.firstGetErr.value);
    hide IsRateLimitError, ReadsAsRateLimit, LabelAndRecord;
    assert ProcessMessage(cfg, s, w.id, w.turn.first)
        == MessageResult(s, GetMessageErr(w.id, w.turn.first.firstGetErr));
  }

  /** An id as Gmail gives them makes every failed fetch a rate limit. */
  lemma SomeIdReadsAsRateLimit(e: Err)
    ensures IsRateLimitError(GetMessageErr("18f4290000000000", Some(e)).value)
  {
    var id := "18f4290000000000";
    assert Lower(id) == id && id[3..6] == "429";
    assert OccursAt(Lower(id), "429", 3) && Contains(Lower(id), RATE_LIMIT_PHRASES[0]);
    FailedGetExactly(id, e);
  }
}
