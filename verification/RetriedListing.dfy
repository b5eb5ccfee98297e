/** A tick whose listing had to be retried ends as one whose listing succeeded at once. */
module RetriedListing {
  import opened Errors
  import opened Decimal
  import opened RetryEngine
  import opened HistorySync
  import opened HistoryProperties
  import opened AccountModel
  import opened Growth
  import opened Accounting
  import opened DuplicateBatch

  // ---------------------------------------------------------------- a message that counted counts again

  lemma SettledErr(cfg: Config, s: AccountState, id: MsgId, io: MessageInput)
    requires Settled(cfg, s, id)
    ensures ProcessMessage(cfg, s, id, io).err
         == if io.existsErr.Some? then Some(Wrapped("failed to check processed message", io.existsErr.value))
            else if id in s.rows then None
            else GetMessageErr(id, io.firstGetErr)
  {
    hide LabelAndRecord, GetMessageErr, LabelFor;
  }

  /** What processing says of its input when it does not fail, and when it fails before the row is found. */
  lemma ErrOfUnsettled(cfg: Config, s: AccountState, id: MsgId, io: MessageInput)
    ensures
      var err := ProcessMessage(cfg, s, id, io).err;
      && (io.existsErr.Some? ==> err == Some(Wrapped("failed to check processed message", io.existsErr.value)))
      && (io.existsErr.None? && id !in s.rows && GetMessageErr(id, io.firstGetErr).Some? ==> err == GetMessageErr(id, io.firstGetErr))
  {
    hide LabelAndRecord, GetMessageErr, LabelFor, HasAILabel;
  }

  /** The same work, once it counted, counts whenever it comes back: the message is settled then. */
  lemma CountsAgain(cfg: Config, s: AccountState, t: AccountState, w: Work)
    requires !cfg.dryRun && TakeTurn(cfg, s, w).processed == 1 && Grows(TakeTurn(cfg, s, w).state, t)
    ensures Settled(cfg, t, w.id)
    ensures TakeTurn(cfg, t, w).processed == 1 && !TakeTurn(cfg, t, w).cancelled
  {
    CountedIsSettled(cfg, s, w);
    TurnGrows(cfg, s, w);
    StaysSettled(cfg, TakeTurn(cfg, s, w).state, t, w.id);
    RowsOnlyGrow(s, TakeTurn(cfg, s, w).state, t, w.id);
    var r := ProcessMessage(cfg, s, w.id, w.turn.first).state;
    var u := ProcessMessage(cfg, t, w.id, w.turn.first).state;
    MessageGrows(cfg, s, w.id, w.turn.first);
    MessageGrows(cfg, t, w.id, w.turn.first);
    MessageGrows(cfg, r, w.id, w.turn.second);
    RowsOnlyGrow(r, ProcessMessage(cfg, r, w.id, w.turn.second).state, ProcessMessage(cfg, r, w.id, w.turn.second).state, w.id);
    RowsOnlyGrow(t, u, u, w.id);
    StaysSettled(cfg, t, u, w.id);
    SettledErr(cfg, t, w.id, w.turn.first);
    SettledErr(cfg, u, w.id, w.turn.second);
    ErrOfUnsettled(cfg, s, w.id, w.turn.first);
    ErrOfUnsettled(cfg, r, w.id, w.turn.second);
    hide ProcessMessage, IsRateLimitError, Grows, Settled, GetMessageErr;
  }

  lemma RowsOnlyGrow(s: AccountState, t: AccountState, u: AccountState, id: MsgId)
    requires Grows(s, t) && Grows(t, u)
    ensures id in s.rows ==> id in u.rows
  {
    hide LabelsOn;
  }

  // ---------------------------------------------------------------- putting duplicates back

  /** Work for the same message is the same work. */
  ghost predicate Uniform(work: seq<Work>) {
    forall v, w | v in work && w in work && v.id == w.id :: v == w
  }

  /** Work that counted once may be put back anywhere after it. */
  lemma {:induction false} PutBack(cfg: Config, s: AccountState, t: AccountState, w: Work, rest: seq<Work>)
    requires !cfg.dryRun && TakeTurn(cfg, s, w).processed == 1 && Grows(TakeTurn(cfg, s, w).state, t)
    requires (forall v | v in rest && v.id == w.id :: v == w) && AllCounted(cfg, t, Without(rest, w.id))
    ensures AllCounted(cfg, t, rest)
    decreases |rest|
  {
    hide TakeTurn, Settled, Grows;
    if rest != [] {
      var turn, fewer := TakeTurn(cfg, t, rest[0]), Without(rest[1..], w.id);
      TurnGrows(cfg, t, rest[0]);
      GrowsTransitive(TakeTurn(cfg, s, w).state, t, turn.state);
      if rest[0].id == w.id {
        CountsAgain(cfg, s, t, w);
        SettledTurnUntouched(cfg, t, rest[0]);
        assert Without(rest, w.id) == fewer;
        AllCountedIgnoresLog(cfg, t, turn.state, fewer);
      } else {
        assert Without(rest, w.id) == [rest[0]] + fewer;
        assert ([rest[0]] + fewer)[1..] == fewer;
      }
      PutBack(cfg, s, turn.state, w, rest[1..]);
    }
  }

  /** If every first occurrence counts, so does every repetition of the same work. */
  lemma {:induction false} RepetitionsCount(cfg: Config, s: AccountState, work: seq<Work>)
    requires !cfg.dryRun && Uniform(work) && AllCounted(cfg, s, FirstOccurrences(work))
    ensures AllCounted(cfg, s, work)
    decreases |work|
  {
    hide TakeTurn, Grows;
    if work != [] {
      var turn, rest := TakeTurn(cfg, s, work[0]), work[1..];
      var fewer := Without(rest, work[0].id);
      assert FirstOccurrences(work)[1..] == FirstOccurrences(fewer);
      WithoutContents(rest, work[0].id);
      RepetitionsCount(cfg, turn.state, fewer);
      GrowsItself(turn.state);
      PutBack(cfg, s, turn.state, work[0], rest);
    }
  }

  lemma GrowsItself(s: AccountState)
    ensures Grows(s, s)
  {
  }

  // ---------------------------------------------------------------- first occurrences behind a prefix

  function WithoutAll(work: seq<Work>, gone: seq<Work>): seq<Work>
    decreases |gone|
  {
    if gone == [] then work else WithoutAll(Without(work, gone[0].id), gone[1..])
  }

  lemma {:induction false} WithoutTwice(work: seq<Work>, a: MsgId, b: MsgId)
    ensures Without(Without(work, a), b) == Without(Without(work, b), a)
    ensures a == b ==> Without(Without(work, a), b) == Without(work, a)
  {
    if work != [] {
      var w, rest := work[0], work[1..];
      WithoutTwice(rest, a, b);
      WithoutOneMore(w, rest, a);
      WithoutOneMore(w, rest, b);
      WithoutOneMore(w, Without(rest, a), b);
      WithoutOneMore(w, Without(rest, b), a);
      assert work == [w] + rest;
    }
  }

  lemma WithoutOneMore(w: Work, rest: seq<Work>, id: MsgId)
    ensures Without([w] + rest, id) == if w.id == id then Without(rest, id) else [w] + Without(rest, id)
  {
    assert ([w] + rest)[1..] == rest;
  }

  lemma {:induction false} WithoutJoins(a: seq<Work>, b: seq<Work>, id: MsgId)
    ensures Without(a + b, id) == Without(a, id) + Without(b, id)
  {
    if a == [] {
      assert a + b == b;
    } else {
      assert (a + b)[1..] == a[1..] + b && (a + b)[0] == a[0];
      WithoutJoins(a[1..], b, id);
    }
  }

  /** Taking an id out and keeping first occurrences can be done in either order. */
  lemma {:induction false} FirstWithout(work: seq<Work>, id: MsgId)
    ensures FirstOccurrences(Without(work, id)) == Without(FirstOccurrences(work), id)
    decreases |work|
  {
    if work != [] {
      var rest := work[1..];
      var fewer := Without(rest, work[0].id);
      FirstWithout(fewer, id);
      WithoutTwice(rest, work[0].id, id);
      WithoutOneMore(work[0], FirstOccurrences(fewer), id);
      if work[0].id != id {
        var kept := Without(rest, id);
        assert Without(work, id) == [work[0]] + kept && ([work[0]] + kept)[1..] == kept;
      } else {
        FirstWithout(rest, id);
        assert Without(work, id) == Without(rest, id);
      }
    }
  }

  lemma {:induction false} FirstJoins(a: seq<Work>, b: seq<Work>)
    ensures FirstOccurrences(a + b) == FirstOccurrences(a) + WithoutAll(FirstOccurrences(b), FirstOccurrences(a))
    decreases |a| + |b|
  {
    if a == [] {
      assert a + b == b;
    } else {
      var id, rest := a[0].id, a[1..];
      assert (a + b)[1..] == rest + b && (a + b)[0] == a[0];
      WithoutJoins(rest, b, id);
      FirstJoins(Without(rest, id), Without(b, id));
      FirstWithout(b, id);
      var once := FirstOccurrences(a);
      assert once[1..] == FirstOccurrences(Without(rest, id));
    }
  }

  lemma NoneIsNone(work: seq<Work>)
    requires work != []
    ensures exists w :: w in work
  {
    assert work[0] in work;
  }

  lemma {:induction false} NothingLeft(work: seq<Work>, gone: seq<Work>)
    requires forall w | w in work :: w in gone
    ensures WithoutAll(work, gone) == []
    decreases |gone|
  {
    if gone != [] {
      WithoutContents(work, gone[0].id);
      NothingLeft(Without(work, gone[0].id), gone[1..]);
    } else if work != [] {
      NoneIsNone(work);
    }
  }

  lemma {:induction false} WithoutAllJoins(a: seq<Work>, b: seq<Work>, gone: seq<Work>)
    ensures WithoutAll(a + b, gone) == WithoutAll(a, gone) + WithoutAll(b, gone)
    decreases |gone|
  {
    if gone != [] {
      WithoutJoins(a, b, gone[0].id);
      WithoutAllJoins(Without(a, gone[0].id), Without(b, gone[0].id), gone[1..]);
    }
  }

  lemma {:induction false} WithoutAllTwice(work: seq<Work>, gone: seq<Work>)
    ensures WithoutAll(WithoutAll(work, gone), gone) == WithoutAll(work, gone)
    decreases |gone|
  {
    if gone != [] {
      var once := Without(work, gone[0].id);
      WithoutAllSwap(once, gone[1..], gone[0].id);
      WithoutTwice(work, gone[0].id, gone[0].id);
      WithoutAllTwice(once, gone[1..]);
    }
  }

  lemma {:induction false} WithoutAllSwap(work: seq<Work>, gone: seq<Work>, id: MsgId)
    ensures Without(WithoutAll(work, gone), id) == WithoutAll(Without(work, id), gone)
    decreases |gone|
  {
    if gone != [] {
      WithoutTwice(work, gone[0].id, id);
      WithoutAllSwap(Without(work, gone[0].id), gone[1..], id);
    }
  }

  /** A prefix of a list put before anything with the list's first occurrences changes none of them. */
  lemma PrefixAddsNothing(prefix: seq<Work>, rest: seq<Work>, full: seq<Work>)
    requires prefix <= full && FirstOccurrences(rest) == FirstOccurrences(full)
    ensures FirstOccurrences(prefix + rest) == FirstOccurrences(full)
  {
    var once, tail := FirstOccurrences(prefix), full[|prefix|..];
    assert full == prefix + tail;
    FirstJoins(prefix, rest);
    FirstJoins(prefix, tail);
    WithoutAllJoins(once, WithoutAll(FirstOccurrences(tail), once), once);
    NothingLeft(once, once);
    WithoutAllTwice(FirstOccurrences(tail), once);
    hide FirstOccurrences, WithoutAll;
    assert [] + WithoutAll(FirstOccurrences(tail), once) == WithoutAll(FirstOccurrences(tail), once);
  }

  // ---------------------------------------------------------------- the listing

  /** The work for some ids, when the world's part in a turn depends on the message alone. */
  function WorkFor(ids: seq<MsgId>, answer: MsgId -> Turn): seq<Work> {
    seq(|ids|, i requires 0 <= i < |ids| => Work(ids[i], answer(ids[i])))
  }

  /** The ids of some first pages, put before anything with the listing's first occurrences. */
  lemma OnePrefix(full: seq<HistoryPage>, c: nat, rest: seq<MsgId>, answer: MsgId -> Turn)
    requires c <= |full|
    requires FirstOccurrences(WorkFor(rest, answer)) == FirstOccurrences(WorkFor(HistoryIds(full), answer))
    ensures FirstOccurrences(WorkFor(HistoryIds(full[..c]) + rest, answer))
         == FirstOccurrences(WorkFor(HistoryIds(full), answer))
  {
    hide FirstOccurrences, HistoryIds;
    var prefix := HistoryIds(full[..c]);
    HistoryIdsConcat(full[..c], full[c..]);
    assert full[..c] + full[c..] == full;
    assert WorkFor(prefix, answer) <= WorkFor(HistoryIds(full), answer);
    assert WorkFor(prefix + rest, answer) == WorkFor(prefix, answer) + WorkFor(rest, answer);
    PrefixAddsNothing(WorkFor(prefix, answer), WorkFor(rest, answer), WorkFor(HistoryIds(full), answer));
  }

  lemma {:induction false} RetriesAddNothing(full: seq<HistoryPage>, cut: nat -> nat, n: nat, rest: seq<MsgId>, answer: MsgId -> Turn)
    requires FirstOccurrences(WorkFor(rest, answer)) == FirstOccurrences(WorkFor(HistoryIds(full), answer))
    ensures FirstOccurrences(WorkFor(PrefixIds(full, cut, n) + rest, answer))
         == FirstOccurrences(WorkFor(HistoryIds(full), answer))
    decreases n
  {
    hide FirstOccurrences, HistoryIds, WorkFor;
    if n == 0 {
      assert PrefixIds(full, cut, 0) + rest == rest;
    } else {
      var c := if cut(n - 1) <= |full| then cut(n - 1) else |full|;
      var prefix := HistoryIds(full[..c]);
      OnePrefix(full, c, rest, answer);
      RetriesAddNothing(full, cut, n - 1, prefix + rest, answer);
      assert PrefixIds(full, cut, n) + rest == PrefixIds(full, cut, n - 1) + (prefix + rest);
    }
  }

  lemma {:induction false} NextIdJoins(a: seq<HistoryPage>, b: seq<HistoryPage>)
    ensures NextHistoryId(a + b) == if NextHistoryId(b) != "" then NextHistoryId(b) else NextHistoryId(a)
  {
    if b == [] {
      assert a + b == a;
    } else {
      var init, last := b[..|b| - 1], b[|b| - 1];
      assert (a + b)[..|a + b| - 1] == a + init;
      NextIdJoins(a, init);
      PrintReadsBack(last.historyId);
    }
  }

  lemma {:induction false} NextIdOfDelivered(listing: Listing<HistoryPage>, full: seq<HistoryPage>, n: nat)
    requires StableListing(listing, full, n) && NextHistoryId(full) == ""
    ensures NextHistoryId(Delivered(listing.pages, n)) == ""
  {
    if n > 0 {
      NextIdOfDelivered(listing, full, n - 1);
      NextIdJoins(Delivered(listing.pages, n - 1), listing.pages(n - 1));
      var c := |listing.pages(n - 1)|;
      assert full == full[..c] + full[c..] && listing.pages(n - 1) == full[..c];
      NextIdJoins(full[..c], full[c..]);
    }
  }

  /** A sync that succeeds brings the next id of the listing, however often it was retried. */
  lemma NextIdIsListed(p: Policy, start: string, io: SyncInput, full: seq<HistoryPage>)
    requires SyncHistory(p, start, io).Ok? && !SyncHistory(p, start, io).value.bootstrapped
    requires StableListing(io.history, full, RunFrom(p, io.history.script, 0).calls)
    ensures SyncHistory(p, start, io).value.nextHistoryId == if NextHistoryId(full) == "" then start else NextHistoryId(full)
  {
    hide RunFrom, Bootstrap, NextHistoryId;
    BootstrapSaysSo(p, io);
    var o := RunFrom(p, io.history.script, 0);
    RunFromContract(p, io.history.script, 0);
    NextIdJoins(Delivered(io.history.pages, o.calls - 1), io.history.pages(o.calls - 1));
    if NextHistoryId(full) == "" {
      NextIdOfDelivered(io.history, full, o.calls);
    }
  }

  // ---------------------------------------------------------------- the tick

  /** The world's part in the turn of a message is the same wherever in the batch it stands. */
  ghost predicate AnswersById(ids: seq<MsgId>, turns: nat -> Turn, answer: MsgId -> Turn) {
    forall i | 0 <= i < |ids| :: turns(i) == answer(ids[i])
  }

  lemma SameOnce(cfg: Config, s: AccountState, a: seq<Work>, b: seq<Work>)
    requires !cfg.dryRun && Uniform(b) && FirstOccurrences(a) == FirstOccurrences(b)
    requires Batch(cfg, s, a).processed == |a|
    ensures SameTables(Batch(cfg, s, a).state, Batch(cfg, s, b).state) && Batch(cfg, s, b).processed == |b|
  {
    hide Batch, FirstOccurrences, AllCounted;
    DuplicatesAreHarmless(cfg, s, a);
    AllCountedIffFullCount(cfg, s, FirstOccurrences(a));
    RepetitionsCount(cfg, s, b);
    AllCountedIffFullCount(cfg, s, b);
    DuplicatesAreHarmless(cfg, s, b);
  }

  /** Everything goes well up to the messages, and none is cut off. */
  predicate FetchesAll(cfg: Config, known: string, io: AccountInput) {
    && known != "" && !io.cancelled && io.clientErr.None? && SyncHistory(cfg.policy, known, io.sync).Ok?
    && !SyncHistory(cfg.policy, known, io.sync).value.bootstrapped
    && Throttle(cfg, SyncHistory(cfg.policy, known, io.sync).value.ids) == SyncHistory(cfg.policy, known, io.sync).value.ids
  }

  lemma TickOfListing(cfg: Config, s: AccountState, known: string, io: AccountInput, answer: MsgId -> Turn)
    requires FetchesAll(cfg, known, io)
    requires AnswersById(SyncHistory(cfg.policy, known, io.sync).value.ids, io.turns, answer)
    ensures
      var data := SyncHistory(cfg.policy, known, io.sync).value;
      var r, b := ProcessAccount(cfg, s, known, io), Batch(cfg, s, WorkFor(data.ids, answer));
      && SameTables(r.state, b.state) && r.processed == b.processed
      && r.state.cursor == if CursorMoves(known, data.nextHistoryId) && io.cursorErr.None? then data.nextHistoryId else b.state.cursor
  {
    hide SyncHistory, Batch;
    var ids := SyncHistory(cfg.policy, known, io.sync).value.ids;
    assert WorkOf(ids, io.turns) == WorkFor(ids, answer);
  }

  /**
   * One tick's listing was retried, another's succeeded at once; the listing is the same and stable, and
   * so is what happens to each message. If every message of the first counts, both end with the same rows,
   * caches, labels and cursor, and every message of the second counts.
   */
  lemma RetriedListingIsHarmless(cfg: Config, s: AccountState, known: string, retried: AccountInput, once: AccountInput,
                                 full: seq<HistoryPage>, answer: MsgId -> Turn)
    requires !cfg.dryRun && FetchesAll(cfg, known, retried) && FetchesAll(cfg, known, once)
    requires StableListing(retried.sync.history, full, RunFrom(cfg.policy, retried.sync.history.script, 0).calls)
    requires StableListing(once.sync.history, full, RunFrom(cfg.policy, once.sync.history.script, 0).calls)
    requires RunFrom(cfg.policy, once.sync.history.script, 0).calls == 1
    requires AnswersById(SyncHistory(cfg.policy, known, retried.sync).value.ids, retried.turns, answer)
    requires AnswersById(SyncHistory(cfg.policy, known, once.sync).value.ids, once.turns, answer)
    requires retried.cursorErr == once.cursorErr
    requires ProcessAccount(cfg, s, known, retried).processed == |SyncHistory(cfg.policy, known, retried.sync).value.ids|
    ensures
      var a, b := ProcessAccount(cfg, s, known, retried), ProcessAccount(cfg, s, known, once);
      && SameTables(a.state, b.state) && a.state.cursor == b.state.cursor
      && b.processed == |SyncHistory(cfg.policy, known, once.sync).value.ids|
  {
    hide RunFrom, SyncHistory, Batch, FirstOccurrences, ProcessAccount, HistoryIds;
    var ids, listed := SyncHistory(cfg.policy, known, retried.sync).value.ids, HistoryIds(full);
    SyncReturnsListing(cfg.policy, known, retried.sync, full);
    SyncReturnsListing(cfg.policy, known, once.sync, full);
    NextIdIsListed(cfg.policy, known, retried.sync, full);
    NextIdIsListed(cfg.policy, known, once.sync, full);
    var calls := RunFrom(cfg.policy, retried.sync.history.script, 0).calls;
    assert SyncHistory(cfg.policy, known, once.sync).value.ids == listed by {
      assert PrefixIds(full, Cuts(once.sync.history), 0) == [];
    }
    RetriesAddNothing(full, Cuts(retried.sync.history), calls - 1, listed, answer);
    TickOfListing(cfg, s, known, retried, answer);
    TickOfListing(cfg, s, known, once, answer);
    SameOnce(cfg, s, WorkFor(ids, answer), WorkFor(listed, answer));
    BatchGrows(cfg, s, WorkFor(ids, answer));
    BatchGrows(cfg, s, WorkFor(listed, answer));
  }
}
