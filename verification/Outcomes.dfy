/** How the processing of a message ends, told from its inputs: the first call that fails decides. */
module Outcomes {
  import opened Errors
  import opened RetryEngine
  import opened Decimal
  import opened HistorySync
  import opened Labels
  import opened AccountModel
  import opened DuplicateBatch
  import Seqs

  /** The skip check finds no row, and its fetch succeeds. */
  predicate IsFetched(s: AccountState, id: MsgId, io: MessageInput) {
    io.existsErr.None? && id !in s.rows && id != "" && io.firstGetErr.None?
  }

  predicate HasNoAILabel(cfg: Config, s: AccountState, id: MsgId) {
    id in s.onMessage ==> s.onMessage[id] !! cfg.aiLabels
  }

  lemma AILabelCheck(cfg: Config, s: AccountState, id: MsgId)
    ensures HasNoAILabel(cfg, s, id) <==> !HasAILabel(cfg, s, id)
  {
    var labels := LabelsOn(s, id);
    if labels * cfg.aiLabels == {} {
      forall l | l in labels
        ensures l !in cfg.aiLabels
      {
        assert l !in labels * cfg.aiLabels;
      }
    }
  }

  /** Nothing stops the message before it gets to the classifier. */
  predicate IsClassified(cfg: Config, s: AccountState, id: MsgId, io: MessageInput) {
    IsFetched(s, id, io) && HasNoAILabel(cfg, s, id) && io.secondGetErr.None?
  }

  /** The calls before the classifier, and the classifier itself: the first that fails gives the error. */
  lemma EarlyEnd(cfg: Config, s: AccountState, id: MsgId, io: MessageInput)
    ensures
      var r := ProcessMessage(cfg, s, id, io);
      && (io.existsErr.Some? ==> r == MessageResult(s, Some(Wrapped("failed to check processed message", io.existsErr.value))))
      && (io.existsErr.None? && id in s.rows ==> r.err.None? && SameTables(s, r.state))
      && (io.existsErr.None? && id !in s.rows && id == "" ==> r == MessageResult(s, Some(Plain("message ID is required"))))
      && (io.existsErr.None? && id !in s.rows && id != "" && io.firstGetErr.Some? ==>
            r == MessageResult(s, Some(Wrapped("failed to get message " + id, io.firstGetErr.value))))
      && (IsFetched(s, id, io) && !HasNoAILabel(cfg, s, id) ==> r.err.None? && SameTables(s, r.state))
      && (IsFetched(s, id, io) && HasNoAILabel(cfg, s, id) && io.secondGetErr.Some? ==>
            r == MessageResult(s, Some(Wrapped("failed to get message " + id, io.secondGetErr.value))))
      && (IsClassified(cfg, s, id, io) && io.decision.Fail? ==> r == MessageResult(s, Some(io.decision.err)))
      && (IsClassified(cfg, s, id, io) && io.decision.Ok? && cfg.dryRun ==> r.err.None? && SameTables(s, r.state))
  {
    hide LabelAndRecord, LabelFor;
    AILabelCheck(cfg, s, id);
    hide HasAILabel, HasNoAILabel;
  }

  /** The classifier chose a category, and this is not a dry run. */
  predicate IsDecided(cfg: Config, s: AccountState, id: MsgId, io: MessageInput) {
    IsClassified(cfg, s, id, io) && io.decision.Ok? && !cfg.dryRun
  }

  /** The label name that is configured for a category, if one is. */
  function LabelOf(cfg: Config, category: string): Option<string> {
    if category in cfg.categories && cfg.categories[category] != "" then Some(cfg.categories[category]) else None
  }

  /** A category without a label: the message is recorded, or the record's error comes back. */
  lemma EndWithoutLabel(cfg: Config, s: AccountState, id: MsgId, io: MessageInput)
    requires IsDecided(cfg, s, id, io) && LabelOf(cfg, io.decision.value).None?
    ensures
      var r := ProcessMessage(cfg, s, id, io);
      match io.recordErr
      case Some(e) => r == MessageResult(s, Some(Wrapped("failed to insert processed message", e)))
      case None => r.err.None? && SameTables(s.(rows := s.rows[id := io.now]), r.state)
  {
    assert LabelFor(cfg, io.decision.value) == "";
    AILabelCheck(cfg, s, id);
    hide HasAILabel, HasNoAILabel, LabelFor, LabelAndRecord;
  }

  /** What getting the label changes, and the id or error it gives. */
  function Used(cfg: Config, s: AccountState, name: string, io: MessageInput): LabelResult {
    GetOrCreateLabel(cfg.policy, LabelState(s.cache, s.server), name, io.labelIO)
  }

  /** The labels of a message with one more. */
  function WithLabel(s: AccountState, id: MsgId, labelId: LabelId): map<MsgId, set<LabelId>> {
    s.onMessage[id := (if id in s.onMessage then s.onMessage[id] else {}) + {labelId}]
  }

  /**
   * A category with a label: the error of the label, of AddLabels or of the record comes back, whichever call
   * is the first to fail; what the calls before it wrote stays. Without an error the label is on the message and the
   * row is there.
   */
  lemma EndWithLabel(cfg: Config, s: AccountState, id: MsgId, io: MessageInput)
    requires IsDecided(cfg, s, id, io) && LabelOf(cfg, io.decision.value).Some?
    ensures
      var r := ProcessMessage(cfg, s, id, io);
      var used := Used(cfg, s, LabelOf(cfg, io.decision.value).value, io);
      var got := s.(cache := used.state.cache, server := used.state.server);
      match used.reply
      case Fail(e) => r.err == Some(e) && SameTables(got, r.state)
      case Ok(labelId) =>
        var labelled := got.(onMessage := WithLabel(s, id, labelId));
        if io.addErr.Some? then
          && r.err == Some(Wrapped("failed to add labels to message " + id, io.addErr.value))
          && SameTables(if io.addArrived then labelled else got, r.state)
        else if io.recordErr.Some? then
          && r.err == Some(Wrapped("failed to insert processed message", io.recordErr.value))
          && SameTables(labelled, r.state)
        else r.err.None? && SameTables(labelled.(rows := s.rows[id := io.now]), r.state)
  {
    var name := LabelOf(cfg, io.decision.value).value;
    assert LabelFor(cfg, io.decision.value) == name;
    AILabelCheck(cfg, s, id);
    hide HasAILabel, HasNoAILabel, LabelFor, GetOrCreateLabel, IsRateLimitError;
    assert ProcessMessage(cfg, s, id, io) == LabelAndRecord(cfg, s, id, name, io);
  }

  /** The error of a label: that of the retried create, or that of its cache write, behind the manager's message. */
  lemma LabelErrorExactly(p: Policy, st: LabelState, name: string, io: LabelIO)
    ensures
      var r := GetOrCreateLabel(p, st, name, io).reply;
      var created := RunFrom(p, CreateCalls(st.server, name, io.tries), 0);
      && (io.readErr.None? && name in st.cache ==> r == Ok(st.cache[name]))
      && (CallsCreate(st, name, io) && created.err.Some? ==> r == Fail(Wrapped("failed to create label " + name, created.err.value)))
      && (CallsCreate(st, name, io) && created.err.None? && io.writeErr.Some? ==>
            r == Fail(Wrapped("failed to cache created label " + name, Wrapped("failed to upsert label", io.writeErr.value))))
      && (CallsCreate(st, name, io) && created.err.None? && io.writeErr.None? ==> r.Ok?)
  {
    hide RunFrom, CreateCalls, ServerAfter;
  }

  // ---------------------------------------------------------------- one turn

  /**
   * The classifier fails. Unless that reads as a rate limit the message is given up on at once. If it does, the
   * pipeline pauses; a cancellation ends the loop there, and otherwise the second attempt decides: a category without a
   * label and a good record make the message count.
   */
  lemma FailedClassification(cfg: Config, s: AccountState, w: Work)
    requires !w.turn.cancelled && IsClassified(cfg, s, w.id, w.turn.first) && w.turn.first.decision.Fail?
    ensures
      var e, turn := w.turn.first.decision.err, TakeTurn(cfg, s, w);
      && (!IsRateLimitError(e) || w.turn.pauseCancelled ==> turn.processed == 0 && SameTables(s, turn.state))
      && (turn.cancelled <==> IsRateLimitError(e) && w.turn.pauseCancelled)
      && (IsRateLimitError(e) && !w.turn.pauseCancelled && IsDecided(cfg, s, w.id, w.turn.second)
          && LabelOf(cfg, w.turn.second.decision.value).None? && w.turn.second.recordErr.None? ==>
            turn.processed == 1 && SameTables(s.(rows := s.rows[w.id := w.turn.second.now]), turn.state))
      && (IsRateLimitError(e) && !w.turn.pauseCancelled
          && IsClassified(cfg, s, w.id, w.turn.second) && w.turn.second.decision.Fail?
          ==> turn.processed == 0 && SameTables(s, turn.state))
  {
    EarlyEnd(cfg, s, w.id, w.turn.first);
    EarlyEnd(cfg, s, w.id, w.turn.second);
    if IsDecided(cfg, s, w.id, w.turn.second) && LabelOf(cfg, w.turn.second.decision.value).None? {
      EndWithoutLabel(cfg, s, w.id, w.turn.second);
    }
    hide ProcessMessage, IsRateLimitError;
  }

  /** Whichever call gave it, an error that reads as a rate limit, and no other, leads to the second attempt. */
  lemma SecondAttemptExactly(cfg: Config, s: AccountState, w: Work)
    requires !w.turn.cancelled && ProcessMessage(cfg, s, w.id, w.turn.first).err.Some?
    ensures
      var first, turn := ProcessMessage(cfg, s, w.id, w.turn.first), TakeTurn(cfg, s, w);
      var second := ProcessMessage(cfg, first.state, w.id, w.turn.second);
      if IsRateLimitError(first.err.value) && !w.turn.pauseCancelled then
        turn.processed == (if second.err.None? then 1 else 0) && !turn.cancelled && SameTables(second.state, turn.state)
      else turn.processed == 0 && turn.cancelled == IsRateLimitError(first.err.value) && SameTables(first.state, turn.state)
  {
    hide ProcessMessage, IsRateLimitError;
  }

  /** A provider's answer with status 429 is one that leads to it. */
  lemma TooManyRequests()
    ensures IsRateLimitError(Plain("429 Too Many Requests"))
  {
    var text := "429 Too Many Requests";
    assert text[0..3] == "429";
    assert Lower(text)[0..3] == "429";
    assert OccursAt(Lower(text), "429", 0) && Contains(Lower(text), RATE_LIMIT_PHRASES[0]);
  }

  // ---------------------------------------------------------------- one batch

  /** One more id at the end of a batch has its turn after all others, unless the loop was cancelled by then. */
  lemma {:induction false} OneTurnMore(cfg: Config, s: AccountState, work: seq<Work>, w: Work)
    ensures
      var b, more := Batch(cfg, s, work), Batch(cfg, s, work + [w]);
      var turn := TakeTurn(cfg, b.state, w);
      more == if b.cancelled then BatchResult(Note(b.state, Fated(w.id, Unreached)), b.processed, true)
              else BatchResult(turn.state, b.processed + turn.processed, turn.cancelled)
    decreases |work|
  {
    hide TakeTurn;
    if work == [] {
      NothingAfterLast(cfg, s, w);
    } else {
      var first, rest := TakeTurn(cfg, s, work[0]), work[1..];
      Seqs.FirstOfJoin(work, [w]);
      if first.cancelled {
        NoteOneMore(first.state, rest, w);
      } else {
        OneTurnMore(cfg, first.state, rest, w);
      }
    }
  }

  lemma NoteOneMore(s: AccountState, work: seq<Work>, w: Work)
    ensures NoteAll(s, Fates(Ids(work + [w]), Unreached)) == Note(NoteAll(s, Fates(Ids(work), Unreached)), Fated(w.id, Unreached))
  {
    assert Fates(Ids(work + [w]), Unreached) == Fates(Ids(work), Unreached) + [Fated(w.id, Unreached)];
    Seqs.JoinThree(s.log, Fates(Ids(work), Unreached), [Fated(w.id, Unreached)]);
  }

  lemma NothingAfterLast(cfg: Config, s: AccountState, w: Work)
    ensures
      var turn := TakeTurn(cfg, s, w);
      Batch(cfg, s, [] + [w]) == BatchResult(turn.state, turn.processed, turn.cancelled)
  {
    hide TakeTurn;
    var turn := TakeTurn(cfg, s, w);
    assert [] + [w] == [w] && [w][1..] == [];
    assert Batch(cfg, turn.state, []) == BatchResult(turn.state, 0, false);
    if turn.cancelled {
      CancelledDoesNotCount(cfg, s, w);
      assert Fates(Ids([]), Unreached) == [];
      Seqs.JoinNothing(turn.state.log);
    }
  }

  lemma CancelledDoesNotCount(cfg: Config, s: AccountState, w: Work)
    ensures TakeTurn(cfg, s, w).cancelled ==> TakeTurn(cfg, s, w).processed == 0
  {
    hide ProcessMessage, IsRateLimitError;
  }

  // ---------------------------------------------------------------- the fetch

  /** Without a cursor: no ids, and the position of the mailbox, unless the call fails or has none. */
  lemma FirstFetchExactly(p: Policy, sync: SyncInput)
    ensures
      var r, call := FetchNewMessageIds(p, "", sync), RunFrom(p, sync.profile.script, 0);
      && (call.err.Some? ==> r == Fail(Wrapped("failed to get profile", call.err.value)))
      && (call.err.None? && sync.profile.historyId == 0 ==> r == Fail(Plain("no history ID available")))
      && (call.err.None? && sync.profile.historyId > 0 ==> r == Ok(Fetched([], Print(sync.profile.historyId))))
  {
    hide RunFrom, Print;
  }

  /**
   * With a cursor: what the listing delivered, or its error; after a bare 404 what the full listing delivered, with
   * the position of the mailbox, or the error of one of these two calls.
   */
  lemma FetchExactly(p: Policy, cursor: Uint64, sync: SyncInput)
    ensures
      var r, listing := FetchNewMessageIds(p, Print(cursor), sync), RunFrom(p, sync.history.script, 0);
      var full, profile := RunFrom(p, sync.messages.script, 0), RunFrom(p, sync.profile.script, 0);
      var pages := HistorySync.Delivered(sync.history.pages, listing.calls);
      match listing.err
      case None =>
        r == Ok(Fetched(HistoryIds(pages), if NextHistoryId(pages) == "" then Print(cursor) else NextHistoryId(pages)))
      case Some(e) =>
        if !(e.Api? && e.error.code == 404) then r == Fail(Wrapped("failed to list history", e))
        else if full.err.Some? then r == Fail(Wrapped("failed to bootstrap messages", full.err.value))
        else if profile.err.Some? then
          r == Fail(Wrapped("failed to get history ID after bootstrap", Wrapped("failed to get profile", profile.err.value)))
        else if sync.profile.historyId == 0 then
          r == Fail(Wrapped("failed to get history ID after bootstrap", Plain("no history ID available")))
        else r == Ok(Fetched(MessageIds(HistorySync.Delivered(sync.messages.pages, full.calls)), Print(sync.profile.historyId)))
  {
    PrintReadsBack(cursor);
    ParseUintOfPrint(cursor);
    hide RunFrom, Print, ParseUint, HistoryIds, MessageIds, NextHistoryId, HistorySync.Delivered;
  }

  // ---------------------------------------------------------------- one account

  /** The error of a tick for an account: the first call that fails, or the cancellation that ended the loop. */
  lemma TickErrorExactly(cfg: Config, s: AccountState, io: AccountInput)
    ensures
      var r, fetched := ProcessAccount(cfg, s, s.cursor, io), FetchNewMessageIds(cfg.policy, s.cursor, io.sync);
      && (io.cancelled ==> r == AccountResult(s, 0, Some(Plain("context canceled"))))
      && (!io.cancelled && io.clientErr.Some? ==> r == AccountResult(s, 0, io.clientErr))
      && (!io.cancelled && io.clientErr.None? && fetched.Fail? ==> r == AccountResult(s, 0, Some(fetched.err)))
      && (!io.cancelled && io.clientErr.None? && fetched.Ok? ==>
            var loop := RunFetched(cfg, s, fetched.value.ids, io.turns);
            r.err == if loop.cancelled then Some(Plain("context canceled"))
                     else if io.cursorErr.Some? && fetched.value.nextHistoryId !in {"", s.cursor} then
                       Some(Wrapped("failed to update history_id", io.cursorErr.value))
                     else None)
  {
    hide FetchNewMessageIds, RunFetched;
  }
}
