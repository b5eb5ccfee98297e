/** What the log of a run says about the tables: when a message has its row, and when it carried an AI label. */
module TableHistory {
  import opened Errors
  import opened HistorySync
  import opened Labels
  import opened AccountModel
  import opened Growth

  // ---------------------------------------------------------------- rows

  /** Whether an id has its row after some events, given whether it had one before them. */
  function RowAfter(had: bool, log: seq<Event>, id: MsgId): bool {
    if log == [] then had
    else
      var last := log[|log| - 1];
      if last == Fated(id, Recorded) then true
      else if last.RowsDeleted? && id in last.ids then false
      else RowAfter(had, log[..|log| - 1], id)
  }

  /** Whenever the id was skipped as recorded, it had its row. */
  predicate SkipsAreRight(had: bool, log: seq<Event>, id: MsgId) {
    log == [] ||
    var init, last := log[..|log| - 1], log[|log| - 1];
    SkipsAreRight(had, init, id) && (last == Fated(id, HadRow) ==> RowAfter(had, init, id))
  }

  /** The log accounts for the row of an id. */
  predicate Explained(had: bool, s: AccountState, id: MsgId) {
    (id in s.rows <==> RowAfter(had, s.log, id)) && SkipsAreRight(had, s.log, id)
  }

  lemma NoteExplained(had: bool, s: AccountState, e: Event, id: MsgId)
    requires Explained(had, s, id)
    requires e == Fated(id, HadRow) ==> id in s.rows
    requires e != Fated(id, Recorded) && (e.RowsDeleted? ==> id !in e.ids)
    ensures Explained(had, Note(s, e), id)
  {
    assert Note(s, e).log[..|s.log|] == s.log;
  }

  lemma RecordExplained(had: bool, s: AccountState, m: MsgId, now: Time, id: MsgId)
    requires Explained(had, s, id)
    ensures Explained(had, Note(InsertRow(s, m, now), Fated(m, Recorded)), id)
  {
    var after := Note(InsertRow(s, m, now), Fated(m, Recorded));
    assert after.log[..|s.log|] == s.log;
  }

  lemma DeleteExplained(had: bool, s: AccountState, ids: set<MsgId>, id: MsgId)
    requires Explained(had, s, id)
    ensures Explained(had, DeleteRows(s, ids), id)
  {
    assert DeleteRows(s, ids).log[..|s.log|] == s.log;
  }

  lemma {:induction false} FatesExplained(had: bool, s: AccountState, ids: seq<MsgId>, fate: Fate, id: MsgId)
    requires Explained(had, s, id) && !fate.Recorded? && !fate.HadRow?
    ensures Explained(had, NoteAll(s, Fates(ids, fate)), id)
  {
    hide Explained;
    if ids == [] {
      assert NoteAll(s, Fates(ids, fate)) == s;
    } else {
      var init, m := ids[..|ids| - 1], ids[|ids| - 1];
      FatesExplained(had, s, init, fate, id);
      var before := NoteAll(s, Fates(init, fate));
      NoteExplained(had, before, Fated(m, fate), id);
      assert Fates(ids, fate) == Fates(init, fate) + [Fated(m, fate)];
      assert NoteAll(s, Fates(ids, fate)) == Note(before, Fated(m, fate));
    }
  }

  lemma SameExplained(had: bool, s: AccountState, t: AccountState, id: MsgId)
    requires Explained(had, s, id) && t.rows == s.rows && t.log == s.log
    ensures Explained(had, t, id)
  {
  }

  lemma LabelAndRecordExplained(had: bool, cfg: Config, s: AccountState, m: MsgId, name: string, io: MessageInput, id: MsgId)
    requires Explained(had, s, id)
    ensures Explained(had, LabelAndRecord(cfg, s, m, name, io).state, id)
  {
    hide GetOrCreateLabel, AddLabelsErr, Explained, InsertRow, Note;
    var got := GetOrCreateLabel(cfg.policy, LabelTables(s), name, io.labelIO);
    var tables := WithLabelTables(s, got.state);
    SameExplained(had, s, tables, id);
    if got.reply.Ok? {
      var labelled := AddLabel(tables, m, got.reply.value);
      SameExplained(had, tables, labelled, id);
      hide AddLabel, WithLabelTables, LabelTables;
      NoteExplained(had, labelled, LabelApplied(m), id);
      NoteExplained(had, Note(labelled, LabelApplied(m)), RecordFailed(m), id);
      RecordExplained(had, Note(labelled, LabelApplied(m)), m, io.now, id);
    }
  }

  lemma MessageExplained(had: bool, cfg: Config, s: AccountState, m: MsgId, io: MessageInput, id: MsgId)
    requires Explained(had, s, id)
    ensures Explained(had, ProcessMessage(cfg, s, m, io).state, id)
  {
    hide LabelAndRecord, GetMessageErr, HasAILabel, LabelFor, Explained, InsertRow, Note;
    match SkipReason(cfg, s, m, io)
    case Fail(_) =>
    case Ok(Some(fate)) => NoteExplained(had, s, Fated(m, fate), id);
    case Ok(None) =>
      NoteExplained(had, s, Fated(m, Previewed), id);
      RecordExplained(had, s, m, io.now, id);
      if io.decision.Ok? {
        LabelAndRecordExplained(had, cfg, s, m, LabelFor(cfg, io.decision.value), io, id);
      }
  }

  lemma TurnExplained(had: bool, cfg: Config, s: AccountState, w: Work, id: MsgId)
    requires Explained(had, s, id)
    ensures Explained(had, TakeTurn(cfg, s, w).state, id)
  {
    hide ProcessMessage, IsRateLimitError, Explained, Note;
    NoteExplained(had, s, Fated(w.id, Unreached), id);
    var r := ProcessMessage(cfg, s, w.id, w.turn.first).state;
    MessageExplained(had, cfg, s, w.id, w.turn.first, id);
    NoteExplained(had, r, Fated(w.id, Failed), id);
    MessageExplained(had, cfg, r, w.id, w.turn.second, id);
    NoteExplained(had, ProcessMessage(cfg, r, w.id, w.turn.second).state, Fated(w.id, Failed), id);
  }

  lemma {:induction false} BatchExplained(had: bool, cfg: Config, s: AccountState, work: seq<Work>, id: MsgId)
    requires Explained(had, s, id)
    ensures Explained(had, Batch(cfg, s, work).state, id)
    decreases |work|
  {
    hide TakeTurn, Explained;
    if work != [] {
      var turn := TakeTurn(cfg, s, work[0]);
      TurnExplained(had, cfg, s, work[0], id);
      if turn.cancelled {
        FatesExplained(had, turn.state, Ids(work[1..]), Unreached, id);
      } else {
        BatchExplained(had, cfg, turn.state, work[1..], id);
      }
    }
  }

  lemma TickExplained(had: bool, cfg: Config, s: AccountState, known: string, io: AccountInput, id: MsgId)
    requires Explained(had, s, id)
    ensures Explained(had, ProcessAccount(cfg, s, known, io).state, id)
  {
    hide FetchNewMessageIds, Batch, RowAfter, SkipsAreRight;
    var fetched := FetchNewMessageIds(cfg.policy, known, io.sync);
    if fetched.Ok? {
      var todo := Throttle(cfg, fetched.value.ids);
      BatchExplained(had, cfg, s, WorkOf(todo, io.turns), id);
      FatesExplained(had, Batch(cfg, s, WorkOf(todo, io.turns)).state, fetched.value.ids[|todo|..], Throttled, id);
    }
  }

  lemma CrashExplained(had: bool, cfg: Config, s: AccountState, io: AccountInput, at: nat, retried: bool, id: MsgId)
    requires Explained(had, s, id)
    ensures Explained(had, CrashDuring(cfg, s, io, at, retried), id)
  {
    hide FetchNewMessageIds, Batch, ProcessMessage, Explained;
    var fetched := FetchNewMessageIds(cfg.policy, s.cursor, io.sync);
    if fetched.Ok? {
      var work := WorkOf(Throttle(cfg, fetched.value.ids), io.turns);
      var done := if at < |work| then work[..at] else work;
      BatchExplained(had, cfg, s, done, id);
      if at < |work| {
        var s' := Batch(cfg, s, done).state;
        var first := ProcessMessage(cfg, s', work[at].id, work[at].turn.first).state;
        MessageExplained(had, cfg, s', work[at].id, work[at].turn.first, id);
        MessageExplained(had, cfg, first, work[at].id, work[at].turn.second, id);
      }
    }
  }

  lemma StepExplained(had: bool, s: AccountState, step: Step, id: MsgId)
    requires Explained(had, s, id)
    ensures Explained(had, Next(s, step), id)
  {
    hide ProcessAccount, CrashDuring, RowAfter, SkipsAreRight;
    match step
    case Tick(cfg, io) => TickExplained(had, cfg, s, s.cursor, io, id);
    case Crash(cfg, io, at, retried) => CrashExplained(had, cfg, s, io, at, retried, id);
    case Admin(op) =>
      DeleteExplained(had, s, s.rows.Keys, id);
      if op.Collect? {
        DeleteExplained(had, s, RowsBefore(s.rows, op.cutoff), id);
      }
    case Relabel(_, _) =>
  }

  // ---------------------------------------------------------------- rows in every run

  predicate DeletedAfter(log: seq<Event>, i: nat, id: MsgId) {
    exists j | i < j < |log| :: log[j].RowsDeleted? && id in log[j].ids
  }

  /** Without a deletion after it, a record or a skip for a row means that the row is there. */
  lemma {:induction false} EntryExplained(had: bool, log: seq<Event>, id: MsgId, i: nat)
    requires SkipsAreRight(had, log, id)
    requires i < |log| && (log[i] == Fated(id, Recorded) || log[i] == Fated(id, HadRow))
    ensures RowAfter(had, log, id) || DeletedAfter(log, i, id)
  {
    var n := |log| - 1;
    if i < n {
      EntryExplained(had, log[..n], id, i);
      if DeletedAfter(log[..n], i, id) {
        var j :| i < j < n && log[..n][j].RowsDeleted? && id in log[..n][j].ids;
        assert log[j].RowsDeleted? && id in log[j].ids;
      } else if log[n].RowsDeleted? && id in log[n].ids {
        assert DeletedAfter(log, i, id);
      }
    }
  }

  /** A row is there because it was before, or because of a record, and no deletion came since. */
  lemma {:induction false} RowExplained(had: bool, log: seq<Event>, id: MsgId)
    requires RowAfter(had, log, id)
    ensures || (had && forall j | 0 <= j < |log| :: !(log[j].RowsDeleted? && id in log[j].ids))
            || exists i: nat | i < |log| :: log[i] == Fated(id, Recorded) && !DeletedAfter(log, i, id)
  {
    if log != [] {
      var n := |log| - 1;
      if log[n] == Fated(id, Recorded) {
        assert !DeletedAfter(log, n, id);
      } else {
        RowExplained(had, log[..n], id);
        if i: nat :| i < n && log[..n][i] == Fated(id, Recorded) && !DeletedAfter(log[..n], i, id) {
          assert log[i] == Fated(id, Recorded);
          assert forall j | i < j < n :: log[..n][j] == log[j];
          assert !DeletedAfter(log, i, id);
        } else {
          assert forall j | 0 <= j < n :: log[..n][j] == log[j];
        }
      }
    }
  }

  lemma {:induction false} RunExplained(s: AccountState, steps: seq<Step>, id: MsgId)
    requires s.log == []
    ensures Explained(id in s.rows, RunSteps(s, steps), id)
  {
    hide Next;
    if steps != [] {
      RunExplained(s, steps[..|steps| - 1], id);
      StepExplained(id in s.rows, RunSteps(s, steps[..|steps| - 1]), steps[|steps| - 1], id);
    }
  }

  /**
   * In every reachable state, crashes included: a message that was recorded, or skipped because it was,
   * has its row unless a later collection or clear deleted it; and a message has a row only if it was
   * recorded, or had one when the run began, and no deletion came since.
   */
  lemma RowsMatchLog(s: AccountState, steps: seq<Step>, id: MsgId)
    requires s.log == []
    ensures
      var t := RunSteps(s, steps);
      && (forall i: nat | i < |t.log| && (t.log[i] == Fated(id, Recorded) || t.log[i] == Fated(id, HadRow)) ::
            id in t.rows || DeletedAfter(t.log, i, id))
      && (id in t.rows ==>
            || (id in s.rows && forall j | 0 <= j < |t.log| :: !(t.log[j].RowsDeleted? && id in t.log[j].ids))
            || exists i: nat | i < |t.log| :: t.log[i] == Fated(id, Recorded) && !DeletedAfter(t.log, i, id))
  {
    hide RunSteps;
    var t := RunSteps(s, steps);
    RunExplained(s, steps, id);
    forall i: nat | i < |t.log| && (t.log[i] == Fated(id, Recorded) || t.log[i] == Fated(id, HadRow))
      ensures id in t.rows || DeletedAfter(t.log, i, id)
    {
      EntryExplained(id in s.rows, t.log, id, i);
    }
    if id in t.rows {
      RowExplained(id in s.rows, t.log, id);
    }
  }

  // ---------------------------------------------------------------- AI labels

  /** From s to t things only grew, and every message skipped for an AI label on the way carries one at t. */
  ghost predicate SeesLabels(cfg: Config, s: AccountState, t: AccountState) {
    && Grows(s, t)
    && forall i, id | |s.log| <= i < |t.log| && t.log[i] == Fated(id, HadAILabel) :: HasAILabel(cfg, t, id)
  }

  lemma LabelStays(cfg: Config, s: AccountState, t: AccountState, id: MsgId)
    requires Grows(s, t) && HasAILabel(cfg, s, id)
    ensures HasAILabel(cfg, t, id)
  {
    var l :| l in LabelsOn(s, id) * cfg.aiLabels;
    assert l in LabelsOn(t, id) * cfg.aiLabels;
  }

  lemma SeesTransitive(cfg: Config, s: AccountState, t: AccountState, u: AccountState)
    requires SeesLabels(cfg, s, t) && SeesLabels(cfg, t, u)
    ensures SeesLabels(cfg, s, u)
  {
    GrowsTransitive(s, t, u);
    hide HasAILabel;
    forall i, id | |s.log| <= i < |u.log| && u.log[i] == Fated(id, HadAILabel)
      ensures HasAILabel(cfg, u, id)
    {
      if i < |t.log| {
        assert t.log[i] == u.log[i];
        LabelStays(cfg, t, u, id);
      }
    }
  }

  /** The new entries of the log hold no skip for an AI label. */
  lemma NoSkipSees(cfg: Config, s: AccountState, t: AccountState)
    requires Grows(s, t) && forall i | |s.log| <= i < |t.log| :: t.log[i].Fated? ==> !t.log[i].fate.HadAILabel?
    ensures SeesLabels(cfg, s, t)
  {
  }

  lemma LabelAndRecordSkipsNothing(cfg: Config, s: AccountState, m: MsgId, name: string, io: MessageInput)
    ensures
      var t := LabelAndRecord(cfg, s, m, name, io).state;
      forall i | |s.log| <= i < |t.log| :: t.log[i].Fated? ==> !t.log[i].fate.HadAILabel?
  {
    hide GetOrCreateLabel, AddLabelsErr;
  }

  lemma MessageSees(cfg: Config, s: AccountState, m: MsgId, io: MessageInput)
    ensures SeesLabels(cfg, s, ProcessMessage(cfg, s, m, io).state)
  {
    var r := ProcessMessage(cfg, s, m, io).state;
    MessageGrows(cfg, s, m, io);
    hide Grows, LabelAndRecord, GetMessageErr, LabelFor;
    if SkipReason(cfg, s, m, io) == Ok(Some(HadAILabel)) {
      assert LabelsOn(r, m) == LabelsOn(s, m);
    } else {
      hide HasAILabel;
      if io.decision.Ok? {
        LabelAndRecordSkipsNothing(cfg, s, m, LabelFor(cfg, io.decision.value), io);
      }
      NoSkipSees(cfg, s, r);
    }
  }

  lemma TurnSees(cfg: Config, s: AccountState, w: Work)
    ensures SeesLabels(cfg, s, TakeTurn(cfg, s, w).state)
  {
    hide ProcessMessage, IsRateLimitError, Grows, HasAILabel;
    var r := ProcessMessage(cfg, s, w.id, w.turn.first).state;
    var again := ProcessMessage(cfg, r, w.id, w.turn.second).state;
    MessageSees(cfg, s, w.id, w.turn.first);
    MessageSees(cfg, r, w.id, w.turn.second);
    SeesTransitive(cfg, s, r, again);
    NoteSees(cfg, s, w.id, Unreached);
    NoteSees(cfg, r, w.id, Failed);
    NoteSees(cfg, again, w.id, Failed);
    hide SeesLabels, Note;
    SeesTransitive(cfg, s, r, Note(r, Fated(w.id, Failed)));
    SeesTransitive(cfg, s, again, Note(again, Fated(w.id, Failed)));
  }

  lemma NoteSees(cfg: Config, s: AccountState, m: MsgId, fate: Fate)
    requires !fate.HadAILabel?
    ensures SeesLabels(cfg, s, Note(s, Fated(m, fate)))
  {
    NoteGrows(s, Fated(m, fate));
    NoSkipSees(cfg, s, Note(s, Fated(m, fate)));
  }

  lemma FatesSee(cfg: Config, s: AccountState, ids: seq<MsgId>, fate: Fate)
    requires !fate.HadAILabel?
    ensures SeesLabels(cfg, s, NoteAll(s, Fates(ids, fate)))
  {
  }

  lemma {:induction false} BatchSees(cfg: Config, s: AccountState, work: seq<Work>)
    ensures SeesLabels(cfg, s, Batch(cfg, s, work).state)
    decreases |work|
  {
    hide TakeTurn, HasAILabel;
    if work != [] {
      var turn := TakeTurn(cfg, s, work[0]);
      TurnSees(cfg, s, work[0]);
      if turn.cancelled {
        FatesSee(cfg, turn.state, Ids(work[1..]), Unreached);
      } else {
        BatchSees(cfg, turn.state, work[1..]);
      }
      hide SeesLabels;
      SeesTransitive(cfg, s, turn.state, Batch(cfg, s, work).state);
    }
  }

  lemma FetchedSees(cfg: Config, s: AccountState, ids: seq<MsgId>, turns: nat -> Turn)
    ensures SeesLabels(cfg, s, RunFetched(cfg, s, ids, turns).state)
  {
    hide Batch, SeesLabels;
    var todo := Throttle(cfg, ids);
    var b := Batch(cfg, s, WorkOf(todo, turns)).state;
    BatchSees(cfg, s, WorkOf(todo, turns));
    FatesSee(cfg, b, ids[|todo|..], Throttled);
    SeesTransitive(cfg, s, b, RunFetched(cfg, s, ids, turns).state);
  }

  lemma CrashSees(cfg: Config, s: AccountState, io: AccountInput, at: nat, retried: bool)
    ensures SeesLabels(cfg, s, CrashDuring(cfg, s, io, at, retried))
  {
    NothingSees(cfg, s);
    hide Batch, FetchNewMessageIds, ProcessMessage, SeesLabels;
    var fetched := FetchNewMessageIds(cfg.policy, s.cursor, io.sync);
    if !io.cancelled && io.clientErr.None? && fetched.Ok? {
      var work := WorkOf(Throttle(cfg, fetched.value.ids), io.turns);
      var done := if at < |work| then work[..at] else work;
      var s' := Batch(cfg, s, done).state;
      BatchSees(cfg, s, done);
      if at < |work| {
        var first := ProcessMessage(cfg, s', work[at].id, work[at].turn.first).state;
        var second := ProcessMessage(cfg, first, work[at].id, work[at].turn.second).state;
        MessageSees(cfg, s', work[at].id, work[at].turn.first);
        MessageSees(cfg, first, work[at].id, work[at].turn.second);
        SeesTransitive(cfg, s, s', first);
        SeesTransitive(cfg, s, first, second);
      }
    }
  }

  lemma NothingSees(cfg: Config, s: AccountState)
    ensures SeesLabels(cfg, s, s)
  {
  }

  /** The step runs the pipeline, and when it ends the message carries one of its AI labels. */
  predicate EndsWithAILabel(step: Step, after: AccountState, id: MsgId) {
    match step
    case Tick(cfg, _) => HasAILabel(cfg, after, id)
    case Crash(cfg, _, _, _) => HasAILabel(cfg, after, id)
    case _ => false
  }

  lemma StepSees(s: AccountState, step: Step, i: nat, id: MsgId)
    requires |s.log| <= i < |Next(s, step).log| && Next(s, step).log[i] == Fated(id, HadAILabel)
    ensures EndsWithAILabel(step, Next(s, step), id)
  {
    hide RunFetched, FetchNewMessageIds, CrashDuring, Grows;
    match step
    case Tick(cfg, io) =>
      var fetched := FetchNewMessageIds(cfg.policy, s.cursor, io.sync);
      if fetched.Ok? {
        FetchedSees(cfg, s, fetched.value.ids, io.turns);
        assert LabelsOn(Next(s, step), id) == LabelsOn(RunFetched(cfg, s, fetched.value.ids, io.turns).state, id);
      }
    case Crash(cfg, io, at, retried) => CrashSees(cfg, s, io, at, retried);
    case Admin(_) =>
    case Relabel(_, _) =>
  }

  /** Step k of a run wrote entry i of the log, and the message carries an AI label when the step ends. */
  predicate WrittenWithLabel(s: AccountState, steps: seq<Step>, k: nat, i: nat, id: MsgId) {
    && k < |steps|
    && |RunSteps(s, steps[..k]).log| <= i < |RunSteps(s, steps[..k + 1]).log|
    && EndsWithAILabel(steps[k], RunSteps(s, steps[..k + 1]), id)
  }

  lemma WrittenInLonger(s: AccountState, steps: seq<Step>, n: nat, k: nat, i: nat, id: MsgId)
    requires n <= |steps| && WrittenWithLabel(s, steps[..n], k, i, id)
    ensures WrittenWithLabel(s, steps, k, i, id)
  {
    hide RunSteps, EndsWithAILabel;
    assert steps[..n][..k] == steps[..k] && steps[..n][..k + 1] == steps[..k + 1];
  }

  /**
   * In every run: a message skipped for an AI label carried one when the tick, or the crash, in which
   * it was skipped ended. The step is the one that wrote the entry.
   */
  lemma {:induction false} SkippedForLabel(s: AccountState, steps: seq<Step>, i: nat, id: MsgId)
    requires |s.log| <= i < |RunSteps(s, steps).log| && RunSteps(s, steps).log[i] == Fated(id, HadAILabel)
    ensures exists k: nat :: WrittenWithLabel(s, steps, k, i, id)
  {
    hide Next, EndsWithAILabel;
    var n := |steps| - 1;
    if steps != [] {
      var init := steps[..n];
      var before := RunSteps(s, init);
      LogGrows(before, steps[n]);
      if i < |before.log| {
        SkippedForLabel(s, init, i, id);
        hide WrittenWithLabel;
        var k: nat :| WrittenWithLabel(s, init, k, i, id);
        WrittenInLonger(s, steps, n, k, i, id);
      } else {
        StepSees(before, steps[n], i, id);
        assert steps[..n + 1] == steps;
        assert WrittenWithLabel(s, steps, n, i, id);
      }
    }
  }
}
