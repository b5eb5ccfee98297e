/** While a batch runs, rows, labels and log entries are only added, and the cursor stays where it is. */
module Growth {
  import opened Errors
  import opened HistorySync
  import opened Labels
  import opened AccountModel

  ghost predicate RowsGrow(before: map<MsgId, Time>, after: map<MsgId, Time>) {
    forall m :: m in before ==> m in after && after[m] == before[m]
  }

  ghost predicate LabelsGrow(s: AccountState, s': AccountState) {
    forall m :: LabelsOn(s, m) <= LabelsOn(s', m)
  }

  ghost predicate Grows(s: AccountState, s': AccountState) {
    RowsGrow(s.rows, s'.rows) && LabelsGrow(s, s') && s.log <= s'.log && s'.cursor == s.cursor
  }

  lemma GrowsTransitive(s: AccountState, s': AccountState, s'': AccountState)
    requires Grows(s, s') && Grows(s', s'')
    ensures Grows(s, s'')
  {
    hide LabelsOn;
    forall m
      ensures LabelsOn(s, m) <= LabelsOn(s'', m)
    {
      assert LabelsOn(s, m) <= LabelsOn(s', m) <= LabelsOn(s'', m);
    }
  }

  lemma WritesGrow(s: AccountState, id: MsgId, labelId: LabelId, now: Time)
    ensures Grows(s, AddLabel(s, id, labelId)) && Grows(s, InsertRow(s, id, now))
  {
  }

  lemma LabelAndRecordGrows(cfg: Config, s: AccountState, id: MsgId, name: string, io: MessageInput)
    ensures Grows(s, LabelAndRecord(cfg, s, id, name, io).state)
  {
    hide GetOrCreateLabel, AddLabelsErr;
    var got := GetOrCreateLabel(cfg.policy, LabelTables(s), name, io.labelIO);
    if got.reply.Ok? {
      var tables := WithLabelTables(s, got.state);
      var labelled := AddLabel(tables, id, got.reply.value);
      var applied := Note(labelled, LabelApplied(id));
      assert Grows(s, tables);
      hide AddLabel, InsertRow;
      WritesGrow(tables, id, got.reply.value, io.now);
      NoteGrows(labelled, LabelApplied(id));
      WritesGrow(applied, id, got.reply.value, io.now);
      NoteGrows(InsertRow(applied, id, io.now), Fated(id, Recorded));
      NoteGrows(applied, RecordFailed(id));
      hide Grows, Note;
      GrowsTransitive(s, tables, labelled);
      GrowsTransitive(s, labelled, applied);
      GrowsTransitive(s, applied, Note(applied, RecordFailed(id)));
      GrowsTransitive(applied, InsertRow(applied, id, io.now), Note(InsertRow(applied, id, io.now), Fated(id, Recorded)));
      GrowsTransitive(s, applied, Note(InsertRow(applied, id, io.now), Fated(id, Recorded)));
    }
  }

  lemma MessageGrows(cfg: Config, s: AccountState, id: MsgId, io: MessageInput)
    ensures Grows(s, ProcessMessage(cfg, s, id, io).state)
  {
    hide LabelAndRecord, GetMessageErr, HasAILabel, LabelFor, InsertRow, LabelsOn;
    NoteGrows(s, Fated(id, HadRow));
    NoteGrows(s, Fated(id, HadAILabel));
    NoteGrows(s, Fated(id, Previewed));
    WritesGrow(s, id, "", io.now);
    NoteGrows(InsertRow(s, id, io.now), Fated(id, Recorded));
    GrowsTransitive(s, InsertRow(s, id, io.now), Note(InsertRow(s, id, io.now), Fated(id, Recorded)));
    if io.decision.Ok? {
      LabelAndRecordGrows(cfg, s, id, LabelFor(cfg, io.decision.value), io);
    }
  }

  lemma TurnGrows(cfg: Config, s: AccountState, w: Work)
    ensures Grows(s, TakeTurn(cfg, s, w).state)
  {
    hide ProcessMessage, IsRateLimitError, LabelsOn;
    var r := ProcessMessage(cfg, s, w.id, w.turn.first).state;
    var again := ProcessMessage(cfg, r, w.id, w.turn.second).state;
    MessageGrows(cfg, s, w.id, w.turn.first);
    MessageGrows(cfg, r, w.id, w.turn.second);
    GrowsTransitive(s, r, again);
    NoteGrows(s, Fated(w.id, Unreached));
    NoteGrows(r, Fated(w.id, Failed));
    NoteGrows(again, Fated(w.id, Failed));
    GrowsTransitive(s, r, Note(r, Fated(w.id, Failed)));
    GrowsTransitive(s, again, Note(again, Fated(w.id, Failed)));
    hide Grows;
  }

  lemma NoteGrows(s: AccountState, e: Event)
    ensures Grows(s, Note(s, e))
  {
  }

  lemma {:induction false} BatchGrows(cfg: Config, s: AccountState, work: seq<Work>)
    ensures Grows(s, Batch(cfg, s, work).state)
    decreases |work|
  {
    hide TakeTurn;
    if work != [] {
      var turn := TakeTurn(cfg, s, work[0]);
      TurnGrows(cfg, s, work[0]);
      if !turn.cancelled {
        BatchGrows(cfg, turn.state, work[1..]);
        GrowsTransitive(s, turn.state, Batch(cfg, turn.state, work[1..]).state);
      }
    }
  }

  // ---------------------------------------------------------------- settled messages

  /** An id the pipeline will not touch again. */
  predicate Settled(cfg: Config, s: AccountState, id: MsgId) {
    id in s.rows || HasAILabel(cfg, s, id)
  }

  lemma StaysSettled(cfg: Config, s: AccountState, s': AccountState, id: MsgId)
    requires Grows(s, s') && Settled(cfg, s, id)
    ensures Settled(cfg, s', id)
  {
    if id !in s.rows {
      var l :| l in LabelsOn(s, id) * cfg.aiLabels;
      assert l in LabelsOn(s', id) * cfg.aiLabels;
    }
  }

  // ---------------------------------------------------------------- the log of a run

  lemma FetchedGrows(cfg: Config, s: AccountState, ids: seq<MsgId>, turns: nat -> Turn)
    ensures Grows(s, RunFetched(cfg, s, ids, turns).state)
  {
    hide Batch;
    BatchGrows(cfg, s, WorkOf(Throttle(cfg, ids), turns));
  }

  lemma CrashGrows(cfg: Config, s: AccountState, io: AccountInput, at: nat, retried: bool)
    ensures Grows(s, CrashDuring(cfg, s, io, at, retried))
  {
    hide Batch, FetchNewMessageIds, ProcessMessage;
    var fetched := FetchNewMessageIds(cfg.policy, s.cursor, io.sync);
    if !io.cancelled && io.clientErr.None? && fetched.Ok? {
      var work := WorkOf(Throttle(cfg, fetched.value.ids), io.turns);
      var done := if at < |work| then work[..at] else work;
      BatchGrows(cfg, s, done);
      var b := Batch(cfg, s, done);
      if at < |work| {
        var first := ProcessMessage(cfg, b.state, work[at].id, work[at].turn.first).state;
        var second := ProcessMessage(cfg, first, work[at].id, work[at].turn.second).state;
        MessageGrows(cfg, b.state, work[at].id, work[at].turn.first);
        MessageGrows(cfg, first, work[at].id, work[at].turn.second);
        GrowsTransitive(s, b.state, first);
        GrowsTransitive(s, first, second);
      }
    }
  }

  /** No step forgets what happened before it. */
  lemma LogGrows(s: AccountState, step: Step)
    ensures s.log <= Next(s, step).log
  {
    hide RunFetched, FetchNewMessageIds, CrashDuring;
    match step
    case Tick(cfg, io) =>
      var fetched := FetchNewMessageIds(cfg.policy, s.cursor, io.sync);
      if fetched.Ok? {
        FetchedGrows(cfg, s, fetched.value.ids, io.turns);
      }
    case Crash(cfg, io, at, retried) => CrashGrows(cfg, s, io, at, retried);
    case Admin(_) =>
    case Relabel(_, _) =>
  }
}
