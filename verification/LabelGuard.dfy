/** What the check for an AI label is for: with it, failed records and deleted rows cost no second label. */
module LabelGuard {
  import opened Errors
  import opened RetryEngine
  import opened HistorySync
  import opened Labels
  import opened AccountModel
  import opened LabelOnce
  import opened Labelling

  /** Gmail has a label for every configured name, and its id is one of the known ids. */
  ghost predicate Guarded(s: AccountState, names: set<string>, known: set<LabelId>) {
    Sound(s) && forall name | name in names && name != "" :: name in s.server && s.server[name] in known
  }

  /** The configuration uses no other names, and looks for all of the known ids. */
  predicate Guards(cfg: Config, names: set<string>, known: set<LabelId>) {
    NamesOf(cfg) <= names && known <= cfg.aiLabels
  }

  predicate Tagged(s: AccountState, id: MsgId, known: set<LabelId>) {
    LabelsOn(s, id) * known != {}
  }

  /** What is left of the one label a message may get: no step takes from it. */
  function Allowance(s: AccountState, id: MsgId, known: set<LabelId>): int {
    (if Tagged(s, id, known) then 1 else 0) - Applications(s.log, id)
  }

  lemma GuardStays(s: AccountState, t: AccountState, some: set<string>, names: set<string>, known: set<LabelId>)
    requires Guarded(s, names, known) && OnlyAdds(s, t, some)
    ensures Guarded(t, names, known)
  {
    hide LabelProperties.CacheSound, LabelsOn;
  }

  lemma TagStays(s: AccountState, t: AccountState, id: MsgId, known: set<LabelId>)
    requires LabelsOn(s, id) <= LabelsOn(t, id) && Applications(t.log, id) == Applications(s.log, id)
    ensures Allowance(t, id, known) >= Allowance(s, id, known)
  {
    hide LabelsOn;
    if Tagged(s, id, known) {
      var l :| l in LabelsOn(s, id) * known;
      assert l in LabelsOn(t, id) * known;
    }
  }

  lemma NoteKeepsAllowance(s: AccountState, e: Event, id: MsgId, known: set<LabelId>)
    requires e != LabelApplied(id)
    ensures Allowance(Note(s, e), id, known) == Allowance(s, id, known)
  {
    NoteCounts(s, e, id);
  }

  lemma {:induction false} FatesKeepAllowance(s: AccountState, ids: seq<MsgId>, fate: Fate, id: MsgId, known: set<LabelId>)
    ensures Allowance(NoteAll(s, Fates(ids, fate)), id, known) == Allowance(s, id, known)
  {
    hide Allowance;
    if ids == [] {
      assert NoteAll(s, Fates(ids, fate)) == s;
    } else {
      var init, e := ids[..|ids| - 1], Fated(ids[|ids| - 1], fate);
      FatesKeepAllowance(s, init, fate, id, known);
      NoteKeepsAllowance(NoteAll(s, Fates(init, fate)), e, id, known);
      assert Fates(ids, fate) == Fates(init, fate) + [e];
      assert NoteAll(s, Fates(ids, fate)) == Note(NoteAll(s, Fates(init, fate)), e);
    }
  }

  /** The one label a message gets, where it had none, is one that will be found again. */
  lemma ApplyKeepsAllowance(s: AccountState, m: MsgId, labelId: LabelId, id: MsgId, known: set<LabelId>)
    requires labelId in known && !Tagged(s, m, known)
    ensures Allowance(Note(AddLabel(s, m, labelId), LabelApplied(m)), id, known) >= Allowance(s, id, known)
  {
    var labelled := AddLabel(s, m, labelId);
    NoteCounts(labelled, LabelApplied(m), id);
    assert labelId in LabelsOn(labelled, m) * known;
  }

  /** The label for a configured name is a known one, and getting it changes no message. */
  lemma UseFindsKnown(cfg: Config, s: AccountState, m: MsgId, name: string, io: LabelIO,
                      id: MsgId, names: set<string>, known: set<LabelId>)
    requires Guarded(s, names, known) && name in names && name != ""
    ensures
      var got := GetOrCreateLabel(cfg.policy, LabelTables(s), name, io);
      var t := WithLabelTables(s, got.state);
      && (got.reply.Ok? ==> got.reply.value in known)
      && (Tagged(t, m, known) <==> Tagged(s, m, known)) && Allowance(t, id, known) == Allowance(s, id, known)
  {
    hide GetOrCreateLabel, LabelProperties.CacheSound, Applications;
    var t := WithLabelTables(s, GetOrCreateLabel(cfg.policy, LabelTables(s), name, io).state);
    UseOnlyAdds(cfg, s, name, io, names);
    GuardStays(s, t, names, names, known);
    assert forall k :: LabelsOn(t, k) == LabelsOn(s, k);
  }

  lemma LabelAndRecordKeepsAllowance(cfg: Config, s: AccountState, m: MsgId, name: string, io: MessageInput,
                                     id: MsgId, names: set<string>, known: set<LabelId>)
    requires Guarded(s, names, known) && name in names && name != "" && !Tagged(s, m, known)
    ensures Allowance(LabelAndRecord(cfg, s, m, name, io).state, id, known) >= Allowance(s, id, known)
  {
    hide GetOrCreateLabel, AddLabelsErr, Guarded, Allowance, Tagged, WithLabelTables, LabelTables;
    var got := GetOrCreateLabel(cfg.policy, LabelTables(s), name, io.labelIO);
    var tables := WithLabelTables(s, got.state);
    UseFindsKnown(cfg, s, m, name, io.labelIO, id, names, known);
    if got.reply.Ok? {
      var labelled := AddLabel(tables, m, got.reply.value);
      var applied := Note(labelled, LabelApplied(m));
      ApplyKeepsAllowance(tables, m, got.reply.value, id, known);
      TagStays(tables, labelled, id, known);
      TagStays(applied, InsertRow(applied, m, io.now), id, known);
      hide AddLabel, InsertRow;
      NoteKeepsAllowance(applied, RecordFailed(m), id, known);
      NoteKeepsAllowance(InsertRow(applied, m, io.now), Fated(m, Recorded), id, known);
    }
  }

  lemma MessageGuarded(cfg: Config, s: AccountState, m: MsgId, io: MessageInput, names: set<string>, known: set<LabelId>)
    requires Guarded(s, names, known) && Guards(cfg, names, known)
    ensures Guarded(ProcessMessage(cfg, s, m, io).state, names, known)
  {
    hide ProcessMessage, LabelProperties.CacheSound, LabelsOn;
    MessageLabels(cfg, s, m, io);
    GuardStays(s, ProcessMessage(cfg, s, m, io).state, NamesOf(cfg), names, known);
  }

  lemma MessageKeepsAllowance(cfg: Config, s: AccountState, m: MsgId, io: MessageInput,
                              id: MsgId, names: set<string>, known: set<LabelId>)
    requires Guarded(s, names, known) && Guards(cfg, names, known)
    ensures
      var t := ProcessMessage(cfg, s, m, io).state;
      Guarded(t, names, known) && Allowance(t, id, known) >= Allowance(s, id, known)
  {
    hide LabelAndRecord, GetMessageErr, HasAILabel, LabelFor, Guarded, Allowance, Tagged, NamesOf;
    MessageGuarded(cfg, s, m, io, names, known);
    TagStays(s, InsertRow(s, m, io.now), id, known);
    hide InsertRow;
    NoteKeepsAllowance(s, Fated(m, HadRow), id, known);
    NoteKeepsAllowance(s, Fated(m, HadAILabel), id, known);
    NoteKeepsAllowance(s, Fated(m, Previewed), id, known);
    NoteKeepsAllowance(InsertRow(s, m, io.now), Fated(m, Recorded), id, known);
    if SkipReason(cfg, s, m, io) == Ok(None) && io.decision.Ok? && LabelFor(cfg, io.decision.value) != "" {
      NoKnownLabel(cfg, s, m, names, known);
      NameIsConfigured(cfg, io.decision.value);
      LabelAndRecordKeepsAllowance(cfg, s, m, LabelFor(cfg, io.decision.value), io, id, names, known);
    }
  }

  lemma NoKnownLabel(cfg: Config, s: AccountState, m: MsgId, names: set<string>, known: set<LabelId>)
    requires Guards(cfg, names, known) && !HasAILabel(cfg, s, m)
    ensures !Tagged(s, m, known)
  {
    assert LabelsOn(s, m) * known <= LabelsOn(s, m) * cfg.aiLabels;
  }

  lemma TurnKeepsAllowance(cfg: Config, s: AccountState, w: Work, id: MsgId, names: set<string>, known: set<LabelId>)
    requires Guarded(s, names, known) && Guards(cfg, names, known)
    ensures
      var t := TakeTurn(cfg, s, w).state;
      Guarded(t, names, known) && Allowance(t, id, known) >= Allowance(s, id, known)
  {
    hide ProcessMessage, IsRateLimitError, Guarded, Allowance, Guards;
    var r := ProcessMessage(cfg, s, w.id, w.turn.first).state;
    MessageKeepsAllowance(cfg, s, w.id, w.turn.first, id, names, known);
    MessageKeepsAllowance(cfg, r, w.id, w.turn.second, id, names, known);
    NoteKeepsAllowance(s, Fated(w.id, Unreached), id, known);
    NoteKeepsAllowance(r, Fated(w.id, Failed), id, known);
    var again := ProcessMessage(cfg, r, w.id, w.turn.second).state;
    NoteKeepsAllowance(again, Fated(w.id, Failed), id, known);
    SameLabelsGuarded(s, Note(s, Fated(w.id, Unreached)), names, known);
    SameLabelsGuarded(r, Note(r, Fated(w.id, Failed)), names, known);
    SameLabelsGuarded(again, Note(again, Fated(w.id, Failed)), names, known);
  }

  lemma {:induction false} BatchKeepsAllowance(cfg: Config, s: AccountState, work: seq<Work>,
                                               id: MsgId, names: set<string>, known: set<LabelId>)
    requires Guarded(s, names, known) && Guards(cfg, names, known)
    ensures
      var t := Batch(cfg, s, work).state;
      Guarded(t, names, known) && Allowance(t, id, known) >= Allowance(s, id, known)
    decreases |work|
  {
    hide TakeTurn, Guarded, Allowance, Guards;
    if work != [] {
      var turn := TakeTurn(cfg, s, work[0]);
      TurnKeepsAllowance(cfg, s, work[0], id, names, known);
      if turn.cancelled {
        FatesKeepAllowance(turn.state, Ids(work[1..]), Unreached, id, known);
        SameLabelsGuarded(turn.state, Batch(cfg, s, work).state, names, known);
      } else {
        BatchKeepsAllowance(cfg, turn.state, work[1..], id, names, known);
      }
    }
  }

  lemma SameLabelsGuarded(s: AccountState, t: AccountState, names: set<string>, known: set<LabelId>)
    requires Guarded(s, names, known) && t.cache == s.cache && t.server == s.server
    ensures Guarded(t, names, known)
  {
    assert LabelTables(t) == LabelTables(s);
  }

  lemma TickKeepsAllowance(cfg: Config, s: AccountState, io: AccountInput, id: MsgId, names: set<string>, known: set<LabelId>)
    requires Guarded(s, names, known) && Guards(cfg, names, known)
    ensures
      var t := ProcessAccount(cfg, s, s.cursor, io).state;
      Guarded(t, names, known) && Allowance(t, id, known) >= Allowance(s, id, known)
  {
    var t := ProcessAccount(cfg, s, s.cursor, io).state;
    var fetched := FetchNewMessageIds(cfg.policy, s.cursor, io.sync);
    hide FetchNewMessageIds, Batch, Guarded, Guards, Tagged, Applications;
    if !io.cancelled && io.clientErr.None? && fetched.Ok? {
      var todo := Throttle(cfg, fetched.value.ids);
      var b := Batch(cfg, s, WorkOf(todo, io.turns)).state;
      BatchKeepsAllowance(cfg, s, WorkOf(todo, io.turns), id, names, known);
      FatesKeepAllowance(b, fetched.value.ids[|todo|..], Throttled, id, known);
      var noted := NoteAll(b, Fates(fetched.value.ids[|todo|..], Throttled));
      SameLabelsGuarded(b, t, names, known);
      CursorKeepsAllowance(noted, t, id, known);
    }
  }

  lemma CursorKeepsAllowance(s: AccountState, t: AccountState, id: MsgId, known: set<LabelId>)
    requires t.onMessage == s.onMessage && t.log == s.log
    ensures Allowance(t, id, known) == Allowance(s, id, known)
  {
  }

  lemma CrashKeepsAllowance(cfg: Config, s: AccountState, io: AccountInput, at: nat, retried: bool,
                            id: MsgId, names: set<string>, known: set<LabelId>)
    requires Guarded(s, names, known) && Guards(cfg, names, known)
    ensures
      var t := CrashDuring(cfg, s, io, at, retried);
      Guarded(t, names, known) && Allowance(t, id, known) >= Allowance(s, id, known)
  {
    hide FetchNewMessageIds, Batch, ProcessMessage, Guarded, Guards, Allowance;
    var fetched := FetchNewMessageIds(cfg.policy, s.cursor, io.sync);
    if fetched.Ok? {
      var work := WorkOf(Throttle(cfg, fetched.value.ids), io.turns);
      var done := if at < |work| then work[..at] else work;
      BatchKeepsAllowance(cfg, s, done, id, names, known);
      if at < |work| {
        var s' := Batch(cfg, s, done).state;
        var first := ProcessMessage(cfg, s', work[at].id, work[at].turn.first).state;
        MessageKeepsAllowance(cfg, s', work[at].id, work[at].turn.first, id, names, known);
        MessageKeepsAllowance(cfg, first, work[at].id, work[at].turn.second, id, names, known);
      }
    }
  }

  // ---------------------------------------------------------------- every run

  /** The pipeline runs with the guard on, and nobody takes a label off a message. */
  predicate KeepsLabels(s: AccountState, step: Step, names: set<string>, known: set<LabelId>) {
    match step
    case Tick(cfg, _) => Guards(cfg, names, known)
    case Crash(cfg, _, _, _) => Guards(cfg, names, known)
    case Admin(_) => true
    case Relabel(id, labels) => LabelsOn(s, id) <= labels
  }

  ghost predicate GuardedRun(s: AccountState, steps: seq<Step>, names: set<string>, known: set<LabelId>) {
    steps != [] ==>
      && GuardedRun(s, steps[..|steps| - 1], names, known)
      && KeepsLabels(RunSteps(s, steps[..|steps| - 1]), steps[|steps| - 1], names, known)
  }

  lemma StepKeepsAllowance(s: AccountState, step: Step, id: MsgId, names: set<string>, known: set<LabelId>)
    requires Guarded(s, names, known) && KeepsLabels(s, step, names, known)
    ensures Guarded(Next(s, step), names, known) && Allowance(Next(s, step), id, known) >= Allowance(s, id, known)
  {
    hide ProcessAccount, CrashDuring, Guarded, Guards, Tagged, Applications;
    match step
    case Tick(cfg, io) => TickKeepsAllowance(cfg, s, io, id, names, known);
    case Crash(cfg, io, at, retried) => CrashKeepsAllowance(cfg, s, io, at, retried, id, names, known);
    case Admin(op) =>
      SameLabelsGuarded(s, Next(s, step), names, known);
      AdminKeepsAllowance(s, op, id, known);
    case Relabel(_, _) =>
      SameLabelsGuarded(s, Next(s, step), names, known);
      TagStays(s, Next(s, step), id, known);
  }

  lemma AdminKeepsAllowance(s: AccountState, op: AdminOp, id: MsgId, known: set<LabelId>)
    ensures Allowance(ApplyAdmin(s, op), id, known) == Allowance(s, id, known)
  {
    hide Tagged, Applications;
    match op
    case ResetCursor => CursorKeepsAllowance(s, ApplyAdmin(s, op), id, known);
    case ClearRows =>
      var cleared := s.(rows := s.rows - s.rows.Keys);
      CursorKeepsAllowance(s, cleared, id, known);
      NoteKeepsAllowance(cleared, RowsDeleted(s.rows.Keys), id, known);
    case Collect(cutoff) =>
      var collected := s.(rows := s.rows - RowsBefore(s.rows, cutoff));
      CursorKeepsAllowance(s, collected, id, known);
      NoteKeepsAllowance(collected, RowsDeleted(RowsBefore(s.rows, cutoff)), id, known);
  }

  lemma {:induction false} RunKeepsAllowance(s: AccountState, steps: seq<Step>, id: MsgId, names: set<string>, known: set<LabelId>)
    requires Guarded(s, names, known) && GuardedRun(s, steps, names, known)
    ensures Guarded(RunSteps(s, steps), names, known)
    ensures Allowance(RunSteps(s, steps), id, known) >= Allowance(s, id, known)
  {
    hide Next, Guarded, KeepsLabels, Allowance;
    if steps != [] {
      RunKeepsAllowance(s, steps[..|steps| - 1], id, names, known);
      StepKeepsAllowance(RunSteps(s, steps[..|steps| - 1]), steps[|steps| - 1], id, names, known);
    }
  }

  /**
   * If the ids of all configured labels are among the account's AI labels and nobody takes a label off a
   * message, then in every run a message is labelled at most once, whatever record writes fail and whatever
   * rows are deleted; and not at all if it carried such a label when the run began.
   */
  lemma GuardedLabelledAtMostOnce(s: AccountState, steps: seq<Step>, id: MsgId, names: set<string>, known: set<LabelId>)
    requires s.log == [] && Guarded(s, names, known) && GuardedRun(s, steps, names, known)
    ensures Applications(RunSteps(s, steps).log, id) <= if Tagged(s, id, known) then 0 else 1
  {
    hide RunSteps, Guarded, GuardedRun;
    RunKeepsAllowance(s, steps, id, names, known);
  }
}
