/** How often a message can be labelled, over whole runs. */
module LabelOnce {
  import opened Errors
  import opened HistorySync
  import opened Labels
  import opened AccountModel

  // ---------------------------------------------------------------- counting

  function Applications(log: seq<Event>, id: MsgId): nat {
    if log == [] then 0
    else Applications(log[..|log| - 1], id) + if log[|log| - 1] == LabelApplied(id) then 1 else 0
  }

  function FailedRecords(log: seq<Event>, id: MsgId): nat {
    if log == [] then 0
    else FailedRecords(log[..|log| - 1], id) + if log[|log| - 1] == RecordFailed(id) then 1 else 0
  }

  function Deletions(log: seq<Event>, id: MsgId): nat {
    if log == [] then 0
    else
      var last := log[|log| - 1];
      Deletions(log[..|log| - 1], id) + if last.RowsDeleted? && id in last.ids then 1 else 0
  }

  /** What the log still allows: failed records and deletions pay for applications. */
  function Balance(log: seq<Event>, id: MsgId): int {
    FailedRecords(log, id) + Deletions(log, id) - Applications(log, id)
  }

  function RowCount(s: AccountState, id: MsgId): nat {
    if id in s.rows then 1 else 0
  }

  /** The potential of a state: no step of any kind lowers it. */
  function Potential(s: AccountState, id: MsgId): int {
    Balance(s.log, id) + RowCount(s, id)
  }

  // ---------------------------------------------------------------- one step

  lemma NoteBalance(s: AccountState, e: Event, id: MsgId)
    ensures Balance(Note(s, e).log, id) == Balance(s.log, id)
      + (if e == RecordFailed(id) || (e.RowsDeleted? && id in e.ids) then 1 else 0)
      - (if e == LabelApplied(id) then 1 else 0)
  {
    assert (s.log + [e])[..|s.log|] == s.log;
  }

  lemma {:induction false} FatesBalance(s: AccountState, ids: seq<MsgId>, fate: Fate, id: MsgId)
    ensures Balance(NoteAll(s, Fates(ids, fate)).log, id) == Balance(s.log, id)
  {
    hide Balance;
    if ids == [] {
      assert s.log + Fates(ids, fate) == s.log;
    } else {
      var init := ids[..|ids| - 1];
      FatesBalance(s, init, fate, id);
      var e := Fated(ids[|ids| - 1], fate);
      NoteBalance(NoteAll(s, Fates(init, fate)), e, id);
      assert s.log + Fates(ids, fate) == s.log + Fates(init, fate) + [e];
    }
  }

  lemma FatedKeepsPotential(s: AccountState, m: MsgId, fate: Fate, id: MsgId)
    ensures Potential(Note(s, Fated(m, fate)), id) == Potential(s, id)
  {
    hide Balance;
    NoteBalance(s, Fated(m, fate), id);
  }

  lemma RecordKeepsPotential(s: AccountState, m: MsgId, now: Time, id: MsgId)
    ensures Potential(Note(InsertRow(s, m, now), Fated(m, Recorded)), id) >= Potential(s, id)
  {
    hide Balance;
    NoteBalance(InsertRow(s, m, now), Fated(m, Recorded), id);
  }

  lemma LabelAndRecordKeepsPotential(cfg: Config, s: AccountState, m: MsgId, name: string, io: MessageInput, id: MsgId)
    requires m !in s.rows
    ensures Potential(LabelAndRecord(cfg, s, m, name, io).state, id) >= Potential(s, id)
  {
    hide GetOrCreateLabel, Balance;
    var got := GetOrCreateLabel(cfg.policy, LabelTables(s), name, io.labelIO);
    if got.reply.Ok? {
      var labelled := AddLabel(WithLabelTables(s, got.state), m, got.reply.value);
      var applied := Note(labelled, LabelApplied(m));
      NoteBalance(labelled, LabelApplied(m), id);
      NoteBalance(applied, RecordFailed(m), id);
      NoteBalance(InsertRow(applied, m, io.now), Fated(m, Recorded), id);
    }
  }

  lemma ProcessMessageKeepsPotential(cfg: Config, s: AccountState, m: MsgId, io: MessageInput, id: MsgId)
    ensures Potential(ProcessMessage(cfg, s, m, io).state, id) >= Potential(s, id)
  {
    hide LabelAndRecord, Potential, GetMessageErr, HasAILabel, LabelFor;
    match SkipReason(cfg, s, m, io)
    case Fail(_) =>
    case Ok(Some(fate)) => FatedKeepsPotential(s, m, fate, id);
    case Ok(None) =>
      FatedKeepsPotential(s, m, Previewed, id);
      RecordKeepsPotential(s, m, io.now, id);
      if io.decision.Ok? {
        LabelAndRecordKeepsPotential(cfg, s, m, LabelFor(cfg, io.decision.value), io, id);
      }
  }

  lemma TurnKeepsPotential(cfg: Config, s: AccountState, w: Work, id: MsgId)
    ensures Potential(TakeTurn(cfg, s, w).state, id) >= Potential(s, id)
  {
    hide ProcessMessage, Potential, IsRateLimitError;
    FatedKeepsPotential(s, w.id, Unreached, id);
    var r := ProcessMessage(cfg, s, w.id, w.turn.first).state;
    ProcessMessageKeepsPotential(cfg, s, w.id, w.turn.first, id);
    FatedKeepsPotential(r, w.id, Failed, id);
    ProcessMessageKeepsPotential(cfg, r, w.id, w.turn.second, id);
    FatedKeepsPotential(ProcessMessage(cfg, r, w.id, w.turn.second).state, w.id, Failed, id);
  }

  lemma {:induction false} BatchKeepsPotential(cfg: Config, s: AccountState, work: seq<Work>, id: MsgId)
    ensures Potential(Batch(cfg, s, work).state, id) >= Potential(s, id)
    decreases |work|
  {
    hide TakeTurn;
    if work != [] {
      var turn := TakeTurn(cfg, s, work[0]);
      TurnKeepsPotential(cfg, s, work[0], id);
      if turn.cancelled {
        FatesBalance(turn.state, Ids(work[1..]), Unreached, id);
      } else {
        BatchKeepsPotential(cfg, turn.state, work[1..], id);
      }
    }
  }

  lemma TickKeepsPotential(cfg: Config, s: AccountState, known: string, io: AccountInput, id: MsgId)
    ensures Potential(ProcessAccount(cfg, s, known, io).state, id) >= Potential(s, id)
  {
    hide Batch, FetchNewMessageIds, Balance;
    var fetched := FetchNewMessageIds(cfg.policy, known, io.sync);
    if fetched.Ok? {
      var todo := Throttle(cfg, fetched.value.ids);
      BatchKeepsPotential(cfg, s, WorkOf(todo, io.turns), id);
      FatesBalance(Batch(cfg, s, WorkOf(todo, io.turns)).state, fetched.value.ids[|todo|..], Throttled, id);
    }
  }

  lemma CrashKeepsPotential(cfg: Config, s: AccountState, io: AccountInput, at: nat, retried: bool, id: MsgId)
    ensures Potential(CrashDuring(cfg, s, io, at, retried), id) >= Potential(s, id)
  {
    hide Batch, FetchNewMessageIds, ProcessMessage;
    var fetched := FetchNewMessageIds(cfg.policy, s.cursor, io.sync);
    if fetched.Ok? {
      var work := WorkOf(Throttle(cfg, fetched.value.ids), io.turns);
      var done := if at < |work| then work[..at] else work;
      BatchKeepsPotential(cfg, s, done, id);
      if at < |work| {
        var s' := Batch(cfg, s, done).state;
        var first := ProcessMessage(cfg, s', work[at].id, work[at].turn.first).state;
        ProcessMessageKeepsPotential(cfg, s', work[at].id, work[at].turn.first, id);
        ProcessMessageKeepsPotential(cfg, first, work[at].id, work[at].turn.second, id);
      }
    }
  }

  lemma StepKeepsPotential(s: AccountState, step: Step, id: MsgId)
    ensures Potential(Next(s, step), id) >= Potential(s, id)
  {
    hide ProcessAccount, CrashDuring, Balance;
    match step
    case Tick(cfg, io) => TickKeepsPotential(cfg, s, s.cursor, io, id);
    case Crash(cfg, io, at, retried) => CrashKeepsPotential(cfg, s, io, at, retried, id);
    case Admin(op) =>
      NoteBalance(s.(rows := s.rows - s.rows.Keys), RowsDeleted(s.rows.Keys), id);
      if op.Collect? {
        var oldIds := RowsBefore(s.rows, op.cutoff);
        NoteBalance(s.(rows := s.rows - oldIds), RowsDeleted(oldIds), id);
      }
    case Relabel(_, _) =>
  }

  // ---------------------------------------------------------------- every run

  lemma {:induction false} RunKeepsPotential(s: AccountState, steps: seq<Step>, id: MsgId)
    ensures Potential(RunSteps(s, steps), id) >= Potential(s, id)
  {
    hide Next;
    if steps != [] {
      RunKeepsPotential(s, steps[..|steps| - 1], id);
      StepKeepsPotential(RunSteps(s, steps[..|steps| - 1]), steps[|steps| - 1], id);
    }
  }

  /**
   * In every run of ticks, crashes, resets, clears, garbage collections and edits in Gmail, a
   * message is labelled at most once, plus once for every failed record write after a label and
   * once for every deletion of its row. A crash between the label and its record is a record write that
   * failed, and counts as one. A message that is recorded when the run begins and when
   * it ends, or at neither time, gets no label beyond those.
   */
  lemma LabelledAtMostOnce(s: AccountState, steps: seq<Step>, id: MsgId)
    requires s.log == []
    ensures
      var after := RunSteps(s, steps);
      && Applications(after.log, id) + RowCount(s, id)
           <= RowCount(after, id) + FailedRecords(after.log, id) + Deletions(after.log, id)
      && Applications(after.log, id) <= 1 + FailedRecords(after.log, id) + Deletions(after.log, id)
  {
    RunKeepsPotential(s, steps, id);
  }

  // ---------------------------------------------------------------- the bound is attained

  lemma NoteCounts(s: AccountState, e: Event, id: MsgId)
    ensures Applications(Note(s, e).log, id) == Applications(s.log, id) + (if e == LabelApplied(id) then 1 else 0)
    ensures FailedRecords(Note(s, e).log, id) == FailedRecords(s.log, id) + (if e == RecordFailed(id) then 1 else 0)
    ensures !e.RowsDeleted? ==> Deletions(Note(s, e).log, id) == Deletions(s.log, id)
  {
    assert (s.log + [e])[..|s.log|] == s.log;
  }

  /** Everything goes well up to the record write, with the label's id in the cache and no AI labels known. */
  predicate ReachesRecord(cfg: Config, s: AccountState, id: MsgId, io: MessageInput) {
    && !cfg.dryRun && cfg.aiLabels == {} && id != "" && id !in s.rows
    && io.existsErr.None? && io.firstGetErr.None? && io.secondGetErr.None? && io.addErr.None?
    && io.decision.Ok? && LabelFor(cfg, io.decision.value) != ""
    && LabelFor(cfg, io.decision.value) in s.cache && io.labelIO.readErr.None?
  }

  lemma OneMoreApplication(cfg: Config, s: AccountState, id: MsgId, io: MessageInput)
    requires ReachesRecord(cfg, s, id, io)
    ensures
      var r := ProcessMessage(cfg, s, id, io);
      && r.err == RecordErr(io) && r.state.cache == s.cache
      && r.state.rows.Keys == (if io.recordErr.None? then s.rows.Keys + {id} else s.rows.Keys)
      && Applications(r.state.log, id) == Applications(s.log, id) + 1
      && FailedRecords(r.state.log, id) == FailedRecords(s.log, id) + (if io.recordErr.Some? then 1 else 0)
      && Deletions(r.state.log, id) == Deletions(s.log, id)
  {
    hide CreateLabel, LabelFor, Applications, FailedRecords, Deletions;
    assert LabelsOn(s, id) * cfg.aiLabels == {};
    var name := LabelFor(cfg, io.decision.value);
    assert GetOrCreateLabel(cfg.policy, LabelTables(s), name, io.labelIO)
      == LabelResult(LabelTables(s), Ok(s.cache[name]));
    var labelled := AddLabel(WithLabelTables(s, LabelTables(s)), id, s.cache[name]);
    var applied := Note(labelled, LabelApplied(id));
    NoteCounts(labelled, LabelApplied(id), id);
    NoteCounts(applied, RecordFailed(id), id);
    NoteCounts(InsertRow(applied, id, io.now), Fated(id, Recorded), id);
  }

  /** A batch that holds the same id n times with a failing record write, then once more. */
  function Repeated(n: nat, failing: Work, last: Work): seq<Work> {
    if n == 0 then [last] else [failing] + Repeated(n - 1, failing, last)
  }

  /**
   * The bound of `LabelledAtMostOnce` cannot be improved: whatever the number n, a batch with n
   * duplicates whose record writes fail labels the message n + 1 times.
   */
  lemma {:induction false} BoundIsAttained(cfg: Config, s: AccountState, failing: Work, last: Work, n: nat)
    requires failing.id == last.id && !failing.turn.cancelled && !last.turn.cancelled
    requires ReachesRecord(cfg, s, last.id, failing.turn.first) && ReachesRecord(cfg, s, last.id, last.turn.first)
    requires failing.turn.first.recordErr.Some? && !IsRateLimitError(RecordErr(failing.turn.first).value)
    requires last.turn.first.recordErr.None?
    ensures
      var after := Batch(cfg, s, Repeated(n, failing, last)).state;
      && Applications(after.log, last.id) == Applications(s.log, last.id) + n + 1
      && FailedRecords(after.log, last.id) == FailedRecords(s.log, last.id) + n
      && Deletions(after.log, last.id) == Deletions(s.log, last.id)
    decreases n
  {
    hide ProcessMessage, Applications, FailedRecords, Deletions, IsRateLimitError, LabelFor;
    var work := Repeated(n, failing, last);
    var id := last.id;
    if n == 0 {
      OneMoreApplication(cfg, s, id, last.turn.first);
      var turn := TakeTurn(cfg, s, work[0]);
      assert Batch(cfg, turn.state, work[1..]).state == turn.state;
    } else {
      OneMoreApplication(cfg, s, id, failing.turn.first);
      var r := ProcessMessage(cfg, s, id, failing.turn.first);
      NoteCounts(r.state, Fated(id, Failed), id);
      assert work[1..] == Repeated(n - 1, failing, last);
      BoundIsAttained(cfg, Note(r.state, Fated(id, Failed)), failing, last, n - 1);
    }
  }
}
