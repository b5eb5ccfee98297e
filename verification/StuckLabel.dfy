/** A label that Gmail has and the cache lacks: without a sync, no message is ever labelled with it. */
module StuckLabel {
  import opened Errors
  import opened HistorySync
  import opened Labels
  import LabelProperties
  import opened AccountModel
  import opened Growth
  import opened Accounting

  predicate Stuck(s: AccountState, name: string) {
    name in s.server && name !in s.cache
  }

  lemma UseKeepsStuck(cfg: Config, s: AccountState, name: string, used: string, io: LabelIO)
    requires Stuck(s, name)
    ensures Stuck(WithLabelTables(s, GetOrCreateLabel(cfg.policy, LabelTables(s), used, io).state), name)
    ensures used == name ==> GetOrCreateLabel(cfg.policy, LabelTables(s), used, io).reply.Fail?
  {
    hide GetOrCreateLabel;
    if used == name {
      LabelProperties.UncachedLabelIsRefused(cfg.policy, LabelTables(s), name, io);
    } else {
      LabelProperties.OtherUseKeepsUncached(cfg.policy, LabelTables(s), name, used, io);
    }
  }

  lemma LabelAndRecordStuck(cfg: Config, s: AccountState, m: MsgId, name: string, used: string, io: MessageInput)
    requires Stuck(s, name)
    ensures
      var r := LabelAndRecord(cfg, s, m, used, io);
      && Stuck(r.state, name)
      && (used == name ==> r.err.Some? && r.state.rows == s.rows && r.state.onMessage == s.onMessage)
  {
    hide GetOrCreateLabel, AddLabelsErr;
    UseKeepsStuck(cfg, s, name, used, io.labelIO);
  }

  /** A message classified to that name ends in an error, unlabelled and unrecorded. */
  lemma MessageStuck(cfg: Config, s: AccountState, m: MsgId, name: string, io: MessageInput)
    requires Stuck(s, name)
    ensures
      var r := ProcessMessage(cfg, s, m, io);
      && Stuck(r.state, name)
      && (name != "" && !cfg.dryRun && io.decision.Ok? && LabelFor(cfg, io.decision.value) == name ==>
            && r.state.rows == s.rows && r.state.onMessage == s.onMessage
            && (SkipReason(cfg, s, m, io) == Ok(None) ==> r.err.Some?))
  {
    hide LabelAndRecord, GetMessageErr, HasAILabel, LabelFor;
    if io.decision.Ok? {
      LabelAndRecordStuck(cfg, s, m, name, LabelFor(cfg, io.decision.value), io);
    }
  }

  lemma TurnStuck(cfg: Config, s: AccountState, w: Work, name: string)
    requires Stuck(s, name)
    ensures Stuck(TakeTurn(cfg, s, w).state, name)
    ensures name != "" && !cfg.dryRun && MeansName(cfg, w.turn, name) ==> TurnFate(cfg, s, w) != Recorded
  {
    hide ProcessMessage, SkipReason, IsRateLimitError, LabelFor;
    var r := ProcessMessage(cfg, s, w.id, w.turn.first).state;
    MessageStuck(cfg, s, w.id, name, w.turn.first);
    MessageStuck(cfg, r, w.id, name, w.turn.second);
    SkipsAreNoRecords(cfg, s, w.id, w.turn.first);
    SkipsAreNoRecords(cfg, r, w.id, w.turn.second);
    FailsWithoutDecision(cfg, s, w.id, w.turn.first);
    FailsWithoutDecision(cfg, r, w.id, w.turn.second);
  }

  /** Whichever attempt of the turn gets a classification, it is to a category with that label. */
  predicate MeansName(cfg: Config, turn: Turn, name: string) {
    && (turn.first.decision.Ok? ==> LabelFor(cfg, turn.first.decision.value) == name)
    && (turn.second.decision.Ok? ==> LabelFor(cfg, turn.second.decision.value) == name)
  }

  lemma SkipsAreNoRecords(cfg: Config, s: AccountState, m: MsgId, io: MessageInput)
    ensures MessageFate(cfg, s, m, io).Recorded? ==> SkipReason(cfg, s, m, io) == Ok(None) || SkipReason(cfg, s, m, io).Fail?
    ensures SkipReason(cfg, s, m, io).Fail? ==> ProcessMessage(cfg, s, m, io).err.Some?
  {
    hide LabelAndRecord, GetMessageErr, HasAILabel, LabelFor;
  }

  lemma FailsWithoutDecision(cfg: Config, s: AccountState, m: MsgId, io: MessageInput)
    ensures SkipReason(cfg, s, m, io) == Ok(None) && io.decision.Fail? ==> ProcessMessage(cfg, s, m, io).err.Some?
  {
    hide LabelAndRecord, GetMessageErr, HasAILabel, LabelFor;
  }

  lemma {:induction false} BatchStuck(cfg: Config, s: AccountState, work: seq<Work>, name: string)
    requires Stuck(s, name)
    ensures Stuck(Batch(cfg, s, work).state, name)
    decreases |work|
  {
    hide TakeTurn;
    if work != [] {
      TurnStuck(cfg, s, work[0], name);
      if !TakeTurn(cfg, s, work[0]).cancelled {
        BatchStuck(cfg, TakeTurn(cfg, s, work[0]).state, work[1..], name);
      }
    }
  }

  lemma {:induction false} BatchPassesOver(cfg: Config, s: AccountState, work: seq<Work>, name: string, i: nat)
    requires Stuck(s, name) && name != "" && !cfg.dryRun
    requires i < |work| == |BatchFates(cfg, s, work)| && MeansName(cfg, work[i].turn, name)
    ensures BatchFates(cfg, s, work)[i] != Fated(work[i].id, Recorded)
    decreases |work|
  {
    hide TakeTurn, TurnFate, MeansName;
    TurnStuck(cfg, s, work[0], name);
    var turn := TakeTurn(cfg, s, work[0]);
    if i > 0 && !turn.cancelled {
      BatchIsAccounted(cfg, turn.state, work[1..]);
      BatchPassesOver(cfg, turn.state, work[1..], name, i - 1);
    }
  }

  lemma StepStuck(s: AccountState, step: Step, name: string)
    requires Stuck(s, name)
    ensures Stuck(Next(s, step), name)
  {
    hide Batch, FetchNewMessageIds, ProcessMessage;
    match step
    case Tick(cfg, io) =>
      var fetched := FetchNewMessageIds(cfg.policy, s.cursor, io.sync);
      if fetched.Ok? {
        BatchStuck(cfg, s, WorkOf(Throttle(cfg, fetched.value.ids), io.turns), name);
      }
    case Crash(cfg, io, at, retried) =>
      var fetched := FetchNewMessageIds(cfg.policy, s.cursor, io.sync);
      if fetched.Ok? {
        var work := WorkOf(Throttle(cfg, fetched.value.ids), io.turns);
        var done := if at < |work| then work[..at] else work;
        BatchStuck(cfg, s, done, name);
        if at < |work| {
          var s' := Batch(cfg, s, done).state;
          MessageStuck(cfg, s', work[at].id, name, work[at].turn.first);
          MessageStuck(cfg, ProcessMessage(cfg, s', work[at].id, work[at].turn.first).state, work[at].id, name, work[at].turn.second);
        }
      }
    case Admin(_) =>
    case Relabel(_, _) =>
  }

  /** The pipeline itself never syncs the cache, so no run of it changes that. */
  lemma {:induction false} StuckForGood(s: AccountState, steps: seq<Step>, name: string)
    requires Stuck(s, name)
    ensures Stuck(RunSteps(s, steps), name)
  {
    hide Next;
    if steps != [] {
      StuckForGood(s, steps[..|steps| - 1], name);
      StepStuck(RunSteps(s, steps[..|steps| - 1]), steps[|steps| - 1], name);
    }
  }

  /**
   * So in a tick after any run from there, a message that is classified to a category with that label is
   * not recorded; the tick's cursor passes over it like over any other that is not.
   */
  lemma StuckLabelIsPassedOver(s: AccountState, steps: seq<Step>, name: string, cfg: Config, io: AccountInput, i: nat)
    requires Stuck(s, name) && name != "" && !cfg.dryRun
    requires !io.cancelled && io.clientErr.None?
    requires FetchNewMessageIds(cfg.policy, RunSteps(s, steps).cursor, io.sync).Ok?
    requires i < |FetchNewMessageIds(cfg.policy, RunSteps(s, steps).cursor, io.sync).value.ids|
    requires MeansName(cfg, io.turns(i), name)
    ensures
      var before := RunSteps(s, steps);
      var ids := FetchNewMessageIds(cfg.policy, before.cursor, io.sync).value.ids;
      var fates := NewFates(before, ProcessAccount(cfg, before, before.cursor, io).state);
      i < |fates| && fates[i].Fated? && fates[i].id == ids[i] && !fates[i].fate.Recorded?
  {
    hide FetchNewMessageIds, Batch, BatchFates, FateEvents, RunSteps, MeansName, SettledBy;
    var before := RunSteps(s, steps);
    StuckForGood(s, steps, name);
    var ids := FetchNewMessageIds(cfg.policy, before.cursor, io.sync).value.ids;
    var work := WorkOf(Throttle(cfg, ids), io.turns);
    FetchedIsAccounted(cfg, before, ids, io.turns);
    BatchIsAccounted(cfg, before, work);
    assert NewFates(before, ProcessAccount(cfg, before, before.cursor, io).state) == FetchedFates(cfg, before, ids, io.turns);
    if i < |work| {
      BatchPassesOver(cfg, before, work, name, i);
    }
  }
}
