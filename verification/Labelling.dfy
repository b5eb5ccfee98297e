/** Which labels end up on messages: what is recorded carries its label, and nothing else is ever put on. */
module Labelling {
  import opened Errors
  import opened RetryEngine
  import opened HistorySync
  import opened Labels
  import LabelProperties
  import opened AccountModel
  import opened Growth
  import opened Accounting

  /** Gmail's label of that name is on the message. */
  predicate Carries(s: AccountState, id: MsgId, name: string) {
    name in s.server && s.server[name] in LabelsOn(s, id)
  }

  /** The id belongs to one of some label names. */
  ghost predicate LabelAmong(s: AccountState, names: set<string>, labelId: LabelId) {
    exists name :: name in names && name in s.server && s.server[name] == labelId
  }

  ghost predicate Sound(s: AccountState) {
    LabelProperties.CacheSound(LabelTables(s))
  }

  /** From s to t no label was taken off a message, and only labels with one of the names were put on. */
  ghost predicate OnlyAdds(s: AccountState, t: AccountState, names: set<string>) {
    && Sound(t) && LabelProperties.Keeps(s.server, t.server)
    && (forall m :: LabelsOn(s, m) <= LabelsOn(t, m))
    && (forall m, l | l in LabelsOn(t, m) :: l in LabelsOn(s, m) || LabelAmong(t, names, l))
  }

  lemma OnlyAddsTransitive(s: AccountState, t: AccountState, u: AccountState, names: set<string>)
    requires OnlyAdds(s, t, names) && OnlyAdds(t, u, names)
    ensures OnlyAdds(s, u, names)
  {
    hide LabelsOn, LabelProperties.CacheSound;
    forall m
      ensures LabelsOn(s, m) <= LabelsOn(u, m)
    {
      assert LabelsOn(s, m) <= LabelsOn(t, m) <= LabelsOn(u, m);
    }
    forall m, l | l in LabelsOn(u, m)
      ensures l in LabelsOn(s, m) || LabelAmong(u, names, l)
    {
      if l in LabelsOn(t, m) && l !in LabelsOn(s, m) {
        assert LabelAmong(t, names, l);
        var name :| name in names && name in t.server && t.server[name] == l;
        assert name in u.server && u.server[name] == l;
      }
    }
  }

  lemma SameLabelsOnlyAdds(s: AccountState, t: AccountState, names: set<string>)
    requires Sound(s) && t.cache == s.cache && t.server == s.server && t.onMessage == s.onMessage
    ensures OnlyAdds(s, t, names)
  {
    assert LabelTables(t) == LabelTables(s);
  }

  lemma CarriesStays(s: AccountState, t: AccountState, names: set<string>, id: MsgId, name: string)
    requires OnlyAdds(s, t, names) && Carries(s, id, name)
    ensures Carries(t, id, name)
  {
    hide LabelsOn, LabelProperties.CacheSound;
  }

  // ---------------------------------------------------------------- one message

  function NamesOf(cfg: Config): set<string> {
    cfg.categories.Values
  }

  lemma NameIsConfigured(cfg: Config, category: string)
    requires LabelFor(cfg, category) != ""
    ensures LabelFor(cfg, category) in NamesOf(cfg)
  {
  }

  lemma AddOnlyAdds(s: AccountState, id: MsgId, name: string, names: set<string>)
    requires Sound(s) && name in names && name in s.server
    ensures OnlyAdds(s, AddLabel(s, id, s.server[name]), names) && Carries(AddLabel(s, id, s.server[name]), id, name)
  {
    hide LabelProperties.CacheSound;
    assert LabelTables(AddLabel(s, id, s.server[name])) == LabelTables(s);
    assert LabelAmong(AddLabel(s, id, s.server[name]), names, s.server[name]);
  }

  lemma UseOnlyAdds(cfg: Config, s: AccountState, name: string, io: LabelIO, names: set<string>)
    requires Sound(s)
    ensures
      var got := GetOrCreateLabel(cfg.policy, LabelTables(s), name, io);
      var t := WithLabelTables(s, got.state);
      && OnlyAdds(s, t, names)
      && (got.reply.Ok? ==> name in t.server && t.server[name] == got.reply.value)
  {
    hide GetOrCreateLabel;
    LabelProperties.UseIsSound(cfg.policy, LabelTables(s), name, io);
    var t := WithLabelTables(s, GetOrCreateLabel(cfg.policy, LabelTables(s), name, io).state);
    assert LabelTables(t) == GetOrCreateLabel(cfg.policy, LabelTables(s), name, io).state;
    assert forall m :: LabelsOn(t, m) == LabelsOn(s, m);
  }

  /** Steps 6 and 7, once the label's id is known. */
  lemma RecordingLabels(s: AccountState, id: MsgId, name: string, io: MessageInput, names: set<string>)
    requires Sound(s) && name in names && name in s.server
    ensures
      var labelled := AddLabel(s, id, s.server[name]);
      var applied := Note(labelled, LabelApplied(id));
      && OnlyAdds(s, labelled, names)
      && OnlyAdds(s, Note(applied, RecordFailed(id)), names)
      && OnlyAdds(s, Note(InsertRow(applied, id, io.now), Fated(id, Recorded)), names)
      && Carries(Note(InsertRow(applied, id, io.now), Fated(id, Recorded)), id, name)
  {
    AddOnlyAdds(s, id, name, names);
    var labelled := AddLabel(s, id, s.server[name]);
    var failed := Note(Note(labelled, LabelApplied(id)), RecordFailed(id));
    var recorded := Note(InsertRow(Note(labelled, LabelApplied(id)), id, io.now), Fated(id, Recorded));
    SoundAfter(s, labelled, names);
    hide AddLabel, OnlyAdds, Carries, Sound;
    SameLabelsOnlyAdds(labelled, failed, names);
    SameLabelsOnlyAdds(labelled, recorded, names);
    OnlyAddsTransitive(s, labelled, failed, names);
    OnlyAddsTransitive(s, labelled, recorded, names);
    CarriesStays(labelled, recorded, names, id, name);
  }

  lemma LabelAndRecordLabels(cfg: Config, s: AccountState, id: MsgId, name: string, io: MessageInput)
    requires Sound(s) && name in NamesOf(cfg)
    ensures
      var r := LabelAndRecord(cfg, s, id, name, io);
      OnlyAdds(s, r.state, NamesOf(cfg)) && (r.err.None? ==> Carries(r.state, id, name))
  {
    hide GetOrCreateLabel, AddLabelsErr, AddLabel, InsertRow, Note, OnlyAdds, Carries, Sound, WithLabelTables, LabelTables;
    var names, after := NamesOf(cfg), LabelAndRecord(cfg, s, id, name, io).state;
    var got := GetOrCreateLabel(cfg.policy, LabelTables(s), name, io.labelIO);
    var tables := WithLabelTables(s, got.state);
    UseOnlyAdds(cfg, s, name, io.labelIO, names);
    SoundAfter(s, tables, names);
    if got.reply.Ok? {
      RecordingLabels(tables, id, name, io, names);
      if after != tables {
        OnlyAddsTransitive(s, tables, after, names);
      }
    }
  }

  /** The message was classified, and carries the label of its category if that has one. */
  predicate LabelledAs(cfg: Config, s: AccountState, id: MsgId, io: MessageInput) {
    && io.decision.Ok?
    && (LabelFor(cfg, io.decision.value) != "" ==> Carries(s, id, LabelFor(cfg, io.decision.value)))
  }

  lemma MessageLabels(cfg: Config, s: AccountState, id: MsgId, io: MessageInput)
    requires Sound(s)
    ensures
      var r := ProcessMessage(cfg, s, id, io);
      && OnlyAdds(s, r.state, NamesOf(cfg))
      && (r.err.None? && MessageFate(cfg, s, id, io).Recorded? ==> LabelledAs(cfg, r.state, id, io))
  {
    var names, after := NamesOf(cfg), ProcessMessage(cfg, s, id, io).state;
    SameLabelsOnlyAdds(s, s, names);
    hide LabelAndRecord, GetMessageErr, HasAILabel, LabelFor, OnlyAdds, Carries, LabelProperties.CacheSound;
    if io.decision.Ok? && LabelFor(cfg, io.decision.value) != "" {
      NameIsConfigured(cfg, io.decision.value);
      LabelAndRecordLabels(cfg, s, id, LabelFor(cfg, io.decision.value), io);
    }
    if after.cache == s.cache && after.server == s.server && after.onMessage == s.onMessage {
      SameLabelsOnlyAdds(s, after, names);
    }
  }

  // ---------------------------------------------------------------- one batch

  /** The attempt that decides a turn: the second exactly if the first ended in a rate-limit error. */
  function DecidingInput(cfg: Config, s: AccountState, w: Work): MessageInput {
    var err := ProcessMessage(cfg, s, w.id, w.turn.first).err;
    if err.Some? && IsRateLimitError(err.value) then w.turn.second else w.turn.first
  }

  lemma TurnLabels(cfg: Config, s: AccountState, w: Work)
    requires Sound(s)
    ensures
      var after := TakeTurn(cfg, s, w).state;
      && OnlyAdds(s, after, NamesOf(cfg))
      && (TurnFate(cfg, s, w).Recorded? ==> LabelledAs(cfg, after, w.id, DecidingInput(cfg, s, w)))
  {
    hide ProcessMessage, MessageFate, IsRateLimitError, LabelledAs, LabelProperties.CacheSound;
    var names := NamesOf(cfg);
    var r := ProcessMessage(cfg, s, w.id, w.turn.first).state;
    MessageLabels(cfg, s, w.id, w.turn.first);
    MessageLabels(cfg, r, w.id, w.turn.second);
    var again := ProcessMessage(cfg, r, w.id, w.turn.second).state;
    SameLabelsOnlyAdds(s, Note(s, Fated(w.id, Unreached)), names);
    SameLabelsOnlyAdds(r, Note(r, Fated(w.id, Failed)), names);
    SameLabelsOnlyAdds(again, Note(again, Fated(w.id, Failed)), names);
    hide OnlyAdds;
    OnlyAddsTransitive(s, r, Note(r, Fated(w.id, Failed)), names);
    OnlyAddsTransitive(s, r, again, names);
    OnlyAddsTransitive(s, again, Note(again, Fated(w.id, Failed)), names);
  }

  lemma StaysLabelled(cfg: Config, s: AccountState, t: AccountState, id: MsgId, io: MessageInput)
    requires OnlyAdds(s, t, NamesOf(cfg)) && LabelledAs(cfg, s, id, io)
    ensures LabelledAs(cfg, t, id, io)
  {
    hide OnlyAdds, Carries, LabelFor;
    if LabelFor(cfg, io.decision.value) != "" {
      CarriesStays(s, t, NamesOf(cfg), id, LabelFor(cfg, io.decision.value));
    }
  }

  lemma {:induction false} BatchLabels(cfg: Config, s: AccountState, work: seq<Work>)
    requires Sound(s)
    ensures OnlyAdds(s, Batch(cfg, s, work).state, NamesOf(cfg))
    decreases |work|
  {
    hide TakeTurn, LabelProperties.CacheSound;
    var names := NamesOf(cfg);
    if work == [] {
      SameLabelsOnlyAdds(s, s, names);
    } else {
      var turn, end := TakeTurn(cfg, s, work[0]), Batch(cfg, s, work).state;
      TurnLabels(cfg, s, work[0]);
      if turn.cancelled {
        SameLabelsOnlyAdds(turn.state, end, names);
      } else {
        BatchLabels(cfg, turn.state, work[1..]);
      }
      OnlyAddsTransitive(s, turn.state, end, names);
    }
  }

  /** The state in which turn i of a batch begins. */
  function Before(cfg: Config, s: AccountState, work: seq<Work>, i: nat): AccountState
    requires i < |work|
  {
    Batch(cfg, s, work[..i]).state
  }

  lemma {:induction false} BatchLabelsRecorded(cfg: Config, s: AccountState, work: seq<Work>, i: nat)
    requires Sound(s) && i < |work| == |BatchFates(cfg, s, work)|
    requires BatchFates(cfg, s, work)[i] == Fated(work[i].id, Recorded)
    ensures LabelledAs(cfg, Batch(cfg, s, work).state, work[i].id, DecidingInput(cfg, Before(cfg, s, work, i), work[i]))
    decreases |work|
  {
    hide TakeTurn, TurnFate, LabelProperties.CacheSound, LabelledAs, OnlyAdds, DecidingInput;
    var turn, rest := TakeTurn(cfg, s, work[0]), work[1..];
    TurnLabels(cfg, s, work[0]);
    assert Sound(turn.state) by { SoundAfter(s, turn.state, NamesOf(cfg)); }
    BatchLabels(cfg, turn.state, rest);
    BatchIsAccounted(cfg, turn.state, rest);
    if turn.cancelled {
      CancelledTurnIsNotRecorded(cfg, s, work[0]);
    } else if i == 0 {
      assert Before(cfg, s, work, 0) == s;
      StaysLabelled(cfg, turn.state, Batch(cfg, s, work).state, work[0].id, DecidingInput(cfg, s, work[0]));
    } else {
      assert work[..i][0] == work[0] && work[..i][1..] == rest[..i - 1];
      assert Before(cfg, s, work, i) == Before(cfg, turn.state, rest, i - 1);
      BatchLabelsRecorded(cfg, turn.state, rest, i - 1);
    }
  }

  lemma SoundAfter(s: AccountState, t: AccountState, names: set<string>)
    requires OnlyAdds(s, t, names)
    ensures Sound(t)
  {
  }

  lemma CancelledTurnIsNotRecorded(cfg: Config, s: AccountState, w: Work)
    requires TakeTurn(cfg, s, w).cancelled
    ensures TurnFate(cfg, s, w) != Recorded
  {
    hide ProcessMessage, MessageFate, IsRateLimitError;
  }

  // ---------------------------------------------------------------- one tick

  /**
   * Every id a tick records was classified, and when the tick ends its message carries Gmail's label for
   * the category, unless none is configured. The classification is that of the second attempt exactly if
   * the first ended in a rate-limit error.
   */
  lemma RecordedMeansLabelled(cfg: Config, s: AccountState, known: string, io: AccountInput, i: nat)
    requires Sound(s) && !io.cancelled && io.clientErr.None? && FetchNewMessageIds(cfg.policy, known, io.sync).Ok?
    requires i < |FetchNewMessageIds(cfg.policy, known, io.sync).value.ids|
    requires
      var fates := NewFates(s, ProcessAccount(cfg, s, known, io).state);
      i < |fates| && fates[i].Fated? && fates[i].fate.Recorded?
    ensures
      var ids := FetchNewMessageIds(cfg.policy, known, io.sync).value.ids;
      var work := WorkOf(Throttle(cfg, ids), io.turns);
      && i < |work| && work[i].id == ids[i]
      && LabelledAs(cfg, ProcessAccount(cfg, s, known, io).state, ids[i], DecidingInput(cfg, Before(cfg, s, work, i), work[i]))
  {
    hide FetchNewMessageIds, Batch, BatchFates, FateEvents, LabelProperties.CacheSound, LabelledAs, DecidingInput;
    var ids := FetchNewMessageIds(cfg.policy, known, io.sync).value.ids;
    var after := ProcessAccount(cfg, s, known, io).state;
    var todo := Throttle(cfg, ids);
    var work := WorkOf(todo, io.turns);
    FetchedIsAccounted(cfg, s, ids, io.turns);
    BatchIsAccounted(cfg, s, work);
    assert NewFates(s, after) == FetchedFates(cfg, s, ids, io.turns);
    BatchLabelsRecorded(cfg, s, work, i);
    SameLabelled(cfg, Batch(cfg, s, work).state, after, ids[i], DecidingInput(cfg, Before(cfg, s, work, i), work[i]));
  }

  lemma SameLabelled(cfg: Config, s: AccountState, t: AccountState, id: MsgId, io: MessageInput)
    requires s.server == t.server && s.onMessage == t.onMessage && LabelledAs(cfg, s, id, io)
    ensures LabelledAs(cfg, t, id, io)
  {
    hide LabelFor;
  }

  lemma TickOnlyAdds(cfg: Config, s: AccountState, known: string, io: AccountInput)
    requires Sound(s)
    ensures OnlyAdds(s, ProcessAccount(cfg, s, known, io).state, NamesOf(cfg))
  {
    hide FetchNewMessageIds, Batch, LabelProperties.CacheSound;
    var fetched, after := FetchNewMessageIds(cfg.policy, known, io.sync), ProcessAccount(cfg, s, known, io).state;
    var names := NamesOf(cfg);
    if io.cancelled || io.clientErr.Some? || fetched.Fail? {
      SameLabelsOnlyAdds(s, after, names);
    } else {
      var work := WorkOf(Throttle(cfg, fetched.value.ids), io.turns);
      BatchLabels(cfg, s, work);
      SameLabelsOnlyAdds(Batch(cfg, s, work).state, after, names);
      OnlyAddsTransitive(s, Batch(cfg, s, work).state, after, names);
    }
  }

  lemma CrashOnlyAdds(cfg: Config, s: AccountState, io: AccountInput, at: nat, retried: bool)
    requires Sound(s)
    ensures OnlyAdds(s, CrashDuring(cfg, s, io, at, retried), NamesOf(cfg))
  {
    var names := NamesOf(cfg);
    SameLabelsOnlyAdds(s, s, names);
    hide FetchNewMessageIds, Batch, ProcessMessage, LabelProperties.CacheSound;
    var fetched := FetchNewMessageIds(cfg.policy, s.cursor, io.sync);
    if !io.cancelled && io.clientErr.None? && fetched.Ok? {
      var work := WorkOf(Throttle(cfg, fetched.value.ids), io.turns);
      var done := if at < |work| then work[..at] else work;
      var s' := Batch(cfg, s, done).state;
      BatchLabels(cfg, s, done);
      if at < |work| {
        var first := ProcessMessage(cfg, s', work[at].id, work[at].turn.first).state;
        MessageLabels(cfg, s', work[at].id, work[at].turn.first);
        MessageLabels(cfg, first, work[at].id, work[at].turn.second);
        var second := ProcessMessage(cfg, first, work[at].id, work[at].turn.second).state;
        hide OnlyAdds;
        OnlyAddsTransitive(s, s', first, names);
        OnlyAddsTransitive(s, first, second, names);
      }
    }
  }

  // ---------------------------------------------------------------- every run

  /** A step of the pipeline or the admin server, with no label configured but those of the names. */
  predicate Configured(step: Step, names: set<string>) {
    match step
    case Tick(cfg, _) => NamesOf(cfg) <= names
    case Crash(cfg, _, _, _) => NamesOf(cfg) <= names
    case Admin(_) => true
    case Relabel(_, _) => false
  }

  lemma MoreNames(s: AccountState, t: AccountState, names: set<string>, more: set<string>)
    requires OnlyAdds(s, t, names) && names <= more
    ensures OnlyAdds(s, t, more)
  {
    hide LabelsOn, LabelProperties.CacheSound;
    forall l | LabelAmong(t, names, l)
      ensures LabelAmong(t, more, l)
    {
    }
  }

  lemma StepOnlyAdds(s: AccountState, step: Step, names: set<string>)
    requires Sound(s) && Configured(step, names)
    ensures OnlyAdds(s, Next(s, step), names)
  {
    hide ProcessAccount, CrashDuring, OnlyAdds, LabelProperties.CacheSound;
    match step
    case Tick(cfg, io) =>
      TickOnlyAdds(cfg, s, s.cursor, io);
      MoreNames(s, Next(s, step), NamesOf(cfg), names);
    case Crash(cfg, io, at, retried) =>
      CrashOnlyAdds(cfg, s, io, at, retried);
      MoreNames(s, Next(s, step), NamesOf(cfg), names);
    case Admin(_) => SameLabelsOnlyAdds(s, Next(s, step), names);
  }

  /**
   * In every run of ticks, crashes and admin requests the pipeline takes no label off a message, and
   * every label it puts on one is Gmail's label for a configured category.
   */
  lemma {:induction false} OnlyCategoryLabelsAreAdded(s: AccountState, steps: seq<Step>, names: set<string>)
    requires Sound(s) && forall k | 0 <= k < |steps| :: Configured(steps[k], names)
    ensures OnlyAdds(s, RunSteps(s, steps), names)
  {
    hide Next, OnlyAdds, LabelProperties.CacheSound;
    if steps == [] {
      SameLabelsOnlyAdds(s, s, names);
    } else {
      var before := RunSteps(s, steps[..|steps| - 1]);
      OnlyCategoryLabelsAreAdded(s, steps[..|steps| - 1], names);
      SoundAfter(s, before, names);
      StepOnlyAdds(before, steps[|steps| - 1], names);
      OnlyAddsTransitive(s, before, RunSteps(s, steps), names);
    }
  }
}
