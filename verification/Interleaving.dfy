/**
 * The admin server and the garbage collector run beside the pipeline and share its tables. Here one
 * message is processed in atomic steps, one per database or Gmail call, with anything in between.
 */
module Interleaving {
  import opened Errors
  import opened HistorySync
  import opened Labels
  import opened AccountModel
  import opened Growth
  import opened LabelOnce
  import opened TableHistory

  /** How far the pipeline is with the message it works on. */
  datatype Stage =
    | Idle
    | Checked(id: MsgId)    // no row was found
    | Labelled(id: MsgId)   // AddLabels has succeeded

  datatype Shared = Shared(stage: Stage, account: AccountState)

  datatype Micro =
    | Check(id: MsgId)               // ProcessedMessageExists
    | Finish(fate: Fate)             // skipped for an AI label, or previewed in dry-run mode
    | GiveUp                         // an error, or a crash before the label
    | UseLabel(tables: LabelState)   // GetOrCreateLabel
    | ApplyUnheard(labelId: LabelId) // AddLabels arrives, but reports an error
    | Apply(labelId: LabelId)        // AddLabels succeeds
    | Record(now: Time)              // InsertProcessedMessage succeeds
    | RecordFails                    // it fails after a label, or a crash comes first
    | Meanwhile(step: Step)          // an admin request, a collection, or somebody's edit in Gmail

  predicate Enabled(x: Shared, a: Micro) {
    match a
    case Check(_) => x.stage.Idle?
    case Finish(fate) => x.stage.Checked? && (fate.HadAILabel? || fate.Previewed?)
    case GiveUp => x.stage.Checked?
    case UseLabel(_) => x.stage.Checked?
    case ApplyUnheard(_) => x.stage.Checked?
    case Apply(_) => x.stage.Checked?
    case Record(_) => !x.stage.Idle?
    case RecordFails => x.stage.Labelled?
    case Meanwhile(step) => step.Admin? || step.Relabel?
  }

  function Take(x: Shared, a: Micro): Shared
    requires Enabled(x, a)
  {
    match a
    case Check(id) =>
      if id in x.account.rows then x.(account := Note(x.account, Fated(id, HadRow))) else x.(stage := Checked(id))
    case Finish(fate) => Shared(Idle, Note(x.account, Fated(x.stage.id, fate)))
    case GiveUp => x.(stage := Idle)
    case UseLabel(tables) => x.(account := WithLabelTables(x.account, tables))
    case ApplyUnheard(labelId) => x.(account := AddLabel(x.account, x.stage.id, labelId))
    case Apply(labelId) =>
      Shared(Labelled(x.stage.id), Note(AddLabel(x.account, x.stage.id, labelId), LabelApplied(x.stage.id)))
    case Record(now) => Shared(Idle, Note(InsertRow(x.account, x.stage.id, now), Fated(x.stage.id, Recorded)))
    case RecordFails => Shared(Idle, Note(x.account, RecordFailed(x.stage.id)))
    case Meanwhile(step) => x.(account := Next(x.account, step))
  }

  ghost predicate EnabledRun(x: Shared, run: seq<Micro>)
    decreases |run|
  {
    run != [] ==> Enabled(x, run[0]) && EnabledRun(Take(x, run[0]), run[1..])
  }

  function TakeAll(x: Shared, run: seq<Micro>): Shared
    requires EnabledRun(x, run)
    decreases |run|
  {
    if run == [] then x else TakeAll(Take(x, run[0]), run[1..])
  }

  /** While a label waits for its record, one application is not paid for yet; and only then may a row be missing. */
  function Owed(x: Shared, id: MsgId): int {
    Potential(x.account, id) + if x.stage == Labelled(id) then 1 else 0
  }

  /** A message that was found unrecorded stays so until the pipeline records it itself: it is the only writer. */
  predicate OneWriter(x: Shared) {
    !x.stage.Idle? ==> x.stage.id !in x.account.rows
  }

  lemma TakeKeepsOwed(x: Shared, a: Micro, id: MsgId)
    requires Enabled(x, a) && OneWriter(x)
    ensures OneWriter(Take(x, a)) && Owed(Take(x, a), id) >= Owed(x, id)
  {
    hide Balance;
    match a
    case Check(m) => NoteBalance(x.account, Fated(m, HadRow), id);
    case Finish(fate) => NoteBalance(x.account, Fated(x.stage.id, fate), id);
    case GiveUp =>
    case UseLabel(_) =>
    case ApplyUnheard(_) =>
    case Apply(labelId) => NoteBalance(AddLabel(x.account, x.stage.id, labelId), LabelApplied(x.stage.id), id);
    case Record(now) =>
      NoteBalance(InsertRow(x.account, x.stage.id, now), Fated(x.stage.id, Recorded), id);
    case RecordFails => NoteBalance(x.account, RecordFailed(x.stage.id), id);
    case Meanwhile(step) =>
      StepKeepsPotential(x.account, step, id);
  }

  lemma {:induction false} RunKeepsOwed(x: Shared, run: seq<Micro>, id: MsgId)
    requires EnabledRun(x, run) && OneWriter(x)
    ensures Owed(TakeAll(x, run), id) >= Owed(x, id)
    decreases |run|
  {
    hide Take, Owed, Enabled;
    if run != [] {
      TakeKeepsOwed(x, run[0], id);
      RunKeepsOwed(Take(x, run[0]), run[1..], id);
    }
  }

  /**
   * Whatever the admin server, the collector and people do between any two calls of the pipeline,
   * a message is labelled at most once, plus once for every failed record write and once for every
   * deletion of its row.
   */
  lemma LabelledAtMostOnceInterleaved(x: Shared, run: seq<Micro>, id: MsgId)
    requires x.stage == Idle && x.account.log == [] && EnabledRun(x, run)
    ensures
      var after := TakeAll(x, run).account;
      Applications(after.log, id) <= 1 + FailedRecords(after.log, id) + Deletions(after.log, id)
  {
    RunKeepsOwed(x, run, id);
    var end := TakeAll(x, run);
    assert end.stage == Labelled(id) ==> RowCount(end.account, id) == 0 by {
      RunKeepsOneWriter(x, run);
    }
  }

  lemma {:induction false} RunKeepsOneWriter(x: Shared, run: seq<Micro>)
    requires EnabledRun(x, run) && OneWriter(x)
    ensures OneWriter(TakeAll(x, run))
    decreases |run|
  {
    hide Take, Enabled;
    if run != [] {
      TakeKeepsOwed(x, run[0], "");
      RunKeepsOneWriter(Take(x, run[0]), run[1..]);
    }
  }

  // ---------------------------------------------------------------- rows and log

  lemma TakeExplained(had: bool, x: Shared, a: Micro, id: MsgId)
    requires Enabled(x, a) && Explained(had, x.account, id)
    ensures Explained(had, Take(x, a).account, id)
  {
    hide Explained, Next, InsertRow, Note;
    match a
    case Check(m) =>
      if m in x.account.rows {
        NoteExplained(had, x.account, Fated(m, HadRow), id);
      }
    case Finish(fate) => NoteExplained(had, x.account, Fated(x.stage.id, fate), id);
    case GiveUp =>
    case UseLabel(tables) => SameExplained(had, x.account, WithLabelTables(x.account, tables), id);
    case ApplyUnheard(labelId) => SameExplained(had, x.account, AddLabel(x.account, x.stage.id, labelId), id);
    case Apply(labelId) =>
      var labelled := AddLabel(x.account, x.stage.id, labelId);
      SameExplained(had, x.account, labelled, id);
      NoteExplained(had, labelled, LabelApplied(x.stage.id), id);
    case Record(now) => RecordExplained(had, x.account, x.stage.id, now, id);
    case RecordFails => NoteExplained(had, x.account, RecordFailed(x.stage.id), id);
    case Meanwhile(step) => StepExplained(had, x.account, step, id);
  }

  lemma {:induction false} RunKeepsExplained(had: bool, x: Shared, run: seq<Micro>, id: MsgId)
    requires EnabledRun(x, run) && Explained(had, x.account, id)
    ensures Explained(had, TakeAll(x, run).account, id)
    decreases |run|
  {
    hide Take, Enabled, Explained;
    if run != [] {
      TakeExplained(had, x, run[0], id);
      RunKeepsExplained(had, Take(x, run[0]), run[1..], id);
    }
  }

  /**
   * Whatever comes between two calls of the pipeline: a message that was recorded, or skipped because it
   * was, has its row unless a later collection or clear deleted it; and it has one only from a record, or
   * from before the run, without a deletion since.
   */
  lemma RowsMatchLogInterleaved(x: Shared, run: seq<Micro>, id: MsgId)
    requires x.account.log == [] && EnabledRun(x, run)
    ensures
      var t := TakeAll(x, run).account;
      && (forall i: nat | i < |t.log| && (t.log[i] == Fated(id, Recorded) || t.log[i] == Fated(id, HadRow)) ::
            id in t.rows || DeletedAfter(t.log, i, id))
      && (id in t.rows ==>
            || (id in x.account.rows && forall j | 0 <= j < |t.log| :: !(t.log[j].RowsDeleted? && id in t.log[j].ids))
            || exists i: nat | i < |t.log| :: t.log[i] == Fated(id, Recorded) && !DeletedAfter(t.log, i, id))
  {
    var had, t := id in x.account.rows, TakeAll(x, run).account;
    RunKeepsExplained(had, x, run, id);
    hide TakeAll;
    forall i: nat | i < |t.log| && (t.log[i] == Fated(id, Recorded) || t.log[i] == Fated(id, HadRow))
      ensures id in t.rows || DeletedAfter(t.log, i, id)
    {
      EntryExplained(had, t.log, id, i);
    }
    if id in t.rows {
      RowExplained(had, t.log, id);
    }
  }

  // ---------------------------------------------------------------- the pipeline takes these steps

  /** The steps after the label is known. */
  function RecordingSteps(id: MsgId, labelId: LabelId, io: MessageInput): seq<Micro> {
    if AddLabelsErr(id, io.addErr).Some? then
      (if io.addArrived && id != "" then [ApplyUnheard(labelId)] else []) + [GiveUp]
    else [Apply(labelId), if io.recordErr.Some? then RecordFails else Record(io.now)]
  }

  function LabellingSteps(cfg: Config, s: AccountState, id: MsgId, name: string, io: MessageInput): seq<Micro> {
    var got := GetOrCreateLabel(cfg.policy, LabelTables(s), name, io.labelIO);
    [UseLabel(got.state)] + if got.reply.Fail? then [GiveUp] else RecordingSteps(id, got.reply.value, io)
  }

  /** The steps of ProcessMessage once no row was found. */
  function StepsAfterCheck(cfg: Config, s: AccountState, id: MsgId, io: MessageInput): seq<Micro> {
    match SkipReason(cfg, s, id, io)
    case Fail(_) => [GiveUp]
    case Ok(Some(fate)) => [Finish(fate)]
    case Ok(None) =>
      if GetMessageErr(id, io.secondGetErr).Some? || io.decision.Fail? then [GiveUp]
      else if cfg.dryRun then [Finish(Previewed)]
      else
        var name := LabelFor(cfg, io.decision.value);
        if name != "" then LabellingSteps(cfg, s, id, name, io)
        else if io.recordErr.Some? then [GiveUp]
        else [Record(io.now)]
  }

  function StepsOf(cfg: Config, s: AccountState, id: MsgId, io: MessageInput): seq<Micro> {
    if io.existsErr.Some? then []
    else [Check(id)] + if id in s.rows then [] else StepsAfterCheck(cfg, s, id, io)
  }

  lemma TakeOne(x: Shared, a: Micro, rest: seq<Micro>)
    requires Enabled(x, a) && EnabledRun(Take(x, a), rest)
    ensures EnabledRun(x, [a] + rest) && TakeAll(x, [a] + rest) == TakeAll(Take(x, a), rest)
  {
    assert ([a] + rest)[1..] == rest;
  }

  lemma LabellingIsMicroRun(cfg: Config, s: AccountState, id: MsgId, name: string, io: MessageInput)
    ensures
      var x, run := Shared(Checked(id), s), LabellingSteps(cfg, s, id, name, io);
      EnabledRun(x, run) && TakeAll(x, run) == Shared(Idle, LabelAndRecord(cfg, s, id, name, io).state)
  {
    hide GetOrCreateLabel, AddLabelsErr, AddLabel, InsertRow, Note;
    var got := GetOrCreateLabel(cfg.policy, LabelTables(s), name, io.labelIO);
    var x := Shared(Checked(id), s);
    var used := Take(x, UseLabel(got.state));
    if got.reply.Fail? {
      TakeOne(used, GiveUp, []);
      TakeOne(x, UseLabel(got.state), [GiveUp]);
    } else {
      var l := got.reply.value;
      var run := RecordingSteps(id, l, io);
      if AddLabelsErr(id, io.addErr).Some? {
        TakeOne(used, GiveUp, []);
        TakeOne(Take(used, ApplyUnheard(l)), GiveUp, []);
        TakeOne(used, ApplyUnheard(l), [GiveUp]);
        assert [] + [GiveUp] == [GiveUp];
      } else {
        var last := if io.recordErr.Some? then RecordFails else Record(io.now);
        TakeOne(Take(used, Apply(l)), last, []);
        TakeOne(used, Apply(l), [last]);
        assert run == [Apply(l)] + [last];
      }
      TakeOne(x, UseLabel(got.state), run);
    }
  }

  /** What ProcessMessage does is one run of these steps, with nothing in between. */
  lemma MessageIsMicroRun(cfg: Config, s: AccountState, id: MsgId, io: MessageInput)
    ensures
      var x, run := Shared(Idle, s), StepsOf(cfg, s, id, io);
      EnabledRun(x, run) && TakeAll(x, run) == Shared(Idle, ProcessMessage(cfg, s, id, io).state)
  {
    hide LabelAndRecord, LabellingSteps, GetMessageErr, HasAILabel, LabelFor;
    if io.existsErr.None? {
      var x, checked := Shared(Idle, s), Shared(Checked(id), s);
      if id in s.rows {
        TakeOne(x, Check(id), []);
      } else {
        if io.decision.Ok? {
          LabellingIsMicroRun(cfg, s, id, LabelFor(cfg, io.decision.value), io);
        }
        TakeOne(checked, GiveUp, []);
        TakeOne(checked, Finish(HadAILabel), []);
        TakeOne(checked, Finish(Previewed), []);
        TakeOne(checked, Record(io.now), []);
        var run := StepsAfterCheck(cfg, s, id, io);
        assert run == [GiveUp] ==> run == [GiveUp] + [];
        assert run == [Finish(HadAILabel)] ==> run == [Finish(HadAILabel)] + [];
        assert run == [Finish(Previewed)] ==> run == [Finish(Previewed)] + [];
        assert run == [Record(io.now)] ==> run == [Record(io.now)] + [];
        TakeOne(x, Check(id), run);
      }
    }
  }
}
