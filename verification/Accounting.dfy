/** Every fetched id is accounted for exactly once, and an id that counts is settled. */
module Accounting {
  import opened Errors
  import opened RetryEngine
  import opened HistorySync
  import opened Labels
  import opened AccountModel
  import opened Growth

  /** The fates in a log, in order. */
  function FateEvents(log: seq<Event>): seq<Event> {
    if log == [] then []
    else
      var last := log[|log| - 1];
      FateEvents(log[..|log| - 1]) + if last.Fated? then [last] else []
  }

  predicate Done(fate: Fate) {
    fate.Recorded? || fate.HadRow? || fate.HadAILabel? || fate.Previewed?
  }

  function CountDone(fates: seq<Event>): nat {
    if fates == [] then 0
    else CountDone(fates[1..]) + if fates[0].Fated? && Done(fates[0].fate) then 1 else 0
  }

  function Count(fates: seq<Event>, fate: Fate): nat {
    if fates == [] then 0
    else Count(fates[1..], fate) + if fates[0].Fated? && fates[0].fate == fate then 1 else 0
  }

  // ---------------------------------------------------------------- one message, one turn

  lemma NoteFate(s: AccountState, e: Event)
    ensures FateEvents(Note(s, e).log) == FateEvents(s.log) + if e.Fated? then [e] else []
  {
    assert (s.log + [e])[..|s.log|] == s.log;
  }

  lemma {:induction false} NoteFates(s: AccountState, ids: seq<MsgId>, fate: Fate)
    ensures FateEvents(NoteAll(s, Fates(ids, fate)).log) == FateEvents(s.log) + Fates(ids, fate)
  {
    hide FateEvents;
    if ids == [] {
      assert s.log + Fates(ids, fate) == s.log;
    } else {
      var init := ids[..|ids| - 1];
      NoteFates(s, init, fate);
      var e := Fated(ids[|ids| - 1], fate);
      NoteFate(NoteAll(s, Fates(init, fate)), e);
      assert Fates(ids, fate) == Fates(init, fate) + [e];
      assert s.log + Fates(ids, fate) == s.log + Fates(init, fate) + [e];
    }
  }

  /** How a message that is processed without an error is done with. */
  function MessageFate(cfg: Config, s: AccountState, id: MsgId, io: MessageInput): Fate {
    match SkipReason(cfg, s, id, io)
    case Ok(Some(fate)) => fate
    case _ => if cfg.dryRun then Previewed else Recorded
  }

  /** What a fate says about the tables: a row for the id, or an AI label on the message. */
  predicate SettledBy(cfg: Config, s: AccountState, id: MsgId, fate: Fate) {
    match fate
    case Recorded => id in s.rows
    case HadRow => id in s.rows
    case HadAILabel => HasAILabel(cfg, s, id)
    case _ => true
  }

  lemma StaysSettledBy(cfg: Config, s: AccountState, s': AccountState, id: MsgId, fate: Fate)
    requires Grows(s, s') && SettledBy(cfg, s, id, fate)
    ensures SettledBy(cfg, s', id, fate)
  {
    if fate.HadAILabel? {
      var l :| l in LabelsOn(s, id) * cfg.aiLabels;
      assert l in LabelsOn(s', id) * cfg.aiLabels;
    }
  }

  lemma LabelAndRecordFate(cfg: Config, s: AccountState, id: MsgId, name: string, io: MessageInput)
    ensures
      var r := LabelAndRecord(cfg, s, id, name, io);
      && (r.err.None? ==> id in r.state.rows)
      && FateEvents(r.state.log) == FateEvents(s.log) + if r.err.None? then [Fated(id, Recorded)] else []
  {
    hide GetOrCreateLabel, FateEvents;
    var got := GetOrCreateLabel(cfg.policy, LabelTables(s), name, io.labelIO);
    if got.reply.Ok? {
      var labelled := AddLabel(WithLabelTables(s, got.state), id, got.reply.value);
      var applied := Note(labelled, LabelApplied(id));
      NoteFate(labelled, LabelApplied(id));
      NoteFate(applied, RecordFailed(id));
      NoteFate(InsertRow(applied, id, io.now), Fated(id, Recorded));
    }
  }

  /** A message ends in an error and no fate, or in one fate; unless it was only previewed it is then settled. */
  lemma MessageHasOneFate(cfg: Config, s: AccountState, id: MsgId, io: MessageInput)
    ensures
      var r := ProcessMessage(cfg, s, id, io);
      var fate := MessageFate(cfg, s, id, io);
      && Done(fate) && (fate.Previewed? ==> cfg.dryRun)
      && (r.err.None? ==> SettledBy(cfg, r.state, id, fate))
      && FateEvents(r.state.log) == FateEvents(s.log) + if r.err.None? then [Fated(id, fate)] else []
  {
    hide LabelAndRecord, GetMessageErr, LabelFor, FateEvents;
    match SkipReason(cfg, s, id, io)
    case Fail(_) =>
    case Ok(Some(fate)) => NoteFate(s, Fated(id, fate));
    case Ok(None) =>
      NoteFate(s, Fated(id, Previewed));
      NoteFate(InsertRow(s, id, io.now), Fated(id, Recorded));
      if io.decision.Ok? {
        LabelAndRecordFate(cfg, s, id, LabelFor(cfg, io.decision.value), io);
      }
  }

  function TurnFate(cfg: Config, s: AccountState, w: Work): Fate {
    if w.turn.cancelled then Unreached
    else
      var r := ProcessMessage(cfg, s, w.id, w.turn.first);
      if r.err.None? then MessageFate(cfg, s, w.id, w.turn.first)
      else if !IsRateLimitError(r.err.value) || w.turn.pauseCancelled then Failed
      else if ProcessMessage(cfg, r.state, w.id, w.turn.second).err.None? then
        MessageFate(cfg, r.state, w.id, w.turn.second)
      else Failed
  }

  lemma TurnHasOneFate(cfg: Config, s: AccountState, w: Work)
    ensures
      var turn := TakeTurn(cfg, s, w);
      var fate := TurnFate(cfg, s, w);
      && FateEvents(turn.state.log) == FateEvents(s.log) + [Fated(w.id, fate)]
      && !fate.Throttled? && (fate.Previewed? ==> cfg.dryRun)
      && turn.processed == (if Done(fate) then 1 else 0)
      && SettledBy(cfg, turn.state, w.id, fate)
      && (turn.cancelled ==> fate == Unreached || fate == Failed)
  {
    hide ProcessMessage, IsRateLimitError, MessageFate, HasAILabel, FateEvents;
    NoteFate(s, Fated(w.id, Unreached));
    MessageHasOneFate(cfg, s, w.id, w.turn.first);
    var r := ProcessMessage(cfg, s, w.id, w.turn.first).state;
    NoteFate(r, Fated(w.id, Failed));
    MessageHasOneFate(cfg, r, w.id, w.turn.second);
    NoteFate(ProcessMessage(cfg, r, w.id, w.turn.second).state, Fated(w.id, Failed));
  }

  // ---------------------------------------------------------------- one batch

  /** The fate of every piece of work, in order. */
  function BatchFates(cfg: Config, s: AccountState, work: seq<Work>): seq<Event>
    decreases |work|
  {
    if work == [] then []
    else
      var turn := TakeTurn(cfg, s, work[0]);
      [Fated(work[0].id, TurnFate(cfg, s, work[0]))]
      + if turn.cancelled then Fates(Ids(work[1..]), Unreached) else BatchFates(cfg, turn.state, work[1..])
  }

  lemma {:induction false} CountOfFates(ids: seq<MsgId>, fate: Fate)
    ensures CountDone(Fates(ids, fate)) == if Done(fate) then |ids| else 0
    ensures forall f :: Count(Fates(ids, fate), f) == if f == fate then |ids| else 0
  {
    if ids != [] {
      CountOfFates(ids[1..], fate);
      assert Fates(ids, fate)[1..] == Fates(ids[1..], fate);
    }
  }

  lemma FatesLength(work: seq<Work>, fate: Fate)
    ensures |Fates(Ids(work), fate)| == |work|
  {
  }

  lemma Associate(a: seq<Event>, b: seq<Event>, c: seq<Event>)
    ensures a + b + c == a + (b + c)
  {
  }

  lemma {:induction false} BatchIsAccounted(cfg: Config, s: AccountState, work: seq<Work>)
    ensures
      var b := Batch(cfg, s, work);
      var fates := BatchFates(cfg, s, work);
      && FateEvents(b.state.log) == FateEvents(s.log) + fates
      && b.processed == CountDone(fates)
      && |fates| == |work|
    decreases |work|
  {
    hide TakeTurn, TurnFate, FateEvents, Fates, Ids;
    if work != [] {
      var turn := TakeTurn(cfg, s, work[0]);
      var rest := work[1..];
      TurnHasOneFate(cfg, s, work[0]);
      var fates := BatchFates(cfg, s, work);
      if turn.cancelled {
        NoteFates(turn.state, Ids(rest), Unreached);
        assert |Fates(Ids(rest), Unreached)| == |rest| by {
          FatesLength(rest, Unreached);
        }
        CountOfFates(Ids(rest), Unreached);
        var e, tail := Fated(work[0].id, TurnFate(cfg, s, work[0])), Fates(Ids(rest), Unreached);
        assert fates == [e] + tail && fates[1..] == tail;
        Associate(FateEvents(s.log), [e], tail);
      } else {
        BatchIsAccounted(cfg, turn.state, rest);
        var e, tail := Fated(work[0].id, TurnFate(cfg, s, work[0])), BatchFates(cfg, turn.state, rest);
        assert fates == [e] + tail && fates[1..] == tail;
        Associate(FateEvents(s.log), [e], tail);
      }
    }
  }

  /** Fate number i belongs to id number i, and what it says still holds when the batch ends. */
  lemma {:induction false} BatchFateAt(cfg: Config, s: AccountState, work: seq<Work>, i: nat)
    requires i < |work| == |BatchFates(cfg, s, work)|
    ensures
      var b, e := Batch(cfg, s, work).state, BatchFates(cfg, s, work)[i];
      && e.Fated? && e.id == work[i].id && !e.fate.Throttled?
      && (e.fate.Previewed? ==> cfg.dryRun)
      && SettledBy(cfg, b, e.id, e.fate)
    decreases |work|
  {
    hide TakeTurn, TurnFate, HasAILabel;
    var turn := TakeTurn(cfg, s, work[0]);
    TurnHasOneFate(cfg, s, work[0]);
    if !turn.cancelled {
      if i == 0 {
        BatchGrows(cfg, turn.state, work[1..]);
        StaysSettledBy(cfg, turn.state, Batch(cfg, s, work).state, work[0].id, TurnFate(cfg, s, work[0]));
      } else {
        BatchIsAccounted(cfg, turn.state, work[1..]);
        BatchFateAt(cfg, turn.state, work[1..], i - 1);
      }
    }
  }

  // ---------------------------------------------------------------- one tick of one account

  lemma {:induction false} FatesPartition(fates: seq<Event>)
    requires forall i | 0 <= i < |fates| :: fates[i].Fated?
    ensures CountDone(fates) + Count(fates, Failed) + Count(fates, Unreached) + Count(fates, Throttled) == |fates|
  {
    if fates != [] {
      FatesPartition(fates[1..]);
    }
  }

  lemma {:induction false} CountDoneConcat(a: seq<Event>, b: seq<Event>)
    ensures CountDone(a + b) == CountDone(a) + CountDone(b)
  {
    if a == [] {
      assert a + b == b;
    } else {
      CountDoneConcat(a[1..], b);
      assert (a + b)[1..] == a[1..] + b;
    }
  }

  /** The fates that a tick added to the log. */
  function NewFates(before: AccountState, after: AccountState): seq<Event> {
    if |FateEvents(before.log)| <= |FateEvents(after.log)| then FateEvents(after.log)[|FateEvents(before.log)|..] else []
  }

  /** The fates of all that was fetched: those of the batch, then the throttled tail. */
  function FetchedFates(cfg: Config, s: AccountState, ids: seq<MsgId>, turns: nat -> Turn): seq<Event> {
    var todo := Throttle(cfg, ids);
    BatchFates(cfg, s, WorkOf(todo, turns)) + Fates(ids[|todo|..], Throttled)
  }

  lemma FetchedIsAccounted(cfg: Config, s: AccountState, ids: seq<MsgId>, turns: nat -> Turn)
    ensures
      var b := RunFetched(cfg, s, ids, turns);
      var fates := NewFates(s, b.state);
      && FateEvents(b.state.log) == FateEvents(s.log) + fates
      && fates == FetchedFates(cfg, s, ids, turns)
      && |fates| == |ids|
      && (forall i | 0 <= i < |ids| ::
            && fates[i].Fated? && fates[i].id == ids[i]
            && (fates[i].fate.Previewed? ==> cfg.dryRun)
            && SettledBy(cfg, b.state, ids[i], fates[i].fate))
      && b.processed == CountDone(fates)
  {
    hide Batch, BatchFates, FateEvents, HasAILabel;
    var todo := Throttle(cfg, ids);
    var work := WorkOf(todo, turns);
    var batch := Batch(cfg, s, work).state;
    var tail := ids[|todo|..];
    var b := RunFetched(cfg, s, ids, turns).state;
    BatchIsAccounted(cfg, s, work);
    NoteFates(batch, tail, Throttled);
    CountOfFates(tail, Throttled);
    CountDoneConcat(BatchFates(cfg, s, work), Fates(tail, Throttled));
    assert FateEvents(b.log) == FateEvents(s.log) + (BatchFates(cfg, s, work) + Fates(tail, Throttled));
    var fates := NewFates(s, b);
    assert fates == BatchFates(cfg, s, work) + Fates(tail, Throttled);
    forall i | 0 <= i < |ids|
      ensures fates[i].Fated? && fates[i].id == ids[i]
      ensures fates[i].fate.Previewed? ==> cfg.dryRun
      ensures SettledBy(cfg, b, ids[i], fates[i].fate)
    {
      if i < |todo| {
        BatchFateAt(cfg, s, work, i);
        SameTablesSettledBy(cfg, batch, b, ids[i], fates[i].fate);
      }
    }
  }

  lemma SameTablesSettledBy(cfg: Config, s: AccountState, s': AccountState, id: MsgId, fate: Fate)
    requires s.rows == s'.rows && s.onMessage == s'.onMessage && SettledBy(cfg, s, id, fate)
    ensures SettledBy(cfg, s', id, fate)
  {
  }

  lemma DoneMeansSettled(cfg: Config, s: AccountState, s': AccountState, id: MsgId, fate: Fate)
    requires s.rows == s'.rows && s.onMessage == s'.onMessage && SettledBy(cfg, s, id, fate)
    requires Done(fate) && !fate.Previewed?
    ensures Settled(cfg, s', id)
  {
  }

  /**
   * Through throttling, the rate-limit retry and both cancellation exits: a tick gives every
   * fetched id exactly one fate, in the order fetched. The count it returns is the number of ids
   * done with, and with the failed, the unreached and the throttled ones it makes up all that was
   * fetched. An id counted outside dry-run mode has its row, or an AI label, when the tick ends.
   */
  lemma TickIsAccounted(cfg: Config, s: AccountState, known: string, io: AccountInput)
    requires !io.cancelled && io.clientErr.None? && FetchNewMessageIds(cfg.policy, known, io.sync).Ok?
    ensures
      var ids := FetchNewMessageIds(cfg.policy, known, io.sync).value.ids;
      var r := ProcessAccount(cfg, s, known, io);
      var fates := NewFates(s, r.state);
      && FateEvents(r.state.log) == FateEvents(s.log) + fates
      && |fates| == |ids|
      && (forall i | 0 <= i < |ids| ::
            && fates[i].Fated? && fates[i].id == ids[i]
            && (Done(fates[i].fate) && !cfg.dryRun ==> Settled(cfg, r.state, ids[i])))
      && r.processed == CountDone(fates)
      && r.processed + Count(fates, Failed) + Count(fates, Unreached) + Count(fates, Throttled) == |ids|
  {
    hide FetchNewMessageIds, RunFetched, FateEvents, FetchedFates, Settled, SettledBy, Count, CountDone;
    var ids := FetchNewMessageIds(cfg.policy, known, io.sync).value.ids;
    var r, fetched := ProcessAccount(cfg, s, known, io).state, RunFetched(cfg, s, ids, io.turns).state;
    FetchedIsAccounted(cfg, s, ids, io.turns);
    assert NewFates(s, r) == NewFates(s, fetched);
    FatesPartition(NewFates(s, r));
    forall i | 0 <= i < |ids| && Done(NewFates(s, r)[i].fate) && !cfg.dryRun
      ensures Settled(cfg, r, ids[i])
    {
      DoneMeansSettled(cfg, fetched, r, ids[i], NewFates(s, r)[i].fate);
    }
  }

  /** The limit cuts off the tail: an id is throttled exactly if a limit many come before it. */
  lemma ThrottledExactly(cfg: Config, s: AccountState, known: string, io: AccountInput, i: nat)
    requires !io.cancelled && io.clientErr.None? && FetchNewMessageIds(cfg.policy, known, io.sync).Ok?
    requires i < |FetchNewMessageIds(cfg.policy, known, io.sync).value.ids|
    ensures
      var fates := NewFates(s, ProcessAccount(cfg, s, known, io).state);
      && i < |fates| && fates[i].Fated?
      && (fates[i].fate.Throttled? <==> match cfg.maxMessages
                                        case None => i >= 50
                                        case Some(limit) => limit > 0 && i >= limit)
  {
    hide FetchNewMessageIds, Batch, BatchFates, FateEvents, HasAILabel;
    var ids := FetchNewMessageIds(cfg.policy, known, io.sync).value.ids;
    var work := WorkOf(Throttle(cfg, ids), io.turns);
    FetchedIsAccounted(cfg, s, ids, io.turns);
    BatchIsAccounted(cfg, s, work);
    assert NewFates(s, ProcessAccount(cfg, s, known, io).state) == FetchedFates(cfg, s, ids, io.turns);
    if i < |work| {
      BatchFateAt(cfg, s, work, i);
    }
  }

  // ---------------------------------------------------------------- dry-run mode

  predicate DiffersInLogOnly(s: AccountState, s': AccountState) {
    s' == s.(log := s'.log)
  }

  lemma MessageInDryRun(cfg: Config, s: AccountState, id: MsgId, io: MessageInput)
    requires cfg.dryRun
    ensures DiffersInLogOnly(s, ProcessMessage(cfg, s, id, io).state)
  {
    hide GetMessageErr, HasAILabel, LabelAndRecord;
  }

  lemma TurnInDryRun(cfg: Config, s: AccountState, w: Work)
    requires cfg.dryRun
    ensures DiffersInLogOnly(s, TakeTurn(cfg, s, w).state)
  {
    hide IsRateLimitError, ProcessMessage;
    MessageInDryRun(cfg, s, w.id, w.turn.first);
    MessageInDryRun(cfg, ProcessMessage(cfg, s, w.id, w.turn.first).state, w.id, w.turn.second);
  }

  lemma {:induction false} BatchInDryRun(cfg: Config, s: AccountState, work: seq<Work>)
    requires cfg.dryRun
    ensures DiffersInLogOnly(s, Batch(cfg, s, work).state)
    decreases |work|
  {
    hide TakeTurn;
    if work != [] {
      TurnInDryRun(cfg, s, work[0]);
      BatchInDryRun(cfg, TakeTurn(cfg, s, work[0]).state, work[1..]);
    }
  }

  /** A dry run writes no row, no label and no cache entry; yet it moves the cursor past what it previewed. */
  lemma DryRunWritesOnlyTheCursor(cfg: Config, s: AccountState, known: string, io: AccountInput)
    requires cfg.dryRun
    ensures
      var after := ProcessAccount(cfg, s, known, io).state;
      var fetched := FetchNewMessageIds(cfg.policy, known, io.sync);
      && DiffersInLogOnly(s.(cursor := after.cursor), after)
      && (!io.cancelled && io.clientErr.None? && io.cursorErr.None?
          && fetched.Ok? && CursorMoves(known, fetched.value.nextHistoryId)
          ==> after.cursor == fetched.value.nextHistoryId)
  {
    hide FetchNewMessageIds, Batch;
    var fetched := FetchNewMessageIds(cfg.policy, known, io.sync);
    if fetched.Ok? {
      BatchInDryRun(cfg, s, WorkOf(Throttle(cfg, fetched.value.ids), io.turns));
    }
  }
}
