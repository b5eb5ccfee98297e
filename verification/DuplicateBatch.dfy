/** Ids that retried listings left twice in a batch do no harm. */
module DuplicateBatch {
  import opened Errors
  import opened HistorySync
  import opened Labels
  import opened AccountModel
  import opened Growth
  import opened Accounting

  // ---------------------------------------------------------------- neither log nor cursor matters to a batch

  /** The same rows, label cache, label table and labels on messages. */
  predicate SameTables(s: AccountState, t: AccountState) {
    s.rows == t.rows && s.cache == t.cache && s.server == t.server && s.onMessage == t.onMessage
  }

  lemma WritesIgnoreLog(s: AccountState, t: AccountState, id: MsgId, labelId: LabelId, now: Time)
    requires SameTables(s, t)
    ensures SameTables(AddLabel(s, id, labelId), AddLabel(t, id, labelId))
    ensures SameTables(InsertRow(s, id, now), InsertRow(t, id, now))
  {
  }

  lemma NoteIgnoresLog(s: AccountState, t: AccountState, e: Event)
    requires SameTables(s, t)
    ensures SameTables(Note(s, e), Note(t, e))
  {
  }

  lemma LabelAndRecordIgnoresLog(cfg: Config, s: AccountState, t: AccountState, id: MsgId, name: string, io: MessageInput)
    requires SameTables(s, t)
    ensures
      var a, b := LabelAndRecord(cfg, s, id, name, io), LabelAndRecord(cfg, t, id, name, io);
      SameTables(a.state, b.state) && a.err == b.err
  {
    hide GetOrCreateLabel, AddLabelsErr;
    assert LabelTables(s) == LabelTables(t);
    var got := GetOrCreateLabel(cfg.policy, LabelTables(s), name, io.labelIO);
    var s', t' := WithLabelTables(s, got.state), WithLabelTables(t, got.state);
    assert SameTables(s', t');
    hide SameTables, AddLabel, InsertRow, Note, LabelTables, WithLabelTables;
    if got.reply.Ok? {
      var l := got.reply.value;
      WritesIgnoreLog(s', t', id, l, io.now);
      var a, b := AddLabel(s', id, l), AddLabel(t', id, l);
      NoteIgnoresLog(a, b, LabelApplied(id));
      a, b := Note(a, LabelApplied(id)), Note(b, LabelApplied(id));
      NoteIgnoresLog(a, b, RecordFailed(id));
      WritesIgnoreLog(a, b, id, l, io.now);
      NoteIgnoresLog(InsertRow(a, id, io.now), InsertRow(b, id, io.now), Fated(id, Recorded));
    }
  }

  lemma SkipFates(cfg: Config, s: AccountState, id: MsgId, io: MessageInput)
    ensures match SkipReason(cfg, s, id, io)
            case Ok(Some(fate)) => fate.HadRow? || fate.HadAILabel?
            case _ => true
  {
    hide GetMessageErr, HasAILabel;
  }

  lemma SkipIgnoresLog(cfg: Config, s: AccountState, t: AccountState, id: MsgId, io: MessageInput)
    requires SameTables(s, t)
    ensures SkipReason(cfg, s, id, io) == SkipReason(cfg, t, id, io)
  {
    hide GetMessageErr;
  }

  lemma MessageIgnoresLog(cfg: Config, s: AccountState, t: AccountState, id: MsgId, io: MessageInput)
    requires SameTables(s, t)
    ensures
      var a, b := ProcessMessage(cfg, s, id, io), ProcessMessage(cfg, t, id, io);
      SameTables(a.state, b.state) && a.err == b.err
  {
    hide LabelAndRecord, GetMessageErr, LabelFor, SkipReason, InsertRow, Note, SameTables;
    SkipIgnoresLog(cfg, s, t, id, io);
    NoteIgnoresLog(s, t, Fated(id, HadRow));
    NoteIgnoresLog(s, t, Fated(id, HadAILabel));
    NoteIgnoresLog(s, t, Fated(id, Previewed));
    WritesIgnoreLog(s, t, id, "", io.now);
    NoteIgnoresLog(InsertRow(s, id, io.now), InsertRow(t, id, io.now), Fated(id, Recorded));
    SkipFates(cfg, s, id, io);
    if io.decision.Ok? {
      LabelAndRecordIgnoresLog(cfg, s, t, id, LabelFor(cfg, io.decision.value), io);
    }
  }

  lemma TurnIgnoresLog(cfg: Config, s: AccountState, t: AccountState, w: Work)
    requires SameTables(s, t)
    ensures
      var a, b := TakeTurn(cfg, s, w), TakeTurn(cfg, t, w);
      SameTables(a.state, b.state) && a.processed == b.processed && a.cancelled == b.cancelled
  {
    hide ProcessMessage, IsRateLimitError;
    MessageIgnoresLog(cfg, s, t, w.id, w.turn.first);
    var a := ProcessMessage(cfg, s, w.id, w.turn.first).state;
    var b := ProcessMessage(cfg, t, w.id, w.turn.first).state;
    MessageIgnoresLog(cfg, a, b, w.id, w.turn.second);
  }

  lemma {:induction false} BatchIgnoresLog(cfg: Config, s: AccountState, t: AccountState, work: seq<Work>)
    requires SameTables(s, t)
    ensures
      var a, b := Batch(cfg, s, work), Batch(cfg, t, work);
      SameTables(a.state, b.state) && a.processed == b.processed && a.cancelled == b.cancelled
    decreases |work|
  {
    hide TakeTurn;
    if work != [] {
      TurnIgnoresLog(cfg, s, t, work[0]);
      BatchIgnoresLog(cfg, TakeTurn(cfg, s, work[0]).state, TakeTurn(cfg, t, work[0]).state, work[1..]);
    }
  }

  // ---------------------------------------------------------------- settled ids are left alone

  lemma SettledMessageUntouched(cfg: Config, s: AccountState, id: MsgId, io: MessageInput)
    requires Settled(cfg, s, id)
    ensures SameTables(s, ProcessMessage(cfg, s, id, io).state)
  {
    hide LabelAndRecord, GetMessageErr, LabelFor;
  }

  lemma SettledTurnUntouched(cfg: Config, s: AccountState, w: Work)
    requires Settled(cfg, s, w.id)
    ensures SameTables(s, TakeTurn(cfg, s, w).state)
  {
    hide ProcessMessage, IsRateLimitError;
    SettledMessageUntouched(cfg, s, w.id, w.turn.first);
    SettledMessageUntouched(cfg, ProcessMessage(cfg, s, w.id, w.turn.first).state, w.id, w.turn.second);
  }

  lemma CountedIsSettled(cfg: Config, s: AccountState, w: Work)
    requires !cfg.dryRun && TakeTurn(cfg, s, w).processed == 1
    ensures Settled(cfg, TakeTurn(cfg, s, w).state, w.id)
  {
    hide TakeTurn, TurnFate, FateEvents, HasAILabel;
    TurnHasOneFate(cfg, s, w);
  }

  // ---------------------------------------------------------------- batches without an error

  /** Every turn of the batch counts: no message fails and nothing is cancelled. */
  predicate AllCounted(cfg: Config, s: AccountState, work: seq<Work>)
    decreases |work|
  {
    work == [] ||
    var turn := TakeTurn(cfg, s, work[0]);
    turn.processed == 1 && !turn.cancelled && AllCounted(cfg, turn.state, work[1..])
  }

  lemma {:induction false} AllCountedIffFullCount(cfg: Config, s: AccountState, work: seq<Work>)
    ensures Batch(cfg, s, work).processed <= |work|
    ensures AllCounted(cfg, s, work) <==> Batch(cfg, s, work).processed == |work|
    decreases |work|
  {
    hide TakeTurn, TurnFate, FateEvents;
    if work != [] {
      TurnHasOneFate(cfg, s, work[0]);
      AllCountedIffFullCount(cfg, TakeTurn(cfg, s, work[0]).state, work[1..]);
    }
  }

  lemma {:induction false} AllCountedIgnoresLog(cfg: Config, s: AccountState, t: AccountState, work: seq<Work>)
    requires SameTables(s, t) && AllCounted(cfg, s, work)
    ensures AllCounted(cfg, t, work)
  {
    AllCountedIffFullCount(cfg, s, work);
    AllCountedIffFullCount(cfg, t, work);
    BatchIgnoresLog(cfg, s, t, work);
  }

  /** The work without its entries for one id. */
  function Without(work: seq<Work>, id: MsgId): (rest: seq<Work>)
    ensures |rest| <= |work|
  {
    if work == [] then []
    else (if work[0].id == id then [] else [work[0]]) + Without(work[1..], id)
  }

  /** The work with only the first entry for each id kept. */
  function FirstOccurrences(work: seq<Work>): seq<Work>
    decreases |work|
  {
    if work == [] then [] else [work[0]] + FirstOccurrences(Without(work[1..], work[0].id))
  }

  /** The same end: the same tables, and every turn counts. */
  ghost predicate SameEnd(cfg: Config, s: AccountState, work: seq<Work>, fewer: seq<Work>) {
    AllCounted(cfg, s, fewer) && SameTables(Batch(cfg, s, work).state, Batch(cfg, s, fewer).state)
  }

  /** The entries for an id that is already settled can be left out. */
  lemma {:induction false} DropSettled(cfg: Config, s: AccountState, work: seq<Work>, id: MsgId)
    requires !cfg.dryRun && Settled(cfg, s, id) && AllCounted(cfg, s, work)
    ensures SameEnd(cfg, s, work, Without(work, id))
    decreases |work|
  {
    hide TakeTurn, Settled;
    if work != [] {
      var turn, rest := TakeTurn(cfg, s, work[0]), work[1..];
      TurnGrows(cfg, s, work[0]);
      StaysSettled(cfg, s, turn.state, id);
      DropSettled(cfg, turn.state, rest, id);
      var fewer := Without(rest, id);
      if work[0].id == id {
        SettledTurnUntouched(cfg, s, work[0]);
        BatchIgnoresLog(cfg, turn.state, s, fewer);
        AllCountedIgnoresLog(cfg, turn.state, s, fewer);
        assert Without(work, id) == fewer;
      } else {
        assert Without(work, id) == [work[0]] + fewer;
        assert ([work[0]] + fewer)[1..] == fewer;
      }
    }
  }

  /**
   * A batch in which every message counts ends with the same rows, label cache, label table and labels
   * on messages as the batch with only the first entry for each id; there, too, every message counts.
   */
  lemma {:induction false} DuplicatesAreHarmless(cfg: Config, s: AccountState, work: seq<Work>)
    requires !cfg.dryRun && Batch(cfg, s, work).processed == |work|
    ensures
      var once := FirstOccurrences(work);
      && SameTables(Batch(cfg, s, work).state, Batch(cfg, s, once).state)
      && Batch(cfg, s, once).processed == |once|
    decreases |work|
  {
    hide TakeTurn, Settled;
    AllCountedIffFullCount(cfg, s, work);
    if work != [] {
      var turn, rest := TakeTurn(cfg, s, work[0]), work[1..];
      var fewer := Without(rest, work[0].id);
      CountedIsSettled(cfg, s, work[0]);
      DropSettled(cfg, turn.state, rest, work[0].id);
      AllCountedIffFullCount(cfg, turn.state, fewer);
      DuplicatesAreHarmless(cfg, turn.state, fewer);
      var once := FirstOccurrences(work);
      assert once[1..] == FirstOccurrences(fewer);
    }
  }

  lemma {:induction false} WithoutContents(work: seq<Work>, id: MsgId)
    ensures forall w :: w in Without(work, id) <==> w in work && w.id != id
  {
    if work != [] {
      WithoutContents(work[1..], id);
    }
  }

  lemma {:induction false} KeptWork(work: seq<Work>, w: Work)
    ensures w in FirstOccurrences(work) ==> w in work
    decreases |work|
  {
    if work != [] {
      WithoutContents(work[1..], work[0].id);
      KeptWork(Without(work[1..], work[0].id), w);
    }
  }

  /** Every id of the work is kept … */
  lemma {:induction false} EveryIdIsKept(work: seq<Work>, w: Work)
    requires w in work
    ensures exists v :: v in FirstOccurrences(work) && v.id == w.id
    decreases |work|
  {
    var once := FirstOccurrences(work);
    if w.id == work[0].id {
      assert once[0] in once;
    } else {
      var fewer := Without(work[1..], work[0].id);
      WithoutContents(work[1..], work[0].id);
      EveryIdIsKept(fewer, w);
      var v :| v in FirstOccurrences(fewer) && v.id == w.id;
      assert v in once;
    }
  }

  /** … and kept once. */
  lemma {:induction false} NoIdIsKeptTwice(work: seq<Work>, i: nat, j: nat)
    requires i < j < |FirstOccurrences(work)|
    ensures FirstOccurrences(work)[i].id != FirstOccurrences(work)[j].id
    decreases |work|
  {
    var fewer := Without(work[1..], work[0].id);
    var once, kept := FirstOccurrences(work), FirstOccurrences(fewer);
    assert once == [work[0]] + kept;
    if i == 0 {
      KeptWork(fewer, kept[j - 1]);
      WithoutContents(work[1..], work[0].id);
    } else {
      NoIdIsKeptTwice(fewer, i - 1, j - 1);
    }
  }
}
