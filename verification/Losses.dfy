/** How a tick passes over messages: the cursor moves whatever became of them. */
module Losses {
  import opened Errors
  import opened Decimal
  import opened RetryEngine
  import opened HistorySync
  import opened Labels
  import opened AccountModel
  import opened Growth
  import opened Accounting
  import opened NoLoss
  import opened HistoryProperties
  import Seqs

  // ---------------------------------------------------------------- a row means a recorded fate

  /** The rows after a message or a turn, in terms of its fate. */
  predicate RowsAfter(rows: map<MsgId, Time>, id: MsgId, recorded: bool, rows': map<MsgId, Time>) {
    rows'.Keys == if recorded then rows.Keys + {id} else rows.Keys
  }

  lemma LabelAndRecordRows(cfg: Config, s: AccountState, id: MsgId, name: string, io: MessageInput)
    ensures
      var r := LabelAndRecord(cfg, s, id, name, io);
      RowsAfter(s.rows, id, r.err.None?, r.state.rows)
  {
    hide GetOrCreateLabel, AddLabelsErr;
  }

  lemma MessageRows(cfg: Config, s: AccountState, id: MsgId, io: MessageInput)
    ensures
      var r := ProcessMessage(cfg, s, id, io);
      RowsAfter(s.rows, id, r.err.None? && MessageFate(cfg, s, id, io).Recorded?, r.state.rows)
  {
    hide LabelAndRecord, GetMessageErr, HasAILabel, LabelFor;
    if io.decision.Ok? {
      LabelAndRecordRows(cfg, s, id, LabelFor(cfg, io.decision.value), io);
    }
  }

  lemma TurnRows(cfg: Config, s: AccountState, w: Work)
    ensures RowsAfter(s.rows, w.id, TurnFate(cfg, s, w).Recorded?, TakeTurn(cfg, s, w).state.rows)
  {
    hide ProcessMessage, MessageFate, IsRateLimitError;
    MessageRows(cfg, s, w.id, w.turn.first);
    MessageRows(cfg, ProcessMessage(cfg, s, w.id, w.turn.first).state, w.id, w.turn.second);
  }

  lemma {:induction false} BatchRows(cfg: Config, s: AccountState, work: seq<Work>, id: MsgId)
    ensures id in Batch(cfg, s, work).state.rows <==> id in s.rows || Fated(id, Recorded) in BatchFates(cfg, s, work)
    decreases |work|
  {
    hide TakeTurn, TurnFate;
    if work != [] {
      var turn := TakeTurn(cfg, s, work[0]);
      TurnRows(cfg, s, work[0]);
      if !turn.cancelled {
        BatchRows(cfg, turn.state, work[1..], id);
      } else {
        CancelledTurnFate(cfg, s, work[0]);
        NotAmongFates(Ids(work[1..]), Unreached, id);
      }
    }
  }

  lemma CancelledTurnFate(cfg: Config, s: AccountState, w: Work)
    requires TakeTurn(cfg, s, w).cancelled
    ensures !TurnFate(cfg, s, w).Recorded?
  {
    hide ProcessMessage, MessageFate, IsRateLimitError;
  }

  lemma NotAmongFates(ids: seq<MsgId>, fate: Fate, id: MsgId)
    requires fate != Recorded
    ensures Fated(id, Recorded) !in Fates(ids, fate)
  {
  }

  /**
   * When the cursor write succeeds, the cursor stands past the whole fetched batch, while a row
   * exists only for the ids that had one or were recorded: every other id, be it throttled,
   * failed or left over by a cancellation, is passed over.
   */
  lemma CursorPassesOverUnrecorded(cfg: Config, s: AccountState, known: string, io: AccountInput, id: MsgId)
    requires !io.cancelled && io.clientErr.None? && io.cursorErr.None?
    requires FetchNewMessageIds(cfg.policy, known, io.sync).Ok?
    requires CursorMoves(known, FetchNewMessageIds(cfg.policy, known, io.sync).value.nextHistoryId)
    ensures
      var after := ProcessAccount(cfg, s, known, io).state;
      && after.cursor == FetchNewMessageIds(cfg.policy, known, io.sync).value.nextHistoryId
      && (id in after.rows <==> id in s.rows || Fated(id, Recorded) in NewFates(s, after))
  {
    hide FetchNewMessageIds, Batch, BatchFates, FateEvents;
    var ids := FetchNewMessageIds(cfg.policy, known, io.sync).value.ids;
    var todo := Throttle(cfg, ids);
    var work := WorkOf(todo, io.turns);
    var fates, tail := BatchFates(cfg, s, work), Fates(ids[|todo|..], Throttled);
    var after := ProcessAccount(cfg, s, known, io).state;
    BatchRows(cfg, s, work, id);
    BatchIsAccounted(cfg, s, work);
    NoteFates(Batch(cfg, s, work).state, ids[|todo|..], Throttled);
    Associate(FateEvents(s.log), fates, tail);
    assert NewFates(s, after) == fates + tail;
    NotAmongFates(ids[|todo|..], Throttled, id);
  }

  // ---------------------------------------------------------------- where a run begins

  /** The first tick of an account only notes where the mailbox stands; from there on it is tracked. */
  lemma FirstTickStartsTracking(cfg: Config, s: AccountState, io: AccountInput, h: History, n: nat)
    requires s.cursor == "" && Increasing(h) && SnapshotFrom(h, n, 0)
    requires io.sync.profile.historyId == CurrentId(h[..n])
    requires !io.cancelled && io.clientErr.None? && io.cursorErr.None?
    requires RunFrom(cfg.policy, io.sync.profile.script, 0).err.None?
    ensures
      var after := ProcessAccount(cfg, s, s.cursor, io);
      && after.processed == 0 && after.err.None?
      && after.state == s.(cursor := Print(CurrentId(h[..n])))
      && Tracked(MailState(after.state, h, CurrentId(h[..n]), {}))
  {
    hide RunFrom;
    PrintReadsBack(CurrentId(h[..n]));
    SnapshotId(h, n);
    var noFates := Fates([], Throttled);
    assert s.log + noFates == s.log;
    assert Throttle(cfg, []) == [];
    assert WorkOf([], io.turns) == [];
  }

  // ---------------------------------------------------------------- a cancelled loop

  /** A loop that sees the cancellation leaves at least one id undone. */
  lemma {:induction false} CancelledLeavesOne(cfg: Config, s: AccountState, work: seq<Work>)
    requires Batch(cfg, s, work).cancelled
    ensures Batch(cfg, s, work).processed < |work|
    decreases |work|
  {
    hide TakeTurn, TurnFate;
    var turn := TakeTurn(cfg, s, work[0]);
    TurnHasOneFate(cfg, s, work[0]);
    if !turn.cancelled {
      CancelledLeavesOne(cfg, turn.state, work[1..]);
    }
  }

  /** Cancelled before its first turn, a loop only notes every id as not reached. */
  lemma CancelledAtOnce(cfg: Config, s: AccountState, ids: seq<MsgId>, turns: nat -> Turn)
    requires ids != [] && turns(0).cancelled
    ensures
      var todo := Throttle(cfg, ids);
      && todo != []
      && RunFetched(cfg, s, ids, turns).state
         == NoteAll(NoteAll(s, Fates(todo, Unreached)), Fates(ids[|todo|..], Throttled))
  {
    var todo := Throttle(cfg, ids);
    var work := WorkOf(todo, turns);
    var rest := Fates(Ids(work[1..]), Unreached);
    assert Fates(todo, Unreached) == [Fated(todo[0], Unreached)] + rest;
    assert s.log + [Fated(todo[0], Unreached)] + rest == s.log + Fates(todo, Unreached);
  }

  /** The tick goes well up to its messages, brings a new cursor, and writes it. */
  predicate SavesNewCursor(cfg: Config, known: string, io: AccountInput) {
    && !io.cancelled && io.clientErr.None? && io.cursorErr.None?
    && FetchNewMessageIds(cfg.policy, known, io.sync).Ok?
    && CursorMoves(known, FetchNewMessageIds(cfg.policy, known, io.sync).value.nextHistoryId)
  }

  /**
   * A tick that is cancelled before its first message saves the cursor of the whole batch all the same:
   * every message up to the new cursor is missed, and none got a row or a label.
   */
  lemma CancelledTickMissesAll(m: MailState, cfg: Config, io: AccountInput, view: View)
    requires Tracked(m) && m.account.log == [] && m.account.cursor != "" && !FallsBack(cfg.policy, io.sync)
    requires HonestSync(cfg.policy, io.sync, m.history, view, m.upTo)
    requires SavesNewCursor(cfg, m.account.cursor, io) && io.turns(0).cancelled
    requires FetchNewMessageIds(cfg.policy, m.account.cursor, io.sync).value.ids != []
    ensures
      var after := NextMail(m, Do(Tick(cfg, io), view));
      && after.upTo == FetchedUpTo(m, cfg, io, view)
      && Missed(m.upTo, after) == AddedBetween(m.history, m.upTo, after.upTo)
      && after.account.rows == m.account.rows && after.account.onMessage == m.account.onMessage
  {
    hide FetchNewMessageIds, RunFetched, HonestSync, FetchedUpTo, FallsBack, AddedBetween, CurrentId, TickGap, ParseUint, Print;
    var fetched := FetchNewMessageIds(cfg.policy, m.account.cursor, io.sync).value;
    var after := NextMail(m, Do(Tick(cfg, io), view));
    HonestFetch(m, cfg, io, view);
    PrintReadsBack(FetchedUpTo(m, cfg, io, view));
    ParseUintOfPrint(FetchedUpTo(m, cfg, io, view));
    CancelledAtOnce(cfg, m.account, fetched.ids, io.turns);
    var todo := Throttle(cfg, fetched.ids);
    var log := after.account.log;
    assert log == m.account.log + Fates(todo, Unreached) + Fates(fetched.ids[|todo|..], Throttled);
    NoneHandled(todo, fetched.ids[|todo|..]);
    hide Handled;
  }

  lemma NoneHandled(unreached: seq<MsgId>, throttled: seq<MsgId>)
    ensures forall id :: !Handled([] + Fates(unreached, Unreached) + Fates(throttled, Throttled), id)
  {
    var log := [] + Fates(unreached, Unreached) + Fates(throttled, Throttled);
    assert forall e | e in log :: e.Fated? && !Done(e.fate);
  }

  // ---------------------------------------------------------------- such a run

  const TWO_RECORDS: History := [Record(1, ["a"]), Record(2, ["b"])]

  /** An account that was tracked up to the first of two messages. */
  const TRACKED: MailState := MailState(AccountState("1", map[], map[], map[], map[], []), TWO_RECORDS, 1, {})

  function Succeeds(): Script {
    (k: nat) => Attempt(None, None, 0, false)
  }

  /** The tick lists the second message, and is cancelled before it gets to it. */
  function CancelledInput(turn: Turn): AccountInput {
    AccountInput(
      false, None,
      SyncInput(
        Listing(Succeeds(), (k: nat) => [HistoryPage([[Message("b")]], 2)]),
        Listing(Succeeds(), (k: nat) => [MessagePage(["a", "b"])]),
        Profile(Succeeds(), 2)),
      (i: nat) => turn,
      None)
  }

  lemma OneCall(p: Policy)
    requires p.maxRetries >= 0
    ensures RunFrom(p, Succeeds(), 0) == Outcome(1, [], None)
  {
  }

  lemma TwoRecords()
    ensures Tracked(TRACKED)
    ensures TWO_RECORDS[..2] == TWO_RECORDS && CurrentId(TWO_RECORDS) == 2
    ensures AddedBetween(TWO_RECORDS, 1, 2) == {"b"} && AddedBetween(TWO_RECORDS, 0, 2) == {"a", "b"}
  {
    var h := TWO_RECORDS;
    assert h[0] == Record(1, ["a"]) && h[1] == Record(2, ["b"]);
    assert Print(1) == "1";
    assert "b" in h[1].added && "a" in h[0].added;
    forall id
      ensures id in AddedBetween(h, 1, 2) <==> id == "b"
      ensures id in AddedBetween(h, 0, 2) <==> id == "a" || id == "b"
    {
    }
  }

  lemma ListedIds()
    ensures HistoryIds([HistoryPage([[Message("b")]], 2)]) == ["b"]
    ensures MessageIds([MessagePage(["a", "b"])]) == ["a", "b"]
  {
    hide HistoryIds, RecordsIds, RecordIds, MessageIds, NonEmptyIds;
    OneRecordId(Message("b"));
    OneRecord([Message("b")]);
    OnePage(HistoryPage([[Message("b")]], 2));
    OneListedId("a");
    OneListedId("b");
    NonEmptyIdsJoin(["a"], ["b"]);
    assert ["a"] + ["b"] == ["a", "b"];
    OneMessagePage(MessagePage(["a", "b"]));
  }

  /** A run in which a message is missed: one tick, cancelled before its only message. */
  lemma SomeMessageIsMissed(cfg: Config, turn: Turn)
    requires cfg.policy.maxRetries >= 0 && turn.cancelled
    ensures PossibleRun(TRACKED, [Do(Tick(cfg, CancelledInput(turn)), View(2, 2))])
    ensures Missed(1, RunMail(TRACKED, [Do(Tick(cfg, CancelledInput(turn)), View(2, 2))])) == {"b"}
  {
    var io, view := CancelledInput(turn), View(2, 2);
    var step := Do(Tick(cfg, io), view);
    OneCall(cfg.policy);
    TwoRecords();
    ListedIds();
    TickListsSecond(cfg, turn);
    assert [step][..0] == [];
    assert RunMail(TRACKED, []) == TRACKED;
    CancelledTickMissesAll(TRACKED, cfg, io, view);
  }

  lemma OneAndTwo()
    ensures ParseUint("1") == Some(1) && Print(2) == "2"
  {
    assert Print(1) == "1";
    ParseUintOfPrint(1);
  }

  lemma TickListsSecond(cfg: Config, turn: Turn)
    requires cfg.policy.maxRetries >= 0
    ensures
      var io := CancelledInput(turn);
      && FetchNewMessageIds(cfg.policy, "1", io.sync) == Ok(Fetched(["b"], "2"))
      && !FallsBack(cfg.policy, io.sync)
      && HonestSync(cfg.policy, io.sync, TWO_RECORDS, View(2, 2), 1)
  {
    hide RunFrom, HistoryIds, MessageIds, AddedBetween, CurrentId, ParseUint, Print, Succeeds, Tracked;
    OneCall(cfg.policy);
    OneAndTwo();
    TwoRecords();
    ListedIds();
    SecondIsNext();
    assert HonestSync(cfg.policy, CancelledInput(turn).sync, TWO_RECORDS, View(2, 2), 1) by {
      hide FetchNewMessageIds, NextHistoryId, InHistory, InListing;
      InHistoryExactly([HistoryPage([[Message("b")]], 2)], "b");
      InListingExactly([MessagePage(["a", "b"])], "a");
      InListingExactly([MessagePage(["a", "b"])], "b");
    }
    hide HonestSync, NextHistoryId;
    var pages := CancelledInput(turn).sync.history.pages;
    assert HistorySync.Delivered(pages, 1) == pages(0) by {
      assert HistorySync.Delivered(pages, 0) == [];
      Seqs.JoinNothing(pages(0));
    }
  }

  lemma SecondIsNext()
    ensures NextHistoryId([HistoryPage([[Message("b")]], 2)]) == Print(2)
  {
  }
}
