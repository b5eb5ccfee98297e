/** The stored cursor always parses, and only a reset takes it back. */
module CursorSound {
  import opened Errors
  import opened Decimal
  import opened RetryEngine
  import opened HistorySync
  import opened HistoryProperties
  import opened AccountModel
  import opened Growth
  import opened DuplicateBatch

  ghost predicate GoodCursor(cursor: string) {
    cursor == "" || Canonical(cursor)
  }

  lemma FetchKeepsGood(p: Policy, known: string, sync: SyncInput)
    requires GoodCursor(known)
    ensures known != "" ==> ParseUint(known).Some?
    ensures FetchNewMessageIds(p, known, sync).Ok? ==> Canonical(FetchNewMessageIds(p, known, sync).value.nextHistoryId)
  {
    hide SyncHistory, RunFrom;
    if known != "" {
      SyncKeepsCanonical(p, known, sync);
    }
  }

  lemma StepKeepsGood(s: AccountState, step: Step)
    requires GoodCursor(s.cursor)
    ensures GoodCursor(Next(s, step).cursor)
  {
    hide FetchNewMessageIds, RunFetched, CrashDuring;
    match step
    case Tick(cfg, io) =>
      FetchKeepsGood(cfg.policy, s.cursor, io.sync);
      if FetchNewMessageIds(cfg.policy, s.cursor, io.sync).Ok? {
        FetchedGrows(cfg, s, FetchNewMessageIds(cfg.policy, s.cursor, io.sync).value.ids, io.turns);
      }
    case Crash(cfg, io, at, retried) => CrashGrows(cfg, s, io, at, retried);
    case Admin(_) =>
    case Relabel(_, _) =>
  }

  /**
   * In every reachable state, whatever Gmail answers, the stored cursor is empty or the decimal
   * text of a uint64; a cursor that is not empty parses.
   */
  lemma {:induction false} CursorAlwaysGood(s: AccountState, steps: seq<Step>)
    requires GoodCursor(s.cursor)
    ensures
      var cursor := RunSteps(s, steps).cursor;
      GoodCursor(cursor) && (cursor != "" ==> ParseUint(cursor).Some?)
  {
    hide Next;
    if steps != [] {
      CursorAlwaysGood(s, steps[..|steps| - 1]);
      StepKeepsGood(RunSteps(s, steps[..|steps| - 1]), steps[|steps| - 1]);
    }
    var cursor := RunSteps(s, steps).cursor;
    if Canonical(cursor) {
      var n: Uint64 :| cursor == Print(n);
      ParseUintOfPrint(n);
    }
  }

  /** A tick that fetches and whose cursor write does not fail ends with the cursor that the fetch brought. */
  lemma CursorFollowsFetch(cfg: Config, s: AccountState, io: AccountInput)
    requires GoodCursor(s.cursor) && !io.cancelled && io.clientErr.None? && io.cursorErr.None?
    requires FetchNewMessageIds(cfg.policy, s.cursor, io.sync).Ok?
    ensures ProcessAccount(cfg, s, s.cursor, io).state.cursor == FetchNewMessageIds(cfg.policy, s.cursor, io.sync).value.nextHistoryId
  {
    hide FetchNewMessageIds, RunFetched;
    var fetched := FetchNewMessageIds(cfg.policy, s.cursor, io.sync).value;
    FetchKeepsGood(cfg.policy, s.cursor, io.sync);
    var n: Uint64 :| fetched.nextHistoryId == Print(n);
    PrintReadsBack(n);
    FetchedGrows(cfg, s, fetched.ids, io.turns);
  }

  // ---------------------------------------------------------------- never backwards

  function Value(cursor: string): int {
    if ParseUint(cursor).Some? then ParseUint(cursor).value else -1
  }

  /** Every history id in an answer is zero (left out) or no smaller than a given one. */
  ghost predicate NoSmallerThan(low: int, sync: SyncInput) {
    && (forall k: nat, i | 0 <= i < |sync.history.pages(k)| ::
          sync.history.pages(k)[i].historyId == 0 || sync.history.pages(k)[i].historyId >= low)
    && (sync.profile.historyId == 0 || sync.profile.historyId >= low)
  }

  lemma {:induction false} NextIdNoSmaller(pages: seq<HistoryPage>, low: int)
    requires forall i | 0 <= i < |pages| :: pages[i].historyId == 0 || pages[i].historyId >= low
    ensures NextHistoryId(pages) == "" || Value(NextHistoryId(pages)) >= low
  {
    if pages != [] {
      if pages[|pages| - 1].historyId != 0 {
        ParseUintOfPrint(pages[|pages| - 1].historyId);
      } else {
        NextIdNoSmaller(pages[..|pages| - 1], low);
      }
    }
  }

  lemma {:induction false} DeliveredNoSmaller(pages: nat -> seq<HistoryPage>, n: nat, low: int)
    requires forall k: nat, i | 0 <= i < |pages(k)| :: pages(k)[i].historyId == 0 || pages(k)[i].historyId >= low
    ensures forall i | 0 <= i < |Delivered(pages, n)| ::
              Delivered(pages, n)[i].historyId == 0 || Delivered(pages, n)[i].historyId >= low
  {
    if n > 0 {
      DeliveredNoSmaller(pages, n - 1, low);
    }
  }

  lemma FetchNoSmaller(p: Policy, known: string, sync: SyncInput)
    requires GoodCursor(known) && NoSmallerThan(Value(known), sync)
    requires FetchNewMessageIds(p, known, sync).Ok?
    ensures Value(FetchNewMessageIds(p, known, sync).value.nextHistoryId) >= Value(known)
  {
    var o := RunFrom(p, sync.history.script, 0);
    hide RunFrom;
    DeliveredNoSmaller(sync.history.pages, o.calls, Value(known));
    NextIdNoSmaller(Delivered(sync.history.pages, o.calls), Value(known));
    ParseUintOfPrint(sync.profile.historyId);
  }

  /** One step: with a server whose history ids do not go back, only a reset lowers the cursor. */
  lemma StepNeverLowers(s: AccountState, step: Step)
    requires GoodCursor(s.cursor)
    requires step.Tick? ==> NoSmallerThan(Value(s.cursor), step.io.sync)
    requires step != Admin(ResetCursor)
    ensures Value(s.cursor) <= Value(Next(s, step).cursor)
  {
    hide FetchNewMessageIds, RunFetched, CrashDuring, Value;
    match step
    case Tick(cfg, io) =>
      if FetchNewMessageIds(cfg.policy, s.cursor, io.sync).Ok? {
        FetchNoSmaller(cfg.policy, s.cursor, io.sync);
        FetchedGrows(cfg, s, FetchNewMessageIds(cfg.policy, s.cursor, io.sync).value.ids, io.turns);
      }
    case Crash(cfg, io, at, retried) => CrashGrows(cfg, s, io, at, retried);
    case Admin(_) =>
    case Relabel(_, _) =>
  }

  /** Every tick's answers name no id below the cursor stored when it began. */
  ghost predicate AnswersAboveCursor(s: AccountState, steps: seq<Step>) {
    forall k | 0 <= k < |steps| && steps[k].Tick? ::
      NoSmallerThan(Value(RunSteps(s, steps[..k]).cursor), steps[k].io.sync)
  }

  lemma {:induction false} NeverBelowStored(s: AccountState, steps: seq<Step>, i: nat, j: nat)
    requires GoodCursor(s.cursor) && AnswersAboveCursor(s, steps)
    requires i <= j <= |steps| && forall k | i <= k < j :: steps[k] != Admin(ResetCursor)
    ensures Value(RunSteps(s, steps[..i]).cursor) <= Value(RunSteps(s, steps[..j]).cursor)
    decreases j
  {
    hide Next, Value, NoSmallerThan;
    if i < j {
      NeverBelowStored(s, steps, i, j - 1);
      CursorAlwaysGood(s, steps[..j - 1]);
      assert steps[..j][..j - 1] == steps[..j - 1];
      StepNeverLowers(RunSteps(s, steps[..j - 1]), steps[j - 1]);
    }
  }

  // ---------------------------------------------------------------- a server that moves forward

  /** Every history id in an answer is zero (left out) or no larger than a given one. */
  ghost predicate NoLargerThan(high: int, sync: SyncInput) {
    && (forall k: nat, i | 0 <= i < |sync.history.pages(k)| :: sync.history.pages(k)[i].historyId <= high)
    && sync.profile.historyId <= high
  }

  /** The mailbox's history id as time passes: it does not go back, and tick k answers with ids of its time. */
  ghost predicate MonotoneServer(steps: seq<Step>, clock: nat -> int) {
    && (forall k: nat :: clock(k) <= clock(k + 1))
    && (forall k: nat | k < |steps| && steps[k].Tick? ::
          NoSmallerThan(clock(k), steps[k].io.sync) && NoLargerThan(clock(k + 1), steps[k].io.sync))
  }

  lemma {:induction false} NextIdNoLarger(pages: seq<HistoryPage>, high: int)
    requires forall i | 0 <= i < |pages| :: pages[i].historyId <= high
    ensures NextHistoryId(pages) == "" || Value(NextHistoryId(pages)) <= high
  {
    if pages != [] {
      if pages[|pages| - 1].historyId != 0 {
        ParseUintOfPrint(pages[|pages| - 1].historyId);
      } else {
        NextIdNoLarger(pages[..|pages| - 1], high);
      }
    }
  }

  lemma {:induction false} DeliveredNoLarger(pages: nat -> seq<HistoryPage>, n: nat, high: int)
    requires forall k: nat, i | 0 <= i < |pages(k)| :: pages(k)[i].historyId <= high
    ensures forall i | 0 <= i < |Delivered(pages, n)| :: Delivered(pages, n)[i].historyId <= high
  {
    if n > 0 {
      DeliveredNoLarger(pages, n - 1, high);
    }
  }

  lemma FetchNoLarger(p: Policy, known: string, sync: SyncInput, high: int)
    requires GoodCursor(known) && Value(known) <= high && NoLargerThan(high, sync)
    requires FetchNewMessageIds(p, known, sync).Ok?
    ensures Value(FetchNewMessageIds(p, known, sync).value.nextHistoryId) <= high
  {
    var o := RunFrom(p, sync.history.script, 0);
    hide RunFrom;
    DeliveredNoLarger(sync.history.pages, o.calls, high);
    NextIdNoLarger(Delivered(sync.history.pages, o.calls), high);
    ParseUintOfPrint(sync.profile.historyId);
  }

  lemma StepStaysBelow(s: AccountState, step: Step, high: int)
    requires GoodCursor(s.cursor) && -1 <= high && Value(s.cursor) <= high
    requires step.Tick? ==> NoLargerThan(high, step.io.sync)
    ensures Value(Next(s, step).cursor) <= high
  {
    assert Value("") == -1;
    hide FetchNewMessageIds, RunFetched, CrashDuring, Value, NoLargerThan;
    match step
    case Tick(cfg, io) =>
      if FetchNewMessageIds(cfg.policy, s.cursor, io.sync).Ok? {
        FetchNoLarger(cfg.policy, s.cursor, io.sync, high);
        FetchedGrows(cfg, s, FetchNewMessageIds(cfg.policy, s.cursor, io.sync).value.ids, io.turns);
      }
    case Crash(cfg, io, at, retried) => CrashGrows(cfg, s, io, at, retried);
    case Admin(_) =>
    case Relabel(_, _) =>
  }

  lemma NoSmallerThanLess(low: int, high: int, sync: SyncInput)
    requires low <= high && NoSmallerThan(high, sync)
    ensures NoSmallerThan(low, sync)
  {
  }

  lemma {:induction false} CursorFollowsClock(s: AccountState, steps: seq<Step>, clock: nat -> int, k: nat)
    requires GoodCursor(s.cursor) && MonotoneServer(steps, clock)
    requires Value(s.cursor) <= clock(0) && k <= |steps|
    ensures -1 <= clock(k) && Value(RunSteps(s, steps[..k]).cursor) <= clock(k)
    decreases k
  {
    assert -1 <= Value(s.cursor);
    hide Next, Value, NoLargerThan, NoSmallerThan;
    if k > 0 {
      CursorFollowsClock(s, steps, clock, k - 1);
      CursorAlwaysGood(s, steps[..k - 1]);
      assert steps[..k][..k - 1] == steps[..k - 1];
      assert clock(k - 1) <= clock((k - 1) + 1);
      StepStaysBelow(RunSteps(s, steps[..k - 1]), steps[k - 1], clock(k));
    }
  }

  /**
   * Against a mailbox whose history id does not go back, and which was at the first cursor or past it:
   * between any two points of a run without a reset in between, the stored cursor does not go back.
   */
  lemma CursorNeverLowered(s: AccountState, steps: seq<Step>, clock: nat -> int, i: nat, j: nat)
    requires GoodCursor(s.cursor) && MonotoneServer(steps, clock) && Value(s.cursor) <= clock(0)
    requires i <= j <= |steps| && forall k | i <= k < j :: steps[k] != Admin(ResetCursor)
    ensures Value(RunSteps(s, steps[..i]).cursor) <= Value(RunSteps(s, steps[..j]).cursor)
  {
    hide RunSteps, Value, NoSmallerThan, NoLargerThan;
    forall k | 0 <= k < |steps| && steps[k].Tick?
      ensures NoSmallerThan(Value(RunSteps(s, steps[..k]).cursor), steps[k].io.sync)
    {
      CursorFollowsClock(s, steps, clock, k);
      NoSmallerThanLess(Value(RunSteps(s, steps[..k]).cursor), clock(k), steps[k].io.sync);
    }
    NeverBelowStored(s, steps, i, j);
  }

  // ---------------------------------------------------------------- a reset during a tick

  /** The tick gets as far as writing a new cursor, and the write does not fail. */
  predicate WritesCursor(cfg: Config, known: string, io: AccountInput) {
    && !io.cancelled && io.clientErr.None? && io.cursorErr.None?
    && FetchNewMessageIds(cfg.policy, known, io.sync).Ok?
    && CursorMoves(known, FetchNewMessageIds(cfg.policy, known, io.sync).value.nextHistoryId)
  }

  /** A batch with a reset of the cursor after its first n turns. */
  function BatchWithReset(cfg: Config, s: AccountState, work: seq<Work>, n: nat): AccountState
    requires n <= |work|
  {
    var first := Batch(cfg, s, work[..n]);
    var reset := ApplyAdmin(first.state, ResetCursor);
    if first.cancelled then NoteAll(reset, Fates(Ids(work[n..]), Unreached)) else Batch(cfg, reset, work[n..]).state
  }

  /** A tick with a reset of the cursor after it read the account, and before or between its turns or after the last. */
  function TickWithReset(cfg: Config, s: AccountState, known: string, io: AccountInput, turns: nat): AccountState {
    if io.cancelled || io.clientErr.Some? then ApplyAdmin(s, ResetCursor)
    else
      match FetchNewMessageIds(cfg.policy, known, io.sync)
      case Fail(_) => ApplyAdmin(s, ResetCursor)
      case Ok(Fetched(ids, next)) =>
        var todo := Throttle(cfg, ids);
        var work := WorkOf(todo, io.turns);
        var after := BatchWithReset(cfg, s, work, if turns < |work| then turns else |work|);
        var noted := NoteAll(after, Fates(ids[|todo|..], Throttled));
        if CursorMoves(known, next) && io.cursorErr.None? then noted.(cursor := next) else noted
  }

  /** A batch is its first n turns, and then the others from there. */
  lemma {:induction false} BatchSplits(cfg: Config, s: AccountState, work: seq<Work>, n: nat)
    requires n <= |work|
    ensures
      var first := Batch(cfg, s, work[..n]);
      Batch(cfg, s, work).state
      == if first.cancelled then NoteAll(first.state, Fates(Ids(work[n..]), Unreached))
         else Batch(cfg, first.state, work[n..]).state
    decreases n
  {
    hide TakeTurn, NoteAll, Fates, Ids;
    if n == 0 {
      assert work[0..] == work;
    } else {
      var turn := TakeTurn(cfg, s, work[0]);
      assert work[..n][0] == work[0] && work[..n][1..] == work[1..][..n - 1] && work[n..] == work[1..][n - 1..];
      if turn.cancelled {
        UnreachedTwice(turn.state, work[1..], n - 1);
      } else {
        BatchSplits(cfg, turn.state, work[1..], n - 1);
      }
    }
  }

  lemma UnreachedTwice(s: AccountState, work: seq<Work>, n: nat)
    requires n <= |work|
    ensures NoteAll(NoteAll(s, Fates(Ids(work[..n]), Unreached)), Fates(Ids(work[n..]), Unreached))
         == NoteAll(s, Fates(Ids(work), Unreached))
  {
    var a, b := Fates(Ids(work[..n]), Unreached), Fates(Ids(work[n..]), Unreached);
    assert a + b == Fates(Ids(work), Unreached);
    assert s.log + a + b == s.log + (a + b);
  }

  lemma BatchResets(cfg: Config, s: AccountState, work: seq<Work>, n: nat)
    requires n <= |work|
    ensures SameTables(BatchWithReset(cfg, s, work, n), Batch(cfg, s, work).state)
    ensures BatchWithReset(cfg, s, work, n).cursor == ""
    ensures n == 0 ==> BatchWithReset(cfg, s, work, n) == Batch(cfg, ApplyAdmin(s, ResetCursor), work).state
  {
    hide Batch;
    var first := Batch(cfg, s, work[..n]);
    var reset := ApplyAdmin(first.state, ResetCursor);
    BatchSplits(cfg, s, work, n);
    BatchIgnoresLog(cfg, reset, first.state, work[n..]);
    BatchGrows(cfg, reset, work[n..]);
    if n == 0 {
      assert work[0..] == work;
      NoWork(cfg, s);
      assert work[..0] == [];
    }
  }

  lemma NoWork(cfg: Config, s: AccountState)
    ensures Batch(cfg, s, []) == BatchResult(s, 0, false)
  {
  }

  /**
   * Wherever in a tick an administrator's reset comes, the tick ends with the tables it would have had
   * without it, and the cursor is empty afterwards exactly if the tick did not write one: a tick that
   * brings a new cursor overwrites the reset. A reset before the first turn is one before the tick.
   */
  lemma ResetDuringTickExactly(cfg: Config, s: AccountState, known: string, io: AccountInput, turns: nat)
    ensures
      var after := TickWithReset(cfg, s, known, io, turns);
      && SameTables(after, ProcessAccount(cfg, s, known, io).state)
      && (after.cursor == "" <==> !WritesCursor(cfg, known, io))
      && (WritesCursor(cfg, known, io) ==> after.cursor == FetchNewMessageIds(cfg.policy, known, io.sync).value.nextHistoryId)
      && (turns == 0 ==> after == ProcessAccount(cfg, ApplyAdmin(s, ResetCursor), known, io).state)
  {
    hide FetchNewMessageIds, Batch, BatchWithReset;
    var fetched := FetchNewMessageIds(cfg.policy, known, io.sync);
    if !io.cancelled && io.clientErr.None? && fetched.Ok? {
      var work := WorkOf(Throttle(cfg, fetched.value.ids), io.turns);
      BatchResets(cfg, s, work, if turns < |work| then turns else |work|);
    }
  }
}
