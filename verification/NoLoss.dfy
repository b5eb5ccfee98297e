/** Which messages a run can miss: the history of the mailbox against the fates in the log. */
module NoLoss {
  import opened Errors
  import opened Decimal
  import opened RetryEngine
  import opened HistorySync
  import opened HistoryProperties
  import opened AccountModel
  import opened Growth
  import opened Accounting
  import opened TableHistory
  import Seqs

  /** A record of Gmail's history: the messages added to the mailbox at that history id. */
  datatype Record = Record(id: Uint64, added: seq<MsgId>)

  type History = seq<Record>

  ghost predicate Increasing(h: History) {
    && (forall i | 0 <= i < |h| :: h[i].id > 0)
    && (forall i, j | 0 <= i < j < |h| :: h[i].id < h[j].id)
  }

  /** Gmail's history id of the mailbox. */
  function CurrentId(h: History): Uint64 {
    if h == [] then 0 else h[|h| - 1].id
  }

  /** The messages added after history id `lo`, up to and including `hi`. */
  function AddedBetween(h: History, lo: nat, hi: nat): set<MsgId> {
    set i, id | 0 <= i < |h| && lo < h[i].id <= hi && id in h[i].added :: id
  }

  // ---------------------------------------------------------------- an honest Gmail

  /** How much of the history a listing saw, and how much the profile call after it. */
  datatype View = View(listed: nat, current: nat)

  ghost predicate SnapshotFrom(h: History, n: nat, known: nat) {
    n <= |h| && 0 < CurrentId(h[..n]) && known <= CurrentId(h[..n])
  }

  /** A listing that succeeds has every message added since the cursor, up to the history id it reports. */
  ghost predicate HonestHistory(p: Policy, listing: Listing<HistoryPage>, h: History, n: nat, known: nat) {
    var o := RunFrom(p, listing.script, 0);
    o.err.None? && o.calls > 0 ==>
      var pages := listing.pages(o.calls - 1);
      && SnapshotFrom(h, n, known)
      && pages != [] && pages[|pages| - 1].historyId == CurrentId(h[..n])
      && (forall id :: id in AddedBetween(h, known, CurrentId(h[..n])) ==> InHistory(pages, id))
  }

  /** A full listing has every message of the mailbox as it then was. */
  ghost predicate HonestMessages(p: Policy, listing: Listing<MessagePage>, h: History, n: nat) {
    var o := RunFrom(p, listing.script, 0);
    o.err.None? && o.calls > 0 ==>
      && n <= |h|
      && (forall id :: id in AddedBetween(h, 0, CurrentId(h[..n])) ==> InListing(listing.pages(o.calls - 1), id))
  }

  ghost predicate HonestSync(p: Policy, io: SyncInput, h: History, view: View, known: nat) {
    && HonestHistory(p, io.history, h, view.listed, known)
    && HonestMessages(p, io.messages, h, view.listed)
    && SnapshotFrom(h, view.current, known) && io.profile.historyId == CurrentId(h[..view.current])
  }

  // ---------------------------------------------------------------- runs

  /** The account, its mailbox, the highest cursor so far, and the messages no listing can show any more. */
  datatype MailState = MailState(account: AccountState, history: History, upTo: Uint64, gaps: set<MsgId>)

  datatype MailStep =
    | Arrive(records: History)
    | Do(step: Step, view: View)

  function CursorValue(cursor: string): Uint64 {
    if ParseUint(cursor).Some? then ParseUint(cursor).value else 0
  }

  /** Whether the tick goes to the full listing because the cursor is not found. */
  predicate FallsBack(p: Policy, io: SyncInput) {
    var o := RunFrom(p, io.history.script, 0);
    o.err.Some? && IsNotFound(o.err.value)
  }

  /**
   * Messages a tick skips by moving the cursor without listing them: after a reset, all since the
   * last cursor; in a fallback, those that arrive between the listing and the profile call.
   */
  function TickGap(m: MailState, cfg: Config, io: AccountInput, view: View): set<MsgId> {
    var now := io.sync.profile.historyId;
    if m.account.cursor == "" then AddedBetween(m.history, m.upTo, now)
    else if FallsBack(cfg.policy, io.sync) && view.listed <= |m.history| then
      AddedBetween(m.history, CurrentId(m.history[..view.listed]), now)
    else {}
  }

  function NextMail(m: MailState, step: MailStep): MailState {
    match step
    case Arrive(records) => m.(history := m.history + records)
    case Do(s, view) =>
      var after := Next(m.account, s);
      if s.Tick? && after.cursor != m.account.cursor then
        MailState(after, m.history, CursorValue(after.cursor), m.gaps + TickGap(m, s.cfg, s.io, view))
      else m.(account := after)
  }

  /** What Gmail guarantees: history ids grow, and it answers honestly. */
  ghost predicate Possible(m: MailState, step: MailStep) {
    match step
    case Arrive(records) => Increasing(m.history + records)
    case Do(Tick(cfg, io), view) => HonestSync(cfg.policy, io.sync, m.history, view, m.upTo)
    case Do(_, _) => true
  }

  function RunMail(m: MailState, steps: seq<MailStep>): MailState {
    if steps == [] then m else NextMail(RunMail(m, steps[..|steps| - 1]), steps[|steps| - 1])
  }

  ghost predicate PossibleRun(m: MailState, steps: seq<MailStep>) {
    steps != [] ==>
      && PossibleRun(m, steps[..|steps| - 1])
      && Possible(RunMail(m, steps[..|steps| - 1]), steps[|steps| - 1])
  }

  // ---------------------------------------------------------------- the invariant

  ghost predicate HasFate(log: seq<Event>, id: MsgId) {
    exists e :: e in log && e.Fated? && e.id == id
  }

  /** Every message between the first cursor and the highest one has a fate, or lies in a gap. */
  ghost predicate Covered(m: MailState, from: nat) {
    forall id :: id in AddedBetween(m.history, from, m.upTo) ==> HasFate(m.account.log, id) || id in m.gaps
  }

  ghost predicate Tracked(m: MailState) {
    && Increasing(m.history)
    && 0 < m.upTo <= CurrentId(m.history)
    && (m.account.cursor == "" || m.account.cursor == Print(m.upTo))
  }

  lemma MoreHistory(h: History, records: History, lo: nat, hi: nat)
    requires Increasing(h + records) && hi <= CurrentId(h) && h != []
    ensures AddedBetween(h + records, lo, hi) == AddedBetween(h, lo, hi)
    ensures Increasing(h) && CurrentId(h) <= CurrentId(h + records)
  {
    var all := h + records;
    assert forall i | 0 <= i < |h| :: all[i] == h[i];
    assert forall i | |h| <= i < |all| :: all[|h| - 1].id < all[i].id;
  }

  lemma SnapshotId(h: History, n: nat)
    requires Increasing(h) && 0 < n <= |h|
    ensures CurrentId(h[..n]) <= CurrentId(h)
  {
  }

  lemma {:induction false} FateIsInLog(log: seq<Event>, e: Event)
    requires e in FateEvents(log)
    ensures e in log && e.Fated?
  {
    if log != [] && e in FateEvents(log[..|log| - 1]) {
      FateIsInLog(log[..|log| - 1], e);
    }
  }

  /** Every id a tick fetched has a fate afterwards. */
  lemma FetchedHaveFates(cfg: Config, s: AccountState, known: string, io: AccountInput, id: MsgId)
    requires !io.cancelled && io.clientErr.None? && FetchNewMessageIds(cfg.policy, known, io.sync).Ok?
    requires id in FetchNewMessageIds(cfg.policy, known, io.sync).value.ids
    ensures HasFate(ProcessAccount(cfg, s, known, io).state.log, id)
  {
    hide FetchNewMessageIds, ProcessAccount, FateEvents;
    var ids := FetchNewMessageIds(cfg.policy, known, io.sync).value.ids;
    var after := ProcessAccount(cfg, s, known, io).state;
    TickIsAccounted(cfg, s, known, io);
    var i :| 0 <= i < |ids| && ids[i] == id;
    var e := NewFates(s, after)[i];
    assert e in FateEvents(after.log);
    FateIsInLog(after.log, e);
  }

  lemma {:induction false} LastCallIsDelivered(pages: nat -> seq<HistoryPage>, calls: nat, id: MsgId)
    requires calls > 0 && id in HistoryIds(pages(calls - 1))
    ensures id in HistoryIds(Delivered(pages, calls))
  {
    HistoryIdsConcat(Delivered(pages, calls - 1), pages(calls - 1));
  }

  lemma NextIdOfLastCall(pages: nat -> seq<HistoryPage>, calls: nat)
    requires calls > 0 && pages(calls - 1) != []
    requires pages(calls - 1)[|pages(calls - 1)| - 1].historyId != 0
    ensures NextHistoryId(Delivered(pages, calls)) == Print(pages(calls - 1)[|pages(calls - 1)| - 1].historyId)
  {
  }

  /** A cursor, and ids with which the messages added up to it are covered. */
  ghost predicate Brings(m: MailState, f: Fetched, gap: set<MsgId>, next: Uint64) {
    && f.nextHistoryId == Print(next) && m.upTo <= next <= CurrentId(m.history)
    && (forall id :: id in AddedBetween(m.history, m.upTo, next) ==> id in f.ids || id in gap)
  }

  lemma HonestListing(m: MailState, p: Policy, io: SyncInput, view: View)
    requires Tracked(m) && HonestSync(p, io, m.history, view, m.upTo)
    requires m.account.cursor != "" && RunFrom(p, io.history.script, 0).err.None?
    ensures ParseUint(m.account.cursor).Some? && SnapshotFrom(m.history, view.listed, m.upTo)
    ensures
      var data := SyncHistory(p, m.account.cursor, io).value;
      Brings(m, Fetched(data.ids, data.nextHistoryId), {}, CurrentId(m.history[..view.listed]))
  {
    hide RunFrom, HistoryIds, Delivered, NextHistoryId, InHistory, AddedBetween, Print, ParseUint;
    var o := RunFrom(p, io.history.script, 0);
    RunFromContract(p, io.history.script, 0);
    var next := CurrentId(m.history[..view.listed]);
    SnapshotId(m.history, view.listed);
    ParseUintOfPrint(m.upTo);
    PrintReadsBack(m.upTo);
    PrintReadsBack(next);
    NextIdOfLastCall(io.history.pages, o.calls);
    hide CurrentId, Increasing;
    forall id | id in AddedBetween(m.history, m.upTo, next)
      ensures id in HistoryIds(Delivered(io.history.pages, o.calls))
    {
      InHistoryExactly(io.history.pages(o.calls - 1), id);
      LastCallIsDelivered(io.history.pages, o.calls, id);
    }
  }

  /** A full listing that succeeds returns what its last call delivered, and the profile's history id. */
  lemma BootstrapData(p: Policy, io: SyncInput)
    requires Bootstrap(p, io).Ok?
    ensures
      var data := Bootstrap(p, io).value;
      var o := RunFrom(p, io.messages.script, 0);
      && o.err.None? && o.calls > 0
      && data.nextHistoryId == Print(io.profile.historyId)
      && (forall id :: id in MessageIds(io.messages.pages(o.calls - 1)) ==> id in data.ids)
  {
    hide RunFrom, MessageIds, Print, IsRetryable;
    var o := RunFrom(p, io.messages.script, 0);
    RunFromContract(p, io.messages.script, 0);
    MessageIdsConcat(Delivered(io.messages.pages, o.calls - 1), io.messages.pages(o.calls - 1));
  }

  lemma HonestFallback(m: MailState, cfg: Config, io: AccountInput, view: View)
    requires Tracked(m) && HonestSync(cfg.policy, io.sync, m.history, view, m.upTo)
    requires m.account.cursor != "" && FallsBack(cfg.policy, io.sync) && Bootstrap(cfg.policy, io.sync).Ok?
    ensures
      var data := Bootstrap(cfg.policy, io.sync).value;
      Brings(m, Fetched(data.ids, data.nextHistoryId), TickGap(m, cfg, io, view), io.sync.profile.historyId)
  {
    hide RunFrom, Bootstrap, MessageIds, HonestHistory;
    var data := Bootstrap(cfg.policy, io.sync).value;
    BootstrapData(cfg.policy, io.sync);
    SnapshotId(m.history, view.current);
    hide AddedBetween, CurrentId;
    var listed, next := CurrentId(m.history[..view.listed]), io.sync.profile.historyId;
    forall id | id in AddedBetween(m.history, m.upTo, next)
      ensures id in data.ids || id in TickGap(m, cfg, io, view)
    {
      InListingExactly(io.sync.messages.pages(RunFrom(cfg.policy, io.sync.messages.script, 0).calls - 1), id);
      SplitRange(m.history, m.upTo, listed, next, id);
      WidenRange(m.history, m.upTo, listed, id);
    }
  }

  /** The cursor an honest fetch brings. */
  function FetchedUpTo(m: MailState, cfg: Config, io: AccountInput, view: View): Uint64 {
    if m.account.cursor == "" || FallsBack(cfg.policy, io.sync) || view.listed > |m.history| then io.sync.profile.historyId
    else CurrentId(m.history[..view.listed])
  }

  /**
   * An honest fetch brings a cursor no smaller than the highest so far, and every message added
   * in between, except those of the gap.
   */
  lemma HonestFetch(m: MailState, cfg: Config, io: AccountInput, view: View)
    requires Tracked(m) && HonestSync(cfg.policy, io.sync, m.history, view, m.upTo)
    requires FetchNewMessageIds(cfg.policy, m.account.cursor, io.sync).Ok?
    ensures
      var f := FetchNewMessageIds(cfg.policy, m.account.cursor, io.sync).value;
      Brings(m, f, TickGap(m, cfg, io, view), FetchedUpTo(m, cfg, io, view))
  {
    hide RunFrom, Bootstrap;
    if m.account.cursor == "" {
      SnapshotId(m.history, view.current);
    } else if FallsBack(cfg.policy, io.sync) {
      HonestFallback(m, cfg, io, view);
    } else {
      HonestListing(m, cfg.policy, io.sync, view);
    }
  }

  // ---------------------------------------------------------------- every run

  lemma TickKeepsCovered(m: MailState, cfg: Config, io: AccountInput, view: View, from: nat)
    requires Tracked(m) && Covered(m, from)
    requires HonestSync(cfg.policy, io.sync, m.history, view, m.upTo)
    ensures
      var m' := NextMail(m, Do(Tick(cfg, io), view));
      Tracked(m') && Covered(m', from) && m.upTo <= m'.upTo
  {
    hide FetchNewMessageIds, RunFetched, HonestSync, TickGap, FetchedUpTo, CurrentId, AddedBetween;
    var s := m.account;
    var after := ProcessAccount(cfg, s, s.cursor, io).state;
    var fetched := FetchNewMessageIds(cfg.policy, s.cursor, io.sync);
    LogGrows(s, Tick(cfg, io));
    if !io.cancelled && io.clientErr.None? && fetched.Ok? {
      FetchedGrows(cfg, s, fetched.value.ids, io.turns);
      HonestFetch(m, cfg, io, view);
      var next := FetchedUpTo(m, cfg, io, view);
      ParseUintOfPrint(next);
      PrintReadsBack(next);
      forall id | id in fetched.value.ids
        ensures HasFate(after.log, id)
      {
        FetchedHaveFates(cfg, s, s.cursor, io, id);
      }
      if after.cursor != s.cursor {
        assert after.cursor == Print(next);
        forall id | id in AddedBetween(m.history, from, next)
          ensures HasFate(after.log, id) || id in m.gaps + TickGap(m, cfg, io, view)
        {
          SplitRange(m.history, from, m.upTo, next, id);
        }
      }
    }
  }

  lemma StepKeepsCovered(m: MailState, step: MailStep, from: nat)
    requires Tracked(m) && Covered(m, from) && Possible(m, step)
    ensures
      var m' := NextMail(m, step);
      Tracked(m') && Covered(m', from) && m.upTo <= m'.upTo
  {
    hide Next, AddedBetween, CurrentId, HonestSync;
    match step
    case Arrive(records) => ArrivalKeepsCovered(m, records, from);
    case Do(Tick(cfg, io), view) => TickKeepsCovered(m, cfg, io, view, from);
    case Do(s, view) => OtherKeepsCovered(m, s, view, from);
  }

  lemma ArrivalKeepsCovered(m: MailState, records: History, from: nat)
    requires Tracked(m) && Covered(m, from) && Increasing(m.history + records)
    ensures
      var m' := m.(history := m.history + records);
      Tracked(m') && Covered(m', from)
  {
    MoreHistory(m.history, records, from, m.upTo);
  }

  lemma OtherKeepsCovered(m: MailState, step: Step, view: View, from: nat)
    requires Tracked(m) && Covered(m, from) && !step.Tick?
    ensures
      var m' := NextMail(m, Do(step, view));
      Tracked(m') && Covered(m', from) && m'.upTo == m.upTo
  {
    hide CrashDuring, AddedBetween, CurrentId;
    LogGrows(m.account, step);
    if step.Crash? {
      CrashGrows(step.crashCfg, m.account, step.crashIo, step.at, step.retried);
    }
    var m' := NextMail(m, Do(step, view));
    forall id | id in AddedBetween(m'.history, from, m'.upTo)
      ensures HasFate(m'.account.log, id) || id in m'.gaps
    {
      assert id in AddedBetween(m.history, from, m.upTo);
    }
  }

  lemma {:induction false} RunKeepsCovered(m: MailState, steps: seq<MailStep>)
    requires Tracked(m) && PossibleRun(m, steps)
    ensures
      var m' := RunMail(m, steps);
      Tracked(m') && Covered(m', m.upTo) && m.upTo <= m'.upTo
  {
    hide NextMail, Possible, Tracked;
    if steps == [] {
      assert AddedBetween(m.history, m.upTo, m.upTo) == {};
    } else {
      RunKeepsCovered(m, steps[..|steps| - 1]);
      StepKeepsCovered(RunMail(m, steps[..|steps| - 1]), steps[|steps| - 1], m.upTo);
    }
  }

  // ---------------------------------------------------------------- what a run missed

  ghost predicate Handled(log: seq<Event>, id: MsgId) {
    exists e :: e in log && e.Fated? && e.id == id && Done(e.fate) && !e.fate.Previewed?
  }

  /** An id that was given up on, cut off, left over or only previewed. */
  ghost predicate Dropped(log: seq<Event>, id: MsgId) {
    exists e :: e in log && e.Fated? && e.id == id && (!Done(e.fate) || e.fate.Previewed?)
  }

  /** The messages added between the first and the highest cursor that no entry of the log handled. */
  ghost function Missed(from: nat, m: MailState): set<MsgId> {
    set id | id in AddedBetween(m.history, from, m.upTo) && !Handled(m.account.log, id)
  }

  /** The steps of a run that concern the account. */
  function AccountSteps(steps: seq<MailStep>): seq<Step> {
    if steps == [] then []
    else
      var last := steps[|steps| - 1];
      AccountSteps(steps[..|steps| - 1]) + if last.Do? then [last.step] else []
  }

  lemma {:induction false} AccountOfRun(m: MailState, steps: seq<MailStep>)
    ensures RunMail(m, steps).account == RunSteps(m.account, AccountSteps(steps))
  {
    hide Next, CursorValue, TickGap;
    if steps != [] {
      var init, last := steps[..|steps| - 1], steps[|steps| - 1];
      AccountOfRun(m, init);
      if last.Do? {
        var run := AccountSteps(steps);
        assert run == AccountSteps(init) + [last.step];
        assert run[..|run| - 1] == AccountSteps(init) && run[|run| - 1] == last.step;
      } else {
        assert AccountSteps(steps) == AccountSteps(init);
      }
      assert RunMail(m, steps) == NextMail(RunMail(m, init), last);
    }
  }

  /**
   * What the tables show of a message: it has its row, or had one that a collection or a clear deleted,
   * or it carried an AI label when some tick, or crash, of the run ended.
   */
  ghost predicate InTables(m: MailState, steps: seq<MailStep>, id: MsgId) {
    var after, run := RunMail(m, steps).account, AccountSteps(steps);
    || id in after.rows
    || (exists j | 0 <= j < |after.log| :: after.log[j].RowsDeleted? && id in after.log[j].ids)
    || (exists k: nat | k < |run| :: EndsWithAILabel(run[k], RunSteps(m.account, run[..k + 1]), id))
  }

  /** With a log that begins with the run: what it says was handled, the tables show. */
  lemma HandledIsInTables(m: MailState, steps: seq<MailStep>, id: MsgId)
    requires m.account.log == [] && Handled(RunMail(m, steps).account.log, id)
    ensures InTables(m, steps, id)
  {
    hide RunMail, RunSteps, EndsWithAILabel, AccountSteps;
    var log, run := RunMail(m, steps).account.log, AccountSteps(steps);
    AccountOfRun(m, steps);
    var e :| e in log && e.Fated? && e.id == id && Done(e.fate) && !e.fate.Previewed?;
    var i: nat :| i < |log| && log[i] == e;
    if e.fate.HadAILabel? {
      SkippedForLabel(m.account, run, i, id);
      var k: nat :| WrittenWithLabel(m.account, run, k, i, id);
    } else {
      RowsMatchLog(m.account, run, id);
      if DeletedAfter(log, i, id) {
        var j :| i < j < |log| && log[j].RowsDeleted? && id in log[j].ids;
      }
    }
  }

  /** And a message that has a row was handled, or had one when the run began. */
  lemma RowMeansHandled(m: MailState, steps: seq<MailStep>, id: MsgId)
    requires m.account.log == [] && id in RunMail(m, steps).account.rows
    ensures Handled(RunMail(m, steps).account.log, id) || id in m.account.rows
  {
    hide RunMail, RunSteps, AccountSteps;
    var log, run := RunMail(m, steps).account.log, AccountSteps(steps);
    AccountOfRun(m, steps);
    RowsMatchLog(m.account, run, id);
    if id !in m.account.rows {
      var i: nat :| i < |log| && log[i] == Fated(id, Recorded) && !DeletedAfter(log, i, id);
      assert log[i] in log;
    }
  }

  /** A message between the cursors that was not handled was dropped, or lies in a gap. */
  lemma UnhandledWasDropped(m: MailState, steps: seq<MailStep>, id: MsgId)
    requires Tracked(m) && PossibleRun(m, steps)
    requires id in AddedBetween(RunMail(m, steps).history, m.upTo, RunMail(m, steps).upTo)
    requires !Handled(RunMail(m, steps).account.log, id)
    ensures Dropped(RunMail(m, steps).account.log, id) || id in RunMail(m, steps).gaps
  {
    RunKeepsCovered(m, steps);
    hide RunMail, AddedBetween, PossibleRun, Tracked;
    var log := RunMail(m, steps).account.log;
    if HasFate(log, id) {
      var e :| e in log && e.Fated? && e.id == id;
    }
  }

  /**
   * In every run of a tracked account, whatever fails: the messages missed are exactly those added
   * between the first and the highest cursor that were dropped (failed, throttled, left over by a
   * cancellation, or previewed) or fell into the gap of a reset or a fallback, and that no other
   * entry, such as a duplicate, handled. A log that begins with the run speaks of the tables: a message
   * between the cursors that was not missed is in them, and one that was missed has no row of the run's.
   */
  lemma MissedExactly(m: MailState, steps: seq<MailStep>)
    requires Tracked(m) && PossibleRun(m, steps)
    ensures
      var after := RunMail(m, steps);
      var log := after.account.log;
      && m.upTo <= after.upTo
      && Missed(m.upTo, after) == set id |
           && id in AddedBetween(after.history, m.upTo, after.upTo)
           && (Dropped(log, id) || id in after.gaps)
           && !Handled(log, id)
      && (m.account.log == [] ==> forall id | id in AddedBetween(after.history, m.upTo, after.upTo) ::
            && (id !in Missed(m.upTo, after) ==> InTables(m, steps, id))
            && (id in Missed(m.upTo, after) && id in after.account.rows ==> id in m.account.rows))
  {
    RunKeepsCovered(m, steps);
    hide RunMail, AddedBetween, InTables, Handled, Dropped, PossibleRun, Tracked, Covered;
    var after := RunMail(m, steps);
    var log := after.account.log;
    forall id | id in AddedBetween(after.history, m.upTo, after.upTo) && !Handled(log, id)
      ensures Dropped(log, id) || id in after.gaps
    {
      UnhandledWasDropped(m, steps, id);
    }
    forall id | m.account.log == [] && id in AddedBetween(after.history, m.upTo, after.upTo)
      ensures Handled(log, id) ==> InTables(m, steps, id)
      ensures !Handled(log, id) && id in after.account.rows ==> id in m.account.rows
    {
      if Handled(log, id) {
        HandledIsInTables(m, steps, id);
      } else if id in after.account.rows {
        RowMeansHandled(m, steps, id);
      }
    }
  }

  /** No reset of the cursor, and no tick that finds it expired. */
  predicate Undisturbed(step: MailStep) {
    match step
    case Arrive(_) => true
    case Do(Tick(cfg, io), _) => !FallsBack(cfg.policy, io.sync)
    case Do(Admin(op), _) => !op.ResetCursor?
    case Do(_, _) => true
  }

  lemma StepLeavesNoGap(m: MailState, step: MailStep)
    requires m.account.cursor != "" && m.gaps == {} && Undisturbed(step)
    ensures NextMail(m, step).account.cursor != "" && NextMail(m, step).gaps == {}
  {
    hide FetchNewMessageIds, RunFetched, CrashDuring, FallsBack;
    match step
    case Arrive(_) =>
    case Do(Tick(cfg, io), view) =>
      var fetched := FetchNewMessageIds(cfg.policy, m.account.cursor, io.sync);
      if fetched.Ok? {
        FetchedGrows(cfg, m.account, fetched.value.ids, io.turns);
      }
    case Do(Crash(cfg, io, at, retried), _) => CrashGrows(cfg, m.account, io, at, retried);
    case Do(Admin(_), _) =>
    case Do(Relabel(_, _), _) =>
  }

  lemma {:induction false} UndisturbedRunHasNoGap(m: MailState, steps: seq<MailStep>)
    requires m.account.cursor != "" && m.gaps == {} && forall k | 0 <= k < |steps| :: Undisturbed(steps[k])
    ensures RunMail(m, steps).account.cursor != "" && RunMail(m, steps).gaps == {}
  {
    hide NextMail, Undisturbed;
    if steps != [] {
      UndisturbedRunHasNoGap(m, steps[..|steps| - 1]);
      StepLeavesNoGap(RunMail(m, steps[..|steps| - 1]), steps[|steps| - 1]);
    }
  }

  /**
   * In every run without a reset or an expired cursor in which nothing is dropped, every message
   * added between the first and the highest cursor was recorded or skipped for an AI label: it has its
   * row, or had one that was deleted, or carried the label. Crashes, failed calls, failed cursor writes
   * and deleted rows do not change that.
   */
  lemma NothingIsLost(m: MailState, steps: seq<MailStep>, id: MsgId)
    requires Tracked(m) && PossibleRun(m, steps) && m.account.cursor != "" && m.gaps == {}
    requires forall k | 0 <= k < |steps| :: Undisturbed(steps[k])
    requires id in AddedBetween(RunMail(m, steps).history, m.upTo, RunMail(m, steps).upTo)
    requires !Dropped(RunMail(m, steps).account.log, id)
    ensures Handled(RunMail(m, steps).account.log, id)
    ensures m.account.log == [] ==> InTables(m, steps, id)
  {
    hide RunMail, AddedBetween, InTables, Handled, Dropped, PossibleRun, Tracked, Undisturbed;
    UndisturbedRunHasNoGap(m, steps);
    if !Handled(RunMail(m, steps).account.log, id) {
      UnhandledWasDropped(m, steps, id);
    }
    if m.account.log == [] {
      HandledIsInTables(m, steps, id);
    }
  }

  lemma WidenRange(h: History, lo: nat, hi: nat, id: MsgId)
    ensures id in AddedBetween(h, lo, hi) ==> id in AddedBetween(h, 0, hi)
  {
  }

  lemma SplitRange(h: History, lo: nat, mid: nat, hi: nat, id: MsgId)
    requires id in AddedBetween(h, lo, hi)
    ensures id in AddedBetween(h, lo, mid) || id in AddedBetween(h, mid, hi)
  {
  }
}
