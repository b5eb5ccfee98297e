/** The pipeline over the shared tables of all accounts. */
module MailPipeline {
  import opened Errors
  import opened RetryEngine
  import opened HistorySync
  import opened Labels
  import opened AccountModel
  import opened StoreTables
  import opened GmailServer
  import opened Decimal
  import opened CursorSound

  predicate HasPrefix(s: string, prefix: string) {
    |prefix| <= |s| && s[..|prefix|] == prefix
  }

  /** The ids of those of some labels whose name begins with the AI prefix. */
  function AILabelsAmong(labelIDs: map<string, LabelId>, names: set<string>): set<LabelId> {
    set name | name in names && name in labelIDs && HasPrefix(name, AI_LABEL_PREFIX) :: labelIDs[name]
  }

  class Pipeline {
    const store: Store
    const gmail: Gmail
    const policy: Policy
    const categories: map<string, string>
    const dryRun: bool
    const maxMessagesPerTick: Option<int>
    var aiLabelIDs: map<AccountId, set<LabelId>>
    ghost var log: map<AccountId, seq<Event>>

    constructor (store: Store, gmail: Gmail, policy: Policy, categories: map<string, string>, dryRun: bool, maxMessagesPerTick: Option<int>)
      ensures this.store == store && this.gmail == gmail && this.policy == policy && this.categories == categories
      ensures this.dryRun == dryRun && this.maxMessagesPerTick == maxMessagesPerTick
      ensures aiLabelIDs == map[] && log == map[]
    {
      this.store, this.gmail, this.policy, this.categories := store, gmail, policy, categories;
      this.dryRun, this.maxMessagesPerTick := dryRun, maxMessagesPerTick;
      aiLabelIDs, log := map[], map[];
    }

    /** The configuration as it applies to an account. */
    function ConfigOf(a: AccountId): Config
      reads this`aiLabelIDs
    {
      Config(policy, categories, if a in aiLabelIDs then aiLabelIDs[a] else {}, dryRun, maxMessagesPerTick)
    }

    ghost function LogOf(a: AccountId): seq<Event>
      reads this`log
    {
      if a in log then log[a] else []
    }

    /** What the shared tables hold for one account. */
    ghost function View(a: AccountId): AccountState
      reads this, store, gmail
    {
      AccountState(
        if a in store.accounts then store.accounts[a].historyId else "",
        Slice(store.processed, a),
        Slice(store.labelCache, a),
        Slice(gmail.labelTable, a),
        Slice(gmail.messageLabels, a),
        LogOf(a))
    }

    /** cacheAILabelIDs. */
    method CacheAILabelIDs(a: AccountId, labelIDs: map<string, LabelId>)
      modifies this`aiLabelIDs
      ensures aiLabelIDs == old(aiLabelIDs)[a := AILabelsAmong(labelIDs, labelIDs.Keys)]
      ensures forall l :: l in aiLabelIDs[a] <==>
        exists name :: name in labelIDs && labelIDs[name] == l && |name| >= 3 && name[..3] == "AI/"
    {
      var aiLabels: set<LabelId> := {};
      var left: set<string> := labelIDs.Keys;
      while left != {}
        invariant left <= labelIDs.Keys
        invariant aiLabels == AILabelsAmong(labelIDs, labelIDs.Keys - left)
        decreases |left|
      {
        var name :| name in left;
        var names := labelIDs.Keys - left;
        assert labelIDs.Keys - (left - {name}) == names + {name};
        if HasPrefix(name, AI_LABEL_PREFIX) {
          aiLabels := aiLabels + {labelIDs[name]};
        }
        left := left - {name};
      }
      assert labelIDs.Keys - left == labelIDs.Keys;
      aiLabelIDs := aiLabelIDs[a := aiLabels];
    }

    ghost method Log(a: AccountId, e: Event)
      modifies this`log
      ensures View(a) == Note(old(View(a)), e)
      ensures forall b | b != a :: View(b) == old(View(b))
    {
      log := log[a := LogOf(a) + [e]];
    }

    /** shouldSkipMessage. */
    method ShouldSkipMessage(a: AccountId, id: MsgId, io: MessageInput) returns (r: Result<Option<Fate>>)
      ensures r == SkipReason(ConfigOf(a), View(a), id, io)
      ensures
        var carried := if (a, id) in gmail.messageLabels then gmail.messageLabels[(a, id)] else {};
        && (io.existsErr.None? && (a, id) in store.processed ==> r == Ok(Some(HadRow)))
        && (io.existsErr.None? && (a, id) !in store.processed && id != "" && io.firstGetErr.None? ==>
              r == Ok(if a in aiLabelIDs && carried * aiLabelIDs[a] != {} then Some(HadAILabel) else None))
    {
      SliceEntry(store.processed, a, id);
      SliceEntry(gmail.messageLabels, a, id);
      var found := store.ProcessedMessageExists(a, id, io.existsErr);
      if found.Fail? {
        return Fail(found.err);
      }
      if found.value {
        return Ok(Some(HadRow));
      }
      if GetMessageErr(id, io.firstGetErr).Some? {
        return Fail(GetMessageErr(id, io.firstGetErr).value);
      }
      var labels := gmail.LabelsOnMessage(a, id);
      if a in aiLabelIDs && labels * aiLabelIDs[a] != {} {
        return Ok(Some(HadAILabel));
      }
      r := Ok(None);
    }

    /** AddLabels, as far as it reaches Gmail. */
    method LabelMessage(a: AccountId, id: MsgId, labelId: LabelId)
      modifies gmail`messageLabels
      ensures View(a) == AddLabel(old(View(a)), id, labelId)
      ensures forall b | b != a :: View(b) == old(View(b))
    {
      hide Slice;
      gmail.AddLabelToMessage(a, id, labelId);
    }

    method RecordProcessed(a: AccountId, id: MsgId, now: Time, dbErr: Option<Err>) returns (err: Option<Err>)
      modifies store`processed
      ensures err == WrapErr("failed to insert processed message", dbErr)
      ensures View(a) == if dbErr.None? then InsertRow(old(View(a)), id, now) else old(View(a))
      ensures forall b | b != a :: View(b) == old(View(b))
    {
      hide Slice;
      err := store.InsertProcessedMessage(a, id, now, dbErr);
    }

    method LabelFromManager(a: AccountId, name: string, io: LabelIO) returns (r: Result<LabelId>)
      modifies store`labelCache, gmail`labelTable
      ensures
        var got := GetOrCreateLabel(policy, LabelTables(old(View(a))), name, io);
        r == got.reply && View(a) == WithLabelTables(old(View(a)), got.state)
      ensures forall b | b != a :: View(b) == old(View(b))
    {
      hide GetOrCreateLabel, Slice;
      var labels := new LabelManager(policy, store, gmail, a);
      assert forall b :: labels.Tables(b) == LabelTables(View(b));
      r := labels.GetOrCreate(name, io);
      assert forall b :: labels.Tables(b) == LabelTables(View(b));
    }

    method LabelAndRecordMessage(a: AccountId, id: MsgId, name: string, io: MessageInput) returns (err: Option<Err>)
      modifies store`processed, store`labelCache, gmail, this`log
      ensures MessageResult(View(a), err) == LabelAndRecord(ConfigOf(a), old(View(a)), id, name, io)
      ensures forall b | b != a :: View(b) == old(View(b))
    {
      hide GetOrCreateLabel, View, AddLabel, InsertRow, Note, WithLabelTables;
      var got := LabelFromManager(a, name, io.labelIO);
      if got.Fail? {
        return Some(got.err);
      }
      if AddLabelsErr(id, io.addErr).Some? {
        if io.addArrived && id != "" {
          LabelMessage(a, id, got.value);
        }
        return AddLabelsErr(id, io.addErr);
      }
      LabelMessage(a, id, got.value);
      Log(a, LabelApplied(id));
      err := RecordProcessed(a, id, io.now, io.recordErr);
      Log(a, if err.Some? then RecordFailed(id) else Fated(id, Recorded));
    }

    method ProcessOne(a: AccountId, id: MsgId, io: MessageInput) returns (err: Option<Err>)
      modifies store`processed, store`labelCache, gmail, this`log
      ensures MessageResult(View(a), err) == ProcessMessage(ConfigOf(a), old(View(a)), id, io)
      ensures forall b | b != a :: View(b) == old(View(b))
    {
      hide LabelAndRecord, View, GetMessageErr, InsertRow, Note, LabelFor;
      var skip := ShouldSkipMessage(a, id, io);
      if skip.Fail? {
        return Some(skip.err);
      }
      if skip.value.Some? {
        Log(a, Fated(id, skip.value.value));
        return None;
      }
      if GetMessageErr(id, io.secondGetErr).Some? {
        return GetMessageErr(id, io.secondGetErr);
      }
      if io.decision.Fail? {
        return Some(io.decision.err);
      }
      if dryRun {
        Log(a, Fated(id, Previewed));
        return None;
      }
      var name := LabelFor(ConfigOf(a), io.decision.value);
      if name == "" {
        err := RecordProcessed(a, id, io.now, io.recordErr);
        if err.None? {
          Log(a, Fated(id, Recorded));
        }
        return;
      }
      err := LabelAndRecordMessage(a, id, name, io);
    }

    ghost method LogAll(a: AccountId, events: seq<Event>)
      modifies this`log
      ensures View(a) == NoteAll(old(View(a)), events)
      ensures forall b | b != a :: View(b) == old(View(b))
    {
      log := log[a := LogOf(a) + events];
    }

    /** One turn of the message loop, with the pause and the second attempt after a rate limit. */
    method ProcessTurn(a: AccountId, w: Work) returns (counted: nat, cancelled: bool)
      modifies store`processed, store`labelCache, gmail, this`log
      ensures BatchResult(View(a), counted, cancelled) == TakeTurn(ConfigOf(a), old(View(a)), w)
      ensures forall b | b != a :: View(b) == old(View(b))
    {
      hide ProcessMessage, IsRateLimitError, View, Note;
      if w.turn.cancelled {
        Log(a, Fated(w.id, Unreached));
        return 0, true;
      }
      var err := ProcessOne(a, w.id, w.turn.first);
      if err.None? {
        return 1, false;
      }
      if IsRateLimitError(err.value) {
        if w.turn.pauseCancelled {
          Log(a, Fated(w.id, Failed));
          return 0, true;
        }
        err := ProcessOne(a, w.id, w.turn.second);
        if err.None? {
          return 1, false;
        }
      }
      Log(a, Fated(w.id, Failed));
      return 0, false;
    }

    /** The message loop. */
    method ProcessBatch(a: AccountId, work: seq<Work>) returns (processed: nat, cancelled: bool)
      modifies store`processed, store`labelCache, gmail, this`log
      ensures BatchResult(View(a), processed, cancelled) == Batch(ConfigOf(a), old(View(a)), work)
      ensures forall b | b != a :: View(b) == old(View(b))
    {
      hide TakeTurn, View, NoteAll;
      processed, cancelled := 0, false;
      ghost var start := View(a);
      for i := 0 to |work|
        invariant
          var rest := Batch(ConfigOf(a), View(a), work[i..]);
          Batch(ConfigOf(a), start, work) == BatchResult(rest.state, processed + rest.processed, rest.cancelled)
        invariant forall b | b != a :: View(b) == old(View(b))
      {
        ghost var rest := work[i..];
        assert rest != [] && rest[0] == work[i] && rest[1..] == work[i + 1..];
        var counted, stop := ProcessTurn(a, work[i]);
        if stop {
          LogAll(a, Fates(Ids(work[i + 1..]), Unreached));
          return processed, true;
        }
        processed := processed + counted;
      }
    }

    /** Writes the cursor, if the tick brought a new one. */
    method SaveCursor(account: AccountRow, next: string, dbErr: Option<Err>) returns (err: Option<Err>)
      requires store.Valid() && account.id in store.accounts
      modifies store`accounts
      ensures store.Valid() && SameAccounts(old(store.accounts), store.accounts)
      ensures err == if CursorMoves(account.historyId, next) then WrapErr("failed to update history_id", dbErr) else None
      ensures
        var before := old(View(account.id));
        View(account.id) == if CursorMoves(account.historyId, next) && dbErr.None? then before.(cursor := next) else before
      ensures forall b | b != account.id :: View(b) == old(View(b))
    {
      hide Slice;
      err := None;
      if CursorMoves(account.historyId, next) {
        err := store.UpdateHistoryID(account.id, next, dbErr);
      }
    }

    method Fetch(known: string, sync: SyncInput) returns (r: Result<Fetched>)
      ensures r == FetchNewMessageIds(policy, known, sync)
      ensures known == "" && r.Ok? ==> r.value.ids == []
      ensures GoodCursor(known) && r.Ok? ==> Canonical(r.value.nextHistoryId)
      ensures GoodCursor(known) && known != "" ==> ParseUint(known).Some?
    {
      hide GetCurrentHistoryId, SyncHistory, RunFrom;
      if GoodCursor(known) {
        FetchKeepsGood(policy, known, sync);
      }
      var client := new Client(policy);
      if known == "" {
        var id := client.GetCurrentHistoryID(sync.profile);
        return if id.Fail? then Fail(id.err) else Ok(Fetched([], id.value));
      }
      var data := client.SyncSince(known, sync);
      r := if data.Fail? then Fail(data.err) else Ok(Fetched(data.value.ids, data.value.nextHistoryId));
    }

    /** processAccount: `account` is the row as the tick read it. */
    method ProcessOneAccount(account: AccountRow, io: AccountInput) returns (processed: nat, err: Option<Err>)
      requires store.Valid() && account.id in store.accounts
      modifies store`accounts, store`processed, store`labelCache, gmail, this`log
      ensures store.Valid() && SameAccounts(old(store.accounts), store.accounts)
      ensures AccountResult(View(account.id), processed, err)
        == ProcessAccount(ConfigOf(account.id), old(View(account.id)), account.historyId, io)
      ensures forall b | b != account.id :: View(b) == old(View(b))
    {
      hide Batch, FetchNewMessageIds, View;
      var a := account.id;
      if io.cancelled {
        return 0, Some(CONTEXT_CANCELED);
      }
      if io.clientErr.Some? {
        return 0, io.clientErr;
      }
      var fetched := Fetch(account.historyId, io.sync);
      if fetched.Fail? {
        return 0, Some(fetched.err);
      }
      var ids, next := fetched.value.ids, fetched.value.nextHistoryId;
      var todo := Throttle(ConfigOf(a), ids);
      var cancelled: bool;
      processed, cancelled := ProcessBatch(a, WorkOf(todo, io.turns));
      LogAll(a, Fates(ids[|todo|..], Throttled));
      var cursorErr := SaveCursor(account, next, io.cursorErr);
      err := if cancelled then Some(CONTEXT_CANCELED) else cursorErr;
    }

    /** The accounts that had their turn ended as if alone, and the others are as they were. */
    ghost predicate TurnsTaken(start: imap<AccountId, AccountState>, inputs: AccountId -> AccountInput, turns: set<AccountId>)
      requires forall a :: a in start
      reads this, store, gmail
    {
      forall a :: View(a) ==
        if a in turns then ProcessAccount(ConfigOf(a), start[a], start[a].cursor, inputs(a)).state else start[a]
    }

    /** The turn of one more account in a tick; its error is only logged. */
    method TakeTurnOf(account: AccountRow, inputs: AccountId -> AccountInput,
                      ghost start: imap<AccountId, AccountState>, ghost turns: set<AccountId>)
      requires store.Valid() && account.id in store.accounts && account.id !in turns
      requires (forall a :: a in start) && start[account.id].cursor == account.historyId
      requires TurnsTaken(start, inputs, turns)
      modifies store`accounts, store`processed, store`labelCache, gmail, this`log
      ensures store.Valid() && SameAccounts(old(store.accounts), store.accounts)
      ensures TurnsTaken(start, inputs, turns + {account.id})
    {
      hide View, ProcessAccount;
      var _, _ := ProcessOneAccount(account, inputs(account.id));
    }

    /**
     * tick: the accounts one after the other, a failed one only logged. `stopAfter` is
     * the number of accounts after which the context is found cancelled, if it is. Each account
     * that had its turn ends as if the tick had been for it alone; the others are untouched.
     */
    method Tick(cancelled: bool, listErr: Option<Err>, stopAfter: Option<nat>, inputs: AccountId -> AccountInput)
      returns (err: Option<Err>, ghost turns: set<AccountId>)
      requires store.Valid()
      modifies store`accounts, store`processed, store`labelCache, gmail, this`log
      ensures store.Valid() && SameAccounts(old(store.accounts), store.accounts)
      ensures turns <= store.accounts.Keys
      ensures err.None? ==> turns == store.accounts.Keys
      ensures !cancelled && listErr.None? && stopAfter.None? ==> err.None?
      ensures forall a | a in turns ::
        View(a) == ProcessAccount(ConfigOf(a), old(View(a)), old(View(a)).cursor, inputs(a)).state
      ensures forall a | a !in turns :: View(a) == old(View(a))
    {
      hide View, ProcessAccount, AtMost, IdsOf;
      turns := {};
      ghost var start := imap a: AccountId | true :: View(a);
      if cancelled {
        return Some(CONTEXT_CANCELED), turns;
      }
      var accounts := store.ListAccounts(listErr);
      if accounts.Fail? {
        return Some(accounts.err), turns;
      }
      var rows := accounts.value;
      ghost var table := store.accounts;
      forall i | 0 <= i < |rows|
        ensures rows[i].historyId == start[rows[i].id].cursor
      {
        CursorIsStored(rows[i].id);
      }
      NobodyYet(rows);
      for i := 0 to |rows|
        invariant store.Valid() && SameAccounts(table, store.accounts)
        invariant turns == IdsOf(rows[..i])
        invariant TurnsTaken(start, inputs, turns)
      {
        IdsOfPrefix(rows, i, table.Keys);
        if stopAfter == Some(i) {
          return Some(CONTEXT_CANCELED), turns;
        }
        TakeTurnOf(rows[i], inputs, start, turns);
        turns := turns + {rows[i].id};
      }
      IdsOfAll(rows, store.accounts);
      err := None;
    }

    // -------------------------------------------------------------- the admin server and the collector

    /** The reset-cursor request for one account, optionally with its processed rows. */
    method ResetCursorOf(a: AccountId, clearProcessed: bool, resetErr: Option<Err>, clearErr: Option<Err>) returns (err: Option<Err>)
      requires store.Valid() && a in store.accounts
      modifies store`accounts, store`processed, this`log
      ensures store.Valid() && SameAccounts(old(store.accounts), store.accounts)
      ensures err.Some? <==> resetErr.Some? || (clearProcessed && clearErr.Some?)
      ensures resetErr.None? ==> View(a).cursor == ""
      ensures clearProcessed && err.None? ==> View(a).rows == map[]
      ensures
        var reset := if resetErr.None? then ApplyAdmin(old(View(a)), ResetCursor) else old(View(a));
        View(a) == if clearProcessed && resetErr.None? && clearErr.None? then ApplyAdmin(reset, ClearRows) else reset
      ensures forall b | b != a :: View(b) == old(View(b))
    {
      hide Slice;
      err := store.ResetHistoryID(a, resetErr);
      if err.Some? || !clearProcessed {
        return;
      }
      ghost var rows := View(a).rows.Keys;
      var cleared := store.DeleteProcessedMessages(a, clearErr);
      if cleared.Fail? {
        return Some(cleared.err);
      }
      Log(a, RowsDeleted(rows));
    }

    ghost method LogDeletions(rows: map<AccountId, set<MsgId>>)
      modifies this`log
      ensures forall a :: View(a) == if a in rows then Note(old(View(a)), RowsDeleted(rows[a])) else old(View(a))
    {
      hide Slice;
      log := log + map a | a in rows :: LogOf(a) + [RowsDeleted(rows[a])];
    }

    method CollectRows(cutoff: Time, dbErr: Option<Err>) returns (r: Result<nat>)
      modifies store`processed
      ensures r.Ok? <==> dbErr.None?
      ensures forall a ::
        var before := old(View(a));
        View(a) == if r.Ok? then before.(rows := before.rows - RowsBefore(before.rows, cutoff)) else before
    {
      hide Slice, RowsBefore;
      r := store.GarbageCollectProcessedMessages(cutoff, dbErr);
    }

    /** One round of the garbage collector. */
    method CollectGarbage(cutoff: Time, dbErr: Option<Err>) returns (r: Result<nat>)
      modifies store`processed, this`log
      ensures dbErr.Some? ==> forall a :: View(a) == old(View(a))
      ensures dbErr.None? ==> forall a | a in store.accounts :: View(a) == ApplyAdmin(old(View(a)), Collect(cutoff))
      ensures dbErr.None? ==> forall a, id | a in store.accounts && id in old(View(a)).rows ::
        id in View(a).rows <==> old(View(a)).rows[id] >= cutoff
    {
      hide View, RowsBefore;
      ghost var deleted := map a | a in store.accounts :: RowsBefore(View(a).rows, cutoff);
      r := CollectRows(cutoff, dbErr);
      if r.Ok? {
        LogDeletions(deleted);
        forall a, id | a in store.accounts && id in old(View(a)).rows
          ensures id in View(a).rows <==> old(View(a)).rows[id] >= cutoff
        {
          OldRowsGo(old(View(a)), cutoff);
        }
      }
    }

    lemma CursorIsStored(a: AccountId)
      requires a in store.accounts
      ensures View(a).cursor == store.accounts[a].historyId
    {
      hide Slice;
    }
  }

  lemma OldRowsGo(s: AccountState, cutoff: Time)
    ensures forall id | id in s.rows :: id in ApplyAdmin(s, Collect(cutoff)).rows <==> s.rows[id] >= cutoff
  {
  }

  /** The same accounts, apart from their cursors. */
  ghost predicate SameAccounts(before: map<AccountId, AccountRow>, after: map<AccountId, AccountRow>) {
    && after.Keys == before.Keys
    && forall a | a in after :: after[a] == before[a].(historyId := after[a].historyId)
  }

  function IdsOf(rows: seq<AccountRow>): set<AccountId> {
    set i | 0 <= i < |rows| :: rows[i].id
  }

  lemma NobodyYet(rows: seq<AccountRow>)
    ensures IdsOf(rows[..0]) == {}
  {
  }

  lemma IdsOfPrefix(rows: seq<AccountRow>, i: nat, keys: set<AccountId>)
    requires i < |rows|
    requires forall j, k | 0 <= j < k < |rows| :: rows[j].id != rows[k].id
    requires forall j | 0 <= j < |rows| :: rows[j].id in keys
    ensures rows[i].id !in IdsOf(rows[..i]) && IdsOf(rows[..i]) <= keys
    ensures IdsOf(rows[..i + 1]) == IdsOf(rows[..i]) + {rows[i].id}
  {
    assert rows[..i + 1] == rows[..i] + [rows[i]];
  }

  lemma IdsOfAll(rows: seq<AccountRow>, accounts: map<AccountId, AccountRow>)
    requires forall i | 0 <= i < |rows| :: rows[i].id in accounts
    requires forall a | a in accounts :: Listed(rows, a)
    ensures IdsOf(rows[..|rows|]) == accounts.Keys
  {
    assert rows[..|rows|] == rows;
    forall a | a in accounts
      ensures a in IdsOf(rows)
    {
      assert Listed(rows, a);
    }
  }
}
