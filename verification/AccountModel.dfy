/**
 * One account as the pipeline sees it: its rows in the store, its part of Gmail, and what a
 * polling cycle does to them. Gmail, the LLM, the clock and failing writes are inputs.
 */
module AccountModel {
  import opened Errors
  import opened RetryEngine
  import opened HistorySync
  import opened Labels

  type Time = int

  const AI_LABEL_PREFIX := "AI/"
  const DEFAULT_MAX_MESSAGES_PER_TICK := 50

  /** How the pipeline is done with an id it fetched. */
  datatype Fate =
    | Recorded    // classified, labelled if its category has a label, and recorded
    | HadRow      // skipped: already recorded
    | HadAILabel  // skipped: already carries an AI label
    | Previewed   // classified in dry-run mode
    | Failed      // given up on with an error
    | Unreached   // left over by a cancellation
    | Throttled   // cut off by the per-tick limit

  /** The history of an account, kept for the statements about runs only. */
  datatype Event =
    | LabelApplied(id: MsgId)           // AddLabels succeeded
    | RecordFailed(id: MsgId)           // the record write after it failed
    | RowsDeleted(ids: set<MsgId>)      // processed rows removed
    | Fated(id: MsgId, fate: Fate)

  datatype AccountState = AccountState(
    cursor: string,                       // accounts.history_id
    rows: map<MsgId, Time>,               // processed_messages
    cache: map<string, LabelId>,          // label_cache
    server: map<string, LabelId>,         // Gmail's label table
    onMessage: map<MsgId, set<LabelId>>,  // Gmail's labels on each message
    log: seq<Event>)

  datatype Config = Config(
    policy: Policy,
    categories: map<string, string>,  // category name to label name
    aiLabels: set<LabelId>,           // the account's entry in aiLabelIDs
    dryRun: bool,
    maxMessages: Option<int>)

  /** Everything the world decides while one message is processed once. */
  datatype MessageInput = MessageInput(
    existsErr: Option<Err>,      // reading processed_messages
    firstGetErr: Option<Err>,    // GetMessage for the skip check
    secondGetErr: Option<Err>,   // GetMessage for the body
    decision: Result<string>,    // the category the LLM chose
    labelIO: LabelIO,
    addErr: Option<Err>,         // AddLabels
    addArrived: bool,            // whether a failed AddLabels reached Gmail all the same
    recordErr: Option<Err>,      // writing processed_messages
    now: Time)

  // ---------------------------------------------------------------- one message

  function Note(s: AccountState, e: Event): AccountState {
    s.(log := s.log + [e])
  }

  function LabelsOn(s: AccountState, id: MsgId): set<LabelId> {
    if id in s.onMessage then s.onMessage[id] else {}
  }

  predicate HasAILabel(cfg: Config, s: AccountState, id: MsgId) {
    LabelsOn(s, id) * cfg.aiLabels != {}
  }

  /** GetMessage and AddLabels refuse an empty id and wrap the API's error. */
  function GetMessageErr(id: MsgId, err: Option<Err>): Option<Err> {
    if id == "" then Some(Plain("message ID is required"))
    else if err.None? then None
    else Some(Wrapped("failed to get message " + id, err.value))
  }

  function AddLabelsErr(id: MsgId, err: Option<Err>): Option<Err> {
    if id == "" then Some(Plain("message ID is required"))
    else if err.None? then None
    else Some(Wrapped("failed to add labels to message " + id, err.value))
  }

  function RecordErr(io: MessageInput): Option<Err> {
    WrapErr("failed to insert processed message", io.recordErr)
  }

  function AddLabel(s: AccountState, id: MsgId, labelId: LabelId): AccountState {
    s.(onMessage := s.onMessage[id := LabelsOn(s, id) + {labelId}])
  }

  /** INSERT … ON CONFLICT DO NOTHING. */
  function InsertRow(s: AccountState, id: MsgId, now: Time): AccountState {
    if id in s.rows then s else s.(rows := s.rows[id := now])
  }

  function LabelFor(cfg: Config, category: string): string {
    if category in cfg.categories then cfg.categories[category] else ""
  }

  function LabelTables(s: AccountState): LabelState {
    LabelState(s.cache, s.server)
  }

  function WithLabelTables(s: AccountState, st: LabelState): AccountState {
    s.(cache := st.cache, server := st.server)
  }

  datatype MessageResult = MessageResult(state: AccountState, err: Option<Err>)

  /** shouldSkipMessage: an error, a reason to skip, or neither. */
  function SkipReason(cfg: Config, s: AccountState, id: MsgId, io: MessageInput): Result<Option<Fate>> {
    if io.existsErr.Some? then Fail(Wrapped("failed to check processed message", io.existsErr.value))
    else if id in s.rows then Ok(Some(HadRow))
    else if GetMessageErr(id, io.firstGetErr).Some? then Fail(GetMessageErr(id, io.firstGetErr).value)
    else if HasAILabel(cfg, s, id) then Ok(Some(HadAILabel))
    else Ok(None)
  }

  /** Steps 5 to 7: label, apply, record. */
  function LabelAndRecord(cfg: Config, s: AccountState, id: MsgId, name: string, io: MessageInput): MessageResult {
    var got := GetOrCreateLabel(cfg.policy, LabelTables(s), name, io.labelIO);
    var labelled := WithLabelTables(s, got.state);
    if got.reply.Fail? then MessageResult(labelled, Some(got.reply.err))
    else if AddLabelsErr(id, io.addErr).Some? then
      var s' := if io.addArrived && id != "" then AddLabel(labelled, id, got.reply.value) else labelled;
      MessageResult(s', AddLabelsErr(id, io.addErr))
    else
      var applied := Note(AddLabel(labelled, id, got.reply.value), LabelApplied(id));
      if io.recordErr.Some? then MessageResult(Note(applied, RecordFailed(id)), RecordErr(io))
      else MessageResult(Note(InsertRow(applied, id, io.now), Fated(id, Recorded)), None)
  }

  function ProcessMessage(cfg: Config, s: AccountState, id: MsgId, io: MessageInput): MessageResult {
    match SkipReason(cfg, s, id, io)
    case Fail(e) => MessageResult(s, Some(e))
    case Ok(Some(fate)) => MessageResult(Note(s, Fated(id, fate)), None)
    case Ok(None) =>
      if GetMessageErr(id, io.secondGetErr).Some? then MessageResult(s, GetMessageErr(id, io.secondGetErr))
      else if io.decision.Fail? then MessageResult(s, Some(io.decision.err))
      else if cfg.dryRun then MessageResult(Note(s, Fated(id, Previewed)), None)
      else
        var name := LabelFor(cfg, io.decision.value);
        if name != "" then LabelAndRecord(cfg, s, id, name, io)
        else if io.recordErr.Some? then MessageResult(s, RecordErr(io))
        else MessageResult(Note(InsertRow(s, id, io.now), Fated(id, Recorded)), None)
  }

  // ---------------------------------------------------------------- one batch

  /** The world's part in one turn of the message loop; `second` is used after a rate-limit pause. */
  datatype Turn = Turn(cancelled: bool, first: MessageInput, pauseCancelled: bool, second: MessageInput)

  datatype Work = Work(id: MsgId, turn: Turn)

  datatype BatchResult = BatchResult(state: AccountState, processed: nat, cancelled: bool)

  function Fates(ids: seq<MsgId>, fate: Fate): seq<Event> {
    seq(|ids|, i requires 0 <= i < |ids| => Fated(ids[i], fate))
  }

  function Ids(work: seq<Work>): seq<MsgId> {
    seq(|work|, i requires 0 <= i < |work| => work[i].id)
  }

  function NoteAll(s: AccountState, events: seq<Event>): AccountState {
    s.(log := s.log + events)
  }

  /** One turn: the state after it, whether it counted, and whether it saw the cancellation. */
  function TakeTurn(cfg: Config, s: AccountState, w: Work): BatchResult {
    if w.turn.cancelled then BatchResult(Note(s, Fated(w.id, Unreached)), 0, true)
    else
      var r := ProcessMessage(cfg, s, w.id, w.turn.first);
      if r.err.None? then BatchResult(r.state, 1, false)
      else if !IsRateLimitError(r.err.value) then BatchResult(Note(r.state, Fated(w.id, Failed)), 0, false)
      else if w.turn.pauseCancelled then BatchResult(Note(r.state, Fated(w.id, Failed)), 0, true)
      else
        var again := ProcessMessage(cfg, r.state, w.id, w.turn.second);
        if again.err.None? then BatchResult(again.state, 1, false)
        else BatchResult(Note(again.state, Fated(w.id, Failed)), 0, false)
  }

  function Batch(cfg: Config, s: AccountState, work: seq<Work>): BatchResult
    decreases |work|
  {
    if work == [] then BatchResult(s, 0, false)
    else
      var turn := TakeTurn(cfg, s, work[0]);
      if turn.cancelled then BatchResult(NoteAll(turn.state, Fates(Ids(work[1..]), Unreached)), 0, true)
      else
        var rest := Batch(cfg, turn.state, work[1..]);
        BatchResult(rest.state, turn.processed + rest.processed, rest.cancelled)
  }

  // ---------------------------------------------------------------- one account in one tick

  datatype AccountInput = AccountInput(
    cancelled: bool,
    clientErr: Option<Err>,
    sync: SyncInput,
    turns: nat -> Turn,
    cursorErr: Option<Err>)

  datatype Fetched = Fetched(ids: seq<MsgId>, nextHistoryId: string)

  function FetchNewMessageIds(p: Policy, known: string, sync: SyncInput): Result<Fetched> {
    if known == "" then
      match GetCurrentHistoryId(p, sync.profile)
      case Fail(e) => Fail(e)
      case Ok(id) => Ok(Fetched([], id))
    else
      match SyncHistory(p, known, sync)
      case Fail(e) => Fail(e)
      case Ok(data) => Ok(Fetched(data.ids, data.nextHistoryId))
  }

  /** nil means the default, zero or less means no limit. */
  function Throttle(cfg: Config, ids: seq<MsgId>): seq<MsgId> {
    var limit := if cfg.maxMessages.None? then DEFAULT_MAX_MESSAGES_PER_TICK else cfg.maxMessages.value;
    if limit > 0 && |ids| > limit then ids[..limit] else ids
  }

  function WorkOf(ids: seq<MsgId>, turns: nat -> Turn): seq<Work> {
    seq(|ids|, i requires 0 <= i < |ids| => Work(ids[i], turns(i)))
  }

  predicate CursorMoves(known: string, next: string) {
    next != "" && next != known
  }

  datatype AccountResult = AccountResult(state: AccountState, processed: nat, err: Option<Err>)

  /** The messages of a tick: the batch, and the tail that the limit cut off. */
  function RunFetched(cfg: Config, s: AccountState, ids: seq<MsgId>, turns: nat -> Turn): BatchResult {
    var todo := Throttle(cfg, ids);
    var b := Batch(cfg, s, WorkOf(todo, turns));
    b.(state := NoteAll(b.state, Fates(ids[|todo|..], Throttled)))
  }

  /** `known` is the cursor in the account value that the tick read when it began. */
  function ProcessAccount(cfg: Config, s: AccountState, known: string, io: AccountInput): AccountResult {
    if io.cancelled then AccountResult(s, 0, Some(CONTEXT_CANCELED))
    else if io.clientErr.Some? then AccountResult(s, 0, io.clientErr)
    else
      match FetchNewMessageIds(cfg.policy, known, io.sync)
      case Fail(e) => AccountResult(s, 0, Some(e))
      case Ok(Fetched(ids, next)) =>
        var b := RunFetched(cfg, s, ids, io.turns);
        var saved := if CursorMoves(known, next) && io.cursorErr.None? then b.state.(cursor := next) else b.state;
        AccountResult(
          saved,
          b.processed,
          if b.cancelled then Some(CONTEXT_CANCELED)
          else if CursorMoves(known, next) then WrapErr("failed to update history_id", io.cursorErr)
          else None)
  }

  // ---------------------------------------------------------------- what else happens to an account

  datatype AdminOp =
    | ResetCursor             // ResetHistoryID, ResetAllHistoryIDs
    | ClearRows               // DeleteProcessedMessages, DeleteAllProcessedMessages
    | Collect(cutoff: Time)   // GarbageCollectProcessedMessages

  function RowsBefore(rows: map<MsgId, Time>, cutoff: Time): set<MsgId> {
    set id | id in rows && rows[id] < cutoff
  }

  function DeleteRows(s: AccountState, ids: set<MsgId>): AccountState {
    Note(s.(rows := s.rows - ids), RowsDeleted(ids))
  }

  function ApplyAdmin(s: AccountState, op: AdminOp): AccountState {
    match op
    case ResetCursor => s.(cursor := "")
    case ClearRows => DeleteRows(s, s.rows.Keys)
    case Collect(cutoff) => DeleteRows(s, RowsBefore(s.rows, cutoff))
  }

  /** A crash in the middle of message number `at`, possibly during its second attempt: the cursor stays. */
  function CrashDuring(cfg: Config, s: AccountState, io: AccountInput, at: nat, retried: bool): AccountState {
    if io.cancelled || io.clientErr.Some? then s
    else
      match FetchNewMessageIds(cfg.policy, s.cursor, io.sync)
      case Fail(_) => s
      case Ok(Fetched(ids, _)) =>
        var work := WorkOf(Throttle(cfg, ids), io.turns);
        var b := Batch(cfg, s, if at < |work| then work[..at] else work);
        if b.cancelled || at >= |work| then b.state
        else
          var first := ProcessMessage(cfg, b.state, work[at].id, work[at].turn.first).state;
          if retried then ProcessMessage(cfg, first, work[at].id, work[at].turn.second).state else first
  }

  datatype Step =
    | Tick(cfg: Config, io: AccountInput)
    | Crash(crashCfg: Config, crashIo: AccountInput, at: nat, retried: bool)
    | Admin(op: AdminOp)
    | Relabel(id: MsgId, labels: set<LabelId>)   // somebody edits a message's labels in Gmail

  function Next(s: AccountState, step: Step): AccountState {
    match step
    case Tick(cfg, io) => ProcessAccount(cfg, s, s.cursor, io).state
    case Crash(cfg, io, at, retried) => CrashDuring(cfg, s, io, at, retried)
    case Admin(op) => ApplyAdmin(s, op)
    case Relabel(id, labels) => s.(onMessage := s.onMessage[id := labels])
  }

  function RunSteps(s: AccountState, steps: seq<Step>): AccountState {
    if steps == [] then s else Next(RunSteps(s, steps[..|steps| - 1]), steps[|steps| - 1])
  }
}
