/** The label cache in front of Gmail's label table. */
module Labels {
  import opened Errors
  import opened RetryEngine

  type LabelId = string

  /** Both tables map a label name to its id, for one account. */
  datatype LabelState = LabelState(cache: map<string, LabelId>, server: map<string, LabelId>)

  /** The fate of one create request on the wire; `newId` is the id Gmail would give the label. */
  datatype Transport =
    | NotSent(err: Err)
    | Delivered(newId: LabelId)
    | ReplyLost(newId: LabelId, err: Err)

  datatype CreateTry = CreateTry(waitErr: Option<Err>, transport: Transport, now: int, cancelled: bool)

  type CreateScript = nat -> CreateTry

  /** What the store and Gmail do during one GetOrCreateLabel. */
  datatype LabelIO = LabelIO(readErr: Option<Err>, tries: CreateScript, writeErr: Option<Err>)

  datatype LabelResult = LabelResult(state: LabelState, reply: Result<LabelId>)

  // ---------------------------------------------------------------- Gmail's side

  /** Gmail keeps label names unique: a second create of a name is refused. */
  const CONFLICT: Err := Api(ApiError(409, "", "Label name exists or conflicts"))

  function ServerStep(server: map<string, LabelId>, name: string, t: Transport): map<string, LabelId> {
    if t.NotSent? || name in server then server else server[name := t.newId]
  }

  function ServerReply(server: map<string, LabelId>, name: string, t: Transport): Option<Err> {
    match t
    case NotSent(e) => Some(e)
    case ReplyLost(_, e) => Some(e)
    case Delivered(_) => if name in server then Some(CONFLICT) else None
  }

  /** Gmail's table after the first n create requests. */
  function ServerAfter(server: map<string, LabelId>, name: string, tries: CreateScript, n: nat): map<string, LabelId> {
    if n == 0 then server
    else ServerStep(ServerAfter(server, name, tries, n - 1), name, tries(n - 1).transport)
  }

  function CreateCalls(server: map<string, LabelId>, name: string, tries: CreateScript): Script {
    (k: nat) => Attempt(
        tries(k).waitErr,
        ServerReply(ServerAfter(server, name, tries, k), name, tries(k).transport),
        tries(k).now,
        tries(k).cancelled)
  }

  // ---------------------------------------------------------------- the label manager

  /** The id in the reply to the last create request. */
  function CreatedId(tries: CreateScript, calls: nat): LabelId {
    if calls > 0 && tries(calls - 1).transport.Delivered? then tries(calls - 1).transport.newId else ""
  }

  function UpsertErr(e: Err): Err {
    Wrapped("failed to upsert label", e)
  }

  function CreateLabel(p: Policy, st: LabelState, name: string, io: LabelIO): LabelResult {
    var o := RunFrom(p, CreateCalls(st.server, name, io.tries), 0);
    var created := st.(server := ServerAfter(st.server, name, io.tries, o.calls));
    if o.err.Some? then LabelResult(created, Fail(Wrapped("failed to create label " + name, o.err.value)))
    else if io.writeErr.Some? then
      LabelResult(created, Fail(Wrapped("failed to cache created label " + name, UpsertErr(io.writeErr.value))))
    else
      var id := CreatedId(io.tries, o.calls);
      LabelResult(created.(cache := st.cache[name := id]), Ok(id))
  }

  /** A cache that does not answer, for whatever reason, leads to a create. */
  predicate CallsCreate(st: LabelState, name: string, io: LabelIO) {
    io.readErr.Some? || name !in st.cache
  }

  function GetOrCreateLabel(p: Policy, st: LabelState, name: string, io: LabelIO): LabelResult {
    if CallsCreate(st, name, io) then CreateLabel(p, st, name, io)
    else LabelResult(st, Ok(st.cache[name]))
  }

  /** A labels.list call, the labels in its reply, how many cache writes succeed, and the error of the next. */
  datatype ListIO = ListIO(script: Script, labels: seq<(string, LabelId)>, writesOk: nat, writeErr: Err)

  function CacheAll(cache: map<string, LabelId>, labels: seq<(string, LabelId)>): map<string, LabelId> {
    if labels == [] then cache
    else
      var last := labels[|labels| - 1];
      CacheAll(cache, labels[..|labels| - 1])[last.0 := last.1]
  }

  function SyncLabels(p: Policy, st: LabelState, io: ListIO): (LabelState, Option<Err>) {
    var o := RunFrom(p, io.script, 0);
    if o.err.Some? then (st, Some(Wrapped("failed to list labels", o.err.value)))
    else if io.writesOk < |io.labels| then
      (st.(cache := CacheAll(st.cache, io.labels[..io.writesOk])),
       Some(Wrapped("failed to cache label " + io.labels[io.writesOk].0, UpsertErr(io.writeErr))))
    else (st.(cache := CacheAll(st.cache, io.labels)), None)
  }
}
