/** The cache never contradicts Gmail, in any run of label operations. */
module LabelProperties {
  import opened Errors
  import opened RetryEngine
  import opened Labels

  /** Every cached name has the id Gmail has for it. */
  ghost predicate CacheSound(st: LabelState) {
    forall name :: name in st.cache ==> name in st.server && st.cache[name] == st.server[name]
  }

  /** Gmail only gains labels, and keeps the ids it gave out. */
  ghost predicate Keeps(before: map<string, LabelId>, after: map<string, LabelId>) {
    forall name :: name in before ==> name in after && after[name] == before[name]
  }

  lemma {:induction false} ServerAfterKeeps(server: map<string, LabelId>, name: string, tries: CreateScript, n: nat)
    ensures Keeps(server, ServerAfter(server, name, tries, n))
    ensures name in server ==> ServerAfter(server, name, tries, n) == server
    ensures forall k: nat | k < n && name in ServerAfter(server, name, tries, k) ::
              name in ServerAfter(server, name, tries, n)
  {
    if n > 0 {
      ServerAfterKeeps(server, name, tries, n - 1);
    }
  }

  // ---------------------------------------------------------------- when a create succeeds

  /** A try that fails before it reaches Gmail, in a way that is retried. */
  predicate TryIsRepeated(t: CreateTry) {
    t.waitErr.None? && t.transport.NotSent? && IsRetryable(t.transport.err) && !t.cancelled
  }

  predicate TryArrives(t: CreateTry) {
    t.waitErr.None? && t.transport.Delivered?
  }

  /** The requests from one try on: failures that are repeated, then one that arrives and is answered. */
  predicate Arrives(maxRetries: int, tries: CreateScript, from: nat)
    decreases maxRetries - from
  {
    from <= maxRetries && (TryArrives(tries(from)) || (TryIsRepeated(tries(from)) && Arrives(maxRetries, tries, from + 1)))
  }

  /** When a run from one attempt on succeeds, in terms of that attempt and the rest. */
  lemma SuccessFrom(p: Policy, script: Script, from: nat)
    ensures
      var a := script(from);
      RunFrom(p, script, from).err.None?
      <==> && from <= p.maxRetries && a.waitErr.None?
           && (a.reply.None?
               || (IsRetryable(a.reply.value) && from < p.maxRetries && !a.cancelled && RunFrom(p, script, from + 1).err.None?))
  {
    hide IsRetryable;
  }

  lemma CreateCallAt(server: map<string, LabelId>, name: string, tries: CreateScript, k: nat)
    ensures
      var a, t := CreateCalls(server, name, tries)(k), tries(k);
      && a.waitErr == t.waitErr && a.cancelled == t.cancelled
      && a.reply == ServerReply(ServerAfter(server, name, tries, k), name, t.transport)
  {
    hide ServerAfter, ServerReply;
  }

  lemma {:induction false} CreateFrom(p: Policy, server: map<string, LabelId>, name: string, tries: CreateScript, from: nat)
    requires name !in server && ServerAfter(server, name, tries, from) == server
    ensures RunFrom(p, CreateCalls(server, name, tries), from).err.None? <==> Arrives(p.maxRetries, tries, from)
    decreases p.maxRetries - from
  {
    hide RunFrom, CreateCalls, IsRetryable;
    SuccessFrom(p, CreateCalls(server, name, tries), from);
    CreateCallAt(server, name, tries, from);
    if from <= p.maxRetries {
      if TryIsRepeated(tries(from)) {
        CreateFrom(p, server, name, tries, from + 1);
      } else if tries(from).transport.ReplyLost? {
        CreatedNameIsRefused(p, server, name, tries, from + 1);
      }
    }
  }

  /** Once the name is there, a lost reply included, no further request succeeds. */
  lemma {:induction false} CreatedNameIsRefused(p: Policy, server: map<string, LabelId>, name: string, tries: CreateScript, from: nat)
    requires name in ServerAfter(server, name, tries, from)
    ensures RunFrom(p, CreateCalls(server, name, tries), from).err.Some?
    decreases p.maxRetries - from
  {
    hide RunFrom, CreateCalls, IsRetryable;
    SuccessFrom(p, CreateCalls(server, name, tries), from);
    CreateCallAt(server, name, tries, from);
    if from < p.maxRetries {
      CreatedNameIsRefused(p, server, name, tries, from + 1);
    }
  }

  /** A create succeeds exactly if Gmail lacks the name and the requests go as `Arrives` says. */
  lemma CreateSucceedsExactly(p: Policy, server: map<string, LabelId>, name: string, tries: CreateScript)
    ensures RunFrom(p, CreateCalls(server, name, tries), 0).err.None? <==> name !in server && Arrives(p.maxRetries, tries, 0)
  {
    hide RunFrom;
    if name in server {
      CreatedNameIsRefused(p, server, name, tries, 0);
    } else {
      CreateFrom(p, server, name, tries, 0);
    }
  }

  /** After a create that succeeded Gmail has the name, with the id in its reply. */
  lemma CreatedIsThere(p: Policy, server: map<string, LabelId>, name: string, tries: CreateScript)
    ensures
      var o := RunFrom(p, CreateCalls(server, name, tries), 0);
      o.err.None? ==>
        && name in ServerAfter(server, name, tries, o.calls)
        && ServerAfter(server, name, tries, o.calls)[name] == CreatedId(tries, o.calls)
  {
    hide RunFrom, CreateCalls, IsRetryable;
    var script := CreateCalls(server, name, tries);
    var o := RunFrom(p, script, 0);
    RunFromContract(p, script, 0);
    if o.err.None? {
      CreateCallAt(server, name, tries, o.calls - 1);
    }
  }

  // ---------------------------------------------------------------- one use of a label

  /**
   * One use of a label: Gmail's table only grows, a sound cache stays sound, and an id that is
   * returned is the one Gmail has and the cache now holds.
   */
  lemma UseIsSound(p: Policy, st: LabelState, name: string, io: LabelIO)
    requires CacheSound(st)
    ensures
      var r := GetOrCreateLabel(p, st, name, io);
      && CacheSound(r.state)
      && Keeps(st.server, r.state.server)
      && Keeps(st.cache, r.state.cache)
      && (r.reply.Ok? ==>
            && name in r.state.server && r.state.server[name] == r.reply.value
            && name in r.state.cache)
  {
    hide RunFrom, CreateCalls, CreatedId, ServerAfter, Arrives;
    var o := RunFrom(p, CreateCalls(st.server, name, io.tries), 0);
    ServerAfterKeeps(st.server, name, io.tries, o.calls);
    CreatedIsThere(p, st.server, name, io.tries);
    CreateSucceedsExactly(p, st.server, name, io.tries);
  }

  /** A label Gmail has and the cache lacks cannot be used: every attempt fails and changes nothing. */
  lemma UncachedLabelIsRefused(p: Policy, st: LabelState, name: string, io: LabelIO)
    requires name in st.server && name !in st.cache
    ensures GetOrCreateLabel(p, st, name, io).reply.Fail?
    ensures GetOrCreateLabel(p, st, name, io).state == st
  {
    hide RunFrom, CreateCalls, ServerAfter;
    var o := RunFrom(p, CreateCalls(st.server, name, io.tries), 0);
    ServerAfterKeeps(st.server, name, io.tries, o.calls);
    CreateSucceedsExactly(p, st.server, name, io.tries);
  }

  // ---------------------------------------------------------------- SyncLabels

  /** The reply lists the label table as Gmail has it. */
  ghost predicate ListsServer(labels: seq<(string, LabelId)>, server: map<string, LabelId>) {
    forall name, id :: (name, id) in labels <==> name in server && server[name] == id
  }

  lemma {:induction false} CacheAllContents(cache: map<string, LabelId>, labels: seq<(string, LabelId)>, server: map<string, LabelId>)
    requires forall name, id :: (name, id) in labels ==> name in server && server[name] == id
    requires forall name :: name in cache ==> name in server && cache[name] == server[name]
    ensures
      var all := CacheAll(cache, labels);
      && (forall name :: name in all ==> name in server && all[name] == server[name])
      && (forall name :: name in all <==> name in cache || exists id :: (name, id) in labels)
  {
    if labels != [] {
      var init, last := labels[..|labels| - 1], labels[|labels| - 1];
      assert labels == init + [last];
      CacheAllContents(cache, init, server);
      var all := CacheAll(cache, labels);
      forall name
        ensures name in all <==> name in cache || exists id :: (name, id) in labels
      {
        if name == last.0 {
          assert (name, last.1) in labels;
        }
      }
    }
  }

  /** A sync keeps a sound cache sound, and one that ends without an error makes it complete. */
  lemma SyncIsSound(p: Policy, st: LabelState, io: ListIO)
    requires CacheSound(st) && ListsServer(io.labels, st.server)
    ensures
      var (after, err) := SyncLabels(p, st, io);
      && CacheSound(after)
      && after.server == st.server
      && Keeps(st.cache, after.cache)
      && (err.None? ==> after.cache == after.server)
  {
    hide RunFrom, CacheAll;
    var n := if io.writesOk < |io.labels| then io.writesOk else |io.labels|;
    CacheAllContents(st.cache, io.labels[..n], st.server);
    CacheAllContents(st.cache, io.labels, st.server);
    forall name | name in st.server
      ensures exists id :: (name, id) in io.labels
    {
      assert (name, st.server[name]) in io.labels;
    }
  }

  // ---------------------------------------------------------------- runs

  datatype Step =
    | Use(name: string, io: LabelIO)
    | Sync(list: ListIO)
    | UserCreates(labelName: string, id: LabelId)

  /** A step Gmail can take part in: labels.list answers with the label table. */
  ghost predicate Honest(st: LabelState, step: Step) {
    step.Sync? ==> ListsServer(step.list.labels, st.server)
  }

  function Next(p: Policy, st: LabelState, step: Step): LabelState {
    match step
    case Use(name, io) => GetOrCreateLabel(p, st, name, io).state
    case Sync(list) => SyncLabels(p, st, list).0
    case UserCreates(labelName, id) =>
      if labelName in st.server then st else st.(server := st.server[labelName := id])
  }

  function After(p: Policy, st: LabelState, steps: seq<Step>, n: nat): LabelState
    requires n <= |steps|
  {
    if n == 0 then st else Next(p, After(p, st, steps, n - 1), steps[n - 1])
  }

  ghost predicate HonestRun(p: Policy, st: LabelState, steps: seq<Step>) {
    forall k: nat | k < |steps| :: Honest(After(p, st, steps, k), steps[k])
  }

  lemma NextIsSound(p: Policy, st: LabelState, step: Step)
    requires CacheSound(st) && Honest(st, step)
    ensures
      var after := Next(p, st, step);
      CacheSound(after) && Keeps(st.server, after.server) && Keeps(st.cache, after.cache)
  {
    hide GetOrCreateLabel, SyncLabels;
    match step
    case Use(name, io) => UseIsSound(p, st, name, io);
    case Sync(list) => SyncIsSound(p, st, list);
    case UserCreates(_, _) =>
  }

  /** In every reachable state the cache is sound, and neither table ever loses or changes an entry. */
  lemma {:induction false} CacheSoundInEveryRun(p: Policy, st: LabelState, steps: seq<Step>, i: nat, j: nat)
    requires CacheSound(st) && HonestRun(p, st, steps)
    requires i <= j <= |steps|
    ensures CacheSound(After(p, st, steps, j))
    ensures Keeps(After(p, st, steps, i).server, After(p, st, steps, j).server)
    ensures Keeps(After(p, st, steps, i).cache, After(p, st, steps, j).cache)
    decreases j
  {
    hide Next;
    if j > 0 {
      if i < j {
        CacheSoundInEveryRun(p, st, steps, i, j - 1);
      } else {
        CacheSoundInEveryRun(p, st, steps, j - 1, j - 1);
      }
      NextIsSound(p, After(p, st, steps, j - 1), steps[j - 1]);
    }
  }

  /** What step k returned, when it was a use of a label. */
  function Reply(p: Policy, st: LabelState, steps: seq<Step>, k: nat): Result<LabelId>
    requires k < |steps| && steps[k].Use?
  {
    GetOrCreateLabel(p, After(p, st, steps, k), steps[k].name, steps[k].io).reply
  }

  /** All successful uses of a name in a run return one and the same id. */
  lemma OneIdPerName(p: Policy, st: LabelState, steps: seq<Step>, i: nat, j: nat)
    requires CacheSound(st) && HonestRun(p, st, steps)
    requires i <= j < |steps| && steps[i].Use? && steps[j].Use? && steps[i].name == steps[j].name
    requires Reply(p, st, steps, i).Ok? && Reply(p, st, steps, j).Ok?
    ensures Reply(p, st, steps, i) == Reply(p, st, steps, j)
  {
    hide GetOrCreateLabel, SyncLabels;
    CacheSoundInEveryRun(p, st, steps, i, i);
    CacheSoundInEveryRun(p, st, steps, j, j);
    CacheSoundInEveryRun(p, st, steps, i + 1, j + 1);
    UseIsSound(p, After(p, st, steps, i), steps[i].name, steps[i].io);
    UseIsSound(p, After(p, st, steps, j), steps[j].name, steps[j].io);
  }

  // ---------------------------------------------------------------- when a use creates

  /** A step that writes the name into the cache: a create that arrives and is cached, or a sync that gets that far. */
  predicate Fills(p: Policy, st: LabelState, step: Step, name: string) {
    match step
    case Use(used, io) =>
      && used == name && CallsCreate(st, name, io)
      && name !in st.server && Arrives(p.maxRetries, io.tries, 0) && io.writeErr.None?
    case Sync(list) =>
      && RunFrom(p, list.script, 0).err.None?
      && exists k | 0 <= k < |list.labels| && k < list.writesOk :: list.labels[k].0 == name
    case UserCreates(_, _) => false
  }

  lemma {:induction false} CachedNames(cache: map<string, LabelId>, labels: seq<(string, LabelId)>, name: string)
    ensures name in CacheAll(cache, labels) <==> name in cache || exists k | 0 <= k < |labels| :: labels[k].0 == name
  {
    if labels != [] {
      var init := labels[..|labels| - 1];
      CachedNames(cache, init, name);
      assert forall k | 0 <= k < |init| :: init[k] == labels[k];
      assert labels[|labels| - 1].0 == name ==> exists k | 0 <= k < |labels| :: labels[k].0 == name;
    }
  }

  lemma StepFillsExactly(p: Policy, st: LabelState, step: Step, name: string)
    ensures name in Next(p, st, step).cache <==> name in st.cache || Fills(p, st, step, name)
  {
    hide RunFrom, CacheAll, Arrives;
    match step
    case Use(used, io) =>
      CreateSucceedsExactly(p, st.server, used, io.tries);
    case Sync(list) =>
      var n := if list.writesOk < |list.labels| then list.writesOk else |list.labels|;
      CachedNames(st.cache, list.labels[..n], name);
      assert list.labels[..|list.labels|] == list.labels;
      assert forall k | 0 <= k < n :: list.labels[..n][k] == list.labels[k];
    case UserCreates(_, _) =>
  }

  /** Some step before the n-th wrote the name into the cache. */
  ghost predicate FilledBefore(p: Policy, st: LabelState, steps: seq<Step>, name: string, n: nat)
    requires n <= |steps|
  {
    exists k: nat | k < n :: Fills(p, After(p, st, steps, k), steps[k], name)
  }

  lemma {:induction false} CachedExactly(p: Policy, st: LabelState, steps: seq<Step>, name: string, n: nat)
    requires n <= |steps|
    ensures name in After(p, st, steps, n).cache <==> name in st.cache || FilledBefore(p, st, steps, name, n)
    decreases n
  {
    hide Next, Fills;
    if n > 0 {
      CachedExactly(p, st, steps, name, n - 1);
      StepFillsExactly(p, After(p, st, steps, n - 1), steps[n - 1], name);
      assert FilledBefore(p, st, steps, name, n - 1) ==> FilledBefore(p, st, steps, name, n);
    }
  }

  /**
   * In any run, whatever came before, a use of a name asks Gmail to create it exactly if the cache cannot
   * be read, or the name was not cached when the run began and no step since wrote it there: every earlier
   * create failed to arrive or to be cached, and no sync got as far as the name.
   */
  lemma CreatesExactly(p: Policy, st: LabelState, steps: seq<Step>, j: nat)
    requires j < |steps| && steps[j].Use?
    ensures
      CallsCreate(After(p, st, steps, j), steps[j].name, steps[j].io)
      <==> || steps[j].io.readErr.Some?
           || (steps[j].name !in st.cache && !FilledBefore(p, st, steps, steps[j].name, j))
  {
    hide Next, Fills;
    CachedExactly(p, st, steps, steps[j].name, j);
  }

  /**
   * So a use that asks for a create after an earlier use of the name has one of three causes: the earlier
   * create did not succeed, its cache write failed, or the cache cannot be read now.
   */
  lemma SecondCreateNeedsFailure(p: Policy, st: LabelState, steps: seq<Step>, i: nat, j: nat)
    requires i < j < |steps| && steps[i].Use? && steps[j].Use? && steps[i].name == steps[j].name
    requires CallsCreate(After(p, st, steps, j), steps[j].name, steps[j].io)
    ensures
      || steps[j].io.readErr.Some?
      || (&& CallsCreate(After(p, st, steps, i), steps[i].name, steps[i].io)
          && (|| steps[i].name in After(p, st, steps, i).server || !Arrives(p.maxRetries, steps[i].io.tries, 0)
              || steps[i].io.writeErr.Some?))
    ensures Reply(p, st, steps, i).Fail? || steps[j].io.readErr.Some?
  {
    hide Next;
    var before := After(p, st, steps, i);
    CreatesExactly(p, st, steps, j);
    CachedExactly(p, st, steps, steps[i].name, i);
    if steps[j].io.readErr.None? {
      assert !FilledBefore(p, st, steps, steps[i].name, i);
      assert !Fills(p, before, steps[i], steps[i].name);
      hide Arrives, CreateCalls, RunFrom;
      CreateSucceedsExactly(p, before.server, steps[i].name, steps[i].io.tries);
    }
  }

  // ---------------------------------------------------------------- each of the three causes occurs

  const NO_LABELS := LabelState(map[], map[])

  function Tries(t: Transport): CreateScript {
    (k: nat) => CreateTry(None, t, 0, false)
  }

  /** A use of the name "AI/Work" that reads the cache without an error. */
  function WorkUse(t: Transport, writeErr: Option<Err>): Step {
    Use("AI/Work", LabelIO(None, Tries(t), writeErr))
  }

  lemma OneUse(p: Policy, st: LabelState, step: Step)
    requires p.maxRetries >= 0 && step.Use? && step.io.tries(0).waitErr.None?
    requires CallsCreate(st, step.name, step.io)
    ensures
      var t := step.io.tries(0).transport;
      var r := GetOrCreateLabel(p, st, step.name, step.io);
      && (t.Delivered? && step.name !in st.server ==>
            && Next(p, st, step).server == st.server[step.name := t.newId]
            && (r.reply.Ok? <==> step.io.writeErr.None?)
            && Next(p, st, step).cache == if step.io.writeErr.None? then st.cache[step.name := t.newId] else st.cache)
      && (t.Delivered? && step.name in st.server ==> r.reply.Fail?)
      && (t.NotSent? && !IsRetryable(t.err) ==> r.reply.Fail? && Next(p, st, step) == st)
  {
    var script := CreateCalls(st.server, step.name, step.io.tries);
    assert ServerAfter(st.server, step.name, step.io.tries, 0) == st.server;
    assert ServerAfter(st.server, step.name, step.io.tries, 1) == ServerStep(st.server, step.name, step.io.tries(0).transport);
    assert !IsRetryable(CONFLICT);
    assert script(0).reply == ServerReply(st.server, step.name, step.io.tries(0).transport);
  }

  lemma AfterOne(p: Policy, st: LabelState, a: Step, b: Step)
    ensures After(p, st, [a, b], 1) == Next(p, st, a)
  {
    hide Next;
    assert After(p, st, [a, b], 0) == st;
  }

  /** A create that Gmail never sees is followed by a second one, and that one succeeds. */
  lemma CreateAfterFailedCreate(p: Policy, id: LabelId)
    requires p.maxRetries >= 0
    ensures
      var steps := [WorkUse(NotSent(Plain("connection refused")), None), WorkUse(Delivered(id), None)];
      && CallsCreate(NO_LABELS, "AI/Work", steps[0].io)
      && CallsCreate(After(p, NO_LABELS, steps, 1), "AI/Work", steps[1].io)
      && Reply(p, NO_LABELS, steps, 1).Ok?
  {
    hide GetOrCreateLabel;
    var a, b := WorkUse(NotSent(Plain("connection refused")), None), WorkUse(Delivered(id), None);
    AfterOne(p, NO_LABELS, a, b);
    OneUse(p, NO_LABELS, a);
    OneUse(p, NO_LABELS, b);
  }

  /** A create whose cache write fails is followed by a second one, and that one is refused. */
  lemma CreateAfterFailedWrite(p: Policy, id: LabelId, e: Err)
    requires p.maxRetries >= 0
    ensures
      var steps := [WorkUse(Delivered(id), Some(e)), WorkUse(Delivered(id), None)];
      && CallsCreate(After(p, NO_LABELS, steps, 1), "AI/Work", steps[1].io)
      && Reply(p, NO_LABELS, steps, 1).Fail?
  {
    hide GetOrCreateLabel;
    var a, b := WorkUse(Delivered(id), Some(e)), WorkUse(Delivered(id), None);
    AfterOne(p, NO_LABELS, a, b);
    OneUse(p, NO_LABELS, a);
    OneUse(p, Next(p, NO_LABELS, a), b);
  }

  /** A label that is created and cached is created again, and refused, when the cache cannot be read. */
  lemma CreateAfterFailedRead(p: Policy, id: LabelId, e: Err)
    requires p.maxRetries >= 0
    ensures
      var steps := [WorkUse(Delivered(id), None), Use("AI/Work", LabelIO(Some(e), Tries(Delivered(id)), None))];
      && Reply(p, NO_LABELS, steps, 0).Ok?
      && CallsCreate(After(p, NO_LABELS, steps, 1), "AI/Work", steps[1].io)
      && Reply(p, NO_LABELS, steps, 1).Fail?
  {
    hide GetOrCreateLabel;
    var a, b := WorkUse(Delivered(id), None), Use("AI/Work", LabelIO(Some(e), Tries(Delivered(id)), None));
    AfterOne(p, NO_LABELS, a, b);
    assert After(p, NO_LABELS, [a, b], 0) == NO_LABELS;
    OneUse(p, NO_LABELS, a);
    OneUse(p, Next(p, NO_LABELS, a), b);
  }

  lemma OtherUseKeepsUncached(p: Policy, st: LabelState, name: string, used: string, io: LabelIO)
    requires name in st.server && name !in st.cache && used != name
    ensures
      var after := GetOrCreateLabel(p, st, used, io).state;
      name in after.server && name !in after.cache
  {
    hide RunFrom, CreateCalls, ServerAfter;
    var calls := RunFrom(p, CreateCalls(st.server, used, io.tries), 0).calls;
    ServerAfterKeeps(st.server, used, io.tries, calls);
  }

  /**
   * After Gmail created a label whose cache write failed, no use of that name succeeds again
   * until a sync: each one is refused as a conflict.
   */
  lemma {:induction false} LostCacheWriteSticks(p: Policy, st: LabelState, steps: seq<Step>, name: string, n: nat)
    requires name in st.server && name !in st.cache
    requires n <= |steps| && forall k | 0 <= k < n :: !steps[k].Sync?
    ensures name in After(p, st, steps, n).server && name !in After(p, st, steps, n).cache
    ensures forall k: nat | k < n && steps[k].Use? && steps[k].name == name :: Reply(p, st, steps, k).Fail?
  {
    hide GetOrCreateLabel;
    if n > 0 {
      LostCacheWriteSticks(p, st, steps, name, n - 1);
      var before := After(p, st, steps, n - 1);
      if steps[n - 1].Use? {
        if steps[n - 1].name == name {
          UncachedLabelIsRefused(p, before, name, steps[n - 1].io);
        } else {
          OtherUseKeepsUncached(p, before, name, steps[n - 1].name, steps[n - 1].io);
        }
      }
    }
  }

  /** How a label gets into that state: the create succeeds and the write after it fails. */
  lemma FailedWriteLeavesLabelUncached(p: Policy, st: LabelState, name: string, io: LabelIO)
    requires CacheSound(st) && name !in st.cache && name !in st.server
    requires RunFrom(p, CreateCalls(st.server, name, io.tries), 0).err.None? && io.writeErr.Some?
    ensures
      var after := GetOrCreateLabel(p, st, name, io).state;
      name in after.server && name !in after.cache
  {
    hide RunFrom, CreateCalls, ServerAfter, CreatedId;
    CreatedIsThere(p, st.server, name, io.tries);
  }
}
