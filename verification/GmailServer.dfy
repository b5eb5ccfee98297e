/** Gmail's own tables for all accounts, and the label manager that works on one of them through the cache. */
module GmailServer {
  import opened Errors
  import opened RetryEngine
  import opened HistorySync
  import opened Labels
  import opened StoreTables

  class Gmail {
    var labelTable: map<(AccountId, string), LabelId>
    var messageLabels: map<(AccountId, MsgId), set<LabelId>>

    constructor ()
    {
      labelTable, messageLabels := map[], map[];
    }

    /** One labels.create request and its reply. */
    method Create(a: AccountId, name: string, t: Transport) returns (reply: Option<Err>)
      modifies this`labelTable
      ensures reply == ServerReply(old(Slice(labelTable, a)), name, t)
      ensures Slice(labelTable, a) == ServerStep(old(Slice(labelTable, a)), name, t)
      ensures forall b | b != a :: Slice(labelTable, b) == old(Slice(labelTable, b))
    {
      SliceEntry(labelTable, a, name);
      reply := if t.NotSent? || t.ReplyLost? then Some(t.err)
               else if (a, name) in labelTable then Some(CONFLICT) else None;
      if !t.NotSent? && (a, name) !in labelTable {
        forall b {
          SliceUpdate(labelTable, a, name, t.newId, b);
        }
        labelTable := labelTable[(a, name) := t.newId];
      }
    }

    method LabelsOnMessage(a: AccountId, id: MsgId) returns (labels: set<LabelId>)
      ensures labels == if id in Slice(messageLabels, a) then Slice(messageLabels, a)[id] else {}
    {
      SliceEntry(messageLabels, a, id);
      labels := if (a, id) in messageLabels then messageLabels[(a, id)] else {};
    }

    method AddLabelToMessage(a: AccountId, id: MsgId, labelId: LabelId)
      modifies this`messageLabels
      ensures
        var before := old(Slice(messageLabels, a));
        Slice(messageLabels, a) == before[id := (if id in before then before[id] else {}) + {labelId}]
      ensures forall b | b != a :: Slice(messageLabels, b) == old(Slice(messageLabels, b))
    {
      var labels := LabelsOnMessage(a, id);
      forall b {
        SliceUpdate(messageLabels, a, id, labels + {labelId}, b);
      }
      messageLabels := messageLabels[(a, id) := labels + {labelId}];
    }
  }

  class LabelManager {
    const policy: Policy
    const store: Store
    const gmail: Gmail
    const account: AccountId

    constructor (policy: Policy, store: Store, gmail: Gmail, account: AccountId)
      ensures this.policy == policy && this.store == store && this.gmail == gmail && this.account == account
    {
      this.policy, this.store, this.gmail, this.account := policy, store, gmail, account;
    }

    /** The cache and Gmail's label table, as the label manager sees them for an account. */
    ghost function Tables(a: AccountId): LabelState
      reads store, gmail
    {
      LabelState(Slice(store.labelCache, a), Slice(gmail.labelTable, a))
    }

    method SyncAllLabels(io: ListIO) returns (err: Option<Err>)
      modifies store`labelCache
      ensures (Tables(account), err) == SyncLabels(policy, old(Tables(account)), io)
      ensures forall b | b != account :: Tables(b) == old(Tables(b))
    {
      var _, _, listErr := DoWithOp(policy, io.script);
      if listErr.Some? {
        return Some(Wrapped("failed to list labels", listErr.value));
      }
      for i := 0 to |io.labels|
        invariant i <= io.writesOk
        invariant Tables(account).cache == CacheAll(old(Tables(account)).cache, io.labels[..i])
        invariant forall b | b != account :: Tables(b) == old(Tables(b))
      {
        assert io.labels[..i + 1][..i] == io.labels[..i];
        var upsertErr := store.UpsertLabel(account, io.labels[i].0, io.labels[i].1, if i == io.writesOk then Some(io.writeErr) else None);
        if upsertErr.Some? {
          return Some(Wrapped("failed to cache label " + io.labels[i].0, upsertErr.value));
        }
      }
      assert io.labels[..|io.labels|] == io.labels;
      err := None;
    }

    /** The create requests of a retried call, one after the other; the id in the last reply. */
    method SendRequests(name: string, tries: CreateScript, calls: nat) returns (created: LabelId)
      modifies gmail`labelTable
      ensures created == CreatedId(tries, calls)
      ensures Slice(gmail.labelTable, account) == ServerAfter(old(Slice(gmail.labelTable, account)), name, tries, calls)
      ensures forall b | b != account :: Slice(gmail.labelTable, b) == old(Slice(gmail.labelTable, b))
    {
      hide Slice;
      ghost var start := Slice(gmail.labelTable, account);
      created := "";
      for k := 0 to calls
        invariant Slice(gmail.labelTable, account) == ServerAfter(start, name, tries, k)
        invariant created == CreatedId(tries, k)
        invariant forall b | b != account :: Slice(gmail.labelTable, b) == old(Slice(gmail.labelTable, b))
      {
        var t := tries(k).transport;
        var reply := gmail.Create(account, name, t);
        assert reply == CreateCalls(start, name, tries)(k).reply;
        created := if t.Delivered? then t.newId else "";
      }
    }

    /** Creates the label in Gmail, one request per call of the retry loop, and caches it. */
    method Create(name: string, io: LabelIO) returns (r: Result<LabelId>)
      modifies store`labelCache, gmail`labelTable
      ensures LabelResult(Tables(account), r) == CreateLabel(policy, old(Tables(account)), name, io)
      ensures forall b | b != account :: Tables(b) == old(Tables(b))
    {
      hide RunFrom, Slice;
      var start := Slice(gmail.labelTable, account);
      var calls, _, err := DoWithOp(policy, CreateCalls(start, name, io.tries));
      var created := SendRequests(name, io.tries, calls);
      if err.Some? {
        return Fail(Wrapped("failed to create label " + name, err.value));
      }
      var cacheErr := store.UpsertLabel(account, name, created, io.writeErr);
      if cacheErr.Some? {
        return Fail(Wrapped("failed to cache created label " + name, cacheErr.value));
      }
      r := Ok(created);
    }

    method GetOrCreate(name: string, io: LabelIO) returns (r: Result<LabelId>)
      modifies store`labelCache, gmail`labelTable
      ensures LabelResult(Tables(account), r) == GetOrCreateLabel(policy, old(Tables(account)), name, io)
      ensures forall b | b != account :: Tables(b) == old(Tables(b))
    {
      var cached := store.GetLabel(account, name, io.readErr);
      if cached.Ok? {
        return cached;
      }
      r := Create(name, io);
    }
  }
}
