/** Listing the messages added since a history cursor, page by page, inside the retry loop. */
module HistorySync {
  import opened Errors
  import opened Decimal
  import opened RetryEngine

  type MsgId = string

  /** A "message added" entry of a history record; the API may leave the message or its id out. */
  datatype Added = NoMessage | Message(id: MsgId)

  datatype HistoryPage = HistoryPage(history: seq<seq<Added>>, historyId: Uint64)

  datatype MessagePage = MessagePage(ids: seq<MsgId>)

  /** A listing under retry: `pages(k)` are the pages that call k delivered before it ended or failed. */
  datatype Listing<!T> = Listing(script: Script, pages: nat -> seq<T>)

  /** The profile call, and the history id in its reply. */
  datatype Profile = Profile(script: Script, historyId: Uint64)

  datatype SyncInput = SyncInput(
    history: Listing<HistoryPage>,
    messages: Listing<MessagePage>,
    profile: Profile)

  datatype HistoryData = HistoryData(ids: seq<MsgId>, nextHistoryId: string, bootstrapped: bool)

  // ---------------------------------------------------------------- what the listing yields

  function RecordIds(record: seq<Added>): seq<MsgId> {
    if record == [] then []
    else
      var last := record[|record| - 1];
      RecordIds(record[..|record| - 1]) + (if last.Message? && last.id != "" then [last.id] else [])
  }

  function RecordsIds(records: seq<seq<Added>>): seq<MsgId> {
    if records == [] then []
    else RecordsIds(records[..|records| - 1]) + RecordIds(records[|records| - 1])
  }

  function HistoryIds(pages: seq<HistoryPage>): seq<MsgId> {
    if pages == [] then []
    else HistoryIds(pages[..|pages| - 1]) + RecordsIds(pages[|pages| - 1].history)
  }

  function NonEmptyIds(ids: seq<MsgId>): seq<MsgId> {
    if ids == [] then []
    else NonEmptyIds(ids[..|ids| - 1]) + (if ids[|ids| - 1] != "" then [ids[|ids| - 1]] else [])
  }

  function MessageIds(pages: seq<MessagePage>): seq<MsgId> {
    if pages == [] then []
    else MessageIds(pages[..|pages| - 1]) + NonEmptyIds(pages[|pages| - 1].ids)
  }

  /** The history id after some pages: each page that names one overwrites it. */
  function NextHistoryId(pages: seq<HistoryPage>): string {
    if pages == [] then ""
    else
      var last := pages[|pages| - 1].historyId;
      if last != 0 then Print(last) else NextHistoryId(pages[..|pages| - 1])
  }

  lemma OnePageMore(pages: seq<HistoryPage>, page: HistoryPage)
    ensures HistoryIds(pages + [page]) == HistoryIds(pages) + RecordsIds(page.history)
    ensures NextHistoryId(pages + [page]) == if page.historyId != 0 then Print(page.historyId) else NextHistoryId(pages)
  {
    assert (pages + [page])[..|pages|] == pages;
  }

  /** Every page the first n calls delivered: a retry starts again at the first page and keeps what came before. */
  function Delivered<T>(pages: nat -> seq<T>, n: nat): seq<T> {
    if n == 0 then [] else Delivered(pages, n - 1) + pages(n - 1)
  }

  // ---------------------------------------------------------------- the three calls

  function GetCurrentHistoryId(p: Policy, profile: Profile): Result<string> {
    var o := RunFrom(p, profile.script, 0);
    if o.err.Some? then Fail(Wrapped("failed to get profile", o.err.value))
    else if profile.historyId == 0 then Fail(Plain("no history ID available"))
    else Ok(Print(profile.historyId))
  }

  function Bootstrap(p: Policy, io: SyncInput): Result<HistoryData> {
    var o := RunFrom(p, io.messages.script, 0);
    if o.err.Some? then Fail(Wrapped("failed to bootstrap messages", o.err.value))
    else
      match GetCurrentHistoryId(p, io.profile)
      case Fail(e) => Fail(Wrapped("failed to get history ID after bootstrap", e))
      case Ok(next) => Ok(HistoryData(MessageIds(Delivered(io.messages.pages, o.calls)), next, true))
  }

  /** The type assertion on the error: a bare API error with status 404. */
  predicate IsNotFound(e: Err) {
    e.Api? && e.error.code == 404
  }

  function SyncHistory(p: Policy, start: string, io: SyncInput): Result<HistoryData> {
    if start == "" then Fail(Plain("startHistoryID is required for history sync"))
    else if ParseUint(start).None? then Fail(Plain("invalid history ID"))
    else
      var o := RunFrom(p, io.history.script, 0);
      if o.err.Some? then
        if IsNotFound(o.err.value) then Bootstrap(p, io)
        else Fail(Wrapped("failed to list history", o.err.value))
      else
        var pages := Delivered(io.history.pages, o.calls);
        var next := NextHistoryId(pages);
        Ok(HistoryData(HistoryIds(pages), if next == "" then start else next, false))
  }

  // ---------------------------------------------------------------- the client

  /** The result a listing fills in while its pages arrive; it outlives the retried function. */
  class HistoryResult {
    var messageIds: seq<MsgId>
    var nextHistoryId: string
    const bootstrapped: bool

    constructor (bootstrapped: bool)
      ensures messageIds == [] && nextHistoryId == "" && this.bootstrapped == bootstrapped
    {
      messageIds, nextHistoryId := [], "";
      this.bootstrapped := bootstrapped;
    }

    function Data(): HistoryData
      reads this
    {
      HistoryData(messageIds, nextHistoryId, bootstrapped)
    }

    method OnHistoryPage(page: HistoryPage)
      modifies this
      ensures messageIds == old(messageIds) + RecordsIds(page.history)
      ensures nextHistoryId == if page.historyId != 0 then Print(page.historyId) else old(nextHistoryId)
    {
      ghost var start := messageIds;
      for i := 0 to |page.history|
        invariant messageIds == start + RecordsIds(page.history[..i])
        invariant nextHistoryId == old(nextHistoryId)
      {
        var record := page.history[i];
        for j := 0 to |record|
          invariant messageIds == start + RecordsIds(page.history[..i]) + RecordIds(record[..j])
          invariant nextHistoryId == old(nextHistoryId)
        {
          assert record[..j + 1][..j] == record[..j];
          if record[j].Message? && record[j].id != "" {
            messageIds := messageIds + [record[j].id];
          }
        }
        assert record[..|record|] == record;
        assert page.history[..i + 1][..i] == page.history[..i];
      }
      assert page.history[..|page.history|] == page.history;
      if page.historyId != 0 {
        nextHistoryId := Print(page.historyId);
      }
    }

    method OnMessagePage(page: MessagePage)
      modifies this`messageIds
      ensures messageIds == old(messageIds) + NonEmptyIds(page.ids)
    {
      for i := 0 to |page.ids|
        invariant messageIds == old(messageIds) + NonEmptyIds(page.ids[..i])
      {
        assert page.ids[..i + 1][..i] == page.ids[..i];
        if page.ids[i] != "" {
          messageIds := messageIds + [page.ids[i]];
        }
      }
      assert page.ids[..|page.ids|] == page.ids;
    }

    /** One call of the listing: its pages reach the callback in order. */
    method OnHistoryCall(pages: seq<HistoryPage>, ghost before: seq<HistoryPage>)
      requires messageIds == HistoryIds(before) && nextHistoryId == NextHistoryId(before)
      modifies this
      ensures messageIds == HistoryIds(before + pages) && nextHistoryId == NextHistoryId(before + pages)
    {
      assert before + pages[..0] == before;
      for i := 0 to |pages|
        invariant messageIds == HistoryIds(before + pages[..i])
        invariant nextHistoryId == NextHistoryId(before + pages[..i])
      {
        assert before + pages[..i + 1] == before + pages[..i] + [pages[i]];
        OnePageMore(before + pages[..i], pages[i]);
        OnHistoryPage(pages[i]);
      }
      assert pages[..|pages|] == pages;
    }

    method OnMessageCall(pages: seq<MessagePage>, ghost before: seq<MessagePage>)
      requires messageIds == MessageIds(before)
      modifies this`messageIds
      ensures messageIds == MessageIds(before + pages)
    {
      assert before + pages[..0] == before;
      for i := 0 to |pages|
        invariant messageIds == MessageIds(before + pages[..i])
      {
        assert (before + pages[..i + 1])[..|before| + i] == before + pages[..i];
        OnMessagePage(pages[i]);
      }
      assert pages[..|pages|] == pages;
    }
  }

  /** The Gmail client. A callback runs once for every call the retry loop makes. */
  class Client {
    const policy: Policy

    constructor (policy: Policy)
      ensures this.policy == policy
    {
      this.policy := policy;
    }

    method GetCurrentHistoryID(profile: Profile) returns (r: Result<string>)
      ensures r == GetCurrentHistoryId(policy, profile)
      ensures r.Ok? <==> RunFrom(policy, profile.script, 0).err.None? && profile.historyId > 0
      ensures r.Ok? ==> Canonical(r.value) && ParseUint(r.value) == Some(profile.historyId)
    {
      var _, _, err := DoWithOp(policy, profile.script);
      if err.Some? {
        return Fail(Wrapped("failed to get profile", err.value));
      }
      if profile.historyId == 0 {
        return Fail(Plain("no history ID available"));
      }
      ParseUintOfPrint(profile.historyId);
      r := Ok(Print(profile.historyId));
    }

    method BootstrapMailbox(io: SyncInput) returns (r: Result<HistoryData>)
      ensures r == Bootstrap(policy, io)
    {
      var result := new HistoryResult(true);
      var calls, _, err := DoWithOp(policy, io.messages.script);
      for k := 0 to calls
        invariant result.messageIds == MessageIds(Delivered(io.messages.pages, k))
        invariant result.nextHistoryId == ""
      {
        result.OnMessageCall(io.messages.pages(k), Delivered(io.messages.pages, k));
      }
      if err.Some? {
        return Fail(Wrapped("failed to bootstrap messages", err.value));
      }
      var historyId := GetCurrentHistoryID(io.profile);
      if historyId.Fail? {
        return Fail(Wrapped("failed to get history ID after bootstrap", historyId.err));
      }
      result.nextHistoryId := historyId.value;
      r := Ok(result.Data());
    }

    method SyncSince(start: string, io: SyncInput) returns (r: Result<HistoryData>)
      ensures r == SyncHistory(policy, start, io)
    {
      if start == "" {
        return Fail(Plain("startHistoryID is required for history sync"));
      }
      if ParseUint(start).None? {
        return Fail(Plain("invalid history ID"));
      }
      var result := new HistoryResult(false);
      var calls, _, err := DoWithOp(policy, io.history.script);
      for k := 0 to calls
        invariant result.messageIds == HistoryIds(Delivered(io.history.pages, k))
        invariant result.nextHistoryId == NextHistoryId(Delivered(io.history.pages, k))
      {
        result.OnHistoryCall(io.history.pages(k), Delivered(io.history.pages, k));
      }
      if err.Some? {
        if IsNotFound(err.value) {
          r := BootstrapMailbox(io);
          return;
        }
        return Fail(Wrapped("failed to list history", err.value));
      }
      if result.nextHistoryId == "" {
        result.nextHistoryId := start;
      }
      r := Ok(result.Data());
    }
  }
}
