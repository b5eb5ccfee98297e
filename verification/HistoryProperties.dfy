/** What a history sync returns when calls fail half way through a listing. */
module HistoryProperties {
  import opened Errors
  import opened Decimal
  import opened RetryEngine
  import opened HistorySync
  import Seqs

  /** Sync falls back to a full listing exactly when the listing's last call failed with a bare 404. */
  lemma BootstrapExactlyOnNotFound(p: Policy, script: Script)
    ensures
      var o := RunFrom(p, script, 0);
      (o.err.Some? && IsNotFound(o.err.value))
      <==>
      (o.calls > 0 && LastReply(script, 0, o).Some? && IsNotFound(LastReply(script, 0, o).value))
  {
    RunFromContract(p, script, 0);
  }

  lemma {:induction false} HistoryIdsConcat(a: seq<HistoryPage>, b: seq<HistoryPage>)
    ensures HistoryIds(a + b) == HistoryIds(a) + HistoryIds(b)
  {
    hide RecordsIds;
    if b == [] {
      Seqs.JoinNothing(a);
    } else {
      var init, last := b[..|b| - 1], RecordsIds(b[|b| - 1].history);
      HistoryIdsConcat(a, init);
      Seqs.LastOfJoin(a, b);
      Seqs.JoinThree(HistoryIds(a), HistoryIds(init), last);
    }
  }

  lemma {:induction false} MessageIdsConcat(a: seq<MessagePage>, b: seq<MessagePage>)
    ensures MessageIds(a + b) == MessageIds(a) + MessageIds(b)
  {
    hide NonEmptyIds;
    if b == [] {
      Seqs.JoinNothing(a);
    } else {
      var init, last := b[..|b| - 1], NonEmptyIds(b[|b| - 1].ids);
      MessageIdsConcat(a, init);
      Seqs.LastOfJoin(a, b);
      Seqs.JoinThree(MessageIds(a), MessageIds(init), last);
    }
  }

  // ---------------------------------------------------------------- what a listing holds

  /** Some record of some page adds a message with this id. */
  predicate InHistory(pages: seq<HistoryPage>, id: MsgId) {
    && id != ""
    && exists i, j | 0 <= i < |pages| && 0 <= j < |pages[i].history| :: Message(id) in pages[i].history[j]
  }

  predicate InRecords(records: seq<seq<Added>>, id: MsgId) {
    id != "" && exists j | 0 <= j < |records| :: Message(id) in records[j]
  }

  /** Some page lists a message with this id. */
  predicate InListing(pages: seq<MessagePage>, id: MsgId) {
    id != "" && exists i | 0 <= i < |pages| :: id in pages[i].ids
  }

  /** An entry of a record stands for its message, unless that or its id is missing. */
  lemma OneRecordId(entry: Added)
    ensures RecordIds([entry]) == if entry.Message? && entry.id != "" then [entry.id] else []
  {
    assert RecordIds([]) == [];
    assert [entry][..0] == [];
  }

  lemma OneRecord(record: seq<Added>)
    ensures RecordsIds([record]) == RecordIds(record)
  {
    hide RecordIds;
    assert RecordsIds([]) == [];
    assert [record][..0] == [];
    Seqs.JoinNothing(RecordIds(record));
  }

  lemma OnePage(page: HistoryPage)
    ensures HistoryIds([page]) == RecordsIds(page.history)
  {
    hide RecordsIds;
    assert HistoryIds([]) == [];
    assert [page][..0] == [];
    Seqs.JoinNothing(RecordsIds(page.history));
  }

  lemma OneListedId(id: MsgId)
    ensures NonEmptyIds([id]) == if id != "" then [id] else []
  {
    assert NonEmptyIds([]) == [];
    assert [id][..0] == [];
  }

  lemma OneMessagePage(page: MessagePage)
    ensures MessageIds([page]) == NonEmptyIds(page.ids)
  {
    hide NonEmptyIds;
    assert MessageIds([]) == [];
    assert [page][..0] == [];
    Seqs.JoinNothing(NonEmptyIds(page.ids));
  }

  /** The ids of a record's entries come in their order, each as often as it stands there. */
  lemma {:induction false} RecordIdsJoin(a: seq<Added>, b: seq<Added>)
    ensures RecordIds(a + b) == RecordIds(a) + RecordIds(b)
  {
    if b == [] {
      Seqs.JoinNothing(a);
    } else {
      var init, last := b[..|b| - 1], b[|b| - 1];
      RecordIdsJoin(a, init);
      Seqs.LastOfJoin(a, b);
      Seqs.JoinThree(RecordIds(a), RecordIds(init), if last.Message? && last.id != "" then [last.id] else []);
    }
  }

  lemma {:induction false} RecordsIdsJoin(a: seq<seq<Added>>, b: seq<seq<Added>>)
    ensures RecordsIds(a + b) == RecordsIds(a) + RecordsIds(b)
  {
    hide RecordIds;
    if b == [] {
      Seqs.JoinNothing(a);
    } else {
      var init, last := b[..|b| - 1], RecordIds(b[|b| - 1]);
      RecordsIdsJoin(a, init);
      Seqs.LastOfJoin(a, b);
      Seqs.JoinThree(RecordsIds(a), RecordsIds(init), last);
    }
  }

  lemma {:induction false} NonEmptyIdsJoin(a: seq<MsgId>, b: seq<MsgId>)
    ensures NonEmptyIds(a + b) == NonEmptyIds(a) + NonEmptyIds(b)
  {
    if b == [] {
      Seqs.JoinNothing(a);
    } else {
      var init, last := b[..|b| - 1], b[|b| - 1];
      NonEmptyIdsJoin(a, init);
      Seqs.LastOfJoin(a, b);
      Seqs.JoinThree(NonEmptyIds(a), NonEmptyIds(init), if last != "" then [last] else []);
    }
  }

  lemma {:induction false} RecordIdsExactly(record: seq<Added>, id: MsgId)
    ensures id in RecordIds(record) <==> id != "" && Message(id) in record
  {
    if record != [] {
      var init, last := record[..|record| - 1], record[|record| - 1];
      RecordIdsExactly(init, id);
      assert record == init + [last];
    }
  }

  lemma {:induction false} RecordsIdsExactly(records: seq<seq<Added>>, id: MsgId)
    ensures id in RecordsIds(records) <==> InRecords(records, id)
  {
    hide RecordIds;
    if records != [] {
      var init, last := records[..|records| - 1], records[|records| - 1];
      RecordsIdsExactly(init, id);
      RecordIdsExactly(last, id);
      assert forall j | 0 <= j < |init| :: init[j] == records[j];
    }
  }

  /** The ids of a history listing are exactly those of the messages that its records add. */
  lemma {:induction false} InHistoryExactly(pages: seq<HistoryPage>, id: MsgId)
    ensures id in HistoryIds(pages) <==> InHistory(pages, id)
  {
    hide RecordsIds;
    if pages != [] {
      var init, last := pages[..|pages| - 1], pages[|pages| - 1];
      InHistoryExactly(init, id);
      RecordsIdsExactly(last.history, id);
      assert forall i | 0 <= i < |init| :: init[i] == pages[i];
      if InRecords(last.history, id) {
        var j :| 0 <= j < |last.history| && Message(id) in last.history[j];
        assert Message(id) in pages[|init|].history[j];
      }
      if InHistory(init, id) {
        var i, j :| 0 <= i < |init| && 0 <= j < |init[i].history| && Message(id) in init[i].history[j];
        assert Message(id) in pages[i].history[j];
      }
    }
  }

  lemma {:induction false} NonEmptyIdsExactly(ids: seq<MsgId>, id: MsgId)
    ensures id in NonEmptyIds(ids) <==> id != "" && id in ids
  {
    if ids != [] {
      var init, last := ids[..|ids| - 1], ids[|ids| - 1];
      NonEmptyIdsExactly(init, id);
      assert ids == init + [last];
    }
  }

  /** The ids of a message listing are exactly those on its pages. */
  lemma {:induction false} InListingExactly(pages: seq<MessagePage>, id: MsgId)
    ensures id in MessageIds(pages) <==> InListing(pages, id)
  {
    hide NonEmptyIds;
    if pages != [] {
      var init, last := pages[..|pages| - 1], pages[|pages| - 1];
      InListingExactly(init, id);
      NonEmptyIdsExactly(last.ids, id);
      assert forall i | 0 <= i < |init| :: init[i] == pages[i];
    }
  }

  /** The next id is that of the last page which names one. */
  lemma {:induction false} NextIdExactly(pages: seq<HistoryPage>, i: nat)
    requires i < |pages| && pages[i].historyId != 0
    requires forall k | i < k < |pages| :: pages[k].historyId == 0
    ensures NextHistoryId(pages) == Print(pages[i].historyId)
  {
    if i < |pages| - 1 {
      NextIdExactly(pages[..|pages| - 1], i);
    }
  }

  // ---------------------------------------------------------------- a listing under retry

  /** The listing did not change while it was read: failed calls saw a prefix of it, a good call all of it. */
  predicate StableListing(listing: Listing<HistoryPage>, full: seq<HistoryPage>, calls: nat) {
    forall k: nat | k < calls ::
      listing.pages(k) <= full && (listing.script(k).reply.None? ==> listing.pages(k) == full)
  }

  /** The ids of n page-aligned prefixes of a listing, one after the other. */
  function PrefixIds(full: seq<HistoryPage>, cut: nat -> nat, n: nat): seq<MsgId> {
    if n == 0 then []
    else PrefixIds(full, cut, n - 1) + HistoryIds(full[..if cut(n - 1) <= |full| then cut(n - 1) else |full|])
  }

  /** How many pages each call delivered. */
  function Cuts(listing: Listing<HistoryPage>): nat -> nat {
    (k: nat) => |listing.pages(k)|
  }

  lemma {:induction false} DeliveredPrefixes(listing: Listing<HistoryPage>, full: seq<HistoryPage>, n: nat)
    requires StableListing(listing, full, n)
    ensures HistoryIds(Delivered(listing.pages, n)) == PrefixIds(full, Cuts(listing), n)
  {
    if n > 0 {
      DeliveredPrefixes(listing, full, n - 1);
      HistoryIdsConcat(Delivered(listing.pages, n - 1), listing.pages(n - 1));
      assert listing.pages(n - 1) == full[..|listing.pages(n - 1)|];
    }
  }

  lemma PrefixWithin(full: seq<HistoryPage>, c: nat)
    requires c <= |full|
    ensures forall id | id in HistoryIds(full[..c]) :: id in HistoryIds(full)
    ensures |HistoryIds(full[..c])| <= |HistoryIds(full)|
  {
    HistoryIdsConcat(full[..c], full[c..]);
    assert full[..c] + full[c..] == full;
  }

  lemma {:induction false} PrefixIdsWithin(full: seq<HistoryPage>, cut: nat -> nat, n: nat)
    ensures forall id | id in PrefixIds(full, cut, n) :: id in HistoryIds(full)
    ensures |PrefixIds(full, cut, n)| <= n * |HistoryIds(full)|
  {
    if n > 0 {
      PrefixIdsWithin(full, cut, n - 1);
      PrefixWithin(full, if cut(n - 1) <= |full| then cut(n - 1) else |full|);
      Times(n, n, |HistoryIds(full)|);
    }
  }

  /** The ids of a sync that succeeds: those its failed calls delivered, then the listing. */
  lemma SyncedIds(p: Policy, start: string, io: SyncInput, full: seq<HistoryPage>)
    requires SyncHistory(p, start, io).Ok? && !SyncHistory(p, start, io).value.bootstrapped
    requires StableListing(io.history, full, RunFrom(p, io.history.script, 0).calls)
    ensures
      var calls := RunFrom(p, io.history.script, 0).calls;
      && 0 < calls <= p.maxRetries + 1
      && SyncHistory(p, start, io).value.ids == PrefixIds(full, Cuts(io.history), calls - 1) + HistoryIds(full)
  {
    hide RunFrom, Bootstrap, HistoryIds, PrefixIds;
    BootstrapSaysSo(p, io);
    var o := RunFrom(p, io.history.script, 0);
    RunFromContract(p, io.history.script, 0);
    DeliveredPrefixes(io.history, full, o.calls - 1);
    HistoryIdsConcat(Delivered(io.history.pages, o.calls - 1), io.history.pages(o.calls - 1));
  }

  lemma BootstrapSaysSo(p: Policy, io: SyncInput)
    ensures Bootstrap(p, io).Ok? ==> Bootstrap(p, io).value.bootstrapped
  {
    hide RunFrom, MessageIds;
  }

  /**
   * However often and wherever calls failed, a sync that succeeds returns page-aligned prefixes of
   * the listing followed by all of it. So it returns exactly the listed ids, perhaps several times,
   * and at most maxRetries + 1 times as many as were listed.
   */
  lemma SyncReturnsListing(p: Policy, start: string, io: SyncInput, full: seq<HistoryPage>)
    requires SyncHistory(p, start, io).Ok? && !SyncHistory(p, start, io).value.bootstrapped
    requires StableListing(io.history, full, RunFrom(p, io.history.script, 0).calls)
    ensures
      var ids := SyncHistory(p, start, io).value.ids;
      var calls := RunFrom(p, io.history.script, 0).calls;
      && calls > 0
      && ids == PrefixIds(full, Cuts(io.history), calls - 1) + HistoryIds(full)
      && (forall id :: id in ids <==> InHistory(full, id))
      && |ids| <= (p.maxRetries + 1) * |HistoryIds(full)|
  {
    hide RunFrom, SyncHistory, HistoryIds, PrefixIds, StableListing;
    var calls := RunFrom(p, io.history.script, 0).calls;
    SyncedIds(p, start, io, full);
    PrefixIdsWithin(full, Cuts(io.history), calls - 1);
    Times(calls, p.maxRetries + 1, |HistoryIds(full)|);
    hide InHistory;
    forall id {
      InHistoryExactly(full, id);
    }
  }

  lemma Times(a: int, b: int, c: nat)
    requires a <= b
    ensures (a - 1) * c + c == a * c <= b * c
  {
  }

  // ---------------------------------------------------------------- the cursor that is returned

  lemma {:induction false} NextHistoryIdCanonical(pages: seq<HistoryPage>)
    ensures NextHistoryId(pages) == "" || Canonical(NextHistoryId(pages))
  {
    if pages != [] && pages[|pages| - 1].historyId == 0 {
      NextHistoryIdCanonical(pages[..|pages| - 1]);
    }
  }

  /** A canonical cursor always parses, and every cursor that comes back is canonical again. */
  lemma SyncKeepsCanonical(p: Policy, start: string, io: SyncInput)
    requires Canonical(start)
    ensures start != "" && ParseUint(start).Some?
    ensures SyncHistory(p, start, io).Ok? ==> Canonical(SyncHistory(p, start, io).value.nextHistoryId)
  {
    var n: Uint64 :| start == Print(n);
    ParseUintOfPrint(n);
    PrintReadsBack(n);
    NextHistoryIdCanonical(Delivered(io.history.pages, RunFrom(p, io.history.script, 0).calls));
  }
}
