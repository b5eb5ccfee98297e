/** The SQLite store: three tables, keyed as the schema's unique constraints demand. */
module StoreTables {
  import opened Errors
  import opened HistorySync
  import opened Labels
  import opened AccountModel

  type AccountId = int

  type Blob = string

  datatype AccountRow = AccountRow(id: AccountId, email: string, encryptedToken: Blob, historyId: string)

  const ACCOUNT_NOT_FOUND: Err := Plain("account not found")
  const LABEL_NOT_FOUND: Err := Plain("label not found")

  // ---------------------------------------------------------------- one account's part of a table

  function KeysOf<K, V>(table: map<(AccountId, K), V>, a: AccountId): set<K> {
    set p | p in table.Keys && p.0 == a :: p.1
  }

  /** The part of a table that belongs to an account. */
  function Slice<K, V>(table: map<(AccountId, K), V>, a: AccountId): map<K, V> {
    map k | k in KeysOf(table, a) :: table[(a, k)]
  }

  lemma SliceEntry<K, V>(table: map<(AccountId, K), V>, a: AccountId, k: K)
    ensures k in Slice(table, a) <==> (a, k) in table
    ensures (a, k) in table ==> Slice(table, a)[k] == table[(a, k)]
  {
    if (a, k) in table {
      assert (a, k).1 in KeysOf(table, a);
    }
  }

  /** Writing one entry changes that account's part, and no other's. */
  lemma SliceUpdate<K, V>(table: map<(AccountId, K), V>, a: AccountId, k: K, v: V, b: AccountId)
    ensures Slice(table[(a, k) := v], b) == if b == a then Slice(table, a)[k := v] else Slice(table, b)
  {
    var after := table[(a, k) := v];
    var expected := if b == a then Slice(table, a)[k := v] else Slice(table, b);
    forall x
      ensures x in Slice(after, b) <==> x in expected
      ensures x in expected ==> Slice(after, b)[x] == expected[x]
    {
      SliceEntry(after, b, x);
      SliceEntry(table, b, x);
    }
  }

  /** Deleting entries changes the parts they belong to, and no other. */
  lemma SliceDelete<K, V>(table: map<(AccountId, K), V>, gone: set<(AccountId, K)>, b: AccountId)
    ensures Slice(table - gone, b) == Slice(table, b) - (set p | p in gone && p.0 == b :: p.1)
  {
    var after := table - gone;
    var mine := set p | p in gone && p.0 == b :: p.1;
    forall x
      ensures x in Slice(after, b) <==> x in Slice(table, b) - mine
      ensures x in Slice(after, b) ==> Slice(after, b)[x] == (Slice(table, b) - mine)[x]
    {
      SliceEntry(after, b, x);
      SliceEntry(table, b, x);
      if (b, x) in gone {
        assert (b, x).1 in mine;
      }
      if x in mine {
        var p :| p in gone && p.0 == b && p.1 == x;
        assert p == (b, x);
      }
    }
  }

  // ---------------------------------------------------------------- the store

  /** Every call takes the database error it meets, if any; a call that meets one changes nothing. */
  class Store {
    var accounts: map<AccountId, AccountRow>
    var processed: map<(AccountId, MsgId), Time>
    var labelCache: map<(AccountId, string), LabelId>
    var lastId: AccountId

    ghost predicate Valid()
      reads this
    {
      && (forall a :: a in accounts ==> accounts[a].id == a <= lastId)
      && (forall a, b :: a in accounts && b in accounts && accounts[a].email == accounts[b].email ==> a == b)
    }

    constructor ()
      ensures Valid() && accounts == map[] && processed == map[] && labelCache == map[]
    {
      accounts, processed, labelCache, lastId := map[], map[], map[], 0;
    }

    // -------------------------------------------------------------- accounts

    /** The row is inserted, then its id asked for, then the row read back: an error of these comes too late. */
    method InsertAccount(email: string, encryptedToken: Blob, dbErr: Option<Err>, idErr: Option<Err>, readErr: Option<Err>)
      returns (r: Result<AccountRow>)
      requires Valid()
      modifies this`accounts, this`lastId
      ensures Valid()
      ensures
        var inserts := dbErr.None? && forall a :: a in old(accounts) ==> old(accounts)[a].email != email;
        && (inserts ==>
              && lastId !in old(accounts)
              && accounts == old(accounts)[lastId := AccountRow(lastId, email, encryptedToken, "")])
        && (!inserts ==> accounts == old(accounts))
        && (r.Ok? <==> inserts && idErr.None? && readErr.None?)
        && (r.Ok? ==> r.value == AccountRow(lastId, email, encryptedToken, ""))
    {
      if dbErr.Some? {
        return Fail(Wrapped("failed to insert account", dbErr.value));
      }
      if exists a | a in accounts :: accounts[a].email == email {
        return Fail(Wrapped("failed to insert account", Plain("UNIQUE constraint failed: accounts.email")));
      }
      lastId := lastId + 1;
      accounts := accounts[lastId := AccountRow(lastId, email, encryptedToken, "")];
      if idErr.Some? {
        return Fail(Wrapped("failed to get last insert id", idErr.value));
      }
      r := if readErr.Some? then Fail(Wrapped("failed to get account", readErr.value)) else Ok(accounts[lastId]);
    }

    method GetAccountByEmail(email: string, dbErr: Option<Err>) returns (r: Result<AccountRow>)
      requires Valid()
      ensures r.Ok? ==> r.value.id in accounts && accounts[r.value.id] == r.value && r.value.email == email
      ensures r.Fail? ==> dbErr.Some? || (r.err == ACCOUNT_NOT_FOUND && forall a :: a in accounts ==> accounts[a].email != email)
      ensures dbErr.Some? ==> r.Fail?
    {
      if dbErr.Some? {
        return Fail(Wrapped("failed to get account", dbErr.value));
      }
      if a :| a in accounts && accounts[a].email == email {
        return Ok(accounts[a]);
      }
      r := Fail(ACCOUNT_NOT_FOUND);
    }

    /** The one of some accounts whose email comes first. */
    method FirstByEmail(left: set<AccountId>) returns (first: AccountId)
      requires left != {} && left <= accounts.Keys
      ensures first in left && forall a | a in left :: AtMost(accounts[first].email, accounts[a].email)
    {
      NonEmpty(left);
      first :| first in left;
      AtMostItself(accounts[first].email);
      var rest := left - {first};
      while rest != {}
        invariant rest <= left && first in left
        invariant forall a | a in left - rest :: AtMost(accounts[first].email, accounts[a].email)
        decreases |rest|
      {
        NonEmpty(rest);
        var next :| next in rest;
        if !AtMost(accounts[first].email, accounts[next].email) {
          OneComesFirst(accounts[first].email, accounts[next].email);
          AtMostItself(accounts[next].email);
          forall a | a in left - rest
            ensures AtMost(accounts[next].email, accounts[a].email)
          {
            AtMostTransitive(accounts[next].email, accounts[first].email, accounts[a].email);
          }
          first := next;
        }
        rest := rest - {next};
      }
    }

    /** All accounts, each once, ordered by email. */
    method ListAccounts(dbErr: Option<Err>) returns (r: Result<seq<AccountRow>>)
      requires Valid()
      ensures r.Ok? <==> dbErr.None?
      ensures r.Ok? ==>
        && (forall i, j | 0 <= i < j < |r.value| :: r.value[i].id != r.value[j].id)
        && (forall i | 0 <= i < |r.value| :: r.value[i].id in accounts && r.value[i] == accounts[r.value[i].id])
        && (forall a | a in accounts :: Listed(r.value, a))
        && (forall i, j | 0 <= i < j < |r.value| :: AtMost(r.value[i].email, r.value[j].email))
    {
      if dbErr.Some? {
        return Fail(Wrapped("failed to list accounts", dbErr.value));
      }
      var rows: seq<AccountRow> := [];
      var left: set<AccountId> := accounts.Keys;
      while left != {}
        invariant Drawn(accounts, rows, left)
        decreases |left|
      {
        var a := FirstByEmail(left);
        DrawnNext(accounts, rows, left, a);
        rows := rows + [accounts[a]];
        left := left - {a};
      }
      r := Ok(rows);
    }

    method UpdateHistoryID(a: AccountId, historyId: string, dbErr: Option<Err>) returns (err: Option<Err>)
      requires Valid()
      modifies this`accounts
      ensures Valid() && accounts.Keys == old(accounts).Keys
      ensures err == WrapErr("failed to update history_id", dbErr)
      ensures forall b | b in accounts ::
        accounts[b] == if b == a && dbErr.None? then old(accounts)[b].(historyId := historyId) else old(accounts)[b]
    {
      if dbErr.None? && a in accounts {
        accounts := accounts[a := accounts[a].(historyId := historyId)];
      }
      err := WrapErr("failed to update history_id", dbErr);
    }

    method UpdateToken(a: AccountId, encryptedToken: Blob, dbErr: Option<Err>) returns (err: Option<Err>)
      requires Valid()
      modifies this`accounts
      ensures Valid() && accounts.Keys == old(accounts).Keys
      ensures err.Some? <==> dbErr.Some?
      ensures forall b | b in accounts ::
        accounts[b] == if b == a && dbErr.None? then old(accounts)[b].(encryptedToken := encryptedToken) else old(accounts)[b]
    {
      if dbErr.Some? {
        return Some(Wrapped("failed to update token", dbErr.value));
      }
      if a in accounts {
        accounts := accounts[a := accounts[a].(encryptedToken := encryptedToken)];
      }
      err := None;
    }

    method ResetHistoryID(a: AccountId, dbErr: Option<Err>) returns (err: Option<Err>)
      requires Valid()
      modifies this`accounts
      ensures Valid() && accounts.Keys == old(accounts).Keys
      ensures err.None? <==> dbErr.None? && a in accounts
      ensures dbErr.None? && a !in accounts ==> err == Some(ACCOUNT_NOT_FOUND)
      ensures forall b | b in accounts ::
        accounts[b] == if b == a && dbErr.None? then old(accounts)[b].(historyId := "") else old(accounts)[b]
    {
      if dbErr.Some? {
        return Some(Wrapped("failed to reset history_id", dbErr.value));
      }
      if a !in accounts {
        return Some(ACCOUNT_NOT_FOUND);
      }
      accounts := accounts[a := accounts[a].(historyId := "")];
      err := None;
    }

    /** Returns how many accounts had a cursor. */
    method ResetAllHistoryIDs(dbErr: Option<Err>) returns (r: Result<nat>)
      requires Valid()
      modifies this`accounts
      ensures Valid() && accounts.Keys == old(accounts).Keys
      ensures r == if dbErr.Some? then Fail(Wrapped("failed to reset all history_ids", dbErr.value))
                   else Ok(|set a | a in old(accounts) && old(accounts)[a].historyId != ""|)
      ensures forall a | a in accounts ::
        accounts[a] == if dbErr.None? then old(accounts)[a].(historyId := "") else old(accounts)[a]
    {
      if dbErr.Some? {
        return Fail(Wrapped("failed to reset all history_ids", dbErr.value));
      }
      var touched := set a | a in accounts && accounts[a].historyId != "";
      accounts := map a | a in accounts :: accounts[a].(historyId := "");
      r := Ok(|touched|);
    }

    // -------------------------------------------------------------- processed messages

    method InsertProcessedMessage(a: AccountId, id: MsgId, now: Time, dbErr: Option<Err>) returns (err: Option<Err>)
      modifies this`processed
      ensures err == WrapErr("failed to insert processed message", dbErr)
      ensures Slice(processed, a) ==
        if dbErr.Some? || id in old(Slice(processed, a)) then old(Slice(processed, a)) else old(Slice(processed, a))[id := now]
      ensures forall b | b != a :: Slice(processed, b) == old(Slice(processed, b))
    {
      SliceEntry(processed, a, id);
      if dbErr.None? && (a, id) !in processed {
        forall b {
          SliceUpdate(processed, a, id, now, b);
        }
        processed := processed[(a, id) := now];
      }
      err := WrapErr("failed to insert processed message", dbErr);
    }

    method ProcessedMessageExists(a: AccountId, id: MsgId, dbErr: Option<Err>) returns (r: Result<bool>)
      ensures r == if dbErr.Some? then Fail(Wrapped("failed to check processed message", dbErr.value)) else Ok(id in Slice(processed, a))
    {
      if dbErr.Some? {
        return Fail(Wrapped("failed to check processed message", dbErr.value));
      }
      SliceEntry(processed, a, id);
      r := Ok((a, id) in processed);
    }

    /** Deletes a set of rows and returns how many there were. */
    method DeleteRows(gone: set<(AccountId, MsgId)>) returns (deleted: nat)
      requires gone <= processed.Keys
      modifies this`processed
      ensures deleted == |gone| && |processed| == |old(processed)| - deleted
      ensures processed == old(processed) - gone
      ensures forall b :: Slice(processed, b) == old(Slice(processed, b)) - (set p | p in gone && p.0 == b :: p.1)
    {
      forall b {
        SliceDelete(processed, gone, b);
      }
      ghost var before := processed;
      processed := processed - gone;
      assert before.Keys == processed.Keys + gone;
      deleted := |gone|;
    }

    method DeleteProcessedMessages(a: AccountId, dbErr: Option<Err>) returns (r: Result<nat>)
      modifies this`processed
      ensures dbErr.Some? ==> r.Fail? && processed == old(processed)
      ensures dbErr.None? ==> r.Ok? && |processed| == |old(processed)| - r.value
      ensures dbErr.None? ==> Slice(processed, a) == map[]
      ensures forall b | b != a :: Slice(processed, b) == old(Slice(processed, b))
    {
      if dbErr.Some? {
        return Fail(Wrapped("failed to delete processed messages", dbErr.value));
      }
      var gone := set p | p in processed && p.0 == a;
      var n := DeleteRows(gone);
      forall k
        ensures k !in Slice(processed, a)
      {
        SliceEntry(processed, a, k);
      }
      r := Ok(n);
    }

    method DeleteAllProcessedMessages(dbErr: Option<Err>) returns (r: Result<nat>)
      modifies this`processed
      ensures r == if dbErr.Some? then Fail(Wrapped("failed to delete all processed messages", dbErr.value)) else Ok(|old(processed)|)
      ensures processed == if dbErr.Some? then old(processed) else map[]
    {
      if dbErr.Some? {
        return Fail(Wrapped("failed to delete all processed messages", dbErr.value));
      }
      r := Ok(|processed|);
      processed := map[];
    }

    /** `cutoff` is the current time less the retention period. */
    method GarbageCollectProcessedMessages(cutoff: Time, dbErr: Option<Err>) returns (r: Result<nat>)
      modifies this`processed
      ensures dbErr.Some? ==> r.Fail? && processed == old(processed)
      ensures dbErr.None? ==> r.Ok? && |processed| == |old(processed)| - r.value
      ensures dbErr.None? ==>
        forall a :: Slice(processed, a) == old(Slice(processed, a)) - RowsBefore(old(Slice(processed, a)), cutoff)
      ensures dbErr.None? ==>
        && processed.Keys <= old(processed).Keys
        && (forall p | p in old(processed) :: p in processed <==> old(processed)[p] >= cutoff)
        && (forall p | p in processed :: processed[p] == old(processed)[p])
    {
      if dbErr.Some? {
        return Fail(Wrapped("failed to garbage collect processed messages", dbErr.value));
      }
      var gone := set p | p in processed && processed[p] < cutoff;
      forall a
        ensures (set p | p in gone && p.0 == a :: p.1) == RowsBefore(Slice(processed, a), cutoff)
      {
        OldRows(processed, cutoff, a);
      }
      var n := DeleteRows(gone);
      r := Ok(n);
    }

    // -------------------------------------------------------------- label cache

    method GetLabel(a: AccountId, name: string, dbErr: Option<Err>) returns (r: Result<LabelId>)
      ensures r.Ok? <==> dbErr.None? && name in Slice(labelCache, a)
      ensures r.Ok? ==> r.value == Slice(labelCache, a)[name]
    {
      SliceEntry(labelCache, a, name);
      if dbErr.Some? {
        return Fail(Wrapped("failed to get label", dbErr.value));
      }
      r := if (a, name) in labelCache then Ok(labelCache[(a, name)]) else Fail(LABEL_NOT_FOUND);
    }

    method UpsertLabel(a: AccountId, name: string, id: LabelId, dbErr: Option<Err>) returns (err: Option<Err>)
      modifies this`labelCache
      ensures err == WrapErr("failed to upsert label", dbErr)
      ensures Slice(labelCache, a) == if dbErr.Some? then old(Slice(labelCache, a)) else old(Slice(labelCache, a))[name := id]
      ensures forall b | b != a :: Slice(labelCache, b) == old(Slice(labelCache, b))
    {
      if dbErr.None? {
        forall b {
          SliceUpdate(labelCache, a, name, id, b);
        }
        labelCache := labelCache[(a, name) := id];
      }
      err := WrapErr("failed to upsert label", dbErr);
    }
  }

  /** Some rows of a table, in the order of their emails, and the keys of the others, which come later. */
  ghost predicate Drawn(accounts: map<AccountId, AccountRow>, rows: seq<AccountRow>, left: set<AccountId>) {
    && left <= accounts.Keys
    && (forall i, j | 0 <= i < j < |rows| :: rows[i].id != rows[j].id)
    && (forall i | 0 <= i < |rows| :: rows[i].id in accounts && rows[i] == accounts[rows[i].id] && rows[i].id !in left)
    && (forall a | a in accounts :: a in left || Listed(rows, a))
    && (forall i, j | 0 <= i < j < |rows| :: AtMost(rows[i].email, rows[j].email))
    && (forall i, a | 0 <= i < |rows| && a in left :: AtMost(rows[i].email, accounts[a].email))
  }

  lemma DrawnNext(accounts: map<AccountId, AccountRow>, rows: seq<AccountRow>, left: set<AccountId>, a: AccountId)
    requires Drawn(accounts, rows, left) && a in left && accounts[a].id == a
    requires forall b | b in left :: AtMost(accounts[a].email, accounts[b].email)
    ensures Drawn(accounts, rows + [accounts[a]], left - {a})
  {
    hide AtMost, Listed;
    var more := rows + [accounts[a]];
    forall b | b in accounts && b !in left - {a}
      ensures Listed(more, b)
    {
      ListedAfter(rows, accounts[a], b);
    }
    assert forall i | 0 <= i < |rows| :: more[i] == rows[i];
  }

  /** Text in the order of its bytes. */
  predicate AtMost(s: string, t: string) {
    s == "" || (t != "" && (s[0] < t[0] || (s[0] == t[0] && AtMost(s[1..], t[1..]))))
  }

  lemma {:induction false} AtMostItself(s: string)
    ensures AtMost(s, s)
  {
    if s != "" {
      AtMostItself(s[1..]);
    }
  }

  lemma {:induction false} OneComesFirst(s: string, t: string)
    ensures AtMost(s, t) || AtMost(t, s)
  {
    if s != "" && t != "" {
      OneComesFirst(s[1..], t[1..]);
    }
  }

  lemma {:induction false} AtMostTransitive(s: string, t: string, u: string)
    requires AtMost(s, t) && AtMost(t, u)
    ensures AtMost(s, u)
  {
    if s != "" && s[0] == t[0] == u[0] {
      AtMostTransitive(s[1..], t[1..], u[1..]);
    }
  }

  ghost predicate Listed(rows: seq<AccountRow>, a: AccountId) {
    exists i :: 0 <= i < |rows| && rows[i].id == a
  }

  lemma ListedAfter(rows: seq<AccountRow>, row: AccountRow, a: AccountId)
    ensures Listed(rows + [row], a) <==> Listed(rows, a) || row.id == a
  {
    var more := rows + [row];
    if row.id == a {
      assert more[|rows|].id == a;
    }
    if Listed(rows, a) {
      var i :| 0 <= i < |rows| && rows[i].id == a;
      assert more[i].id == a;
    }
  }

  lemma NonEmpty(s: set<AccountId>)
    requires s != {}
    ensures exists a :: a in s
  {
    assert (forall a :: a !in s) ==> s == {};
  }

  lemma OldRows(processed: map<(AccountId, MsgId), Time>, cutoff: Time, a: AccountId)
    ensures (set p | p in processed && processed[p] < cutoff && p.0 == a :: p.1) == RowsBefore(Slice(processed, a), cutoff)
  {
    var left := set p | p in processed && processed[p] < cutoff && p.0 == a :: p.1;
    forall id
      ensures id in left <==> id in RowsBefore(Slice(processed, a), cutoff)
    {
      SliceEntry(processed, a, id);
      if id in left {
        var p :| p in processed && processed[p] < cutoff && p.0 == a && p.1 == id;
        assert p == (a, id);
      }
      if (a, id) in processed && processed[(a, id)] < cutoff {
        assert (a, id).1 in left;
      }
    }
  }
}
