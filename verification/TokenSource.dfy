/** The OAuth token cache in front of the encrypted token in the store. */
module TokenSource {
  import opened Errors
  import opened AccountModel
  import opened StoreTables

  datatype Token = Token(accessToken: string, refreshToken: string, expiry: Time)

  /** Encryption (with a nonce), JSON and the library's validity test: all that is known of them is `Lawful`. */
  datatype Codec = Codec(
    encrypt: (Blob, int) -> Option<Blob>,
    decrypt: Blob -> Option<Blob>,
    marshal: Token -> Option<Blob>,
    unmarshal: Blob -> Option<Token>,
    valid: (Token, Time) -> bool)

  /** What is marshalled and encrypted comes back. */
  ghost predicate Lawful(c: Codec) {
    forall t, nonce | c.marshal(t).Some? && c.encrypt(c.marshal(t).value, nonce).Some? ::
      Decode(c, c.encrypt(c.marshal(t).value, nonce).value) == Some(t)
  }

  function Decode(c: Codec, stored: Blob): Option<Token> {
    match c.decrypt(stored)
    case None => None
    case Some(json) => c.unmarshal(json)
  }

  function Encode(c: Codec, t: Token, nonce: int): Option<Blob> {
    match c.marshal(t)
    case None => None
    case Some(json) => c.encrypt(json, nonce)
  }

  /** The cached token, and the encrypted one in the account's row if there is such an account. */
  datatype Tokens = Tokens(cached: Option<Token>, stored: Option<Blob>)

  /** What the world does during one call: the clock, twice; the database, twice; the refresh; the nonce. */
  datatype TokenIO = TokenIO(now: Time, readErr: Option<Err>, later: Time, refreshed: Result<Token>, nonce: int, writeErr: Option<Err>)

  /** The state after a call, and the token it returns if it does not fail. */
  function GetToken(c: Codec, st: Tokens, io: TokenIO): (Tokens, Option<Token>) {
    if st.cached.Some? && c.valid(st.cached.value, io.now) then (st, st.cached)
    else if io.readErr.Some? || st.stored.None? || Decode(c, st.stored.value).None? then (st, None)
    else
      var token := Decode(c, st.stored.value).value;
      if c.valid(token, io.later) then (st.(cached := Some(token)), Some(token))
      else if io.refreshed.Fail? then (st, None)
      else
        var encrypted := Encode(c, io.refreshed.value, io.nonce);
        if encrypted.None? || io.writeErr.Some? then (st, None)
        else (Tokens(Some(io.refreshed.value), encrypted), Some(io.refreshed.value))
  }

  class StoreTokenSource {
    const email: string
    const codec: Codec
    const store: Store
    var cachedToken: Option<Token>

    constructor (email: string, codec: Codec, store: Store)
      ensures this.email == email && this.codec == codec && this.store == store && cachedToken == None
    {
      this.email, this.codec, this.store, cachedToken := email, codec, store, None;
    }

    ghost predicate Stores(stored: Option<Blob>)
      reads store
    {
      match stored
      case None => forall a :: a in store.accounts ==> store.accounts[a].email != email
      case Some(blob) => exists a :: a in store.accounts && store.accounts[a].email == email && store.accounts[a].encryptedToken == blob
    }

    /** saveToken. */
    method SaveToken(a: AccountId, token: Token, io: TokenIO) returns (err: Option<Err>)
      requires store.Valid()
      modifies store`accounts
      ensures store.Valid() && store.accounts.Keys == old(store.accounts).Keys
      ensures err.None? <==> Encode(codec, token, io.nonce).Some? && io.writeErr.None?
      ensures forall b | b in store.accounts ::
        store.accounts[b] == if b == a && err.None?
          then old(store.accounts)[b].(encryptedToken := Encode(codec, token, io.nonce).value)
          else old(store.accounts)[b]
    {
      var json := codec.marshal(token);
      if json.None? {
        return Some(Plain("failed to marshal token"));
      }
      var encrypted := codec.encrypt(json.value, io.nonce);
      if encrypted.None? {
        return Some(Plain("failed to encrypt token"));
      }
      err := store.UpdateToken(a, encrypted.value, io.writeErr);
    }

    method Token(io: TokenIO, ghost stored: Option<Blob>) returns (r: Result<Token>)
      requires store.Valid() && Stores(stored)
      modifies this`cachedToken, store`accounts
      ensures store.Valid()
      ensures
        var (after, expected) := GetToken(codec, Tokens(old(cachedToken), stored), io);
        cachedToken == after.cached && Stores(after.stored) && (if r.Ok? then Some(r.value) else None) == expected
      ensures store.accounts.Keys == old(store.accounts).Keys
      ensures forall a | a in store.accounts ::
        var before, after := old(store.accounts)[a], store.accounts[a];
        after == if after.email == email then before.(encryptedToken := after.encryptedToken) else before
    {
      if cachedToken.Some? && codec.valid(cachedToken.value, io.now) {
        return Ok(cachedToken.value);
      }
      var account := store.GetAccountByEmail(email, io.readErr);
      if account.Fail? {
        return Fail(Wrapped("failed to get account from store", account.err));
      }
      var json := codec.decrypt(account.value.encryptedToken);
      if json.None? {
        return Fail(Plain("failed to decrypt token"));
      }
      var token := codec.unmarshal(json.value);
      if token.None? {
        return Fail(Plain("failed to unmarshal token"));
      }
      if codec.valid(token.value, io.later) {
        cachedToken := token;
        return Ok(token.value);
      }
      if io.refreshed.Fail? {
        return Fail(Wrapped("failed to refresh token", io.refreshed.err));
      }
      var saveErr := SaveToken(account.value.id, io.refreshed.value, io);
      if saveErr.Some? {
        return Fail(Wrapped("failed to save refreshed token", saveErr.value));
      }
      cachedToken := Some(io.refreshed.value);
      r := Ok(io.refreshed.value);
    }
  }

  // ---------------------------------------------------------------- which token comes back

  predicate CachedIsValid(c: Codec, st: Tokens, io: TokenIO) {
    st.cached.Some? && c.valid(st.cached.value, io.now)
  }

  /** The row can be read, and what is stored there decrypts and parses as a token. */
  predicate Reads(c: Codec, st: Tokens, io: TokenIO, token: Token) {
    && io.readErr.None? && st.stored.Some?
    && c.decrypt(st.stored.value).Some? && c.unmarshal(c.decrypt(st.stored.value).value) == Some(token)
  }

  /** The refresh gives a token, and that is marshalled, encrypted and written. */
  predicate Replaces(c: Codec, io: TokenIO, token: Token, blob: Blob) {
    && io.refreshed == Ok(token)
    && c.marshal(token).Some? && c.encrypt(c.marshal(token).value, io.nonce) == Some(blob)
    && io.writeErr.None?
  }

  /**
   * The cached token comes back if it is valid; else the stored one, which is then cached, if it is valid; and
   * if that has expired, the refreshed one, which is then stored and cached.
   */
  lemma TokenExactly(c: Codec, st: Tokens, io: TokenIO, stored: Token, renewed: Token, blob: Blob)
    ensures CachedIsValid(c, st, io) ==> GetToken(c, st, io) == (st, st.cached)
    ensures !CachedIsValid(c, st, io) && Reads(c, st, io, stored) && c.valid(stored, io.later)
         ==> GetToken(c, st, io) == (Tokens(Some(stored), st.stored), Some(stored))
    ensures !CachedIsValid(c, st, io) && Reads(c, st, io, stored) && !c.valid(stored, io.later) && Replaces(c, io, renewed, blob)
         ==> GetToken(c, st, io) == (Tokens(Some(renewed), Some(blob)), Some(renewed))
  {
  }

  /**
   * A call fails, and changes nothing, exactly if its cached token is no good and the stored one cannot be read,
   * or has expired and cannot be replaced.
   */
  lemma FailsExactly(c: Codec, st: Tokens, io: TokenIO)
    ensures
      var (after, r) := GetToken(c, st, io);
      && (r.None? <==>
            && !CachedIsValid(c, st, io)
            && forall stored :: Reads(c, st, io, stored) ==>
                 !c.valid(stored, io.later) && forall renewed, blob :: !Replaces(c, io, renewed, blob))
      && (r.None? ==> after == st)
  {
    var r := GetToken(c, st, io).1;
    if !CachedIsValid(c, st, io) && io.readErr.None? && st.stored.Some? && Decode(c, st.stored.value).Some? {
      var stored := Decode(c, st.stored.value).value;
      assert Reads(c, st, io, stored);
      if r.Some? && !c.valid(stored, io.later) {
        assert Replaces(c, io, r.value, Encode(c, r.value, io.nonce).value);
      }
    }
  }

  /** No expired token comes back: what does was valid when it was looked at, or has just been refreshed. */
  lemma NoExpiredToken(c: Codec, st: Tokens, io: TokenIO)
    requires GetToken(c, st, io).1.Some?
    ensures
      var token := GetToken(c, st, io).1.value;
      || (c.valid(token, io.now) && st.cached == Some(token))
      || (c.valid(token, io.later) && Reads(c, st, io, token))
      || io.refreshed == Ok(token)
  {
  }

  // ---------------------------------------------------------------- runs

  datatype TokenStep =
    | Call(io: TokenIO)
    | OtherWriter(blob: Blob)   // somebody else stores a token, as a new sign-in does

  function NextTokens(c: Codec, st: Tokens, step: TokenStep): Tokens {
    match step
    case Call(io) => GetToken(c, st, io).0
    case OtherWriter(blob) => st.(stored := Some(blob))
  }

  function RunTokens(c: Codec, st: Tokens, steps: seq<TokenStep>): Tokens {
    if steps == [] then st else NextTokens(c, RunTokens(c, st, steps[..|steps| - 1]), steps[|steps| - 1])
  }

  /** The cached token, if any, is the one in the store. */
  predicate Coherent(c: Codec, st: Tokens) {
    st.cached.Some? ==> st.stored.Some? && Decode(c, st.stored.value) == st.cached
  }

  /** One call with one writer: coherence is kept, and a token that is returned is in the store by then. */
  lemma CallKeepsCoherent(c: Codec, st: Tokens, io: TokenIO)
    requires Lawful(c) && Coherent(c, st)
    ensures
      var (after, r) := GetToken(c, st, io);
      Coherent(c, after) && (r.Some? ==> after.stored.Some? && Decode(c, after.stored.value) == r)
  {
  }

  /**
   * With one writer, after any calls with any failures of store, encryption or refresh: the cache
   * is empty or agrees with the store, and the next call returns only a token that is stored.
   */
  lemma {:induction false} CacheNeverAheadOfStore(c: Codec, st: Tokens, steps: seq<TokenStep>, io: TokenIO)
    requires Lawful(c) && Coherent(c, st) && forall k | 0 <= k < |steps| :: steps[k].Call?
    ensures
      var now := RunTokens(c, st, steps);
      var (after, r) := GetToken(c, now, io);
      && Coherent(c, now)
      && (r.Some? ==> after.stored.Some? && Decode(c, after.stored.value) == r)
      && (r.None? ==> after == now)
  {
    if steps != [] {
      CacheNeverAheadOfStore(c, st, steps[..|steps| - 1], steps[|steps| - 1].io);
      CallKeepsCoherent(c, RunTokens(c, st, steps[..|steps| - 1]), steps[|steps| - 1].io);
    }
    CallKeepsCoherent(c, RunTokens(c, st, steps), io);
  }

  /**
   * With other writers the cache can disagree with the store: a call returns a token other than
   * the stored one exactly when its cached token is still valid and another one was stored since.
   */
  lemma StaleExactlyWhileCachedIsValid(c: Codec, st: Tokens, io: TokenIO)
    requires Lawful(c) && GetToken(c, st, io).1.Some?
    ensures
      var (after, r) := GetToken(c, st, io);
      (after.stored.None? || Decode(c, after.stored.value) != r)
      <==>
      && st.cached.Some? && c.valid(st.cached.value, io.now)
      && (st.stored.None? || Decode(c, st.stored.value) != st.cached)
  {
    if io.refreshed.Ok? {
      var encrypted := Encode(c, io.refreshed.value, io.nonce);
      assert encrypted.Some? ==> Decode(c, encrypted.value) == Some(io.refreshed.value);
    }
  }
}
