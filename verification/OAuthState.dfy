/** The signed state parameter of the OAuth login: printed by Sign, read back by Validate. */
module OAuthState {
  import opened Errors
  import opened Base64

  /** Times are nanoseconds since the epoch. */
  const SECOND := 1_000_000_000

  datatype State = State(email: string, expiresAt: int)

  /** HMAC-SHA256 and JSON are given; only the laws a lemma asks for are known of them. */
  datatype Signer = Signer(
    key: seq<Byte>,
    ttl: int,
    mac: (seq<Byte>, seq<Byte>) -> seq<Byte>,
    marshal: State -> seq<Byte>,
    unmarshal: seq<Byte> -> Option<State>
  )

  datatype Reason = MissingSeparator | BadPayload | BadSignature | WrongSignature | BadJson | Expired

  datatype Verdict = Valid(email: string) | Invalid(why: Reason)

  /** Time.Unix: whole seconds, rounded down. */
  function Unix(time: int): int {
    time / SECOND
  }

  function StateAt(s: Signer, email: string, now: int): State {
    State(email, Unix(now + s.ttl))
  }

  function Printed(payload: seq<Byte>, signature: seq<Byte>): string {
    EncodeRaw(UrlSafe, payload) + "." + EncodeRaw(UrlSafe, signature)
  }

  function Sign(s: Signer, email: string, now: int): string {
    var payload := s.marshal(StateAt(s, email, now));
    Printed(payload, s.mac(s.key, payload))
  }

  function DecodeUrl(text: string): Option<seq<Byte>> {
    DecodeRaw(UrlSafe, WithoutBreaks(text))
  }

  // ---------------------------------------------------------------- what Validate answers

  /** The split is at the last dot. */
  predicate SplitsAt(text: string, dot: int) {
    0 <= dot < |text| && text[dot] == '.' && forall i | dot < i < |text| :: text[i] != '.'
  }

  /** The checks behind the split, in the order in which they fail. */
  function Judge(s: Signer, left: string, right: string, now: int): Verdict {
    var payload, signature := DecodeUrl(left), DecodeUrl(right);
    if payload.None? then Invalid(BadPayload)
    else if signature.None? then Invalid(BadSignature)
    else if signature.value != s.mac(s.key, payload.value) then Invalid(WrongSignature)
    else match s.unmarshal(payload.value)
         case None => Invalid(BadJson)
         case Some(state) => if Unix(now) > state.expiresAt then Invalid(Expired) else Valid(state.email)
  }

  method Validate(s: Signer, text: string, now: int) returns (r: Verdict)
    ensures '.' !in text ==> r == Invalid(MissingSeparator)
    ensures '.' in text ==> exists dot :: SplitsAt(text, dot)
    ensures forall dot | SplitsAt(text, dot) :: r == Judge(s, text[..dot], text[dot + 1..], now)
  {
    hide DecodeUrl, Unix;
    var dot := -1;
    var i := |text| - 1;
    while i >= 0
      invariant -1 <= i < |text|
      invariant dot == -1
      invariant forall k | i < k < |text| :: text[k] != '.'
    {
      if text[i] == '.' {
        dot := i;
        break;
      }
      i := i - 1;
    }
    if dot < 0 {
      return Invalid(MissingSeparator);
    }
    assert SplitsAt(text, dot);
    var payload := DecodeUrl(text[..dot]);
    if payload.None? {
      return Invalid(BadPayload);
    }
    var signature := DecodeUrl(text[dot + 1..]);
    if signature.None? {
      return Invalid(BadSignature);
    }
    var expected := s.mac(s.key, payload.value);
    if signature.value != expected {
      return Invalid(WrongSignature);
    }
    var state := s.unmarshal(payload.value);
    if state.None? {
      return Invalid(BadJson);
    }
    if Unix(now) > state.value.expiresAt {
      return Invalid(Expired);
    }
    return Valid(state.value.email);
  }

  // ---------------------------------------------------------------- the round trip

  /** The alphabet has no dot, so the last dot of a printed state is the separator. */
  lemma PrintedSplits(payload: seq<Byte>, signature: seq<Byte>)
    ensures
      var text, dot := Printed(payload, signature), |EncodeRaw(UrlSafe, payload)|;
      && SplitsAt(text, dot)
      && DecodeUrl(text[..dot]) == Some(payload)
      && DecodeUrl(text[dot + 1..]) == Some(signature)
  {
    hide EncodeRaw, DecodeRaw, WithoutBreaks;
    var left, right := EncodeRaw(UrlSafe, payload), EncodeRaw(UrlSafe, signature);
    var text := Printed(payload, signature);
    assert text[..|left|] == left && text[|left| + 1..] == right;
    EncodedInAlphabet(UrlSafe, signature);
    assert ValueOf(UrlSafe, '.').None?;
    EncodedHasNoBreaks(UrlSafe, payload);
    EncodedHasNoBreaks(UrlSafe, signature);
    RawRoundTrip(UrlSafe, payload);
    RawRoundTrip(UrlSafe, signature);
  }

  /**
   * For every key, email and lifetime: a signed state gives its email back until the second in which
   * it expires is over. JSON need only return this one state unchanged.
   */
  lemma ValidateOfSign(s: Signer, email: string, signed: int, now: int, dot: int)
    requires s.unmarshal(s.marshal(StateAt(s, email, signed))) == Some(StateAt(s, email, signed))
    requires SplitsAt(Sign(s, email, signed), dot)
    ensures
      var text := Sign(s, email, signed);
      Judge(s, text[..dot], text[dot + 1..], now)
      == if Unix(now) <= Unix(signed + s.ttl) then Valid(email) else Invalid(Expired)
    ensures
      var text := Sign(s, email, signed);
      var r := Judge(s, text[..dot], text[dot + 1..], now);
      && (now <= signed + s.ttl ==> r == Valid(email))
      && (now >= signed + s.ttl + SECOND ==> r == Invalid(Expired))
  {
    hide EncodeRaw, DecodeRaw, WithoutBreaks;
    var payload := s.marshal(StateAt(s, email, signed));
    PrintedSplits(payload, s.mac(s.key, payload));
  }

  /** The whole exchange: what one Sign printed, Validate judges as the lemma above says. */
  method SignThenValidate(s: Signer, email: string, signed: int, now: int) returns (r: Verdict)
    requires s.unmarshal(s.marshal(StateAt(s, email, signed))) == Some(StateAt(s, email, signed))
    ensures r == if Unix(now) <= Unix(signed + s.ttl) then Valid(email) else Invalid(Expired)
  {
    var text := Sign(s, email, signed);
    r := Validate(s, text, now);
    var payload := s.marshal(StateAt(s, email, signed));
    PrintedSplits(payload, s.mac(s.key, payload));
    ValidateOfSign(s, email, signed, now, |EncodeRaw(UrlSafe, payload)|);
  }

  /** Another key accepts a state exactly when it gives that payload the same MAC. */
  lemma OtherKey(s: Signer, other: seq<Byte>, email: string, signed: int, now: int, dot: int)
    requires s.unmarshal(s.marshal(StateAt(s, email, signed))) == Some(StateAt(s, email, signed))
    requires SplitsAt(Sign(s, email, signed), dot)
    ensures
      var text, payload := Sign(s, email, signed), s.marshal(StateAt(s, email, signed));
      var r := Judge(s.(key := other), text[..dot], text[dot + 1..], now);
      if s.mac(other, payload) != s.mac(s.key, payload) then r == Invalid(WrongSignature)
      else r == if Unix(now) <= Unix(signed + s.ttl) then Valid(email) else Invalid(Expired)
  {
    hide EncodeRaw, DecodeRaw, WithoutBreaks;
    var payload := s.marshal(StateAt(s, email, signed));
    PrintedSplits(payload, s.mac(s.key, payload));
  }

  // ---------------------------------------------------------------- soundness

  /** Left of the last dot stands a payload, right of it the MAC of that payload. */
  predicate SignedPayload(s: Signer, text: string, dot: int, payload: seq<Byte>) {
    && SplitsAt(text, dot)
    && DecodeUrl(text[..dot]) == Some(payload)
    && DecodeUrl(text[dot + 1..]) == Some(s.mac(s.key, payload))
  }

  /** Whatever the text, it is accepted exactly when it carries a signed, unexpired state. */
  lemma AcceptsExactly(s: Signer, text: string, dot: int, now: int)
    requires SplitsAt(text, dot)
    ensures
      forall email :: Judge(s, text[..dot], text[dot + 1..], now) == Valid(email)
        <==> exists payload, exp :: SignedPayload(s, text, dot, payload)
               && s.unmarshal(payload) == Some(State(email, exp)) && Unix(now) <= exp
  {
    hide DecodeUrl;
    forall email
      ensures Judge(s, text[..dot], text[dot + 1..], now) == Valid(email)
        <==> exists payload, exp :: SignedPayload(s, text, dot, payload)
               && s.unmarshal(payload) == Some(State(email, exp)) && Unix(now) <= exp
    {
      if Judge(s, text[..dot], text[dot + 1..], now) == Valid(email) {
        var payload := DecodeUrl(text[..dot]).value;
        var state := s.unmarshal(payload).value;
        assert SignedPayload(s, text, dot, payload) && state == State(email, state.expiresAt);
      }
    }
  }

  /** Once expired, a text is never accepted again. */
  lemma ExpiryIsFinal(s: Signer, left: string, right: string, now: int, later: int)
    requires Judge(s, left, right, now) == Invalid(Expired) && now <= later
    ensures Judge(s, left, right, later) == Invalid(Expired)
  {
  }
}
