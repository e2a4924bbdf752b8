/** The Cognito token verifier of the backend: a JWKS document cached for an hour in two
    fields, a first-match search for the signing key by `kid`, and the ordered claim
    checks that follow the (abstract) signature decode, with errors mapped to HTTP
    statuses. The HTTP fetch, the JWT header parser, the signature decoder and the clock
    are parameters. */
module Cognito {
  import opened Common

  /** One entry of the JWKS `keys` list; `material` stands for the rest of the key. */
  datatype Jwk = Jwk(kid: Option<string>, material: string)

  /** A JWKS document: its `keys` member, if any, and how many other members it has.
      A Python dict is truthy exactly when it has a member. */
  datatype JwksDoc = JwksDoc(keys: Option<seq<Jwk>>, otherMembers: nat)

  predicate NonEmpty(d: JwksDoc)
  {
    d.keys.Some? || d.otherMembers > 0
  }

  /** `jwks.get("keys", [])` */
  function KeysOf(d: JwksDoc): seq<Jwk>
  {
    if d.keys.Some? then d.keys.value else []
  }

  const CacheDuration: real := 3600.0
  const FetchFailedDetail := "Unable to fetch JWKS from Cognito"
  const NoKeyDetail := "Unable to find appropriate signing key"

  /** The two cache fields `_jwks_cache` and `_cache_time`. */
  datatype CacheState = CacheState(cache: Option<JwksDoc>, time: real)

  /** The cached document is served: it is truthy and younger than the cache duration. */
  predicate Fresh(s: CacheState, now: real)
  {
    s.cache.Some? && NonEmpty(s.cache.value) && now - s.time < CacheDuration
  }

  /** `_get_jwks` at time `now`, where `fetched` is what the GET would give (`None` for a
      request exception or a non-success status): the answer and the new cache fields. */
  function JwksAfter(s: CacheState, now: real, fetched: Option<JwksDoc>): (Outcome<JwksDoc>, CacheState)
  {
    if Fresh(s, now) then (Ok(s.cache.value), s)
    else if fetched.None? then (HttpError(503, FetchFailedDetail), s)
    else (Ok(fetched.value), CacheState(Some(fetched.value), now))
  }

  /** The first key whose `kid` equals the header's `kid` (an absent `kid` on both sides
      compares equal, as `None == None` does). */
  function FirstKey(keys: seq<Jwk>, kid: Option<string>): Option<Jwk>
  {
    if keys == [] then None
    else if keys[0].kid == kid then Some(keys[0])
    else FirstKey(keys[1..], kid)
  }

  /** `_get_signing_key`: the JWKS, then the key search. */
  function SigningKeyAfter(s: CacheState, now: real, fetched: Option<JwksDoc>, kid: Option<string>): (Outcome<Jwk>, CacheState)
  {
    var (jwks, s') := JwksAfter(s, now, fetched);
    if jwks.HttpError? then (HttpError(jwks.status, jwks.detail), s')
    else
      var k := FirstKey(KeysOf(jwks.value), kid);
      if k.None? then (HttpError(401, NoKeyDetail), s') else (Ok(k.value), s')
  }

  /** The claims the checks read; `rest` stands for the others, returned untouched. */
  datatype Payload = Payload(exp: Option<real>, tokenUse: Option<string>, iss: Option<string>, rest: map<string, string>)

  /** What the JWT library gives: a value, or a `JWTError` with its message. */
  datatype Jwt<T> = Parsed(value: T) | JwtError(message: string)

  /** The header parser `jwt.get_unverified_header`, giving the header's `kid`. */
  type HeaderParser = string -> Jwt<Option<string>>

  /** `jwt.decode(token, key, audience=…)`: signature, expiry and (when an audience is
      passed) audience checks are all inside this oracle. */
  type Decoder = (string, Jwk, Option<string>) -> Jwt<Payload>

  /** The issuer a token of this user pool carries. */
  function ExpectedIssuer(region: string, userPoolId: string): (r: string)
    ensures |r| == 35 + |region| + |userPoolId|
    ensures r[..20] == "https://cognito-idp."
    ensures r[20..20 + |region|] == region && r[|r| - |userPoolId|..] == userPoolId
    ensures r[20 + |region|..|r| - |userPoolId|] == ".amazonaws.com/"
  {
    "https://cognito-idp." + region + ".amazonaws.com/" + userPoolId
  }

  /** The audience passed to the decoder: the app client id for id tokens only. */
  function AudienceFor(tokenUse: string, appClientId: string): (a: Option<string>)
    ensures a.Some? <==> tokenUse == "id"
    ensures a.Some? ==> a.value == appClientId
  {
    if tokenUse == "id" then Some(appClientId) else None
  }

  /** `payload.get("exp") and time.time() > payload["exp"]` */
  predicate Expired(p: Payload, now: real)
  {
    p.exp.Some? && p.exp.value != 0.0 && now > p.exp.value
  }

  /** The three checks after decoding, in source order: expiry, token use, issuer. */
  function CheckClaims(p: Payload, tokenUse: string, now: real, issuer: string): (r: Outcome<Payload>)
    ensures r.Ok? <==> !Expired(p, now) && p.tokenUse == Some(tokenUse) && p.iss == Some(issuer)
    ensures r.Ok? ==> r.value == p
    ensures Expired(p, now) ==> r == HttpError(401, "Token has expired")
    ensures !Expired(p, now) && p.tokenUse != Some(tokenUse) ==>
      r == HttpError(401, "Token is not an " + tokenUse + " token")
    ensures !Expired(p, now) && p.tokenUse == Some(tokenUse) && p.iss != Some(issuer) ==>
      r == HttpError(401, "Invalid token issuer")
  {
    if Expired(p, now) then HttpError(401, "Token has expired")
    else if p.tokenUse != Some(tokenUse) then HttpError(401, "Token is not an " + tokenUse + " token")
    else if p.iss != Some(issuer) then HttpError(401, "Invalid token issuer")
    else Ok(p)
  }

  /** The `except JWTError` handler: "expired" anywhere in the lower-cased message. */
  function JwtErrorOutcome<T>(message: string): (r: Outcome<T>)
    ensures r.HttpError? && r.status == 401
    ensures r.detail == "Expired token" <==> Contains(Lower(message), "expired")
    ensures r.detail != "Expired token" ==> r.detail == "Invalid token"
  {
    if Contains(Lower(message), "expired") then HttpError(401, "Expired token") else HttpError(401, "Invalid token")
  }

  /** What verifying a token yields, and the new cache fields. */
  function VerifyAfter(s: CacheState, token: string, tokenUse: string, now: real, fetched: Option<JwksDoc>,
                       header: HeaderParser, decode: Decoder,
                       region: string, userPoolId: string, appClientId: string): (Outcome<Payload>, CacheState)
  {
    match header(token)
    case JwtError(m) => (JwtErrorOutcome(m), s)
    case Parsed(kid) =>
      var (key, s') := SigningKeyAfter(s, now, fetched, kid);
      if key.HttpError? then (HttpError(key.status, key.detail), s')
      else
        match decode(token, key.value, AudienceFor(tokenUse, appClientId))
        case JwtError(m) => (JwtErrorOutcome(m), s')
        case Parsed(p) => (CheckClaims(p, tokenUse, now, ExpectedIssuer(region, userPoolId)), s')
  }

  /** The loop of `_get_signing_key`. */
  method FindSigningKey(keys: seq<Jwk>, kid: Option<string>) returns (r: Option<Jwk>)
    ensures r == FirstKey(keys, kid)
  {
    var i := 0;
    while i < |keys|
      invariant 0 <= i <= |keys|
      invariant FirstKey(keys, kid) == FirstKey(keys[i..], kid)
    {
      assert keys[i..][1..] == keys[i + 1..];
      if keys[i].kid == kid {
        return Some(keys[i]);
      }
      i := i + 1;
    }
    return None;
  }

  class CognitoVerifier {
    const region: string
    const userPoolId: string
    const appClientId: string
    var jwksCache: Option<JwksDoc>
    var cacheTime: real

    function State(): CacheState
      reads this
    {
      CacheState(jwksCache, cacheTime)
    }

    constructor(region: string, userPoolId: string, appClientId: string)
      ensures this.region == region && this.userPoolId == userPoolId && this.appClientId == appClientId
      ensures jwksCache == None && cacheTime == 0.0
    {
      this.region := region;
      this.userPoolId := userPoolId;
      this.appClientId := appClientId;
      jwksCache := None;
      cacheTime := 0.0;
    }

    /** `_get_jwks` */
    method GetJwks(now: real, fetched: Option<JwksDoc>) returns (r: Outcome<JwksDoc>)
      modifies this
      ensures (r, State()) == JwksAfter(old(State()), now, fetched)
    {
      if jwksCache.Some? && NonEmpty(jwksCache.value) && now - cacheTime < CacheDuration {
        return Ok(jwksCache.value);
      }
      if fetched.None? {
        return HttpError(503, FetchFailedDetail);
      }
      jwksCache := fetched;
      cacheTime := now;
      r := Ok(fetched.value);
    }

    /** `_get_signing_key` */
    method GetSigningKey(kid: Option<string>, now: real, fetched: Option<JwksDoc>) returns (r: Outcome<Jwk>)
      modifies this
      ensures (r, State()) == SigningKeyAfter(old(State()), now, fetched, kid)
    {
      var jwks := GetJwks(now, fetched);
      if jwks.HttpError? {
        return HttpError(jwks.status, jwks.detail);
      }
      var k := FindSigningKey(KeysOf(jwks.value), kid);
      if k.None? {
        return HttpError(401, NoKeyDetail);
      }
      r := Ok(k.value);
    }

    /** `verify_token` */
    method VerifyToken(token: string, tokenUse: string, now: real, fetched: Option<JwksDoc>,
                       header: HeaderParser, decode: Decoder) returns (r: Outcome<Payload>)
      modifies this
      ensures (r, State()) == VerifyAfter(old(State()), token, tokenUse, now, fetched, header, decode,
                                          region, userPoolId, appClientId)
    {
      var h := header(token);
      if h.JwtError? {
        return JwtErrorOutcome(h.message);
      }
      var key := GetSigningKey(h.value, now, fetched);
      if key.HttpError? {
        return HttpError(key.status, key.detail);
      }
      var decoded := decode(token, key.value, AudienceFor(tokenUse, appClientId));
      if decoded.JwtError? {
        return JwtErrorOutcome(decoded.message);
      }
      r := CheckClaims(decoded.value, tokenUse, now, ExpectedIssuer(region, userPoolId));
    }
  }

  // ----------------------------------------------------------------- the cache

  /** A fresh cache is served as it is, whatever a fetch would give, and nothing changes. */
  lemma CacheHit(s: CacheState, now: real, fetched: Option<JwksDoc>)
    requires s.cache.Some? && NonEmpty(s.cache.value) && now - s.time < CacheDuration
    ensures JwksAfter(s, now, fetched) == (Ok(s.cache.value), s)
  {
  }

  /** An empty, missing or stale cache is refetched; success replaces both fields. */
  lemma CacheRefetch(s: CacheState, now: real, d: JwksDoc)
    requires !(s.cache.Some? && NonEmpty(s.cache.value)) || now - s.time >= CacheDuration
    ensures JwksAfter(s, now, Some(d)) == (Ok(d), CacheState(Some(d), now))
  {
  }

  /** A failed fetch answers 503 and leaves both fields as they were. */
  lemma FetchFailureKeepsCache(s: CacheState, now: real)
    ensures var (r, s') := JwksAfter(s, now, None);
      s' == s && (r.HttpError? ==> r == HttpError(503, FetchFailedDetail))
    ensures !Fresh(s, now) ==> JwksAfter(s, now, None).0 == HttpError(503, FetchFailedDetail)
  {
  }

  /** After a fetch of a non-empty document at `t`, every call within the next hour is
      answered from the cache with that document, whatever the network would give. */
  lemma ServedFromCacheWithinHour(s: CacheState, t: real, d: JwksDoc, later: real, fetched: Option<JwksDoc>)
    requires !Fresh(s, t) && NonEmpty(d)
    requires later - t < CacheDuration
    ensures var (_, s1) := JwksAfter(s, t, Some(d));
      JwksAfter(s1, later, fetched) == (Ok(d), s1)
  {
  }

  /** A fetched document without members is returned once but never served from the
      cache: the next call fetches again. */
  lemma EmptyDocumentNotCached(s: CacheState, t: real, later: real, fetched: Option<JwksDoc>)
    requires !Fresh(s, t)
    ensures var (_, s1) := JwksAfter(s, t, Some(JwksDoc(None, 0)));
      !Fresh(s1, later)
  {
  }

  // ----------------------------------------------------------- the key search

  /** `FirstKey` finds the first key with that `kid`, and reports `None` only when no key
      has it. */
  lemma {:induction false} FirstKeyMeaning(keys: seq<Jwk>, kid: Option<string>)
    ensures FirstKey(keys, kid).None? <==> forall i :: 0 <= i < |keys| ==> keys[i].kid != kid
    ensures FirstKey(keys, kid).Some? ==>
      exists i :: 0 <= i < |keys| && keys[i] == FirstKey(keys, kid).value && keys[i].kid == kid
        && forall j :: 0 <= j < i ==> keys[j].kid != kid
  {
    if keys != [] && keys[0].kid != kid {
      FirstKeyMeaning(keys[1..], kid);
      if FirstKey(keys[1..], kid).Some? {
        var i :| 0 <= i < |keys[1..]| && keys[1..][i] == FirstKey(keys[1..], kid).value && keys[1..][i].kid == kid
          && forall j :: 0 <= j < i ==> keys[1..][j].kid != kid;
        assert keys[i + 1] == keys[1..][i];
        forall j | 0 <= j < i + 1 ensures keys[j].kid != kid {
          if j > 0 { assert keys[j] == keys[1..][j - 1]; }
        }
      } else {
        forall i | 0 <= i < |keys| ensures keys[i].kid != kid {
          if i > 0 { assert keys[i] == keys[1..][i - 1]; }
        }
      }
    }
  }

  /** With a usable JWKS, the signing key is the first match, or 401 when none matches. */
  lemma SigningKeyOutcome(s: CacheState, now: real, fetched: Option<JwksDoc>, kid: Option<string>)
    ensures var (jwks, _) := JwksAfter(s, now, fetched);
      var (r, _) := SigningKeyAfter(s, now, fetched, kid);
      && (jwks.HttpError? ==> r == HttpError(503, FetchFailedDetail))
      && (jwks.Ok? && FirstKey(KeysOf(jwks.value), kid).None? ==> r == HttpError(401, NoKeyDetail))
      && (jwks.Ok? && FirstKey(KeysOf(jwks.value), kid).Some? ==> r == Ok(FirstKey(KeysOf(jwks.value), kid).value))
    ensures SigningKeyAfter(s, now, fetched, kid).1 == JwksAfter(s, now, fetched).1
  {
  }

  // --------------------------------------------------------- verify_token

  /** A payload comes back only when the header parsed, a signing key matched, the
      decoder accepted the token with the audience for its use, and all three claim checks
      passed; it is the decoded payload itself. */
  lemma VerifySound(s: CacheState, token: string, tokenUse: string, now: real, fetched: Option<JwksDoc>,
                    header: HeaderParser, decode: Decoder, region: string, userPoolId: string, appClientId: string)
    requires VerifyAfter(s, token, tokenUse, now, fetched, header, decode, region, userPoolId, appClientId).0.Ok?
    ensures header(token).Parsed?
    ensures var key := SigningKeyAfter(s, now, fetched, header(token).value).0;
      && key.Ok?
      && var d := decode(token, key.value, AudienceFor(tokenUse, appClientId));
      && d.Parsed?
      && VerifyAfter(s, token, tokenUse, now, fetched, header, decode, region, userPoolId, appClientId).0.value == d.value
      && !Expired(d.value, now)
      && d.value.tokenUse == Some(tokenUse)
      && d.value.iss == Some(ExpectedIssuer(region, userPoolId))
  {
  }

  /** Every failure is a 401, except a JWKS fetch that failed, which is a 503. */
  lemma VerifyStatuses(s: CacheState, token: string, tokenUse: string, now: real, fetched: Option<JwksDoc>,
                       header: HeaderParser, decode: Decoder, region: string, userPoolId: string, appClientId: string)
    ensures var r := VerifyAfter(s, token, tokenUse, now, fetched, header, decode, region, userPoolId, appClientId).0;
      r.HttpError? ==> (r.status == 503 <==> header(token).Parsed? && !Fresh(s, now) && fetched.None?)
    ensures var r := VerifyAfter(s, token, tokenUse, now, fetched, header, decode, region, userPoolId, appClientId).0;
      r.HttpError? ==> r.status == 401 || r.status == 503
  {
  }

  /** The decoder is only ever consulted with the audience for the token use: two decoders
      that agree there give the same outcome. */
  lemma VerifyUsesAudienceFor(s: CacheState, token: string, tokenUse: string, now: real, fetched: Option<JwksDoc>,
                              header: HeaderParser, d1: Decoder, d2: Decoder,
                              region: string, userPoolId: string, appClientId: string)
    requires forall k :: d1(token, k, AudienceFor(tokenUse, appClientId)) == d2(token, k, AudienceFor(tokenUse, appClientId))
    ensures VerifyAfter(s, token, tokenUse, now, fetched, header, d1, region, userPoolId, appClientId)
         == VerifyAfter(s, token, tokenUse, now, fetched, header, d2, region, userPoolId, appClientId)
  {
  }

  /** An expired payload is rejected as expired whatever its other claims say. */
  lemma ExpiryCheckedFirst(p: Payload, tokenUse: string, now: real, issuer: string)
    requires Expired(p, now)
    ensures forall u, i :: CheckClaims(p.(tokenUse := u, iss := i), tokenUse, now, issuer) == HttpError(401, "Token has expired")
  {
  }
}
