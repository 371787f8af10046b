/**
 * Signed application tokens: JWS compact serialization (section 7.1 of RFC 7515) with the claim checks of the
 * source. HMAC and JSON are parameters; of JSON only that it can be read back is assumed, of HMAC nothing.
 */
module Tokens {
  import opened Wrappers
  import opened Text
  import opened Json
  import opened Base64Url

  datatype Settings = Settings(secret: string, issuer: string, audience: string, clockSkewSeconds: int)

  /** The JSON codec to bytes and hmac(message, secret). */
  datatype Crypto = Crypto(json: Codec<seq<Byte>>, hmac: (string, string) -> seq<Byte>)

  datatype TokenUse = Access | Refresh

  function UseName(use: TokenUse): (name: string) {
    match use
    case Access => "access"
    case Refresh => "refresh"
  }

  /** The arguments of token creation, with the identifiers to fall back on and the time of issue. */
  datatype TokenRequest = TokenRequest(
    subject: Option<string>, userId: Option<string>, sessionId: Option<string>, role: string, roles: seq<string>,
    organizationId: Option<string>, email: Option<string>, expiresInSeconds: Option<int>, defaultTtlSeconds: int,
    use: TokenUse, tokenId: Option<string>, secret: Option<string>, issuer: Option<string>, audience: Option<string>,
    ttlSeconds: Option<int>, issuedAt: real, freshSessionId: string, freshTokenId: string)

  type Claims = map<string, Json>

  /** `x or default` for optional text and for optional numbers: empty and zero fall through. */
  function OrText(x: Option<string>, default: string): string {
    if x.Some? && x.value != "" then x.value else default
  }

  function OrNumber(x: Option<int>, default: int): int {
    if x.Some? && x.value != 0 then x.value else default
  }

  /** int(x) of a float drops the fraction. */
  function Truncate(x: real): int {
    if x >= 0.0 then x.Floor else -((-x).Floor)
  }

  function Ttl(r: TokenRequest): int {
    OrNumber(r.ttlSeconds, OrNumber(r.expiresInSeconds, r.defaultTtlSeconds))
  }

  /** The expiry claim: whole seconds after the time of issue, fraction dropped. */
  function ExpiresAt(r: TokenRequest): int {
    Truncate(r.issuedAt + Ttl(r) as real)
  }

  function ResolvedSubject(r: TokenRequest): Option<string> {
    if r.subject.Some? && r.subject.value != "" then r.subject else r.userId
  }

  const HEADER: Json := Obj(map["alg" := Str("HS256"), "typ" := Str("JWT")])

  function Payload(settings: Settings, r: TokenRequest, subject: string): Claims {
    var claims := map[
      "sub" := Str(subject),
      "iss" := Str(OrText(r.issuer, settings.issuer)),
      "aud" := Str(OrText(r.audience, settings.audience)),
      "iat" := Int(Truncate(r.issuedAt)),
      "exp" := Int(ExpiresAt(r)),
      "token_use" := Str(UseName(r.use)),
      "jti" := Str(OrText(r.tokenId, r.freshTokenId)),
      "session_id" := Str(OrText(r.sessionId, r.freshSessionId)),
      "role" := Str(if r.roles != [] then r.roles[0] else r.role)];
    var withOrg := if r.organizationId.Some? then claims["org_id" := Str(r.organizationId.value)] else claims;
    if r.email.Some? then withOrg["email" := Str(r.email.value)] else withOrg
  }

  function SigningInput(crypto: Crypto, payload: Json): string {
    Encode(crypto.json.dump(HEADER)) + "." + Encode(crypto.json.dump(payload))
  }

  function Sign(crypto: Crypto, message: string, secret: string): string {
    Encode(crypto.hmac(message, secret))
  }

  /** The token, or None where the source raises because the subject is missing or blank. */
  function CreateToken(crypto: Crypto, settings: Settings, r: TokenRequest): Option<string> {
    var subject := ResolvedSubject(r);
    if subject.None? || Blank(subject.value) then None
    else
      var input := SigningInput(crypto, Obj(Payload(settings, r, subject.value)));
      Some(input + "." + Sign(crypto, input, r.secret.GetOr(settings.secret)))
  }

  datatype TokenError =
    | InvalidFormat | NonAsciiSignature | InvalidSignature | InvalidPayload | UnsupportedHeader | InvalidIssuer
    | InvalidAudience | MissingSubject | InvalidExpiration | Expired | InvalidType | MissingSession | MissingIdentifier

  function Claim(fields: map<string, Json>, name: string): Json {
    Lookup(fields, name, Null)
  }

  predicate NonBlankText(j: Json) {
    j.Str? && !Blank(j.s)
  }

  /** isinstance(value, int) accepts booleans as well. */
  function AsInt(j: Json): Option<int> {
    match j
    case Int(i) => Some(i)
    case Bool(b) => Some(if b then 1 else 0)
    case _ => None
  }

  function CheckClaims(settings: Settings, claims: Claims, expected: TokenUse, allowMissingUse: bool, now: real): Result<Claims, TokenError> {
    if Claim(claims, "iss") != Str(settings.issuer) then Failure(InvalidIssuer)
    else if Claim(claims, "aud") != Str(settings.audience) then Failure(InvalidAudience)
    else if !NonBlankText(Claim(claims, "sub")) then Failure(MissingSubject)
    else if AsInt(Claim(claims, "exp")).None? then Failure(InvalidExpiration)
    else if now >= (AsInt(Claim(claims, "exp")).value + settings.clockSkewSeconds) as real then Failure(Expired)
    else if Claim(claims, "token_use").Null? && allowMissingUse then Success(claims)
    else if Claim(claims, "token_use") != Str(UseName(expected)) then Failure(InvalidType)
    else if !NonBlankText(Claim(claims, "session_id")) then Failure(MissingSession)
    else if !NonBlankText(Claim(claims, "jti")) then Failure(MissingIdentifier)
    else Success(claims)
  }

  function DecodeToken(crypto: Crypto, settings: Settings, token: string, expected: TokenUse, now: real): Result<Claims, TokenError> {
    var parts := Split(token, '.');
    if |parts| != 3 then Failure(InvalidFormat)
    else
      var signature := Sign(crypto, parts[0] + "." + parts[1], settings.secret);
      if exists c <- parts[2] :: !IsAscii(c) then Failure(NonAsciiSignature)
      else if signature != parts[2] then Failure(InvalidSignature)
      else DecodeSigned(settings, LoadPart(crypto, parts[0]), LoadPart(crypto, parts[1]), expected, now)
  }

  /** What follows once the signature has been found good. */
  function DecodeSigned(settings: Settings, header: Option<Json>, claims: Option<Json>, expected: TokenUse, now: real): Result<Claims, TokenError> {
    match (header, claims)
    case (Some(Obj(h)), Some(Obj(c))) =>
      if Claim(h, "alg") != Str("HS256") || Claim(h, "typ") != Str("JWT") then Failure(UnsupportedHeader)
      else CheckClaims(settings, c, expected, expected.Access?, now)
    case _ => Failure(InvalidPayload)
  }

  function LoadPart(crypto: Crypto, part: string): Option<Json> {
    var raw := Decode(part);
    if raw.None? then None else crypto.json.load(raw.value)
  }

  // ---------------------------------------------------------------------------------------------
  // Round trip
  // ---------------------------------------------------------------------------------------------

  lemma NoDot(raw: seq<Byte>)
    ensures '.' !in Encode(raw)
    ensures forall c <- Encode(raw) :: IsAscii(c)
  {
    EncodeShape(raw);
  }

  /** A created token has exactly three parts: header, claims and signature. */
  lemma ThreeParts(crypto: Crypto, payload: Json, signature: seq<Byte>)
    ensures Split(SigningInput(crypto, payload) + "." + Encode(signature), '.')
         == [Encode(crypto.json.dump(HEADER)), Encode(crypto.json.dump(payload)), Encode(signature)]
  {
    var h, p, s := Encode(crypto.json.dump(HEADER)), Encode(crypto.json.dump(payload)), Encode(signature);
    NoDot(crypto.json.dump(HEADER));
    NoDot(crypto.json.dump(payload));
    NoDot(signature);
    SplitFirst(h, '.', p + "." + s);
    SplitFirst(p, '.', s);
    SplitUnseparated(s, '.');
    assert SigningInput(crypto, payload) + "." + s == h + ['.'] + (p + "." + s);
    assert p + "." + s == p + ['.'] + s;
  }

  lemma LoadEncoded(crypto: Crypto, j: Json)
    requires crypto.json.Invertible() && Record(j)
    ensures LoadPart(crypto, Encode(crypto.json.dump(j))) == Some(j)
  {
    RoundTrip(crypto.json.dump(j));
  }

  /** The names the decoder looks up are pairwise different from the names that are added later. */
  lemma ClaimNames()
    ensures "alg" != "typ"
    ensures var names := ["sub", "iss", "aud", "iat", "exp", "token_use", "jti", "session_id", "role", "org_id", "email"];
            forall i, j | 0 <= i < j < |names| :: names[i] != names[j]
  {
    assert "alg"[0] != "typ"[0];
    assert "sub"[0] != "iss"[0] && "sub"[0] != "aud"[0] && "sub"[0] != "iat"[0] && "sub"[0] != "exp"[0] && "sub"[0] != "jti"[0];
    assert "iss"[0] != "aud"[0] && "iss"[1] != "iat"[1] && "iss"[0] != "exp"[0] && "iss"[0] != "jti"[0];
    assert "aud"[0] != "iat"[0] && "aud"[0] != "exp"[0] && "aud"[0] != "jti"[0];
    assert "iat"[0] != "exp"[0] && "iat"[0] != "jti"[0];
    assert "exp"[0] != "jti"[0];
  }

  /** The claims a decoder looks at are those of the request. */
  ghost predicate Carries(claims: Claims, settings: Settings, r: TokenRequest, subject: string) {
    && Claim(claims, "iss") == Str(OrText(r.issuer, settings.issuer))
    && Claim(claims, "aud") == Str(OrText(r.audience, settings.audience))
    && Claim(claims, "sub") == Str(subject)
    && Claim(claims, "exp") == Int(ExpiresAt(r))
    && Claim(claims, "token_use") == Str(UseName(r.use))
    && Claim(claims, "session_id") == Str(OrText(r.sessionId, r.freshSessionId))
    && Claim(claims, "jti") == Str(OrText(r.tokenId, r.freshTokenId))
  }

  lemma PayloadCarries(settings: Settings, r: TokenRequest, subject: string)
    ensures Carries(Payload(settings, r, subject), settings, r, subject)
  {
    ClaimNames();
    var names := ["sub", "iss", "aud", "iat", "exp", "token_use", "jti", "session_id", "role", "org_id", "email"];
    assert names[0] != names[1];
  }

  lemma PayloadIsRecord(settings: Settings, r: TokenRequest, subject: string)
    ensures Record(Obj(Payload(settings, r, subject)))
  {
  }

  /** When the decoder accepts a created token, given the configured secret signed it. */
  predicate Acceptable(settings: Settings, r: TokenRequest, expected: TokenUse, now: real) {
    && OrText(r.issuer, settings.issuer) == settings.issuer
    && OrText(r.audience, settings.audience) == settings.audience
    && now < EndOfLife(settings, r)
    && r.use == expected
    && !Blank(OrText(r.sessionId, r.freshSessionId))
    && !Blank(OrText(r.tokenId, r.freshTokenId))
  }

  /** A token signed with the configured secret reaches the claim checks with the claims it was made from. */
  lemma CreatedTokenReadsBack(crypto: Crypto, settings: Settings, claims: Claims, expected: TokenUse, now: real)
    requires crypto.json.Invertible() && Record(Obj(claims))
    ensures var input := SigningInput(crypto, Obj(claims));
            var token := input + "." + Sign(crypto, input, settings.secret);
            DecodeToken(crypto, settings, token, expected, now) == CheckClaims(settings, claims, expected, expected.Access?, now)
  {
    var input := SigningInput(crypto, Obj(claims));
    ThreeParts(crypto, Obj(claims), crypto.hmac(input, settings.secret));
    NoDot(crypto.hmac(input, settings.secret));
    LoadEncoded(crypto, HEADER);
    LoadEncoded(crypto, Obj(claims));
    HeaderAccepted(settings, claims, expected, now);
  }

  lemma HeaderAccepted(settings: Settings, claims: Claims, expected: TokenUse, now: real)
    ensures DecodeSigned(settings, Some(HEADER), Some(Obj(claims)), expected, now)
         == CheckClaims(settings, claims, expected, expected.Access?, now)
  {
    ClaimNames();
  }

  lemma UseNamesDiffer()
    ensures UseName(Access) != UseName(Refresh)
  {
    assert UseName(Access)[0] != UseName(Refresh)[0];
  }

  /**
   * No text whatever is both an access token and a refresh token, under whichever settings and at whichever times
   * the two decoders read it: the access decoder lets the type be missing, but then the refresh decoder refuses.
   */
  lemma NoTokenServesBoth(crypto: Crypto, token: string, settings: Settings, now: real, settings': Settings, now': real)
    ensures !(DecodeToken(crypto, settings, token, Access, now).Success? && DecodeToken(crypto, settings', token, Refresh, now').Success?)
  {
    UseNamesDiffer();
    if DecodeToken(crypto, settings, token, Access, now).Success? {
      AcceptedUse(crypto, settings, token, Access, now);
    }
    if DecodeToken(crypto, settings', token, Refresh, now').Success? {
      AcceptedUse(crypto, settings', token, Refresh, now');
    }
  }

  /** What an accepted text says about its use, read from its middle part. */
  lemma AcceptedUse(crypto: Crypto, settings: Settings, token: string, expected: TokenUse, now: real)
    requires DecodeToken(crypto, settings, token, expected, now).Success?
    ensures var parts := Split(token, '.');
            |parts| == 3 &&
            var claims := LoadPart(crypto, parts[1]);
            && claims.Some? && claims.value.Obj?
            && (Claim(claims.value.fields, "token_use") == Str(UseName(expected))
                || (expected == Access && Claim(claims.value.fields, "token_use") == Null))
  {
  }

  function EndOfLife(settings: Settings, r: TokenRequest): real {
    (ExpiresAt(r) + settings.clockSkewSeconds) as real
  }

  /** The outcome of the claim checks, told from the request alone. */
  function ExpectedOutcome(settings: Settings, r: TokenRequest, claims: Claims, expected: TokenUse, now: real): Result<Claims, TokenError> {
    if OrText(r.issuer, settings.issuer) != settings.issuer then Failure(InvalidIssuer)
    else if OrText(r.audience, settings.audience) != settings.audience then Failure(InvalidAudience)
    else if now >= EndOfLife(settings, r) then Failure(Expired)
    else if r.use != expected then Failure(InvalidType)
    else if Blank(OrText(r.sessionId, r.freshSessionId)) then Failure(MissingSession)
    else if Blank(OrText(r.tokenId, r.freshTokenId)) then Failure(MissingIdentifier)
    else Success(claims)
  }

  /** The claim checks on claims whose values are known. */
  lemma CheckKnownClaims(settings: Settings, claims: Claims, issuer: string, audience: string, subject: string, exp: int,
                         use: string, sessionId: string, tokenId: string, expected: TokenUse, allowMissingUse: bool, now: real)
    requires Claim(claims, "iss") == Str(issuer) && Claim(claims, "aud") == Str(audience) && Claim(claims, "sub") == Str(subject)
    requires Claim(claims, "exp") == Int(exp) && Claim(claims, "token_use") == Str(use)
    requires Claim(claims, "session_id") == Str(sessionId) && Claim(claims, "jti") == Str(tokenId)
    requires !Blank(subject)
    ensures CheckClaims(settings, claims, expected, allowMissingUse, now) ==
              if issuer != settings.issuer then Failure(InvalidIssuer)
              else if audience != settings.audience then Failure(InvalidAudience)
              else if now >= (exp + settings.clockSkewSeconds) as real then Failure(Expired)
              else if use != UseName(expected) then Failure(InvalidType)
              else if Blank(sessionId) then Failure(MissingSession)
              else if Blank(tokenId) then Failure(MissingIdentifier)
              else Success(claims)
  {
  }

  lemma ClaimsChecked(settings: Settings, r: TokenRequest, claims: Claims, subject: string, expected: TokenUse, now: real)
    requires !Blank(subject) && Carries(claims, settings, r, subject)
    ensures CheckClaims(settings, claims, expected, expected.Access?, now) == ExpectedOutcome(settings, r, claims, expected, now)
  {
    UseNamesDiffer();
    CheckKnownClaims(settings, claims, OrText(r.issuer, settings.issuer), OrText(r.audience, settings.audience), subject,
                     ExpiresAt(r), UseName(r.use), OrText(r.sessionId, r.freshSessionId),
                     OrText(r.tokenId, r.freshTokenId), expected, expected.Access?, now);
  }

  /** A token signed with the configured secret decodes to its claims, or to the first reason the request gives against it. */
  lemma TokenRoundTrip(crypto: Crypto, settings: Settings, r: TokenRequest, expected: TokenUse, now: real)
    requires crypto.json.Invertible()
    requires r.secret.GetOr(settings.secret) == settings.secret
    requires CreateToken(crypto, settings, r).Some?
    ensures DecodeToken(crypto, settings, CreateToken(crypto, settings, r).value, expected, now)
         == ExpectedOutcome(settings, r, Payload(settings, r, ResolvedSubject(r).value), expected, now)
  {
    var subject := ResolvedSubject(r).value;
    PayloadCarries(settings, r, subject);
    PayloadIsRecord(settings, r, subject);
    CreatedTokenReadsBack(crypto, settings, Payload(settings, r, subject), expected, now);
    ClaimsChecked(settings, r, Payload(settings, r, subject), subject, expected, now);
  }

  /** The decoder gives the claims back exactly when the token is acceptable. */
  lemma AcceptedExactly(crypto: Crypto, settings: Settings, r: TokenRequest, expected: TokenUse, now: real)
    requires crypto.json.Invertible()
    requires r.secret.GetOr(settings.secret) == settings.secret
    requires CreateToken(crypto, settings, r).Some?
    ensures var outcome := DecodeToken(crypto, settings, CreateToken(crypto, settings, r).value, expected, now);
            outcome == Success(Payload(settings, r, ResolvedSubject(r).value)) <==> Acceptable(settings, r, expected, now)
  {
    TokenRoundTrip(crypto, settings, r, expected, now);
  }

  /** A token with a positive lifetime is not yet expired when it is issued. */
  lemma FreshTokenUnexpired(settings: Settings, r: TokenRequest)
    requires r.issuedAt >= 0.0 && Ttl(r) >= 1 && settings.clockSkewSeconds >= 0
    ensures r.issuedAt < EndOfLife(settings, r)
  {
    assert (r.issuedAt + Ttl(r) as real).Floor as real > r.issuedAt + Ttl(r) as real - 1.0;
  }

  /** With the issuer and audience of the deployment, the end of life and the type alone decide these two refusals. */
  lemma TokenRefusals(crypto: Crypto, settings: Settings, r: TokenRequest, expected: TokenUse, now: real)
    requires crypto.json.Invertible()
    requires r.secret.GetOr(settings.secret) == settings.secret
    requires OrText(r.issuer, settings.issuer) == settings.issuer && OrText(r.audience, settings.audience) == settings.audience
    requires CreateToken(crypto, settings, r).Some?
    ensures var outcome := DecodeToken(crypto, settings, CreateToken(crypto, settings, r).value, expected, now);
            && (outcome == Failure(Expired) <==> now >= EndOfLife(settings, r))
            && (outcome == Failure(InvalidType) <==> now < EndOfLife(settings, r) && expected != r.use)
  {
    TokenRoundTrip(crypto, settings, r, expected, now);
  }

  /** A token signed with a secret that gives another signature is refused for its signature. */
  lemma WrongSecretRefused(crypto: Crypto, settings: Settings, r: TokenRequest, expected: TokenUse, now: real)
    requires CreateToken(crypto, settings, r).Some?
    requires var input := SigningInput(crypto, Obj(Payload(settings, r, ResolvedSubject(r).value)));
             crypto.hmac(input, r.secret.GetOr(settings.secret)) != crypto.hmac(input, settings.secret)
    ensures DecodeToken(crypto, settings, CreateToken(crypto, settings, r).value, expected, now) == Failure(InvalidSignature)
  {
    var payload := Obj(Payload(settings, r, ResolvedSubject(r).value));
    var input := SigningInput(crypto, payload);
    var made, wanted := crypto.hmac(input, r.secret.GetOr(settings.secret)), crypto.hmac(input, settings.secret);
    ThreeParts(crypto, payload, made);
    NoDot(made);
    RoundTrip(made);
    RoundTrip(wanted);
  }
}
