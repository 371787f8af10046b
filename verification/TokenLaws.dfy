/** What tokens say and which are accepted, told from request fields, claim names and the text of the token itself. */
module TokenLaws {
  import opened Wrappers
  import opened Text
  import opened Json
  import opened Base64Url
  import opened Tokens

  // ---------------------------------------------------------------------------------------------
  // The claims of a created token
  // ---------------------------------------------------------------------------------------------

  predicate Says(claims: Claims, name: string, value: Json) {
    name in claims && claims[name] == value
  }

  const STANDARD_NAMES: set<string> := {"sub", "iss", "aud", "iat", "exp", "token_use", "jti", "session_id", "role"}

  lemma NamesOfPayload(settings: Settings, r: TokenRequest, subject: string)
    ensures Payload(settings, r, subject).Keys == STANDARD_NAMES
              + (if r.organizationId.Some? then {"org_id"} else {}) + (if r.email.Some? then {"email"} else {})
  {
  }

  lemma OptionalClaims(settings: Settings, r: TokenRequest, subject: string)
    ensures var claims := Payload(settings, r, subject);
            && (r.organizationId.Some? ==> Says(claims, "org_id", Str(r.organizationId.value)))
            && (r.email.Some? ==> Says(claims, "email", Str(r.email.value)))
  {
    assert "org_id"[0] != "email"[0];
  }

  lemma AddedNames(name: string)
    requires name in STANDARD_NAMES
    ensures name != "org_id" && name != "email"
  {
    assert "org_id"[0] == 'o' && "email"[1] == 'm' && name[0] != 'o' && (name[0] == 'e' ==> name[1] != 'm');
  }

  /** The whole seconds of a time that is not before the epoch. */
  ghost predicate WholeSeconds(seconds: int, time: real) {
    time >= 0.0 ==> seconds as real <= time < seconds as real + 1.0
  }

  /** The lifetime asked for: the first of the three that is given and not zero. */
  function Lifetime(r: TokenRequest): int {
    if r.ttlSeconds.Some? && r.ttlSeconds.value != 0 then r.ttlSeconds.value
    else if r.expiresInSeconds.Some? && r.expiresInSeconds.value != 0 then r.expiresInSeconds.value
    else r.defaultTtlSeconds
  }

  function Chosen(given: Option<string>, otherwise: string): string {
    if given == None || given.value == "" then otherwise else given.value
  }

  /** The claims that every token carries, from the fields of its request. */
  ghost predicate SaysStandard(claims: Claims, settings: Settings, r: TokenRequest) {
    && (r.subject.Some? && r.subject.value != "" ==> Says(claims, "sub", Str(r.subject.value)))
    && (r.subject.GetOr("") == "" && r.userId.Some? ==> Says(claims, "sub", Str(r.userId.value)))
    && Says(claims, "iss", Str(Chosen(r.issuer, settings.issuer)))
    && Says(claims, "aud", Str(Chosen(r.audience, settings.audience)))
    && Says(claims, "token_use", Str(if r.use == Access then "access" else "refresh"))
    && Says(claims, "jti", Str(Chosen(r.tokenId, r.freshTokenId)))
    && Says(claims, "session_id", Str(Chosen(r.sessionId, r.freshSessionId)))
    && Says(claims, "role", Str(if r.roles == [] then r.role else r.roles[0]))
    && (exists seconds: int :: Says(claims, "iat", Int(seconds)) && WholeSeconds(seconds, r.issuedAt))
    && (exists seconds: int :: Says(claims, "exp", Int(seconds)) && WholeSeconds(seconds, r.issuedAt + Lifetime(r) as real))
  }

  /** The nine claims before the optional ones are added. */
  lemma StandardClaims(settings: Settings, r: TokenRequest, subject: string, name: string)
    requires name in STANDARD_NAMES
    ensures var plain := Payload(settings, r.(organizationId := None, email := None), subject);
            && name in plain && Says(Payload(settings, r, subject), name, plain[name])
  {
    AddedNames(name);
  }

  lemma PlainClaims(settings: Settings, r: TokenRequest, subject: string)
    requires r.organizationId == None && r.email == None
    ensures var claims := Payload(settings, r, subject);
            && Says(claims, "sub", Str(subject))
            && Says(claims, "iss", Str(Chosen(r.issuer, settings.issuer)))
            && Says(claims, "aud", Str(Chosen(r.audience, settings.audience)))
            && Says(claims, "iat", Int(Truncate(r.issuedAt)))
            && Says(claims, "exp", Int(Truncate(r.issuedAt + Lifetime(r) as real)))
  {
    ClaimNames();
    PayloadCarries(settings, r, subject);
  }

  lemma PlainRest(settings: Settings, r: TokenRequest, subject: string)
    requires r.organizationId == None && r.email == None
    ensures var claims := Payload(settings, r, subject);
            && Says(claims, "token_use", Str(if r.use == Access then "access" else "refresh"))
            && Says(claims, "jti", Str(Chosen(r.tokenId, r.freshTokenId)))
            && Says(claims, "session_id", Str(Chosen(r.sessionId, r.freshSessionId)))
            && Says(claims, "role", Str(if r.roles == [] then r.role else r.roles[0]))
  {
  }

  lemma TruncateWhole(time: real)
    ensures WholeSeconds(Truncate(time), time)
  {
  }

  lemma PayloadSays(settings: Settings, r: TokenRequest)
    requires ResolvedSubject(r).Some?
    ensures SaysStandard(Payload(settings, r, ResolvedSubject(r).value), settings, r)
  {
    var subject := ResolvedSubject(r).value;
    var plain := r.(organizationId := None, email := None);
    PlainClaims(settings, plain, subject);
    PlainRest(settings, plain, subject);
    forall name | name in STANDARD_NAMES
      ensures var base := Payload(settings, plain, subject); name in base && Says(Payload(settings, r, subject), name, base[name])
    {
      StandardClaims(settings, r, subject, name);
    }
    TruncateWhole(r.issuedAt);
    TruncateWhole(r.issuedAt + Lifetime(r) as real);
    CarriedOver(Payload(settings, plain, subject), Payload(settings, r, subject), settings, r, subject);
  }

  /** Claims that agree on the standard names say the same. */
  lemma CarriedOver(base: Claims, claims: Claims, settings: Settings, r: TokenRequest, subject: string)
    requires forall name <- STANDARD_NAMES :: name in base && Says(claims, name, base[name])
    requires ResolvedSubject(r) == Some(subject)
    requires Says(base, "sub", Str(subject))
    requires Says(base, "iss", Str(Chosen(r.issuer, settings.issuer)))
    requires Says(base, "aud", Str(Chosen(r.audience, settings.audience)))
    requires Says(base, "token_use", Str(if r.use == Access then "access" else "refresh"))
    requires Says(base, "jti", Str(Chosen(r.tokenId, r.freshTokenId)))
    requires Says(base, "session_id", Str(Chosen(r.sessionId, r.freshSessionId)))
    requires Says(base, "role", Str(if r.roles == [] then r.role else r.roles[0]))
    requires Says(base, "iat", Int(Truncate(r.issuedAt)))
    requires Says(base, "exp", Int(Truncate(r.issuedAt + Lifetime(r) as real)))
    requires WholeSeconds(Truncate(r.issuedAt), r.issuedAt)
    requires WholeSeconds(Truncate(r.issuedAt + Lifetime(r) as real), r.issuedAt + Lifetime(r) as real)
    ensures SaysStandard(claims, settings, r)
  {
    assert Says(claims, "iat", Int(Truncate(r.issuedAt)));
    assert Says(claims, "exp", Int(Truncate(r.issuedAt + Lifetime(r) as real)));
  }

  /** Whenever a decoder accepts a created token, the claims it returns are those of the request, field by field. */
  lemma AcceptedClaimsSay(crypto: Crypto, settings: Settings, r: TokenRequest, expected: TokenUse, now: real)
    requires crypto.json.Invertible()
    requires r.secret.GetOr(settings.secret) == settings.secret
    requires CreateToken(crypto, settings, r).Some?
    requires DecodeToken(crypto, settings, CreateToken(crypto, settings, r).value, expected, now).Success?
    ensures var claims := DecodeToken(crypto, settings, CreateToken(crypto, settings, r).value, expected, now).value;
            && SaysStandard(claims, settings, r)
            && ("org_id" in claims <==> r.organizationId.Some?)
            && (r.organizationId.Some? ==> claims["org_id"] == Str(r.organizationId.value))
            && ("email" in claims <==> r.email.Some?)
            && (r.email.Some? ==> claims["email"] == Str(r.email.value))
            && claims.Keys <= STANDARD_NAMES + {"org_id", "email"}
  {
    var subject := ResolvedSubject(r).value;
    TokenRoundTrip(crypto, settings, r, expected, now);
    assert DecodeToken(crypto, settings, CreateToken(crypto, settings, r).value, expected, now).value == Payload(settings, r, subject);
    PayloadSays(settings, r);
    OptionalExactly(settings, r, subject);
  }

  lemma OptionalExactly(settings: Settings, r: TokenRequest, subject: string)
    ensures var claims := Payload(settings, r, subject);
            && ("org_id" in claims <==> r.organizationId.Some?)
            && (r.organizationId.Some? ==> claims["org_id"] == Str(r.organizationId.value))
            && ("email" in claims <==> r.email.Some?)
            && (r.email.Some? ==> claims["email"] == Str(r.email.value))
            && claims.Keys <= STANDARD_NAMES + {"org_id", "email"}
  {
    NamesOfPayload(settings, r, subject);
    OptionalClaims(settings, r, subject);
    if "org_id" in STANDARD_NAMES {
      AddedNames("org_id");
    }
    if "email" in STANDARD_NAMES {
      AddedNames("email");
    }
    assert "org_id"[0] != "email"[0];
  }

  /** No token is made without a subject: a given text that is not empty goes before the user id, and must not be blank. */
  lemma CreatedExactly(crypto: Crypto, settings: Settings, r: TokenRequest)
    ensures CreateToken(crypto, settings, r).Some? <==>
              if r.subject.Some? && r.subject.value != "" then !Blank(r.subject.value)
              else r.userId.Some? && !Blank(r.userId.value)
  {
  }

  // ---------------------------------------------------------------------------------------------
  // Accepted texts
  // ---------------------------------------------------------------------------------------------

  ghost predicate TextClaim(claims: Claims, name: string) {
    name in claims && claims[name].Str? && !Blank(claims[name].s)
  }

  /** A number, or a truth value standing for one or zero, that has not passed. */
  ghost predicate NotExpired(claims: Claims, skew: int, now: real) {
    && "exp" in claims
    && (|| (claims["exp"].Int? && now < (claims["exp"].i + skew) as real)
        || (claims["exp"] == Bool(true) && now < (1 + skew) as real)
        || (claims["exp"] == Bool(false) && now < skew as real))
  }

  ghost predicate HasNoUse(claims: Claims) { "token_use" !in claims || claims["token_use"] == Null }

  ghost predicate GoodClaims(claims: Claims, settings: Settings, expected: TokenUse, now: real) {
    && Says(claims, "iss", Str(settings.issuer)) && Says(claims, "aud", Str(settings.audience))
    && TextClaim(claims, "sub") && NotExpired(claims, settings.clockSkewSeconds, now)
    && (|| (expected == Access && HasNoUse(claims))
        || (&& Says(claims, "token_use", Str(if expected == Access then "access" else "refresh"))
            && TextClaim(claims, "session_id") && TextClaim(claims, "jti")))
  }

  lemma ClaimMeans(claims: Claims, name: string)
    ensures forall j: Json | j != Null :: Claim(claims, name) == j <==> Says(claims, name, j)
    ensures Claim(claims, name) == Null <==> name !in claims || claims[name] == Null
    ensures NonBlankText(Claim(claims, name)) <==> TextClaim(claims, name)
  {
  }

  lemma GoodClaimsPass(claims: Claims, settings: Settings, expected: TokenUse, now: real)
    ensures CheckClaims(settings, claims, expected, expected.Access?, now).Success? <==> GoodClaims(claims, settings, expected, now)
    ensures CheckClaims(settings, claims, expected, expected.Access?, now).Success? ==>
              CheckClaims(settings, claims, expected, expected.Access?, now).value == claims
  {
    ClaimMeans(claims, "iss");
    ClaimMeans(claims, "aud");
    ClaimMeans(claims, "sub");
    ClaimMeans(claims, "token_use");
    ClaimMeans(claims, "session_id");
    ClaimMeans(claims, "jti");
    ExpiryMeans(claims, settings.clockSkewSeconds, now);
  }

  lemma ExpiryMeans(claims: Claims, skew: int, now: real)
    ensures AsInt(Claim(claims, "exp")).Some? && now < (AsInt(Claim(claims, "exp")).value + skew) as real <==> NotExpired(claims, skew, now)
  {
  }

  /** A part of a token: unpadded base64url of the text of a JSON object. */
  ghost predicate PartHolds(crypto: Crypto, part: string, fields: Claims) {
    Decode(part).Some? && crypto.json.load(Decode(part).value) == Some(Obj(fields))
  }

  /** The three parts of a text that carries these claims under the configured secret. */
  ghost predicate Signed(crypto: Crypto, settings: Settings, token: string, header: string, payload: string, h: Claims, claims: Claims) {
    && token == header + "." + payload + "." + Encode(crypto.hmac(header + "." + payload, settings.secret))
    && '.' !in header && '.' !in payload
    && PartHolds(crypto, header, h) && PartHolds(crypto, payload, claims)
    && Says(h, "alg", Str("HS256")) && Says(h, "typ", Str("JWT"))
  }

  lemma JoinThree(a: string, b: string, c: string)
    ensures Join([a, b, c], '.') == a + "." + b + "." + c
  {
    JoinTwo(b, c);
    assert [a, b, c][1..] == [b, c];
    assert a + ['.'] + (b + "." + c) == a + "." + b + "." + c;
  }

  lemma JoinTwo(b: string, c: string)
    ensures Join([b, c], '.') == b + "." + c
  {
    assert [b, c][1..] == [c];
    assert Join([c], '.') == c;
  }

  lemma SplitThree(token: string, a: string, b: string, c: string)
    requires '.' !in a && '.' !in b && '.' !in c
    ensures Split(token, '.') == [a, b, c] <==> token == a + "." + b + "." + c
  {
    JoinThree(a, b, c);
    SplitJoin([a, b, c], '.');
    JoinSplit(token, '.');
  }

  /** For every text: it is accepted with these claims exactly when it is signed over them and they are good. */
  lemma AcceptedTexts(crypto: Crypto, settings: Settings, token: string, expected: TokenUse, now: real, claims: Claims)
    ensures DecodeToken(crypto, settings, token, expected, now) == Success(claims) <==>
              && GoodClaims(claims, settings, expected, now)
              && exists header: string, payload: string, h: Claims :: Signed(crypto, settings, token, header, payload, h, claims)
  {
    if DecodeToken(crypto, settings, token, expected, now) == Success(claims) {
      AcceptedIsSigned(crypto, settings, token, expected, now, claims);
    }
    if header, payload, h :| Signed(crypto, settings, token, header, payload, h, claims) && GoodClaims(claims, settings, expected, now) {
      SignedIsAccepted(crypto, settings, token, expected, now, claims, header, payload, h);
    }
  }

  lemma AcceptedIsSigned(crypto: Crypto, settings: Settings, token: string, expected: TokenUse, now: real, claims: Claims)
    requires DecodeToken(crypto, settings, token, expected, now) == Success(claims)
    ensures GoodClaims(claims, settings, expected, now)
    ensures exists header: string, payload: string, h: Claims :: Signed(crypto, settings, token, header, payload, h, claims)
  {
    var parts := Split(token, '.');
    JoinSplit(token, '.');
    assert parts == [parts[0], parts[1], parts[2]];
    assert parts[0] in parts && parts[1] in parts && parts[2] in parts;
    SplitThree(token, parts[0], parts[1], parts[2]);
    var h := LoadPart(crypto, parts[0]).value.fields;
    ClaimMeans(h, "alg");
    ClaimMeans(h, "typ");
    GoodClaimsPass(LoadPart(crypto, parts[1]).value.fields, settings, expected, now);
    assert Signed(crypto, settings, token, parts[0], parts[1], h, claims);
  }

  lemma SignedIsAccepted(crypto: Crypto, settings: Settings, token: string, expected: TokenUse, now: real, claims: Claims,
                         header: string, payload: string, h: Claims)
    requires Signed(crypto, settings, token, header, payload, h, claims) && GoodClaims(claims, settings, expected, now)
    ensures DecodeToken(crypto, settings, token, expected, now) == Success(claims)
  {
    SignatureGood(crypto, settings, token, expected, now, header, payload);
    HeaderGood(settings, h, claims, expected, now);
  }

  lemma SignatureGood(crypto: Crypto, settings: Settings, token: string, expected: TokenUse, now: real, header: string, payload: string)
    requires '.' !in header && '.' !in payload
    requires token == header + "." + payload + "." + Encode(crypto.hmac(header + "." + payload, settings.secret))
    ensures DecodeToken(crypto, settings, token, expected, now)
         == DecodeSigned(settings, LoadPart(crypto, header), LoadPart(crypto, payload), expected, now)
  {
    var raw := crypto.hmac(header + "." + payload, settings.secret);
    NoDot(raw);
    SplitThree(token, header, payload, Encode(raw));
  }

  lemma HeaderGood(settings: Settings, h: Claims, claims: Claims, expected: TokenUse, now: real)
    requires Says(h, "alg", Str("HS256")) && Says(h, "typ", Str("JWT"))
    requires GoodClaims(claims, settings, expected, now)
    ensures DecodeSigned(settings, Some(Obj(h)), Some(Obj(claims)), expected, now) == Success(claims)
  {
    ClaimMeans(h, "alg");
    ClaimMeans(h, "typ");
    GoodClaimsPass(claims, settings, expected, now);
  }
}
