/**
 * The application settings after loading: cross-field checks and the fields they fill in or rewrite. A refused
 * object is discarded by its creator, so only acceptance and the accepted state are specified.
 */
module AppSettings {
  import opened Wrappers
  import opened Text
  import opened Lists
  import opened SettingLists

  datatype Environment = Development | Test | Staging | Production {
    predicate Deployed() { this == Staging || this == Production }
  }

  datatype Transport = StreamableHttp | Stdio

  datatype ServerAuth = NoAuth | BearerAuth | HeaderAuth

  datatype AuthProvider = AppAuth | Clerk | Supabase | InternalJwt | ApiKeyAuth

  datatype RolloutStage = Off | OnDevelopment | OnStaging | OnProduction | OnAll

  /** A parsed public address: what urlsplit() reports of it, and its text. */
  datatype PublicUrl = PublicUrl(scheme: string, hostname: Option<string>, text: string)

  datatype ExternalServer = ExternalServer(
    enabled: bool, authType: ServerAuth, authToken: Option<string>, headerName: Option<string>,
    headerValue: Option<string>, allowTools: seq<string>, readOnlyTools: seq<string>, sideEffectTools: seq<string>)

  datatype McpSettings = McpSettings(
    enabled: bool, transport: Transport, requireBearerAuth: bool, devUserId: Option<string>,
    devOrganizationId: Option<string>, devRoles: seq<string>, externalConnectors: bool,
    externalServers: seq<ExternalServer>)

  datatype GraphSettings = GraphSettings(
    enabled: bool, uri: Option<string>, username: Option<string>, password: Option<string>)

  datatype RetrievalSettings = RetrievalSettings(
    initialTopK: int, finalTopK: int, mmrCandidates: int, rerankCandidates: int, rerankBatch: int,
    highThreshold: real, mediumThreshold: real, notFoundThreshold: real, weights: (real, real, real, real, real),
    chunkSize: int, chunkOverlap: int, embeddingBatchTokens: int)

  datatype TimeoutSettings = TimeoutSettings(
    embeddingRetryBase: real, embeddingRetryMax: real, llmRetryBase: real, llmRetryMax: real,
    redisConnect: real, redisSocket: real, dependencyConnect: real, dependencyRead: real)

  datatype MalwareSettings = MalwareSettings(
    enabled: bool, required: bool, bypassOnUnavailable: bool, maxBytes: Option<int>, maxUploadMb: int)

  datatype Issuer = Issuer(jwksUrl: Option<string>, jwtIssuer: Option<string>, jwtAudience: Option<string>)

  datatype AuthSettings = AuthSettings(
    provider: AuthProvider, appSecret: string, clerk: Issuer, supabase: Issuer)

  datatype ModelSettings = ModelSettings(
    llm: bool, evaluations: bool, embeddings: bool, llmProvider: string, embeddingProvider: string,
    openaiKey: Option<string>, localBaseUrl: Option<string>, localModel: string)

  datatype SentrySettings = SentrySettings(dsn: Option<string>, testEvent: Option<bool>)

  /** The fields that validation only reads. */
  datatype Fixed = Fixed(
    environment: Environment, apiBaseUrl: PublicUrl, frontendBaseUrl: PublicUrl, mcp: McpSettings,
    graph: GraphSettings, rollout: RolloutStage, retrieval: RetrievalSettings, timeouts: TimeoutSettings,
    malware: MalwareSettings, auth: AuthSettings, models: ModelSettings, sentry: SentrySettings)

  /** The fields that validation may rewrite. */
  datatype Values = Values(
    corsOrigins: seq<string>, agents: Option<bool>, httpHost: string, connectors: bool, relationTypes: seq<string>,
    sameSite: string, cookiePath: string, cookieDomain: Option<string>, cookieSecure: Option<bool>,
    autoProvision: bool, exposeSnapshot: bool)

  const DEFAULT_COOKIE_PATH := "/api/v1/auth"
  const DEV_SECRET := "dev-insecure-change-me"

  // ---------------------------------------------------------------------------------------------
  // Public addresses and external servers
  // ---------------------------------------------------------------------------------------------

  /** s.strip("[]") */
  function StripBrackets(s: string): string {
    if s != "" && s[0] in "[]" then StripBrackets(s[1..])
    else if s != "" && s[|s| - 1] in "[]" then StripBrackets(s[..|s| - 1])
    else s
  }

  predicate IsLoopback(text: CaseMap, host: string) {
    var h := StripBrackets(text.lower(host));
    h in {"localhost", "::1", "0.0.0.0"} || EndsWith(h, ".localhost") || "127." <= h
  }

  predicate IsPublic(text: CaseMap, url: PublicUrl) {
    && url.scheme == "https"
    && (url.hostname.Some? && url.hostname.value != "" ==> !IsLoopback(text, url.hostname.value))
  }

  predicate Given(secret: Option<string>) { secret.Some? && !Blank(secret.value) }

  /** An external server is accepted when its secret is there and its tool policy stays inside its allowlist. */
  method ValidateServer(server: ExternalServer) returns (ok: bool)
    ensures ok <==>
            && (server.authType == BearerAuth ==> Given(server.authToken))
            && (server.authType == HeaderAuth ==> server.headerName.Some? && Given(server.headerValue))
            && (forall name <- server.readOnlyTools :: name !in server.sideEffectTools && name in server.allowTools)
            && (forall name <- server.sideEffectTools :: name in server.allowTools)
  {
    if server.authType == BearerAuth && !Given(server.authToken) {
      return false;
    }
    if server.authType == HeaderAuth && (server.headerName.None? || !Given(server.headerValue)) {
      return false;
    }
    if server.readOnlyTools != [] && server.sideEffectTools != [] {
      var overlap := set name <- server.readOnlyTools | name in server.sideEffectTools;
      if overlap != {} {
        var name :| name in overlap;
        return false;
      }
      assert forall name <- server.readOnlyTools :: name !in overlap;
    }
    if server.readOnlyTools != [] || server.sideEffectTools != [] {
      var outOfScope := (set name <- server.readOnlyTools | name !in server.allowTools)
        + (set name <- server.sideEffectTools | name !in server.allowTools);
      if outOfScope != {} {
        var name :| name in outOfScope;
        return false;
      }
      assert forall name <- server.readOnlyTools :: name !in outOfScope;
      assert forall name <- server.sideEffectTools :: name !in outOfScope;
    }
    return true;
  }

  // ---------------------------------------------------------------------------------------------
  // What an accepted object looks like
  // ---------------------------------------------------------------------------------------------

  function CleanRelationTypes(text: CaseMap, raw: seq<string>): seq<string> {
    Kept(Stripped(raw), text.upper)
  }

  predicate AppDeployed(f: Fixed) { f.environment.Deployed() && f.auth.provider == AppAuth }

  function CookiePath(path: string): string { if Blank(path) then DEFAULT_COOKIE_PATH else Strip(path) }

  function CookieDomain(domain: Option<string>): Option<string> {
    if Given(domain) then Some(Strip(domain.value)) else None
  }

  function CookieSecure(environment: Environment, secure: Option<bool>): Option<bool> {
    Some(secure.GetOr(environment == Production))
  }

  function HttpHost(mcp: McpSettings, host: string): string {
    if mcp.enabled && mcp.transport == StreamableHttp then Strip(host) else host
  }

  function ServicesFilled(text: CaseMap, f: Fixed, v: Values): Values {
    v.(corsOrigins := if v.corsOrigins == [] then [f.frontendBaseUrl.text] else v.corsOrigins,
       agents := Some(v.agents.GetOr(!f.environment.Deployed())),
       httpHost := HttpHost(f.mcp, v.httpHost),
       connectors := v.connectors && f.rollout != Off,
       relationTypes := CleanRelationTypes(text, v.relationTypes))
  }

  function CookieFilled(text: CaseMap, environment: Environment, v: Values): Values {
    v.(sameSite := text.lower(Strip(v.sameSite)),
       cookiePath := CookiePath(v.cookiePath),
       cookieDomain := CookieDomain(v.cookieDomain),
       cookieSecure := CookieSecure(environment, v.cookieSecure))
  }

  function EnvironmentFilled(f: Fixed, v: Values): Values {
    v.(autoProvision := v.autoProvision && !AppDeployed(f),
       exposeSnapshot := v.exposeSnapshot || f.environment == Test)
  }

  /** Every rewritten field, from the values before validation alone. */
  function Normalised(text: CaseMap, f: Fixed, v: Values): Values {
    EnvironmentFilled(f, CookieFilled(text, f.environment, ServicesFilled(text, f, v)))
  }

  lemma SameFields(a: Values, b: Values)
    requires a.corsOrigins == b.corsOrigins && a.agents == b.agents && a.httpHost == b.httpHost
    requires a.connectors == b.connectors && a.relationTypes == b.relationTypes && a.sameSite == b.sameSite
    requires a.cookiePath == b.cookiePath && a.cookieDomain == b.cookieDomain && a.cookieSecure == b.cookieSecure
    requires a.autoProvision == b.autoProvision && a.exposeSnapshot == b.exposeSnapshot
    ensures a == b
  {
  }

  predicate HasDevPrincipal(mcp: McpSettings) {
    mcp.devUserId.Some? && mcp.devOrganizationId.Some? && mcp.devRoles != []
  }

  predicate McpAdmissible(environment: Environment, mcp: McpSettings, httpHost: string) {
    && (mcp.enabled && mcp.transport == Stdio ==> !environment.Deployed() && HasDevPrincipal(mcp))
    && (mcp.enabled && mcp.transport == StreamableHttp ==>
          && httpHost != ""
          && (mcp.requireBearerAuth || (!environment.Deployed() && HasDevPrincipal(mcp))))
    && (mcp.externalConnectors ==> ServersAdmissible(environment, mcp.externalServers))
  }

  predicate ServersAdmissible(environment: Environment, servers: seq<ExternalServer>) {
    && (exists server <- servers :: server.enabled)
    && (environment.Deployed() ==> forall server <- servers :: server.enabled ==> server.authType != NoAuth)
  }

  predicate GraphAdmissible(g: GraphSettings) {
    g.enabled ==>
      && g.uri.GetOr("") != "" && g.username.GetOr("") != ""
      && Given(g.password)
  }

  predicate RetrievalAdmissible(r: RetrievalSettings) {
    && r.finalTopK <= r.initialTopK && r.finalTopK <= r.mmrCandidates
    && r.finalTopK <= r.rerankCandidates && r.rerankBatch <= r.rerankCandidates
    && r.notFoundThreshold <= r.mediumThreshold <= r.highThreshold
    && r.weights.0 + r.weights.1 + r.weights.2 + r.weights.3 + r.weights.4 > 0.0
    && r.chunkOverlap < r.chunkSize <= r.embeddingBatchTokens
  }

  predicate RetriesAdmissible(t: TimeoutSettings) {
    t.embeddingRetryBase <= t.embeddingRetryMax && t.llmRetryBase <= t.llmRetryMax
  }

  predicate TimeoutsAdmissible(t: TimeoutSettings) {
    t.redisConnect <= t.redisSocket && t.dependencyConnect <= t.dependencyRead
  }

  predicate IsSameSite(s: string) { s == "lax" || s == "strict" || s == "none" }

  predicate CookieAdmissible(environment: Environment, sameSite: string, secure: Option<bool>) {
    IsSameSite(sameSite) && (sameSite == "none" || environment == Production ==> secure == Some(true))
  }

  predicate MalwareAdmissible(environment: Environment, m: MalwareSettings) {
    && (m.maxBytes.Some? ==> m.maxBytes.value <= m.maxUploadMb * 1024 * 1024)
    && (m.required ==> m.enabled && !(environment == Production && m.bypassOnUnavailable))
  }

  predicate Complete(issuer: Issuer) {
    issuer.jwksUrl.Some? && issuer.jwtIssuer.Some? && issuer.jwtAudience.Some?
  }

  predicate AuthAdmissible(a: AuthSettings) {
    && (a.provider == AppAuth ==> !Blank(a.appSecret))
    && (a.provider == Clerk ==> Complete(a.clerk))
    && (a.provider == Supabase ==> Complete(a.supabase))
  }

  predicate NeedsOpenAi(m: ModelSettings) {
    || ((m.llm || m.evaluations) && m.llmProvider == "openai")
    || (m.embeddings && m.embeddingProvider == "openai")
  }

  predicate ModelsAdmissible(m: ModelSettings) {
    && (NeedsOpenAi(m) ==> m.openaiKey.Some?)
    && (m.embeddings && m.embeddingProvider == "local" ==> m.localBaseUrl.Some? && !Blank(m.localModel))
  }

  predicate ProductionAdmissible(f: Fixed) {
    && f.sentry.dsn.Some? && f.sentry.testEvent != Some(true)
    && (f.auth.provider == AppAuth ==> f.auth.appSecret != DEV_SECRET)
  }

  predicate UrlsAdmissible(text: CaseMap, f: Fixed) {
    f.environment.Deployed() ==> IsPublic(text, f.apiBaseUrl) && IsPublic(text, f.frontendBaseUrl)
  }

  predicate LimitsAdmissible(f: Fixed) {
    && MalwareAdmissible(f.environment, f.malware)
    && TimeoutsAdmissible(f.timeouts)
    && AuthAdmissible(f.auth)
    && ModelsAdmissible(f.models)
  }

  predicate ServicesAdmissible(text: CaseMap, f: Fixed, httpHost: string, relationTypes: seq<string>) {
    && UrlsAdmissible(text, f)
    && McpAdmissible(f.environment, f.mcp, httpHost)
    && GraphAdmissible(f.graph)
    && relationTypes != []
  }

  /** The checks, all read from the normalised values whatever order the source makes them in. */
  predicate Admissible(text: CaseMap, f: Fixed, v: Values) {
    && ServicesAdmissible(text, f, v.httpHost, v.relationTypes)
    && RetrievalAdmissible(f.retrieval) && RetriesAdmissible(f.timeouts)
    && CookieAdmissible(f.environment, v.sameSite, v.cookieSecure)
    && LimitsAdmissible(f)
    && (f.environment == Production ==> ProductionAdmissible(f))
  }

  // ---------------------------------------------------------------------------------------------
  // The checks that rewrite nothing, one after the other
  // ---------------------------------------------------------------------------------------------

  method CheckGraph(g: GraphSettings) returns (ok: bool)
    ensures ok <==> GraphAdmissible(g)
  {
    if g.enabled {
      if g.uri == None || g.uri.value == "" {
        return false;
      }
      if g.username == None || g.username.value == "" {
        return false;
      }
      if g.password == None || Strip(g.password.value) == "" {
        return false;
      }
    }
    return true;
  }

  method CheckRetrieval(r: RetrievalSettings, t: TimeoutSettings) returns (ok: bool)
    ensures ok <==> RetrievalAdmissible(r) && RetriesAdmissible(t)
  {
    if r.finalTopK > r.initialTopK {
      return false;
    }
    if r.mmrCandidates < r.finalTopK {
      return false;
    }
    if r.rerankCandidates < r.finalTopK {
      return false;
    }
    if r.rerankBatch > r.rerankCandidates {
      return false;
    }
    if r.highThreshold < r.mediumThreshold {
      return false;
    }
    if r.notFoundThreshold > r.mediumThreshold {
      return false;
    }
    var weightSum := r.weights.0 + r.weights.1 + r.weights.2 + r.weights.3 + r.weights.4;
    if weightSum <= 0.0 {
      return false;
    }
    if r.chunkOverlap >= r.chunkSize {
      return false;
    }
    if t.embeddingRetryMax < t.embeddingRetryBase {
      return false;
    }
    if t.llmRetryMax < t.llmRetryBase {
      return false;
    }
    if r.embeddingBatchTokens < r.chunkSize {
      return false;
    }
    return true;
  }

  method CheckLimits(f: Fixed) returns (ok: bool)
    ensures ok <==> LimitsAdmissible(f)
  {
    var m, t := f.malware, f.timeouts;
    if m.maxBytes != None && m.maxBytes.value > m.maxUploadMb * 1024 * 1024 {
      return false;
    }
    if m.required && !m.enabled {
      return false;
    }
    if f.environment == Production && m.required && m.bypassOnUnavailable {
      return false;
    }
    if t.redisSocket < t.redisConnect {
      return false;
    }
    if t.dependencyRead < t.dependencyConnect {
      return false;
    }
    ok := CheckAuth(f.auth);
    if ok {
      ok := CheckModels(f.models);
    }
  }

  method CheckAuth(a: AuthSettings) returns (ok: bool)
    ensures ok <==> AuthAdmissible(a)
  {
    if a.provider == AppAuth && Strip(a.appSecret) == "" {
      return false;
    }
    if a.provider == Clerk && a.clerk.jwksUrl == None {
      return false;
    }
    if a.provider == Clerk && a.clerk.jwtIssuer == None {
      return false;
    }
    if a.provider == Clerk && a.clerk.jwtAudience == None {
      return false;
    }
    if a.provider == Supabase && a.supabase.jwksUrl == None {
      return false;
    }
    if a.provider == Supabase && a.supabase.jwtIssuer == None {
      return false;
    }
    if a.provider == Supabase && a.supabase.jwtAudience == None {
      return false;
    }
    return true;
  }

  method CheckModels(m: ModelSettings) returns (ok: bool)
    ensures ok <==> ModelsAdmissible(m)
  {
    var forLlm := (m.llm || m.evaluations) && m.llmProvider == "openai";
    var forEmbeddings := m.embeddings && m.embeddingProvider == "openai";
    if (forLlm || forEmbeddings) && m.openaiKey == None {
      return false;
    }
    if m.embeddings && m.embeddingProvider == "local" {
      if m.localBaseUrl == None {
        return false;
      }
      if Strip(m.localModel) == "" {
        return false;
      }
    }
    return true;
  }

  // ---------------------------------------------------------------------------------------------
  // Validation in place
  // ---------------------------------------------------------------------------------------------

  class Settings {
    const fixed: Fixed
    var corsOrigins: seq<string>
    var agents: Option<bool>
    var httpHost: string
    var connectors: bool
    var relationTypes: seq<string>
    var sameSite: string
    var cookiePath: string
    var cookieDomain: Option<string>
    var cookieSecure: Option<bool>
    var autoProvision: bool
    var exposeSnapshot: bool

    constructor (fixed: Fixed, v: Values)
      ensures this.fixed == fixed && Current() == v
    {
      this.fixed := fixed;
      corsOrigins, agents, httpHost, connectors := v.corsOrigins, v.agents, v.httpHost, v.connectors;
      relationTypes, sameSite, cookiePath := v.relationTypes, v.sameSite, v.cookiePath;
      cookieDomain, cookieSecure := v.cookieDomain, v.cookieSecure;
      autoProvision, exposeSnapshot := v.autoProvision, v.exposeSnapshot;
    }

    function Current(): Values
      reads this
    {
      Values(corsOrigins, agents, httpHost, connectors, relationTypes, sameSite, cookiePath, cookieDomain,
             cookieSecure, autoProvision, exposeSnapshot)
    }

    /**
     * Accepts exactly the objects whose normalised values are admissible, and leaves those values behind.
     */
    method ValidateConsistency(text: CaseMap) returns (ok: bool)
      modifies this
      ensures ok <==> Admissible(text, fixed, Normalised(text, fixed, old(Current())))
      ensures ok ==> Current() == Normalised(text, fixed, old(Current()))
    {
      ok := CheckServices(text);
      if ok {
        ok := CheckRetrieval(fixed.retrieval, fixed.timeouts);
      }
      if ok {
        ok := CheckCookie(text);
      }
      if ok {
        ok := CheckLimits(fixed);
      }
      if ok {
        ok := CheckEnvironment();
      }
    }

    /** The opening part: addresses, agents, MCP, graph, connectors, relation types. */
    method CheckServices(text: CaseMap) returns (ok: bool)
      modifies this`corsOrigins, this`agents, this`httpHost, this`connectors, this`relationTypes
      ensures ok <==> ServicesAdmissible(text, fixed, HttpHost(fixed.mcp, old(httpHost)),
                                         CleanRelationTypes(text, old(relationTypes)))
      ensures ok ==> Current() == ServicesFilled(text, fixed, old(Current()))
    {
      var urlsOk := CheckAddresses(text);
      if !urlsOk {
        return false;
      }
      var integrationsOk := CheckIntegrations();
      if !integrationsOk {
        return false;
      }
      if fixed.rollout == Off {
        connectors := false;
      }
      relationTypes := CleanRelationTypes(text, relationTypes);
      if relationTypes == [] {
        return false;
      }
      SameFields(Current(), ServicesFilled(text, fixed, old(Current())));
      return true;
    }

    method CheckIntegrations() returns (ok: bool)
      modifies this`httpHost
      ensures httpHost == HttpHost(fixed.mcp, old(httpHost))
      ensures ok <==> McpAdmissible(fixed.environment, fixed.mcp, httpHost) && GraphAdmissible(fixed.graph)
    {
      ok := CheckMcp();
      if ok {
        ok := CheckGraph(fixed.graph);
      }
    }

    method CheckAddresses(text: CaseMap) returns (ok: bool)
      modifies this`corsOrigins, this`agents
      ensures ok <==> UrlsAdmissible(text, fixed)
      ensures ok ==>
        && corsOrigins == (if old(corsOrigins) == [] then [fixed.frontendBaseUrl.text] else old(corsOrigins))
        && agents == Some(old(agents).GetOr(!fixed.environment.Deployed()))
    {
      if corsOrigins == [] {
        corsOrigins := [fixed.frontendBaseUrl.text];
      }
      if fixed.environment.Deployed() && (!IsPublic(text, fixed.apiBaseUrl) || !IsPublic(text, fixed.frontendBaseUrl)) {
        return false;
      }
      if agents.None? {
        agents := Some(fixed.environment == Development || fixed.environment == Test);
      }
      return true;
    }

    /** The part about the two MCP transports and the external servers. */
    method CheckMcp() returns (ok: bool)
      modifies this`httpHost
      ensures httpHost == HttpHost(fixed.mcp, old(httpHost))
      ensures ok <==> McpAdmissible(fixed.environment, fixed.mcp, httpHost)
    {
      var mcp, deployed := fixed.mcp, fixed.environment.Deployed();
      if mcp.enabled && mcp.transport == Stdio {
        if deployed || !HasDevPrincipal(mcp) {
          return false;
        }
      }
      if mcp.enabled && mcp.transport == StreamableHttp {
        httpHost := Strip(httpHost);
        if httpHost == "" || (!mcp.requireBearerAuth && deployed) {
          return false;
        }
        if !mcp.requireBearerAuth && !HasDevPrincipal(mcp) {
          return false;
        }
      }
      ok := true;
      if mcp.externalConnectors {
        ok := CheckExternalServers();
      }
    }

    method CheckExternalServers() returns (ok: bool)
      ensures ok <==> ServersAdmissible(fixed.environment, fixed.mcp.externalServers)
    {
      var servers := fixed.mcp.externalServers;
      var anyEnabled, allAuthenticated := false, true;
      for i := 0 to |servers|
        invariant anyEnabled <==> exists server <- servers[..i] :: server.enabled
        invariant allAuthenticated <==> forall server <- servers[..i] :: server.enabled ==> server.authType != NoAuth
      {
        assert servers[..i + 1] == servers[..i] + [servers[i]];
        if servers[i].enabled {
          anyEnabled := true;
          if servers[i].authType == NoAuth {
            allAuthenticated := false;
          }
        }
      }
      assert servers[..|servers|] == servers;
      return anyEnabled && (!fixed.environment.Deployed() || allAuthenticated);
    }

    /** The part about the session cookie. */
    method CheckCookie(text: CaseMap) returns (ok: bool)
      modifies this`sameSite, this`cookiePath, this`cookieDomain, this`cookieSecure
      ensures ok <==> CookieAdmissible(fixed.environment, text.lower(Strip(old(sameSite))),
                                       CookieSecure(fixed.environment, old(cookieSecure)))
      ensures ok ==> Current() == CookieFilled(text, fixed.environment, old(Current()))
    {
      var normalized := text.lower(Strip(sameSite));
      if !IsSameSite(normalized) {
        return false;
      }
      sameSite := normalized;
      FillCookieTexts();
      if cookieSecure.None? {
        cookieSecure := Some(fixed.environment == Production);
      }
      if sameSite == "none" && !cookieSecure.value {
        return false;
      }
      if fixed.environment == Production && !cookieSecure.value {
        return false;
      }
      SameFields(Current(), CookieFilled(text, fixed.environment, old(Current())));
      return true;
    }

    method FillCookieTexts()
      modifies this`cookiePath, this`cookieDomain
      ensures cookiePath == CookiePath(old(cookiePath))
      ensures cookieDomain == CookieDomain(old(cookieDomain))
    {
      cookiePath := if Strip(cookiePath) != "" then Strip(cookiePath) else DEFAULT_COOKIE_PATH;
      if cookieDomain.Some? {
        var domain := Strip(cookieDomain.value);
        cookieDomain := if domain != "" then Some(domain) else None;
      }
    }

    /** The closing part, one branch per environment. */
    method CheckEnvironment() returns (ok: bool)
      modifies this`autoProvision, this`exposeSnapshot
      ensures ok <==> (fixed.environment == Production ==> ProductionAdmissible(fixed))
      ensures ok ==> Current() == EnvironmentFilled(fixed, old(Current()))
    {
      if fixed.environment == Production {
        if fixed.sentry.dsn.None? || fixed.sentry.testEvent == Some(true) {
          return false;
        }
        if fixed.auth.provider == AppAuth && fixed.auth.appSecret == DEV_SECRET {
          return false;
        }
        if fixed.auth.provider == AppAuth {
          autoProvision := false;
        }
      } else if fixed.environment == Staging {
        if fixed.auth.provider == AppAuth {
          autoProvision := false;
        }
      } else if fixed.environment == Test {
        exposeSnapshot := true;
      }
      return true;
    }
  }

  // ---------------------------------------------------------------------------------------------
  // Validating twice
  // ---------------------------------------------------------------------------------------------

  /** An accepted object, validated again, is accepted and keeps every field. */
  lemma ValidationIsIdempotent(text: CaseMap, f: Fixed, v: Values)
    requires text.Lawful()
    requires Admissible(text, f, Normalised(text, f, v))
    ensures var n := Normalised(text, f, v);
            Normalised(text, f, n) == n && Admissible(text, f, Normalised(text, f, n))
  {
    NormalisedSettles(text, f, v);
  }

  lemma NormalisedSettles(text: CaseMap, f: Fixed, v: Values)
    requires text.Lawful()
    requires IsSameSite(text.lower(Strip(v.sameSite)))
    ensures var n := Normalised(text, f, v); Normalised(text, f, n) == n
  {
    var n := Normalised(text, f, v);
    RelationTypesSettle(text, v.relationTypes);
    SameSiteSettles(text, n.sameSite);
    CookiePathSettles(v.cookiePath, n.cookiePath);
    CookieDomainSettles(v.cookieDomain, n.cookieDomain);
    StripIdempotent(v.httpHost);
    FieldsSettle(text, f, n);
  }

  lemma FieldsSettle(text: CaseMap, f: Fixed, n: Values)
    requires n.corsOrigins != [] && n.agents.Some? && n.cookieSecure.Some?
    requires HttpHost(f.mcp, n.httpHost) == n.httpHost
    requires n.connectors ==> f.rollout != Off
    requires CleanRelationTypes(text, n.relationTypes) == n.relationTypes
    requires text.lower(Strip(n.sameSite)) == n.sameSite
    requires CookiePath(n.cookiePath) == n.cookiePath
    requires CookieDomain(n.cookieDomain) == n.cookieDomain
    requires n.autoProvision ==> !AppDeployed(f)
    requires f.environment == Test ==> n.exposeSnapshot
    ensures Normalised(text, f, n) == n
  {
  }

  lemma SameSiteSettles(text: CaseMap, sameSite: string)
    requires text.Lawful() && IsSameSite(sameSite)
    ensures text.lower(Strip(sameSite)) == sameSite
  {
    assert sameSite in {"lax", "strict", "none"};
    StripKeepsTrimmed(sameSite);
  }

  lemma CookiePathSettles(path: string, settled: string)
    requires settled == CookiePath(path)
    ensures CookiePath(settled) == settled
  {
    StripTrims(path);
    StripKeepsTrimmed(settled);
  }

  lemma CookieDomainSettles(domain: Option<string>, settled: Option<string>)
    requires settled == CookieDomain(domain)
    ensures CookieDomain(settled) == settled
  {
    if settled.Some? {
      StripIdempotent(domain.value);
    }
  }

  lemma RelationTypesSettle(text: CaseMap, raw: seq<string>)
    requires text.Lawful()
    ensures var clean := CleanRelationTypes(text, raw); CleanRelationTypes(text, clean) == clean
  {
    var clean := CleanRelationTypes(text, raw);
    KeptComeFromPieces(Stripped(raw), text.upper);
    StrippedAreTrimmed(raw);
    forall x <- clean ensures x != "" && text.upper(x) == x && Trimmed(x) {
      var p :| p in Stripped(raw) && p != "" && x == text.upper(p);
    }
    assert Stripped(clean) == clean by {
      forall i | 0 <= i < |clean| ensures Stripped(clean)[i] == clean[i] {
        assert clean[i] in clean;
        StripKeepsTrimmed(clean[i]);
      }
    }
    KeptOfCanonical(clean, text.upper);
  }

  /** What the field validator accepted as relation types passes through validation untouched. */
  lemma ValidatedRelationTypesKept(text: CaseMap, value: ListInput, list: seq<string>)
    requires text.Lawful()
    requires Normalized(RelationTypesRule(text), value) == Some(list)
    ensures CleanRelationTypes(text, list) == list
    ensures list == [] <==> value.Absent?
  {
    if value.Absent? {
      assert Stripped(list) == [];
    } else {
      NormalizedShape(RelationTypesRule(text), value, list);
      NormalizeAgain(RelationTypesRule(text), value, list);
      assert Stripped(list) == list by {
        forall i | 0 <= i < |list| ensures Stripped(list)[i] == list[i] {
          assert list[i] in list;
          StripKeepsTrimmed(list[i]);
        }
      }
      KeptOfCanonical(list, text.upper);
    }
  }
}
