/** Which settings validation refuses, and what it leaves behind, said of the fields as they were given. */
module ConsistencyLaws {
  import opened Wrappers
  import opened Text
  import opened TextLaws
  import Lists
  import opened SettingLists
  import opened AppSettings

  // ---------------------------------------------------------------------------------------------
  // Host names
  // ---------------------------------------------------------------------------------------------

  ghost predicate Brackets(s: string) {
    forall c <- s :: c == '[' || c == ']'
  }

  /** The host is the name between brackets of either kind, and the name has none at its ends. */
  ghost predicate NameOf(host: string, name: string) {
    exists before: string, after: string ::
      && host == before + name + after && Brackets(before) && Brackets(after)
      && (name != "" ==> !Brackets([name[0]]) && !Brackets([name[|name| - 1]]))
  }

  ghost predicate PointsHome(name: string) {
    || name == "localhost" || name == "::1" || name == "0.0.0.0"
    || (exists sub: string :: name == sub + ".localhost")
    || (exists rest: string :: name == "127." + rest)
  }

  lemma BracketsMean(c: char)
    ensures c in "[]" <==> c == '[' || c == ']'
  {
  }

  lemma StripBracketsExact(before: string, name: string, after: string)
    requires Brackets(before) && Brackets(after)
    requires name != "" ==> !Brackets([name[0]]) && !Brackets([name[|name| - 1]])
    ensures StripBrackets(before + name + after) == name
  {
    var rest := name + after;
    assert before + name + after == before + rest;
    BracketsBefore(before, rest);
    if name == "" {
      assert rest == after && after + "" == after;
      BracketsBefore(after, "");
    } else {
      BracketsAfter(name, after);
    }
  }

  lemma {:induction false} BracketsBefore(before: string, rest: string)
    requires Brackets(before)
    ensures StripBrackets(before + rest) == StripBrackets(rest)
  {
    var host := before + rest;
    if before == "" {
      assert host == rest;
    } else {
      var shorter := before[1..];
      BracketsMean(before[0]);
      assert host[0] == before[0] && before[0] in before && forall c <- shorter :: c in before;
      assert host[1..] == shorter + rest;
      BracketsBefore(shorter, rest);
    }
  }

  lemma {:induction false} BracketsAfter(name: string, after: string)
    requires Brackets(after)
    requires name != "" && !Brackets([name[0]]) && !Brackets([name[|name| - 1]])
    ensures StripBrackets(name + after) == name
  {
    var host := name + after;
    BracketsMean(name[0]);
    assert host[0] == name[0];
    if after == "" {
      BracketsMean(name[|name| - 1]);
      assert host == name;
    } else {
      var last := |after| - 1;
      var shorter := after[..last];
      BracketsMean(after[last]);
      assert host[|host| - 1] == after[last] && after[last] in after && forall c <- shorter :: c in after;
      assert host[..|host| - 1] == name + shorter;
      BracketsAfter(name, shorter);
    }
  }

  lemma LoopbackExactly(text: CaseMap, host: string, name: string)
    requires NameOf(text.lower(host), name)
    ensures IsLoopback(text, host) <==> PointsHome(name)
  {
    var before: string, after: string :|
      && text.lower(host) == before + name + after && Brackets(before) && Brackets(after)
      && (name != "" ==> !Brackets([name[0]]) && !Brackets([name[|name| - 1]]));
    StripBracketsExact(before, name, after);
    EndsWithMeans(name, ".localhost");
    StartsWithExactly(name, "127.");
  }

  lemma StartsWithExactly(s: string, head: string)
    ensures head <= s <==> exists after: string :: s == head + after
  {
    if head <= s {
      assert s == head + s[|head|..];
    }
  }

  /** Every host has a name. */
  lemma {:induction false} NameExists(host: string) returns (before: string, name: string, after: string)
    ensures host == before + name + after && Brackets(before) && Brackets(after)
    ensures name != "" ==> !Brackets([name[0]]) && !Brackets([name[|name| - 1]])
  {
    if host != "" && Brackets([host[0]]) {
      var head := [host[0]];
      before, name, after := NameExists(host[1..]);
      assert head + (before + name + after) == (head + before) + name + after;
      before := head + before;
    } else if host != "" && Brackets([host[|host| - 1]]) {
      var tail := [host[|host| - 1]];
      before, name, after := NameExists(host[..|host| - 1]);
      assert (before + name + after) + tail == before + name + (after + tail);
      after := after + tail;
    } else {
      before, name, after := "", host, "";
    }
  }

  ghost predicate AddressRefused(text: CaseMap, url: PublicUrl) {
    || url.scheme != "https"
    || (url.hostname.Some? && url.hostname.value != ""
        && exists name: string :: NameOf(text.lower(url.hostname.value), name) && PointsHome(name))
  }

  lemma AddressExactly(text: CaseMap, url: PublicUrl)
    ensures IsPublic(text, url) <==> !AddressRefused(text, url)
  {
    if url.hostname.Some? {
      var host := url.hostname.value;
      var before, name, after := NameExists(text.lower(host));
      assert NameOf(text.lower(host), name);
      forall other: string | NameOf(text.lower(host), other)
        ensures IsLoopback(text, host) <==> PointsHome(other)
      {
        LoopbackExactly(text, host, other);
      }
    }
  }

  // ---------------------------------------------------------------------------------------------
  // What is refused
  // ---------------------------------------------------------------------------------------------

  ghost predicate IsBlank(s: string) { CoreOf(s, "") }

  ghost predicate Missing(secret: Option<string>) { secret == None || IsBlank(secret.value) }

  lemma BlankExactly(s: string)
    ensures Blank(s) <==> IsBlank(s)
  {
    StripIsCore(s, "");
  }

  lemma GivenExactly(secret: Option<string>)
    ensures Given(secret) <==> !Missing(secret)
  {
    if secret.Some? {
      BlankExactly(secret.value);
    }
  }

  ghost predicate Live(e: Environment) { e == Staging || e == Production }

  ghost predicate NoDevPrincipal(mcp: McpSettings) {
    mcp.devUserId == None || mcp.devOrganizationId == None || mcp.devRoles == []
  }

  ghost predicate McpRefused(e: Environment, mcp: McpSettings, httpHost: string) {
    || (mcp.enabled && mcp.transport == Stdio && (Live(e) || NoDevPrincipal(mcp)))
    || (mcp.enabled && mcp.transport == StreamableHttp && IsBlank(httpHost))
    || (mcp.enabled && mcp.transport == StreamableHttp && !mcp.requireBearerAuth && (Live(e) || NoDevPrincipal(mcp)))
    || (mcp.externalConnectors && forall i | 0 <= i < |mcp.externalServers| :: !mcp.externalServers[i].enabled)
    || (mcp.externalConnectors && Live(e) && exists i | 0 <= i < |mcp.externalServers| ::
          mcp.externalServers[i].enabled && mcp.externalServers[i].authType == NoAuth)
  }

  lemma McpExactly(e: Environment, mcp: McpSettings, httpHost: string)
    ensures McpAdmissible(e, mcp, HttpHost(mcp, httpHost)) <==> !McpRefused(e, mcp, httpHost)
  {
    BlankExactly(httpHost);
  }

  ghost predicate GraphRefused(g: GraphSettings) {
    g.enabled && (g.uri in {None, Some("")} || g.username in {None, Some("")} || Missing(g.password))
  }

  lemma GraphExactly(g: GraphSettings)
    ensures GraphAdmissible(g) <==> !GraphRefused(g)
  {
    GivenExactly(g.password);
  }

  ghost predicate RetrievalRefused(r: RetrievalSettings, t: TimeoutSettings) {
    || r.finalTopK > r.initialTopK || r.mmrCandidates < r.finalTopK
    || r.rerankCandidates < r.finalTopK || r.rerankBatch > r.rerankCandidates
    || r.highThreshold < r.mediumThreshold || r.notFoundThreshold > r.mediumThreshold
    || r.weights.0 + r.weights.1 + r.weights.2 + r.weights.3 + r.weights.4 <= 0.0
    || r.chunkOverlap >= r.chunkSize || r.embeddingBatchTokens < r.chunkSize
    || t.embeddingRetryMax < t.embeddingRetryBase || t.llmRetryMax < t.llmRetryBase
  }

  ghost predicate CookieRefused(e: Environment, site: string, secure: Option<bool>) {
    || (site != "lax" && site != "strict" && site != "none")
    || (site == "none" && (secure == Some(false) || (secure == None && e != Production)))
    || (e == Production && secure == Some(false))
  }

  lemma CookieExactly(e: Environment, site: string, secure: Option<bool>)
    ensures CookieAdmissible(e, site, CookieSecure(e, secure)) <==> !CookieRefused(e, site, secure)
  {
    if secure.Some? {
      assert secure == if secure.value then Some(true) else Some(false);
    }
  }

  ghost predicate LimitsRefused(e: Environment, m: MalwareSettings, t: TimeoutSettings) {
    || (m.maxBytes.Some? && m.maxBytes.value > m.maxUploadMb * 1048576)
    || (m.required && !m.enabled)
    || (e == Production && m.required && m.bypassOnUnavailable)
    || t.redisSocket < t.redisConnect || t.dependencyRead < t.dependencyConnect
  }

  ghost predicate AuthRefused(a: AuthSettings) {
    || (a.provider == AppAuth && IsBlank(a.appSecret))
    || (a.provider == Clerk && (a.clerk.jwksUrl == None || a.clerk.jwtIssuer == None || a.clerk.jwtAudience == None))
    || (a.provider == Supabase
        && (a.supabase.jwksUrl == None || a.supabase.jwtIssuer == None || a.supabase.jwtAudience == None))
  }

  lemma AuthExactly(a: AuthSettings)
    ensures AuthAdmissible(a) <==> !AuthRefused(a)
  {
    BlankExactly(a.appSecret);
  }

  ghost predicate ModelsRefused(m: ModelSettings) {
    || ((m.llm || m.evaluations) && m.llmProvider == "openai" && m.openaiKey == None)
    || (m.embeddings && m.embeddingProvider == "openai" && m.openaiKey == None)
    || (m.embeddings && m.embeddingProvider == "local" && (m.localBaseUrl == None || IsBlank(m.localModel)))
  }

  lemma ModelsExactly(m: ModelSettings)
    ensures ModelsAdmissible(m) <==> !ModelsRefused(m)
  {
    BlankExactly(m.localModel);
  }

  ghost predicate ProductionRefused(f: Fixed) {
    || f.sentry.dsn == None || f.sentry.testEvent == Some(true)
    || (f.auth.provider == AppAuth && f.auth.appSecret == "dev-insecure-change-me")
  }

  /** Every reason to refuse; `site` is the same-site text as it was given, stripped and in lower case. */
  ghost predicate Refused(text: CaseMap, f: Fixed, v: Values, site: string) {
    || (Live(f.environment) && (AddressRefused(text, f.apiBaseUrl) || AddressRefused(text, f.frontendBaseUrl)))
    || McpRefused(f.environment, f.mcp, v.httpHost)
    || GraphRefused(f.graph)
    || (forall i | 0 <= i < |v.relationTypes| :: IsBlank(v.relationTypes[i]))
    || RetrievalRefused(f.retrieval, f.timeouts)
    || CookieRefused(f.environment, site, v.cookieSecure)
    || LimitsRefused(f.environment, f.malware, f.timeouts)
    || AuthRefused(f.auth)
    || ModelsRefused(f.models)
    || (f.environment == Production && ProductionRefused(f))
  }

  /** Validation refuses exactly for these reasons, in whatever order it looks for them. */
  lemma RefusedExactly(text: CaseMap, f: Fixed, v: Values, core: string)
    requires CoreOf(v.sameSite, core)
    ensures Admissible(text, f, Normalised(text, f, v)) <==> !Refused(text, f, v, text.lower(core))
  {
    var n := Normalised(text, f, v);
    ServicesExactly(text, f, v);
    StripIsCore(v.sameSite, core);
    CookieExactly(f.environment, text.lower(core), v.cookieSecure);
    assert n.sameSite == text.lower(core) && n.cookieSecure == CookieSecure(f.environment, v.cookieSecure);
    AuthExactly(f.auth);
    ModelsExactly(f.models);
  }

  lemma ServicesExactly(text: CaseMap, f: Fixed, v: Values)
    ensures ServicesAdmissible(text, f, HttpHost(f.mcp, v.httpHost), CleanRelationTypes(text, v.relationTypes)) <==>
              !(|| (Live(f.environment) && (AddressRefused(text, f.apiBaseUrl) || AddressRefused(text, f.frontendBaseUrl)))
                || McpRefused(f.environment, f.mcp, v.httpHost)
                || GraphRefused(f.graph)
                || (forall i | 0 <= i < |v.relationTypes| :: IsBlank(v.relationTypes[i])))
  {
    AddressExactly(text, f.apiBaseUrl);
    AddressExactly(text, f.frontendBaseUrl);
    McpExactly(f.environment, f.mcp, v.httpHost);
    GraphExactly(f.graph);
    NoRelationTypes(text, v.relationTypes);
  }

  lemma {:induction false} NoRelationTypes(text: CaseMap, raw: seq<string>)
    ensures CleanRelationTypes(text, raw) == [] <==> forall i | 0 <= i < |raw| :: IsBlank(raw[i])
  {
    if raw == [] {
    } else {
      var last := |raw| - 1;
      NoRelationTypes(text, raw[..last]);
      assert Stripped(raw)[..last] == Stripped(raw[..last]);
      BlankExactly(raw[last]);
      assert forall i | 0 <= i < last :: raw[..last][i] == raw[i];
    }
  }

  // ---------------------------------------------------------------------------------------------
  // What is left behind
  // ---------------------------------------------------------------------------------------------

  /** The relation types kept: one for each that is not blank, in order, without its white space, in upper case. */
  lemma RelationTypesByItem(text: CaseMap, raw: seq<string>, more: seq<string>, item: string, core: string)
    requires CoreOf(item, core)
    ensures CleanRelationTypes(text, [item]) == if core == "" then [] else [text.upper(core)]
    ensures CleanRelationTypes(text, raw + more) == CleanRelationTypes(text, raw) + CleanRelationTypes(text, more)
  {
    OneRelationType(text, item, core);
    assert Stripped(raw + more) == Stripped(raw) + Stripped(more);
    KeptConcat(Stripped(raw), Stripped(more), text.upper);
  }

  lemma {:induction false} KeptConcat(a: seq<string>, b: seq<string>, canon: string -> string)
    ensures Kept(a + b, canon) == Kept(a, canon) + Kept(b, canon)
  {
    if b == [] {
      assert a + b == a;
    } else {
      var last, all := |b| - 1, a + b;
      var init := b[..last];
      KeptConcat(a, init, canon);
      assert all[..|all| - 1] == a + init;
      assert all[|all| - 1] == b[last];
      if b[last] != "" {
        Lists.Rebracket(Kept(a, canon), Kept(init, canon), [canon(b[last])]);
      }
    }
  }

  lemma OneRelationType(text: CaseMap, item: string, core: string)
    requires CoreOf(item, core)
    ensures CleanRelationTypes(text, [item]) == if core == "" then [] else [text.upper(core)]
  {
    StripIsCore(item, core);
    assert Stripped([item]) == [core];
    assert [core][..0] == [];
    assert Kept([], text.upper) == [];
  }

  /** Every field validation may rewrite, by its own rule. */
  lemma LeftByField(text: CaseMap, f: Fixed, v: Values, site: string, path: string, domain: string, host: string)
    requires CoreOf(v.sameSite, site) && CoreOf(v.cookiePath, path) && CoreOf(v.httpHost, host)
    requires CoreOf(v.cookieDomain.GetOr(""), domain)
    ensures var n := Normalised(text, f, v);
            && n.corsOrigins == (if v.corsOrigins == [] then [f.frontendBaseUrl.text] else v.corsOrigins)
            && n.agents == Some(if v.agents.Some? then v.agents.value else f.environment == Development || f.environment == Test)
            && n.httpHost == (if f.mcp.enabled && f.mcp.transport == StreamableHttp then host else v.httpHost)
            && n.connectors == (v.connectors && f.rollout != Off)
            && n.sameSite == text.lower(site)
            && n.cookiePath == (if path == "" then "/api/v1/auth" else path)
            && n.cookieDomain == (if domain == "" then None else Some(domain))
            && n.cookieSecure == Some(if v.cookieSecure.Some? then v.cookieSecure.value else f.environment == Production)
            && n.autoProvision == (v.autoProvision && !(Live(f.environment) && f.auth.provider == AppAuth))
            && n.exposeSnapshot == (v.exposeSnapshot || f.environment == Test)
            && n.relationTypes == CleanRelationTypes(text, v.relationTypes)
  {
    StripIsCore(v.sameSite, site);
    StripIsCore(v.cookiePath, path);
    StripIsCore(v.httpHost, host);
    StripIsCore(v.cookieDomain.GetOr(""), domain);
  }
}
