/**
 * The engine's decisions told from the fields of the question alone: which rule settles it and with what reason,
 * and which lines its trace holds. Nothing here mentions how a single rule is evaluated.
 */
module DecisionLaws {
  import opened Wrappers
  import opened Policy
  import opened PolicyTheorems

  // ---------------------------------------------------------------------------------------------
  // Facts about a question
  // ---------------------------------------------------------------------------------------------

  predicate Holds(q: Query, p: Permission) {
    || p in q.subject.resolvedPermissions
    || (q.subject.resolvedPermissions == {}
        && exists role <- q.subject.roles :: role in q.rolePermissions && p in q.rolePermissions[role])
  }

  predicate Administers(q: Query) { "owner" in q.subject.roles || "admin" in q.subject.roles }

  predicate Names(q: Query, e: LegacyEntry) {
    && e.Entry?
    && e.resourceType == q.resource.resourceType && e.resourceId == q.resource.resourceId && e.action == q.action
  }

  predicate ListedToBeDenied(q: Query) {
    || q.subject.userId in q.resource.explicitDenyUserIds
    || (exists e <- q.subject.resourceDenies :: Names(q, e))
    || (exists e <- q.resource.explicitDenies :: Names(q, e))
  }

  predicate ListedToBeAllowed(q: Query) {
    q.subject.userId in q.resource.explicitAllowUserIds || exists e <- q.subject.resourceGrants :: Names(q, e)
  }

  predicate DeletesOwnUpload(q: Query) {
    && q.action == Delete && q.resource.resourceType == Document
    && q.resource.ownerUserId == Some(q.subject.userId)
    && Holds(q, "documents:upload")
  }

  predicate CollectionsApply(q: Query) {
    && q.resource.collectionIds != []
    && (|| q.resource.resourceType == Document || q.resource.resourceType == ConnectorSourceItem
        || q.resource.resourceType == Citation || q.resource.resourceType == GraphEvidence)
    && Holds(q, "chat:use_collections")
  }

  predicate ReachesCollection(q: Query) {
    exists c <- q.resource.collectionIds ::
      c in q.resource.subjectAccessibleCollectionIds || c in q.subject.accessibleCollectionIds
  }

  predicate HasConnectorEntry(q: Query) {
    || q.subject.userId in q.resource.connectorAllowedUserIds
    || (q.resource.resourceId.Some? && q.resource.resourceId.value in q.subject.connectorAclItemIds)
  }

  predicate ConnectorFilters(q: Query) {
    q.resource.connectorAllowedUserIds != [] || q.subject.connectorAclItemIds != {}
  }

  function Needed(q: Query): set<Permission> { RequiredPermissions(q.resource.resourceType, q.action) }

  /** The rule that settles a question, and the reason when it is refused. */
  function Settled(q: Query): (Rule, Option<DenyReason>) {
    var s, r := q.subject, q.resource;
    if s.organizationId == None then (NoOrganizationContext, Some(NoOrganization))
    else if r.organizationId != None && r.organizationId != s.organizationId then (TenantBoundary, Some(OtherTenant))
    else if r.isSystemResource then (SystemDeny, Some(SystemResource))
    else if r.resourceType == Unknown then (UnknownResourceType, Some(UnknownType))
    else if Administers(q) then (OwnerAdminOverride, None)
    else if ListedToBeDenied(q) then (ExplicitResourceDeny, Some(ExplicitlyDenied))
    else if DeletesOwnUpload(q) then (DocumentOwnerDelete, None)
    else if ListedToBeAllowed(q) then (ExplicitResourceAllow, None)
    else if CollectionsApply(q) then (CollectionAllow, if ReachesCollection(q) then None else Some(CollectionNotAccessible))
    else if r.connectorId != None && HasConnectorEntry(q) then (ConnectorAcl, None)
    else if r.connectorId != None && ConnectorFilters(q) then (ConnectorAcl, Some(ConnectorAclDenied))
    else if r.featureEnabled == Some(false) then (FeatureEntitlement, Some(FeatureNotEntitled))
    else if Needed(q) == {} then (Default, Some(InsufficientRole))
    else (RolePermission, if forall p <- Needed(q) :: Holds(q, p) then None else Some(InsufficientRole))
  }

  /** Which permission an action needs, told by permission; the actions left over need none. */
  lemma DocumentPermissions(kind: ResourceType, action: Action)
    ensures (|| (kind == Document && action in {List, View, Search, Export})
             || (kind == Connector && action in {List, View})
             || (kind == ConnectorSourceItem && action in {View, Search})
             || (kind == KnowledgeCard && action in {View, List}))
            ==> RequiredPermissions(kind, action) == {"documents:view"}
    ensures kind == Document && action == Create ==> RequiredPermissions(kind, action) == {"documents:upload"}
    ensures (|| (kind == Document && action == Manage)
             || (kind == Connector && action in {Manage, Sync, Delete})
             || (kind == KnowledgeCard && action in {Manage, Delete}))
            ==> RequiredPermissions(kind, action) == {"documents:manage"}
    ensures kind == Document && action == Delete ==> RequiredPermissions(kind, action) == {"documents:delete"}
  {
  }

  lemma CollectionPermissions(kind: ResourceType, action: Action)
    ensures kind == Collection && action in {List, View, Search, Export} ==> RequiredPermissions(kind, action) == {"collections:view"}
    ensures kind == Collection && action == Chat ==> RequiredPermissions(kind, action) == {"chat:use_collections"}
    ensures kind == Collection && action == Create ==> RequiredPermissions(kind, action) == {"collections:create"}
    ensures kind == Collection && action == Manage ==> RequiredPermissions(kind, action) == {"collections:manage"}
    ensures kind == Collection && action == Delete ==> RequiredPermissions(kind, action) == {"collections:delete"}
  {
  }

  lemma ChatPermissions(kind: ResourceType, action: Action)
    ensures (|| (kind == Document && action in {Chat, Cite})
             || (kind == Citation && action in {View, Cite, Export})
             || (kind == SavedAnswer && action in {View, List}))
            ==> RequiredPermissions(kind, action) == {"chat:use"}
    ensures kind == SavedAnswer && action in {Manage, Delete, Export} ==> RequiredPermissions(kind, action) == {"chat:manage_sessions"}
  {
  }

  lemma EvaluationPermissions(kind: ResourceType, action: Action)
    ensures kind == Evaluation && action in {View, List, Export} ==> RequiredPermissions(kind, action) == {"evaluations:view"}
    ensures kind == Evaluation && action == Create ==> RequiredPermissions(kind, action) == {"evaluations:create"}
    ensures (|| (kind == Document && action == Evaluate)
             || (kind == Evaluation && action == Evaluate))
            ==> RequiredPermissions(kind, action) == {"evaluations:run"}
    ensures kind == Evaluation && action in {Manage, Delete} ==> RequiredPermissions(kind, action) == {"evaluations:manage"}
  {
  }

  lemma GraphPermissions(kind: ResourceType, action: Action)
    ensures (|| (kind == GraphEntity && action in {View, List, Search})
             || (kind == GraphEvidence && action in {View, Cite}))
            ==> RequiredPermissions(kind, action) == {"graph:view"}
    ensures kind == GraphEntity && action in {Manage, Delete} ==> RequiredPermissions(kind, action) == {"graph:entities:manage"}
    ensures kind == GraphEvidence && action == Manage ==> RequiredPermissions(kind, action) == {"graph:relations:manage"}
  {
  }

  lemma ApiKeyPermissions(kind: ResourceType, action: Action)
    ensures kind == ApiKey && action in {List, View} ==> RequiredPermissions(kind, action) == {"api_keys:list"}
    ensures kind == ApiKey && action in {Create, Manage} ==> RequiredPermissions(kind, action) == {"api_keys:create"}
    ensures kind == ApiKey && action == Delete ==> RequiredPermissions(kind, action) == {"api_keys:revoke"}
  {
  }

  lemma UnmappedActions(kind: ResourceType, action: Action)
    ensures RequiredPermissions(kind, action) == {} <==>
              match kind
              case Document => action == Sync
              case Collection => action in {Cite, Sync, Evaluate}
              case Connector => action in {Search, Chat, Cite, Create, Export, Evaluate}
              case ConnectorSourceItem => action in {List, Chat, Cite, Create, Manage, Sync, Export, Evaluate, Delete}
              case Citation => action in {List, Search, Chat, Create, Manage, Sync, Evaluate, Delete}
              case GraphEntity => action in {Chat, Cite, Create, Sync, Export, Evaluate}
              case GraphEvidence => action in {List, Search, Chat, Create, Sync, Export, Evaluate, Delete}
              case Evaluation => action in {Search, Chat, Cite, Sync}
              case SavedAnswer => action in {Search, Chat, Cite, Create, Sync, Evaluate}
              case KnowledgeCard => action in {Search, Chat, Cite, Create, Sync, Export, Evaluate}
              case ApiKey => action in {Search, Chat, Cite, Sync, Export, Evaluate}
              case Unknown => true
  {
  }

  // ---------------------------------------------------------------------------------------------
  // The decision
  // ---------------------------------------------------------------------------------------------

  lemma HoldsMeans(q: Query, p: Permission)
    ensures Holds(q, p) <==> p in Effective(q.rolePermissions, q.subject)
  {
  }

  lemma LegacyMatchMeans(q: Query, entries: seq<LegacyEntry>)
    ensures LegacyMatch(entries, q.action, q.resource) <==> exists e <- entries :: Names(q, e)
  {
    var wanted := Entry(q.resource.resourceType, q.resource.resourceId, q.action);
    assert Names(q, wanted);
    assert forall e <- entries :: Names(q, e) ==> e == wanted;
  }

  /** The first five rules. */
  lemma GateVerdicts(q: Query)
    ensures Judge(NoOrganizationContext, q) == (if q.subject.organizationId == None then Deny(NoOrganization) else Continue)
    ensures Judge(TenantBoundary, q) ==
              (if q.resource.organizationId != None && q.resource.organizationId != q.subject.organizationId
               then Deny(OtherTenant) else Continue)
    ensures Judge(SystemDeny, q) == (if q.resource.isSystemResource then Deny(SystemResource) else Continue)
    ensures Judge(UnknownResourceType, q) == (if q.resource.resourceType == Unknown then Deny(UnknownType) else Continue)
    ensures Judge(OwnerAdminOverride, q) == (if Administers(q) then Allow else Continue)
  {
    assert q.subject.roles !! ADMIN_ROLES <==> "owner" !in q.subject.roles && "admin" !in q.subject.roles;
  }

  lemma ListVerdicts(q: Query)
    ensures Judge(ExplicitResourceDeny, q) == (if ListedToBeDenied(q) then Deny(ExplicitlyDenied) else Continue)
    ensures Judge(DocumentOwnerDelete, q) == (if DeletesOwnUpload(q) then Allow else Continue)
    ensures Judge(ExplicitResourceAllow, q) == (if ListedToBeAllowed(q) then Allow else Continue)
  {
    LegacyMatchMeans(q, q.subject.resourceDenies);
    LegacyMatchMeans(q, q.resource.explicitDenies);
    LegacyMatchMeans(q, q.subject.resourceGrants);
    HoldsMeans(q, "documents:upload");
  }

  lemma CollectionVerdict(q: Query)
    ensures Judge(CollectionAllow, q) ==
              (if CollectionsApply(q) then if ReachesCollection(q) then Allow else Deny(CollectionNotAccessible) else Continue)
  {
    HoldsMeans(q, "chat:use_collections");
  }

  lemma LateVerdicts(q: Query)
    ensures Judge(ConnectorAcl, q) ==
              (if q.resource.connectorId == None then Continue
               else if HasConnectorEntry(q) then Allow
               else if ConnectorFilters(q) then Deny(ConnectorAclDenied) else Continue)
    ensures Judge(FeatureEntitlement, q) == (if q.resource.featureEnabled == Some(false) then Deny(FeatureNotEntitled) else Continue)
    ensures Judge(RolePermission, q) ==
              (if Needed(q) == {} then Continue
               else if forall p <- Needed(q) :: Holds(q, p) then Allow else Deny(InsufficientRole))
    ensures Judge(Default, q) == Deny(InsufficientRole)
  {
    forall p | p in Needed(q) ensures Holds(q, p) <==> p in Effective(q.rolePermissions, q.subject) {
      HoldsMeans(q, p);
    }
  }

  /** What the settling rule and its reason are, for every question. */
  lemma DecidedByFields(q: Query, requestId: string)
    ensures var r := Decide(q, requestId);
            && (r.matchedRule, r.denyReason) == Settled(q)
            && r.allowed == (Settled(q).1 == None)
  {
    MatchedRuleIsFirst(q, requestId);
    SettledFirst(q, Decide(q, requestId).matchedRule);
  }

  lemma SettledFirst(q: Query, rule: Rule)
    requires Judge(rule, q) != Continue
    requires forall other: Rule | RuleIndex(other) < RuleIndex(rule) :: Judge(other, q) == Continue
    ensures Settled(q) == (rule, if Judge(rule, q).Deny? then Some(Judge(rule, q).reason) else None)
  {
    GateVerdicts(q);
    if RuleIndex(rule) > 0 { assert Judge(NoOrganizationContext, q) == Continue; }
    if RuleIndex(rule) > 1 { assert Judge(TenantBoundary, q) == Continue; }
    if RuleIndex(rule) > 2 { assert Judge(SystemDeny, q) == Continue; }
    if RuleIndex(rule) > 3 { assert Judge(UnknownResourceType, q) == Continue; }
    if RuleIndex(rule) > 4 {
      assert Judge(OwnerAdminOverride, q) == Continue;
      MemberSettledFirst(q, rule);
    }
  }

  lemma MemberSettledFirst(q: Query, rule: Rule)
    requires Judge(rule, q) != Continue && RuleIndex(rule) > 4
    requires forall other: Rule | RuleIndex(other) < RuleIndex(rule) :: Judge(other, q) == Continue
    requires q.subject.organizationId != None && !q.resource.isSystemResource && q.resource.resourceType != Unknown
    requires q.resource.organizationId == None || q.resource.organizationId == q.subject.organizationId
    requires !Administers(q)
    ensures Settled(q) == (rule, if Judge(rule, q).Deny? then Some(Judge(rule, q).reason) else None)
  {
    ListVerdicts(q);
    CollectionVerdict(q);
    LateVerdicts(q);
    if RuleIndex(rule) > 5 { assert Judge(ExplicitResourceDeny, q) == Continue; }
    if RuleIndex(rule) > 6 { assert Judge(DocumentOwnerDelete, q) == Continue; }
    if RuleIndex(rule) > 7 { assert Judge(ExplicitResourceAllow, q) == Continue; }
    if RuleIndex(rule) > 8 { assert Judge(CollectionAllow, q) == Continue; }
    if RuleIndex(rule) > 9 { assert Judge(ConnectorAcl, q) == Continue; }
    if RuleIndex(rule) > 10 { assert Judge(FeatureEntitlement, q) == Continue; }
    if RuleIndex(rule) > 11 { assert Judge(RolePermission, q) == Continue; }
  }

  /** A result identifies the question it answers. */
  lemma ResultIdentifies(q: Query, requestId: string)
    ensures var r := Decide(q, requestId);
            && r.requestId == requestId && r.action == q.action
            && r.subjectId == q.subject.userId && r.organizationId == q.subject.organizationId
            && r.resourceType == q.resource.resourceType && r.resourceId == q.resource.resourceId
  {
  }

  // ---------------------------------------------------------------------------------------------
  // The trace
  // ---------------------------------------------------------------------------------------------

  /** Whether a line belongs into the trace of a question settled by this rule. */
  ghost predicate Belongs(q: Query, e: TraceEntry) {
    var (rule, reason) := Settled(q);
    match e
    case Pass(passed) => RuleIndex(passed) < RuleIndex(rule) && passed != DocumentOwnerDelete && passed != RolePermission
    case PassNoAclFilter(passed) => passed == ConnectorAcl && q.resource.connectorId != None && RuleIndex(rule) > RuleIndex(ConnectorAcl)
    case PassNoMapping(passed) => passed == RolePermission && rule == Default
    case Missing(at, missing) =>
      && at == RolePermission && rule == RolePermission && reason != None
      && (forall p :: p in missing <==> p in Needed(q) && !Holds(q, p))
    case Allowed(at) => at == rule && reason == None
    case Denied(at, why) => at == rule && reason == Some(why)
  }

  lemma {:induction false} PassedLines(q: Query, n: nat, e: TraceEntry)
    requires n <= |PRECEDENCE|
    ensures e in PassedTrace(q, n) <==> RuleIndex(e.rule) < n && e in PassEntries(e.rule, q)
  {
    if n == 0 {
    } else {
      PassedLines(q, n - 1, e);
      PrecedencePositions();
      var rule := PRECEDENCE[n - 1];
      assert PRECEDENCE[RuleIndex(e.rule)] == e.rule;
      PassEntriesInPlace(rule, q);
    }
  }

  lemma StopLines(q: Query, rule: Rule, e: TraceEntry)
    requires Judge(rule, q) != Continue && (rule, if Judge(rule, q).Deny? then Some(Judge(rule, q).reason) else None) == Settled(q)
    ensures e in StopEntries(rule, q) <==> (e.Missing? || e.Allowed? || e.Denied?) && Belongs(q, e)
  {
    if rule == RolePermission && Judge(rule, q).Deny? {
      var missing := Needed(q) - Effective(q.rolePermissions, q.subject);
      forall p ensures p in missing <==> p in Needed(q) && !Holds(q, p) {
        HoldsMeans(q, p);
      }
      assert e.Missing? && Belongs(q, e) ==> e.missing == missing;
    }
  }

  lemma PassLines(q: Query, e: TraceEntry)
    requires RuleIndex(e.rule) < RuleIndex(Settled(q).0)
    ensures e in PassEntries(e.rule, q) <==> Belongs(q, e)
  {
  }

  lemma LaterLines(q: Query, e: TraceEntry)
    requires RuleIndex(e.rule) >= RuleIndex(Settled(q).0)
    ensures Belongs(q, e) ==> e.Missing? || e.Allowed? || e.Denied?
  {
  }

  /** The trace holds exactly the lines that belong into it. */
  lemma TraceContents(q: Query, requestId: string, e: TraceEntry)
    ensures e in Decide(q, requestId).trace <==> Belongs(q, e)
  {
    DecidedByFields(q, requestId);
    var k := FirstFiring(q, 0);
    var rule := PRECEDENCE[k];
    PositionOf(k);
    PassedLines(q, k, e);
    StopLines(q, rule, e);
    if RuleIndex(e.rule) < k {
      PassLines(q, e);
    } else {
      LaterLines(q, e);
    }
  }

  /** Where a line stands: by its rule, and the closing line of a rule after the line that explains it. */
  function LineRank(e: TraceEntry): nat {
    2 * RuleIndex(e.rule) + (if e.PassNoAclFilter? || e.PassNoMapping? || e.Missing? then 0 else 1)
  }

  ghost predicate Rising(t: seq<TraceEntry>, lo: nat, hi: nat) {
    && (forall e <- t :: lo <= LineRank(e) < hi)
    && (forall i, j | 0 <= i < j < |t| :: LineRank(t[i]) < LineRank(t[j]))
  }

  lemma RisingConcat(t: seq<TraceEntry>, u: seq<TraceEntry>, lo: nat, mid: nat, hi: nat)
    requires Rising(t, lo, mid) && Rising(u, mid, hi) && lo <= mid <= hi
    ensures Rising(t + u, lo, hi)
  {
    forall i, j | 0 <= i < j < |t + u| ensures LineRank((t + u)[i]) < LineRank((t + u)[j]) {
      if i < |t| <= j {
        assert t[i] in t && u[j - |t|] in u;
      }
    }
  }

  lemma {:induction false} PassedRises(q: Query, n: nat)
    requires n <= |PRECEDENCE|
    ensures Rising(PassedTrace(q, n), 0, 2 * n)
  {
    if n == 0 {
    } else {
      PassedRises(q, n - 1);
      PositionOf(n - 1);
      PassRises(PRECEDENCE[n - 1], q);
      RisingConcat(PassedTrace(q, n - 1), PassEntries(PRECEDENCE[n - 1], q), 0, 2 * n - 2, 2 * n);
    }
  }

  lemma PassRises(rule: Rule, q: Query)
    ensures Rising(PassEntries(rule, q), 2 * RuleIndex(rule), 2 * RuleIndex(rule) + 2)
  {
  }

  lemma StopRises(rule: Rule, q: Query)
    requires Judge(rule, q) != Continue
    ensures Rising(StopEntries(rule, q), 2 * RuleIndex(rule), 2 * RuleIndex(rule) + 2)
  {
  }

  /** It lists them in one order, without repetitions: with their set, this is the whole trace. */
  lemma TraceRises(q: Query, requestId: string)
    ensures var trace := Decide(q, requestId).trace;
            forall i, j | 0 <= i < j < |trace| :: LineRank(trace[i]) < LineRank(trace[j])
  {
    var k := FirstFiring(q, 0);
    PositionOf(k);
    PassedRises(q, k);
    StopRises(PRECEDENCE[k], q);
    RisingConcat(PassedTrace(q, k), StopEntries(PRECEDENCE[k], q), 0, 2 * k, 2 * k + 2);
  }
}
