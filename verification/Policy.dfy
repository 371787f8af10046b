/**
 * The central policy engine: an ordered chain of rules, each of which passes, allows or denies.
 *
 * `Authorize` follows the source statement by statement. `Decide` is an independent reading of the
 * same decision: an interpreter that looks for the first rule of PRECEDENCE that fires. The table of
 * role permissions is a parameter, so every result holds for every such table.
 */
module Policy {
  import opened Wrappers

  type Permission = string

  datatype ResourceType =
    | Document | Collection | Connector | ConnectorSourceItem | Citation | GraphEntity
    | GraphEvidence | Evaluation | SavedAnswer | KnowledgeCard | ApiKey | Unknown

  datatype Action = List | View | Search | Chat | Cite | Create | Manage | Sync | Export | Evaluate | Delete

  datatype DenyReason =
    | NoOrganization | OtherTenant | SystemResource | ExplicitlyDenied | CollectionNotAccessible
    | ConnectorAclDenied | InsufficientRole | FeatureNotEntitled | UnknownType

  datatype Rule =
    | NoOrganizationContext | TenantBoundary | SystemDeny | UnknownResourceType | OwnerAdminOverride
    | ExplicitResourceDeny | DocumentOwnerDelete | ExplicitResourceAllow | CollectionAllow
    | ConnectorAcl | FeatureEntitlement | RolePermission | Default

  /** A legacy grant or deny: a tuple of at least four parts, or any other object (which never matches). */
  datatype LegacyEntry =
    | Entry(resourceType: ResourceType, resourceId: Option<string>, action: Action)
    | OtherObject

  datatype Subject = Subject(
    userId: string,
    organizationId: Option<string>,
    roles: set<string>,
    resolvedPermissions: set<Permission>,
    isApiKey: bool,
    resourceGrants: seq<LegacyEntry>,
    resourceDenies: seq<LegacyEntry>,
    accessibleCollectionIds: set<string>,
    connectorAclItemIds: set<string>)

  datatype Resource = Resource(
    resourceType: ResourceType,
    resourceId: Option<string>,
    organizationId: Option<string>,
    ownerUserId: Option<string>,
    collectionIds: seq<string>,
    connectorId: Option<string>,
    explicitDenyUserIds: seq<string>,
    explicitAllowUserIds: seq<string>,
    connectorAllowedUserIds: seq<string>,
    subjectAccessibleCollectionIds: seq<string>,
    isSystemResource: bool,
    featureEnabled: Option<bool>,
    explicitDenies: seq<LegacyEntry>)

  /** One line of the decision trace. Only the last two constructors end an evaluation. */
  datatype TraceEntry =
    | Pass(rule: Rule)
    | PassNoAclFilter(rule: Rule)
    | PassNoMapping(rule: Rule)
    | Missing(rule: Rule, missing: set<Permission>)
    | Allowed(rule: Rule)
    | Denied(rule: Rule, reason: DenyReason)
  {
    predicate Terminal() { Allowed? || Denied? }
  }

  datatype AuthorizationResult = AuthorizationResult(
    allowed: bool,
    denyReason: Option<DenyReason>,
    matchedRule: Rule,
    trace: seq<TraceEntry>,
    requestId: string,
    subjectId: string,
    organizationId: Option<string>,
    resourceType: ResourceType,
    resourceId: Option<string>,
    action: Action)

  const DOCUMENTS_VIEW: Permission := "documents:view"
  const DOCUMENTS_UPLOAD: Permission := "documents:upload"
  const DOCUMENTS_DELETE: Permission := "documents:delete"
  const DOCUMENTS_MANAGE: Permission := "documents:manage"
  const COLLECTIONS_VIEW: Permission := "collections:view"
  const COLLECTIONS_CREATE: Permission := "collections:create"
  const COLLECTIONS_MANAGE: Permission := "collections:manage"
  const COLLECTIONS_DELETE: Permission := "collections:delete"
  const CHAT_USE: Permission := "chat:use"
  const CHAT_USE_COLLECTIONS: Permission := "chat:use_collections"
  const CHAT_MANAGE_SESSIONS: Permission := "chat:manage_sessions"
  const EVALUATIONS_VIEW: Permission := "evaluations:view"
  const EVALUATIONS_CREATE: Permission := "evaluations:create"
  const EVALUATIONS_RUN: Permission := "evaluations:run"
  const EVALUATIONS_MANAGE: Permission := "evaluations:manage"
  const GRAPH_VIEW: Permission := "graph:view"
  const GRAPH_ENTITIES_MANAGE: Permission := "graph:entities:manage"
  const GRAPH_RELATIONS_MANAGE: Permission := "graph:relations:manage"
  const API_KEYS_LIST: Permission := "api_keys:list"
  const API_KEYS_CREATE: Permission := "api_keys:create"
  const API_KEYS_REVOKE: Permission := "api_keys:revoke"

  const ADMIN_ROLES: set<string> := {"owner", "admin"}

  const COLLECTION_ELIGIBLE: set<ResourceType> := {Document, ConnectorSourceItem, Citation, GraphEvidence}

  /** The permissions all of which an action needs; the empty set where the source has no mapping. */
  function RequiredPermissions(kind: ResourceType, action: Action): set<Permission> {
    match kind
    case Document => (
      match action
      case List | View | Search | Export => {DOCUMENTS_VIEW}
      case Chat | Cite => {CHAT_USE}
      case Create => {DOCUMENTS_UPLOAD}
      case Manage => {DOCUMENTS_MANAGE}
      case Delete => {DOCUMENTS_DELETE}
      case Evaluate => {EVALUATIONS_RUN}
      case Sync => {})
    case Collection => (
      match action
      case List | View | Search | Export => {COLLECTIONS_VIEW}
      case Chat => {CHAT_USE_COLLECTIONS}
      case Create => {COLLECTIONS_CREATE}
      case Manage => {COLLECTIONS_MANAGE}
      case Delete => {COLLECTIONS_DELETE}
      case _ => {})
    case Connector => (
      match action
      case List | View => {DOCUMENTS_VIEW}
      case Manage | Sync | Delete => {DOCUMENTS_MANAGE}
      case _ => {})
    case ConnectorSourceItem => if action == View || action == Search then {DOCUMENTS_VIEW} else {}
    case Citation => if action == View || action == Cite || action == Export then {CHAT_USE} else {}
    case GraphEntity => (
      match action
      case View | List | Search => {GRAPH_VIEW}
      case Manage | Delete => {GRAPH_ENTITIES_MANAGE}
      case _ => {})
    case GraphEvidence => (
      match action
      case View | Cite => {GRAPH_VIEW}
      case Manage => {GRAPH_RELATIONS_MANAGE}
      case _ => {})
    case Evaluation => (
      match action
      case View | List | Export => {EVALUATIONS_VIEW}
      case Create => {EVALUATIONS_CREATE}
      case Evaluate => {EVALUATIONS_RUN}
      case Manage | Delete => {EVALUATIONS_MANAGE}
      case _ => {})
    case SavedAnswer => (
      match action
      case View | List => {CHAT_USE}
      case Manage | Delete | Export => {CHAT_MANAGE_SESSIONS}
      case _ => {})
    case KnowledgeCard => (
      match action
      case View | List => {DOCUMENTS_VIEW}
      case Manage | Delete => {DOCUMENTS_MANAGE}
      case _ => {})
    case ApiKey => (
      match action
      case List | View => {API_KEYS_LIST}
      case Create | Manage => {API_KEYS_CREATE}
      case Delete => {API_KEYS_REVOKE}
      case _ => {})
    case Unknown => {}
  }

  // ---------------------------------------------------------------------------------------------
  // The declarative reading: what each rule says, and the first one that fires
  // ---------------------------------------------------------------------------------------------

  const PRECEDENCE: seq<Rule> := [
    NoOrganizationContext, TenantBoundary, SystemDeny, UnknownResourceType, OwnerAdminOverride,
    ExplicitResourceDeny, DocumentOwnerDelete, ExplicitResourceAllow, CollectionAllow, ConnectorAcl,
    FeatureEntitlement, RolePermission, Default]

  /** Where a rule stands in the chain. */
  function RuleIndex(rule: Rule): (k: nat)
    ensures k < 13
  {
    match rule
    case NoOrganizationContext => 0
    case TenantBoundary => 1
    case SystemDeny => 2
    case UnknownResourceType => 3
    case OwnerAdminOverride => 4
    case ExplicitResourceDeny => 5
    case DocumentOwnerDelete => 6
    case ExplicitResourceAllow => 7
    case CollectionAllow => 8
    case ConnectorAcl => 9
    case FeatureEntitlement => 10
    case RolePermission => 11
    case Default => 12
  }

  lemma PrecedencePositions()
    ensures |PRECEDENCE| == 13
    ensures forall k | 0 <= k < 13 :: RuleIndex(PRECEDENCE[k]) == k
    ensures forall rule: Rule :: PRECEDENCE[RuleIndex(rule)] == rule
  {
  }

  /** One question put to the engine, with the role table it is answered against. */
  datatype Query = Query(rolePermissions: map<string, set<Permission>>, subject: Subject, action: Action, resource: Resource)

  datatype Verdict = Continue | Allow | Deny(reason: DenyReason)

  /** Everything the given roles grant; a role without an entry grants nothing. */
  function RoleUnion(rolePermissions: map<string, set<Permission>>, roles: set<string>): set<Permission> {
    set role, p | role in roles && role in rolePermissions && p in rolePermissions[role] :: p
  }

  /** The resolved permissions, or what the roles grant when none were resolved. */
  function Effective(rolePermissions: map<string, set<Permission>>, subject: Subject): set<Permission> {
    if subject.resolvedPermissions != {} then subject.resolvedPermissions
    else RoleUnion(rolePermissions, subject.roles)
  }

  predicate LegacyMatch(entries: seq<LegacyEntry>, action: Action, resource: Resource) {
    Entry(resource.resourceType, resource.resourceId, action) in entries
  }

  predicate InCollections(subject: Subject, resource: Resource) {
    exists c <- resource.collectionIds ::
      c in resource.subjectAccessibleCollectionIds || c in subject.accessibleCollectionIds
  }

  predicate OwnAclAllows(subject: Subject, resource: Resource) {
    || subject.userId in resource.connectorAllowedUserIds
    || (resource.resourceId.Some? && resource.resourceId.value in subject.connectorAclItemIds)
  }

  predicate NoAclFilter(subject: Subject, resource: Resource) {
    resource.connectorAllowedUserIds == [] && subject.connectorAclItemIds == {}
  }

  function Judge(rule: Rule, q: Query): Verdict {
    var subject, resource := q.subject, q.resource;
    match rule
    case NoOrganizationContext =>
      if subject.organizationId.None? then Deny(NoOrganization) else Continue
    case TenantBoundary =>
      if resource.organizationId.Some? && resource.organizationId != subject.organizationId
      then Deny(OtherTenant) else Continue
    case SystemDeny => if resource.isSystemResource then Deny(SystemResource) else Continue
    case UnknownResourceType => if resource.resourceType.Unknown? then Deny(UnknownType) else Continue
    case OwnerAdminOverride => if subject.roles !! ADMIN_ROLES then Continue else Allow
    case ExplicitResourceDeny =>
      if || subject.userId in resource.explicitDenyUserIds
         || LegacyMatch(subject.resourceDenies, q.action, resource)
         || LegacyMatch(resource.explicitDenies, q.action, resource)
      then Deny(ExplicitlyDenied) else Continue
    case DocumentOwnerDelete =>
      if && q.action.Delete? && resource.resourceType.Document?
         && resource.ownerUserId == Some(subject.userId)
         && DOCUMENTS_UPLOAD in Effective(q.rolePermissions, subject)
      then Allow else Continue
    case ExplicitResourceAllow =>
      if subject.userId in resource.explicitAllowUserIds || LegacyMatch(subject.resourceGrants, q.action, resource)
      then Allow else Continue
    case CollectionAllow =>
      if && resource.collectionIds != []
         && resource.resourceType in COLLECTION_ELIGIBLE
         && CHAT_USE_COLLECTIONS in Effective(q.rolePermissions, subject)
      then if InCollections(subject, resource) then Allow else Deny(CollectionNotAccessible)
      else Continue
    case ConnectorAcl =>
      if resource.connectorId.None? then Continue
      else if OwnAclAllows(subject, resource) then Allow
      else if NoAclFilter(subject, resource) then Continue
      else Deny(ConnectorAclDenied)
    case FeatureEntitlement =>
      if resource.featureEnabled == Some(false) then Deny(FeatureNotEntitled) else Continue
    case RolePermission =>
      var required := RequiredPermissions(resource.resourceType, q.action);
      if required == {} then Continue
      else if required <= Effective(q.rolePermissions, subject) then Allow
      else Deny(InsufficientRole)
    case Default => Deny(InsufficientRole)
  }

  /** What a rule that lets the query pass leaves in the trace; the uploader rule leaves nothing. */
  function PassEntries(rule: Rule, q: Query): seq<TraceEntry> {
    match rule
    case DocumentOwnerDelete => []
    case ConnectorAcl =>
      if q.resource.connectorId.Some? then [PassNoAclFilter(ConnectorAcl), Pass(ConnectorAcl)] else [Pass(ConnectorAcl)]
    case RolePermission => [PassNoMapping(RolePermission)]
    case _ => [Pass(rule)]
  }

  /** What the rule that fires leaves in the trace. */
  function StopEntries(rule: Rule, q: Query): seq<TraceEntry>
    requires Judge(rule, q) != Continue
  {
    match Judge(rule, q)
    case Allow => [Allowed(rule)]
    case Deny(reason) =>
      if rule == RolePermission
      then [Missing(rule, RequiredPermissions(q.resource.resourceType, q.action) - Effective(q.rolePermissions, q.subject)),
            Denied(rule, reason)]
      else [Denied(rule, reason)]
  }

  /** The position of the first rule, from position i on, that does not let the query pass. */
  function FirstFiring(q: Query, i: nat): (k: nat)
    requires i < |PRECEDENCE|
    ensures i <= k < |PRECEDENCE|
    ensures Judge(PRECEDENCE[k], q) != Continue
    ensures forall j | i <= j < k :: Judge(PRECEDENCE[j], q) == Continue
    decreases |PRECEDENCE| - i
  {
    if Judge(PRECEDENCE[i], q) != Continue then i else FirstFiring(q, i + 1)
  }

  function PassedTrace(q: Query, n: nat): seq<TraceEntry>
    requires n <= |PRECEDENCE|
  {
    if n == 0 then [] else PassedTrace(q, n - 1) + PassEntries(PRECEDENCE[n - 1], q)
  }

  function Outcome(q: Query, rule: Rule, trace: seq<TraceEntry>, requestId: string): AuthorizationResult {
    var verdict := Judge(rule, q);
    AuthorizationResult(
      verdict.Allow?, if verdict.Deny? then Some(verdict.reason) else None, rule, trace, requestId,
      q.subject.userId, q.subject.organizationId, q.resource.resourceType, q.resource.resourceId, q.action)
  }

  /** The decision: the first rule that fires settles it, and the trace lists what was passed before. */
  function Decide(q: Query, requestId: string): AuthorizationResult {
    var k := FirstFiring(q, 0);
    var rule := PRECEDENCE[k];
    Outcome(q, rule, PassedTrace(q, k) + StopEntries(rule, q), requestId)
  }

  predicate IsAllowed(q: Query) {
    Judge(PRECEDENCE[FirstFiring(q, 0)], q) == Allow
  }

  // ---------------------------------------------------------------------------------------------
  // The engine as the source runs it
  // ---------------------------------------------------------------------------------------------

  method CombineRoles(rolePermissions: map<string, set<Permission>>, roles: set<string>) returns (combined: set<Permission>)
    ensures combined == RoleUnion(rolePermissions, roles)
    ensures forall p :: p in combined <==> exists role <- roles :: role in rolePermissions && p in rolePermissions[role]
  {
    combined := {};
    var remaining := roles;
    while remaining != {}
      invariant remaining <= roles
      invariant combined == RoleUnion(rolePermissions, roles - remaining)
      decreases remaining
    {
      var role :| role in remaining;
      var seen := roles - remaining;
      remaining := remaining - {role};
      assert roles - remaining == seen + {role};
      combined := combined + Lookup(rolePermissions, role, {});
    }
    assert roles - remaining == roles;
  }

  /** The inline fallback: without resolved permissions, combine what the roles grant. */
  method ResolvedOrRoles(rolePermissions: map<string, set<Permission>>, subject: Subject) returns (permissions: set<Permission>)
    ensures permissions == Effective(rolePermissions, subject)
  {
    permissions := subject.resolvedPermissions;
    if permissions == {} {
      permissions := CombineRoles(rolePermissions, subject.roles);
    }
  }

  method LegacyRuleMatches(entries: seq<LegacyEntry>, action: Action, resource: Resource) returns (found: bool)
    ensures found == LegacyMatch(entries, action, resource)
    ensures found <==> exists e <- entries ::
              e.Entry? && e.resourceType == resource.resourceType && e.resourceId == resource.resourceId && e.action == action
  {
    for i := 0 to |entries|
      invariant Entry(resource.resourceType, resource.resourceId, action) !in entries[..i]
    {
      var entry := entries[i];
      if && entry.Entry? && entry.resourceType == resource.resourceType
         && entry.resourceId == resource.resourceId && entry.action == action
      {
        return true;
      }
    }
    return false;
  }

  method CollectionsOverlap(subject: Subject, resource: Resource) returns (overlaps: bool)
    ensures overlaps == InCollections(subject, resource)
    ensures overlaps <==> exists c <- resource.collectionIds ::
              c in resource.subjectAccessibleCollectionIds || c in subject.accessibleCollectionIds
  {
    var accessible := set c | c in resource.subjectAccessibleCollectionIds;
    accessible := accessible + subject.accessibleCollectionIds;
    var own := set c | c in resource.collectionIds;
    overlaps := accessible * own != {};
    if overlaps {
      ghost var c :| c in accessible * own;
      assert c in resource.collectionIds;
    } else {
      forall c | c in resource.collectionIds
        ensures c !in resource.subjectAccessibleCollectionIds && c !in subject.accessibleCollectionIds
      {
        assert c !in accessible * own;
      }
    }
  }

  function Verdicted(q: Query, requestId: string, verdict: Verdict, rule: Rule, trace: seq<TraceEntry>): AuthorizationResult
    requires verdict != Continue
  {
    AuthorizationResult(
      verdict.Allow?, if verdict.Deny? then Some(verdict.reason) else None, rule,
      trace + (if verdict.Allow? then [Allowed(rule)] else [Denied(rule, verdict.reason)]), requestId,
      q.subject.userId, q.subject.organizationId, q.resource.resourceType, q.resource.resourceId, q.action)
  }

  /** The evaluation has passed the first n rules and its trace is up to date. */
  ghost predicate Reached(q: Query, n: nat, trace: seq<TraceEntry>) {
    && n < 13
    && (forall rule: Rule | RuleIndex(rule) < n :: Judge(rule, q) == Continue)
    && trace == PassedTrace(q, n)
  }

  /** Passing rule n extends the trace by that rule's entries. */
  lemma Advance(q: Query, n: nat, rule: Rule, trace: seq<TraceEntry>)
    requires Reached(q, n, trace) && n + 1 < 13 && RuleIndex(rule) == n
    requires Judge(rule, q) == Continue
    ensures Reached(q, n + 1, trace + PassEntries(rule, q))
  {
    PrecedencePositions();
  }

  /** Stopping at rule n is what the interpreter decides. */
  lemma Halt(q: Query, n: nat, rule: Rule, trace: seq<TraceEntry>, requestId: string)
    requires Reached(q, n, trace) && RuleIndex(rule) == n
    requires Judge(rule, q) != Continue
    ensures Decide(q, requestId) == Outcome(q, rule, trace + StopEntries(rule, q), requestId)
  {
    PrecedencePositions();
    var k := FirstFiring(q, 0);
    assert RuleIndex(PRECEDENCE[k]) == k;
    assert PRECEDENCE[RuleIndex(rule)] == rule;
  }

  method Authorize(q: Query, requestId: string)
    returns (r: AuthorizationResult)
    ensures r == Decide(q, requestId)
  {
    var subject, resource := q.subject, q.resource;
    var trace := [];

    if subject.organizationId == None {
      Halt(q, 0, NoOrganizationContext, trace, requestId);
      return Verdicted(q, requestId, Deny(NoOrganization), NoOrganizationContext, trace);
    }
    Advance(q, 0, NoOrganizationContext, trace);
    trace := trace + [Pass(NoOrganizationContext)];

    if resource.organizationId != None && resource.organizationId != subject.organizationId {
      Halt(q, 1, TenantBoundary, trace, requestId);
      return Verdicted(q, requestId, Deny(OtherTenant), TenantBoundary, trace);
    }
    Advance(q, 1, TenantBoundary, trace);
    trace := trace + [Pass(TenantBoundary)];

    r := AuthorizeInTenant(q, requestId, trace);
  }

  /** The part of the chain that concerns what the resource is and who administers it. */
  method AuthorizeInTenant(q: Query, requestId: string, soFar: seq<TraceEntry>)
    returns (r: AuthorizationResult)
    requires Reached(q, 2, soFar)
    ensures r == Decide(q, requestId)
  {
    var subject, resource := q.subject, q.resource;
    var trace := soFar;

    if resource.isSystemResource {
      Halt(q, 2, SystemDeny, trace, requestId);
      return Verdicted(q, requestId, Deny(SystemResource), SystemDeny, trace);
    }
    Advance(q, 2, SystemDeny, trace);
    trace := trace + [Pass(SystemDeny)];

    if resource.resourceType == Unknown {
      Halt(q, 3, UnknownResourceType, trace, requestId);
      return Verdicted(q, requestId, Deny(UnknownType), UnknownResourceType, trace);
    }
    Advance(q, 3, UnknownResourceType, trace);
    trace := trace + [Pass(UnknownResourceType)];

    if subject.roles * ADMIN_ROLES != {} {
      Halt(q, 4, OwnerAdminOverride, trace, requestId);
      return Verdicted(q, requestId, Allow, OwnerAdminOverride, trace);
    }
    assert subject.roles !! ADMIN_ROLES by {
      forall role | role in subject.roles ensures role !in ADMIN_ROLES {
        assert role !in subject.roles * ADMIN_ROLES;
      }
    }
    Advance(q, 4, OwnerAdminOverride, trace);
    trace := trace + [Pass(OwnerAdminOverride)];

    r := AuthorizeMember(q, requestId, trace);
  }

  /** The part of the chain that only subjects without an owner or admin role reach. */
  method AuthorizeMember(q: Query, requestId: string, soFar: seq<TraceEntry>)
    returns (r: AuthorizationResult)
    requires Reached(q, 5, soFar)
    ensures r == Decide(q, requestId)
  {
    var subject, action, resource := q.subject, q.action, q.resource;
    var trace := soFar;

    var subjectDenied := LegacyRuleMatches(subject.resourceDenies, action, resource);
    var resourceDenied := LegacyRuleMatches(resource.explicitDenies, action, resource);
    if subject.userId in resource.explicitDenyUserIds || subjectDenied || resourceDenied {
      Halt(q, 5, ExplicitResourceDeny, trace, requestId);
      return Verdicted(q, requestId, Deny(ExplicitlyDenied), ExplicitResourceDeny, trace);
    }
    Advance(q, 5, ExplicitResourceDeny, trace);
    trace := trace + [Pass(ExplicitResourceDeny)];

    r := AuthorizeUndenied(q, requestId, trace);
  }

  /** Rules 6b and 7, for members whom no explicit entry denies. */
  method AuthorizeUndenied(q: Query, requestId: string, soFar: seq<TraceEntry>)
    returns (r: AuthorizationResult)
    requires Reached(q, 6, soFar)
    ensures r == Decide(q, requestId)
  {
    var subject, action, resource := q.subject, q.action, q.resource;
    var trace := soFar;

    if action == Delete && resource.resourceType == Document && resource.ownerUserId == Some(subject.userId) {
      var uploaderPermissions := ResolvedOrRoles(q.rolePermissions, subject);
      if DOCUMENTS_UPLOAD in uploaderPermissions {
        Halt(q, 6, DocumentOwnerDelete, trace, requestId);
        return Verdicted(q, requestId, Allow, DocumentOwnerDelete, trace);
      }
    }
    Advance(q, 6, DocumentOwnerDelete, trace);
    assert trace + [] == trace;

    var granted := LegacyRuleMatches(subject.resourceGrants, action, resource);
    if subject.userId in resource.explicitAllowUserIds || granted {
      Halt(q, 7, ExplicitResourceAllow, trace, requestId);
      return Verdicted(q, requestId, Allow, ExplicitResourceAllow, trace);
    }
    Advance(q, 7, ExplicitResourceAllow, trace);
    trace := trace + [Pass(ExplicitResourceAllow)];

    var effective := ResolvedOrRoles(q.rolePermissions, subject);
    r := AuthorizeByCollection(q, requestId, trace, effective);
  }

  /** Rule 8, for subjects that no explicit entry settled. */
  method AuthorizeByCollection(q: Query, requestId: string, soFar: seq<TraceEntry>, effective: set<Permission>)
    returns (r: AuthorizationResult)
    requires Reached(q, 8, soFar)
    requires effective == Effective(q.rolePermissions, q.subject)
    ensures r == Decide(q, requestId)
  {
    var subject, action, resource := q.subject, q.action, q.resource;
    var trace := soFar;

    if resource.collectionIds != [] && resource.resourceType in COLLECTION_ELIGIBLE && CHAT_USE_COLLECTIONS in effective {
      var overlaps := CollectionsOverlap(subject, resource);
      if overlaps {
        Halt(q, 8, CollectionAllow, trace, requestId);
        return Verdicted(q, requestId, Allow, CollectionAllow, trace);
      }
      Halt(q, 8, CollectionAllow, trace, requestId);
      return Verdicted(q, requestId, Deny(CollectionNotAccessible), CollectionAllow, trace);
    }
    Advance(q, 8, CollectionAllow, trace);
    trace := trace + [Pass(CollectionAllow)];

    r := AuthorizeByConnectorAcl(q, requestId, trace, effective);
  }

  /** Rule 9. */
  method AuthorizeByConnectorAcl(q: Query, requestId: string, soFar: seq<TraceEntry>, effective: set<Permission>)
    returns (r: AuthorizationResult)
    requires Reached(q, 9, soFar)
    requires effective == Effective(q.rolePermissions, q.subject)
    ensures r == Decide(q, requestId)
  {
    var subject, resource := q.subject, q.resource;
    var trace := soFar;

    if resource.connectorId != None {
      if || subject.userId in resource.connectorAllowedUserIds
         || (resource.resourceId != None && resource.resourceId.value in subject.connectorAclItemIds)
      {
        Halt(q, 9, ConnectorAcl, soFar, requestId);
        return Verdicted(q, requestId, Allow, ConnectorAcl, trace);
      }
      if resource.connectorAllowedUserIds == [] && subject.connectorAclItemIds == {} {
        trace := trace + [PassNoAclFilter(ConnectorAcl)];
      } else {
        Halt(q, 9, ConnectorAcl, soFar, requestId);
        return Verdicted(q, requestId, Deny(ConnectorAclDenied), ConnectorAcl, trace);
      }
    }
    Advance(q, 9, ConnectorAcl, soFar);
    trace := trace + [Pass(ConnectorAcl)];
    assert trace == soFar + PassEntries(ConnectorAcl, q);
    r := AuthorizeByRole(q, requestId, trace, effective);
  }

  /** Rules 10 and 11 and the default. */
  method AuthorizeByRole(q: Query, requestId: string, soFar: seq<TraceEntry>, effective: set<Permission>)
    returns (r: AuthorizationResult)
    requires Reached(q, 10, soFar)
    requires effective == Effective(q.rolePermissions, q.subject)
    ensures r == Decide(q, requestId)
  {
    var action, resource := q.action, q.resource;
    var trace := soFar;

    if resource.featureEnabled == Some(false) {
      Halt(q, 10, FeatureEntitlement, trace, requestId);
      return Verdicted(q, requestId, Deny(FeatureNotEntitled), FeatureEntitlement, trace);
    }
    Advance(q, 10, FeatureEntitlement, trace);
    trace := trace + [Pass(FeatureEntitlement)];

    var required := RequiredPermissions(resource.resourceType, action);
    if required != {} {
      if required <= effective {
        Halt(q, 11, RolePermission, trace, requestId);
        return Verdicted(q, requestId, Allow, RolePermission, trace);
      }
      var before := trace;
      trace := trace + [Missing(RolePermission, required - effective)];
      assert trace + [Denied(RolePermission, InsufficientRole)] == before + StopEntries(RolePermission, q);
      Halt(q, 11, RolePermission, before, requestId);
      return Verdicted(q, requestId, Deny(InsufficientRole), RolePermission, trace);
    }
    Advance(q, 11, RolePermission, trace);
    trace := trace + [PassNoMapping(RolePermission)];
    Halt(q, 12, Default, trace, requestId);
    return Verdicted(q, requestId, Deny(InsufficientRole), Default, trace);
  }
}
