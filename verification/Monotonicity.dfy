/** Two runs of the precedence chain compared: when giving a subject more takes access away, and when it cannot. */
module Monotonicity {
  import opened Wrappers
  import opened Policy
  import opened PolicyTheorems

  // ---------------------------------------------------------------------------------------------
  // Giving more
  // ---------------------------------------------------------------------------------------------

  /**
   * The second query gives its subject at least what the first one gives: more roles, effective permissions,
   * accessible collections, explicit allows or connector entries, fewer explicit denies, or a feature switched on.
   */
  ghost predicate GivesMore(lo: Query, hi: Query) {
    && lo.action == hi.action
    && SubjectGetsMore(lo, hi)
    && ResourceGivesMore(lo.resource, hi.resource)
  }

  ghost predicate SubjectGetsMore(lo: Query, hi: Query) {
    var less, more := lo.subject, hi.subject;
    && less.userId == more.userId
    && less.organizationId == more.organizationId
    && less.roles <= more.roles
    && Effective(lo.rolePermissions, less) <= Effective(hi.rolePermissions, more)
    && (forall e <- less.resourceGrants :: e in more.resourceGrants)
    && (forall e <- more.resourceDenies :: e in less.resourceDenies)
    && less.accessibleCollectionIds <= more.accessibleCollectionIds
    && less.connectorAclItemIds <= more.connectorAclItemIds
  }

  ghost predicate ResourceGivesMore(less: Resource, more: Resource) {
    && less.resourceType == more.resourceType
    && less.resourceId == more.resourceId
    && less.organizationId == more.organizationId
    && less.ownerUserId == more.ownerUserId
    && less.collectionIds == more.collectionIds
    && less.connectorId == more.connectorId
    && less.isSystemResource == more.isSystemResource
    && (less.featureEnabled == Some(false) || more.featureEnabled != Some(false))
    && (forall u <- more.explicitDenyUserIds :: u in less.explicitDenyUserIds)
    && (forall e <- more.explicitDenies :: e in less.explicitDenies)
    && (forall u <- less.explicitAllowUserIds :: u in more.explicitAllowUserIds)
    && (forall u <- less.connectorAllowedUserIds :: u in more.connectorAllowedUserIds)
    && (forall c <- less.subjectAccessibleCollectionIds :: c in more.subjectAccessibleCollectionIds)
  }

  /** The collection rule applies, where it did not before, and shuts the subject out. */
  predicate CollectionsClose(q: Query) {
    CollectionsDecide(q) && !InCollections(q.subject, q.resource)
  }

  /** Some connector entry exists, so that the connector rule filters, and none of them is the subject's. */
  predicate ConnectorCloses(q: Query) {
    && q.resource.connectorId.Some?
    && !NoAclFilter(q.subject, q.resource)
    && !OwnAclAllows(q.subject, q.resource)
  }

  lemma MoreOfEach(lo: Query, hi: Query)
    requires GivesMore(lo, hi)
    ensures PassesGates(lo.subject, lo.resource) == PassesGates(hi.subject, hi.resource)
    ensures IsAdmin(lo.subject) ==> IsAdmin(hi.subject)
    ensures ExplicitlyDeniedBy(hi) ==> ExplicitlyDeniedBy(lo)
    ensures ExplicitlyAllowedBy(lo) ==> ExplicitlyAllowedBy(hi)
    ensures ConnectorAclAllowed(lo) ==> ConnectorAclAllowed(hi)
    ensures NoAclFilter(hi.subject, hi.resource) ==> NoAclFilter(lo.subject, lo.resource)
  {
    assert lo.resource.connectorAllowedUserIds != [] ==> lo.resource.connectorAllowedUserIds[0] in hi.resource.connectorAllowedUserIds;
  }

  lemma MoreCollections(lo: Query, hi: Query)
    requires GivesMore(lo, hi)
    ensures CollectionsDecide(lo) ==> CollectionsDecide(hi)
    ensures InCollections(lo.subject, lo.resource) ==> InCollections(hi.subject, hi.resource)
  {
    if InCollections(lo.subject, lo.resource) {
      var c :| c in lo.resource.collectionIds
            && (c in lo.resource.subjectAccessibleCollectionIds || c in lo.subject.accessibleCollectionIds);
      assert c in hi.resource.collectionIds;
    }
  }

  lemma MoreByRole(lo: Query, hi: Query)
    requires GivesMore(lo, hi) && RoleAllowed(lo)
    ensures RoleAllowed(hi) <==> (hi.resource.connectorId.None? || NoAclFilter(hi.subject, hi.resource))
  {
  }

  /** What settles a query that only the connector rule or a later one allows. */
  predicate AllowedLate(q: Query) {
    Decide(q, "").allowed && Decide(q, "").matchedRule in {ConnectorAcl, RolePermission}
  }

  lemma AllowedLateMeans(q: Query)
    ensures AllowedLate(q) <==>
              (&& PassesGates(q.subject, q.resource) && !IsAdmin(q.subject) && !ExplicitlyDeniedBy(q)
               && !ExplicitlyAllowedBy(q) && !CollectionsDecide(q) && (ConnectorAclAllowed(q) || RoleAllowed(q)))
    ensures AllowedLate(q) ==> (Decide(q, "").matchedRule == RolePermission <==> !ConnectorAclAllowed(q))
  {
    MatchedRuleIsFirst(q, "");
    var rule := Decide(q, "").matchedRule;
    BeforeGates(q, rule);
    if RuleIndex(rule) > 4 {
      LateRules(q, rule);
    }
  }

  /** Past the gates and the override, which of the later rules settles a query with an allow. */
  lemma LateRules(q: Query, rule: Rule)
    requires Judge(rule, q) != Continue && RuleIndex(rule) > 4
    requires forall other: Rule | RuleIndex(other) < RuleIndex(rule) :: Judge(other, q) == Continue
    ensures (Judge(rule, q) == Allow && rule in {ConnectorAcl, RolePermission}) <==>
              (&& !ExplicitlyDeniedBy(q) && !ExplicitlyAllowedBy(q) && !CollectionsDecide(q)
               && (ConnectorAclAllowed(q) || RoleAllowed(q)))
    ensures Judge(rule, q) == Allow && rule in {ConnectorAcl, RolePermission} ==>
              (rule == RolePermission <==> !ConnectorAclAllowed(q))
  {
    BeforeMembers(q, rule);
    if RuleIndex(rule) > 8 {
      assert Judge(DocumentOwnerDelete, q) == Continue;
      assert Judge(ExplicitResourceAllow, q) == Continue;
      assert Judge(CollectionAllow, q) == Continue;
    }
    if RuleIndex(rule) > 9 {
      assert Judge(ConnectorAcl, q) == Continue;
    }
  }

  /**
   * Giving more takes access away in exactly two ways, and only from a member who was allowed by the connector
   * rule or the role rule and has no explicit allow: the collection rule comes to apply without reaching the
   * subject, or, under the role rule, a first connector entry appears that is not the subject's.
   */
  lemma GivingMoreRevokesExactly(lo: Query, hi: Query)
    requires GivesMore(lo, hi)
    ensures (IsAllowed(lo) && !IsAllowed(hi)) <==>
              (&& AllowedLate(lo) && !IsAdmin(hi.subject) && !ExplicitlyAllowedBy(hi)
               && (|| CollectionsClose(hi)
                   || (!CollectionsDecide(hi) && Decide(lo, "").matchedRule == RolePermission && ConnectorCloses(hi))))
  {
    AllowedMeansMayAccess(lo);
    AllowedMeansMayAccess(hi);
    AllowedLateMeans(lo);
    MoreOfEach(lo, hi);
    MoreCollections(lo, hi);
    if RoleAllowed(lo) {
      MoreByRole(lo, hi);
    }
  }

  /** It does happen: a member who may view any document of a connector is given an entry for another item. */
  lemma GivingMoreCanRevoke(user: string, org: string, id: string, connector: string, other: string) returns (lo: Query, hi: Query)
    requires other != id
    ensures GivesMore(lo, hi) && IsAllowed(lo) && !IsAllowed(hi)
  {
    var member := Subject(user, Some(org), {}, {DOCUMENTS_VIEW}, false, [], [], {}, {});
    var document := Resource(Document, Some(id), Some(org), None, [], Some(connector), [], [], [], [], false, None, []);
    lo := Query(map[], member, View, document);
    hi := WithAclItems(lo, {other});
    ViewerMayView(lo);
    AllowedMeansMayAccess(lo);
    AllowedMeansMayAccess(hi);
  }

  lemma ViewerMayView(q: Query)
    requires q.action == View && q.resource.resourceType == Document && q.resource.featureEnabled.None?
    requires PassesGates(q.subject, q.resource) && !ExplicitlyDeniedBy(q) && q.resource.collectionIds == []
    requires NoAclFilter(q.subject, q.resource) && q.subject.resolvedPermissions == {DOCUMENTS_VIEW}
    ensures MayAccess(q)
  {
    assert RequiredPermissions(Document, View) == {DOCUMENTS_VIEW};
  }

  /** So nothing is taken away while collections do not newly decide and the connector filter stays on or off. */
  lemma Monotone(lo: Query, hi: Query)
    requires GivesMore(lo, hi)
    requires CHAT_USE_COLLECTIONS in Effective(hi.rolePermissions, hi.subject) ==>
               CHAT_USE_COLLECTIONS in Effective(lo.rolePermissions, lo.subject)
    requires NoAclFilter(lo.subject, lo.resource) ==> NoAclFilter(hi.subject, hi.resource)
    ensures IsAllowed(lo) ==> IsAllowed(hi)
  {
    GivingMoreRevokesExactly(lo, hi);
    AllowedLateMeans(lo);
  }

  // ---------------------------------------------------------------------------------------------
  // One grant at a time
  // ---------------------------------------------------------------------------------------------

  /**
   * Gaining `chat:use_collections` takes access away exactly when the resource sits in collections none of which
   * the subject can reach, and only a rule after the collection rule had let the subject in.
   */
  lemma CollectionPermissionCanRevoke(q: Query)
    requires CHAT_USE_COLLECTIONS !in Effective(q.rolePermissions, q.subject)
    ensures var more := WithPermissions(q, Effective(q.rolePermissions, q.subject) + {CHAT_USE_COLLECTIONS});
            (IsAllowed(q) && !IsAllowed(more)) <==>
              (&& q.resource.collectionIds != [] && q.resource.resourceType in COLLECTION_ELIGIBLE
               && !InCollections(q.subject, q.resource) && AllowedLate(q))
  {
    var more := WithPermissions(q, Effective(q.rolePermissions, q.subject) + {CHAT_USE_COLLECTIONS});
    assert Effective(more.rolePermissions, more.subject) == Effective(q.rolePermissions, q.subject) + {CHAT_USE_COLLECTIONS};
    GivingMoreRevokesExactly(q, more);
    AllowedLateMeans(q);
    assert DOCUMENTS_UPLOAD != CHAT_USE_COLLECTIONS by { assert DOCUMENTS_UPLOAD[0] != CHAT_USE_COLLECTIONS[0]; }
    assert ExplicitlyAllowedBy(more) == ExplicitlyAllowedBy(q);
    assert InCollections(more.subject, more.resource) == InCollections(q.subject, q.resource);
    assert ConnectorCloses(more) == ConnectorCloses(q);
    assert IsAdmin(more.subject) == IsAdmin(q.subject);
  }

  function WithAclItems(q: Query, items: set<string>): Query {
    q.(subject := q.subject.(connectorAclItemIds := items))
  }

  /** A member's first connector item shuts the member out of every other item that the role rule had opened. */
  lemma FirstAclItemRevokes(q: Query, items: set<string>)
    requires q.subject.connectorAclItemIds <= items
    ensures (IsAllowed(q) && !IsAllowed(WithAclItems(q, items))) <==>
              (&& q.subject.connectorAclItemIds == {} && items != {}
               && q.resource.connectorId.Some? && q.resource.connectorAllowedUserIds == []
               && (q.resource.resourceId.None? || q.resource.resourceId.value !in items)
               && Decide(q, "").allowed && Decide(q, "").matchedRule == RolePermission)
  {
    var more := WithAclItems(q, items);
    GivingMoreRevokesExactly(q, more);
    AllowedLateMeans(q);
    SameOutsideConnector(q, more);
  }

  function WithAclUsers(q: Query, users: seq<string>): Query {
    q.(resource := q.resource.(connectorAllowedUserIds := users))
  }

  /** The first user named on a connector shuts out everyone else whom the role rule had let in. */
  lemma FirstAclUserRevokes(q: Query, users: seq<string>)
    requires forall u <- q.resource.connectorAllowedUserIds :: u in users
    ensures (IsAllowed(q) && !IsAllowed(WithAclUsers(q, users))) <==>
              (&& q.resource.connectorAllowedUserIds == [] && users != [] && q.subject.userId !in users
               && q.resource.connectorId.Some? && q.subject.connectorAclItemIds == {}
               && Decide(q, "").allowed && Decide(q, "").matchedRule == RolePermission)
  {
    var more := WithAclUsers(q, users);
    GivingMoreRevokesExactly(q, more);
    AllowedLateMeans(q);
    SameOutsideConnector(q, more);
  }

  lemma SameOutsideConnector(q: Query, more: Query)
    requires more == WithAclItems(q, more.subject.connectorAclItemIds) || more == WithAclUsers(q, more.resource.connectorAllowedUserIds)
    ensures IsAdmin(more.subject) == IsAdmin(q.subject)
    ensures ExplicitlyAllowedBy(more) == ExplicitlyAllowedBy(q)
    ensures CollectionsDecide(more) == CollectionsDecide(q)
  {
  }

  // ---------------------------------------------------------------------------------------------
  // Other permissions
  // ---------------------------------------------------------------------------------------------

  /** With these permissions the collection rule would apply. */
  predicate CollectionsWouldDecide(q: Query, permissions: set<Permission>) {
    q.resource.collectionIds != [] && q.resource.resourceType in COLLECTION_ELIGIBLE && CHAT_USE_COLLECTIONS in permissions
  }

  predicate OwnerDeletes(q: Query, permissions: set<Permission>) {
    && q.action.Delete? && q.resource.resourceType.Document? && q.resource.ownerUserId == Some(q.subject.userId)
    && DOCUMENTS_UPLOAD in permissions
  }

  predicate NamedInAllowList(q: Query) {
    q.subject.userId in q.resource.explicitAllowUserIds || LegacyMatch(q.subject.resourceGrants, q.action, q.resource)
  }

  predicate ConnectorFiltersOut(q: Query) {
    q.resource.connectorId.Some? && !NoAclFilter(q.subject, q.resource)
  }

  predicate HoldsRequired(q: Query, permissions: set<Permission>) {
    var required := RequiredPermissions(q.resource.resourceType, q.action);
    required != {} && required <= permissions
  }

  /** Neither the connector rule nor a later one lets the subject in with these permissions. */
  predicate ClosedAfterCollections(q: Query, permissions: set<Permission>) {
    && !ConnectorAclAllowed(q)
    && (ConnectorFiltersOut(q) || q.resource.featureEnabled == Some(false) || !HoldsRequired(q, permissions))
  }

  /** What the rule that had allowed the query misses under other permissions, when no other rule makes up for it. */
  predicate LosesItsRule(q: Query, rule: Rule, permissions: set<Permission>) {
    !OwnerDeletes(q, permissions) &&
    match rule
    case DocumentOwnerDelete =>
      && !NamedInAllowList(q)
      && (if CollectionsWouldDecide(q, permissions) then !InCollections(q.subject, q.resource)
          else ClosedAfterCollections(q, permissions))
    case CollectionAllow => !CollectionsWouldDecide(q, permissions) && ClosedAfterCollections(q, permissions)
    case ConnectorAcl => CollectionsWouldDecide(q, permissions) && !InCollections(q.subject, q.resource)
    case RolePermission =>
      if CollectionsWouldDecide(q, permissions) then !InCollections(q.subject, q.resource)
      else !HoldsRequired(q, permissions)
    case _ => false
  }

  /**
   * Resolving other permissions than the engine had used so far. Resolving any at all, where none had been
   * resolved, is the case in which the fallback to the roles disappears.
   */
  lemma OtherPermissionsRevokeExactly(q: Query, permissions: set<Permission>)
    requires permissions != {}
    ensures (IsAllowed(q) && !IsAllowed(WithPermissions(q, permissions))) <==>
              Decide(q, "").allowed && LosesItsRule(q, Decide(q, "").matchedRule, permissions)
  {
    DecideAgreesWithIsAllowed(q, "");
    if IsAllowed(q) {
      AllowedMeansMayAccess(WithPermissions(q, permissions));
      OtherPermissionsMean(q, permissions);
      AllowedByRule(q, Decide(q, "").matchedRule);
    }
  }

  lemma OtherPermissionsMean(q: Query, permissions: set<Permission>)
    requires permissions != {}
    ensures MayAccess(WithPermissions(q, permissions)) <==>
              (&& PassesGates(q.subject, q.resource)
               && (|| IsAdmin(q.subject)
                   || (&& !ExplicitlyDeniedBy(q)
                       && (|| NamedInAllowList(q)
                           || OwnerDeletes(q, permissions)
                           || (if CollectionsWouldDecide(q, permissions) then InCollections(q.subject, q.resource)
                               else !ClosedAfterCollections(q, permissions))))))
  {
    var other := WithPermissions(q, permissions);
    assert IsAdmin(other.subject) == IsAdmin(q.subject);
    assert InCollections(other.subject, other.resource) == InCollections(q.subject, q.resource);
  }

  /** Which conditions the matched rule of an allowed query stands for. */
  lemma AllowedByRule(q: Query, rule: Rule)
    requires IsAllowed(q) && rule == Decide(q, "").matchedRule
    ensures PassesGates(q.subject, q.resource) && (rule == OwnerAdminOverride <==> IsAdmin(q.subject))
    ensures rule != OwnerAdminOverride ==> !ExplicitlyDeniedBy(q) && MemberAllowedBy(q, rule)
  {
    MatchedRuleIsFirst(q, "");
    BeforeGates(q, rule);
    if RuleIndex(rule) > 4 {
      AllowedMemberByRule(q, rule);
    }
  }

  predicate MemberAllowedBy(q: Query, rule: Rule) {
    match rule
    case DocumentOwnerDelete => true
    case ExplicitResourceAllow => NamedInAllowList(q)
    case CollectionAllow => !NamedInAllowList(q) && InCollections(q.subject, q.resource)
    case ConnectorAcl => !NamedInAllowList(q) && ConnectorAclAllowed(q)
    case RolePermission => !NamedInAllowList(q) && !ConnectorAclAllowed(q) && RoleAllowed(q)
    case _ => false
  }

  lemma AllowedMemberByRule(q: Query, rule: Rule)
    requires Judge(rule, q) == Allow && RuleIndex(rule) > 4
    requires forall other: Rule | RuleIndex(other) < RuleIndex(rule) :: Judge(other, q) == Continue
    ensures !ExplicitlyDeniedBy(q) && MemberAllowedBy(q, rule)
  {
    if RuleIndex(rule) > 5 {
      assert Judge(ExplicitResourceDeny, q) == Continue;
    }
    if RuleIndex(rule) > 7 {
      assert Judge(ExplicitResourceAllow, q) == Continue;
    }
    if RuleIndex(rule) > 9 {
      assert Judge(ConnectorAcl, q) == Continue;
    }
    if RuleIndex(rule) > 10 {
      assert Judge(FeatureEntitlement, q) == Continue;
    }
  }
}
