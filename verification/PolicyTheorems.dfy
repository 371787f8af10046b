/** What the precedence chain guarantees for every subject, action, resource and role table. */
module PolicyTheorems {
  import opened Wrappers
  import opened Policy

  // ---------------------------------------------------------------------------------------------
  // The decision as one formula, and the shape of its trace
  // ---------------------------------------------------------------------------------------------

  /** The four gates that bind every role, owners and admins included. */
  predicate PassesGates(subject: Subject, resource: Resource) {
    && subject.organizationId.Some?
    && (resource.organizationId.None? || resource.organizationId == subject.organizationId)
    && !resource.isSystemResource
    && !resource.resourceType.Unknown?
  }

  predicate IsAdmin(subject: Subject) {
    exists role <- subject.roles :: role in ADMIN_ROLES
  }

  predicate ExplicitlyDeniedBy(q: Query) {
    || q.subject.userId in q.resource.explicitDenyUserIds
    || LegacyMatch(q.subject.resourceDenies, q.action, q.resource)
    || LegacyMatch(q.resource.explicitDenies, q.action, q.resource)
  }

  predicate ExplicitlyAllowedBy(q: Query) {
    || q.subject.userId in q.resource.explicitAllowUserIds
    || LegacyMatch(q.subject.resourceGrants, q.action, q.resource)
    || (&& q.action.Delete? && q.resource.resourceType.Document? && q.resource.ownerUserId == Some(q.subject.userId)
        && DOCUMENTS_UPLOAD in Effective(q.rolePermissions, q.subject))
  }

  /** The resource sits in collections and the subject is one of those that collections decide for. */
  predicate CollectionsDecide(q: Query) {
    && q.resource.collectionIds != []
    && q.resource.resourceType in COLLECTION_ELIGIBLE
    && CHAT_USE_COLLECTIONS in Effective(q.rolePermissions, q.subject)
  }

  predicate ConnectorAclAllowed(q: Query) {
    q.resource.connectorId.Some? && OwnAclAllows(q.subject, q.resource)
  }

  predicate RoleAllowed(q: Query) {
    && (q.resource.connectorId.None? || NoAclFilter(q.subject, q.resource))
    && q.resource.featureEnabled != Some(false)
    && RequiredPermissions(q.resource.resourceType, q.action) != {}
    && RequiredPermissions(q.resource.resourceType, q.action) <= Effective(q.rolePermissions, q.subject)
  }

  /** Who gets in, read off the documentation of the chain rather than off its order. */
  predicate MayAccess(q: Query) {
    && PassesGates(q.subject, q.resource)
    && (|| IsAdmin(q.subject)
        || (&& !ExplicitlyDeniedBy(q)
            && (|| ExplicitlyAllowedBy(q)
                || (CollectionsDecide(q) && InCollections(q.subject, q.resource))
                || (!CollectionsDecide(q) && (ConnectorAclAllowed(q) || RoleAllowed(q))))))
  }

  /** The rule that settles the query lets nothing through before it; every earlier rule passes. */
  lemma MatchedRuleIsFirst(q: Query, requestId: string)
    ensures var rule := Decide(q, requestId).matchedRule;
            && Judge(rule, q) != Continue
            && (forall other: Rule | RuleIndex(other) < RuleIndex(rule) :: Judge(other, q) == Continue)
            && (Decide(q, requestId).allowed <==> Judge(rule, q) == Allow)
            && (Decide(q, requestId).denyReason == (if Judge(rule, q).Deny? then Some(Judge(rule, q).reason) else None))
  {
    PrecedencePositions();
    var k := FirstFiring(q, 0);
    forall other: Rule | RuleIndex(other) < k ensures Judge(other, q) == Continue {
      assert PRECEDENCE[RuleIndex(other)] == other;
    }
  }

  lemma DecideAgreesWithIsAllowed(q: Query, requestId: string)
    ensures Decide(q, requestId).allowed == IsAllowed(q)
  {
  }

  lemma AllowedMeansMayAccess(q: Query)
    ensures IsAllowed(q) <==> MayAccess(q)
  {
    MatchedRuleIsFirst(q, "");
    assert IsAdmin(q.subject) <==> !(q.subject.roles !! ADMIN_ROLES);
    var rule := Decide(q, "").matchedRule;
    assert forall other: Rule | RuleIndex(other) < RuleIndex(rule) :: Judge(other, q) == Continue;
    BeforeGates(q, rule);
    if RuleIndex(rule) > 4 {
      BeforeMembers(q, rule);
    }
  }

  /** Reaching rule 5 or later means the gates were passed. */
  lemma BeforeGates(q: Query, rule: Rule)
    requires Judge(rule, q) != Continue
    requires forall other: Rule | RuleIndex(other) < RuleIndex(rule) :: Judge(other, q) == Continue
    ensures RuleIndex(rule) >= 4 <==> PassesGates(q.subject, q.resource)
    ensures RuleIndex(rule) < 4 ==> Judge(rule, q).Deny?
    ensures RuleIndex(rule) == 4 ==> Judge(rule, q).Allow? && IsAdmin(q.subject)
    ensures RuleIndex(rule) > 4 ==> !IsAdmin(q.subject)
  {
    assert IsAdmin(q.subject) <==> !(q.subject.roles !! ADMIN_ROLES);
    if RuleIndex(rule) >= 4 {
      assert Judge(NoOrganizationContext, q) == Continue;
      assert Judge(TenantBoundary, q) == Continue;
      assert Judge(SystemDeny, q) == Continue;
      assert Judge(UnknownResourceType, q) == Continue;
    }
    if RuleIndex(rule) > 4 {
      assert Judge(OwnerAdminOverride, q) == Continue;
    }
  }

  lemma BeforeMembers(q: Query, rule: Rule)
    requires Judge(rule, q) != Continue && RuleIndex(rule) > 4
    requires forall other: Rule | RuleIndex(other) < RuleIndex(rule) :: Judge(other, q) == Continue
    ensures Judge(rule, q).Allow? <==>
              && !ExplicitlyDeniedBy(q)
              && (|| ExplicitlyAllowedBy(q)
                  || (CollectionsDecide(q) && InCollections(q.subject, q.resource))
                  || (!CollectionsDecide(q) && (ConnectorAclAllowed(q) || RoleAllowed(q))))
  {
    if RuleIndex(rule) > 5 { assert Judge(ExplicitResourceDeny, q) == Continue; }
    if RuleIndex(rule) > 6 { assert Judge(DocumentOwnerDelete, q) == Continue; }
    if RuleIndex(rule) > 7 { assert Judge(ExplicitResourceAllow, q) == Continue; }
    if RuleIndex(rule) > 8 { assert Judge(CollectionAllow, q) == Continue; }
    if RuleIndex(rule) > 9 { assert Judge(ConnectorAcl, q) == Continue; }
    if RuleIndex(rule) > 10 { assert Judge(FeatureEntitlement, q) == Continue; }
    if RuleIndex(rule) > 11 { assert Judge(RolePermission, q) == Continue; }
  }

  /** Rules appear in chain order, none of them before position lo or after position hi. */
  ghost predicate ChainOrder(t: seq<TraceEntry>, lo: nat, hi: nat) {
    && (forall e <- t :: lo <= RuleIndex(e.rule) <= hi)
    && (forall i, j | 0 <= i < j < |t| :: RuleIndex(t[i].rule) <= RuleIndex(t[j].rule))
  }

  ghost predicate NoTerminal(t: seq<TraceEntry>) {
    forall e <- t :: !e.Terminal()
  }

  lemma ChainOrderConcat(t: seq<TraceEntry>, u: seq<TraceEntry>, lo: nat, mid: nat, hi: nat)
    requires ChainOrder(t, lo, mid) && ChainOrder(u, mid, hi) && lo <= mid <= hi
    ensures ChainOrder(t + u, lo, hi)
  {
    forall i, j | 0 <= i < j < |t + u| ensures RuleIndex((t + u)[i].rule) <= RuleIndex((t + u)[j].rule) {
      if i < |t| <= j {
        assert t[i] in t && u[j - |t|] in u;
      }
    }
  }

  lemma {:induction false} PassedTraceInOrder(q: Query, n: nat)
    requires n < |PRECEDENCE|
    ensures ChainOrder(PassedTrace(q, n), 0, n) && NoTerminal(PassedTrace(q, n))
  {
    if n == 0 {
    } else {
      PassedTraceInOrder(q, n - 1);
      var rule := PRECEDENCE[n - 1];
      PositionOf(n - 1);
      PassEntriesInPlace(rule, q);
      ChainOrderConcat(PassedTrace(q, n - 1), PassEntries(rule, q), 0, n - 1, n);
    }
  }

  lemma PositionOf(k: nat)
    requires k < |PRECEDENCE|
    ensures RuleIndex(PRECEDENCE[k]) == k
  {
  }

  lemma PassEntriesInPlace(rule: Rule, q: Query)
    ensures ChainOrder(PassEntries(rule, q), RuleIndex(rule), RuleIndex(rule) + 1) && NoTerminal(PassEntries(rule, q))
  {
  }

  lemma StopEntriesEndOnce(rule: Rule, q: Query)
    requires Judge(rule, q) != Continue
    ensures var last := StopEntries(rule, q);
            && |last| > 0
            && last[|last| - 1] == (if Judge(rule, q).Allow? then Allowed(rule) else Denied(rule, Judge(rule, q).reason))
            && NoTerminal(last[..|last| - 1])
            && ChainOrder(last, RuleIndex(rule), RuleIndex(rule))
  {
  }

  lemma NoTerminalConcat(t: seq<TraceEntry>, u: seq<TraceEntry>)
    requires NoTerminal(t) && |u| > 0 && NoTerminal(u[..|u| - 1])
    ensures NoTerminal((t + u)[..|t + u| - 1])
  {
    assert (t + u)[..|t + u| - 1] == t + u[..|u| - 1];
  }

  /** The trace lists the rules in chain order and ends with its only terminal entry, the matched rule's. */
  lemma TraceShape(q: Query, requestId: string)
    ensures var r := Decide(q, requestId);
            && |r.trace| > 0
            && r.trace[|r.trace| - 1] ==
                 (if r.allowed then Allowed(r.matchedRule) else Denied(r.matchedRule, r.denyReason.GetOr(InsufficientRole)))
            && (r.allowed <==> r.denyReason.None?)
            && NoTerminal(r.trace[..|r.trace| - 1])
            && ChainOrder(r.trace, 0, RuleIndex(r.matchedRule))
  {
    PrecedencePositions();
    var k := FirstFiring(q, 0);
    PassedTraceInOrder(q, k);
    StopEntriesEndOnce(PRECEDENCE[k], q);
    ChainOrderConcat(PassedTrace(q, k), StopEntries(PRECEDENCE[k], q), 0, k, k);
    NoTerminalConcat(PassedTrace(q, k), StopEntries(PRECEDENCE[k], q));
  }

  // ---------------------------------------------------------------------------------------------
  // Permission resolution inside the engine
  // ---------------------------------------------------------------------------------------------

  function WithPermissions(q: Query, permissions: set<Permission>): Query {
    q.(subject := q.subject.(resolvedPermissions := permissions))
  }

  /** Leaving the permissions unresolved is the same as resolving them to what the roles grant. */
  lemma UnresolvedEqualsBuiltin(q: Query, requestId: string)
    requires q.subject.resolvedPermissions == {}
    ensures Decide(WithPermissions(q, RoleUnion(q.rolePermissions, q.subject.roles)), requestId) == Decide(q, requestId)
  {
    var filled := WithPermissions(q, RoleUnion(q.rolePermissions, q.subject.roles));
    assert Effective(filled.rolePermissions, filled.subject) == Effective(q.rolePermissions, q.subject);
    SameJudgements(q, filled, 0);
    SameTrace(q, filled, FirstFiring(q, 0));
  }

  ghost predicate SameButResolution(a: Query, b: Query) {
    && b == WithPermissions(a, b.subject.resolvedPermissions)
    && Effective(a.rolePermissions, a.subject) == Effective(b.rolePermissions, b.subject)
  }

  lemma SameVerdict(a: Query, b: Query, rule: Rule)
    requires SameButResolution(a, b)
    ensures Judge(rule, a) == Judge(rule, b)
    ensures PassEntries(rule, a) == PassEntries(rule, b)
  {
    assert InCollections(a.subject, a.resource) == InCollections(b.subject, b.resource);
  }

  lemma {:induction false} SameJudgements(a: Query, b: Query, i: nat)
    requires SameButResolution(a, b) && i < |PRECEDENCE|
    ensures FirstFiring(a, i) == FirstFiring(b, i)
    decreases |PRECEDENCE| - i
  {
    SameVerdict(a, b, PRECEDENCE[i]);
    if Judge(PRECEDENCE[i], a) == Continue {
      SameJudgements(a, b, i + 1);
    }
  }

  lemma {:induction false} SameTrace(a: Query, b: Query, n: nat)
    requires SameButResolution(a, b) && n < |PRECEDENCE|
    ensures PassedTrace(a, n) == PassedTrace(b, n)
    ensures Judge(PRECEDENCE[n], a) == Judge(PRECEDENCE[n], b)
    ensures Judge(PRECEDENCE[n], a) != Continue ==> StopEntries(PRECEDENCE[n], a) == StopEntries(PRECEDENCE[n], b)
  {
    SameVerdict(a, b, PRECEDENCE[n]);
    if n == 0 {
    } else {
      SameTrace(a, b, n - 1);
      SameVerdict(a, b, PRECEDENCE[n - 1]);
    }
  }

  // ---------------------------------------------------------------------------------------------
  // Filtering lists
  // ---------------------------------------------------------------------------------------------

  /** A question put to the engine, without the resource it is about. */
  datatype Ask = Ask(rolePermissions: map<string, set<Permission>>, subject: Subject, action: Action) {
    function About(resource: Resource): Query { Query(rolePermissions, subject, action, resource) }
  }

  /** The resources of a list on which the engine allows the action. */
  function FilterAccessible(ask: Ask, resources: seq<Resource>, requestId: string): seq<Resource>
  {
    if resources == [] then []
    else
      var rest := FilterAccessible(ask, resources[1..], requestId);
      if Decide(ask.About(resources[0]), requestId).allowed
      then [resources[0]] + rest else rest
  }

  method FilterAccessibleResources(ask: Ask, resources: seq<Resource>, requestId: string)
    returns (kept: seq<Resource>)
    ensures kept == FilterAccessible(ask, resources, requestId)
  {
    kept := [];
    for i := 0 to |resources|
      invariant kept == FilterAccessible(ask, resources[..i], requestId)
    {
      var r := Authorize(ask.About(resources[i]), requestId);
      FilterDistributes(ask, resources[..i], [resources[i]], requestId);
      assert resources[..i + 1] == resources[..i] + [resources[i]];
      if r.allowed {
        kept := kept + [resources[i]];
      }
    }
    assert resources[..|resources|] == resources;
  }

  lemma {:induction false} FilterDistributes(ask: Ask, a: seq<Resource>, b: seq<Resource>, requestId: string)
    ensures FilterAccessible(ask, a + b, requestId)
         == FilterAccessible(ask, a, requestId)
          + FilterAccessible(ask, b, requestId)
  {
    if a == [] {
      assert a + b == b;
    } else {
      assert (a + b)[1..] == a[1..] + b;
      FilterDistributes(ask, a[1..], b, requestId);
    }
  }

  /** The positions of a list at which the action is allowed, in increasing order. */
  ghost function AllowedPositions(ask: Ask, resources: seq<Resource>): seq<nat>
  {
    if resources == [] then []
    else
      var n := |resources| - 1;
      AllowedPositions(ask, resources[..n])
      + (if MayAccess(ask.About(resources[n])) then [n] else [])
  }

  lemma {:induction false} AllowedPositionsExact(ask: Ask, resources: seq<Resource>)
    ensures var at := AllowedPositions(ask, resources);
            && (forall i, j | 0 <= i < j < |at| :: at[i] < at[j])
            && (forall k: nat :: k in at <==> k < |resources| && MayAccess(ask.About(resources[k])))
  {
    if resources == [] {
    } else {
      var n := |resources| - 1;
      var at, before := AllowedPositions(ask, resources), AllowedPositions(ask, resources[..n]);
      AllowedPositionsExact(ask, resources[..n]);
      assert forall i | 0 <= i < |before| :: before[i] in before;
      forall k: nat ensures k in at <==> k < |resources| && MayAccess(ask.About(resources[k])) {
        assert k in at <==> k in before || (k == n && MayAccess(ask.About(resources[n])));
        assert k < n ==> resources[..n][k] == resources[k];
      }
    }
  }

  /** Filtering keeps exactly the accessible resources, in order and with multiplicity. */
  lemma {:induction false} FilterExact(ask: Ask, resources: seq<Resource>, requestId: string)
    ensures var at := AllowedPositions(ask, resources);
            var kept := FilterAccessible(ask, resources, requestId);
            && |kept| == |at|
            && (forall i | 0 <= i < |at| :: at[i] < |resources| && kept[i] == resources[at[i]])
  {
    if resources == [] {
    } else {
      var n := |resources| - 1;
      FilterExact(ask, resources[..n], requestId);
      FilterDistributes(ask, resources[..n], resources[n..], requestId);
      assert resources == resources[..n] + resources[n..];
      assert resources[n..] == [resources[n]];
      FilterOne(ask, resources[n], requestId);
    }
  }

  lemma FilterOne(ask: Ask, resource: Resource, requestId: string)
    ensures FilterAccessible(ask, [resource], requestId) == if MayAccess(ask.About(resource)) then [resource] else []
  {
    AllowedMeansMayAccess(ask.About(resource));
    DecideAgreesWithIsAllowed(ask.About(resource), requestId);
    assert [resource][1..] == [];
  }

  lemma {:induction false} FilterIdempotent(ask: Ask, resources: seq<Resource>, requestId: string)
    ensures var kept := FilterAccessible(ask, resources, requestId);
            FilterAccessible(ask, kept, requestId) == kept
  {
    if resources == [] {
    } else {
      FilterIdempotent(ask, resources[1..], requestId);
      var rest := FilterAccessible(ask, resources[1..], requestId);
      assert ([resources[0]] + rest)[1..] == rest;
    }
  }

  /** Filtering never lets an unknown, system or foreign resource through, and nothing else stops an admin. */
  lemma {:induction false} FilterRespectsGates(ask: Ask, resources: seq<Resource>, requestId: string, r: Resource)
    ensures var kept := FilterAccessible(ask, resources, requestId);
            && (r in kept ==> r in resources && PassesGates(ask.subject, r))
            && (IsAdmin(ask.subject) ==> (r in kept <==> r in resources && PassesGates(ask.subject, r)))
  {
    if resources == [] {
    } else {
      FilterRespectsGates(ask, resources[1..], requestId, r);
      AllowedMeansMayAccess(ask.About(resources[0]));
      DecideAgreesWithIsAllowed(ask.About(resources[0]), requestId);
    }
  }
}
