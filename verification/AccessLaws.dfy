/** From rows to answers: who may do what to a document, which documents the guard opens, which lists are accepted. */
module AccessLaws {
  import opened Wrappers
  import opened Database
  import opened Policy
  import opened ContextBuilder
  import opened Authorization
  import opened DecisionLaws
  import opened RowLaws
  import DocumentIds
  import Lists

  // ---------------------------------------------------------------------------------------------
  // The decision on a document
  // ---------------------------------------------------------------------------------------------

  /** One question about a document: who asks for what, when, and in which organization. */
  datatype Visit = Visit(env: Env, resolver: CollectionResolver, now: int, p: Principal, organizationId: Uuid,
                         document: DocumentRow, action: Action)
  {
    ghost predicate Denied() { exists row <- env.tables.denies :: InForce(row, env.codec, now, organizationId, document, p.userId) }

    ghost predicate Granted() { exists row <- env.tables.grants :: InForce(row, env.codec, now, organizationId, document, p.userId) }

    predicate Uploaded() { document.uploadedBy.Some? && env.codec.text(document.uploadedBy.value) == p.userId }

    predicate Administers() { p.apiKeyPermissions == None && ("owner" in p.roles || "admin" in p.roles) }

    ghost predicate InCollection() { exists row <- env.tables.collectionDocuments :: row.documentId == document.id }

    /** Some row puts the document into a collection that the resolver names for this user. */
    ghost predicate InOwnCollection() {
      exists row <- env.tables.collectionDocuments, user: Uuid ::
        && env.codec.parse(p.userId) == Some(user)
        && row.documentId == document.id
        && env.codec.text(row.collectionId) in resolver(organizationId, user, p.roles)
    }

    ghost predicate Connected() {
      exists item <- env.tables.externalItems, connection: Uuid :: Connects(item, document, connection)
    }

    ghost predicate Holds(permission: Permission) { PrincipalHolds(env, p, permission) }

    function Decision(): AuthorizationResult { FullDecision(env, resolver, now, p, organizationId, document, action) }

    function Question(): Query {
      Query(env.rolePermissions, SubjectOf(env, p), action,
            DocumentContext(env.tables, env.codec, now, organizationId, document, AccessibleCollections(env, resolver, organizationId, p)))
    }
  }

  /** The rule that settles a visit, and the reason when it is refused, read off the rows. */
  ghost function VisitSettled(v: Visit): (Rule, Option<DenyReason>) {
    var needed := RequiredPermissions(Document, v.action);
    if v.p.organizationId == None then (NoOrganizationContext, Some(NoOrganization))
    else if v.p.organizationId != Some(v.env.codec.text(v.organizationId)) then (TenantBoundary, Some(OtherTenant))
    else if v.Administers() then (OwnerAdminOverride, None)
    else if v.Denied() then (ExplicitResourceDeny, Some(ExplicitlyDenied))
    else if v.action == Delete && v.Uploaded() && v.Holds("documents:upload") then (DocumentOwnerDelete, None)
    else if v.Granted() then (ExplicitResourceAllow, None)
    else if v.InCollection() && v.Holds("chat:use_collections") then
      (CollectionAllow, if v.InOwnCollection() then None else Some(CollectionNotAccessible))
    else if ConnectorAllows(v.env.tables, v.env.codec, v.organizationId, v.document, v.p.userId) then (ConnectorAcl, None)
    else if exists user :: ConnectorAllows(v.env.tables, v.env.codec, v.organizationId, v.document, user) then
      (ConnectorAcl, Some(ConnectorAclDenied))
    else if needed == {} then (Default, Some(InsufficientRole))
    else (RolePermission, if forall permission <- needed :: v.Holds(permission) then None else Some(InsufficientRole))
  }

  lemma VisitHolds(v: Visit, permission: Permission)
    requires v.env.tables.KeysUnique()
    ensures Holds(v.Question(), permission) <==> v.Holds(permission)
  {
    HoldsMeans(v.Question(), permission);
    ResolutionIsFinal(v.env, v.p);
    PermissionsOnRows(v.env, v.p, permission);
  }

  lemma VisitLists(v: Visit)
    ensures ListedToBeDenied(v.Question()) <==> v.Denied()
    ensures ListedToBeAllowed(v.Question()) <==> v.Granted()
    ensures DecisionLaws.Administers(v.Question()) <==> v.Administers()
  {
    var accessible := AccessibleCollections(v.env, v.resolver, v.organizationId, v.p);
    ExplicitUsers(v.env.tables, v.env.codec, v.now, v.organizationId, v.document, accessible, v.p.userId);
    SubjectIdentifies(v.env, v.p);
  }

  lemma VisitUpload(v: Visit)
    requires v.env.tables.KeysUnique()
    ensures DeletesOwnUpload(v.Question()) <==> v.action == Delete && v.Uploaded() && v.Holds("documents:upload")
  {
    VisitHolds(v, "documents:upload");
  }

  lemma VisitCollections(v: Visit)
    requires v.env.tables.KeysUnique()
    ensures CollectionsApply(v.Question()) <==> v.InCollection() && v.Holds("chat:use_collections")
    ensures ReachesCollection(v.Question()) <==> v.InOwnCollection()
  {
    VisitHolds(v, "chat:use_collections");
    VisitInCollection(v);
    VisitReaches(v);
  }

  lemma VisitInCollection(v: Visit)
    ensures v.Question().resource.collectionIds != [] <==> v.InCollection()
  {
    var ids := v.Question().resource.collectionIds;
    var accessible := AccessibleCollections(v.env, v.resolver, v.organizationId, v.p);
    if ids != [] {
      CollectionsOf(v.env.tables, v.env.codec, v.now, v.organizationId, v.document, accessible, ids[0]);
      assert ids[0] in ids;
    }
    if v.InCollection() {
      var row :| row in v.env.tables.collectionDocuments && row.documentId == v.document.id;
      CollectionsOf(v.env.tables, v.env.codec, v.now, v.organizationId, v.document, accessible, v.env.codec.text(row.collectionId));
    }
  }

  lemma VisitReaches(v: Visit)
    ensures ReachesCollection(v.Question()) <==> v.InOwnCollection()
  {
    var accessible := AccessibleCollections(v.env, v.resolver, v.organizationId, v.p);
    var ids := v.Question().resource.collectionIds;
    forall collection: string
      ensures collection in ids <==> exists row <- v.env.tables.collectionDocuments ::
                row.documentId == v.document.id && v.env.codec.text(row.collectionId) == collection
    {
      CollectionsOf(v.env.tables, v.env.codec, v.now, v.organizationId, v.document, accessible, collection);
    }
    if ReachesCollection(v.Question()) {
      var collection :| collection in ids && collection in accessible;
      var row :| row in v.env.tables.collectionDocuments && row.documentId == v.document.id
              && v.env.codec.text(row.collectionId) == collection;
      assert v.env.codec.parse(v.p.userId).Some?;
    }
    if v.InOwnCollection() {
      var row, user: Uuid :| row in v.env.tables.collectionDocuments && v.env.codec.parse(v.p.userId) == Some(user)
        && row.documentId == v.document.id && v.env.codec.text(row.collectionId) in v.resolver(v.organizationId, user, v.p.roles);
      assert v.env.codec.text(row.collectionId) in ids;
    }
  }

  lemma VisitConnector(v: Visit)
    requires v.env.tables.KeysUnique()
    ensures var q := v.Question();
            && (q.resource.connectorId != None && HasConnectorEntry(q) <==>
                  ConnectorAllows(v.env.tables, v.env.codec, v.organizationId, v.document, v.p.userId))
            && (q.resource.connectorId != None && ConnectorFilters(q) <==>
                  exists user :: ConnectorAllows(v.env.tables, v.env.codec, v.organizationId, v.document, user))
  {
    var q := v.Question();
    var accessible := AccessibleCollections(v.env, v.resolver, v.organizationId, v.p);
    forall user: string
      ensures user in q.resource.connectorAllowedUserIds <==>
                ConnectorAllows(v.env.tables, v.env.codec, v.organizationId, v.document, user)
    {
      ConnectorOnRows(v.env.tables, v.env.codec, v.now, v.organizationId, v.document, accessible, user);
    }
    if q.resource.connectorAllowedUserIds != [] {
      assert q.resource.connectorAllowedUserIds[0] in q.resource.connectorAllowedUserIds;
    }
    assert q.resource.connectorId == None ==> q.resource.connectorAllowedUserIds == [];
  }

  /** The whole way from the rows to the settling rule and its reason, for every document and every principal. */
  lemma DecidedByRows(v: Visit)
    requires v.env.tables.KeysUnique()
    ensures var r := v.Decision();
            && (r.matchedRule, r.denyReason) == VisitSettled(v)
            && r.allowed == (VisitSettled(v).1 == None)
  {
    var q := v.Question();
    DecidedByFields(q, "");
    VisitLists(v);
    VisitUpload(v);
    VisitCollections(v);
    VisitConnector(v);
    forall permission | permission in Needed(q) ensures Holds(q, permission) <==> v.Holds(permission) {
      VisitHolds(v, permission);
    }
    VisitMember(v, q);
  }

  /** The case distinctions agree once their conditions do. */
  lemma VisitMember(v: Visit, q: Query)
    requires q == v.Question()
    requires ListedToBeDenied(q) <==> v.Denied()
    requires ListedToBeAllowed(q) <==> v.Granted()
    requires DecisionLaws.Administers(q) <==> v.Administers()
    requires DeletesOwnUpload(q) <==> v.action == Delete && v.Uploaded() && v.Holds("documents:upload")
    requires CollectionsApply(q) <==> v.InCollection() && v.Holds("chat:use_collections")
    requires ReachesCollection(q) <==> v.InOwnCollection()
    requires q.resource.connectorId != None && HasConnectorEntry(q) <==>
               ConnectorAllows(v.env.tables, v.env.codec, v.organizationId, v.document, v.p.userId)
    requires q.resource.connectorId != None && ConnectorFilters(q) <==>
               exists user :: ConnectorAllows(v.env.tables, v.env.codec, v.organizationId, v.document, user)
    requires forall permission <- Needed(q) :: Holds(q, permission) <==> v.Holds(permission)
    ensures Settled(q) == VisitSettled(v)
  {
  }

  /**
   * A member who may use collections and whom no deny row and no other organization keeps out gets into every
   * document that some row puts into one of the collections the resolver names.
   */
  lemma CollectionRowAdmits(v: Visit, row: CollectionDocumentRow, user: Uuid)
    requires v.env.tables.KeysUnique()
    requires v.p.organizationId == Some(v.env.codec.text(v.organizationId))
    requires !v.Denied() && v.Holds("chat:use_collections")
    requires row in v.env.tables.collectionDocuments && row.documentId == v.document.id
    requires v.env.codec.parse(v.p.userId) == Some(user)
    requires v.env.codec.text(row.collectionId) in v.resolver(v.organizationId, user, v.p.roles)
    ensures v.Decision().allowed
  {
    DecidedByRows(v);
    assert v.InOwnCollection();
  }

  /** With rows for the document but none in such a collection, the collection rule refuses whoever it decides for. */
  lemma CollectionRowsRefuse(v: Visit)
    requires v.env.tables.KeysUnique()
    requires v.p.organizationId == Some(v.env.codec.text(v.organizationId))
    requires !v.Administers() && !v.Denied() && !v.Granted() && v.Holds("chat:use_collections")
    requires !(v.action == Delete && v.Uploaded() && v.Holds("documents:upload"))
    requires exists row <- v.env.tables.collectionDocuments :: row.documentId == v.document.id
    requires forall row <- v.env.tables.collectionDocuments, user: Uuid |
               row.documentId == v.document.id && v.env.codec.parse(v.p.userId) == Some(user) ::
               v.env.codec.text(row.collectionId) !in v.resolver(v.organizationId, user, v.p.roles)
    ensures v.Decision().denyReason == Some(CollectionNotAccessible)
  {
    DecidedByRows(v);
  }

  /** A deny row in force for the user keeps a member out of the document, whatever else is granted. */
  lemma DenyRowBlocksMember(v: Visit, row: AccessRow)
    requires v.env.tables.KeysUnique()
    requires row in v.env.tables.denies
    requires row.organizationId == v.organizationId && row.resourceType == "document"
    requires row.resourceId == Some(v.env.codec.text(v.document.id))
    requires row.status == "active" && row.principalType == "user"
    requires row.userId.Some? && v.env.codec.text(row.userId.value) == v.p.userId
    requires row.expiresAt == None || row.expiresAt.value > v.now
    requires !v.Administers()
    ensures !v.Decision().allowed
  {
    DecidedByRows(v);
    assert InForce(row, v.env.codec, v.now, v.organizationId, v.document, v.p.userId);
  }

  lemma ExplicitAllowMeansGranted(v: Visit)
    requires v.env.tables.KeysUnique()
    requires v.Decision().matchedRule == ExplicitResourceAllow
    ensures v.Granted()
  {
    DecidedByRows(v);
  }

  /** An explicit allow always goes back to a grant row in force for this document and this user. */
  lemma ExplicitAllowHasGrantRow(v: Visit) returns (row: AccessRow)
    requires v.env.tables.KeysUnique()
    requires v.Decision().matchedRule == ExplicitResourceAllow
    ensures row in v.env.tables.grants
    ensures row.organizationId == v.organizationId && row.resourceType == "document"
    ensures row.resourceId == Some(v.env.codec.text(v.document.id))
    ensures row.status == "active" && row.principalType == "user"
    ensures row.userId.Some? && v.env.codec.text(row.userId.value) == v.p.userId
    ensures row.expiresAt == None || row.expiresAt.value > v.now
  {
    ExplicitAllowMeansGranted(v);
    row :| row in v.env.tables.grants && InForce(row, v.env.codec, v.now, v.organizationId, v.document, v.p.userId);
  }

  // ---------------------------------------------------------------------------------------------
  // The guard
  // ---------------------------------------------------------------------------------------------

  lemma AdminRolesMean(p: Principal)
    ensures HoldsAdminRole(p) <==> "owner" in p.roles || "admin" in p.roles
  {
    assert HoldsAdminRole(p) <== "owner" in p.roles || "admin" in p.roles by {
      assert "owner" in ADMIN_ROLES && "admin" in ADMIN_ROLES;
    }
  }

  /** The document asked for: a row with the identifier that the text spells, in the principal's own organization. */
  ghost predicate AskedFor(env: Env, documentId: string, p: Principal, d: DocumentRow) {
    && d in env.tables.documents
    && env.codec.parse(documentId) == Some(d.id)
    && p.organizationId.Some? && env.codec.parse(p.organizationId.value) == Some(d.organizationId)
  }

  lemma {:induction false} FoundIsRow(rows: seq<DocumentRow>, documentId: Uuid, organizationId: Uuid)
    ensures forall d <- Column(rows, ById(documentId, organizationId)) ::
              d in rows && d.id == documentId && d.organizationId == organizationId
  {
    if rows == [] {
    } else {
      FoundIsRow(rows[..|rows| - 1], documentId, organizationId);
    }
  }

  /** The guard's first step finds the document asked for and nothing else. */
  lemma LocatedExactly(env: Env, documentId: string, p: Principal, d: DocumentRow)
    requires env.tables.KeysUnique()
    ensures Located(env, documentId, ActiveOrganization(env, p)) == Access.Granted(d) <==> AskedFor(env, documentId, p, d)
  {
    if AskedFor(env, documentId, p, d) {
      OwnDocumentFound(env.tables.documents, d);
    }
    var org := ActiveOrganization(env, p);
    if org.Some? && env.codec.parse(documentId).Some? {
      FoundIsRow(env.tables.documents, env.codec.parse(documentId).value, org.value);
    }
  }

  /**
   * The guard opens a document exactly when it is the one asked for and the principal administers, or decisions
   * are not enforced, or the rows settle the question with an allow. It never opens another organization's.
   */
  lemma GuardOpensExactly(env: Env, resolver: CollectionResolver, now: int, enforce: bool, documentId: string, p: Principal,
                          action: Action, d: DocumentRow)
    requires env.tables.KeysUnique()
    ensures GuardOutcome(env, resolver, now, enforce, true, documentId, p, action) == Access.Granted(d) <==>
              && AskedFor(env, documentId, p, d)
              && (|| "owner" in p.roles || "admin" in p.roles || !enforce
                  || VisitSettled(Visit(env, resolver, now, p, d.organizationId, d, action)).1 == None)
  {
    LocatedExactly(env, documentId, p, d);
    AdminRolesMean(p);
    DecidedByRows(Visit(env, resolver, now, p, d.organizationId, d, action));
  }

  /** It forbids exactly those without a usable organization; everyone else who is refused is told that nothing is there. */
  lemma GuardForbidsExactly(env: Env, resolver: CollectionResolver, now: int, enforce: bool, documentId: string, p: Principal, action: Action)
    ensures GuardOutcome(env, resolver, now, enforce, true, documentId, p, action) == Forbidden <==>
              p.organizationId == None || env.codec.parse(p.organizationId.value) == None
  {
  }

  // ---------------------------------------------------------------------------------------------
  // Lists
  // ---------------------------------------------------------------------------------------------

  /** Filtering documents put together is filtering each part, in order and with multiplicity. */
  lemma {:induction false} VisibleDistributes(env: Env, resolver: CollectionResolver, now: int, p: Principal, organizationId: Uuid,
                                              a: seq<DocumentRow>, b: seq<DocumentRow>, action: Action)
    ensures VisibleDocuments(env, resolver, now, p, organizationId, a + b, action)
         == VisibleDocuments(env, resolver, now, p, organizationId, a, action)
          + VisibleDocuments(env, resolver, now, p, organizationId, b, action)
  {
    if a == [] {
      assert a + b == b;
    } else {
      var all, rest := a + b, a[1..];
      assert all[0] == a[0] && all[1..] == rest + b;
      VisibleDistributes(env, resolver, now, p, organizationId, rest, b, action);
      Lists.Rebracket(if FullDecision(env, resolver, now, p, organizationId, a[0], action).allowed then [a[0]] else [],
                      VisibleDocuments(env, resolver, now, p, organizationId, rest, action),
                      VisibleDocuments(env, resolver, now, p, organizationId, b, action));
    }
  }

  /** The list view refuses exactly when an identifier is unusable; it shows admins all and others what the rows allow. */
  lemma ListShowsExactly(env: Env, resolver: CollectionResolver, now: int, p: Principal, documents: seq<DocumentRow>, d: DocumentRow)
    requires env.tables.KeysUnique() && OfOrganization(env, p, documents)
    ensures var listing := ListOutcome(env, resolver, now, p, documents);
            && (listing == Refused <==>
                  p.organizationId == None || env.codec.parse(p.organizationId.value) == None || env.codec.parse(p.userId) == None)
            && (listing.Listed? ==>
                  (d in listing.documents <==>
                     && d in documents
                     && (|| "owner" in p.roles || "admin" in p.roles
                         || VisitSettled(Visit(env, resolver, now, p, d.organizationId, d, List)).1 == None)))
  {
    AdminRolesMean(p);
    var listing := ListOutcome(env, resolver, now, p, documents);
    if listing.Listed? && d in documents {
      VisibleExact(env, resolver, now, p, d.organizationId, documents, List, d);
      DecidedByRows(Visit(env, resolver, now, p, d.organizationId, d, List));
    } else if listing.Listed? {
      VisibleExact(env, resolver, now, p, env.codec.parse(p.organizationId.value).value, documents, List, d);
    }
  }

  // ---------------------------------------------------------------------------------------------
  // Lists of identifiers
  // ---------------------------------------------------------------------------------------------

  /** A document of the organization that its connector, if it has one, still serves. */
  ghost predicate Serves(env: Env, organizationId: Uuid, d: DocumentRow) {
    && d in env.tables.documents && d.organizationId == organizationId
    && (d.externalItemId.Some? ==>
          exists item <- env.tables.externalItems, connection <- env.tables.connections ::
            && item.id == d.externalItemId.value && item.organizationId == organizationId
            && item.deletedAt == None && item.connectionId == Some(connection.id) && connection.status == "active")
  }

  lemma UsableMeans(env: Env, organizationId: Uuid, id: Uuid)
    requires env.tables.KeysUnique()
    ensures DocumentIds.Usable(env.tables, organizationId, id) <==>
              exists d <- env.tables.documents :: d.id == id && Serves(env, organizationId, d)
  {
    FoundIsRow(env.tables.documents, id, organizationId);
    forall d | d in env.tables.documents && d.id == id && d.organizationId == organizationId
      ensures FindDocument(env.tables, id, organizationId) == Some(d)
    {
      OwnDocumentFound(env.tables.documents, d);
    }
    var found := Column(env.tables.documents, ById(id, organizationId));
    if found != [] {
      assert found[0] in found;
    }
  }

  /** Every identifier of an accepted list belongs to a document row of the principal's own organization that is served. */
  lemma AcceptedIdsServed(env: Env, p: Principal, texts: seq<string>, id: Uuid)
    requires env.tables.KeysUnique()
    requires DocumentIds.Checked(env, p, texts).Success? && id in DocumentIds.Checked(env, p, texts).value
    ensures p.organizationId.Some? && env.codec.parse(p.organizationId.value).Some?
    ensures exists d <- env.tables.documents :: d.id == id && Serves(env, env.codec.parse(p.organizationId.value).value, d)
  {
    DocumentIds.AcceptedListExact(env, p, texts);
    UsableMeans(env, env.codec.parse(p.organizationId.value).value, id);
  }

  /** Which lists are refused, and for which of the two reasons. */
  lemma RefusedIdsExactly(env: Env, p: Principal, texts: seq<string>)
    requires env.tables.KeysUnique()
    ensures var usable := p.organizationId.Some? && env.codec.parse(p.organizationId.value).Some?;
            var spelled := forall t <- texts :: env.codec.parse(t).Some?;
            && (DocumentIds.Checked(env, p, texts) == Failure(DocumentIds.NoOrganizationContext) <==>
                  spelled && texts != [] && !usable)
            && (DocumentIds.Checked(env, p, texts) == Failure(DocumentIds.NoDocument) <==>
                  || !spelled
                  || (usable && exists t <- texts ::
                        forall d <- env.tables.documents :: env.codec.parse(t) == Some(d.id) ==>
                          !Serves(env, env.codec.parse(p.organizationId.value).value, d)))
  {
    if forall t <- texts :: env.codec.parse(t).Some? {
      var parsed := DocumentIds.ParseAll(env.codec, texts);
      Lists.DedupExact(parsed);
      assert texts != [] ==> parsed[0] in Lists.Dedup(parsed);
      if p.organizationId.Some? && env.codec.parse(p.organizationId.value).Some? {
        UnservedText(env, env.codec.parse(p.organizationId.value).value, texts);
      }
    }
  }

  lemma UnservedText(env: Env, organizationId: Uuid, texts: seq<string>)
    requires env.tables.KeysUnique() && forall t <- texts :: env.codec.parse(t).Some?
    ensures (exists id <- Lists.Dedup(DocumentIds.ParseAll(env.codec, texts)) :: !DocumentIds.Usable(env.tables, organizationId, id))
        <==> exists t <- texts ::
               forall d <- env.tables.documents :: env.codec.parse(t) == Some(d.id) ==> !Serves(env, organizationId, d)
  {
    var parsed := DocumentIds.ParseAll(env.codec, texts);
    Lists.DedupExact(parsed);
    forall i | 0 <= i < |texts|
      ensures !DocumentIds.Usable(env.tables, organizationId, parsed[i]) <==>
                forall d <- env.tables.documents :: env.codec.parse(texts[i]) == Some(d.id) ==> !Serves(env, organizationId, d)
    {
      UsableMeans(env, organizationId, parsed[i]);
    }
    if id :| id in Lists.Dedup(parsed) && !DocumentIds.Usable(env.tables, organizationId, id) {
      var i :| 0 <= i < |parsed| && parsed[i] == id;
      assert texts[i] in texts;
    }
    if t :| t in texts && forall d <- env.tables.documents :: env.codec.parse(t) == Some(d.id) ==> !Serves(env, organizationId, d) {
      var i :| 0 <= i < |texts| && texts[i] == t;
      assert parsed[i] in parsed;
    }
  }
}
