/**
 * Principals and the entry points around the policy engine: resolving a subject, checking permissions,
 * guarding one document, listing many. Each entry point takes its own short cuts; the lemmas show when they
 * agree with running the whole engine.
 */
module Authorization {
  import opened Wrappers
  import opened Text
  import opened Database
  import opened Policy
  import opened PolicyTheorems
  import Monotonicity
  import opened Permissions
  import opened ContextBuilder

  datatype Principal = Principal(
    userId: string, organizationId: Option<string>, roles: seq<string>, apiKeyPermissions: Option<set<Permission>>)

  /** What stays fixed during one request: the role table, the rows, and the spelling of identifiers. */
  datatype Env = Env(rolePermissions: map<string, set<Permission>>, tables: Tables, codec: UuidCodec)

  // ---------------------------------------------------------------------------------------------
  // Subjects
  // ---------------------------------------------------------------------------------------------

  function MemberRole(organizationId: Uuid, userId: Uuid): MemberRow -> Option<Option<Uuid>> {
    (row: MemberRow) => if row.organizationId == organizationId && row.userId == userId then Some(row.customRoleId) else None
  }

  /** The custom role of the principal's membership, when both identifiers parse and the membership exists. */
  function CustomRoleOf(env: Env, p: Principal): Option<Uuid> {
    if p.organizationId.None? || p.organizationId.value == "" then None
    else
      match (env.codec.parse(p.organizationId.value), env.codec.parse(p.userId))
      case (Some(org), Some(user)) =>
        var found := Column(env.tables.members, MemberRole(org, user));
        if found == [] then None else found[0]
      case _ => None
  }

  function NewSubject(p: Principal, roles: set<string>, resolved: set<Permission>, isApiKey: bool): Subject {
    Subject(p.userId, p.organizationId, roles, resolved, isApiKey, [], [], {}, {})
  }

  function SubjectOf(env: Env, p: Principal): Subject {
    if p.apiKeyPermissions.Some? then NewSubject(p, {}, p.apiKeyPermissions.value, true)
    else NewSubject(p, RoleSet(p.roles), UserPermissions(env.rolePermissions, env.tables, p.roles, CustomRoleOf(env, p)), false)
  }

  /** The principal's membership is looked up: a member's identifiers both parse. */
  predicate LooksUpMember(env: Env, p: Principal) {
    && p.apiKeyPermissions.None?
    && p.organizationId.Some? && p.organizationId.value != ""
    && env.codec.parse(p.organizationId.value).Some? && env.codec.parse(p.userId).Some?
  }

  /** One query for the membership, two more for a custom role. */
  function SubjectQueries(env: Env, p: Principal): (n: nat)
    ensures n <= 3
    ensures p.apiKeyPermissions.Some? ==> n == 0
  {
    if !LooksUpMember(env, p) then 0 else if CustomRoleOf(env, p).None? then 1 else 3
  }

  method BuildSubject(env: Env, db: DbSession, p: Principal) returns (subject: Subject)
    requires db.tables == env.tables && env.tables.KeysUnique()
    modifies db`queries
    ensures subject == SubjectOf(env, p)
    ensures db.queries == old(db.queries) + SubjectQueries(env, p)
  {
    if p.apiKeyPermissions != None {
      return NewSubject(p, {}, p.apiKeyPermissions.value, true);
    }
    var customRoleId := None;
    if p.organizationId != None && p.organizationId.value != "" {
      var org := env.codec.parse(p.organizationId.value);
      if org != None {
        var user := env.codec.parse(p.userId);
        if user != None {
          db.queries := db.queries + 1;
          var rows := Column(env.tables.members, MemberRole(org.value, user.value));
          if rows != [] {
            customRoleId := rows[0];
          }
        }
      }
    }
    var resolved := GetUserPermissions(env.rolePermissions, db, p.roles, customRoleId);
    subject := NewSubject(p, RoleSet(p.roles), resolved, false);
  }

  /**
   * The engine's own fallback adds nothing to a subject built here: what the engine uses is what was resolved,
   * even when that is empty.
   */
  lemma ResolutionIsFinal(env: Env, p: Principal)
    ensures Effective(env.rolePermissions, SubjectOf(env, p)) == SubjectOf(env, p).resolvedPermissions
  {
    var subject := SubjectOf(env, p);
    if subject.resolvedPermissions == {} {
      assert RoleUnion(env.rolePermissions, subject.roles) == {} by {
        if p.apiKeyPermissions.None? && CustomRoleOf(env, p).Some? {
          RoleUnionAdds(env.rolePermissions, RoleSet(p.roles), BaseRoles(env.tables, CustomRoleOf(env, p).value));
        }
      }
    }
  }

  // ---------------------------------------------------------------------------------------------
  // require_permission
  // ---------------------------------------------------------------------------------------------

  function NormalizedPermissions(required: seq<string>): set<string> {
    set p | p in required && !Blank(p) :: Strip(p)
  }

  /** Passes exactly when everything asked for is among what the service would resolve for the principal. */
  method RequirePermission(env: Env, db: DbSession, p: Principal, required: seq<string>) returns (granted: bool)
    requires db.tables == env.tables && env.tables.KeysUnique()
    modifies db`queries
    ensures granted <==> NormalizedPermissions(required) <= SubjectOf(env, p).resolvedPermissions
    ensures db.queries == old(db.queries) + (if NormalizedPermissions(required) == {} then 0 else SubjectQueries(env, p))
  {
    var normalized := NormalizedPermissions(required);
    if normalized == {} {
      return true;
    }
    if p.apiKeyPermissions != None {
      return normalized <= p.apiKeyPermissions.value;
    }
    var customRoleId: Option<Uuid> := None;
    if p.organizationId != None && p.organizationId.value != "" {
      var org, user := env.codec.parse(p.organizationId.value), env.codec.parse(p.userId);
      if org == None || user == None {
        org, user := None, None;
      }
      if org != None && user != None {
        db.queries := db.queries + 1;
        var row := ScalarOneOrNone(env.tables, org.value, user.value);
        if row != None {
          customRoleId := row;
        }
      }
    }
    var permissions := GetUserPermissions(env.rolePermissions, db, p.roles, customRoleId);
    return normalized <= permissions;
  }

  /** scalar_one_or_none(): a second matching row would be an error, but (organization, user) is unique. */
  method ScalarOneOrNone(tables: Tables, org: Uuid, user: Uuid) returns (customRoleId: Option<Uuid>)
    requires tables.KeysUnique()
    ensures var found := Column(tables.members, MemberRole(org, user));
            |found| <= 1 && customRoleId == if found == [] then None else found[0]
  {
    var found := Column(tables.members, MemberRole(org, user));
    AtMostOneMember(tables.members, org, user);
    customRoleId := if found == [] then None else found[0];
  }

  lemma {:induction false} AtMostOneMember(rows: seq<MemberRow>, org: Uuid, user: Uuid)
    requires forall i, j | 0 <= i < j < |rows| :: rows[i].organizationId != rows[j].organizationId || rows[i].userId != rows[j].userId
    ensures |Column(rows, MemberRole(org, user))| <= 1
    ensures Column(rows, MemberRole(org, user)) == [] <==> forall row <- rows :: row.organizationId != org || row.userId != user
  {
    if rows == [] {
    } else {
      var last := |rows| - 1;
      AtMostOneMember(rows[..last], org, user);
      if rows[last].organizationId == org && rows[last].userId == user {
        assert forall row <- rows[..last] :: row.organizationId != org || row.userId != user;
      }
    }
  }

  // ---------------------------------------------------------------------------------------------
  // Guarding one document
  // ---------------------------------------------------------------------------------------------

  datatype Access = Forbidden | NotFound | Granted(document: DocumentRow)

  function ById(documentId: Uuid, organizationId: Uuid): DocumentRow -> Option<DocumentRow> {
    (row: DocumentRow) => if row.id == documentId && row.organizationId == organizationId then Some(row) else None
  }

  function FindDocument(tables: Tables, documentId: Uuid, organizationId: Uuid): (found: Option<DocumentRow>) {
    var rows := Column(tables.documents, ById(documentId, organizationId));
    if rows == [] then None else Some(rows[0])
  }

  /** A document of the organization is found by its own identifier. */
  lemma {:induction false} OwnDocumentFound(rows: seq<DocumentRow>, document: DocumentRow)
    requires forall i, j | 0 <= i < j < |rows| :: rows[i].id != rows[j].id
    requires document in rows
    ensures Column(rows, ById(document.id, document.organizationId)) == [document]
  {
    var last := |rows| - 1;
    if document == rows[last] {
      NoOtherDocument(rows[..last], document.id, document.organizationId);
    } else {
      OwnDocumentFound(rows[..last], document);
      var i :| 0 <= i < last && rows[i] == document;
      assert rows[i].id != rows[last].id;
    }
  }

  lemma {:induction false} NoOtherDocument(rows: seq<DocumentRow>, documentId: Uuid, organizationId: Uuid)
    requires forall row <- rows :: row.id != documentId
    ensures Column(rows, ById(documentId, organizationId)) == []
  {
    if rows == [] {
    } else {
      assert rows[|rows| - 1] in rows;
      NoOtherDocument(rows[..|rows| - 1], documentId, organizationId);
    }
  }

  /** The collections a user may access are resolved elsewhere; here they are any function of who asks. */
  type CollectionResolver = (Uuid, Uuid, seq<string>) -> seq<string>

  function AccessibleCollections(env: Env, resolver: CollectionResolver, organizationId: Uuid, p: Principal): seq<string> {
    var user := env.codec.parse(p.userId);
    if user.Some? then resolver(organizationId, user.value, p.roles) else []
  }

  /** The full evaluation: resolve the subject, build the document's context, run the engine. */
  function FullDecision(env: Env, resolver: CollectionResolver, now: int, p: Principal, organizationId: Uuid,
                        document: DocumentRow, action: Action): AuthorizationResult
  {
    var accessible := AccessibleCollections(env, resolver, organizationId, p);
    var context := DocumentContext(env.tables, env.codec, now, organizationId, document, accessible);
    Decide(Query(env.rolePermissions, SubjectOf(env, p), action, context), "")
  }

  predicate HoldsAdminRole(p: Principal) {
    exists role <- p.roles :: role in ADMIN_ROLES
  }

  method Evaluate(env: Env, resolver: CollectionResolver, db: DbSession, p: Principal, organizationId: Uuid,
                  document: DocumentRow, action: Action)
    returns (allowed: bool)
    requires db.tables == env.tables && db.codec == env.codec
    requires env.codec.Lawful() && env.tables.KeysUnique()
    modifies db`queries
    ensures allowed == FullDecision(env, resolver, db.now, p, organizationId, document, action).allowed
    ensures db.queries == old(db.queries) + ContextQueries(env.tables, document) + SubjectQueries(env, p)
  {
    var user := env.codec.parse(p.userId);
    var accessible: seq<string> := [];
    if user != None {
      accessible := resolver(organizationId, user.value, p.roles);
    }
    var context := BuildDocumentContext(db, document, organizationId, accessible);
    var subject := BuildSubject(env, db, p);
    var result := Authorize(Query(env.rolePermissions, subject, action, context), "");
    return result.allowed;
  }

  function ActiveOrganization(env: Env, p: Principal): Option<Uuid> {
    if p.organizationId.None? then None else env.codec.parse(p.organizationId.value)
  }

  /** Finding the document comes first, and refuses for the same reasons whoever asks. */
  function Located(env: Env, documentId: string, organizationId: Option<Uuid>): Access {
    if organizationId.None? then Forbidden
    else if env.codec.parse(documentId).None? then NotFound
    else
      var found := FindDocument(env.tables, env.codec.parse(documentId).value, organizationId.value);
      if found.None? then NotFound else Granted(found.value)
  }

  /** What the guard answers; without a short cut for admins when `shortcut` is false. */
  function GuardOutcome(env: Env, resolver: CollectionResolver, now: int, enforce: bool, shortcut: bool,
                        documentId: string, p: Principal, action: Action): Access
  {
    var org := ActiveOrganization(env, p);
    var located := Located(env, documentId, org);
    if !located.Granted? || (shortcut && HoldsAdminRole(p)) || !enforce then located
    else if FullDecision(env, resolver, now, p, org.value, located.document, action).allowed then located
    else NotFound
  }

  /** One query for the document; for those who must be evaluated, also the context's and the subject's. */
  function GuardQueries(env: Env, documentId: string, p: Principal): (n: nat)
    ensures n <= 9
  {
    var org := ActiveOrganization(env, p);
    if org.None? || env.codec.parse(documentId).None? then 0
    else
      var located := Located(env, documentId, org);
      if !located.Granted? || HoldsAdminRole(p) then 1
      else 1 + ContextQueries(env.tables, located.document) + SubjectQueries(env, p)
  }

  method RequireDocumentPolicyAccess(env: Env, resolver: CollectionResolver, db: DbSession, enforce: bool,
                                     documentId: string, p: Principal, action: Action)
    returns (access: Access)
    requires db.tables == env.tables && db.codec == env.codec
    requires env.codec.Lawful() && env.tables.KeysUnique()
    modifies db`queries
    ensures access == GuardOutcome(env, resolver, db.now, enforce, true, documentId, p, action)
    ensures db.queries == old(db.queries) + GuardQueries(env, documentId, p)
  {
    access := Locate(env, db, documentId, p);
    if !access.Granted? {
      return access;
    }
    if p.roles != [] && exists role <- p.roles :: role in ADMIN_ROLES {
      return access;
    }
    var allowed := Evaluate(env, resolver, db, p, ActiveOrganization(env, p).value, access.document, action);
    if !allowed && enforce {
      return NotFound;
    }
    return access;
  }

  method Locate(env: Env, db: DbSession, documentId: string, p: Principal) returns (located: Access)
    requires db.tables == env.tables
    modifies db`queries
    ensures located == Located(env, documentId, ActiveOrganization(env, p))
    ensures var asked := ActiveOrganization(env, p).Some? && env.codec.parse(documentId).Some?;
            db.queries == old(db.queries) + (if asked then 1 else 0)
  {
    if p.organizationId == None {
      return Forbidden;
    }
    var org := env.codec.parse(p.organizationId.value);
    if org == None {
      return Forbidden;
    }
    var id := env.codec.parse(documentId);
    if id == None {
      return NotFound;
    }
    db.queries := db.queries + 1;
    var document := FindDocument(env.tables, id.value, org.value);
    if document == None {
      return NotFound;
    }
    return Granted(document.value);
  }

  lemma AdminRoleReachesEngine(env: Env, p: Principal)
    requires HoldsAdminRole(p)
    ensures IsAdmin(SubjectOf(env, p)) <==> p.apiKeyPermissions.None?
  {
    var role :| role in p.roles && role in ADMIN_ROLES;
    assert p.apiKeyPermissions.None? ==> role in SubjectOf(env, p).roles;
  }

  /**
   * Skipping the engine for admins is right exactly when the principal is no API key and spells its
   * organization canonically: then, and only then, the full evaluation ends at the override rule.
   */
  lemma AdminShortcutExact(env: Env, resolver: CollectionResolver, now: int, p: Principal, organizationId: Uuid,
                           document: DocumentRow, action: Action)
    requires HoldsAdminRole(p)
    requires p.organizationId.Some? && env.codec.parse(p.organizationId.value) == Some(organizationId)
    ensures var full := FullDecision(env, resolver, now, p, organizationId, document, action);
            (full.allowed && full.matchedRule == OwnerAdminOverride) <==>
              (p.apiKeyPermissions.None? && p.organizationId.value == env.codec.text(organizationId))
  {
    var accessible := AccessibleCollections(env, resolver, organizationId, p);
    var context := DocumentContext(env.tables, env.codec, now, organizationId, document, accessible);
    var q := Query(env.rolePermissions, SubjectOf(env, p), action, context);
    AdminRoleReachesEngine(env, p);
    MatchedRuleIsFirst(q, "");
    BeforeGates(q, Decide(q, "").matchedRule);
  }

  /** Under that condition the guard with the short cut and the guard without it answer alike. */
  lemma AdminShortcutSound(env: Env, resolver: CollectionResolver, now: int, enforce: bool, documentId: string, p: Principal, action: Action)
    requires p.organizationId.Some? && env.codec.parse(p.organizationId.value).Some? ==>
               p.organizationId.value == env.codec.text(env.codec.parse(p.organizationId.value).value)
    requires p.apiKeyPermissions.Some? ==> p.roles == []
    ensures GuardOutcome(env, resolver, now, enforce, true, documentId, p, action)
         == GuardOutcome(env, resolver, now, enforce, false, documentId, p, action)
  {
    var org := ActiveOrganization(env, p);
    var located := Located(env, documentId, org);
    if located.Granted? && HoldsAdminRole(p) {
      AdminShortcutExact(env, resolver, now, p, org.value, located.document, action);
    }
  }

  // ---------------------------------------------------------------------------------------------
  // Adding a connector row
  // ---------------------------------------------------------------------------------------------

  function WithAclRow(env: Env, row: AclRow): Env {
    env.(tables := env.tables.(acls := env.tables.acls + [row]))
  }

  /**
   * Allowing one user on a connection takes its documents away from exactly those whom the role rule had let in:
   * it is the connection's first such row, and not theirs.
   */
  lemma FirstAclRowLocksOut(env: Env, resolver: CollectionResolver, now: int, p: Principal, organizationId: Uuid,
                            document: DocumentRow, action: Action, row: AclRow)
    requires AllowingAclRow(row, organizationId) && row.connectionId.Some? && row.userId.Some?
    ensures var before := FullDecision(env, resolver, now, p, organizationId, document, action);
            var after := FullDecision(WithAclRow(env, row), resolver, now, p, organizationId, document, action);
            (before.allowed && !after.allowed) <==>
              (&& ConnectionOf(env.tables, document) == row.connectionId
               && Column(env.tables.acls, AclUser(env.codec, organizationId, row.connectionId.value)) == []
               && p.userId != env.codec.text(row.userId.value)
               && before.allowed && before.matchedRule == RolePermission)
  {
    var accessible := AccessibleCollections(env, resolver, organizationId, p);
    var context := DocumentContext(env.tables, env.codec, now, organizationId, document, accessible);
    var q := Query(env.rolePermissions, SubjectOf(env, p), action, context);
    var users := DocumentContext(WithAclRow(env, row).tables, env.codec, now, organizationId, document, accessible).connectorAllowedUserIds;
    assert SubjectOf(WithAclRow(env, row), p) == SubjectOf(env, p);
    AclRowAppended(env, organizationId, document, row, accessible, now);
    Monotonicity.FirstAclUserRevokes(q, users);
    DecideAgreesWithIsAllowed(q, "");
    DecideAgreesWithIsAllowed(Monotonicity.WithAclUsers(q, users), "");
  }

  lemma AclRowAppended(env: Env, organizationId: Uuid, document: DocumentRow, row: AclRow, accessible: seq<string>, now: int)
    requires AllowingAclRow(row, organizationId) && row.connectionId.Some? && row.userId.Some?
    ensures var before := DocumentContext(env.tables, env.codec, now, organizationId, document, accessible);
            DocumentContext(WithAclRow(env, row).tables, env.codec, now, organizationId, document, accessible) ==
              if ConnectionOf(env.tables, document) == row.connectionId
              then before.(connectorAllowedUserIds := before.connectorAllowedUserIds + [env.codec.text(row.userId.value)])
              else before
  {
    var rows := env.tables.acls;
    assert (rows + [row])[..|rows|] == rows;
  }

  // ---------------------------------------------------------------------------------------------
  // Listing many documents
  // ---------------------------------------------------------------------------------------------

  /** The documents of a list on which the full evaluation allows the action, in order. */
  function VisibleDocuments(env: Env, resolver: CollectionResolver, now: int, p: Principal, organizationId: Uuid,
                            documents: seq<DocumentRow>, action: Action): seq<DocumentRow>
  {
    if documents == [] then []
    else
      var rest := VisibleDocuments(env, resolver, now, p, organizationId, documents[1..], action);
      if FullDecision(env, resolver, now, p, organizationId, documents[0], action).allowed then [documents[0]] + rest else rest
  }

  function WithIdIn(codec: UuidCodec, documents: seq<DocumentRow>, ids: set<string>): seq<DocumentRow> {
    if documents == [] then []
    else
      var rest := WithIdIn(codec, documents[1..], ids);
      if codec.text(documents[0].id) in ids then [documents[0]] + rest else rest
  }

  function KeptIds(resources: seq<Resource>): set<string> {
    set r | r in resources && r.resourceId.Some? :: r.resourceId.value
  }

  /** The service's filter over a list of resources. */
  method FilterForPrincipal(env: Env, db: DbSession, p: Principal, action: Action, resources: seq<Resource>)
    returns (kept: seq<Resource>)
    requires db.tables == env.tables && env.tables.KeysUnique()
    modifies db`queries
    ensures kept == FilterAccessible(Ask(env.rolePermissions, SubjectOf(env, p), action), resources, "")
    ensures db.queries == old(db.queries) + (if resources == [] then 0 else SubjectQueries(env, p))
  {
    if resources == [] {
      return [];
    }
    var subject := BuildSubject(env, db, p);
    kept := FilterAccessibleResources(Ask(env.rolePermissions, subject, action), resources, "");
  }

  datatype Listing = Refused | Listed(documents: seq<DocumentRow>)

  /** What the list view answers for the documents that the organization's query selected. */
  function ListOutcome(env: Env, resolver: CollectionResolver, now: int, p: Principal, documents: seq<DocumentRow>): Listing {
    if p.organizationId.None? then Refused
    else
      match (env.codec.parse(p.userId), env.codec.parse(p.organizationId.value))
      case (Some(_), Some(org)) =>
        Listed(if HoldsAdminRole(p) then documents else VisibleDocuments(env, resolver, now, p, org, documents, List))
      case _ => Refused
  }

  /** How many queries the filtering of a list issues besides the resolver's own: at most eight. */
  function ListQueries(env: Env, p: Principal, documents: seq<DocumentRow>): (n: nat)
    ensures n <= 8
  {
    if HoldsAdminRole(p) || documents == [] then 0
    else BatchQueries(env.tables, env.codec, documents) + SubjectQueries(env, p)
  }

  /** The documents that the list query selects for a principal's organization, whatever its other criteria. */
  ghost predicate OfOrganization(env: Env, p: Principal, documents: seq<DocumentRow>) {
    forall d <- documents :: d in env.tables.documents
      && (p.organizationId.Some? ==> env.codec.parse(p.organizationId.value) == Some(d.organizationId))
  }

  lemma RowsKnownById(tables: Tables, documents: seq<DocumentRow>)
    requires tables.KeysUnique() && forall d <- documents :: d in tables.documents
    ensures forall a <- documents, b <- documents :: a.id == b.id ==> a == b
  {
  }

  /**
   * The list view: contexts are built in one batch, filtered, and the documents kept by identifier. What it keeps
   * is what evaluating each document on its own would keep.
   */
  method ListVisibleDocuments(env: Env, resolver: CollectionResolver, db: DbSession, p: Principal, documents: seq<DocumentRow>)
    returns (listing: Listing)
    requires db.tables == env.tables && db.codec == env.codec
    requires env.codec.Lawful() && env.tables.KeysUnique()
    requires OfOrganization(env, p, documents)
    modifies db`queries
    ensures listing == ListOutcome(env, resolver, db.now, p, documents)
    ensures db.queries == old(db.queries) + (if listing.Refused? then 0 else ListQueries(env, p, documents))
  {
    if p.organizationId == None {
      return Refused;
    }
    var user, org := env.codec.parse(p.userId), env.codec.parse(p.organizationId.value);
    if user == None || org == None {
      return Refused;
    }
    if exists role <- p.roles :: role in ADMIN_ROLES {
      return Listed(documents);
    }
    var accessible := resolver(org.value, user.value, p.roles);
    var contexts := BuildDocumentContextsBatch(db, documents, org.value, accessible);
    var kept := FilterForPrincipal(env, db, p, List, contexts);
    RowsKnownById(env.tables, documents);
    ListAgreesWithDetail(env, resolver, db.now, p, org.value, documents, documents, List);
    return Listed(WithIdIn(env.codec, documents, KeptIds(kept)));
  }

  lemma {:induction false} FilterKeeps(ask: Ask, resources: seq<Resource>, r: Resource)
    ensures r in FilterAccessible(ask, resources, "") <==> r in resources && Decide(ask.About(r), "").allowed
  {
    if resources == [] {
    } else {
      FilterKeeps(ask, resources[1..], r);
    }
  }

  /** An identifier survives the filter exactly when the document that carries it is allowed. */
  lemma IdKept(env: Env, resolver: CollectionResolver, now: int, p: Principal, organizationId: Uuid,
               all: seq<DocumentRow>, document: DocumentRow, action: Action)
    requires env.codec.Lawful() && document in all
    requires forall a <- all, b <- all :: a.id == b.id ==> a == b
    ensures var contexts := DocumentContexts(env.tables, env.codec, now, organizationId, all,
                                             AccessibleCollections(env, resolver, organizationId, p));
            env.codec.text(document.id) in KeptIds(FilterAccessible(Ask(env.rolePermissions, SubjectOf(env, p), action), contexts, ""))
            <==> FullDecision(env, resolver, now, p, organizationId, document, action).allowed
  {
    var ask := Ask(env.rolePermissions, SubjectOf(env, p), action);
    var accessible := AccessibleCollections(env, resolver, organizationId, p);
    var contexts := DocumentContexts(env.tables, env.codec, now, organizationId, all, accessible);
    var kept := FilterAccessible(ask, contexts, "");
    var own := DocumentContext(env.tables, env.codec, now, organizationId, document, accessible);
    var i :| 0 <= i < |all| && all[i] == document;
    assert contexts[i] == own;
    FilterKeeps(ask, contexts, own);
    if env.codec.text(document.id) in KeptIds(kept) {
      var r :| r in kept && r.resourceId == Some(env.codec.text(document.id));
      FilterKeeps(ask, contexts, r);
      var j :| 0 <= j < |contexts| && contexts[j] == r;
      assert env.codec.parse(env.codec.text(all[j].id)) == Some(all[j].id);
      assert env.codec.parse(env.codec.text(document.id)) == Some(document.id);
      assert all[j] in all;
    }
  }

  lemma {:induction false} ListAgreesWithDetail(env: Env, resolver: CollectionResolver, now: int, p: Principal, organizationId: Uuid,
                                                all: seq<DocumentRow>, documents: seq<DocumentRow>, action: Action)
    requires env.codec.Lawful()
    requires forall a <- all, b <- all :: a.id == b.id ==> a == b
    requires forall d <- documents :: d in all
    ensures var contexts := DocumentContexts(env.tables, env.codec, now, organizationId, all,
                                             AccessibleCollections(env, resolver, organizationId, p));
            var kept := FilterAccessible(Ask(env.rolePermissions, SubjectOf(env, p), action), contexts, "");
            WithIdIn(env.codec, documents, KeptIds(kept)) == VisibleDocuments(env, resolver, now, p, organizationId, documents, action)
  {
    if documents == [] {
    } else {
      IdKept(env, resolver, now, p, organizationId, all, documents[0], action);
      ListAgreesWithDetail(env, resolver, now, p, organizationId, all, documents[1..], action);
    }
  }

  // ---------------------------------------------------------------------------------------------
  // The list against the guard
  // ---------------------------------------------------------------------------------------------

  /** Listing a document and viewing it need the same permission and are subject to the same rules. */
  lemma ListAndViewAlike(env: Env, resolver: CollectionResolver, now: int, p: Principal, organizationId: Uuid, document: DocumentRow)
    ensures FullDecision(env, resolver, now, p, organizationId, document, List).allowed
         == FullDecision(env, resolver, now, p, organizationId, document, View).allowed
  {
    var accessible := AccessibleCollections(env, resolver, organizationId, p);
    var context := DocumentContext(env.tables, env.codec, now, organizationId, document, accessible);
    var list := Query(env.rolePermissions, SubjectOf(env, p), List, context);
    var view := list.(action := View);
    AllowedMeansMayAccess(list);
    AllowedMeansMayAccess(view);
    DecideAgreesWithIsAllowed(list, "");
    DecideAgreesWithIsAllowed(view, "");
    MayListMayView(list, view);
  }

  lemma MayListMayView(list: Query, view: Query)
    requires list.action == List && view == list.(action := View) && list.resource.resourceType == Document
    requires list.subject.resourceGrants == [] && list.subject.resourceDenies == [] && list.resource.explicitDenies == []
    ensures MayAccess(list) == MayAccess(view)
  {
    assert CollectionsDecide(list) == CollectionsDecide(view);
    assert RoleAllowed(list) == RoleAllowed(view);
  }

  lemma {:induction false} VisibleExact(env: Env, resolver: CollectionResolver, now: int, p: Principal, organizationId: Uuid,
                                        documents: seq<DocumentRow>, action: Action, d: DocumentRow)
    ensures d in VisibleDocuments(env, resolver, now, p, organizationId, documents, action) <==>
              d in documents && FullDecision(env, resolver, now, p, organizationId, d, action).allowed
  {
    if documents == [] {
    } else {
      VisibleExact(env, resolver, now, p, organizationId, documents[1..], action, d);
    }
  }

  /** The guard for one document would open this one for viewing. */
  predicate Opens(env: Env, resolver: CollectionResolver, now: int, enforce: bool, p: Principal, d: DocumentRow) {
    GuardOutcome(env, resolver, now, enforce, true, env.codec.text(d.id), p, View) == Granted(d)
  }

  /** For a document of the organization the guard opens it to admins, to whom it is allowed, or to all if not enforcing. */
  lemma OpensExactly(env: Env, resolver: CollectionResolver, now: int, enforce: bool, p: Principal, d: DocumentRow)
    requires env.codec.Lawful() && env.tables.KeysUnique()
    requires d in env.tables.documents
    requires p.organizationId.Some? && env.codec.parse(p.organizationId.value) == Some(d.organizationId)
    ensures Opens(env, resolver, now, enforce, p, d) <==>
              || HoldsAdminRole(p) || !enforce
              || FullDecision(env, resolver, now, p, d.organizationId, d, List).allowed
  {
    assert env.codec.parse(env.codec.text(d.id)) == Some(d.id);
    OwnDocumentFound(env.tables.documents, d);
    ListAndViewAlike(env, resolver, now, p, d.organizationId, d);
  }

  /** What is listed can be opened, whoever asks and whether decisions are enforced or not. */
  lemma ListedOpens(env: Env, resolver: CollectionResolver, now: int, enforce: bool, p: Principal, documents: seq<DocumentRow>, d: DocumentRow)
    requires env.codec.Lawful() && env.tables.KeysUnique() && OfOrganization(env, p, documents)
    ensures var listing := ListOutcome(env, resolver, now, p, documents);
            listing.Listed? && d in listing.documents ==> d in documents && Opens(env, resolver, now, enforce, p, d)
  {
    var listing := ListOutcome(env, resolver, now, p, documents);
    if listing.Listed? && d in listing.documents {
      if !HoldsAdminRole(p) {
        VisibleExact(env, resolver, now, p, env.codec.parse(p.organizationId.value).value, documents, List, d);
      }
      OpensExactly(env, resolver, now, enforce, p, d);
    }
  }

  /**
   * The list shows exactly the documents that can be opened if and only if decisions are enforced, or the principal
   * is an admin, or there is nothing to deny: the list is filtered whether decisions are enforced or not.
   */
  lemma ListMatchesGuardExactly(env: Env, resolver: CollectionResolver, now: int, enforce: bool, p: Principal, documents: seq<DocumentRow>)
    requires env.codec.Lawful() && env.tables.KeysUnique() && OfOrganization(env, p, documents)
    requires ListOutcome(env, resolver, now, p, documents).Listed?
    ensures var listed := ListOutcome(env, resolver, now, p, documents).documents;
            (forall d <- documents :: d in listed <==> Opens(env, resolver, now, enforce, p, d)) <==>
              (|| enforce || HoldsAdminRole(p)
               || forall d <- documents :: FullDecision(env, resolver, now, p, d.organizationId, d, View).allowed)
  {
    var org := env.codec.parse(p.organizationId.value).value;
    var listed := ListOutcome(env, resolver, now, p, documents).documents;
    forall d | d in documents
      ensures d in listed <==> HoldsAdminRole(p) || FullDecision(env, resolver, now, p, org, d, View).allowed
      ensures Opens(env, resolver, now, enforce, p, d) <==>
                HoldsAdminRole(p) || !enforce || FullDecision(env, resolver, now, p, org, d, View).allowed
      ensures d.organizationId == org
    {
      ListAndViewAlike(env, resolver, now, p, org, d);
      OpensExactly(env, resolver, now, enforce, p, d);
      VisibleExact(env, resolver, now, p, org, documents, List, d);
    }
  }
}
