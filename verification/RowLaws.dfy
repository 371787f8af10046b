/**
 * Access told from the rows of the database: which rows make up a context and a subject, which documents the guard
 * opens, and when a document may be used. The statements name the columns themselves and none of the functions
 * that the builders and the guard are specified with.
 */
module RowLaws {
  import opened Wrappers
  import opened Database
  import opened Policy
  import opened PolicyTheorems
  import opened Permissions
  import opened ContextBuilder
  import opened Authorization
  import opened DecisionLaws
  import opened TextLaws
  import Text

  // ---------------------------------------------------------------------------------------------
  // The context of a document
  // ---------------------------------------------------------------------------------------------

  /** A row of the grant or deny table that is in force for a user and a document. */
  ghost predicate InForce(row: AccessRow, codec: UuidCodec, now: int, organizationId: Uuid, document: DocumentRow, user: string) {
    && row.organizationId == organizationId
    && row.resourceType == "document"
    && row.resourceId == Some(codec.text(document.id))
    && row.status == "active"
    && row.principalType == "user"
    && row.userId.Some? && codec.text(row.userId.value) == user
    && (row.expiresAt == None || row.expiresAt.value > now)
  }

  lemma ListedUsers(table: seq<AccessRow>, codec: UuidCodec, now: int, organizationId: Uuid, document: DocumentRow, user: string)
    ensures user in Column(table, UserOf(codec, organizationId, "document", codec.text(document.id), now))
        <==> exists row <- table :: InForce(row, codec, now, organizationId, document, user)
  {
    var select := UserOf(codec, organizationId, "document", codec.text(document.id), now);
    ColumnMembers(table, select, user);
    forall row | row in table
      ensures select(row) == Some(user) <==> InForce(row, codec, now, organizationId, document, user)
    {
    }
  }

  /** Exactly the users with a row in force are denied, and exactly those with a grant in force are allowed. */
  lemma ExplicitUsers(tables: Tables, codec: UuidCodec, now: int, organizationId: Uuid, document: DocumentRow, accessible: seq<string>, user: string)
    ensures var context := DocumentContext(tables, codec, now, organizationId, document, accessible);
            && (user in context.explicitDenyUserIds <==>
                  exists row <- tables.denies :: InForce(row, codec, now, organizationId, document, user))
            && (user in context.explicitAllowUserIds <==>
                  exists row <- tables.grants :: InForce(row, codec, now, organizationId, document, user))
  {
    ListedUsers(tables.denies, codec, now, organizationId, document, user);
    ListedUsers(tables.grants, codec, now, organizationId, document, user);
  }

  /** The collections of a document are those that some row puts it into. */
  lemma CollectionsOf(tables: Tables, codec: UuidCodec, now: int, organizationId: Uuid, document: DocumentRow, accessible: seq<string>, collection: string)
    ensures collection in DocumentContext(tables, codec, now, organizationId, document, accessible).collectionIds <==>
              exists row <- tables.collectionDocuments :: row.documentId == document.id && codec.text(row.collectionId) == collection
  {
    var select := CollectionOf(codec, document.id);
    ColumnMembers(tables.collectionDocuments, select, collection);
    forall row | row in tables.collectionDocuments
      ensures select(row) == Some(collection) <==> row.documentId == document.id && codec.text(row.collectionId) == collection
    {
    }
  }

  /** The connection of the external item behind the document. */
  ghost predicate Connects(item: ExternalItemRow, document: DocumentRow, connection: Uuid) {
    document.externalItemId == Some(item.id) && item.connectionId == Some(connection)
  }

  lemma ConnectionOnRows(tables: Tables, document: DocumentRow, connection: Uuid)
    requires tables.KeysUnique()
    ensures ConnectionOf(tables, document) == Some(connection) <==>
              exists item <- tables.externalItems :: Connects(item, document, connection)
  {
    if document.externalItemId.Some? {
      var id := document.externalItemId.value;
      var found := Column(tables.externalItems, ItemConnection(id));
      AtMostOneItem(tables.externalItems, id);
      ColumnMembers(tables.externalItems, ItemConnection(id), Some(connection));
      forall item | item in tables.externalItems
        ensures ItemConnection(id)(item) == Some(Some(connection)) <==> Connects(item, document, connection)
      {
      }
      assert found != [] ==> found == [found[0]];
    }
  }

  /** An active row that allows a user on a connection. */
  ghost predicate Allows(row: AclRow, codec: UuidCodec, organizationId: Uuid, connection: Uuid, user: string) {
    && row.organizationId == organizationId
    && row.connectionId == Some(connection)
    && row.effect == "allow"
    && row.isActive
    && row.principalType == "user"
    && row.userId.Some? && codec.text(row.userId.value) == user
  }

  lemma AclUsersOnRows(tables: Tables, codec: UuidCodec, organizationId: Uuid, connection: Uuid, user: string)
    ensures user in Column(tables.acls, AclUser(codec, organizationId, connection)) <==>
              exists row <- tables.acls :: Allows(row, codec, organizationId, connection, user)
  {
    var select := AclUser(codec, organizationId, connection);
    ColumnMembers(tables.acls, select, user);
    forall row | row in tables.acls
      ensures select(row) == Some(user) <==> Allows(row, codec, organizationId, connection, user)
    {
    }
  }

  ghost predicate ConnectorAllows(tables: Tables, codec: UuidCodec, organizationId: Uuid, document: DocumentRow, user: string) {
    exists item <- tables.externalItems, row <- tables.acls, connection: Uuid ::
      Connects(item, document, connection) && Allows(row, codec, organizationId, connection, user)
  }

  /** The connector of a document and the users it allows. */
  lemma ConnectorOnRows(tables: Tables, codec: UuidCodec, now: int, organizationId: Uuid, document: DocumentRow, accessible: seq<string>, user: string)
    requires tables.KeysUnique()
    ensures var context := DocumentContext(tables, codec, now, organizationId, document, accessible);
            && (context.connectorId != None <==>
                  exists item <- tables.externalItems, connection: Uuid :: Connects(item, document, connection))
            && (forall item <- tables.externalItems, connection: Uuid | Connects(item, document, connection) ::
                  context.connectorId == Some(codec.text(connection)))
            && (user in context.connectorAllowedUserIds <==> ConnectorAllows(tables, codec, organizationId, document, user))
  {
    forall connection: Uuid
      ensures ConnectionOf(tables, document) == Some(connection) <==>
                exists item <- tables.externalItems :: Connects(item, document, connection)
    {
      ConnectionOnRows(tables, document, connection);
    }
    var connection := ConnectionOf(tables, document);
    if connection.Some? {
      AclUsersOnRows(tables, codec, organizationId, connection.value, user);
      var item :| item in tables.externalItems && Connects(item, document, connection.value);
      if user in Column(tables.acls, AclUser(codec, organizationId, connection.value)) {
        var row :| row in tables.acls && Allows(row, codec, organizationId, connection.value, user);
        assert ConnectorAllows(tables, codec, organizationId, document, user);
      }
    }
  }

  /** What of a context does not depend on other tables. */
  lemma ContextIdentifies(tables: Tables, codec: UuidCodec, now: int, organizationId: Uuid, document: DocumentRow, accessible: seq<string>)
    ensures var context := DocumentContext(tables, codec, now, organizationId, document, accessible);
            && context.resourceType == Document
            && context.resourceId == Some(codec.text(document.id))
            && context.organizationId == Some(codec.text(organizationId))
            && (context.ownerUserId == None <==> document.uploadedBy == None)
            && (document.uploadedBy.Some? ==> context.ownerUserId == Some(codec.text(document.uploadedBy.value)))
            && context.subjectAccessibleCollectionIds == accessible
            && !context.isSystemResource && context.featureEnabled == None && context.explicitDenies == []
  {
  }

  // ---------------------------------------------------------------------------------------------
  // The permissions of a principal
  // ---------------------------------------------------------------------------------------------

  ghost predicate RoleGrants(rolePermissions: map<string, set<Permission>>, role: string, permission: Permission) {
    role in rolePermissions && permission in rolePermissions[role]
  }

  ghost predicate CustomRoleGrants(env: Env, id: Uuid, permission: Permission) {
    || (exists row <- env.tables.customRolePermissions :: row.customRoleId == id && row.permission == permission)
    || (exists role <- env.tables.customRoles ::
          role.id == id && role.baseRole.Some? && role.baseRole.value != ""
          && RoleGrants(env.rolePermissions, role.baseRole.value, permission))
  }

  /** The row of the principal's own membership, when both identifiers are usable. */
  ghost predicate IsMembership(env: Env, p: Principal, member: MemberRow) {
    && p.organizationId.Some? && p.organizationId.value != ""
    && env.codec.parse(p.organizationId.value) == Some(member.organizationId)
    && env.codec.parse(p.userId) == Some(member.userId)
  }

  ghost predicate MemberHolds(env: Env, p: Principal, permission: Permission) {
    || (exists role <- p.roles :: RoleGrants(env.rolePermissions, role, permission))
    || (exists member <- env.tables.members ::
          IsMembership(env, p, member) && member.customRoleId.Some? && CustomRoleGrants(env, member.customRoleId.value, permission))
  }

  ghost predicate PrincipalHolds(env: Env, p: Principal, permission: Permission) {
    if p.apiKeyPermissions.Some? then permission in p.apiKeyPermissions.value else MemberHolds(env, p, permission)
  }

  lemma CustomRoleOnRows(env: Env, p: Principal, id: Uuid)
    requires env.tables.KeysUnique()
    ensures CustomRoleOf(env, p) == Some(id) <==>
              exists member <- env.tables.members :: IsMembership(env, p, member) && member.customRoleId == Some(id)
  {
    if p.organizationId.Some? && p.organizationId.value != ""
       && env.codec.parse(p.organizationId.value).Some? && env.codec.parse(p.userId).Some?
    {
      var org, user := env.codec.parse(p.organizationId.value).value, env.codec.parse(p.userId).value;
      var found := Column(env.tables.members, MemberRole(org, user));
      AtMostOneMember(env.tables.members, org, user);
      ColumnMembers(env.tables.members, MemberRole(org, user), Some(id));
      forall member | member in env.tables.members
        ensures MemberRole(org, user)(member) == Some(Some(id)) <==> IsMembership(env, p, member) && member.customRoleId == Some(id)
      {
      }
      assert found != [] ==> found == [found[0]];
    }
  }

  lemma UserPermissionsOnRows(env: Env, roles: seq<string>, customRoleId: Option<Uuid>, permission: Permission)
    ensures permission in UserPermissions(env.rolePermissions, env.tables, roles, customRoleId) <==>
              || (exists role <- roles :: RoleGrants(env.rolePermissions, role, permission))
              || (customRoleId.Some? && CustomRoleGrants(env, customRoleId.value, permission))
  {
    assert forall role :: role in RoleSet(roles) <==> role in roles;
    if customRoleId.Some? {
      var id := customRoleId.value;
      forall role
        ensures role in BaseRoles(env.tables, id) <==>
                  exists row <- env.tables.customRoles :: row.id == id && row.baseRole == Some(role) && role != ""
      {
      }
      RoleUnionAdds(env.rolePermissions, RoleSet(roles), BaseRoles(env.tables, id));
    }
  }

  /** A principal's subject holds exactly the permissions that the rows give. */
  lemma PermissionsOnRows(env: Env, p: Principal, permission: Permission)
    requires env.tables.KeysUnique()
    ensures permission in SubjectOf(env, p).resolvedPermissions <==> PrincipalHolds(env, p, permission)
  {
    if p.apiKeyPermissions.None? {
      UserPermissionsOnRows(env, p.roles, CustomRoleOf(env, p), permission);
      if CustomRoleOf(env, p).Some? {
        CustomRoleOnRows(env, p, CustomRoleOf(env, p).value);
      }
      forall member | member in env.tables.members && IsMembership(env, p, member) && member.customRoleId.Some?
        ensures CustomRoleOf(env, p) == member.customRoleId
      {
        CustomRoleOnRows(env, p, member.customRoleId.value);
      }
    }
  }

  /** The rest of a subject: who it is, and roles for members only. */
  lemma SubjectIdentifies(env: Env, p: Principal)
    ensures var s := SubjectOf(env, p);
            && s.userId == p.userId && s.organizationId == p.organizationId && (s.isApiKey <==> p.apiKeyPermissions.Some?)
            && (forall role :: role in s.roles <==> role in p.roles && p.apiKeyPermissions == None)
            && s.resourceGrants == [] && s.resourceDenies == []
            && s.accessibleCollectionIds == {} && s.connectorAclItemIds == {}
  {
  }

  /**
   * What require_permission asks for: each text that is not blank, without its white space, has to be held by the
   * principal. Nothing else is asked.
   */
  lemma RequirementOnRows(env: Env, p: Principal, required: seq<string>)
    requires env.tables.KeysUnique()
    ensures NormalizedPermissions(required) <= SubjectOf(env, p).resolvedPermissions <==>
              forall i, core | 0 <= i < |required| && core != "" && CoreOf(required[i], core) :: PrincipalHolds(env, p, core)
  {
    var held := SubjectOf(env, p).resolvedPermissions;
    forall i, core | 0 <= i < |required| && core != ""
      ensures CoreOf(required[i], core) <==> core == Text.Strip(required[i])
    {
      StripIsCore(required[i], core);
    }
    forall core: string ensures core in held <==> PrincipalHolds(env, p, core) {
      PermissionsOnRows(env, p, core);
    }
    NormalizedInside(required, held);
  }

  lemma NormalizedInside(required: seq<string>, held: set<string>)
    ensures NormalizedPermissions(required) <= held <==>
              forall i | 0 <= i < |required| && Text.Strip(required[i]) != "" :: Text.Strip(required[i]) in held
  {
    forall i | 0 <= i < |required| && Text.Strip(required[i]) != ""
      ensures Text.Strip(required[i]) in NormalizedPermissions(required)
    {
      assert required[i] in required;
    }
  }
}
