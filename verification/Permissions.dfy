/** Resolving the permissions of a user from built-in roles and an optional custom role. */
module Permissions {
  import opened Wrappers
  import opened Database
  import opened Policy

  function RoleSet(roles: seq<string>): set<string> {
    set role | role in roles
  }

  function CustomRolePermissions(tables: Tables, customRoleId: Uuid): set<Permission> {
    set row | row in tables.customRolePermissions && row.customRoleId == customRoleId :: row.permission
  }

  /** The built-in roles a custom role builds on: none or one, since role ids are unique. */
  function BaseRoles(tables: Tables, customRoleId: Uuid): set<string> {
    set row | row in tables.customRoles && row.id == customRoleId && row.baseRole.Some? && row.baseRole.value != "" :: row.baseRole.value
  }

  /** Everything a user may do: what the roles grant, what the custom role lists, what its base role grants. */
  function UserPermissions(rolePermissions: map<string, set<Permission>>, tables: Tables, roles: seq<string>, customRoleId: Option<Uuid>)
    : set<Permission>
  {
    match customRoleId
    case None => RoleUnion(rolePermissions, RoleSet(roles))
    case Some(id) =>
      RoleUnion(rolePermissions, RoleSet(roles) + BaseRoles(tables, id)) + CustomRolePermissions(tables, id)
  }

  lemma RoleUnionAdds(rolePermissions: map<string, set<Permission>>, a: set<string>, b: set<string>)
    ensures RoleUnion(rolePermissions, a + b) == RoleUnion(rolePermissions, a) + RoleUnion(rolePermissions, b)
  {
  }

  lemma RoleUnionOne(rolePermissions: map<string, set<Permission>>, role: string)
    ensures RoleUnion(rolePermissions, {role}) == Lookup(rolePermissions, role, {})
  {
  }

  method GetBuiltinPermissions(rolePermissions: map<string, set<Permission>>, roles: seq<string>) returns (permissions: set<Permission>)
    ensures permissions == RoleUnion(rolePermissions, RoleSet(roles))
  {
    permissions := {};
    for i := 0 to |roles|
      invariant permissions == RoleUnion(rolePermissions, RoleSet(roles[..i]))
    {
      var perms := Lookup(rolePermissions, roles[i], {});
      if perms != {} {
        permissions := permissions + perms;
      }
      assert RoleSet(roles[..i + 1]) == RoleSet(roles[..i]) + {roles[i]};
      RoleUnionAdds(rolePermissions, RoleSet(roles[..i]), {roles[i]});
      RoleUnionOne(rolePermissions, roles[i]);
    }
    assert roles[..|roles|] == roles;
  }

  method GetUserPermissions(rolePermissions: map<string, set<Permission>>, db: DbSession, roles: seq<string>, customRoleId: Option<Uuid>)
    returns (permissions: set<Permission>)
    requires db.tables.KeysUnique()
    modifies db`queries
    ensures permissions == UserPermissions(rolePermissions, db.tables, roles, customRoleId)
    ensures db.queries == old(db.queries) + (if customRoleId.Some? then 2 else 0)
  {
    var tables := db.tables;
    permissions := GetBuiltinPermissions(rolePermissions, roles);
    if customRoleId != None {
      var id := customRoleId.value;
      var builtin := permissions;
      db.queries := db.queries + 1;
      permissions := AddCustomRows(permissions, tables.customRolePermissions, id);
      assert permissions == builtin + CustomRolePermissions(tables, id);
      db.queries := db.queries + 1;
      var baseRole := BaseRole(tables, id);
      RoleUnionAdds(rolePermissions, RoleSet(roles), BaseRoles(tables, id));
      if baseRole != None && baseRole.value != "" {
        assert BaseRoles(tables, id) == {baseRole.value};
        RoleUnionOne(rolePermissions, baseRole.value);
        var basePerms := Lookup(rolePermissions, baseRole.value, {});
        if basePerms != {} {
          permissions := permissions + basePerms;
        }
      } else {
        assert BaseRoles(tables, id) == {};
      }
    }
  }

  method AddCustomRows(start: set<Permission>, rows: seq<CustomRolePermissionRow>, customRoleId: Uuid) returns (permissions: set<Permission>)
    ensures permissions == start + set row | row in rows && row.customRoleId == customRoleId :: row.permission
  {
    permissions := start;
    for i := 0 to |rows|
      invariant permissions == start + set row | row in rows[..i] && row.customRoleId == customRoleId :: row.permission
    {
      if rows[i].customRoleId == customRoleId {
        permissions := permissions + {rows[i].permission};
      }
      assert rows[..i + 1] == rows[..i] + [rows[i]];
    }
    assert rows[..|rows|] == rows;
  }

  /** SELECT base_role ... scalar_one_or_none(): the base role of the one row with this id, if any. */
  method BaseRole(tables: Tables, customRoleId: Uuid) returns (baseRole: Option<string>)
    requires tables.KeysUnique()
    ensures baseRole.Some? ==> exists row <- tables.customRoles :: row.id == customRoleId && row.baseRole == baseRole
    ensures forall row <- tables.customRoles :: row.id == customRoleId ==> row.baseRole == baseRole
  {
    for i := 0 to |tables.customRoles|
      invariant forall j | 0 <= j < i :: tables.customRoles[j].id != customRoleId
    {
      if tables.customRoles[i].id == customRoleId {
        assert tables.customRoles[i] in tables.customRoles;
        return tables.customRoles[i].baseRole;
      }
    }
    return None;
  }
}
