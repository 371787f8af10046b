/** The rows the authorization code reads, and the shape of the queries it reads them with. */
module Database {
  import opened Wrappers

  /** A 128-bit identifier. */
  type Uuid = u: nat | u < 0x1_0000_0000_0000_0000_0000_0000_0000_0000

  /** str(uuid) and UUID(text); parsing may accept other spellings of an identifier than its canonical text. */
  datatype UuidCodec = UuidCodec(text: Uuid -> string, parse: string -> Option<Uuid>)
  {
    ghost predicate Lawful() {
      forall u: Uuid :: text(u) != "" && parse(text(u)) == Some(u)
    }
  }

  datatype CollectionDocumentRow = CollectionDocumentRow(collectionId: Uuid, documentId: Uuid)

  /** A row of the grant table or of the deny table. */
  datatype AccessRow = AccessRow(
    organizationId: Uuid, userId: Option<Uuid>, principalType: string, resourceType: string,
    resourceId: Option<string>, status: string, expiresAt: Option<int>)

  datatype AclRow = AclRow(
    organizationId: Uuid, connectionId: Option<Uuid>, userId: Option<Uuid>, effect: string,
    isActive: bool, principalType: string)

  datatype ExternalItemRow = ExternalItemRow(
    id: Uuid, connectionId: Option<Uuid>, organizationId: Uuid, deletedAt: Option<int>)

  datatype ConnectionRow = ConnectionRow(id: Uuid, status: string)

  datatype DocumentRow = DocumentRow(id: Uuid, organizationId: Uuid, uploadedBy: Option<Uuid>, externalItemId: Option<Uuid>)

  datatype MemberRow = MemberRow(organizationId: Uuid, userId: Uuid, customRoleId: Option<Uuid>)

  datatype CustomRolePermissionRow = CustomRolePermissionRow(customRoleId: Uuid, permission: string)

  datatype CustomRoleRow = CustomRoleRow(id: Uuid, baseRole: Option<string>)

  datatype Tables = Tables(
    collectionDocuments: seq<CollectionDocumentRow>, grants: seq<AccessRow>, denies: seq<AccessRow>,
    acls: seq<AclRow>, externalItems: seq<ExternalItemRow>, connections: seq<ConnectionRow>, documents: seq<DocumentRow>,
    members: seq<MemberRow>, customRolePermissions: seq<CustomRolePermissionRow>, customRoles: seq<CustomRoleRow>)
  {
    /** The primary keys and the one unique pair that single-row reads rely on. */
    ghost predicate KeysUnique() {
      && (forall i, j | 0 <= i < j < |externalItems| :: externalItems[i].id != externalItems[j].id)
      && (forall i, j | 0 <= i < j < |connections| :: connections[i].id != connections[j].id)
      && (forall i, j | 0 <= i < j < |documents| :: documents[i].id != documents[j].id)
      && (forall i, j | 0 <= i < j < |members| ::
            members[i].organizationId != members[j].organizationId || members[i].userId != members[j].userId)
      && (forall i, j | 0 <= i < j < |customRoles| :: customRoles[i].id != customRoles[j].id)
    }
  }

  /** One database session: fixed tables read at one fixed time, and a count of the queries issued. */
  class DbSession {
    const tables: Tables
    const codec: UuidCodec
    const now: int
    var queries: nat

    constructor (tables: Tables, codec: UuidCodec, now: int)
      ensures this.tables == tables && this.codec == codec && this.now == now && queries == 0
    {
      this.tables, this.codec, this.now, queries := tables, codec, now, 0;
    }
  }

  /** SELECT: in table order, the value each selected row contributes. */
  function Column<T, V>(rows: seq<T>, select: T -> Option<V>): (values: seq<V>)
    ensures |values| <= |rows|
  {
    if rows == [] then []
    else
      var last := |rows| - 1;
      var before := Column(rows[..last], select);
      if select(rows[last]).Some? then before + [select(rows[last]).value] else before
  }

  /** What is selected from rows put together is what is selected from each part, in order and with multiplicity. */
  lemma {:induction false} ColumnDistributes<T, V>(a: seq<T>, b: seq<T>, select: T -> Option<V>)
    ensures Column(a + b, select) == Column(a, select) + Column(b, select)
  {
    if b == [] {
      assert a + b == a;
    } else {
      var last := |b| - 1;
      ColumnDistributes(a, b[..last], select);
      assert (a + b)[..|a + b| - 1] == a + b[..last];
    }
  }

  /** One row contributes its value if it is selected and nothing otherwise. */
  lemma ColumnOfOne<T, V>(row: T, select: T -> Option<V>)
    ensures Column([row], select) == if select(row).Some? then [select(row).value] else []
  {
    assert [row][..0] == [];
  }

  /** A value is selected exactly when some row contributes it. */
  lemma {:induction false} ColumnMembers<T, V>(rows: seq<T>, select: T -> Option<V>, value: V)
    ensures value in Column(rows, select) <==> exists row <- rows :: select(row) == Some(value)
  {
    if rows == [] {
    } else {
      var last := |rows| - 1;
      ColumnMembers(rows[..last], select, value);
      assert rows == rows[..last] + [rows[last]];
    }
  }

  /** The second components of the pairs that carry the key, in order. */
  function ValuesFor(pairs: seq<(string, string)>, key: string): seq<string> {
    if pairs == [] then []
    else
      var last := |pairs| - 1;
      var before := ValuesFor(pairs[..last], key);
      if pairs[last].0 == key then before + [pairs[last].1] else before
  }

  /** mapping.setdefault(key, []).append(value), over all pairs. */
  method GroupPairs(pairs: seq<(string, string)>) returns (mapping: map<string, seq<string>>)
    ensures forall key :: Lookup(mapping, key, []) == ValuesFor(pairs, key)
  {
    mapping := map[];
    for i := 0 to |pairs|
      invariant forall key :: Lookup(mapping, key, []) == ValuesFor(pairs[..i], key)
    {
      var (key, value) := pairs[i];
      mapping := mapping[key := Lookup(mapping, key, []) + [value]];
      assert pairs[..i + 1][..i] == pairs[..i];
    }
    assert pairs[..|pairs|] == pairs;
  }

  /** A dict built from pairs: the last value for a key wins. */
  function DictOf(pairs: seq<(string, string)>): map<string, string> {
    if pairs == [] then map[]
    else var last := |pairs| - 1; DictOf(pairs[..last])[pairs[last].0 := pairs[last].1]
  }

  /**
   * Selecting many keys at once and then picking one key's group reads the same rows, in the same order,
   * as selecting that one key.
   */
  lemma {:induction false} GroupEqualsSelect<T>(rows: seq<T>, batch: T -> Option<(string, string)>, single: T -> Option<string>, key: string)
    requires forall row <- rows ::
      single(row) == if batch(row).Some? && batch(row).value.0 == key then Some(batch(row).value.1) else None
    ensures ValuesFor(Column(rows, batch), key) == Column(rows, single)
  {
    if rows == [] {
    } else {
      var last := |rows| - 1;
      GroupEqualsSelect(rows[..last], batch, single, key);
      assert rows[last] in rows;
      var before := Column(rows[..last], batch);
      if batch(rows[last]).Some? {
        assert (before + [batch(rows[last]).value])[..|before|] == before;
      }
    }
  }
}
