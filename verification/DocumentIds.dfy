/** Checking that a caller may use every document of a list of identifiers. */
module DocumentIds {
  import opened Wrappers
  import opened Lists
  import opened Database
  import opened Authorization

  datatype AccessError = NoDocument | NoOrganizationContext

  /** The document exists in the organization, and the connector behind it, if any, still serves it. */
  predicate Usable(tables: Tables, organizationId: Uuid, id: Uuid) {
    var document := FindDocument(tables, id, organizationId);
    && document.Some?
    && (document.value.externalItemId.Some? ==>
          exists item <- tables.externalItems, connection <- tables.connections ::
            && item.id == document.value.externalItemId.value
            && item.organizationId == organizationId
            && item.deletedAt.None?
            && item.connectionId == Some(connection.id)
            && connection.status == "active")
  }

  function ParseAll(codec: UuidCodec, texts: seq<string>): seq<Uuid>
    requires forall t <- texts :: codec.parse(t).Some?
  {
    seq<Uuid>(|texts|, i requires 0 <= i < |texts| => codec.parse(texts[i]).value)
  }

  /** The identifiers without repetitions, or the first reason for which the list is refused. */
  ghost function Checked(env: Env, p: Principal, texts: seq<string>): Result<seq<Uuid>, AccessError> {
    if exists t <- texts :: env.codec.parse(t).None? then Failure(NoDocument)
    else
      var ids := Dedup(ParseAll(env.codec, texts));
      if ids == [] then Success([])
      else if p.organizationId.None? || env.codec.parse(p.organizationId.value).None? then Failure(NoOrganizationContext)
      else if exists id <- ids :: !Usable(env.tables, env.codec.parse(p.organizationId.value).value, id) then Failure(NoDocument)
      else Success(ids)
  }

  method EnsureDocumentIdsAccess(env: Env, p: Principal, texts: seq<string>) returns (r: Result<seq<Uuid>, AccessError>)
    requires env.tables.KeysUnique()
    ensures r == Checked(env, p, texts)
  {
    var ids: seq<Uuid> := [];
    var seen: set<Uuid> := {};
    for i := 0 to |texts|
      invariant forall j | 0 <= j < i :: env.codec.parse(texts[j]).Some?
      invariant ids == Dedup(ParseAll(env.codec, texts[..i]))
      invariant seen == set id | id in ids
    {
      var parsed := env.codec.parse(texts[i]);
      if parsed == None {
        assert texts[i] in texts;
        return Failure(NoDocument);
      }
      assert ParseAll(env.codec, texts[..i + 1])[..i] == ParseAll(env.codec, texts[..i]);
      if parsed.value in seen {
        continue;
      }
      seen := seen + {parsed.value};
      ids := ids + [parsed.value];
    }
    assert texts[..|texts|] == texts;
    if ids == [] {
      return Success([]);
    }
    if p.organizationId == None || env.codec.parse(p.organizationId.value) == None {
      return Failure(NoOrganizationContext);
    }
    var org := env.codec.parse(p.organizationId.value).value;
    for i := 0 to |ids|
      invariant forall j | 0 <= j < i :: Usable(env.tables, org, ids[j])
    {
      var document := FindDocument(env.tables, ids[i], org);
      if document == None {
        assert ids[i] in ids;
        return Failure(NoDocument);
      }
      if document.value.externalItemId != None {
        var row := FirstJoined(env.tables, org, document.value.externalItemId.value);
        if row == None || row.value.0 != None || row.value.1 != "active" {
          assert !Usable(env.tables, org, ids[i]);
          assert ids[i] in ids;
          return Failure(NoDocument);
        }
      }
    }
    return Success(ids);
  }

  /** The first row of the join of external items and connections for one item. */
  method FirstJoined(tables: Tables, organizationId: Uuid, itemId: Uuid) returns (row: Option<(Option<int>, string)>)
    requires tables.KeysUnique()
    ensures (row.Some? && row.value.0.None? && row.value.1 == "active") <==>
              exists item <- tables.externalItems, connection <- tables.connections ::
                && item.id == itemId && item.organizationId == organizationId && item.deletedAt.None?
                && item.connectionId == Some(connection.id) && connection.status == "active"
  {
    for i := 0 to |tables.externalItems|
      invariant forall k | 0 <= k < i ::
        !(tables.externalItems[k].id == itemId && tables.externalItems[k].organizationId == organizationId
          && exists connection <- tables.connections :: tables.externalItems[k].connectionId == Some(connection.id))
    {
      var item := tables.externalItems[i];
      if item.id == itemId && item.organizationId == organizationId {
        for j := 0 to |tables.connections|
          invariant forall k | 0 <= k < j :: item.connectionId != Some(tables.connections[k].id)
        {
          if item.connectionId == Some(tables.connections[j].id) {
            assert item in tables.externalItems && tables.connections[j] in tables.connections;
            return Some((item.deletedAt, tables.connections[j].status));
          }
        }
      }
    }
    return None;
  }

  /** An accepted list has no repetitions, keeps the order of first mention, and mentions what was asked for. */
  lemma AcceptedListExact(env: Env, p: Principal, texts: seq<string>)
    requires Checked(env, p, texts).Success?
    ensures var ids := Checked(env, p, texts).value;
            && Distinct(ids)
            && (forall t <- texts :: env.codec.parse(t).Some? && env.codec.parse(t).value in ids)
            && (forall id <- ids :: exists t <- texts :: env.codec.parse(t) == Some(id))
            && InFirstAppearanceOrder(ids, ParseAll(env.codec, texts))
            && (ids != [] ==>
                  && p.organizationId.Some? && env.codec.parse(p.organizationId.value).Some?
                  && (forall id <- ids :: Usable(env.tables, env.codec.parse(p.organizationId.value).value, id)))
  {
    var parsed := ParseAll(env.codec, texts);
    DedupExact(parsed);
    forall t | t in texts ensures env.codec.parse(t).value in Dedup(parsed) {
      var i :| 0 <= i < |texts| && texts[i] == t;
      assert parsed[i] == env.codec.parse(t).value;
    }
    forall id | id in Dedup(parsed) ensures exists t <- texts :: env.codec.parse(t) == Some(id) {
      var i :| 0 <= i < |parsed| && parsed[i] == id;
      assert texts[i] in texts;
    }
  }
}
