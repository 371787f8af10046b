/**
 * Building resource contexts from the database: one document at a time, or a whole list with a fixed number
 * of queries. `DocumentContext` says what the context of a document is; both builders are proved to produce it.
 */
module ContextBuilder {
  import opened Wrappers
  import opened Database
  import Policy

  // ---------------------------------------------------------------------------------------------
  // What each query selects
  // ---------------------------------------------------------------------------------------------

  function CollectionOf(codec: UuidCodec, documentId: Uuid): CollectionDocumentRow -> Option<string> {
    (row: CollectionDocumentRow) => if row.documentId == documentId then Some(codec.text(row.collectionId)) else None
  }

  function CollectionPair(codec: UuidCodec, documentIds: seq<Uuid>): CollectionDocumentRow -> Option<(string, string)> {
    (row: CollectionDocumentRow) =>
      if row.documentId in documentIds then Some((codec.text(row.documentId), codec.text(row.collectionId))) else None
  }

  predicate ActiveUserRow(row: AccessRow, organizationId: Uuid, resourceType: string, now: int) {
    && row.organizationId == organizationId
    && row.resourceType == resourceType
    && row.status == "active"
    && row.principalType == "user"
    && (row.expiresAt.None? || row.expiresAt.value > now)
  }

  function UserOf(codec: UuidCodec, organizationId: Uuid, resourceType: string, resourceId: string, now: int): AccessRow -> Option<string> {
    (row: AccessRow) =>
      if ActiveUserRow(row, organizationId, resourceType, now) && row.resourceId == Some(resourceId) && row.userId.Some?
      then Some(codec.text(row.userId.value)) else None
  }

  function UserPair(codec: UuidCodec, organizationId: Uuid, resourceType: string, resourceIds: seq<string>, now: int)
    : AccessRow -> Option<(string, string)>
  {
    (row: AccessRow) =>
      if && ActiveUserRow(row, organizationId, resourceType, now)
         && row.resourceId.Some? && row.resourceId.value in resourceIds
         && row.resourceId.value != "" && row.userId.Some?
      then Some((row.resourceId.value, codec.text(row.userId.value))) else None
  }

  predicate AllowingAclRow(row: AclRow, organizationId: Uuid) {
    row.organizationId == organizationId && row.effect == "allow" && row.isActive && row.principalType == "user"
  }

  function AclUser(codec: UuidCodec, organizationId: Uuid, connectionId: Uuid): AclRow -> Option<string> {
    (row: AclRow) =>
      if AllowingAclRow(row, organizationId) && row.connectionId == Some(connectionId) && row.userId.Some?
      then Some(codec.text(row.userId.value)) else None
  }

  function AclPair(codec: UuidCodec, organizationId: Uuid, connectionIds: set<Uuid>): AclRow -> Option<(string, string)> {
    (row: AclRow) =>
      if && AllowingAclRow(row, organizationId)
         && row.connectionId.Some? && row.connectionId.value in connectionIds && row.userId.Some?
      then Some((codec.text(row.connectionId.value), codec.text(row.userId.value))) else None
  }

  function ItemConnection(itemId: Uuid): ExternalItemRow -> Option<Option<Uuid>> {
    (row: ExternalItemRow) => if row.id == itemId then Some(row.connectionId) else None
  }

  function ItemPair(codec: UuidCodec, itemIds: seq<Uuid>): ExternalItemRow -> Option<(string, string)> {
    (row: ExternalItemRow) =>
      if row.id in itemIds && row.connectionId.Some?
      then Some((codec.text(row.id), codec.text(row.connectionId.value))) else None
  }

  // ---------------------------------------------------------------------------------------------
  // The context of one document, declaratively
  // ---------------------------------------------------------------------------------------------

  function OptionalText(codec: UuidCodec, id: Option<Uuid>): Option<string> {
    if id.Some? then Some(codec.text(id.value)) else None
  }

  /** The connection behind a document, if its external item exists and has one. */
  function ConnectionOf(tables: Tables, document: DocumentRow): Option<Uuid> {
    if document.externalItemId.None? then None
    else
      var found := Column(tables.externalItems, ItemConnection(document.externalItemId.value));
      if found == [] then None else found[0]
  }

  function DocumentContext(tables: Tables, codec: UuidCodec, now: int, organizationId: Uuid, document: DocumentRow,
                           accessible: seq<string>): Policy.Resource
  {
    var id := codec.text(document.id);
    var connection := ConnectionOf(tables, document);
    Policy.Resource(
      Policy.Document, Some(id), Some(codec.text(organizationId)), OptionalText(codec, document.uploadedBy),
      Column(tables.collectionDocuments, CollectionOf(codec, document.id)),
      OptionalText(codec, connection),
      Column(tables.denies, UserOf(codec, organizationId, "document", id, now)),
      Column(tables.grants, UserOf(codec, organizationId, "document", id, now)),
      if connection.None? then [] else Column(tables.acls, AclUser(codec, organizationId, connection.value)),
      accessible, false, None, [])
  }

  // ---------------------------------------------------------------------------------------------
  // The queries
  // ---------------------------------------------------------------------------------------------

  method GetCollectionIdsForDocument(db: DbSession, documentId: Uuid) returns (ids: seq<string>)
    modifies db`queries
    ensures db.queries == old(db.queries) + 1
    ensures ids == Column(db.tables.collectionDocuments, CollectionOf(db.codec, documentId))
  {
    db.queries := db.queries + 1;
    ids := Column(db.tables.collectionDocuments, CollectionOf(db.codec, documentId));
  }

  method BatchGetCollectionIds(db: DbSession, documentIds: seq<Uuid>) returns (mapping: map<string, seq<string>>)
    requires db.codec.Lawful()
    modifies db`queries
    ensures db.queries == old(db.queries) + (if documentIds == [] then 0 else 1)
    ensures forall id <- documentIds ::
      Lookup(mapping, db.codec.text(id), []) == Column(db.tables.collectionDocuments, CollectionOf(db.codec, id))
  {
    if documentIds == [] {
      return map[];
    }
    db.queries := db.queries + 1;
    var rows := Column(db.tables.collectionDocuments, CollectionPair(db.codec, documentIds));
    mapping := GroupPairs(rows);
    forall id | id in documentIds
      ensures ValuesFor(rows, db.codec.text(id)) == Column(db.tables.collectionDocuments, CollectionOf(db.codec, id))
    {
      CollectionGroup(db.tables.collectionDocuments, db.codec, documentIds, id);
    }
  }

  lemma CollectionGroup(rows: seq<CollectionDocumentRow>, codec: UuidCodec, documentIds: seq<Uuid>, id: Uuid)
    requires codec.Lawful() && id in documentIds
    ensures ValuesFor(Column(rows, CollectionPair(codec, documentIds)), codec.text(id)) == Column(rows, CollectionOf(codec, id))
  {
    forall row | row in rows
      ensures codec.text(row.documentId) == codec.text(id) <==> row.documentId == id
    {
      assert codec.parse(codec.text(row.documentId)) == Some(row.documentId);
      assert codec.parse(codec.text(id)) == Some(id);
    }
    GroupEqualsSelect(rows, CollectionPair(codec, documentIds), CollectionOf(codec, id), codec.text(id));
  }

  /** Explicit grants when given the grant table, explicit denies when given the deny table. */
  method BatchGetExplicit(db: DbSession, table: seq<AccessRow>, organizationId: Uuid, resourceType: string, resourceIds: seq<string>)
    returns (mapping: map<string, seq<string>>)
    modifies db`queries
    ensures db.queries == old(db.queries) + (if resourceIds == [] then 0 else 1)
    ensures forall id <- resourceIds | id != "" ::
      Lookup(mapping, id, []) == Column(table, UserOf(db.codec, organizationId, resourceType, id, db.now))
  {
    if resourceIds == [] {
      return map[];
    }
    db.queries := db.queries + 1;
    var rows := Column(table, UserPair(db.codec, organizationId, resourceType, resourceIds, db.now));
    mapping := GroupPairs(rows);
    forall id | id in resourceIds && id != ""
      ensures ValuesFor(rows, id) == Column(table, UserOf(db.codec, organizationId, resourceType, id, db.now))
    {
      GroupEqualsSelect(table, UserPair(db.codec, organizationId, resourceType, resourceIds, db.now),
                        UserOf(db.codec, organizationId, resourceType, id, db.now), id);
    }
  }

  method GetConnectorAclUserIds(db: DbSession, organizationId: Uuid, connectionId: Uuid) returns (ids: seq<string>)
    modifies db`queries
    ensures db.queries == old(db.queries) + 1
    ensures ids == Column(db.tables.acls, AclUser(db.codec, organizationId, connectionId))
  {
    db.queries := db.queries + 1;
    ids := Column(db.tables.acls, AclUser(db.codec, organizationId, connectionId));
  }

  method BatchGetConnectorAclUserIds(db: DbSession, organizationId: Uuid, connectionIds: set<Uuid>)
    returns (mapping: map<string, seq<string>>)
    requires db.codec.Lawful()
    modifies db`queries
    ensures db.queries == old(db.queries) + (if connectionIds == {} then 0 else 1)
    ensures forall id <- connectionIds ::
      Lookup(mapping, db.codec.text(id), []) == Column(db.tables.acls, AclUser(db.codec, organizationId, id))
  {
    if connectionIds == {} {
      return map[];
    }
    db.queries := db.queries + 1;
    var rows := Column(db.tables.acls, AclPair(db.codec, organizationId, connectionIds));
    mapping := GroupPairs(rows);
    forall id | id in connectionIds
      ensures ValuesFor(rows, db.codec.text(id)) == Column(db.tables.acls, AclUser(db.codec, organizationId, id))
    {
      AclGroup(db.tables.acls, db.codec, organizationId, connectionIds, id);
    }
  }

  lemma AclGroup(rows: seq<AclRow>, codec: UuidCodec, organizationId: Uuid, connectionIds: set<Uuid>, id: Uuid)
    requires codec.Lawful() && id in connectionIds
    ensures ValuesFor(Column(rows, AclPair(codec, organizationId, connectionIds)), codec.text(id))
         == Column(rows, AclUser(codec, organizationId, id))
  {
    forall row | row in rows && row.connectionId.Some?
      ensures codec.text(row.connectionId.value) == codec.text(id) <==> row.connectionId.value == id
    {
      assert codec.parse(codec.text(row.connectionId.value)) == Some(row.connectionId.value);
      assert codec.parse(codec.text(id)) == Some(id);
    }
    GroupEqualsSelect(rows, AclPair(codec, organizationId, connectionIds), AclUser(codec, organizationId, id), codec.text(id));
  }

  method GetConnectionIdForExternalItem(db: DbSession, itemId: Uuid) returns (connection: Option<Uuid>)
    requires db.tables.KeysUnique()
    modifies db`queries
    ensures db.queries == old(db.queries) + 1
    ensures var found := Column(db.tables.externalItems, ItemConnection(itemId));
            |found| <= 1 && connection == (if found == [] then None else found[0])
  {
    db.queries := db.queries + 1;
    var found := Column(db.tables.externalItems, ItemConnection(itemId));
    AtMostOneItem(db.tables.externalItems, itemId);
    connection := if found == [] then None else found[0];
  }

  lemma {:induction false} AtMostOneItem(rows: seq<ExternalItemRow>, itemId: Uuid)
    requires forall i, j | 0 <= i < j < |rows| :: rows[i].id != rows[j].id
    ensures |Column(rows, ItemConnection(itemId))| <= 1
    ensures Column(rows, ItemConnection(itemId)) == [] <==> forall row <- rows :: row.id != itemId
  {
    if rows == [] {
    } else {
      var last := |rows| - 1;
      AtMostOneItem(rows[..last], itemId);
      if rows[last].id == itemId {
        assert forall row <- rows[..last] :: row.id != itemId;
      }
    }
  }

  method BatchGetConnectionIds(db: DbSession, itemIds: seq<Uuid>) returns (mapping: map<string, string>)
    requires db.codec.Lawful() && db.tables.KeysUnique()
    modifies db`queries
    ensures db.queries == old(db.queries) + (if itemIds == [] then 0 else 1)
    ensures mapping == DictOf(Column(db.tables.externalItems, ItemPair(db.codec, itemIds)))
  {
    if itemIds == [] {
      NothingSelected(db.tables.externalItems, db.codec);
      return map[];
    }
    db.queries := db.queries + 1;
    mapping := DictOf(Column(db.tables.externalItems, ItemPair(db.codec, itemIds)));
  }

  lemma {:induction false} NothingSelected(rows: seq<ExternalItemRow>, codec: UuidCodec)
    ensures Column(rows, ItemPair(codec, [])) == []
  {
    if rows == [] {
    } else {
      NothingSelected(rows[..|rows| - 1], codec);
    }
  }

  /** The dict of connections holds for each item asked for exactly the connection that item has. */
  lemma {:induction false} ItemDict(rows: seq<ExternalItemRow>, codec: UuidCodec, itemIds: seq<Uuid>, itemId: Uuid)
    requires codec.Lawful() && itemId in itemIds
    requires forall i, j | 0 <= i < j < |rows| :: rows[i].id != rows[j].id
    ensures var found := Column(rows, ItemConnection(itemId));
            var dict := DictOf(Column(rows, ItemPair(codec, itemIds)));
            && (codec.text(itemId) in dict <==> found != [] && found[0].Some?)
            && (codec.text(itemId) in dict ==> dict[codec.text(itemId)] == codec.text(found[0].value))
  {
    if rows == [] {
    } else {
      var last := |rows| - 1;
      ItemDict(rows[..last], codec, itemIds, itemId);
      AtMostOneItem(rows[..last], itemId);
      var before := Column(rows[..last], ItemPair(codec, itemIds));
      assert codec.parse(codec.text(rows[last].id)) == Some(rows[last].id);
      assert codec.parse(codec.text(itemId)) == Some(itemId);
      if ItemPair(codec, itemIds)(rows[last]).Some? {
        assert (before + [ItemPair(codec, itemIds)(rows[last]).value])[..|before|] == before;
      }
    }
  }

  // ---------------------------------------------------------------------------------------------
  // The two builders
  // ---------------------------------------------------------------------------------------------

  /** Collections, grants and denies; the connection of a connector's document; its access list. */
  function ContextQueries(tables: Tables, document: DocumentRow): (n: nat)
    ensures 3 <= n <= 5
  {
    3 + (if document.externalItemId.Some? then 1 else 0) + (if ConnectionOf(tables, document).Some? then 1 else 0)
  }

  method BuildDocumentContext(db: DbSession, document: DocumentRow, organizationId: Uuid, accessible: seq<string>)
    returns (context: Policy.Resource)
    requires db.codec.Lawful() && db.tables.KeysUnique()
    modifies db`queries
    ensures context == DocumentContext(db.tables, db.codec, db.now, organizationId, document, accessible)
    ensures db.queries == old(db.queries) + ContextQueries(db.tables, document)
  {
    var id := db.codec.text(document.id);
    var collectionIds := GetCollectionIdsForDocument(db, document.id);
    var grants := BatchGetExplicit(db, db.tables.grants, organizationId, "document", [id]);
    var denies := BatchGetExplicit(db, db.tables.denies, organizationId, "document", [id]);
    var connectorAllowed: seq<string> := [];
    var connectorId := None;
    if document.externalItemId != None {
      var connection := GetConnectionIdForExternalItem(db, document.externalItemId.value);
      if connection != None {
        connectorId := Some(db.codec.text(connection.value));
        connectorAllowed := GetConnectorAclUserIds(db, organizationId, connection.value);
      }
    }
    assert id in [id];
    return Policy.Resource(
        Policy.Document, Some(id), Some(db.codec.text(organizationId)), OptionalText(db.codec, document.uploadedBy),
        collectionIds, connectorId, Lookup(denies, id, []), Lookup(grants, id, []), connectorAllowed, accessible,
        false, None, []);
  }

  function Ids(documents: seq<DocumentRow>): seq<Uuid> {
    seq(|documents|, i requires 0 <= i < |documents| => documents[i].id)
  }

  function IdTexts(codec: UuidCodec, documents: seq<DocumentRow>): seq<string> {
    seq(|documents|, i requires 0 <= i < |documents| => codec.text(documents[i].id))
  }

  function ExternalItemIds(documents: seq<DocumentRow>): seq<Uuid> {
    Column(documents, (d: DocumentRow) => d.externalItemId)
  }

  lemma {:induction false} ExternalItemListed(documents: seq<DocumentRow>, document: DocumentRow)
    requires document in documents && document.externalItemId.Some?
    ensures document.externalItemId.value in ExternalItemIds(documents)
  {
    var last := |documents| - 1;
    if document != documents[last] {
      ExternalItemListed(documents[..last], document);
    }
  }

  /** The connections named in the dict, as identifiers. */
  function ConnectionIds(codec: UuidCodec, dict: map<string, string>): set<Uuid> {
    set text | text in dict.Values && codec.parse(text).Some? :: codec.parse(text).value
  }

  /** Everything the batched queries return. */
  datatype BatchData = BatchData(
    collections: map<string, seq<string>>, grants: map<string, seq<string>>, denies: map<string, seq<string>>,
    extToConn: map<string, string>, aclByConn: map<string, seq<string>>)

  ghost predicate Covers(data: BatchData, tables: Tables, codec: UuidCodec, now: int, organizationId: Uuid, documents: seq<DocumentRow>) {
    && (forall d <- documents ::
          && Lookup(data.collections, codec.text(d.id), []) == Column(tables.collectionDocuments, CollectionOf(codec, d.id))
          && Lookup(data.grants, codec.text(d.id), []) == Column(tables.grants, UserOf(codec, organizationId, "document", codec.text(d.id), now))
          && Lookup(data.denies, codec.text(d.id), []) == Column(tables.denies, UserOf(codec, organizationId, "document", codec.text(d.id), now)))
    && data.extToConn == DictOf(Column(tables.externalItems, ItemPair(codec, ExternalItemIds(documents))))
    && (forall c <- ConnectionIds(codec, data.extToConn) ::
          Lookup(data.aclByConn, codec.text(c), []) == Column(tables.acls, AclUser(codec, organizationId, c)))
  }

  /** The five batched reads. */
  method FetchBatch(db: DbSession, documents: seq<DocumentRow>, organizationId: Uuid) returns (data: BatchData)
    requires db.codec.Lawful() && db.tables.KeysUnique() && documents != []
    modifies db`queries
    ensures Covers(data, db.tables, db.codec, db.now, organizationId, documents)
    ensures db.queries == old(db.queries) + BatchQueries(db.tables, db.codec, documents)
  {
    var ids, idTexts := Ids(documents), IdTexts(db.codec, documents);
    var collections := BatchGetCollectionIds(db, ids);
    var grants := BatchGetExplicit(db, db.tables.grants, organizationId, "document", idTexts);
    var denies := BatchGetExplicit(db, db.tables.denies, organizationId, "document", idTexts);
    forall d | d in documents ensures d.id in ids && db.codec.text(d.id) in idTexts {
      var i :| 0 <= i < |documents| && documents[i] == d;
      assert ids[i] == d.id && idTexts[i] == db.codec.text(d.id);
    }

    var itemIds := ExternalItemIds(documents);
    var extToConn: map<string, string> := map[];
    var aclByConn: map<string, seq<string>> := map[];
    if itemIds != [] {
      extToConn := BatchGetConnectionIds(db, itemIds);
      aclByConn := BatchGetConnectorAclUserIds(db, organizationId, ConnectionIds(db.codec, extToConn));
    } else {
      NothingSelected(db.tables.externalItems, db.codec);
    }
    data := BatchData(collections, grants, denies, extToConn, aclByConn);
  }

  /** How many queries the batch issues: never more than five, however many documents there are. */
  function BatchQueries(tables: Tables, codec: UuidCodec, documents: seq<DocumentRow>): (n: nat)
    ensures n <= 5
    ensures n == 0 <==> documents == []
  {
    var itemIds := ExternalItemIds(documents);
    if documents == [] then 0
    else if itemIds == [] then 3
    else if ConnectionIds(codec, DictOf(Column(tables.externalItems, ItemPair(codec, itemIds)))) == {} then 4
    else 5
  }

  /** Element i of the list is the context of document i. */
  function DocumentContexts(tables: Tables, codec: UuidCodec, now: int, organizationId: Uuid, documents: seq<DocumentRow>,
                            accessible: seq<string>): (contexts: seq<Policy.Resource>)
    ensures |contexts| == |documents|
  {
    seq(|documents|, i requires 0 <= i < |documents| =>
      DocumentContext(tables, codec, now, organizationId, documents[i], accessible))
  }

  method BuildDocumentContextsBatch(db: DbSession, documents: seq<DocumentRow>, organizationId: Uuid, accessible: seq<string>)
    returns (contexts: seq<Policy.Resource>)
    requires db.codec.Lawful() && db.tables.KeysUnique()
    modifies db`queries
    ensures contexts == DocumentContexts(db.tables, db.codec, db.now, organizationId, documents, accessible)
    ensures db.queries == old(db.queries) + BatchQueries(db.tables, db.codec, documents)
  {
    if documents == [] {
      return [];
    }
    var data := FetchBatch(db, documents, organizationId);
    contexts := AssembleContexts(db, data, documents, organizationId, accessible);
  }

  method AssembleContexts(db: DbSession, data: BatchData, documents: seq<DocumentRow>, organizationId: Uuid, accessible: seq<string>)
    returns (contexts: seq<Policy.Resource>)
    requires db.codec.Lawful() && db.tables.KeysUnique()
    requires Covers(data, db.tables, db.codec, db.now, organizationId, documents)
    ensures contexts == DocumentContexts(db.tables, db.codec, db.now, organizationId, documents, accessible)
  {
    contexts := [];
    ghost var target := DocumentContexts(db.tables, db.codec, db.now, organizationId, documents, accessible);
    for i := 0 to |documents|
      invariant contexts == target[..i]
    {
      var context := AssembleContext(db, data, documents, i, organizationId, accessible);
      contexts := contexts + [context];
    }
  }

  method AssembleContext(db: DbSession, data: BatchData, documents: seq<DocumentRow>, i: nat, organizationId: Uuid, accessible: seq<string>)
    returns (context: Policy.Resource)
    requires i < |documents|
    requires db.codec.Lawful() && db.tables.KeysUnique()
    requires Covers(data, db.tables, db.codec, db.now, organizationId, documents)
    ensures context == DocumentContext(db.tables, db.codec, db.now, organizationId, documents[i], accessible)
  {
    var doc := documents[i];
    var id := db.codec.text(doc.id);
    var connectorId := None;
    var connectorAllowed: seq<string> := [];
    ConnectorPart(db.tables, db.codec, documents, doc, data.extToConn);
    if doc.externalItemId != None {
      var item := db.codec.text(doc.externalItemId.value);
      if item in data.extToConn && data.extToConn[item] != "" {
        connectorId := Some(data.extToConn[item]);
        connectorAllowed := Lookup(data.aclByConn, data.extToConn[item], []);
      }
    }
    return Policy.Resource(
        Policy.Document, Some(id), Some(db.codec.text(organizationId)), OptionalText(db.codec, doc.uploadedBy),
        Lookup(data.collections, id, []), connectorId, Lookup(data.denies, id, []), Lookup(data.grants, id, []),
        connectorAllowed, accessible, false, None, []);
  }

  /** What the batch learns about one document's connection is what the single lookup finds. */
  lemma ConnectorPart(tables: Tables, codec: UuidCodec, documents: seq<DocumentRow>,
                      document: DocumentRow, extToConn: map<string, string>)
    requires codec.Lawful() && tables.KeysUnique() && document in documents
    requires extToConn == DictOf(Column(tables.externalItems, ItemPair(codec, ExternalItemIds(documents))))
    ensures document.externalItemId.Some? ==>
              var item := codec.text(document.externalItemId.value);
              var connection := ConnectionOf(tables, document);
              && (item in extToConn <==> connection.Some?)
              && (item in extToConn ==>
                    && extToConn[item] == codec.text(connection.value)
                    && extToConn[item] != ""
                    && connection.value in ConnectionIds(codec, extToConn))
  {
    if document.externalItemId.Some? {
      ExternalItemListed(documents, document);
      ItemDict(tables.externalItems, codec, ExternalItemIds(documents), document.externalItemId.value);
      var item := codec.text(document.externalItemId.value);
      if item in extToConn {
        assert extToConn[item] in extToConn.Values;
      }
    }
  }
}
