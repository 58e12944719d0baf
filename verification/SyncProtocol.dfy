/** The payloads two instances exchange about a shared project, and their fingerprints. */
module SyncProtocol {
  import opened Prelude

  /** One item's syncable state. Times are instants on the instances' UTC axis. */
  datatype ItemPayload = ItemPayload(
    id: string, kind: string, title: string, body: string, status: string, priority: string,
    assignee: Option<string>, externalRef: Option<string>, tags: seq<string>,
    metadata: string, acceptanceCriteria: string,
    createdAt: int, closedAt: Option<int>, deletedAt: Option<int>)

  datatype ActivityPayload = ActivityPayload(
    id: string, itemId: Option<string>, kind: string, actor: string, body: string,
    confidence: string, metadata: string, createdAt: int)

  datatype ProjectPayload = ProjectPayload(name: string, summary: string, instructions: string)

  datatype Payload =
    | ItemBody(item: ItemPayload)
    | ActivityBody(act: ActivityPayload)
    | ProjectBody(proj: ProjectPayload)
    | Malformed     // a payload or an id that does not decode
    | UnknownKind   // a kind this version does not know

  /** What a received message opens to; decryption itself is not part of this model. */
  datatype Sealed = Undecryptable | Opened(origin: string, payload: Payload)

  /** ContentHash, taken to be injective: the fingerprint is as good as the content.
      NoHash is the empty string a share-state column starts from. */
  datatype Hash = NoHash | HashOf(content: Payload)

  function ContentHash(p: Payload): Hash { HashOf(p) }

  /** A JSON column that is never empty. */
  type Json = s: string | s != "" witness "{}"

  function OrEmptyJson(s: string): Json { if s == "" then "{}" else s }

  function OrEmptyJsonArray(s: string): Json { if s == "" then "[]" else s }

  /** An item row as an instance stores it: the payload columns plus the columns that stay local. */
  datatype Item = Item(
    id: string, projectId: string, version: int,
    kind: string, title: string, body: string, status: string, priority: string,
    assignee: Option<string>, externalRef: Option<string>, tags: seq<string>,
    metadata: Json, acceptanceCriteria: Json,
    createdAt: int, closedAt: Option<int>, deletedAt: Option<int>)

  /** itemPayload: the content of a row that travels. */
  function PayloadOf(it: Item): ItemPayload {
    ItemPayload(it.id, it.kind, it.title, it.body, it.status, it.priority,
                it.assignee, it.externalRef, it.tags,
                OrEmptyJson(it.metadata), OrEmptyJson(it.acceptanceCriteria),
                it.createdAt, it.closedAt, it.deletedAt)
  }

  function ItemHash(it: Item): Hash { ContentHash(ItemBody(PayloadOf(it))) }

  /** The INSERT arm of the upsert: a row this instance has never seen. */
  function InsertRow(projectId: string, p: ItemPayload): Item {
    Item(p.id, projectId, 1, p.kind, p.title, p.body, p.status, p.priority,
         p.assignee, p.externalRef, p.tags,
         OrEmptyJson(p.metadata), OrEmptyJsonArray(p.acceptanceCriteria),
         p.createdAt, p.closedAt, p.deletedAt)
  }

  /** The ON CONFLICT arm: every synced column except created_at, which keeps the local value;
      project and id stay, the version moves on. */
  function UpdateRow(local: Item, p: ItemPayload): Item {
    Item(local.id, local.projectId, local.version + 1, p.kind, p.title, p.body, p.status, p.priority,
         p.assignee, p.externalRef, p.tags,
         OrEmptyJson(p.metadata), OrEmptyJsonArray(p.acceptanceCriteria),
         local.createdAt, p.closedAt, p.deletedAt)
  }

  /** A payload as itemPayload produces it: its JSON columns are filled in. */
  predicate Complete(p: ItemPayload) { p.metadata != "" && p.acceptanceCriteria != "" }

  /** Storing a payload and reading it back: a new row returns it exactly, an existing row
      returns it except for the creation time, which stays the local one. */
  lemma StoredPayload(projectId: string, local: Item, p: ItemPayload)
    requires Complete(p) && local.id == p.id
    ensures PayloadOf(InsertRow(projectId, p)) == p
    ensures PayloadOf(UpdateRow(local, p)) == p.(createdAt := local.createdAt)
    ensures PayloadOf(UpdateRow(local, p)) == p <==> p.createdAt == local.createdAt
    ensures Complete(PayloadOf(local))
  {
    assert p.metadata == OrEmptyJson(p.metadata);
  }

  /** What an upsert does to the columns that do not travel: a new row starts at version 1 in the share's
      project; an existing one keeps its project, id and creation time, and its version moves by one. */
  lemma UpsertOwnColumns(projectId: string, local: Item, p: ItemPayload)
    ensures var row := InsertRow(projectId, p); row.id == p.id && row.projectId == projectId && row.version == 1
    ensures var row := UpdateRow(local, p);
            && row.id == local.id && row.projectId == local.projectId && row.createdAt == local.createdAt
            && row.version == local.version + 1
  {
  }
}
