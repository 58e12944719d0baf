/** What one instance keeps about one item of a share, and how a received row or an outbound
    pass changes it. The engine's tables are maps of these cells; see SyncEngine. */
module ShareState {
  import opened Prelude
  import opened SyncProtocol
  import opened ItemMerge

  /** The row, if there is one, the echo guard (sent) and the last agreed version (base). */
  datatype Cell = Cell(row: Option<Item>, sent: Hash, base: Hash)

  function ContentOf(c: Cell): ItemPayload
    requires c.row.Some?
  {
    PayloadOf(c.row.value)
  }

  function HashOfRow(c: Cell): Hash
    requires c.row.Some?
  {
    ItemHash(c.row.value)
  }

  /** The row changed since the last version agreed with the peer. */
  predicate Dirty(c: Cell) { c.row.Some? && HashOfRow(c) != c.base }

  /** The outbound pass would send this row. */
  predicate Unsent(c: Cell) { c.row.Some? && HashOfRow(c) != c.sent }

  /** Who receives what from whom. */
  datatype Delivery = Delivery(me: string, origin: string, projectId: string, remote: ItemPayload)

  /** The row an arriving payload leaves behind. */
  function StoreRow(c: Cell, d: Delivery): Item {
    if c.row.None? then InsertRow(d.projectId, d.remote)
    else if Dirty(c) then UpdateRow(c.row.value, MergeConflict(d.me, d.origin, ContentOf(c), d.remote))
    else UpdateRow(c.row.value, d.remote)
  }

  /** applyItem: a merge advances only the base, a straight apply settles both hashes. */
  function Apply(c: Cell, d: Delivery): Cell {
    var saved := StoreRow(c, d);
    Cell(Some(saved), if Dirty(c) then c.sent else ItemHash(saved), ItemHash(saved))
  }

  /** The conflict note that goes with it. */
  function ApplyNotes(c: Cell, d: Delivery, peerName: string): seq<Note> {
    if Dirty(c) then ConflictNote(peerName, c.row.value, MergeConflict(d.me, d.origin, ContentOf(c), d.remote))
    else []
  }

  /** A row that was sent: only the echo guard moves. */
  function MarkSent(c: Cell): Cell
    requires c.row.Some?
  {
    c.(sent := HashOfRow(c))
  }

  /** pushOutbound on one row. */
  function Push(c: Cell): Cell {
    if Unsent(c) then MarkSent(c) else c
  }

  /** After any apply the row is agreed, and unless it was a merge there is nothing to send. */
  lemma ApplySettles(c: Cell, d: Delivery)
    ensures !Dirty(Apply(c, d))
    ensures !Dirty(c) ==> !Unsent(Apply(c, d))
    ensures Dirty(c) ==> (Unsent(Apply(c, d)) <==> HashOfRow(Apply(c, d)) != c.sent)
  {
  }

  /** A straight apply of a complete payload takes the peer's row verbatim, except that an
      existing row keeps its own creation time. */
  lemma VerbatimApply(c: Cell, d: Delivery)
    requires !Dirty(c) && Complete(d.remote)
    requires c.row.Some? ==> c.row.value.id == d.remote.id
    ensures ContentOf(Apply(c, d)) == d.remote
            <==> c.row.None? || c.row.value.createdAt == d.remote.createdAt
    ensures Apply(c, d).sent == Apply(c, d).base == HashOfRow(Apply(c, d))
  {
    if c.row.Some? { StoredPayload(d.projectId, c.row.value, d.remote); }
    else { StoredPayload(d.projectId, InsertRow(d.projectId, d.remote), d.remote); }
  }

  /** A merge stores mergeConflict's answer, except for the creation time. */
  lemma MergedApply(c: Cell, d: Delivery)
    requires Dirty(c) && Complete(d.remote) && c.row.value.id == d.remote.id
    ensures ContentOf(Apply(c, d)) ==
            MergeConflict(d.me, d.origin, ContentOf(c), d.remote).(createdAt := c.row.value.createdAt)
    ensures Apply(c, d).base == HashOfRow(Apply(c, d)) && Apply(c, d).sent == c.sent
  {
    StoredPayload(d.projectId, c.row.value, MergeConflict(d.me, d.origin, ContentOf(c), d.remote));
  }

  /** mergeConflict keeps the earlier creation time, but the upsert does not write it: the stored
      row is as old as its oldest copy exactly when the local copy was the older one. */
  lemma EarliestCreationKeptIff(c: Cell, d: Delivery)
    requires Dirty(c) && Complete(d.remote) && c.row.value.id == d.remote.id
    ensures var oldest := if c.row.value.createdAt < d.remote.createdAt
                          then c.row.value.createdAt else d.remote.createdAt;
            && MergeConflict(d.me, d.origin, ContentOf(c), d.remote).createdAt == oldest
            && (ContentOf(Apply(c, d)).createdAt == oldest <==> c.row.value.createdAt <= d.remote.createdAt)
  {
    MergedApply(c, d);
  }
}
