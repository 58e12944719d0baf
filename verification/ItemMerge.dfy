/** Conflict resolution for one item edited on both instances, and what it preserves. */
module ItemMerge {
  import opened Prelude
  import opened SyncProtocol

  const CONFLICT_SEPARATOR := "\n\n---\n_Edited on both instances; the other version:_\n\n"

  /** needle occurs in hay. */
  predicate Contains(hay: string, needle: string) {
    exists i | 0 <= i <= |hay| - |needle| :: OccursAt(hay, needle, i)
  }

  predicate OccursAt(hay: string, needle: string, i: int) {
    0 <= i <= |hay| - |needle| && hay[i..i + |needle|] == needle
  }

  lemma ContainsSelf(s: string)
    ensures Contains(s, s) && Contains(s, "")
  {
    assert OccursAt(s, s, 0);
    assert OccursAt(s, "", 0);
  }

  lemma ContainsJoin(x: string, y: string)
    ensures Contains(x + CONFLICT_SEPARATOR + y, x)
    ensures Contains(x + CONFLICT_SEPARATOR + y, y)
  {
    assert OccursAt(x + CONFLICT_SEPARATOR + y, x, 0);
    assert OccursAt(x + CONFLICT_SEPARATOR + y, y, |x| + |CONFLICT_SEPARATOR|);
  }

  /** The body arm of mergeConflict, case by case. localFirst is "our id is the lower one". */
  function MergeBody(local: string, remote: string, localFirst: bool): string {
    if local == remote || local == "" then remote
    else if remote == "" then local
    else if Contains(remote, local) then remote
    else if Contains(local, remote) then local
    else if localFirst then local + CONFLICT_SEPARATOR + remote
    else remote + CONFLICT_SEPARATOR + local
  }

  function Pick<T>(first: bool, a: T, b: T): T { if first then a else b }

  /** Everything but the body, given who wins the scalars and what the joined body is. */
  function MergeAround(body: string, localWins: bool, local: ItemPayload, remote: ItemPayload): ItemPayload {
    remote.(
      title := Pick(localWins, local.title, remote.title),
      status := Pick(localWins, local.status, remote.status),
      priority := Pick(localWins, local.priority, remote.priority),
      kind := Pick(localWins, local.kind, remote.kind),
      assignee := Pick(localWins, local.assignee, remote.assignee),
      tags := Pick(localWins, local.tags, remote.tags),
      body := body,
      createdAt := Pick(local.createdAt < remote.createdAt, local.createdAt, remote.createdAt),
      deletedAt := Pick(local.deletedAt.Some? && remote.deletedAt.None?, local.deletedAt, remote.deletedAt))
  }

  /** mergeConflict: the higher instance id wins the scalars, the lower one's text goes first. */
  function MergeConflict(localId: string, remoteId: string, local: ItemPayload, remote: ItemPayload): ItemPayload {
    var body := MergeBody(local.body, remote.body, Less(localId, remoteId));
    MergeAround(body, Less(remoteId, localId), local, remote)
  }

  // ---- nothing is lost from the prose ----

  lemma MergeBodyKeepsBoth(local: string, remote: string, localFirst: bool)
    ensures var m := MergeBody(local, remote, localFirst);
            && Contains(m, local) && Contains(m, remote)
            && |m| <= |local| + |remote| + |CONFLICT_SEPARATOR|
  {
    ContainsSelf(local);
    ContainsSelf(remote);
    ContainsJoin(local, remote);
    ContainsJoin(remote, local);
  }

  /** Two texts of which neither holds the other. */
  predicate TextsClash(x: string, y: string) { x != "" && y != "" && !Contains(x, y) && !Contains(y, x) }

  /** m is the first text, the separator, and the second text. */
  predicate Joins(m: string, first: string, second: string) {
    && first + CONFLICT_SEPARATOR <= m && m[|first| + |CONFLICT_SEPARATOR|..] == second
  }

  /** Whichever side merges, the text of the instance with the lower id comes first; and if one text
      holds the other, the longer one is the merged text. */
  lemma LowerTextFirst(lo: string, hi: string, x: ItemPayload, y: ItemPayload)
    requires Less(lo, hi)
    ensures var atLow := MergeConflict(lo, hi, x, y).body;
            var atHigh := MergeConflict(hi, lo, y, x).body;
            && (TextsClash(x.body, y.body) ==> Joins(atLow, x.body, y.body) && Joins(atHigh, x.body, y.body))
            && (Contains(y.body, x.body) ==> atLow == atHigh == y.body)
            && (Contains(x.body, y.body) ==> atLow == atHigh == x.body)
  {
    LessIsStrictTotal(lo, hi);
    ContainsSelf(x.body);
    ContainsSelf(y.body);
  }

  // ---- both sides compute the same thing ----

  /** The fields mergeConflict reconciles: everything but the external reference, the two JSON
      columns, the closing time and the instant of a deletion. */
  ghost predicate SameReconciled(p: ItemPayload, q: ItemPayload) {
    && p.title == q.title && p.status == q.status && p.priority == q.priority
    && p.kind == q.kind && p.assignee == q.assignee && p.tags == q.tags
    && p.body == q.body && p.createdAt == q.createdAt
    && p.deletedAt.Some? == q.deletedAt.Some?
  }

  /** Both rows name the same item and hold the same values in every field that mergeConflict
      or the upsert does not reconcile. */
  predicate Agree(x: ItemPayload, y: ItemPayload) {
    && x.id == y.id && x.createdAt == y.createdAt
    && x.externalRef == y.externalRef && x.metadata == y.metadata
    && x.acceptanceCriteria == y.acceptanceCriteria && x.closedAt == y.closedAt
    && (x.deletedAt.Some? && y.deletedAt.Some? ==> x.deletedAt == y.deletedAt)
  }

  /** Run independently on the two instances, the merge reaches one answer on every reconciled
      field, and one answer outright exactly when the rows agree on the others
      (up to the creation time, which the merge does reconcile). */
  lemma MergeSymmetric(idX: string, idY: string, x: ItemPayload, y: ItemPayload)
    requires idX != idY && x.id == y.id
    ensures var mx := MergeConflict(idX, idY, x, y);
            var my := MergeConflict(idY, idX, y, x);
            && SameReconciled(mx, my)
            && (mx == my <==> Agree(x, y.(createdAt := x.createdAt)))
  {
    LessIsStrictTotal(idX, idY);
  }

  // ---- re-exchange adds nothing ----

  lemma MergeBodyAbsorbs(x: string, y: string, xFirst: bool, again: bool)
    ensures var m := MergeBody(x, y, xFirst);
            && MergeBody(m, x, again) == m && MergeBody(x, m, again) == m
            && MergeBody(m, y, again) == m && MergeBody(y, m, again) == m
  {
    MergeBodyKeepsBoth(x, y, xFirst);
  }

  /** Once merged, meeting either original again in any role changes nothing reconciled: the
      merging side re-reading the peer's row, the merging side's own row meeting the merge from the
      peer, and the same two at the peer. */
  lemma MergeAbsorbs(idX: string, idY: string, x: ItemPayload, y: ItemPayload)
    requires idX != idY && x.id == y.id
    ensures var m := MergeConflict(idX, idY, x, y);
            && SameReconciled(MergeConflict(idX, idY, m, y), m)
            && SameReconciled(MergeConflict(idX, idY, x, m), m)
            && SameReconciled(MergeConflict(idY, idX, m, x), m)
            && SameReconciled(MergeConflict(idY, idX, y, m), m)
  {
    LessIsStrictTotal(idX, idY);
    var m := MergeConflict(idX, idY, x, y);
    MergeBodyAbsorbs(x.body, y.body, Less(idX, idY), Less(idX, idY));
    MergeBodyAbsorbs(x.body, y.body, Less(idX, idY), Less(idY, idX));
  }

  // ---- the conflict note ----

  datatype Field = Status | Priority | Title

  datatype Change = Change(field: Field, displaced: string, kept: string)

  /** The changes logConflict lists, in its order. */
  function Changes(local: ItemPayload, merged: ItemPayload): seq<Change> {
    (if local.status != merged.status then [Change(Status, local.status, merged.status)] else []) +
    (if local.priority != merged.priority then [Change(Priority, local.priority, merged.priority)] else []) +
    (if local.title != merged.title then [Change(Title, local.title, merged.title)] else [])
  }

  datatype Note = Note(projectId: string, itemId: string, peer: string, changes: seq<Change>)

  /** logConflict: no note when nothing was displaced. */
  function ConflictNote(peerName: string, local: Item, merged: ItemPayload): seq<Note> {
    var changes := Changes(PayloadOf(local), merged);
    if changes == [] then []
    else [Note(local.projectId, local.id, if peerName == "" then "the other instance" else peerName, changes)]
  }

  function Scalar(f: Field, p: ItemPayload): string {
    match f
    case Status => p.status
    case Priority => p.priority
    case Title => p.title
  }

  /** Of a crossing, the side with the higher id wins every scalar. When the two values of title,
      status or priority differ, the losing value is written down on the losing side, and the
      winning side notes nothing. */
  lemma CrossingNotesLosers(lo: string, hi: string, x: ItemPayload, y: ItemPayload)
    requires Less(lo, hi) && x.id == y.id
    ensures var atLow := MergeConflict(lo, hi, x, y);
            var atHigh := MergeConflict(hi, lo, y, x);
            && Changes(y, atHigh) == []
            && forall f: Field :: Change(f, Scalar(f, x), Scalar(f, y)) in Changes(x, atLow)
                                  <==> Scalar(f, x) != Scalar(f, y)
  {
    LessIsStrictTotal(lo, hi);
    var atLow := MergeConflict(lo, hi, x, y);
    forall f: Field
      ensures Change(f, Scalar(f, x), Scalar(f, y)) in Changes(x, atLow)
              <==> Scalar(f, x) != Scalar(f, y)
    {
      match f { case Status => case Priority => case Title => }
    }
  }

  /** The columns of a payload besides the id, the body and the creation time, which an existing
      row never changes. Only three of them have a place in a note. */
  datatype Column =
    | Noted(field: Field)
    | ItemType | Assignee | Tags
    | ExternalRef | Metadata | AcceptanceCriteria | ClosedAt | DeletedAt

  predicate SameIn(c: Column, p: ItemPayload, q: ItemPayload) {
    match c
    case Noted(f) => Scalar(f, p) == Scalar(f, q)
    case ItemType => p.kind == q.kind
    case Assignee => p.assignee == q.assignee
    case Tags => p.tags == q.tags
    case ExternalRef => p.externalRef == q.externalRef
    case Metadata => p.metadata == q.metadata
    case AcceptanceCriteria => p.acceptanceCriteria == q.acceptanceCriteria
    case ClosedAt => p.closedAt == q.closedAt
    case DeletedAt => p.deletedAt == q.deletedAt
  }

  /** The merge replaces the value its side held in this column, and the note does not say so.
      Not being set (unassigned, open, live) is a value like any other. */
  predicate LostIn(c: Column, own: ItemPayload, merged: ItemPayload) {
    && !SameIn(c, own, merged)
    && !(c.Noted? && Change(c.field, Scalar(c.field, own), Scalar(c.field, merged)) in Changes(own, merged))
  }

  /** What a crossing loses for good, column by column and side by side: the side with the lower id
      loses its type, assignee and tags, and both lose the columns the merge never looks at, plus
      their deletion time when the peer's row is deleted at another one. */
  lemma LostExactly(lo: string, hi: string, x: ItemPayload, y: ItemPayload, c: Column)
    requires Less(lo, hi) && x.id == y.id
    ensures LostIn(c, x, MergeConflict(lo, hi, x, y))
            <==> !SameIn(c, x, y) && !c.Noted? && (c.DeletedAt? ==> y.deletedAt.Some?)
    ensures LostIn(c, y, MergeConflict(hi, lo, y, x))
            <==> !SameIn(c, x, y) && !c.Noted? && !c.ItemType? && !c.Assignee? && !c.Tags?
                 && (c.DeletedAt? ==> x.deletedAt.Some?)
  {
    LessIsStrictTotal(lo, hi);
    CrossingNotesLosers(lo, hi, x, y);
  }

  /** The promise that nothing displaced is lost, on both sides of a crossing: it holds exactly for
      rows that agree on every column the note has no place for. */
  lemma NothingLostIff(lo: string, hi: string, x: ItemPayload, y: ItemPayload)
    requires Less(lo, hi) && x.id == y.id
    ensures (forall c: Column ::
               !LostIn(c, x, MergeConflict(lo, hi, x, y)) && !LostIn(c, y, MergeConflict(hi, lo, y, x)))
            <==>
            && x.kind == y.kind && x.assignee == y.assignee && x.tags == y.tags
            && x.externalRef == y.externalRef && x.metadata == y.metadata
            && x.acceptanceCriteria == y.acceptanceCriteria && x.closedAt == y.closedAt
            && x.deletedAt == y.deletedAt
  {
    forall c: Column
      ensures !LostIn(c, x, MergeConflict(lo, hi, x, y)) && !LostIn(c, y, MergeConflict(hi, lo, y, x))
              <==> SameIn(c, x, y) || c.Noted?
    {
      LostExactly(lo, hi, x, y, c);
    }
    if forall c: Column :: SameIn(c, x, y) || c.Noted? {
      assert SameIn(ItemType, x, y) && SameIn(Assignee, x, y) && SameIn(Tags, x, y)
          && SameIn(ExternalRef, x, y) && SameIn(Metadata, x, y) && SameIn(AcceptanceCriteria, x, y)
          && SameIn(ClosedAt, x, y) && SameIn(DeletedAt, x, y);
    }
  }
}
