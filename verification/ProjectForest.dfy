/** The project hierarchy: the descendant closure, the cycle check and what they keep. */
module ProjectForest {
  import opened Prelude

  datatype Project = Project(parent: Option<string>, status: string)

  type Table = map<string, Project>

  /** The n-th ancestor of a slug, if the chain of parents goes that far. */
  function Climb(t: Table, x: string, n: nat): Option<string>
    decreases n
  {
    if n == 0 then Some(x)
    else if x in t && t[x].parent.Some? then Climb(t, t[x].parent.value, n - 1)
    else None
  }

  /** x lies in the subtree rooted at root, the root included. */
  ghost predicate Under(t: Table, root: string, x: string) {
    root in t && x in t && exists n: nat :: Climb(t, x, n) == Some(root)
  }

  lemma UnderParent(t: Table, root: string, x: string)
    requires root in t && x in t && t[x].parent.Some? && t[x].parent.value in t
    ensures Under(t, root, t[x].parent.value) ==> Under(t, root, x)
    ensures x != root && Under(t, root, x) ==> Under(t, root, t[x].parent.value)
  {
    var q := t[x].parent.value;
    if Under(t, root, q) {
      var n: nat :| Climb(t, q, n) == Some(root);
      assert Climb(t, x, n + 1) == Some(root);
    }
    if x != root && Under(t, root, x) {
      var n: nat :| Climb(t, x, n) == Some(root);
      assert n > 0 && Climb(t, q, n - 1) == Some(root);
    }
  }

  /** projectDescendants: the recursive query, with UNION dropping rows seen before. On any table,
      cyclic ones included, it ends with exactly the subtree. */
  method ProjectDescendants(t: Table, root: string) returns (result: set<string>)
    ensures forall x :: x in result <==> Under(t, root, x)
  {
    result := if root in t then {root} else {};
    var working := result;
    if root in t { assert Climb(t, root, 0) == Some(root); }
    while working != {}
      invariant working <= result <= t.Keys && (root in t ==> root in result)
      invariant forall x :: x in result ==> Under(t, root, x)
      invariant forall x :: x in t && t[x].parent.Some? && t[x].parent.value in result - working ==> x in result
      decreases t.Keys - result, working
    {
      var next := set x | x in t && t[x].parent.Some? && t[x].parent.value in working && x !in result;
      forall x | x in next ensures Under(t, root, x) {
        UnderParent(t, root, x);
      }
      result, working := result + next, next;
    }
    forall x | Under(t, root, x) ensures x in result {
      var n: nat :| Climb(t, x, n) == Some(root);
      ClosedReaches(t, root, result, x, n);
    }
  }

  lemma {:induction false} ClosedReaches(t: Table, root: string, s: set<string>, x: string, n: nat)
    requires root in s && x in t && Climb(t, x, n) == Some(root)
    requires forall y :: y in t && t[y].parent.Some? && t[y].parent.value in s ==> y in s
    requires root in t
    ensures x in s
    decreases n
  {
    if n > 0 {
      var q := t[x].parent.value;
      assert q in t;
      ClosedReaches(t, root, s, q, n - 1);
    }
  }

  // ---- forests ----

  /** Every parent exists (the foreign key). */
  predicate ParentsExist(t: Table) {
    forall x :: x in t && t[x].parent.Some? ==> t[x].parent.value in t
  }

  /** A rank that grows from parent to child. */
  predicate Ranks(rank: map<string, nat>, t: Table) {
    forall x :: x in t && t[x].parent.Some? && t[x].parent.value in t ==>
      x in rank && t[x].parent.value in rank && rank[t[x].parent.value] < rank[x]
  }

  ghost predicate Forest(t: Table) { ParentsExist(t) && exists rank: map<string, nat> :: Ranks(rank, t) }

  lemma {:induction false} RankDrops(t: Table, rank: map<string, nat>, x: string, n: nat)
    requires ParentsExist(t) && Ranks(rank, t) && x in t && n > 0 && Climb(t, x, n).Some?
    ensures var y := Climb(t, x, n).value; y in rank && x in rank && rank[y] < rank[x]
    decreases n
  {
    if n > 1 { RankDrops(t, rank, t[x].parent.value, n - 1); }
  }

  /** In a forest nobody is their own ancestor. */
  lemma ForestHasNoCycle(t: Table, x: string, n: nat)
    requires Forest(t) && x in t && n > 0
    ensures Climb(t, x, n) != Some(x)
  {
    var rank :| Ranks(rank, t);
    if Climb(t, x, n).Some? { RankDrops(t, rank, x, n); }
  }

  // ---- the cycle check ----

  datatype Error = NotFound | InvalidParent | Duplicate | BadRequest | NotPurgeable | Failed

  /** ValidateProjectParent on a trimmed parent; the empty one clears. */
  ghost function Verdict(t: Table, slug: string, parent: string): Option<Error> {
    if parent == "" then None
    else if parent !in t then Some(NotFound)
    else if parent == slug || Under(t, slug, parent) then Some(InvalidParent)
    else None
  }

  method ValidateProjectParent(t: Table, slug: string, parent: string) returns (err: Option<Error>)
    ensures err == Verdict(t, slug, parent)
  {
    if parent == "" {
      return None;
    }
    if parent !in t {
      return Some(NotFound);
    }
    if parent == slug {
      return Some(InvalidParent);
    }
    var descendants := ProjectDescendants(t, slug);
    if parent in descendants {
      return Some(InvalidParent);
    }
    err := None;
  }

  function AsParent(parent: string): Option<string> { if parent == "" then None else Some(parent) }

  function Reparent(t: Table, slug: string, parent: string): Table
    requires slug in t
  {
    t[slug := t[slug].(parent := AsParent(parent))]
  }

  /** Moving a whole subtree under a node outside it: shift the subtree's ranks. */
  lemma ReparentOutsideKeepsForest(t: Table, slug: string, parent: string)
    requires Forest(t) && slug in t && parent in t && parent != "" && !Under(t, slug, parent)
    ensures Forest(Reparent(t, slug, parent))
  {
    var rank :| Ranks(rank, t);
    var t' := Reparent(t, slug, parent);
    var base := if parent in rank then rank[parent] else 0;
    var rank' := map x | x in t :: (if x in rank then rank[x] else 0) + if Under(t, slug, x) then base + 1 else 0;
    assert Climb(t, slug, 0) == Some(slug);
    forall x | x in t' && t'[x].parent.Some? && t'[x].parent.value in t'
      ensures x in rank' && t'[x].parent.value in rank' && rank'[t'[x].parent.value] < rank'[x]
    {
      if x != slug { UnderParent(t, slug, x); }
    }
    assert Ranks(rank', t');
  }

  /** Moving it under one of its own nodes closes a cycle. */
  lemma {:induction false} ChainSurvives(t: Table, t': Table, slug: string, x: string, n: nat)
    returns (m: nat)
    requires slug in t && x in t && Climb(t, x, n) == Some(slug)
    requires forall y :: y in t && y != slug ==> y in t' && t'[y] == t[y]
    ensures Climb(t', x, m) == Some(slug)
    decreases n
  {
    if x == slug {
      m := 0;
    } else {
      var q := t[x].parent.value;
      assert q in t;
      var k := ChainSurvives(t, t', slug, q, n - 1);
      m := k + 1;
    }
  }

  /** The check is exact: on a forest it accepts a change of parent exactly when the parent exists
      (or is cleared) and the changed table is still a forest. */
  lemma VerdictIsExact(t: Table, slug: string, parent: string)
    requires Forest(t) && slug in t
    ensures Verdict(t, slug, parent) == None <==> Forest(Reparent(t, slug, parent))
  {
    var t' := Reparent(t, slug, parent);
    if parent == "" {
      var rank :| Ranks(rank, t);
      assert Ranks(rank, t');
    } else if parent !in t {
      assert t'[slug].parent == Some(parent) && parent !in t';
    } else if parent == slug || Under(t, slug, parent) {
      if Forest(t') {
        var n: nat := 0;
        if parent != slug { n :| Climb(t, parent, n) == Some(slug); }
        var m := ChainSurvives(t, t', slug, parent, n);
        assert Climb(t', slug, m + 1) == Some(slug);
        ForestHasNoCycle(t', slug, m + 1);
      }
    } else {
      ReparentOutsideKeepsForest(t, slug, parent);
    }
  }

  // ---- the operations and their runs ----

  /** parent None leaves it, Some("") clears it. */
  datatype Op =
    | Create(slug: string, name: string, newStatus: Option<string>, parent: string)
    | Patch(slug: string, newStatus: Option<string>, newParent: Option<string>)
    | Purge(slug: string, dbFails: bool)

  /** DELETE with ON DELETE SET NULL on the children. */
  function DeleteRow(t: Table, slug: string): Table {
    map x | x in t && x != slug :: if t[x].parent == Some(slug) then t[x].(parent := None) else t[x]
  }

  predicate HasChildren(t: Table, slug: string) { exists x :: x in t && t[x].parent == Some(slug) }

  const STATUSES := {"active", "paused", "done", "archived"}

  /** A status that is not given, or given empty, is not checked before the table is (whose own
      constraint then refuses the empty one). */
  predicate ValidStatus(status: Option<string>) {
    status.Some? && status.value != "" ==> status.value in STATUSES
  }

  ghost function Do(t: Table, op: Op): (Table, Option<Error>) {
    match op
    case Create(slug, name, status, parent) =>
      if slug == "" || name == "" || !ValidStatus(status) then (t, Some(BadRequest))
      else if Verdict(t, slug, parent).Some? then (t, Verdict(t, slug, parent))
      else if status == Some("") then (t, Some(Failed))
      else if slug in t then (t, Some(Duplicate))
      else (t[slug := Project(AsParent(parent), if status.Some? then status.value else "active")], None)
    case Patch(slug, status, parent) =>
      if !ValidStatus(status) then (t, Some(BadRequest))
      else if parent.Some? && Verdict(t, slug, parent.value).Some? then (t, Verdict(t, slug, parent.value))
      else if slug !in t then (t, Some(NotFound))
      else if status == Some("") then (t, Some(Failed))
      else
        var t' := if parent.Some? then Reparent(t, slug, parent.value) else t;
        (if status.Some? then t'[slug := t'[slug].(status := status.value)] else t', None)
    case Purge(slug, dbFails) =>
      if slug !in t then (t, Some(NotFound))
      else if t[slug].status != "archived" || HasChildren(t, slug) then (t, Some(NotPurgeable))
      else if dbFails then (t, Some(Failed))
      else (DeleteRow(t, slug), None)
  }

  /** A create that succeeds adds this one row and changes no other. */
  lemma CreateLeaves(t: Table, slug: string, name: string, status: Option<string>, parent: string)
    requires Do(t, Create(slug, name, status, parent)).1 == None
    ensures var t' := Do(t, Create(slug, name, status, parent)).0;
            && slug !in t && t'.Keys == t.Keys + {slug} && (forall x :: x in t ==> t'[x] == t[x])
            && t'[slug].parent == (if parent == "" then None else Some(parent)) && (parent != "" ==> parent in t)
            && t'[slug].status == (if status.None? then "active" else status.value)
  {
  }

  /** A patch that succeeds changes this row alone: its parent as asked (left, cleared or set) and its
      status if one is given. */
  lemma PatchLeaves(t: Table, slug: string, status: Option<string>, parent: Option<string>)
    requires Do(t, Patch(slug, status, parent)).1 == None
    ensures var t' := Do(t, Patch(slug, status, parent)).0;
            && slug in t && t'.Keys == t.Keys && (forall x :: x in t && x != slug ==> t'[x] == t[x])
            && t'[slug].parent == (if parent.None? then t[slug].parent else if parent.value == "" then None else parent)
            && t'[slug].status == (if status.None? then t[slug].status else status.value)
  {
  }

  lemma StatusKeepsForest(t: Table, slug: string, status: string)
    requires Forest(t) && slug in t
    ensures Forest(t[slug := t[slug].(status := status)])
  {
    var rank :| Ranks(rank, t);
    assert Ranks(rank, t[slug := t[slug].(status := status)]);
  }

  lemma CreateKeepsForest(t: Table, slug: string, row: Project)
    requires Forest(t) && slug !in t && (row.parent.Some? ==> row.parent.value in t)
    ensures Forest(t[slug := row])
  {
    var rank :| Ranks(rank, t);
    var t' := t[slug := row];
    var base := if row.parent.Some? && row.parent.value in rank then rank[row.parent.value] else 0;
    var rank' := map x | x in t' :: if x == slug then base + 1 else if x in rank then rank[x] else 0;
    assert Ranks(rank', t');
  }

  lemma DoKeepsForest(t: Table, op: Op)
    requires Forest(t)
    ensures Forest(Do(t, op).0)
  {
    var t' := Do(t, op).0;
    match op {
      case Create(slug, name, status, parent) =>
        if t' != t { CreateKeepsForest(t, slug, t'[slug]); }
      case Patch(slug, status, parent) =>
        if slug in t {
          if parent.Some? { VerdictIsExact(t, slug, parent.value); }
          if t' != t {
            var moved := if parent.Some? then Reparent(t, slug, parent.value) else t;
            if status.Some? { StatusKeepsForest(moved, slug, status.value); }
          }
        }
      case Purge(slug, dbFails) =>
        var rank :| Ranks(rank, t);
        assert Ranks(rank, t');
    }
  }

  ghost function Run(t: Table, ops: seq<Op>): Table {
    if ops == [] then t else Do(Run(t, ops[..|ops| - 1]), ops[|ops| - 1]).0
  }

  /** Whatever sequence of creates, re-parentings and purges is asked for, the projects form a
      forest: parents exist and nobody is their own ancestor. */
  lemma {:induction false} AlwaysAForest(ops: seq<Op>)
    ensures Forest(Run(map[], ops))
    ensures forall x, n: nat :: x in Run(map[], ops) && n > 0 ==> Climb(Run(map[], ops), x, n) != Some(x)
  {
    if ops == [] {
      var none: map<string, nat> := map[];
      assert Ranks(none, map[]);
    } else {
      AlwaysAForest(ops[..|ops| - 1]);
      DoKeepsForest(Run(map[], ops[..|ops| - 1]), ops[|ops| - 1]);
    }
    forall x, n: nat | x in Run(map[], ops) && n > 0 ensures Climb(Run(map[], ops), x, n) != Some(x) {
      ForestHasNoCycle(Run(map[], ops), x, n);
    }
  }

  /** A purge takes one row and leaves every other as it was: the foreign key's re-rooting of
      children never comes into play. */
  lemma PurgeTakesOneRow(t: Table, slug: string, dbFails: bool)
    requires Do(t, Purge(slug, dbFails)).1 == None
    ensures Do(t, Purge(slug, dbFails)).0 == t - {slug} && slug in t && t[slug].status == "archived"
  {
    assert forall x :: x in t ==> t[x].parent != Some(slug);
  }

  // ---- the service ----

  class Projects {
    var rows: Table
    var attachments: map<string, set<string>>   // blob keys by project
    var blobs: set<string>                      // the object store

    constructor ()
      ensures rows == map[] && attachments == map[] && blobs == {}
    {
      rows, attachments, blobs := map[], map[], {};
    }

    method Create(slug: string, name: string, status: Option<string>, parent: string) returns (err: Option<Error>)
      modifies this`rows
      ensures (rows, err) == Do(old(rows), Op.Create(slug, name, status, parent))
    {
      if slug == "" || name == "" {
        return Some(BadRequest);
      }
      if !ValidStatus(status) {
        return Some(BadRequest);
      }
      err := ValidateProjectParent(rows, slug, parent);
      if err.Some? {
        return;
      }
      if status == Some("") {
        return Some(Failed);
      }
      if slug in rows {
        return Some(Duplicate);
      }
      rows := rows[slug := Project(AsParent(parent), if status.Some? then status.value else "active")];
    }

    method Patch(slug: string, status: Option<string>, parent: Option<string>) returns (err: Option<Error>)
      modifies this`rows
      ensures (rows, err) == Do(old(rows), Op.Patch(slug, status, parent))
    {
      if !ValidStatus(status) {
        return Some(BadRequest);
      }
      err := None;
      if parent.Some? {
        err := ValidateProjectParent(rows, slug, parent.value);
        if err.Some? {
          return;
        }
      }
      if slug !in rows {
        return Some(NotFound);
      }
      if status == Some("") {
        return Some(Failed);
      }
      var row := rows[slug];
      if status.Some? {
        row := row.(status := status.value);
      }
      if parent.Some? {
        row := row.(parent := AsParent(parent.value));
      }
      rows := rows[slug := row];
      assert rows == Do(old(rows), Op.Patch(slug, status, parent)).0;
    }

    /** PurgeProject. unreachable: the blobs whose deletion fails; those are only logged. */
    method Purge(slug: string, dbFails: bool, unreachable: set<string>) returns (err: Option<Error>)
      modifies this
      ensures (rows, err) == Do(old(rows), Op.Purge(slug, dbFails))
      ensures err.Some? ==> blobs == old(blobs) && attachments == old(attachments)
      ensures err.None? ==> blobs == old(blobs) - (old(Keys(slug)) - unreachable) && attachments == old(attachments) - {slug}
    {
      if slug !in rows {
        return Some(NotFound);
      }
      if rows[slug].status != "archived" {
        return Some(NotPurgeable);
      }
      var children := set x | x in rows && rows[x].parent == Some(slug);
      assert forall x :: x in children <==> x in rows && rows[x].parent == Some(slug);
      assert HasChildren(rows, slug) <==> exists x :: x in children;
      if |children| > 0 {
        return Some(NotPurgeable);
      }
      var keys := Keys(slug);   // collected while the rows still exist
      if dbFails {
        return Some(Failed);
      }
      rows := DeleteRow(rows, slug);
      attachments := attachments - {slug};
      var todo := keys;
      while todo != {}
        invariant todo <= keys
        invariant rows == DeleteRow(old(rows), slug) && attachments == old(attachments) - {slug}
        invariant blobs == old(blobs) - ((keys - todo) - unreachable)
        decreases |todo|
      {
        var k :| k in todo;
        todo := todo - {k};
        if k !in unreachable {
          blobs := blobs - {k};
        }
      }
      err := None;
    }

    function Keys(slug: string): set<string>
      reads this
    {
      if slug in attachments then attachments[slug] else {}
    }
  }
}
