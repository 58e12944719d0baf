/** projectTreeOrder: the project list flattened depth-first for pickers. */
module TreeOrder {

  /** An empty parent is no parent. */
  datatype Project = Project(slug: string, parent: string)

  datatype Entry = Entry(project: Project, depth: nat)

  function Slugs(ps: seq<Project>): set<string> { set p | p in ps :: p.slug }

  function Visited(out: seq<Entry>): set<string> { set e | e in out :: e.project.slug }

  predicate Listed(ps: seq<Project>, p: Project) { p.parent != "" && p.parent in Slugs(ps) }

  /** The projects naming s as parent, in list order. */
  function Kids(ps: seq<Project>, s: string): (r: seq<Project>)
    ensures forall c :: c in r <==> c in ps && c.parent == s && s != ""
  {
    if ps == [] then [] else
      var (rest, last) := (ps[..|ps| - 1], ps[|ps| - 1]);
      assert ps == rest + [last];
      Kids(rest, s) + if last.parent == s && s != "" then [last] else []
  }

  /** The projects of a part of the list without a parent in the whole list. */
  function Roots(all: seq<Project>, ps: seq<Project>): (r: seq<Project>)
    ensures forall c :: c in r <==> c in ps && !Listed(all, c)
  {
    if ps == [] then [] else
      var (rest, last) := (ps[..|ps| - 1], ps[|ps| - 1]);
      assert ps == rest + [last];
      Roots(all, rest) + if Listed(all, last) then [] else [last]
  }

  /** Children come in list order: of two, the one listed first. */
  lemma {:induction false} KidsInOrder(ps: seq<Project>, s: string, i: nat, j: nat) returns (a: nat, b: nat)
    requires i < j < |Kids(ps, s)|
    ensures a < b < |ps| && Kids(ps, s)[i] == ps[a] && Kids(ps, s)[j] == ps[b]
  {
    var n := |ps| - 1;
    var rest := ps[..n];
    if j < |Kids(rest, s)| {
      a, b := KidsInOrder(rest, s, i, j);
    } else {
      assert Kids(rest, s)[i] in Kids(rest, s);
      a :| 0 <= a < n && rest[a] == Kids(rest, s)[i];
      b := n;
    }
  }

  // ---- the walk ----

  /** Append p and, below it, everything not visited yet. */
  function Walk(ps: seq<Project>, out: seq<Entry>, p: Project, depth: nat): (r: seq<Entry>)
    requires p in ps
    ensures Visited(out) <= Visited(r) && p.slug in Visited(r)
    decreases Slugs(ps) - Visited(out), 0
  {
    if p.slug in Visited(out) then out else
      VisitedSnoc(out, Entry(p, depth));
      WalkAll(ps, out + [Entry(p, depth)], Kids(ps, p.slug), depth + 1)
  }

  function WalkAll(ps: seq<Project>, out: seq<Entry>, kids: seq<Project>, depth: nat): (r: seq<Entry>)
    requires forall c :: c in kids ==> c in ps
    ensures Visited(out) <= Visited(r) && forall c :: c in kids ==> c.slug in Visited(r)
    decreases Slugs(ps) - Visited(out), |kids|
  {
    if kids == [] then out else
      WalkAll(ps, Walk(ps, out, kids[0], depth), kids[1..], depth)
  }

  /** Roots first, then whatever an orphaned cycle has kept out of reach. */
  function Flatten(ps: seq<Project>): seq<Entry> {
    WalkAll(ps, WalkAll(ps, [], Roots(ps, ps), 0), ps, 0)
  }

  lemma VisitedSnoc(out: seq<Entry>, e: Entry)
    ensures Visited(out + [e]) == Visited(out) + {e.project.slug}
  {
    assert e in out + [e];
  }

  class Walker {
    const ps: seq<Project>
    const children: map<string, seq<Project>>
    var out: seq<Entry>
    var visited: set<string>

    constructor (ps: seq<Project>, children: map<string, seq<Project>>)
      ensures this.ps == ps && this.children == children && out == [] && visited == {}
    {
      this.ps, this.children := ps, children;
      out, visited := [], {};
    }

    ghost predicate Valid()
      reads this
    {
      visited == Visited(out) && Indexed(ps, ps, children)
    }

    method WalkFrom(p: Project, depth: nat)
      requires Valid() && p in ps
      modifies this
      ensures Valid() && out == Walk(ps, old(out), p, depth)
      decreases Slugs(ps) - visited, 0
    {
      if p.slug in visited {
        return;
      }
      VisitedSnoc(out, Entry(p, depth));
      visited := visited + {p.slug};
      out := out + [Entry(p, depth)];
      WalkEach(KidsIn(children, p.slug), depth + 1);
    }

    method WalkEach(list: seq<Project>, depth: nat)
      requires Valid() && forall c :: c in list ==> c in ps
      modifies this
      ensures Valid() && out == WalkAll(ps, old(out), list, depth)
      decreases Slugs(ps) - visited, |list| + 1
    {
      assert list[0..] == list;
      for i := 0 to |list|
        invariant Valid() && old(visited) <= visited
        invariant WalkAll(ps, out, list[i..], depth) == WalkAll(ps, old(out), list, depth)
      {
        WalkFrom(list[i], depth);
      }
    }
  }

  function KidsIn(children: map<string, seq<Project>>, s: string): seq<Project> {
    if s in children then children[s] else []
  }

  lemma RootsSnoc(all: seq<Project>, ps: seq<Project>, p: Project)
    ensures Roots(all, ps + [p]) == Roots(all, ps) + if Listed(all, p) then [] else [p]
  {
    assert (ps + [p])[..|ps|] == ps;
  }

  ghost predicate Indexed(all: seq<Project>, ps: seq<Project>, children: map<string, seq<Project>>) {
    forall s :: s in Slugs(all) ==> KidsIn(children, s) == Kids(ps, s)
  }

  lemma IndexChild(all: seq<Project>, ps: seq<Project>, children: map<string, seq<Project>>, p: Project)
    requires Indexed(all, ps, children)
    ensures Listed(all, p) ==>
              Indexed(all, ps + [p], children[p.parent := KidsIn(children, p.parent) + [p]])
    ensures !Listed(all, p) ==> Indexed(all, ps + [p], children)
  {
    forall s | s in Slugs(all)
      ensures Kids(ps + [p], s) == Kids(ps, s) + if p.parent == s && s != "" then [p] else []
    {
    }
  }

  /** The first loop: children by parent, and the roots. */
  method Index(ps: seq<Project>) returns (children: map<string, seq<Project>>, roots: seq<Project>)
    ensures roots == Roots(ps, ps) && Indexed(ps, ps, children)
  {
    var bySlug := Slugs(ps);
    children, roots := map[], [];
    for i := 0 to |ps|
      invariant roots == Roots(ps, ps[..i]) && Indexed(ps, ps[..i], children)
    {
      var p := ps[i];
      assert ps[..i + 1] == ps[..i] + [p];
      RootsSnoc(ps, ps[..i], p);
      IndexChild(ps, ps[..i], children, p);
      if p.parent != "" && p.parent in bySlug {
        children := children[p.parent := KidsIn(children, p.parent) + [p]];
      } else {
        roots := roots + [p];
      }
    }
    assert ps[..|ps|] == ps;
  }

  method ProjectTreeOrder(ps: seq<Project>) returns (r: seq<Entry>)
    ensures r == Flatten(ps)
  {
    var children, roots := Index(ps);
    var w := new Walker(ps, children);
    w.WalkEach(roots, 0);
    w.WalkEach(ps, 0);
    r := w.out;
  }

  // ---- every list: a permutation in depth-first form ----

  ghost predicate UniqueSlugs(ps: seq<Project>) {
    forall i, j :: 0 <= i < j < |ps| ==> ps[i].slug != ps[j].slug
  }

  function Projects(out: seq<Entry>): seq<Project> { seq(|out|, i requires 0 <= i < |out| => out[i].project) }

  /** The slugs from the top of the last entry's tree down to that entry. */
  function Path(out: seq<Entry>): seq<string> {
    if out == [] then [] else
      var (rest, e) := (out[..|out| - 1], out[|out| - 1]);
      (if e.depth <= |Path(rest)| then Path(rest)[..e.depth] else Path(rest)) + [e.project.slug]
  }

  /** e may follow out: it starts a tree, or its parent is on the path one level above. */
  predicate Follows(out: seq<Entry>, e: Entry) {
    e.depth == 0 || (e.depth <= |Path(out)| && Path(out)[e.depth - 1] == e.project.parent != "")
  }

  /** Distinct listed projects, each a legal successor of what comes before it. */
  predicate Threaded(ps: seq<Project>, out: seq<Entry>) {
    out != [] ==>
      var (rest, e) := (out[..|out| - 1], out[|out| - 1]);
      Threaded(ps, rest) && Follows(rest, e) && e.project in ps && e.project.slug !in Visited(rest)
  }

  predicate Same(a: seq<string>, b: seq<string>, depth: nat) {
    depth <= |a| && depth <= |b| && a[..depth] == b[..depth]
  }

  lemma SameBelow(a: seq<string>, b: seq<string>, c: seq<string>, depth: nat, more: nat)
    requires Same(a, b, depth) && Same(b, c, more) && depth <= more
    ensures Same(a, c, depth)
    ensures depth > 0 ==> a[depth - 1] == b[depth - 1]
  {
    assert b[..depth] == b[..more][..depth] && c[..depth] == c[..more][..depth];
    if depth > 0 { assert a[depth - 1] == a[..depth][depth - 1] && b[depth - 1] == b[..depth][depth - 1]; }
  }

  lemma StillFollow(out: seq<Entry>, mid: seq<Entry>, kids: seq<Project>, depth: nat)
    requires Same(Path(out), Path(mid), depth) && kids != []
    requires forall c :: c in kids ==> Follows(out, Entry(c, depth))
    ensures forall c :: c in kids[1..] ==> c in kids && Follows(mid, Entry(c, depth))
  {
    SameBelow(Path(out), Path(mid), Path(mid), depth, depth);
  }

  lemma KidsFollow(ps: seq<Project>, out: seq<Entry>, p: Project, depth: nat)
    requires p in ps && p.slug !in Visited(out) && Threaded(ps, out) && Follows(out, Entry(p, depth))
    ensures var next := out + [Entry(p, depth)];
      && Threaded(ps, next) && Same(Path(out), Path(next), depth) && depth + 1 <= |Path(next)|
      && forall c :: c in Kids(ps, p.slug) ==> c in ps && Follows(next, Entry(c, depth + 1))
  {
  }

  lemma {:induction false} WalkThreads(ps: seq<Project>, out: seq<Entry>, p: Project, depth: nat)
    requires p in ps && Threaded(ps, out) && Follows(out, Entry(p, depth))
    ensures Threaded(ps, Walk(ps, out, p, depth)) && Same(Path(out), Path(Walk(ps, out, p, depth)), depth)
    decreases Slugs(ps) - Visited(out), 0
  {
    if p.slug !in Visited(out) {
      var next := out + [Entry(p, depth)];
      KidsFollow(ps, out, p, depth);
      VisitedSnoc(out, Entry(p, depth));
      var kids := Kids(ps, p.slug);
      WalkAllThreads(ps, next, kids, depth + 1);
      SameBelow(Path(out), Path(next), Path(WalkAll(ps, next, kids, depth + 1)), depth, depth + 1);
    }
  }

  lemma {:induction false} WalkAllThreads(ps: seq<Project>, out: seq<Entry>, kids: seq<Project>, depth: nat)
    requires Threaded(ps, out) && depth <= |Path(out)|
    requires forall c :: c in kids ==> c in ps && Follows(out, Entry(c, depth))
    ensures Threaded(ps, WalkAll(ps, out, kids, depth))
    ensures Same(Path(out), Path(WalkAll(ps, out, kids, depth)), depth)
    decreases Slugs(ps) - Visited(out), |kids|
  {
    if kids != [] {
      WalkThreads(ps, out, kids[0], depth);
      var mid := Walk(ps, out, kids[0], depth);
      StillFollow(out, mid, kids, depth);
      WalkAllThreads(ps, mid, kids[1..], depth);
      SameBelow(Path(out), Path(mid), Path(WalkAll(ps, mid, kids[1..], depth)), depth, depth);
    }
  }

  lemma FlattenThreads(ps: seq<Project>)
    ensures Threaded(ps, Flatten(ps)) && Visited(Flatten(ps)) == Slugs(ps)
  {
    WalkAllThreads(ps, [], Roots(ps, ps), 0);
    var mid := WalkAll(ps, [], Roots(ps, ps), 0);
    WalkAllThreads(ps, mid, ps, 0);
    ThreadedListed(ps, Flatten(ps));
  }

  lemma {:induction false} ThreadedListed(ps: seq<Project>, out: seq<Entry>)
    requires Threaded(ps, out)
    ensures Visited(out) <= Slugs(ps)
    ensures forall x :: x in Projects(out) ==> x in ps
    ensures UniqueSlugs(Projects(out))
  {
    if out != [] {
      var (rest, e) := (out[..|out| - 1], out[|out| - 1]);
      ThreadedListed(ps, rest);
      assert out == rest + [e];
      VisitedSnoc(rest, e);
      assert Projects(out) == Projects(rest) + [e.project];
      forall i | 0 <= i < |rest| ensures Projects(out)[i].slug != e.project.slug {
        assert rest[i] in rest;
      }
    }
  }

  lemma {:induction false} UniqueCount(ps: seq<Project>, p: Project)
    requires UniqueSlugs(ps)
    ensures multiset(ps)[p] == if p in ps then 1 else 0
  {
    if ps != [] {
      var (rest, last) := (ps[..|ps| - 1], ps[|ps| - 1]);
      assert ps == rest + [last];
      UniqueCount(rest, p);
    }
  }

  lemma SameElements(a: seq<Project>, b: seq<Project>)
    requires UniqueSlugs(a) && UniqueSlugs(b)
    requires forall p :: p in a <==> p in b
    ensures multiset(a) == multiset(b)
  {
    forall p ensures multiset(a)[p] == multiset(b)[p] {
      UniqueCount(a, p);
      UniqueCount(b, p);
    }
  }

  /** Orphans and cycles included, the output lists exactly the input projects. */
  lemma FlattenPermutes(ps: seq<Project>)
    requires UniqueSlugs(ps)
    ensures multiset(Projects(Flatten(ps))) == multiset(ps)
  {
    var out := Flatten(ps);
    FlattenThreads(ps);
    ThreadedListed(ps, out);
    forall p | p in ps ensures p in Projects(out) {
      EntryOf(ps, out, p);
    }
    SameElements(Projects(out), ps);
  }

  lemma EntryOf(ps: seq<Project>, out: seq<Entry>, p: Project)
    requires UniqueSlugs(ps) && p in ps && p.slug in Visited(out)
    requires forall x :: x in Projects(out) ==> x in ps
    ensures p in Projects(out)
  {
    var e :| e in out && e.project.slug == p.slug;
    var i :| 0 <= i < |out| && out[i] == e;
    assert Projects(out)[i] == e.project && e.project in ps;
  }

  /** Position j holds k's parent, one level up, and nothing in between climbs out of k's level. */
  predicate ParentPosition(out: seq<Entry>, j: int, k: int) {
    && 0 <= j < k < |out|
    && out[j].project.slug == out[k].project.parent != "" && out[k].depth == out[j].depth + 1
    && forall l :: j < l < k ==> out[l].depth >= out[k].depth
  }

  lemma {:induction false} PathPosition(ps: seq<Project>, out: seq<Entry>, d: nat) returns (j: nat)
    requires Threaded(ps, out) && d < |Path(out)|
    ensures j < |out| && out[j].depth == d && out[j].project.slug == Path(out)[d]
    ensures forall l :: j < l < |out| ==> out[l].depth > d
  {
    var (rest, e) := (out[..|out| - 1], out[|out| - 1]);
    if d == e.depth {
      j := |out| - 1;
    } else {
      j := PathPosition(ps, rest, d);
    }
  }

  /** Whatever stands below the top level follows its parent, one level deeper, with only rows of
      at least its own depth between them. */
  lemma {:induction false} ParentsPrecede(ps: seq<Project>, out: seq<Entry>, k: nat)
    requires Threaded(ps, out) && k < |out| && out[k].depth > 0
    ensures exists j :: ParentPosition(out, j, k)
    decreases |out|
  {
    var rest := out[..|out| - 1];
    if k < |rest| {
      ParentsPrecede(ps, rest, k);
      var j :| ParentPosition(rest, j, k);
      assert ParentPosition(out, j, k);
    } else {
      var j := PathPosition(ps, rest, out[k].depth - 1);
      assert ParentPosition(out, j, k);
    }
  }

  /** Every row sits under its parent; a project without a listed parent is a top row. */
  lemma FlattenIsDepthFirst(ps: seq<Project>, k: nat)
    requires k < |Flatten(ps)|
    ensures Flatten(ps)[k].depth == 0 || exists j :: ParentPosition(Flatten(ps), j, k)
    ensures !Listed(ps, Flatten(ps)[k].project) ==> Flatten(ps)[k].depth == 0
  {
    var out := Flatten(ps);
    FlattenThreads(ps);
    if out[k].depth > 0 {
      ParentsPrecede(ps, out, k);
      var j :| ParentPosition(out, j, k);
      assert out[j] in out && out[j].project.slug in Visited(out);
    }
  }

  // ---- forests: the visited set is never needed ----

  function Height(h: map<string, nat>, s: string): nat { if s in h then h[s] else 0 }

  /** No cycle among the listed parents: heights below top that fall from parent to child. */
  ghost predicate Falls(ps: seq<Project>, h: map<string, nat>, top: nat) {
    && (forall p :: p in ps ==> Height(h, p.slug) < top)
    && forall p :: p in ps && Listed(ps, p) ==> Height(h, p.slug) < Height(h, p.parent)
  }

  /** The subtree of p written out: p, then the subtrees of its children in list order. */
  function Subtree(ps: seq<Project>, h: map<string, nat>, top: nat, p: Project, depth: nat): seq<Entry>
    requires Falls(ps, h, top) && p in ps
    decreases Height(h, p.slug), 1, 0
  {
    [Entry(p, depth)] + Subtrees(ps, h, top, Height(h, p.slug), Kids(ps, p.slug), depth + 1)
  }

  function Subtrees(ps: seq<Project>, h: map<string, nat>, top: nat, below: nat, kids: seq<Project>, depth: nat)
    : seq<Entry>
    requires Falls(ps, h, top) && forall c :: c in kids ==> c in ps && Height(h, c.slug) < below
    decreases below, 0, |kids|
  {
    if kids == [] then [] else
      Subtree(ps, h, top, kids[0], depth) + Subtrees(ps, h, top, below, kids[1..], depth)
  }

  ghost predicate UpClosed(ps: seq<Project>, seen: set<string>) {
    forall q :: q in ps && Listed(ps, q) && q.slug in seen ==> q.parent in seen
  }

  /** A project whose parent stands in the tree above height below, and that is not visited yet. */
  ghost predicate Ready(ps: seq<Project>, h: map<string, nat>, seen: set<string>, below: nat, c: Project) {
    && c in ps && c.slug !in seen && Height(h, c.slug) < below
    && (Listed(ps, c) ==> c.parent in seen && Height(h, c.parent) >= below)
  }

  ghost predicate AllReady(ps: seq<Project>, h: map<string, nat>, seen: set<string>, below: nat, kids: seq<Project>) {
    forall c :: c in kids ==> Ready(ps, h, seen, below, c)
  }

  /** What a walk adds, start apart, are projects with a parent below the height. */
  ghost predicate Added(ps: seq<Project>, h: map<string, nat>, added: set<string>, below: nat, start: seq<Project>) {
    forall q :: q in ps && q.slug in added && q !in start ==> Listed(ps, q) && Height(h, q.parent) < below
  }

  lemma KidsReady(ps: seq<Project>, h: map<string, nat>, top: nat, seen: set<string>, p: Project)
    requires UniqueSlugs(ps) && Falls(ps, h, top) && UpClosed(ps, seen)
    requires p in ps && p.slug !in seen && (Listed(ps, p) ==> p.parent in seen)
    ensures UpClosed(ps, seen + {p.slug}) && UniqueSlugs(Kids(ps, p.slug))
    ensures AllReady(ps, h, seen + {p.slug}, Height(h, p.slug), Kids(ps, p.slug))
  {
    SlugNames(ps);
    UniqueParts(ps, ps, p.slug);
    forall c | c in Kids(ps, p.slug) ensures Ready(ps, h, seen + {p.slug}, Height(h, p.slug), c) {
      assert Listed(ps, c);
    }
  }

  lemma AddedBelow(ps: seq<Project>, h: map<string, nat>, seen: set<string>, p: Project, after: set<string>)
    requires UniqueSlugs(ps) && p in ps
    requires Added(ps, h, after - (seen + {p.slug}), Height(h, p.slug), Kids(ps, p.slug))
    ensures Added(ps, h, after - seen, Height(h, p.slug) + 1, [p])
  {
    SlugNames(ps);
    forall q | q in ps && q.slug in after - seen && q !in [p]
      ensures Listed(ps, q) && Height(h, q.parent) < Height(h, p.slug) + 1
    {
      if q in Kids(ps, p.slug) { assert Listed(ps, q); }
    }
  }

  lemma Regroup(a: seq<Entry>, e: Entry, b: seq<Entry>)
    ensures (a + [e]) + b == a + ([e] + b)
  {
  }

  lemma {:induction false} WalkIsSubtree(
    ps: seq<Project>, h: map<string, nat>, top: nat, out: seq<Entry>, p: Project, depth: nat)
    requires UniqueSlugs(ps) && Falls(ps, h, top) && UpClosed(ps, Visited(out))
    requires p in ps && p.slug !in Visited(out) && (Listed(ps, p) ==> p.parent in Visited(out))
    ensures var r := Walk(ps, out, p, depth);
      && r == out + Subtree(ps, h, top, p, depth) && UpClosed(ps, Visited(r))
      && Added(ps, h, Visited(r) - Visited(out), Height(h, p.slug) + 1, [p])
    decreases Slugs(ps) - Visited(out), 0
  {
    var next := out + [Entry(p, depth)];
    VisitedSnoc(out, Entry(p, depth));
    KidsReady(ps, h, top, Visited(out), p);
    WalkAllIsSubtrees(ps, h, top, next, Height(h, p.slug), Kids(ps, p.slug), depth + 1);
    var below := Subtrees(ps, h, top, Height(h, p.slug), Kids(ps, p.slug), depth + 1);
    Regroup(out, Entry(p, depth), below);
    AddedBelow(ps, h, Visited(out), p, Visited(next + below));
  }

  lemma StillReady(ps: seq<Project>, h: map<string, nat>, seen: set<string>, mid: set<string>, below: nat,
                   kids: seq<Project>)
    requires UniqueSlugs(ps) && UniqueSlugs(kids) && kids != [] && seen <= mid
    requires AllReady(ps, h, seen, below, kids) && Added(ps, h, mid - seen, Height(h, kids[0].slug) + 1, [kids[0]])
    ensures AllReady(ps, h, mid, below, kids[1..])
  {
    assert Ready(ps, h, seen, below, kids[0]) by { assert kids[0] in kids; }
    forall c | c in kids[1..] ensures Ready(ps, h, mid, below, c) {
      assert c in kids;
    }
  }

  lemma {:induction false} WalkAllIsSubtrees(
    ps: seq<Project>, h: map<string, nat>, top: nat, out: seq<Entry>, below: nat, kids: seq<Project>, depth: nat)
    requires UniqueSlugs(ps) && Falls(ps, h, top) && UpClosed(ps, Visited(out))
    requires UniqueSlugs(kids) && AllReady(ps, h, Visited(out), below, kids)
    ensures var r := WalkAll(ps, out, kids, depth);
      && r == out + Subtrees(ps, h, top, below, kids, depth) && UpClosed(ps, Visited(r))
      && Added(ps, h, Visited(r) - Visited(out), below, kids)
    decreases Slugs(ps) - Visited(out), |kids|
  {
    if kids != [] {
      assert Ready(ps, h, Visited(out), below, kids[0]) by { assert kids[0] in kids; }
      WalkIsSubtree(ps, h, top, out, kids[0], depth);
      var mid := Walk(ps, out, kids[0], depth);
      StillReady(ps, h, Visited(out), Visited(mid), below, kids);
      WalkAllIsSubtrees(ps, h, top, mid, below, kids[1..], depth);
    }
  }

  lemma SlugNames(ps: seq<Project>)
    requires UniqueSlugs(ps)
    ensures forall p, q :: p in ps && q in ps && p.slug == q.slug ==> p == q
  {
  }

  lemma {:induction false} UniqueParts(all: seq<Project>, ps: seq<Project>, s: string)
    requires UniqueSlugs(ps)
    ensures UniqueSlugs(Roots(all, ps)) && UniqueSlugs(Kids(ps, s))
  {
    if ps != [] {
      var (rest, last) := (ps[..|ps| - 1], ps[|ps| - 1]);
      UniqueParts(all, rest, s);
      forall c | c in Roots(all, rest) + Kids(rest, s) ensures c.slug != last.slug {
        assert c in rest;
      }
    }
  }

  /** Whatever a walk adds, it also finishes. */
  ghost predicate Finished(ps: seq<Project>, added: set<string>, seen: set<string>) {
    forall q :: q in ps && Listed(ps, q) && q.parent in added ==> q.slug in seen
  }

  lemma {:induction false} WalkFinishes(ps: seq<Project>, out: seq<Entry>, p: Project, depth: nat)
    requires p in ps
    ensures var seen := Visited(Walk(ps, out, p, depth)); Finished(ps, seen - Visited(out), seen)
    decreases Slugs(ps) - Visited(out), 0
  {
    if p.slug !in Visited(out) {
      VisitedSnoc(out, Entry(p, depth));
      WalkAllFinishes(ps, out + [Entry(p, depth)], Kids(ps, p.slug), depth + 1);
    }
  }

  lemma {:induction false} WalkAllFinishes(ps: seq<Project>, out: seq<Entry>, kids: seq<Project>, depth: nat)
    requires forall c :: c in kids ==> c in ps
    ensures var seen := Visited(WalkAll(ps, out, kids, depth)); Finished(ps, seen - Visited(out), seen)
    decreases Slugs(ps) - Visited(out), |kids|
  {
    if kids != [] {
      WalkFinishes(ps, out, kids[0], depth);
      WalkAllFinishes(ps, Walk(ps, out, kids[0], depth), kids[1..], depth);
    }
  }

  lemma {:induction false} EveryoneReached(
    ps: seq<Project>, h: map<string, nat>, top: nat, seen: set<string>, p: Project)
    requires Falls(ps, h, top) && p in ps && Finished(ps, seen, seen)
    requires forall q :: q in Roots(ps, ps) ==> q.slug in seen
    ensures p.slug in seen
    decreases top - Height(h, p.slug)
  {
    if Listed(ps, p) {
      var q :| q in ps && q.slug == p.parent;
      EveryoneReached(ps, h, top, seen, q);
    } else {
      assert p in Roots(ps, ps);
    }
  }

  lemma {:induction false} NothingLeft(ps: seq<Project>, out: seq<Entry>, rest: seq<Project>)
    requires forall c :: c in rest ==> c in ps && c.slug in Visited(out)
    ensures WalkAll(ps, out, rest, 0) == out
    decreases |rest|
  {
    if rest != [] {
      assert rest[0] in rest;
      NothingLeft(ps, out, rest[1..]);
    }
  }

  /** On a forest the list is the roots' subtrees written out one after the other: each subtree is
      one block, children in list order, and the last pass adds nothing. */
  lemma ForestWrittenOut(ps: seq<Project>, h: map<string, nat>, top: nat)
    requires UniqueSlugs(ps) && Falls(ps, h, top)
    ensures Flatten(ps) == Subtrees(ps, h, top, top, Roots(ps, ps), 0)
  {
    var roots := Roots(ps, ps);
    UniqueParts(ps, ps, "");
    WalkAllIsSubtrees(ps, h, top, [], top, roots, 0);
    var mid := WalkAll(ps, [], roots, 0);
    WalkAllFinishes(ps, [], roots, 0);
    assert Visited([]) == {};
    forall p | p in ps ensures p.slug in Visited(mid) {
      EveryoneReached(ps, h, top, Visited(mid), p);
    }
    NothingLeft(ps, mid, ps);
  }

  /** A forest shows exactly the parentless projects at the top. */
  lemma ForestTops(ps: seq<Project>, h: map<string, nat>, top: nat, k: nat)
    requires UniqueSlugs(ps) && Falls(ps, h, top) && k < |Flatten(ps)|
    ensures Flatten(ps)[k].depth == 0 <==> !Listed(ps, Flatten(ps)[k].project)
  {
    FlattenIsDepthFirst(ps, k);
    ForestWrittenOut(ps, h, top);
    SubtreesTops(ps, h, top, top, Roots(ps, ps), 0, k);
  }

  lemma {:induction false} SubtreesTops(
    ps: seq<Project>, h: map<string, nat>, top: nat, below: nat, kids: seq<Project>, depth: nat, k: nat)
    requires Falls(ps, h, top) && forall c :: c in kids ==> c in ps && Height(h, c.slug) < below
    requires k < |Subtrees(ps, h, top, below, kids, depth)|
    ensures var e := Subtrees(ps, h, top, below, kids, depth)[k];
      e.depth >= depth && (e.depth == depth ==> e.project in kids)
    decreases below, |kids|
  {
    var first := Subtree(ps, h, top, kids[0], depth);
    if k == 0 {
    } else if k < |first| {
      SubtreesTops(ps, h, top, Height(h, kids[0].slug), Kids(ps, kids[0].slug), depth + 1, k - 1);
    } else {
      SubtreesTops(ps, h, top, below, kids[1..], depth, k - |first|);
    }
  }
}
