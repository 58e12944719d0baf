/** Where a share comes to rest: two crossing edits, and an edit that follows another. */
module Convergence {
  import opened Prelude
  import opened SyncProtocol
  import opened ItemMerge
  import opened ShareState
  import opened TwoSides

  function H(p: ItemPayload): Hash { ContentHash(ItemBody(p)) }

  predicate AllAre(q: seq<ItemPayload>, m: ItemPayload) { forall i :: 0 <= i < |q| ==> q[i] == m }

  /** A cell holding content p. */
  predicate Holds(c: Cell, p: ItemPayload) { c.row.Some? && ContentOf(c) == p }

  // ---- crossing edits ----

  /** Both sides edited away from their base and have just sent what they hold. */
  predicate Crossed(s: Sys, x: ItemPayload, y: ItemPayload) {
    && x.id == y.id
    && Holds(s.a, x) && s.a.sent == H(x) && s.a.base != H(x)
    && Holds(s.b, y) && s.b.sent == H(y) && s.b.base != H(y)
    && s.toA == [y] && s.toB == [x]
  }

  /** What the merging side stores: the merge, under its own creation time. */
  function Merged(me: string, peer: string, own: ItemPayload, other: ItemPayload): ItemPayload {
    MergeConflict(me, peer, own, other).(createdAt := own.createdAt)
  }

  /** One side of a crossing on its way to m: either it has not read the peer's edit yet,
      or it holds m; every further message in its mailbox is m. */
  predicate OnTheWay(c: Cell, own: ItemPayload, peer: ItemPayload, m: ItemPayload, inbox: seq<ItemPayload>) {
    || (&& Holds(c, own) && c.sent == H(own) && c.base != H(own)
        && inbox != [] && inbox[0] == peer && AllAre(inbox[1..], m))
    || (Holds(c, m) && c.base == H(m) && (c.sent == H(own) || c.sent == H(m)) && AllAre(inbox, m))
  }

  lemma PullOnTheWay(c: Cell, d: Delivery, own: ItemPayload, peer: ItemPayload, m: ItemPayload,
                     inbox: seq<ItemPayload>)
    requires OnTheWay(c, own, peer, m, inbox) && inbox != [] && d.remote == inbox[0]
    requires m == Merged(d.me, d.origin, own, peer) && own.id == peer.id && Complete(peer)
    ensures OnTheWay(Apply(c, d), own, peer, m, inbox[1..])
  {
    if Dirty(c) { MergedApply(c, d); } else { VerbatimApply(c, d); }
  }

  lemma SendOnTheWay(c: Cell, own: ItemPayload, peer: ItemPayload, m: ItemPayload, inbox: seq<ItemPayload>)
    requires OnTheWay(c, own, peer, m, inbox) && Unsent(c)
    ensures Holds(c, m) && OnTheWay(MarkSent(c), own, peer, m, inbox)
  {
  }

  lemma {:induction false} CrossingStays(p: Pair, s: Sys, x: ItemPayload, y: ItemPayload, m: ItemPayload, run: seq<Step>)
    requires NoEdits(run) && x.id == y.id && Complete(x) && Complete(y)
    requires m == Merged(p.idA, p.idB, x, y) == Merged(p.idB, p.idA, y, x)
    requires OnTheWay(s.a, x, y, m, s.toA) && OnTheWay(s.b, y, x, m, s.toB)
    ensures var t := Run(p, s, run);
            OnTheWay(t.a, x, y, m, t.toA) && OnTheWay(t.b, y, x, m, t.toB)
    decreases |run|
  {
    if run != [] {
      assert run[0] in run;
      match run[0] {
        case PullA =>
          if s.toA != [] { PullOnTheWay(s.a, Delivery(p.idA, p.idB, p.projectA, s.toA[0]), x, y, m, s.toA); }
        case PullB =>
          if s.toB != [] { PullOnTheWay(s.b, Delivery(p.idB, p.idA, p.projectB, s.toB[0]), y, x, m, s.toB); }
        case PushA => if Unsent(s.a) { SendOnTheWay(s.a, x, y, m, s.toA); }
        case PushB => if Unsent(s.b) { SendOnTheWay(s.b, y, x, m, s.toB); }
      }
      CrossingStays(p, Next(p, s, run[0]), x, y, m, run[1..]);
    }
  }

  lemma MergedSymmetric(idA: string, idB: string, x: ItemPayload, y: ItemPayload)
    requires idA != idB && Agree(x, y)
    ensures Merged(idA, idB, x, y) == Merged(idB, idA, y, x)
  {
    MergeSymmetric(idA, idB, x, y);
  }

  /** Crossing edits of rows that agree on the unreconciled fields: whenever the share comes to
      rest, on whatever interleaving, both sides hold the one merged row. */
  lemma CrossingConverges(p: Pair, s: Sys, x: ItemPayload, y: ItemPayload, run: seq<Step>)
    requires p.idA != p.idB && Crossed(s, x, y) && Agree(x, y) && NoEdits(run)
    requires Quiet(Run(p, s, run))
    ensures var t := Run(p, s, run);
            && Holds(t.a, Merged(p.idA, p.idB, x, y)) && Holds(t.b, Merged(p.idA, p.idB, x, y))
            && !Dirty(t.a) && !Dirty(t.b)
  {
    MergedSymmetric(p.idA, p.idB, x, y);
    CrossingStays(p, s, x, y, Merged(p.idA, p.idB, x, y), run);
  }

  /** Of two clashing texts both sides then show the lower id's, the separator, and the higher id's. */
  lemma CrossingText(p: Pair, s: Sys, x: ItemPayload, y: ItemPayload, run: seq<Step>)
    requires p.idA != p.idB && Crossed(s, x, y) && Agree(x, y) && NoEdits(run)
    requires Quiet(Run(p, s, run)) && TextsClash(x.body, y.body)
    ensures var t := Run(p, s, run);
            var (first, second) := if Less(p.idA, p.idB) then (x.body, y.body) else (y.body, x.body);
            && t.a.row.Some? && Joins(ContentOf(t.a).body, first, second)
            && t.b.row.Some? && Joins(ContentOf(t.b).body, first, second)
  {
    LessIsStrictTotal(p.idA, p.idB);
    CrossingConverges(p, s, x, y, run);
    if Less(p.idA, p.idB) { LowerTextFirst(p.idA, p.idB, x, y); } else { LowerTextFirst(p.idB, p.idA, y, x); }
  }

  /** The schedule on which both sides merge before either merge arrives. */
  const CROSSING: seq<Step> := [PullA, PullB, PushA, PushB, PullA, PullB]

  /** The first half of that schedule: both sides have merged and offered their merge. */
  lemma BothMerged(p: Pair, s: Sys, x: ItemPayload, y: ItemPayload) returns (t: Sys)
    requires Crossed(s, x, y) && Complete(x) && Complete(y)
    ensures t == Next(p, Next(p, Next(p, Next(p, s, PullA), PullB), PushA), PushB)
    ensures var ma := Merged(p.idA, p.idB, x, y);
            var mb := Merged(p.idB, p.idA, y, x);
            && Holds(t.a, ma) && t.a.base == t.a.sent == H(ma)
            && Holds(t.b, mb) && t.b.base == t.b.sent == H(mb)
            && t.toB == (if ma == x then [] else [ma]) && t.toA == (if mb == y then [] else [mb])
  {
    var dA := Delivery(p.idA, p.idB, p.projectA, y);
    var dB := Delivery(p.idB, p.idA, p.projectB, x);
    MergedApply(s.a, dA);
    MergedApply(s.b, dB);
    var s1 := Next(p, s, PullA);
    assert s1 == Sys(Apply(s.a, dA), s.b, [], [x]);
    var s2 := Next(p, s1, PullB);
    assert s2 == Sys(Apply(s.a, dA), Apply(s.b, dB), [], []);
    t := Next(p, Next(p, s2, PushA), PushB);
  }

  /** Rows that disagree on an unreconciled field end up different when the merges cross. */
  lemma CrossingDiverges(p: Pair, s: Sys, x: ItemPayload, y: ItemPayload)
    requires Crossed(s, x, y) && !Agree(x, y)
    ensures var t := Run(p, s, CROSSING);
            Quiet(t) && t.a.row.Some? && t.b.row.Some? && ContentOf(t.a) != ContentOf(t.b)
  {
    assert Complete(x) && Complete(y) by { assert ContentOf(s.a) == x && ContentOf(s.b) == y; }
    var ma := Merged(p.idA, p.idB, x, y);
    var mb := Merged(p.idB, p.idA, y, x);
    var t := BothMerged(p, s, x, y);
    if t.toA != [] { VerbatimStored(t.a, Delivery(p.idA, p.idB, p.projectA, mb)); }
    var u := Next(p, t, PullA);
    if t.toB != [] { VerbatimStored(t.b, Delivery(p.idB, p.idA, p.projectB, ma)); }
  }

  lemma VerbatimStored(c: Cell, d: Delivery)
    requires c.row.Some? && !Dirty(c) && Complete(d.remote) && c.row.value.id == d.remote.id
    ensures ContentOf(Apply(c, d)) == d.remote.(createdAt := c.row.value.createdAt)
    ensures !Unsent(Apply(c, d))
  {
    StoredPayload(d.projectId, c.row.value, d.remote);
  }

  /** The whole truth about a crossing: every interleaving that comes to rest leaves equal rows
      exactly when the two edits agree on what the merge and the upsert do not reconcile. */
  lemma CrossingConvergesIff(p: Pair, s: Sys, x: ItemPayload, y: ItemPayload)
    requires p.idA != p.idB && Crossed(s, x, y)
    ensures Agree(x, y) <==>
            forall run :: NoEdits(run) && Quiet(Run(p, s, run)) ==>
              var t := Run(p, s, run); t.a.row.Some? && t.b.row.Some? && ContentOf(t.a) == ContentOf(t.b)
  {
    if Agree(x, y) {
      forall run | NoEdits(run) && Quiet(Run(p, s, run))
        ensures var t := Run(p, s, run); t.a.row.Some? && t.b.row.Some? && ContentOf(t.a) == ContentOf(t.b)
      {
        CrossingConverges(p, s, x, y, run);
      }
    } else {
      CrossingDiverges(p, s, x, y);
      assert NoEdits(CROSSING);
    }
  }

  /** And it does come to rest: six rounds settle any crossing of agreeing rows on the merge. */
  lemma CrossingSettles(p: Pair, s: Sys, x: ItemPayload, y: ItemPayload, rounds: seq<seq<Step>>)
    requires p.idA != p.idB && Crossed(s, x, y) && Agree(x, y)
    requires |rounds| >= 6 && forall r :: r in rounds ==> Round(r)
    ensures var t := RunRounds(p, s, rounds);
            Quiet(t) && Holds(t.a, Merged(p.idA, p.idB, x, y)) && Holds(t.b, Merged(p.idA, p.idB, x, y))
  {
    assert Potential(s) == 6;
    RoundsBringQuiet(p, s, rounds);
    var run := Flatten(p, s, rounds);
    CrossingConverges(p, s, x, y, run);
  }

  lemma {:induction false} Flatten(p: Pair, s: Sys, rounds: seq<seq<Step>>) returns (run: seq<Step>)
    requires forall r :: r in rounds ==> Round(r)
    ensures NoEdits(run) && Run(p, s, run) == RunRounds(p, s, rounds)
    decreases |rounds|
  {
    if rounds == [] {
      run := [];
    } else {
      assert rounds[0] in rounds;
      var rest := Flatten(p, Run(p, s, rounds[0]), rounds[1..]);
      run := rounds[0] + rest;
      RunConcat(p, s, rounds[0], rest);
    }
  }

  // ---- an edit that follows another ----

  /** A edited, sent p, and B took it over; nothing is in flight. Sending does not advance A's
      base, so A still counts as dirty. */
  predicate Handed(s: Sys, p: ItemPayload) {
    && Holds(s.a, p) && s.a.sent == H(p) && s.a.base != H(p)
    && Holds(s.b, p) && s.b.sent == s.b.base == H(p)
    && s.toA == [] && s.toB == []
  }

  /** Sharing a row for the first time leads there. */
  lemma FirstShareHandsOver(pr: Pair, s: Sys, p: ItemPayload)
    requires Holds(s.a, p) && s.a.sent != H(p) && s.a.base != H(p)
    requires s.b.row.None? && s.toA == [] && s.toB == []
    ensures Handed(Next(pr, Next(pr, s, PushA), PullB), p)
  {
    var t := Next(pr, s, PushA);
    assert t.toB == [p];
    VerbatimApply(t.b, Delivery(pr.idB, pr.idA, pr.projectB, p));
  }

  /** The sides after B's later edit z, on their way to A's merge m of p and z. */
  predicate Following(s: Sys, p: ItemPayload, z: ItemPayload, m: ItemPayload) {
    && ((&& Holds(s.a, p) && s.a.sent == H(p) && s.a.base != H(p) && s.toB == []
         && Holds(s.b, z) && s.b.base == H(p)
         && ((s.toA == [] && s.b.sent == H(p)) || (s.toA == [z] && s.b.sent == H(z))))
        || (&& Holds(s.a, m) && s.a.base == H(m) && AllAre(s.toA, m)
            && ((&& Holds(s.b, z) && s.b.base == H(p) && s.b.sent == H(z) && s.toA == []
                 && ((s.toB == [] && s.a.sent == H(p)) || (s.toB == [m] && s.a.sent == H(m) && m != p)))
                || (&& m != p && Holds(s.b, m) && s.b.base == H(m) && (s.b.sent == H(z) || s.b.sent == H(m))
                    && s.toB == [] && s.a.sent == H(m)))))
  }

  /** B, still holding z, meets A's merge of p and z: its own merge reproduces it. */
  lemma MergeMeetsOriginal(idA: string, idB: string, p: ItemPayload, z: ItemPayload)
    requires idA != idB && p.id == z.id && p.createdAt == z.createdAt
    ensures var m := Merged(idA, idB, p, z); Merged(idB, idA, z, m) == m
  {
    MergeAbsorbs(idA, idB, p, z);
  }

  lemma FollowingStep(pr: Pair, s: Sys, p: ItemPayload, z: ItemPayload, m: ItemPayload, step: Step)
    requires pr.idA != pr.idB && !IsEdit(step)
    requires p.id == z.id && p.createdAt == z.createdAt && p != z && Complete(p) && Complete(z)
    requires m == Merged(pr.idA, pr.idB, p, z)
    requires Following(s, p, z, m)
    ensures Following(Next(pr, s, step), p, z, m)
  {
    match step {
      case PullA =>
        if s.toA != [] {
          var d := Delivery(pr.idA, pr.idB, pr.projectA, s.toA[0]);
          if Dirty(s.a) { MergedApply(s.a, d); } else { VerbatimApply(s.a, d); }
        }
      case PullB =>
        if s.toB != [] {
          var d := Delivery(pr.idB, pr.idA, pr.projectB, s.toB[0]);
          MergeMeetsOriginal(pr.idA, pr.idB, p, z);
          MergedApply(s.b, d);
        }
      case PushA =>
      case PushB =>
    }
  }

  lemma {:induction false} FollowingStays(pr: Pair, s: Sys, p: ItemPayload, z: ItemPayload, m: ItemPayload, run: seq<Step>)
    requires pr.idA != pr.idB && NoEdits(run)
    requires p.id == z.id && p.createdAt == z.createdAt && p != z && Complete(p) && Complete(z)
    requires m == Merged(pr.idA, pr.idB, p, z)
    requires Following(s, p, z, m)
    ensures Following(Run(pr, s, run), p, z, m)
    decreases |run|
  {
    if run != [] {
      assert run[0] in run;
      FollowingStep(pr, s, p, z, m, run[0]);
      FollowingStays(pr, Next(pr, s, run[0]), p, z, m, run[1..]);
    }
  }

  /** B edits p into z long after A sent p. Wherever the interleaving comes to rest, A holds the
      merge of its own old text with the edit, and B holds that merge too unless it is exactly
      what A had sent: then A never answers, and B keeps z. */
  lemma FollowingEditSettles(pr: Pair, s: Sys, p: ItemPayload, edited: Item, run: seq<Step>)
    requires pr.idA != pr.idB && NoEdits(run)
    requires Handed(s, p)
    requires edited.id == p.id && edited.createdAt == p.createdAt && PayloadOf(edited) != p
    requires Quiet(Run(pr, Next(pr, s, EditB(edited)), run))
    ensures var t := Run(pr, Next(pr, s, EditB(edited)), run);
            var m := Merged(pr.idA, pr.idB, p, PayloadOf(edited));
            && Holds(t.a, m)
            && Holds(t.b, if m == p then PayloadOf(edited) else m)
  {
    assert Complete(p) by { assert ContentOf(s.a) == p; }
    FollowingStays(pr, Next(pr, s, EditB(edited)), p, PayloadOf(edited),
                   Merged(pr.idA, pr.idB, p, PayloadOf(edited)), run);
  }

  lemma BodyWinner(x: string, y: string, xFirst: bool)
    ensures MergeBody(x, y, xFirst) == y <==> Contains(y, x)
    ensures MergeBody(x, y, xFirst) == x <==> Contains(x, y)
  {
    ContainsSelf(x);
    ContainsSelf(y);
    MergeBodyKeepsBoth(x, y, xFirst);
  }

  predicate SameScalars(p: ItemPayload, q: ItemPayload) {
    && p.title == q.title && p.status == q.status && p.priority == q.priority
    && p.kind == q.kind && p.assignee == q.assignee && p.tags == q.tags
  }

  /** B's later edit reaches A as written. */
  predicate EditGetsThrough(idA: string, idB: string, p: ItemPayload, z: ItemPayload) {
    && Contains(z.body, p.body)
    && (Less(idA, idB) || SameScalars(p, z))
    && (p.deletedAt.Some? ==> z.deletedAt.Some?)
  }

  /** A takes nothing from B's later edit. */
  predicate EditIsSwallowed(idA: string, idB: string, p: ItemPayload, z: ItemPayload) {
    && Contains(p.body, z.body)
    && (Less(idB, idA) || SameScalars(p, z))
    && p.externalRef == z.externalRef && p.metadata == z.metadata
    && p.acceptanceCriteria == z.acceptanceCriteria && p.closedAt == z.closedAt
    && (z.deletedAt.Some? ==> p.deletedAt == z.deletedAt)
  }

  lemma FollowingMergeCases(idA: string, idB: string, p: ItemPayload, z: ItemPayload)
    requires idA != idB && p.id == z.id && p.createdAt == z.createdAt
    ensures Merged(idA, idB, p, z) == z <==> EditGetsThrough(idA, idB, p, z)
    ensures Merged(idA, idB, p, z) == p <==> EditIsSwallowed(idA, idB, p, z)
  {
    LessIsStrictTotal(idA, idB);
    BodyWinner(p.body, z.body, Less(idA, idB));
  }

  /** Two people taking turns, never editing at the same time: on every interleaving that comes
      to rest, A shows B's edit exactly when EditGetsThrough, and the two sides differ for good
      exactly when EditIsSwallowed. Both can be read off the two rows before the edit is made. */
  lemma TakingTurns(pr: Pair, s: Sys, p: ItemPayload, edited: Item, run: seq<Step>)
    requires pr.idA != pr.idB && NoEdits(run)
    requires Handed(s, p)
    requires edited.id == p.id && edited.createdAt == p.createdAt && PayloadOf(edited) != p
    requires Quiet(Run(pr, Next(pr, s, EditB(edited)), run))
    ensures var t := Run(pr, Next(pr, s, EditB(edited)), run);
            var z := PayloadOf(edited);
            && t.a.row.Some? && t.b.row.Some?
            && (ContentOf(t.a) == z <==> EditGetsThrough(pr.idA, pr.idB, p, z))
            && (ContentOf(t.a) != ContentOf(t.b) <==> EditIsSwallowed(pr.idA, pr.idB, p, z))
  {
    FollowingEditSettles(pr, s, p, edited, run);
    FollowingMergeCases(pr.idA, pr.idB, p, PayloadOf(edited));
  }

  const CLOSED_STATUSES := {"done", "wontfix"}

  /** UpdateItem given nothing but a status: closing stamps the row once, any other status clears
      the stamp. */
  function StatusEdit(p: ItemPayload, status: string, now: int): ItemPayload {
    p.(status := status,
       closedAt := if status !in CLOSED_STATUSES then None else if p.closedAt.Some? then p.closedAt else Some(now))
  }

  /** A later status edit by the instance with the lower id is lost on the other side for good
      exactly when it neither closes nor reopens the item. */
  lemma StatusEditOfLowerIdIsSwallowedIff(idA: string, idB: string, p: ItemPayload, status: string, now: int)
    requires Less(idB, idA)
    ensures EditIsSwallowed(idA, idB, p, StatusEdit(p, status, now))
            <==> (status in CLOSED_STATUSES <==> p.closedAt.Some?)
  {
    ContainsSelf(p.body);
  }

  /** Where every later status edit ends, on every interleaving that comes to rest. By the higher id
      it arrives. By the lower id the old status wins: if the edit closed or reopened the item it is
      undone on the editor's own side too, and both rows keep the old status with the new closing
      time; if not, the two sides differ. */
  lemma StatusEditSettles(pr: Pair, s: Sys, p: ItemPayload, edited: Item, status: string, now: int, run: seq<Step>)
    requires pr.idA != pr.idB && NoEdits(run)
    requires Handed(s, p)
    requires PayloadOf(edited) == StatusEdit(p, status, now) != p
    requires Quiet(Run(pr, Next(pr, s, EditB(edited)), run))
    ensures var t := Run(pr, Next(pr, s, EditB(edited)), run);
            var z := StatusEdit(p, status, now);
            var undone := p.(closedAt := z.closedAt);
            if Less(pr.idA, pr.idB) then Holds(t.a, z) && Holds(t.b, z)
            else Holds(t.a, undone)
                 && Holds(t.b, if status in CLOSED_STATUSES <==> p.closedAt.Some? then z else undone)
  {
    var z := StatusEdit(p, status, now);
    assert edited.id == z.id && edited.createdAt == z.createdAt;
    FollowingEditSettles(pr, s, p, edited, run);
    LessIsStrictTotal(pr.idA, pr.idB);
    assert Merged(pr.idA, pr.idB, p, z) == if Less(pr.idA, pr.idB) then z else p.(closedAt := z.closedAt);
  }

  // ---- turn after turn ----

  /** Nothing in flight, one content on both sides, and B counts it as agreed. A may not. */
  predicate Shared(s: Sys, p: ItemPayload) {
    && Holds(s.a, p) && s.a.sent == H(p)
    && Holds(s.b, p) && s.b.sent == s.b.base == H(p)
    && s.toA == [] && s.toB == []
  }

  /** Both sides count it as agreed. */
  predicate Clean(s: Sys, p: ItemPayload) { Shared(s, p) && s.a.base == H(p) }

  /** A's edit z of shared content p on its way to B. */
  predicate Handing(s: Sys, p: ItemPayload, z: ItemPayload) {
    && Holds(s.a, z) && s.toA == []
    && ((&& Holds(s.b, p) && s.b.sent == s.b.base == H(p)
         && ((s.toB == [] && s.a.sent == H(p)) || (s.toB == [z] && s.a.sent == H(z))))
        || (Holds(s.b, z) && s.b.sent == s.b.base == H(z) && s.toB == [] && s.a.sent == H(z)))
  }

  lemma {:induction false} HandingStays(pr: Pair, s: Sys, p: ItemPayload, z: ItemPayload, run: seq<Step>)
    requires NoEdits(run) && Handing(s, p, z)
    requires p.id == z.id && p.createdAt == z.createdAt && p != z && Complete(z)
    ensures Handing(Run(pr, s, run), p, z)
    decreases |run|
  {
    if run != [] {
      assert run[0] in run;
      if run[0].PullB? && s.toB != [] {
        VerbatimApply(s.b, Delivery(pr.idB, pr.idA, pr.projectB, z));
      }
      HandingStays(pr, Next(pr, s, run[0]), p, z, run[1..]);
    }
  }

  /** The side that shared last may go on editing: each of its edits arrives as written, on every
      interleaving that comes to rest, and leads to the same kind of state. From a clean state that
      holds of either side (see MirrorRun for B). */
  lemma SendersNextEditArrives(pr: Pair, s: Sys, p: ItemPayload, edited: Item, run: seq<Step>)
    requires Shared(s, p) && NoEdits(run)
    requires edited.id == p.id && edited.createdAt == p.createdAt && PayloadOf(edited) != p
    requires Quiet(Run(pr, Next(pr, s, EditA(edited)), run))
    ensures Shared(Run(pr, Next(pr, s, EditA(edited)), run), PayloadOf(edited))
  {
    HandingStays(pr, Next(pr, s, EditA(edited)), p, PayloadOf(edited), run);
  }

  /** The receiver's edit, when it is not swallowed, leaves a clean state: the next turn is free. */
  lemma FollowingEndsClean(pr: Pair, s: Sys, p: ItemPayload, edited: Item, run: seq<Step>)
    requires pr.idA != pr.idB && NoEdits(run)
    requires Handed(s, p)
    requires edited.id == p.id && edited.createdAt == p.createdAt && PayloadOf(edited) != p
    requires !EditIsSwallowed(pr.idA, pr.idB, p, PayloadOf(edited))
    requires Quiet(Run(pr, Next(pr, s, EditB(edited)), run))
    ensures Clean(Run(pr, Next(pr, s, EditB(edited)), run), Merged(pr.idA, pr.idB, p, PayloadOf(edited)))
  {
    assert Complete(p) by { assert ContentOf(s.a) == p; }
    FollowingMergeCases(pr.idA, pr.idB, p, PayloadOf(edited));
    FollowingStays(pr, Next(pr, s, EditB(edited)), p, PayloadOf(edited),
                   Merged(pr.idA, pr.idB, p, PayloadOf(edited)), run);
  }

  /** From a clean state B's edit arrives as written, too. */
  lemma CleanEditArrives(pr: Pair, s: Sys, p: ItemPayload, edited: Item, run: seq<Step>)
    requires Clean(s, p) && NoEdits(run)
    requires edited.id == p.id && edited.createdAt == p.createdAt && PayloadOf(edited) != p
    requires Quiet(Run(pr, Next(pr, s, EditB(edited)), run))
    ensures Shared(Mirror(Run(pr, Next(pr, s, EditB(edited)), run)), PayloadOf(edited))
  {
    var s1 := Next(pr, s, EditB(edited));
    MirrorRun(pr, s1, run);
    MirrorNoEdits(run);
    MirrorNext(pr, s, EditB(edited));
    SendersNextEditArrives(MirrorPair(pr), Mirror(s), p, edited, MirrorSteps(run));
  }

  // ---- a message applied twice ----

  /** Applying a message to a row changes nothing exactly in this case, whatever happened before. */
  lemma ApplyChangesNothingIff(c: Cell, d: Delivery)
    requires d.me != d.origin && Complete(d.remote) && c.row.Some? && c.row.value.id == d.remote.id
    ensures var own := ContentOf(c);
            var z := d.remote.(createdAt := own.createdAt);
            ContentOf(Apply(c, d)) == own
            <==> if Dirty(c) then EditIsSwallowed(d.me, d.origin, own, z) else own == z
  {
    var own := ContentOf(c);
    var z := d.remote.(createdAt := own.createdAt);
    if Dirty(c) {
      MergedApply(c, d);
      FollowingMergeCases(d.me, d.origin, own, z);
      assert Merged(d.me, d.origin, own, z) == Merged(d.me, d.origin, own, d.remote);
    } else {
      VerbatimStored(c, d);
    }
  }

  /** Applying a message again at once changes nothing exactly when the first time was a straight apply,
      or a merge from which nothing of the local edit was left. After any other merge the second
      apply is a verbatim one: it takes the merge back and puts the peer's row in its place. */
  lemma RedeliveryHarmlessIff(c: Cell, d: Delivery)
    requires d.me != d.origin && Complete(d.remote)
    requires c.row.Some? ==> c.row.value.id == d.remote.id
    ensures var once := Apply(c, d);
            ContentOf(Apply(once, d)) == ContentOf(once)
            <==> !Dirty(c) || EditGetsThrough(d.me, d.origin, ContentOf(c), d.remote)
    ensures c.row.Some? ==> ContentOf(Apply(Apply(c, d), d)) == d.remote.(createdAt := c.row.value.createdAt)
  {
    var once := Apply(c, d);
    if Dirty(c) {
      var own := ContentOf(c);
      var z := d.remote.(createdAt := own.createdAt);
      MergedApply(c, d);
      FollowingMergeCases(d.me, d.origin, own, z);
      assert Merged(d.me, d.origin, own, z) == Merged(d.me, d.origin, own, d.remote);
    } else {
      VerbatimApply(c, d);
    }
    VerbatimStored(once, d);
  }
}
