/** The conflict notes two replicas hold after a crossing, with everything else going on around it. */
module ConflictNotes {
  import opened Prelude
  import opened SyncProtocol
  import opened ItemMerge
  import opened ShareState
  import opened TwoSides
  import opened Convergence
  import opened Replicas
  import opened Threads
  import opened Sharing
  import Courier

  /** The notes about one item, in the order they were written. */
  function NotesAbout(notes: seq<Note>, id: string): seq<Note> {
    if notes == [] then []
    else
      var n := |notes| - 1;
      if notes[n].itemId == id then NotesAbout(notes[..n], id) + [notes[n]] else NotesAbout(notes[..n], id)
  }

  lemma {:induction false} NotesAboutConcat(a: seq<Note>, b: seq<Note>, id: string)
    ensures NotesAbout(a + b, id) == NotesAbout(a, id) + NotesAbout(b, id)
  {
    if b == [] {
      assert a + b == a;
    } else {
      var n := |b| - 1;
      assert (a + b)[|a| + n] == b[n] && (a + b)[..|a| + n] == a + b[..n];
      NotesAboutConcat(a, b[..n], id);
    }
  }

  /** Between the two, this was written about the item. */
  ghost predicate Wrote(r: Replica, r': Replica, id: string, notes: seq<Note>) {
    r'.peerName == r.peerName && NotesAbout(r'.notes, id) == NotesAbout(r.notes, id) + notes
  }

  lemma WroteJoins(r: Replica, r1: Replica, r2: Replica, id: string, u: seq<Note>, v: seq<Note>)
    requires Wrote(r, r1, id, u) && Wrote(r1, r2, id, v)
    ensures Wrote(r, r2, id, u + v)
  {
  }

  lemma Regroup(a: seq<Note>, b: seq<Note>, c: seq<Note>)
    ensures (a + b) + c == a + (b + c)
  {
  }

  // ---- one instance taking in mail ----

  /** What deliveries about one item write. */
  function NotesEach(c: Cell, ds: seq<Delivery>, peerName: string): seq<Note>
    decreases |ds|
  {
    if ds == [] then [] else ApplyNotes(c, ds[0], peerName) + NotesEach(Apply(c, ds[0]), ds[1..], peerName)
  }

  lemma NotesOne(c: Cell, d: Delivery, peerName: string)
    ensures NotesEach(c, [d], peerName) == ApplyNotes(c, d, peerName)
  {
    assert [d][1..] == [];
  }

  lemma ApplyNotesAbout(c: Cell, d: Delivery, peerName: string, id: string)
    ensures c.row.Some? ==>
              NotesAbout(ApplyNotes(c, d, peerName), id) == if c.row.value.id == id then ApplyNotes(c, d, peerName) else []
    ensures c.row.None? ==> ApplyNotes(c, d, peerName) == []
  {
    var notes := ApplyNotes(c, d, peerName);
    if notes != [] { assert notes[..0] == []; }
  }

  lemma HandleNotes(r: Replica, body: Sealed, id: string)
    requires Keyed(r) && Handle(r, body, false).Some?
    ensures Wrote(r, Handle(r, body, false).value, id,
                  NotesEach(ItemCell(r, id), Delivered(r.instance, r.projectId, id, body), r.peerName))
  {
    if body.Opened? && body.origin != r.instance && body.payload.ItemBody? {
      var remote := body.payload.item;
      var c, d := ItemCell(r, remote.id), Delivery(r.instance, body.origin, r.projectId, remote);
      NotesAboutConcat(r.notes, ApplyNotes(c, d, r.peerName), id);
      ApplyNotesAbout(c, d, r.peerName, id);
      NotesOne(c, d, r.peerName);
    }
    assert NotesAbout(r.notes, id) + [] == NotesAbout(r.notes, id);
  }

  lemma {:induction false} NotesEachConcat(c: Cell, a: seq<Delivery>, b: seq<Delivery>, peerName: string)
    ensures NotesEach(c, a + b, peerName) == NotesEach(c, a, peerName) + NotesEach(ApplyEach(c, a), b, peerName)
    decreases |a|
  {
    if a == [] {
      assert a + b == b;
    } else {
      assert (a + b)[0] == a[0] && (a + b)[1..] == a[1..] + b;
      NotesEachConcat(Apply(c, a[0]), a[1..], b, peerName);
      Regroup(ApplyNotes(c, a[0], peerName), NotesEach(Apply(c, a[0]), a[1..], peerName),
              NotesEach(ApplyEach(c, a), b, peerName));
    }
  }

  lemma {:induction false} ApplyAllNotes(r: Replica, bodies: seq<Sealed>, id: string)
    requires Keyed(r) && Courier.ApplyAll(r, bodies).Some?
    ensures Wrote(r, Courier.ApplyAll(r, bodies).value, id,
                  NotesEach(ItemCell(r, id), About(r.instance, r.projectId, id, bodies), r.peerName))
    decreases |bodies|
  {
    if bodies == [] {
      assert NotesAbout(r.notes, id) + [] == NotesAbout(r.notes, id);
    } else {
      var r1 := Handle(r, bodies[0], false).value;
      var first, rest := Delivered(r.instance, r.projectId, id, bodies[0]), About(r.instance, r.projectId, id, bodies[1..]);
      HandleNotes(r, bodies[0], id);
      AppliedKeepsOne(r, bodies[0]);
      HandleOnItem(r, bodies[0], id);
      AboutOne(r.instance, r.projectId, id, bodies[0]);
      ApplyAllNotes(r1, bodies[1..], id);
      WroteJoins(r, r1, Courier.ApplyAll(r, bodies).value, id, NotesEach(ItemCell(r, id), first, r.peerName),
                 NotesEach(ItemCell(r1, id), rest, r.peerName));
      NotesEachConcat(ItemCell(r, id), first, rest, r.peerName);
    }
  }

  lemma AboutOne(instance: string, project: string, id: string, body: Sealed)
    ensures About(instance, project, id, [body]) == Delivered(instance, project, id, body)
  {
    assert [body][1..] == [];
  }

  lemma AppliedKeepsOne(r: Replica, body: Sealed)
    requires Keyed(r) && Handle(r, body, false).Some?
    ensures Keyed(Handle(r, body, false).value)
  {
    assert [body][1..] == [];
    AppliedKeeps(r, [body]);
  }

  // ---- along a run of the two-sided protocol ----

  /** What side A writes along a run. */
  function NotesAlong(p: Pair, s: Sys, run: seq<Step>, peerName: string): seq<Note>
    decreases |run|
  {
    if run == [] then [] else StepNotes(p, s, run[0], peerName) + NotesAlong(p, Next(p, s, run[0]), run[1..], peerName)
  }

  function StepNotes(p: Pair, s: Sys, step: Step, peerName: string): seq<Note> {
    if step.PullA? && s.toA != [] then ApplyNotes(s.a, Delivery(p.idA, p.idB, p.projectA, s.toA[0]), peerName) else []
  }

  lemma {:induction false} NotesAlongConcat(p: Pair, s: Sys, u: seq<Step>, v: seq<Step>, peerName: string)
    ensures NotesAlong(p, s, u + v, peerName) == NotesAlong(p, s, u, peerName) + NotesAlong(p, Run(p, s, u), v, peerName)
    decreases |u|
  {
    if u == [] {
      assert u + v == v;
    } else {
      assert (u + v)[0] == u[0] && (u + v)[1..] == u[1..] + v;
      NotesAlongConcat(p, Next(p, s, u[0]), u[1..], v, peerName);
      Regroup(StepNotes(p, s, u[0], peerName), NotesAlong(p, Next(p, s, u[0]), u[1..], peerName),
              NotesAlong(p, Run(p, s, u), v, peerName));
    }
  }

  lemma {:induction false} NoPullNoNotes(p: Pair, s: Sys, run: seq<Step>, peerName: string)
    requires PullA !in run
    ensures NotesAlong(p, s, run, peerName) == []
    decreases |run|
  {
    if run != [] {
      assert run[0] in run;
      NoPullNoNotes(p, Next(p, s, run[0]), run[1..], peerName);
    }
  }

  lemma {:induction false} PullsNotes(p: Pair, s: Sys, ds: seq<Delivery>, rest: seq<ItemPayload>, peerName: string)
    requires s.toA == Payloads(ds) + rest
    requires forall d :: d in ds ==> d.me == p.idA && d.origin == p.idB && d.projectId == p.projectA
    ensures NotesAlong(p, s, Pulls(|ds|), peerName) == NotesEach(s.a, ds, peerName)
    decreases |ds|
  {
    if ds != [] {
      assert ds[0] in ds;
      assert s.toA[0] == ds[0].remote && s.toA[1..] == Payloads(ds[1..]) + rest;
      assert Pulls(|ds|)[0] == PullA && Pulls(|ds|)[1..] == Pulls(|ds| - 1);
      PullsNotes(p, Next(p, s, PullA), ds[1..], rest, peerName);
    }
  }

  // ---- in the living share ----

  lemma DryPullNotes(p: Pair, s: Sys, n: nat, peerName: string)
    requires Run(p, s, Pulls(n)).toA == []
    ensures NotesAlong(p, s, Pulls(n) + [PullA], peerName) == NotesAlong(p, s, Pulls(n), peerName)
  {
    NotesAlongConcat(p, s, Pulls(n), [PullA], peerName);
    assert [PullA][1..] == [];
    assert NotesAlong(p, Run(p, s, Pulls(n)), [PullA], peerName) == [];
  }

  lemma TakeInNotes(d: Duo, now: int, id: string)
    requires Fit(d)
    ensures Wrote(d.a, ActA(d, TakeIn(now)).a, id,
                  NotesAlong(PairOf(d), View(d, id), ShadowA(d, TakeIn(now), id), d.a.peerName))
  {
    var k := BatchSize(d.boxA);
    var first := Courier.Bodies(d.boxA.msgs[..k]);
    var ds := About(d.a.instance, d.a.projectId, id, first);
    var rest := MailAbout(d.a, d.boxA.(msgs := d.boxA.msgs[k..]), id);
    TakeInApplies(d, now);
    ApplyAllNotes(d.a, first, id);
    MailSplits(d.a, d.boxA, d.b.instance, id, k);
    PullsNotes(PairOf(d), View(d, id), ds, rest, d.a.peerName);
    if k == |d.boxA.msgs| {
      assert Courier.Bodies(d.boxA.msgs[k..]) == [];
      PullsApplyEach(PairOf(d), View(d, id), ds, rest);
      DryPullNotes(PairOf(d), View(d, id), |ds|, d.a.peerName);
    } else {
      assert Pulls(|ds|) + [] == Pulls(|ds|);
    }
  }

  lemma ActNotes(d: Duo, act: Act, id: string)
    requires Fit(d)
    ensures var d' := ActA(d, act);
            && d'.b.notes == d.b.notes && d'.b.peerName == d.b.peerName
            && Wrote(d.a, d'.a, id, NotesAlong(PairOf(d), View(d, id), ShadowA(d, act, id), d.a.peerName))
  {
    match act {
      case TakeIn(now) =>
        TakeInApplies(d, now);
        TakeInNotes(d, now, id);
      case _ =>
        NoPullNoNotes(PairOf(d), View(d, id), ShadowA(d, act, id), d.a.peerName);
        assert NotesAbout(d.a.notes, id) + [] == NotesAbout(d.a.notes, id);
    }
  }

  lemma EventNotes(d: Duo, e: Event, id: string)
    requires Fit(d)
    ensures Wrote(d.a, After(d, e).a, id, NotesAlong(PairOf(d), View(d, id), Shadow(d, e, id), d.a.peerName))
  {
    match e {
      case AtA(act) => ActNotes(d, act, id);
      case AtB(act) =>
        ActNotes(MirrorDuo(d), act, id);
        PeerPullsNothing(MirrorDuo(d), act, id);
        NoPullNoNotes(PairOf(d), View(d, id), Shadow(d, e, id), d.a.peerName);
        assert NotesAbout(d.a.notes, id) + [] == NotesAbout(d.a.notes, id);
    }
  }

  /** What the peer does is no pull of ours. */
  lemma PeerPullsNothing(m: Duo, act: Act, id: string)
    ensures PullA !in MirrorSteps(ShadowA(m, act, id))
  {
    var steps := ShadowA(m, act, id);
    assert forall i :: 0 <= i < |steps| ==> !steps[i].PullB?;
    assert forall i :: 0 <= i < |steps| ==> MirrorSteps(steps)[i] == MirrorStep(steps[i]);
  }

  /** The notes of A about an item grow by what its thread writes, and by nothing else; nothing that
      happens removes one. */
  lemma {:induction false} LiveNotes(d: Duo, events: seq<Event>, id: string)
    requires Fit(d)
    ensures Wrote(d.a, Live(d, events).a, id,
                  NotesAlong(PairOf(d), View(d, id), Shadows(d, events, id), d.a.peerName))
    decreases |events|
  {
    if events == [] {
      assert NotesAbout(d.a.notes, id) + [] == NotesAbout(d.a.notes, id);
    } else {
      var d1 := After(d, events[0]);
      var u, v := Shadow(d, events[0], id), Shadows(d1, events[1..], id);
      EventNotes(d, events[0], id);
      EventShadow(d, events[0], id);
      LiveNotes(d1, events[1..], id);
      WroteJoins(d.a, d1.a, Live(d, events).a, id, NotesAlong(PairOf(d), View(d, id), u, d.a.peerName),
                 NotesAlong(PairOf(d), View(d1, id), v, d.a.peerName));
      NotesAlongConcat(PairOf(d), View(d, id), u, v, d.a.peerName);
    }
  }

  // ---- a crossing ----

  /** Before A has read the peer's edit it writes nothing and does not change; when it reads it, it
      writes the note of that merge; after that, nothing. */
  lemma {:induction false} CrossingNotesAlong(
    p: Pair, s: Sys, x: ItemPayload, y: ItemPayload, m: ItemPayload, run: seq<Step>, peerName: string)
    requires NoEdits(run) && x.id == y.id && Complete(x) && Complete(y)
    requires m == Merged(p.idA, p.idB, x, y) == Merged(p.idB, p.idA, y, x)
    requires OnTheWay(s.a, x, y, m, s.toA) && OnTheWay(s.b, y, x, m, s.toB)
    ensures var t := Run(p, s, run);
            NotesAlong(p, s, run, peerName)
            == if Dirty(s.a) && !Dirty(t.a) then ApplyNotes(s.a, Delivery(p.idA, p.idB, p.projectA, y), peerName) else []
    ensures Dirty(Run(p, s, run).a) ==> Dirty(s.a)
    decreases |run|
  {
    if run != [] {
      assert run[0] in run;
      CrossingStep(p, s, x, y, m, run[0]);
      CrossingNotesAlong(p, Next(p, s, run[0]), x, y, m, run[1..], peerName);
    }
  }

  lemma CrossingStep(p: Pair, s: Sys, x: ItemPayload, y: ItemPayload, m: ItemPayload, step: Step)
    requires !IsEdit(step) && x.id == y.id && Complete(x) && Complete(y)
    requires m == Merged(p.idA, p.idB, x, y) == Merged(p.idB, p.idA, y, x)
    requires OnTheWay(s.a, x, y, m, s.toA) && OnTheWay(s.b, y, x, m, s.toB)
    ensures var t := Next(p, s, step);
            && OnTheWay(t.a, x, y, m, t.toA) && OnTheWay(t.b, y, x, m, t.toB)
            && (step.PullA? && s.toA != [] ==> !Dirty(t.a) && (Dirty(s.a) ==> s.toA[0] == y))
            && (!(step.PullA? && s.toA != []) ==>
                  (Dirty(t.a) <==> Dirty(s.a)) && (Dirty(s.a) ==> t.a == s.a))
  {
    RunOne(p, s, step);
    CrossingStays(p, s, x, y, m, [step]);
    if step.PullA? && s.toA != [] { ApplySettles(s.a, Delivery(p.idA, p.idB, p.projectA, s.toA[0])); }
  }

  lemma ShareNotesOfA(d: Duo, events: seq<Event>, id: string, x: ItemPayload, y: ItemPayload)
    requires Fit(d) && Crossed(View(d, id), x, y) && Agree(x, y)
    requires Untouched(d, events, id) && Quiet(View(Live(d, events), id))
    ensures NotesAbout(Live(d, events).a.notes, id) == NotesAbout(d.a.notes, id)
              + ConflictNote(d.a.peerName, d.a.items[id], MergeConflict(d.a.instance, d.b.instance, x, y))
  {
    var p, s := PairOf(d), View(d, id);
    LiveNotes(d, events, id);
    UntouchedNoEdits(d, events, id);
    ShareConverges(d, events, id, x, y);
    ShareFollowsTwoSides(d, events, id);
    MergedSymmetric(p.idA, p.idB, x, y);
    assert Complete(x) && Complete(y) by { assert ContentOf(s.a) == x && ContentOf(s.b) == y; }
    CrossingNotesAlong(p, s, x, y, Merged(p.idA, p.idB, x, y), Shadows(d, events, id), d.a.peerName);
  }

  // ---- both sides ----

  function MirrorEvent(e: Event): Event { if e.AtA? then AtB(e.act) else AtA(e.act) }

  function MirrorEvents(events: seq<Event>): seq<Event> {
    seq(|events|, i requires 0 <= i < |events| => MirrorEvent(events[i]))
  }

  lemma {:induction false} MirrorLive(d: Duo, events: seq<Event>, id: string)
    ensures Live(MirrorDuo(d), MirrorEvents(events)) == MirrorDuo(Live(d, events))
    ensures Untouched(d, events, id) ==> Untouched(MirrorDuo(d), MirrorEvents(events), id)
    decreases |events|
  {
    if events != [] {
      var rest := MirrorEvents(events);
      assert rest[0] == MirrorEvent(events[0]) && rest[1..] == MirrorEvents(events[1..]);
      assert After(MirrorDuo(d), rest[0]) == MirrorDuo(After(d, events[0]));
      MirrorLive(After(d, events[0]), events[1..], id);
    }
  }

  /** After a crossing in the living share, however it goes on: if the edits disagree on title, status
      or priority, the instance with the lower id holds one note more about the item, naming its own
      value and the other's for exactly the fields that differ; the instance with the higher id holds
      none more. */
  lemma CrossingIsNoted(d: Duo, events: seq<Event>, id: string, x: ItemPayload, y: ItemPayload)
    requires Fit(d) && Crossed(View(d, id), x, y) && Agree(x, y) && Less(d.a.instance, d.b.instance)
    requires Untouched(d, events, id) && Quiet(View(Live(d, events), id))
    ensures var d' := Live(d, events);
            var was, now := NotesAbout(d.a.notes, id), NotesAbout(d'.a.notes, id);
            && (if ScalarsMoved(x, y)
                then |now| == |was| + 1 && was <= now && Records(now[|was|], d.a.items[id], d.a.peerName, x, y)
                else now == was)
            && NotesAbout(d'.b.notes, id) == NotesAbout(d.b.notes, id)
  {
    LessIsStrictTotal(d.a.instance, d.b.instance);
    var atLow := MergeConflict(d.a.instance, d.b.instance, x, y);
    ShareNotesOfA(d, events, id, x, y);
    NoteRecords(d.a.peerName, d.a.items[id], atLow);
    OtherSideNotes(d, events, id, x, y);
    CrossingNotesLosers(d.a.instance, d.b.instance, x, y);
  }

  lemma OtherSideNotes(d: Duo, events: seq<Event>, id: string, x: ItemPayload, y: ItemPayload)
    requires Fit(d) && Crossed(View(d, id), x, y) && Agree(x, y)
    requires Untouched(d, events, id) && Quiet(View(Live(d, events), id))
    ensures NotesAbout(Live(d, events).b.notes, id) == NotesAbout(d.b.notes, id)
              + ConflictNote(d.b.peerName, d.b.items[id], MergeConflict(d.b.instance, d.a.instance, y, x))
  {
    MirrorLive(d, events, id);
    ShareNotesOfA(MirrorDuo(d), MirrorEvents(events), id, y, x);
  }
}
