/** The whole share: two instances, each with its tables and its mailbox, receiving, sending and
    editing as they please; and what that is for one item. */
module Sharing {
  import opened Prelude
  import opened SyncProtocol
  import opened ItemMerge
  import opened ShareState
  import opened TwoSides
  import opened Convergence
  import opened Replicas
  import opened Threads
  import Courier
  import Mailbox

  type Box = Mailbox.Box<Sealed>

  datatype Duo = Duo(a: Replica, b: Replica, boxA: Box, boxB: Box)

  /** What one instance can do: take in a batch from its mailbox, uninterrupted; go through its rows
      and send into the peer's mailbox; or let its users change anything but the hashes. */
  datatype Act =
    | TakeIn(now: int)
    | SendOut(now: int, itemIds: seq<string>, activityIds: seq<string>)
    | Amend(after: Replica)

  datatype Event = AtA(act: Act) | AtB(act: Act)

  /** Users edit and create; rows are never removed, only marked deleted. Conflict notes are written by
      the engine alone. */
  ghost predicate LocalChange(r: Replica, after: Replica) {
    && after == r.(project := after.project, items := after.items, activity := after.activity)
    && r.items.Keys <= after.items.Keys && Keyed(after)
  }

  function Sealeds(origin: string, out: seq<Payload>): seq<Sealed> {
    seq(|out|, i requires 0 <= i < |out| => Opened(origin, out[i]))
  }

  function Deposit(b: Box, now: int, bodies: seq<Sealed>): Box
    decreases |bodies|
  {
    if bodies == [] then b else Deposit(Mailbox.SendBox(b, now, bodies[0]).0, now, bodies[1..])
  }

  function Room(b: Box): nat {
    if |b.msgs| < Mailbox.MAX_PENDING then Mailbox.MAX_PENDING - |b.msgs| else 0
  }

  ghost function ActA(d: Duo, act: Act): Duo {
    match act
    case TakeIn(now) =>
      var (box, r) := Courier.Passed(d.boxA, d.a, Courier.Event.Pull(now, {}, None, true));
      d.(a := r, boxA := box)
    case SendOut(now, itemIds, activityIds) =>
      if !ListsAll(d.a, itemIds, activityIds) then d
      else
        var (states, out, _) := PushRows(d.a.states, Listing(d.a, itemIds, activityIds), Room(d.boxB));
        d.(a := d.a.(states := states), boxB := Deposit(d.boxB, now, Sealeds(d.a.instance, out)))
    case Amend(after) =>
      if LocalChange(d.a, after) then d.(a := after) else d
  }

  function MirrorDuo(d: Duo): Duo { Duo(d.b, d.a, d.boxB, d.boxA) }

  ghost function After(d: Duo, e: Event): Duo {
    match e
    case AtA(act) => ActA(d, act)
    case AtB(act) => MirrorDuo(ActA(MirrorDuo(d), act))
  }

  ghost function Live(d: Duo, events: seq<Event>): Duo
    decreases |events|
  {
    if events == [] then d else Live(After(d, events[0]), events[1..])
  }

  /** A mailbox nobody was interrupted at, holding what the peer's engine sends. */
  ghost predicate FromPeer(b: Box, peer: string) {
    && b.leases == map[] && Mailbox.Valid(b)
    && forall i :: 0 <= i < |b.msgs| ==>
         b.msgs[i].body.Opened? && b.msgs[i].body.origin == peer && !b.msgs[i].body.payload.Malformed?
  }

  ghost predicate Fit(d: Duo) {
    && d.a.instance != d.b.instance && Keyed(d.a) && Keyed(d.b)
    && FromPeer(d.boxA, d.b.instance) && FromPeer(d.boxB, d.a.instance)
  }

  // ---- one item of it ----

  function PairOf(d: Duo): Pair { Pair(d.a.instance, d.b.instance, d.a.projectId, d.b.projectId) }

  /** What waits in a mailbox about one item. */
  function MailAbout(r: Replica, b: Box, id: string): seq<ItemPayload> {
    Payloads(About(r.instance, r.projectId, id, Courier.Bodies(b.msgs)))
  }

  /** One item of the share, as TwoSides sees it. */
  function View(d: Duo, id: string): Sys {
    Sys(ItemCell(d.a, id), ItemCell(d.b, id), MailAbout(d.a, d.boxA, id), MailAbout(d.b, d.boxB, id))
  }

  function BatchSize(b: Box): nat { if |b.msgs| < Courier.BATCH then |b.msgs| else Courier.BATCH }

  /** The steps an act of A is for this item. A batch that empties the mailbox, and a pass that goes
      through, end in a step even if there was nothing to do. */
  ghost function ShadowA(d: Duo, act: Act, id: string): seq<Step> {
    match act
    case TakeIn(_) =>
      var k := BatchSize(d.boxA);
      Pulls(|About(d.a.instance, d.a.projectId, id, Courier.Bodies(d.boxA.msgs[..k]))|)
      + if k == |d.boxA.msgs| then [PullA] else []
    case SendOut(_, itemIds, activityIds) =>
      if ListsAll(d.a, itemIds, activityIds) && (GoesThrough(d, act) || ItemCell(ActA(d, act).a, id) != ItemCell(d.a, id))
      then [PushA] else []
    case Amend(after) =>
      if LocalChange(d.a, after) && id in after.items && ItemCell(after, id) != ItemCell(d.a, id)
      then [EditA(after.items[id])] else []
  }

  /** The outbound pass returns without an error. */
  ghost predicate GoesThrough(d: Duo, act: Act) {
    && act.SendOut? && ListsAll(d.a, act.itemIds, act.activityIds)
    && PushRows(d.a.states, Listing(d.a, act.itemIds, act.activityIds), Room(d.boxB)).2
  }

  ghost function Shadow(d: Duo, e: Event, id: string): seq<Step> {
    match e
    case AtA(act) => ShadowA(d, act, id)
    case AtB(act) => MirrorSteps(ShadowA(MirrorDuo(d), act, id))
  }

  ghost function Shadows(d: Duo, events: seq<Event>, id: string): seq<Step>
    decreases |events|
  {
    if events == [] then [] else Shadow(d, events[0], id) + Shadows(After(d, events[0]), events[1..], id)
  }

  // ---- taking in ----

  lemma {:induction false} AboutConcat(instance: string, project: string, id: string, a: seq<Sealed>, b: seq<Sealed>)
    ensures About(instance, project, id, a + b) == About(instance, project, id, a) + About(instance, project, id, b)
    decreases |a|
  {
    if a == [] {
      assert a + b == b;
    } else {
      assert (a + b)[0] == a[0] && (a + b)[1..] == a[1..] + b;
      AboutConcat(instance, project, id, a[1..], b);
    }
  }

  lemma PayloadsConcat(a: seq<Delivery>, b: seq<Delivery>)
    ensures Payloads(a + b) == Payloads(a) + Payloads(b)
  {
  }

  lemma {:induction false} AppliedKeeps(r: Replica, bodies: seq<Sealed>)
    requires Keyed(r) && Courier.ApplyAll(r, bodies).Some?
    ensures var r' := Courier.ApplyAll(r, bodies).value;
            r'.instance == r.instance && r'.projectId == r.projectId && Keyed(r')
    decreases |bodies|
  {
    if bodies != [] {
      AppliedKeeps(Handle(r, bodies[0], false).value, bodies[1..]);
    }
  }

  lemma SuffixFromPeer(b: Box, peer: string, k: nat)
    requires FromPeer(b, peer) && k <= |b.msgs|
    ensures FromPeer(b.(msgs := b.msgs[k..]), peer)
  {
    var rest := b.msgs[k..];
    forall no | no in Mailbox.Nos(rest) ensures no in Mailbox.Nos(b.msgs) {
      var i :| 0 <= i < |rest| && rest[i].no == no;
      assert b.msgs[k + i].no == no;
    }
  }

  /** A batch applies its bodies in order and leaves the rest of the mailbox. */
  lemma TakeInApplies(d: Duo, now: int)
    requires Fit(d)
    ensures var k := BatchSize(d.boxA);
            var r := Courier.ApplyAll(d.a, Courier.Bodies(d.boxA.msgs[..k]));
            r.Some? && ActA(d, TakeIn(now)) == d.(a := r.value, boxA := d.boxA.(msgs := d.boxA.msgs[k..]))
  {
    var w := Courier.World(Some(d.boxA), d.a, [], [], {});
    var k := BatchSize(d.boxA);
    var bodies := Courier.Bodies(d.boxA.msgs[..k]);
    assert forall i :: 0 <= i < k ==> bodies[i] == d.boxA.msgs[i].body;
    Courier.PullShape(w, Courier.Event.Pull(now, {}, None, true), bodies);
  }

  lemma TakeInFits(d: Duo, now: int)
    requires Fit(d)
    ensures Fit(ActA(d, TakeIn(now))) && PairOf(ActA(d, TakeIn(now))) == PairOf(d)
  {
    TakeInApplies(d, now);
    AppliedKeeps(d.a, Courier.Bodies(d.boxA.msgs[..BatchSize(d.boxA)]));
    SuffixFromPeer(d.boxA, d.b.instance, BatchSize(d.boxA));
  }

  /** The mailbox's part about the item, split at a batch. */
  lemma MailSplits(r: Replica, b: Box, peer: string, id: string, k: nat)
    requires FromPeer(b, peer) && k <= |b.msgs|
    ensures var ds := About(r.instance, r.projectId, id, Courier.Bodies(b.msgs[..k]));
            && MailAbout(r, b, id) == Payloads(ds) + MailAbout(r, b.(msgs := b.msgs[k..]), id)
            && forall d :: d in ds ==> d.me == r.instance && d.origin == peer && d.projectId == r.projectId
  {
    var first, rest := Courier.Bodies(b.msgs[..k]), Courier.Bodies(b.msgs[k..]);
    assert Courier.Bodies(b.msgs) == first + rest;
    AboutConcat(r.instance, r.projectId, id, first, rest);
    PayloadsConcat(About(r.instance, r.projectId, id, first), About(r.instance, r.projectId, id, rest));
    assert forall body :: body in first ==> body.origin == peer;
    AboutFrom(r.instance, r.projectId, id, first, peer);
  }

  lemma TakeInView(d: Duo, now: int, id: string, ds: seq<Delivery>)
    requires Fit(d)
    requires ds == About(d.a.instance, d.a.projectId, id, Courier.Bodies(d.boxA.msgs[..BatchSize(d.boxA)]))
    ensures var rest := d.boxA.(msgs := d.boxA.msgs[BatchSize(d.boxA)..]);
            View(ActA(d, TakeIn(now)), id)
            == View(d, id).(a := ApplyEach(ItemCell(d.a, id), ds), toA := MailAbout(d.a, rest, id))
  {
    TakeInApplies(d, now);
    var first := Courier.Bodies(d.boxA.msgs[..BatchSize(d.boxA)]);
    AppliedKeeps(d.a, first);
    ItemFollowsItsMail(d.a, first, id);
  }

  /** Pulling from an empty queue does nothing. */
  lemma PullDry(p: Pair, s: Sys, n: nat)
    requires Run(p, s, Pulls(n)).toA == []
    ensures Run(p, s, Pulls(n) + [PullA]) == Run(p, s, Pulls(n))
  {
    RunConcat(p, s, Pulls(n), [PullA]);
    assert [PullA][1..] == [];
  }

  lemma TakeInShadow(d: Duo, now: int, id: string)
    requires Fit(d)
    ensures View(ActA(d, TakeIn(now)), id) == Run(PairOf(d), View(d, id), ShadowA(d, TakeIn(now), id))
  {
    var k := BatchSize(d.boxA);
    var ds := About(d.a.instance, d.a.projectId, id, Courier.Bodies(d.boxA.msgs[..k]));
    var rest := d.boxA.(msgs := d.boxA.msgs[k..]);
    MailSplits(d.a, d.boxA, d.b.instance, id, k);
    TakeInView(d, now, id, ds);
    PullsApplyEach(PairOf(d), View(d, id), ds, MailAbout(d.a, rest, id));
    if k == |d.boxA.msgs| {
      assert Courier.Bodies(rest.msgs) == [];
      PullDry(PairOf(d), View(d, id), |ds|);
    } else {
      assert Pulls(|ds|) + [] == Pulls(|ds|);
    }
  }

  // ---- sending out ----

  /** What goes out about one item. */
  function ItemsOf(out: seq<Payload>, id: string): seq<ItemPayload> {
    if out == [] then [] else ItemOf(out[0], id) + ItemsOf(out[1..], id)
  }

  function ItemOf(p: Payload, id: string): seq<ItemPayload> {
    if p.ItemBody? && p.item.id == id then [p.item] else []
  }

  /** Rows carry what their key says. */
  predicate WellKeyed(rows: seq<Row>) {
    forall i :: 0 <= i < |rows| ==>
      if rows[i].key.kind.ItemKind? then rows[i].content.ItemBody? && rows[i].content.item.id == rows[i].key.id
      else !rows[i].content.ItemBody? && !rows[i].content.Malformed?
  }

  lemma ListingKeyed(r: Replica, itemIds: seq<string>, activityIds: seq<string>)
    requires Keyed(r) && ListsAll(r, itemIds, activityIds)
    ensures WellKeyed(Listing(r, itemIds, activityIds))
  {
    assert WellKeyed(ItemRows(r, itemIds)) && WellKeyed(ActivityRows(r, activityIds));
  }

  /** An item's row is listed once, with its content; nothing else goes by its key. */
  lemma ListedRow(r: Replica, itemIds: seq<string>, activityIds: seq<string>, id: string)
    requires Keyed(r) && ListsAll(r, itemIds, activityIds)
    ensures var rows := Listing(r, itemIds, activityIds);
            var k := Key(ItemKind, id);
            && (forall i :: 0 <= i < |rows| && rows[i].key == k ==>
                  id in r.items && rows[i].content == ItemBody(PayloadOf(r.items[id])))
            && (id in r.items ==> exists i :: 0 <= i < |rows| && rows[i].key == k)
  {
    var rows := Listing(r, itemIds, activityIds);
    if id in r.items {
      assert id in itemIds;
      var i :| 0 <= i < |itemIds| && itemIds[i] == id;
      assert rows[i + 1] == ItemRows(r, itemIds)[i];
    }
  }

  lemma {:induction false} SentAbout(states: map<Key, SyncState>, rows: seq<Row>, room: nat, id: string)
    requires DistinctKeys(rows) && WellKeyed(rows)
    ensures var (states', out, _) := PushRows(states, rows, room);
            var k := Key(ItemKind, id);
            var (st, st') := (StateOf(states, k), StateOf(states', k));
            && |out| <= room && (forall i :: 0 <= i < |out| ==> !out[i].Malformed?)
            && st'.base == st.base
            && (st' == st ==> ItemsOf(out, id) == [])
            && (st' != st ==> exists i ::
                  && 0 <= i < |rows| && rows[i].key == k
                  && st'.sent == ContentHash(rows[i].content) && st.sent != st'.sent
                  && ItemsOf(out, id) == [rows[i].content.item])
    decreases |rows|
  {
    if rows != [] {
      var rest := rows[1..];
      assert forall i :: 0 <= i < |rest| ==> rest[i] == rows[i + 1] && rest[i].key != rows[0].key;
      var k, h := rows[0].key, ContentHash(rows[0].content);
      if StateOf(states, k).sent == h {
        SentAbout(states, rest, room, id);
      } else if room > 0 {
        var next := states[k := StateOf(states, k).(sent := h)];
        SentAbout(next, rest, room - 1, id);
        PushFrame(next, rest, room - 1, k);
        var (_, out, _) := PushRows(states, rows, room);
        assert out[1..] == PushRows(next, rest, room - 1).1;
      }
    }
  }

  /** Messages that fit are all accepted. */
  lemma {:induction false} DepositAll(b: Box, now: int, peer: string, bodies: seq<Sealed>)
    requires FromPeer(b, peer) && |b.msgs| + |bodies| <= Mailbox.MAX_PENDING
    requires forall i :: 0 <= i < |bodies| ==>
               bodies[i].Opened? && bodies[i].origin == peer && !bodies[i].payload.Malformed?
    ensures FromPeer(Deposit(b, now, bodies), peer)
    ensures Courier.Bodies(Deposit(b, now, bodies).msgs) == Courier.Bodies(b.msgs) + bodies
    decreases |bodies|
  {
    if bodies == [] {
      assert Courier.Bodies(b.msgs) + bodies == Courier.Bodies(b.msgs);
    } else {
      DepositOne(b, now, peer, bodies[0]);
      var next := Mailbox.SendBox(b, now, bodies[0]).0;
      assert forall i :: 0 <= i < |bodies[1..]| ==> bodies[1..][i] == bodies[i + 1];
      DepositAll(next, now, peer, bodies[1..]);
      assert (Courier.Bodies(b.msgs) + [bodies[0]]) + bodies[1..] == Courier.Bodies(b.msgs) + bodies;
    }
  }

  lemma DepositOne(b: Box, now: int, peer: string, body: Sealed)
    requires FromPeer(b, peer) && |b.msgs| < Mailbox.MAX_PENDING
    requires body.Opened? && body.origin == peer && !body.payload.Malformed?
    ensures var next := Mailbox.SendBox(b, now, body).0;
            && FromPeer(next, peer) && |next.msgs| == |b.msgs| + 1
            && Courier.Bodies(next.msgs) == Courier.Bodies(b.msgs) + [body]
  {
    Mailbox.DoKeepsValid(b, Mailbox.Op.Send(now, body));
  }

  lemma {:induction false} AboutOut(instance: string, project: string, id: string, origin: string, out: seq<Payload>)
    requires origin != instance
    ensures Payloads(About(instance, project, id, Sealeds(origin, out))) == ItemsOf(out, id)
    decreases |out|
  {
    if out != [] {
      var sealeds := Sealeds(origin, out);
      assert sealeds[0] == Opened(origin, out[0]) && sealeds[1..] == Sealeds(origin, out[1..]);
      AboutOut(instance, project, id, origin, out[1..]);
      PayloadsConcat(Delivered(instance, project, id, sealeds[0]), About(instance, project, id, sealeds[1..]));
      assert Payloads(Delivered(instance, project, id, sealeds[0])) == ItemOf(out[0], id);
    }
  }

  /** What a pass leaves in the peer's mailbox about one item. */
  lemma MailGrows(r: Replica, b: Box, peer: string, now: int, out: seq<Payload>, id: string)
    requires FromPeer(b, peer) && r.instance != peer && |out| <= Room(b)
    requires forall i :: 0 <= i < |out| ==> !out[i].Malformed?
    ensures FromPeer(Deposit(b, now, Sealeds(peer, out)), peer)
    ensures MailAbout(r, Deposit(b, now, Sealeds(peer, out)), id) == MailAbout(r, b, id) + ItemsOf(out, id)
  {
    DepositAll(b, now, peer, Sealeds(peer, out));
    AboutConcat(r.instance, r.projectId, id, Courier.Bodies(b.msgs), Sealeds(peer, out));
    PayloadsConcat(About(r.instance, r.projectId, id, Courier.Bodies(b.msgs)),
                   About(r.instance, r.projectId, id, Sealeds(peer, out)));
    AboutOut(r.instance, r.projectId, id, peer, out);
  }

  /** A pass, seen from one item: sent as it stands, or left alone; and if the pass goes through,
      sent if it was due. */
  lemma SendOutCell(d: Duo, act: Act, id: string)
    requires Fit(d) && act.SendOut? && ListsAll(d.a, act.itemIds, act.activityIds)
    ensures var (states, out, ok) := PushRows(d.a.states, Listing(d.a, act.itemIds, act.activityIds), Room(d.boxB));
            var c, c' := ItemCell(d.a, id), ItemCell(d.a.(states := states), id);
            && |out| <= Room(d.boxB) && (forall i :: 0 <= i < |out| ==> !out[i].Malformed?)
            && (c' != c ==> Unsent(c) && c' == MarkSent(c) && ItemsOf(out, id) == [ContentOf(c)])
            && (c' == c ==> ItemsOf(out, id) == [])
            && (ok ==> !Unsent(c'))
  {
    var rows := Listing(d.a, act.itemIds, act.activityIds);
    ListingKeyed(d.a, act.itemIds, act.activityIds);
    SentAbout(d.a.states, rows, Room(d.boxB), id);
    ListedRow(d.a, act.itemIds, act.activityIds, id);
    if i :| 0 <= i < |rows| && rows[i].key == Key(ItemKind, id) {
      if PushRows(d.a.states, rows, Room(d.boxB)).2 { PushRecords(d.a.states, rows, Room(d.boxB), i); }
    }
  }

  lemma SendOutFits(d: Duo, act: Act)
    requires Fit(d) && act.SendOut?
    ensures Fit(ActA(d, act)) && PairOf(ActA(d, act)) == PairOf(d)
  {
    if ListsAll(d.a, act.itemIds, act.activityIds) {
      SendOutCell(d, act, "");
      var (_, out, _) := PushRows(d.a.states, Listing(d.a, act.itemIds, act.activityIds), Room(d.boxB));
      MailGrows(d.b, d.boxB, d.a.instance, act.now, out, "");
    }
  }

  lemma RunOne(p: Pair, s: Sys, step: Step)
    ensures Run(p, s, [step]) == Next(p, s, step)
  {
    assert [step][1..] == [];
  }

  lemma SendOutShadow(d: Duo, act: Act, id: string)
    requires Fit(d) && act.SendOut?
    ensures View(ActA(d, act), id) == Run(PairOf(d), View(d, id), ShadowA(d, act, id))
  {
    RunOne(PairOf(d), View(d, id), PushA);
    if ListsAll(d.a, act.itemIds, act.activityIds) {
      SendOutCell(d, act, id);
      var (_, out, _) := PushRows(d.a.states, Listing(d.a, act.itemIds, act.activityIds), Room(d.boxB));
      MailGrows(d.b, d.boxB, d.a.instance, act.now, out, id);
      assert MailAbout(d.b, d.boxB, id) + [] == MailAbout(d.b, d.boxB, id);
    }
  }

  // ---- every run ----

  lemma ActShadow(d: Duo, act: Act, id: string)
    requires Fit(d)
    ensures Fit(ActA(d, act)) && PairOf(ActA(d, act)) == PairOf(d)
    ensures View(ActA(d, act), id) == Run(PairOf(d), View(d, id), ShadowA(d, act, id))
  {
    match act {
      case TakeIn(now) =>
        TakeInFits(d, now);
        TakeInShadow(d, now, id);
      case SendOut(_, _, _) =>
        SendOutFits(d, act);
        SendOutShadow(d, act, id);
      case Amend(after) =>
        if id in after.items { RunOne(PairOf(d), View(d, id), EditA(after.items[id])); }
    }
  }

  lemma EventShadow(d: Duo, e: Event, id: string)
    requires Fit(d)
    ensures Fit(After(d, e)) && PairOf(After(d, e)) == PairOf(d)
    ensures View(After(d, e), id) == Run(PairOf(d), View(d, id), Shadow(d, e, id))
  {
    match e {
      case AtA(act) => ActShadow(d, act, id);
      case AtB(act) =>
        var m := MirrorDuo(d);
        ActShadow(m, act, id);
        MirrorRun(PairOf(m), View(m, id), ShadowA(m, act, id));
    }
  }

  /** Whatever the two instances do, with however many other rows and messages about, each item
      lives a run of the two-sided protocol. */
  lemma {:induction false} ShareFollowsTwoSides(d: Duo, events: seq<Event>, id: string)
    requires Fit(d)
    ensures Fit(Live(d, events)) && PairOf(Live(d, events)) == PairOf(d)
    ensures View(Live(d, events), id) == Run(PairOf(d), View(d, id), Shadows(d, events, id))
    decreases |events|
  {
    if events != [] {
      var d1 := After(d, events[0]);
      EventShadow(d, events[0], id);
      ShareFollowsTwoSides(d1, events[1..], id);
      RunConcat(PairOf(d), View(d, id), Shadow(d, events[0], id), Shadows(d1, events[1..], id));
    }
  }

  // ---- what that says about convergence ----

  /** The event does not change this item. */
  ghost predicate Spares(d: Duo, e: Event, id: string) {
    e.act.Amend? ==>
      var (mine, after) := (if e.AtA? then d.a else d.b, e.act.after);
      id in after.items ==> id in mine.items && after.items[id] == mine.items[id]
  }

  ghost predicate Untouched(d: Duo, events: seq<Event>, id: string)
    decreases |events|
  {
    events != [] ==> Spares(d, events[0], id) && Untouched(After(d, events[0]), events[1..], id)
  }

  lemma SparesNoEdits(d: Duo, e: Event, id: string)
    requires Spares(d, e, id)
    ensures NoEdits(Shadow(d, e, id))
  {
    if e.AtB? { MirrorNoEdits(ShadowA(MirrorDuo(d), e.act, id)); }
  }

  lemma {:induction false} UntouchedNoEdits(d: Duo, events: seq<Event>, id: string)
    requires Untouched(d, events, id)
    ensures NoEdits(Shadows(d, events, id))
    decreases |events|
  {
    if events != [] {
      SparesNoEdits(d, events[0], id);
      UntouchedNoEdits(After(d, events[0]), events[1..], id);
    }
  }

  /** Two crossing edits of an item, somewhere in a share that goes on living: nobody changes this
      item any more, and everything else may happen, in any order. Whenever nothing about it is in
      the mailboxes or due to be sent, both instances hold the one merged row, agreed on. */
  lemma ShareConverges(d: Duo, events: seq<Event>, id: string, x: ItemPayload, y: ItemPayload)
    requires Fit(d) && Crossed(View(d, id), x, y) && Agree(x, y)
    requires Untouched(d, events, id) && Quiet(View(Live(d, events), id))
    ensures var d' := Live(d, events);
            var m := Merged(d.a.instance, d.b.instance, x, y);
            && Holds(ItemCell(d'.a, id), m) && !Dirty(ItemCell(d'.a, id))
            && Holds(ItemCell(d'.b, id), m) && !Dirty(ItemCell(d'.b, id))
  {
    ShareFollowsTwoSides(d, events, id);
    UntouchedNoEdits(d, events, id);
    CrossingConverges(PairOf(d), View(d, id), x, y, Shadows(d, events, id));
  }

  /** What both instances have to get done in a round: empty their mailbox once, and once get a pass
      through to its end. */
  datatype Milestone = EmptiedA | EmptiedB | WentOutA | WentOutB

  ghost predicate Reaches(d: Duo, e: Event, m: Milestone) {
    match m
    case EmptiedA => e.AtA? && e.act.TakeIn? && |d.boxA.msgs| <= Courier.BATCH
    case EmptiedB => e.AtB? && e.act.TakeIn? && |d.boxB.msgs| <= Courier.BATCH
    case WentOutA => e.AtA? && GoesThrough(d, e.act)
    case WentOutB => e.AtB? && GoesThrough(MirrorDuo(d), e.act)
  }

  ghost predicate Reached(d: Duo, events: seq<Event>, m: Milestone)
    decreases |events|
  {
    events != [] && (Reaches(d, events[0], m) || Reached(After(d, events[0]), events[1..], m))
  }

  function StepOf(m: Milestone): Step {
    match m
    case EmptiedA => PullA
    case EmptiedB => PullB
    case WentOutA => PushA
    case WentOutB => PushB
  }

  lemma ReachesStep(d: Duo, e: Event, m: Milestone, id: string)
    requires Reaches(d, e, m)
    ensures StepOf(m) in Shadow(d, e, id)
  {
    match e {
      case AtA(act) => assert StepOf(m) in ShadowA(d, act, id);
      case AtB(act) =>
        var steps := ShadowA(MirrorDuo(d), act, id);
        assert MirrorStep(StepOf(m)) in steps;
        var i :| 0 <= i < |steps| && steps[i] == MirrorStep(StepOf(m));
        assert MirrorSteps(steps)[i] == StepOf(m);
    }
  }

  lemma {:induction false} ReachedStep(d: Duo, events: seq<Event>, m: Milestone, id: string)
    requires Reached(d, events, m)
    ensures StepOf(m) in Shadows(d, events, id)
    decreases |events|
  {
    if Reaches(d, events[0], m) {
      ReachesStep(d, events[0], m, id);
    } else {
      ReachedStep(After(d, events[0]), events[1..], m, id);
    }
  }

  ghost predicate FullRound(d: Duo, events: seq<Event>, id: string) {
    && Untouched(d, events, id)
    && Reached(d, events, EmptiedA) && Reached(d, events, EmptiedB)
    && Reached(d, events, WentOutA) && Reached(d, events, WentOutB)
  }

  lemma FullRoundShadow(d: Duo, events: seq<Event>, id: string)
    requires FullRound(d, events, id)
    ensures Round(Shadows(d, events, id))
  {
    UntouchedNoEdits(d, events, id);
    ReachedStep(d, events, EmptiedA, id);
    ReachedStep(d, events, EmptiedB, id);
    ReachedStep(d, events, WentOutA, id);
    ReachedStep(d, events, WentOutB, id);
  }

  ghost function LiveRounds(d: Duo, rounds: seq<seq<Event>>): Duo
    decreases |rounds|
  {
    if rounds == [] then d else LiveRounds(Live(d, rounds[0]), rounds[1..])
  }

  ghost predicate FullRounds(d: Duo, rounds: seq<seq<Event>>, id: string) {
    forall i :: 0 <= i < |rounds| ==> FullRound(LiveRounds(d, rounds[..i]), rounds[i], id)
  }

  lemma FullRoundsTail(d: Duo, rounds: seq<seq<Event>>, id: string)
    requires FullRounds(d, rounds, id) && rounds != []
    ensures FullRound(d, rounds[0], id) && FullRounds(Live(d, rounds[0]), rounds[1..], id)
  {
    assert rounds[..0] == [];
    var rest := rounds[1..];
    forall i | 0 <= i < |rest| ensures FullRound(LiveRounds(Live(d, rounds[0]), rest[..i]), rest[i], id) {
      assert rounds[..i + 1][1..] == rest[..i] && rounds[..i + 1][0] == rounds[0];
      assert FullRound(LiveRounds(d, rounds[..i + 1]), rounds[i + 1], id);
    }
  }

  lemma {:induction false} RoundsShadow(d: Duo, rounds: seq<seq<Event>>, id: string) returns (steps: seq<seq<Step>>)
    requires Fit(d) && FullRounds(d, rounds, id)
    ensures |steps| == |rounds| && forall r :: r in steps ==> Round(r)
    ensures View(LiveRounds(d, rounds), id) == RunRounds(PairOf(d), View(d, id), steps)
    decreases |rounds|
  {
    steps := [];
    if rounds != [] {
      FullRoundsTail(d, rounds, id);
      ShareFollowsTwoSides(d, rounds[0], id);
      FullRoundShadow(d, rounds[0], id);
      var rest := RoundsShadow(Live(d, rounds[0]), rounds[1..], id);
      steps := [Shadows(d, rounds[0], id)] + rest;
    }
  }

  /** And it gets there: after six rounds in which each instance has once emptied its mailbox and
      once gone through its rows, both hold the merged row and nothing about it is under way. */
  lemma ShareSettles(d: Duo, rounds: seq<seq<Event>>, id: string, x: ItemPayload, y: ItemPayload)
    requires Fit(d) && Crossed(View(d, id), x, y) && Agree(x, y)
    requires |rounds| >= 6 && FullRounds(d, rounds, id)
    ensures var d' := LiveRounds(d, rounds);
            var m := Merged(d.a.instance, d.b.instance, x, y);
            Quiet(View(d', id)) && Holds(ItemCell(d'.a, id), m) && Holds(ItemCell(d'.b, id), m)
  {
    var steps := RoundsShadow(d, rounds, id);
    CrossingSettles(PairOf(d), View(d, id), x, y, steps);
  }

  /** Of any item, whatever state it is in, as many such rounds as its potential bring rest. */
  lemma ShareComesToRest(d: Duo, rounds: seq<seq<Event>>, id: string)
    requires Fit(d) && |rounds| >= Potential(View(d, id)) && FullRounds(d, rounds, id)
    ensures Quiet(View(LiveRounds(d, rounds), id))
  {
    var steps := RoundsShadow(d, rounds, id);
    RoundsBringQuiet(PairOf(d), View(d, id), steps);
  }

  /** Taking turns in the living share: B changes an item it took over from A. */
  lemma ShareTakesTurns(d: Duo, after: Replica, events: seq<Event>, id: string, p: ItemPayload)
    requires Fit(d) && Handed(View(d, id), p)
    requires LocalChange(d.b, after) && id in after.items
    requires PayloadOf(after.items[id]) != p && after.items[id].createdAt == p.createdAt && p.id == id
    requires Untouched(After(d, AtB(Amend(after))), events, id)
    requires Quiet(View(Live(After(d, AtB(Amend(after))), events), id))
    ensures var d' := Live(After(d, AtB(Amend(after))), events);
            var z := PayloadOf(after.items[id]);
            var (a, b) := (ItemCell(d'.a, id), ItemCell(d'.b, id));
            && a.row.Some? && b.row.Some?
            && (ContentOf(a) == z <==> EditGetsThrough(d.a.instance, d.b.instance, p, z))
            && (ContentOf(a) != ContentOf(b) <==> EditIsSwallowed(d.a.instance, d.b.instance, p, z))
  {
    AmendAtB(d, after, id);
    var d1 := After(d, AtB(Amend(after)));
    ShareFollowsTwoSides(d1, events, id);
    UntouchedNoEdits(d1, events, id);
    TakingTurns(PairOf(d), View(d, id), p, after.items[id], Shadows(d1, events, id));
  }

  lemma AmendAtB(d: Duo, after: Replica, id: string)
    requires Fit(d) && LocalChange(d.b, after) && id in after.items
    ensures var d1 := After(d, AtB(Amend(after)));
            && Fit(d1) && PairOf(d1) == PairOf(d)
            && View(d1, id) == Next(PairOf(d), View(d, id), EditB(after.items[id]))
  {
    EventShadow(d, AtB(Amend(after)), id);
    assert After(d, AtB(Amend(after))) == d.(b := after);
  }
}
