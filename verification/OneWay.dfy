/** A share in which only one side edits an item: the sender's row, the courier with all its mishaps,
    and the receiver. When everything is at rest, do the two sides agree? */
module OneWay {
  import opened Prelude
  import opened SyncProtocol
  import opened ShareState
  import opened Convergence
  import opened Replicas
  import opened Mailbox
  import opened Threads
  import opened Courier
  import opened Redelivery

  datatype Share = Share(sender: Cell, world: World)

  /** The sender edits the item, or goes through its rows; or anything else happens to the mailbox and
      its receiver: other mail, pulls with every kind of interruption, restarts. */
  datatype Doing = Edit(row: Item) | Pass(now: int) | Other(event: Event)

  predicate Allowed(instance: string, id: string, doing: Doing) {
    match doing
    case Edit(row) => row.id == id
    case Pass(_) => true
    case Other(e) => !e.DeleteMailbox? && (e.Send? ==> !Concerns(instance, id, e.body))
  }

  function Version(origin: string, c: Cell): Sealed
    requires c.row.Some?
  {
    Opened(origin, ItemBody(ContentOf(c)))
  }

  function Takes(w: World): bool { w.box.Some? && |w.box.value.msgs| < MAX_PENDING }

  function Do(s: Share, origin: string, doing: Doing): Share {
    match doing
    case Edit(row) => s.(sender := s.sender.(row := Some(row)))
    case Pass(now) =>
      if Unsent(s.sender) && Takes(s.world)
      then Share(MarkSent(s.sender), Next(s.world, Event.Send(now, Version(origin, s.sender))))
      else s
    case Other(e) => s.(world := Next(s.world, e))
  }

  function Live(s: Share, origin: string, doings: seq<Doing>): Share {
    if doings == [] then s else Do(Live(s, origin, doings[..|doings| - 1]), origin, doings[|doings| - 1])
  }

  /** What that was for the courier. */
  lemma {:induction false} LiveIsRun(s: Share, origin: string, doings: seq<Doing>) returns (events: seq<Event>)
    ensures Live(s, origin, doings).world == Run(s.world, events)
  {
    events := [];
    if doings != [] {
      var n := |doings| - 1;
      events := LiveIsRun(s, origin, doings[..n]);
      var before := Live(s, origin, doings[..n]);
      var e := if doings[n].Other? then [doings[n].event]
               else if doings[n].Pass? && Unsent(before.sender) && Takes(before.world)
               then [Event.Send(doings[n].now, Version(origin, before.sender))] else [];
      RunConcat(s.world, events, e);
      if e != [] {
        RunFrom(before.world, e[0], []);
        assert e == [e[0]] + [];
      }
      events := events + e;
    }
  }

  /** What was sent last is the newest message about the item, and the echo guard knows it. */
  ghost predicate Told(s: Share, instance: string, id: string) {
    && s.world.box.Some? && (s.sender.row.Some? ==> s.sender.row.value.id == id)
    && Wellformed(s.world.accepted, instance, id)
    && forall no :: NewestAbout(s.world, instance, id, no) ==>
         s.sender.row.Some? && s.sender.sent == H(s.world.accepted[no - 1].payload.item)
  }

  lemma ToldByPass(s: Share, origin: string, instance: string, id: string, now: int)
    requires Told(s, instance, id) && origin != instance && Unsent(s.sender) && Takes(s.world)
    ensures Told(Do(s, origin, Pass(now)), instance, id)
  {
    var s' := Do(s, origin, Pass(now));
    var n := |s.world.accepted|;
    assert s'.world.accepted == s.world.accepted + [Version(origin, s.sender)];
    assert Concerns(instance, id, s'.world.accepted[n]);
  }

  lemma ToldByOther(s: Share, origin: string, instance: string, id: string, e: Event)
    requires Told(s, instance, id) && Allowed(instance, id, Other(e))
    ensures Told(Do(s, origin, Other(e)), instance, id)
  {
    var s' := Do(s, origin, Other(e));
    assert s'.world.accepted == s.world.accepted
        || (e.Send? && s'.world.accepted == s.world.accepted + [e.body]);
    forall no | NewestAbout(s'.world, instance, id, no)
      ensures NewestAbout(s.world, instance, id, no) && s.world.accepted[no - 1] == s'.world.accepted[no - 1]
    {
      assert forall j :: no <= j < |s.world.accepted| ==> s.world.accepted[j] == s'.world.accepted[j];
    }
  }

  lemma {:induction false} AlwaysTold(s: Share, origin: string, instance: string, id: string, doings: seq<Doing>)
    requires Told(s, instance, id) && origin != instance
    requires forall i :: 0 <= i < |doings| ==> Allowed(instance, id, doings[i])
    ensures Told(Live(s, origin, doings), instance, id)
  {
    if doings != [] {
      var n := |doings| - 1;
      AlwaysTold(s, origin, instance, id, doings[..n]);
      var before := Live(s, origin, doings[..n]);
      match doings[n] {
        case Edit(_) =>
        case Pass(now) => if Unsent(before.sender) && Takes(before.world) { ToldByPass(before, origin, instance, id, now); }
        case Other(e) => ToldByOther(before, origin, instance, id, e);
      }
    }
  }

  /** The receiver starts without the item, or with a row that is neither edited nor due. */
  predicate Untouched(c: Cell, id: string) {
    c.row.Some? ==> c.row.value.id == id && !Dirty(c) && !Unsent(c)
  }

  lemma {:induction false} LastAboutExists(w: World, instance: string, id: string, n: nat, from: nat) returns (i: nat)
    requires InRange(w.accepted, w.handled) && from < n <= |w.handled|
    requires Concerns(instance, id, w.accepted[w.handled[from] - 1])
    requires forall j :: n <= j < |w.handled| ==> !Concerns(instance, id, w.accepted[w.handled[j] - 1])
    ensures LastAbout(w, instance, id, i)
    decreases n
  {
    i := n - 1;
    if !Concerns(instance, id, w.accepted[w.handled[n - 1] - 1]) {
      i := LastAboutExists(w, instance, id, n - 1, from);
    }
  }

  /** The receiver never has the item to send: its own passes play no part. */
  lemma ReceiverSilent(start: Replica, events: seq<Event>, id: string)
    requires Untouched(ItemCell(start, id), id)
    requires Wellformed(Run(Start(start), events).accepted, start.instance, id)
    ensures !Unsent(ItemCell(Run(Start(start), events).receiver, id))
  {
    var w := Run(Start(start), events);
    StartIsQueueing(start);
    SoundRun(Start(start), events, start);
    if from :| 0 <= from < |w.handled| && Concerns(start.instance, id, w.accepted[w.handled[from] - 1]) {
      var i := LastAboutExists(w, start.instance, id, |w.handled|, from);
      RowIsLastInLedger(start, events, id, i);
    } else {
      var bodies := Replay(w.accepted, w.handled);
      ItemFollowsItsMail(start, bodies, id);
      AboutNone(start.instance, start.projectId, id, bodies);
    }
  }

  /** Nothing on file, and the sender has nothing to send. */
  predicate AtRest(s: Share) { s.world.box.Some? && s.world.box.value.msgs == [] && !Unsent(s.sender) }

  lemma EmptyIsDealtWith(start: Replica, events: seq<Event>, id: string, no: int) returns (i: nat)
    requires var w := Run(Start(start), events);
             w.box.Some? && w.box.value.msgs == [] && NewestAbout(w, start.instance, id, no)
    ensures LastAbout(Run(Start(start), events), start.instance, id, i)
  {
    var w := Run(Start(start), events);
    NothingAcceptedIsLost(start, events);
    assert !OnFileAs(w.box.value, no, w.accepted[no - 1]);
    assert no in w.handled;
    var from :| 0 <= from < |w.handled| && w.handled[from] == no;
    i := LastAboutExists(w, start.instance, id, |w.handled|, from);
  }

  /** At rest, after any such history in which the item was sent: the two sides hold the same row,
      creation time apart, if and only if the last message about it that the receiver dealt with says
      what the newest one says. Otherwise they differ for good: neither has anything to send. */
  lemma RestsTogetherIff(start: Replica, b0: Cell, origin: string, doings: seq<Doing>, id: string, no: int)
    returns (i: nat)
    requires origin != start.instance && Untouched(ItemCell(start, id), id)
    requires b0.row.Some? ==> b0.row.value.id == id
    requires forall k :: 0 <= k < |doings| ==> Allowed(start.instance, id, doings[k])
    requires var s := Live(Share(b0, Start(start)), origin, doings);
             AtRest(s) && NewestAbout(s.world, start.instance, id, no)
    ensures var s := Live(Share(b0, Start(start)), origin, doings);
            var (w, a) := (s.world, ItemCell(s.world.receiver, id));
            && LastAbout(w, start.instance, id, i) && a.row.Some? && !Unsent(a) && s.sender.row.Some?
            && ContentOf(s.sender) == w.accepted[no - 1].payload.item
            && (SameBesidesBirth(ContentOf(a), ContentOf(s.sender))
                <==> SameBesidesBirth(w.accepted[w.handled[i] - 1].payload.item, w.accepted[no - 1].payload.item))
  {
    var s0 := Share(b0, Start(start));
    AlwaysTold(s0, origin, start.instance, id, doings);
    var events := LiveIsRun(s0, origin, doings);
    i := EmptyIsDealtWith(start, events, id, no);
    RowIsLastInLedger(start, events, id, i);
    ReceiverSilent(start, events, id);
  }

  /** The sender sends its row, its ack is lost, the sender edits and sends again, and the receiver pulls
      once within the lease and once after. */
  function OneAckLost(edited: Item, t: int, within: int, after: int): seq<Doing> {
    [Pass(t), Other(Event.Pull(t, {}, None, false)), Edit(edited), Pass(t),
     Other(Event.Pull(within, {}, None, true)), Other(Event.Pull(after, {}, None, true))]
  }

  lemma LiveSnoc(s: Share, origin: string, doings: seq<Doing>, doing: Doing)
    ensures Live(s, origin, doings + [doing]) == Do(Live(s, origin, doings), origin, doing)
  {
    assert (doings + [doing])[..|doings|] == doings;
  }

  lemma LiveSix(s: Share, origin: string, a: Doing, b: Doing, c: Doing, d: Doing, e: Doing, f: Doing)
    ensures Live(s, origin, [a, b, c, d, e, f])
         == Do(Do(Do(Do(Do(Do(s, origin, a), origin, b), origin, c), origin, d), origin, e), origin, f)
  {
    LiveSnoc(s, origin, [], a);
    LiveSnoc(s, origin, [a], b);
    LiveSnoc(s, origin, [a, b], c);
    LiveSnoc(s, origin, [a, b, c], d);
    LiveSnoc(s, origin, [a, b, c, d], e);
    LiveSnoc(s, origin, [a, b, c, d, e], f);
    assert [] + [a] == [a] && [a] + [b] == [a, b] && [a, b] + [c] == [a, b, c];
    assert [a, b, c] + [d] == [a, b, c, d] && [a, b, c, d] + [e] == [a, b, c, d, e];
    assert [a, b, c, d, e] + [f] == [a, b, c, d, e, f];
  }

  /** One lost ack is enough: the share comes to rest with the sender on its new version and the
      receiver on the old one, and neither has anything to send. */
  lemma OneLostAckParts(start: Replica, b0: Cell, origin: string, edited: Item, id: string,
                        t: int, within: int, after: int)
    requires origin != start.instance && Untouched(ItemCell(start, id), id)
    requires Unsent(b0) && b0.row.value.id == id && edited.id == id
    requires !SameBesidesBirth(ContentOf(b0), PayloadOf(edited))
    requires t <= within < t + LEASE_TTL <= after
    ensures var s := Live(Share(b0, Start(start)), origin, OneAckLost(edited, t, within, after));
            var a := ItemCell(s.world.receiver, id);
            && AtRest(s) && a.row.Some? && !Unsent(a) && !Dirty(a)
            && s.sender.row == Some(edited)
            && SameBesidesBirth(ContentOf(a), ContentOf(b0)) && !SameBesidesBirth(ContentOf(a), PayloadOf(edited))
  {
    var s0 := Share(b0, Start(start));
    var doings := OneAckLost(edited, t, within, after);
    var x, y := Version(origin, b0), Opened(origin, ItemBody(PayloadOf(edited)));
    LiveSix(s0, origin, doings[0], doings[1], doings[2], doings[3], doings[4], doings[5]);
    assert doings == [doings[0], doings[1], doings[2], doings[3], doings[4], doings[5]];
    var sent := Do(s0, origin, Pass(t));
    assert sent == Share(MarkSent(b0), Next(Start(start), Event.Send(t, x)));
    AckLost(start, x, t);
    var again := Do(Do(Do(sent, origin, doings[1]), origin, doings[2]), origin, Pass(t));
    assert PayloadOf(edited) != ContentOf(b0);
    assert again.sender == Cell(Some(edited), ItemHash(edited), b0.base);
    var lost, e3, e4 := Event.Pull(t, {}, None, false), Event.Pull(within, {}, None, true), Event.Pull(after, {}, None, true);
    RunFive(Start(start), Event.Send(t, x), lost, Event.Send(t, y), e3, e4);
    LostAckDropsNewest(start, x, y, id, t, within, after);
  }
}
