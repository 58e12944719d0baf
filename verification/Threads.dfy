/** One item's thread through the whole system: behind the mailbox and the engine's tables, each
    item lives by the two-sided protocol of TwoSides. */
module Threads {
  import opened Prelude
  import opened SyncProtocol
  import opened ShareState
  import opened TwoSides
  import opened Replicas
  import Courier

  /** The message says something about this item, and the receiver will take it. */
  predicate Concerns(instance: string, id: string, body: Sealed) {
    && body.Opened? && body.origin != instance
    && body.payload.ItemBody? && body.payload.item.id == id
  }

  function Delivered(instance: string, project: string, id: string, body: Sealed): seq<Delivery> {
    if Concerns(instance, id, body) then [Delivery(instance, body.origin, project, body.payload.item)] else []
  }

  /** What a sequence of messages delivers about one item. */
  function About(instance: string, project: string, id: string, bodies: seq<Sealed>): seq<Delivery>
    decreases |bodies|
  {
    if bodies == [] then []
    else Delivered(instance, project, id, bodies[0]) + About(instance, project, id, bodies[1..])
  }

  function ApplyEach(c: Cell, ds: seq<Delivery>): Cell
    decreases |ds|
  {
    if ds == [] then c else ApplyEach(Apply(c, ds[0]), ds[1..])
  }

  lemma HandleOnItem(r: Replica, body: Sealed, id: string)
    requires Handle(r, body, false).Some?
    ensures var r' := Handle(r, body, false).value;
            && r'.instance == r.instance && r'.projectId == r.projectId
            && ItemCell(r', id) == ApplyEach(ItemCell(r, id), About(r.instance, r.projectId, id, [body]))
  {
    assert [body][1..] == [];
    if body.Opened? && body.payload.ItemBody? {
      ReceiveTouchesOneItem(r, body.origin, body.payload.item, id);
    }
  }

  lemma {:induction false} ApplyEachConcat(c: Cell, a: seq<Delivery>, b: seq<Delivery>)
    ensures ApplyEach(c, a + b) == ApplyEach(ApplyEach(c, a), b)
    decreases |a|
  {
    if a == [] {
      assert a + b == b;
    } else {
      assert (a + b)[1..] == a[1..] + b;
      ApplyEachConcat(Apply(c, a[0]), a[1..], b);
    }
  }

  /** Whatever else is in the mail, an item row and its two hashes come out as if the engine had
      seen only the messages about that item. */
  lemma {:induction false} ItemFollowsItsMail(r: Replica, bodies: seq<Sealed>, id: string)
    requires Courier.ApplyAll(r, bodies).Some?
    ensures ItemCell(Courier.ApplyAll(r, bodies).value, id)
         == ApplyEach(ItemCell(r, id), About(r.instance, r.projectId, id, bodies))
    decreases |bodies|
  {
    if bodies != [] {
      HandleOnItem(r, bodies[0], id);
      var r' := Handle(r, bodies[0], false).value;
      ItemFollowsItsMail(r', bodies[1..], id);
      var first := About(r.instance, r.projectId, id, [bodies[0]]);
      assert [bodies[0]][1..] == [] && first + [] == first;
      ApplyEachConcat(ItemCell(r, id), first, About(r.instance, r.projectId, id, bodies[1..]));
    }
  }

  function Pulls(n: nat): seq<Step> { seq(n, i => PullA) }

  function Payloads(ds: seq<Delivery>): seq<ItemPayload> {
    seq(|ds|, i requires 0 <= i < |ds| => ds[i].remote)
  }

  /** Pulling messages off a queue is applying their payloads in order. */
  lemma {:induction false} PullsApplyEach(p: Pair, s: Sys, ds: seq<Delivery>, rest: seq<ItemPayload>)
    requires s.toA == Payloads(ds) + rest
    requires forall d :: d in ds ==> d.me == p.idA && d.origin == p.idB && d.projectId == p.projectA
    ensures Run(p, s, Pulls(|ds|)) == s.(a := ApplyEach(s.a, ds), toA := rest)
    decreases |ds|
  {
    if ds == [] {
      assert Payloads(ds) + rest == rest;
    } else {
      assert ds[0] in ds;
      assert s.toA[0] == ds[0].remote && s.toA[1..] == Payloads(ds[1..]) + rest;
      assert Pulls(|ds|)[1..] == Pulls(|ds| - 1);
      PullsApplyEach(p, Next(p, s, PullA), ds[1..], rest);
    }
  }

  lemma {:induction false} AboutFrom(instance: string, project: string, id: string, bodies: seq<Sealed>, peer: string)
    requires forall body :: body in bodies && Concerns(instance, id, body) ==> body.origin == peer
    ensures forall d :: d in About(instance, project, id, bodies) ==>
              d.me == instance && d.origin == peer && d.projectId == project
    decreases |bodies|
  {
    if bodies != [] {
      assert bodies[0] in bodies;
      AboutFrom(instance, project, id, bodies[1..], peer);
    }
  }

  /** Over any run of a fresh mailbox in which no pull is interrupted, with other traffic mixed in,
      the receiver's cell for an item is the one TwoSides reaches by pulling, in order, the payloads
      about it among the messages handled so far. */
  lemma CourierRefinesQueue(start: Replica, events: seq<Courier.Event>, p: Pair, id: string, s: Sys)
    requires forall e :: e in events ==> Courier.Smooth(start.instance, e)
    requires start.instance == p.idA && start.projectId == p.projectA && s.a == ItemCell(start, id)
    requires var w := Courier.Run(Courier.Start(start), events);
             && |w.handled| <= |w.accepted|
             && (forall body :: body in w.accepted && Concerns(p.idA, id, body) ==> body.origin == p.idB)
             && s.toA == Payloads(About(p.idA, p.projectA, id, w.accepted[..|w.handled|]))
    ensures var w := Courier.Run(Courier.Start(start), events);
            Run(p, s, Pulls(|s.toA|)) == s.(a := ItemCell(w.receiver, id), toA := [])
  {
    var w := Courier.Run(Courier.Start(start), events);
    Courier.StartIsQueueing(start);
    Courier.SmoothRunIsQueue(Courier.Start(start), start, events);
    var bodies := w.accepted[..|w.handled|];
    ItemFollowsItsMail(start, bodies, id);
    AboutFrom(p.idA, p.projectA, id, bodies, p.idB);
    PullsApplyEach(p, s, About(p.idA, p.projectA, id, bodies), []);
    assert s.toA == s.toA + [];
  }
}
