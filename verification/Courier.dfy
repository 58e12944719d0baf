/** The mailbox and the receiving engine together: what a sent message can come to. */
module Courier {
  import opened Prelude
  import opened SyncProtocol
  import opened Replicas
  import opened Mailbox
  import opened SyncEngine

  const BATCH := 100   // the limit of one HTTP receive

  /** One mailbox (None once deleted), its receiver, and three ledgers: the bodies accepted, in
      order (number n is accepted[n - 1]), the numbers the receiver dealt with, and those it acked. */
  datatype World = World(
    box: Option<Box<Sealed>>, receiver: Replica,
    accepted: seq<Sealed>, handled: seq<int>, acked: set<int>)

  /** The receiver may die after any number of messages of a batch, and its ack may be lost. */
  datatype Event =
    | Send(now: int, body: Sealed)
    | Pull(now: int, faults: set<int>, diesAfter: Option<nat>, ackArrives: bool)
    | RestartServer
    | DeleteMailbox

  function Mails(msgs: seq<Message<Sealed>>): seq<Mail> {
    seq(|msgs|, i requires 0 <= i < |msgs| => Mail(msgs[i].no, msgs[i].body))
  }

  /** The part of a batch the receiver lives to see. */
  function Seen(batch: seq<Mail>, diesAfter: Option<nat>): seq<Mail> {
    if diesAfter.Some? && diesAfter.value < |batch| then batch[..diesAfter.value] else batch
  }

  /** receive, apply everything, and only then ack. */
  function PullEvent(w: World, e: Event): World
    requires e.Pull? && w.box.Some?
  {
    var (leased, out) := ReceiveBox(w.box.value, BATCH, e.now);
    var p := PullBatch(w.receiver, Seen(Mails(out), e.diesAfter), e.faults);
    var acks := p.finished && e.diesAfter.None? && e.ackArrives;
    w.(box := Some(if acks then AckBox(leased, Elements(p.done)) else leased),
       receiver := p.replica,
       handled := w.handled + p.done,
       acked := if acks then w.acked + Elements(p.done) else w.acked)
  }

  function Next(w: World, e: Event): World {
    if w.box.None? then w
    else match e
      case Send(now, body) =>
        var (b, r) := SendBox(w.box.value, now, body);
        w.(box := Some(b), accepted := if r.Ok? then w.accepted + [body] else w.accepted)
      case Pull(_, _, _, _) => PullEvent(w, e)
      case RestartServer => w.(box := Some(RestartBox(w.box.value)))
      case DeleteMailbox => w.(box := None)
  }

  function Run(w: World, events: seq<Event>): World
    decreases |events|
  {
    if events == [] then w else Run(Next(w, events[0]), events[1..])
  }

  /** A mailbox fresh from Create, and a receiver that has seen nothing of it. */
  function Start(receiver: Replica): World {
    World(Some(Box(1, [], map[])), receiver, [], [], {})
  }

  /** The replica after dealing with bodies in order; None if one of them cannot be dealt with. */
  function ApplyAll(r: Replica, bodies: seq<Sealed>): Option<Replica>
    decreases |bodies|
  {
    if bodies == [] then Some(r)
    else
      match Handle(r, bodies[0], false)
      case None => None
      case Some(r') => ApplyAll(r', bodies[1..])
  }

  predicate InRange(accepted: seq<Sealed>, handled: seq<int>) {
    forall i :: 0 <= i < |handled| ==> 1 <= handled[i] <= |accepted|
  }

  /** The bodies behind the numbers dealt with, in the order they were dealt with. */
  function Replay(accepted: seq<Sealed>, handled: seq<int>): seq<Sealed>
    requires InRange(accepted, handled)
  {
    seq(|handled|, i requires 0 <= i < |handled| => accepted[handled[i] - 1])
  }

  lemma {:induction false} ApplyAllConcat(r: Replica, a: seq<Sealed>, b: seq<Sealed>)
    requires ApplyAll(r, a).Some?
    ensures ApplyAll(r, a + b) == ApplyAll(ApplyAll(r, a).value, b)
    decreases |a|
  {
    if a == [] {
      assert a + b == b;
    } else {
      assert (a + b)[1..] == a[1..] + b;
      ApplyAllConcat(Handle(r, a[0], false).value, a[1..], b);
    }
  }

  /** Files carry the body accepted under their number, only accepted numbers are dealt with and
      the receiver's state is what dealing with them makes it, only those dealt with are acked, and
      a number stays on file until it is acked. */
  ghost predicate Sound(w: World, start: Replica) {
    && InRange(w.accepted, w.handled)
    && ApplyAll(start, Replay(w.accepted, w.handled)) == Some(w.receiver)
    && w.acked <= Elements(w.handled)
    && (w.box.Some? ==>
          var b := w.box.value;
          && Valid(b) && b.nextSeq == |w.accepted| + 1
          && (forall no :: no in Nos(b.msgs) <==> 1 <= no <= |w.accepted| && no !in w.acked)
          && (forall m :: m in b.msgs ==> 1 <= m.no <= |w.accepted| && m.body == w.accepted[m.no - 1]))
  }

  lemma NumbersOfMails(msgs: seq<Message<Sealed>>, n: nat)
    requires n <= |msgs|
    ensures Elements(Numbers(Mails(msgs)[..n])) <= Nos(msgs)
    ensures n == |msgs| ==> Elements(Numbers(Mails(msgs)[..n])) == Nos(msgs)
  {
    var nos := Numbers(Mails(msgs)[..n]);
    assert forall i :: 0 <= i < n ==> nos[i] == msgs[i].no;
    forall no | no in Elements(nos) ensures no in Nos(msgs) {
      var i :| 0 <= i < |nos| && nos[i] == no;
      assert msgs[i].no == no;
    }
    if n == |msgs| {
      forall no | no in Nos(msgs) ensures no in Elements(nos) {
        var i :| 0 <= i < |msgs| && msgs[i].no == no;
        assert nos[i] == no;
      }
    }
  }

  /** What a batch got through is applied, one message after the other. */
  lemma {:induction false} BatchReplays(r: Replica, batch: seq<Mail>, faults: set<int>, bodies: seq<Sealed>)
    requires |bodies| == |PullBatch(r, batch, faults).done| <= |batch|
    requires forall i :: 0 <= i < |bodies| ==> batch[i].body == bodies[i]
    ensures ApplyAll(r, bodies) == Some(PullBatch(r, batch, faults).replica)
    decreases |batch|
  {
    if batch != [] && bodies != [] {
      var h := Handle(r, batch[0].body, batch[0].no in faults);
      assert h.Some? && Handle(r, bodies[0], false) == h;
      BatchReplays(h.value, batch[1..], faults, bodies[1..]);
    }
  }

  lemma ReplayConcat(accepted: seq<Sealed>, a: seq<int>, b: seq<int>)
    requires InRange(accepted, a) && InRange(accepted, b)
    ensures InRange(accepted, a + b) && Replay(accepted, a + b) == Replay(accepted, a) + Replay(accepted, b)
  {
  }

  /** Leasing messages and dealing with accepted ones keeps the ledgers. */
  lemma SoundHandled(w: World, start: Replica, leases: map<int, int>, receiver: Replica, done: seq<int>)
    requires Sound(w, start) && w.box.Some? && Valid(w.box.value.(leases := leases))
    requires InRange(w.accepted, done) && ApplyAll(w.receiver, Replay(w.accepted, done)) == Some(receiver)
    ensures Sound(w.(box := Some(w.box.value.(leases := leases)), receiver := receiver, handled := w.handled + done), start)
    ensures Elements(done) <= Elements(w.handled + done)
  {
    assert Elements(w.handled + done) == Elements(w.handled) + Elements(done);
    ReplayConcat(w.accepted, w.handled, done);
    ApplyAllConcat(start, Replay(w.accepted, w.handled), Replay(w.accepted, done));
  }

  /** So does acking what was dealt with. */
  lemma SoundAcked(w: World, start: Replica, nos: set<int>)
    requires Sound(w, start) && w.box.Some? && nos <= Elements(w.handled)
    ensures Sound(w.(box := Some(AckBox(w.box.value, nos)), acked := w.acked + nos), start)
  {
    DoKeepsValid(w.box.value, Op.Ack(nos));
    WithoutKeeps(w.box.value.msgs, nos);
  }

  lemma MailsReplay(accepted: seq<Sealed>, r: Replica, out: seq<Message<Sealed>>, diesAfter: Option<nat>, faults: set<int>)
    requires forall i :: 0 <= i < |out| ==>
               1 <= out[i].no <= |accepted| && out[i].body == accepted[out[i].no - 1]
    ensures var p := PullBatch(r, Seen(Mails(out), diesAfter), faults);
            InRange(accepted, p.done) && ApplyAll(r, Replay(accepted, p.done)) == Some(p.replica)
  {
    var seen := Seen(Mails(out), diesAfter);
    var p := PullBatch(r, seen, faults);
    BatchProgress(r, seen, faults);
    assert forall i :: 0 <= i < |p.done| ==> p.done[i] == out[i].no && seen[i].body == out[i].body;
    BatchReplays(r, seen, faults, Replay(accepted, p.done));
  }

  /** What one pull deals with was accepted, and is applied with the bodies that were accepted. */
  lemma PullReplays(w: World, e: Event, start: Replica)
    requires Sound(w, start) && e.Pull? && w.box.Some?
    ensures var out := HandOut(w.box.value.msgs, w.box.value.leases, BATCH, e.now);
            var p := PullBatch(w.receiver, Seen(Mails(out), e.diesAfter), e.faults);
            InRange(w.accepted, p.done) && ApplyAll(w.receiver, Replay(w.accepted, p.done)) == Some(p.replica)
  {
    var b := w.box.value;
    var out := HandOut(b.msgs, b.leases, BATCH, e.now);
    HandOutOrdered(b.msgs, b.leases, BATCH, e.now);
    MailsReplay(w.accepted, w.receiver, out, e.diesAfter, e.faults);
  }

  lemma SoundPull(w: World, e: Event, start: Replica)
    requires Sound(w, start) && e.Pull? && w.box.Some?
    ensures Sound(PullEvent(w, e), start)
  {
    var b := w.box.value;
    var (leased, out) := ReceiveBox(b, BATCH, e.now);
    assert Valid(leased) by { DoKeepsValid(b, Op.Receive(BATCH, e.now)); }
    PullReplays(w, e, start);
    var p := PullBatch(w.receiver, Seen(Mails(out), e.diesAfter), e.faults);
    SoundHandled(w, start, leased.leases, p.replica, p.done);
    SoundAcked(w.(box := Some(leased), receiver := p.replica, handled := w.handled + p.done), start, Elements(p.done));
  }

  lemma SoundSend(w: World, e: Event, start: Replica)
    requires Sound(w, start) && e.Send? && w.box.Some? && |w.box.value.msgs| < MAX_PENDING
    ensures Sound(Next(w, e), start)
  {
    var b := w.box.value;
    DoKeepsValid(b, Op.Send(e.now, e.body));
    ListingSnoc(b.msgs, Message(b.nextSeq, e.now, e.body));
    assert Replay(w.accepted + [e.body], w.handled) == Replay(w.accepted, w.handled);
  }

  lemma SoundStep(w: World, e: Event, start: Replica)
    requires Sound(w, start)
    ensures Sound(Next(w, e), start)
  {
    if w.box.Some? {
      match e {
        case Send(_, _) => if |w.box.value.msgs| < MAX_PENDING { SoundSend(w, e, start); }
        case Pull(_, _, _, _) => SoundPull(w, e, start);
        case RestartServer => DoKeepsValid(w.box.value, Op<Sealed>.Restart);
        case DeleteMailbox =>
      }
    }
  }

  lemma {:induction false} SoundRun(w: World, events: seq<Event>, start: Replica)
    requires Sound(w, start)
    ensures Sound(Run(w, events), start)
    decreases |events|
  {
    if events != [] {
      SoundStep(w, events[0], start);
      SoundRun(Next(w, events[0]), events[1..], start);
    }
  }

  /** Courier safety: through receiver deaths, lost acks, failing applies, server restarts and
      redeliveries, every accepted message is still on file with the body that was sent, or the
      receiver has dealt with it, unless its mailbox was deleted; and the receiver's state is what
      the bodies it dealt with, in the order it met them, make of its initial one. */
  lemma NothingAcceptedIsLost(receiver: Replica, events: seq<Event>)
    ensures var w := Run(Start(receiver), events);
            && (forall no :: 1 <= no <= |w.accepted| ==>
                  || w.box.None?
                  || OnFileAs(w.box.value, no, w.accepted[no - 1])
                  || no in w.handled)
            && InRange(w.accepted, w.handled)
            && ApplyAll(receiver, Replay(w.accepted, w.handled)) == Some(w.receiver)
  {
    StartIsQueueing(receiver);
    SoundRun(Start(receiver), events, receiver);
    var w := Run(Start(receiver), events);
    forall no | 1 <= no <= |w.accepted| && w.box.Some? && no !in w.handled
      ensures OnFileAs(w.box.value, no, w.accepted[no - 1])
    {
      assert no !in w.acked && no in Nos(w.box.value.msgs);
      var i :| 0 <= i < |w.box.value.msgs| && w.box.value.msgs[i].no == no;
      assert w.box.value.msgs[i] in w.box.value.msgs;
    }
  }

  predicate OnFileAs(b: Box<Sealed>, no: int, body: Sealed) {
    exists m :: m in b.msgs && m.no == no && m.body == body
  }

  /** A batch with one failing message, a dead receiver or a lost ack destroys nothing. */
  lemma FailedBatchAcksNothing(w: World, e: Event)
    requires e.Pull? && w.box.Some?
    requires var out := HandOut(w.box.value.msgs, w.box.value.leases, BATCH, e.now);
             e.diesAfter.Some? || !e.ackArrives || Blocked(w.receiver.instance, Mails(out), e.faults)
    ensures Next(w, e).box == Some(ReceiveBox(w.box.value, BATCH, e.now).0)
    ensures Next(w, e).box.value.msgs == w.box.value.msgs && Next(w, e).acked == w.acked
  {
    var out := HandOut(w.box.value.msgs, w.box.value.leases, BATCH, e.now);
    BatchProgress(w.receiver, Seen(Mails(out), e.diesAfter), e.faults);
  }

  function Bodies(msgs: seq<Message<Sealed>>): seq<Sealed> {
    seq(|msgs|, i requires 0 <= i < |msgs| => msgs[i].body)
  }

  predicate NoneLeased(msgs: seq<Message<Sealed>>, leases: map<int, int>, now: int) {
    forall i :: 0 <= i < |msgs| ==> !Leased(leases, msgs[i].no, now)
  }

  lemma {:induction false} RunConcat(w: World, a: seq<Event>, b: seq<Event>)
    ensures Run(w, a + b) == Run(Run(w, a), b)
    decreases |a|
  {
    if a == [] {
      assert a + b == b;
    } else {
      assert (a + b)[0] == a[0] && (a + b)[1..] == a[1..] + b;
      RunConcat(Next(w, a[0]), a[1..], b);
    }
  }

  // ---- runs without mishap: the mailbox is a queue ----

  predicate Smooth(instance: string, e: Event) {
    && (e.Pull? ==> e.faults == {} && e.diesAfter.None? && e.ackArrives)
    && (e.Send? ==> !Poison(instance, e.body))
    && !e.DeleteMailbox?
  }

  /** Nothing leased, numbers 1..h handled in order and gone, the rest on file in order. */
  ghost predicate Queueing(w: World, start: Replica) {
    && w.box.Some? && w.box.value.leases == map[]
    && w.box.value.nextSeq == |w.accepted| + 1
    && InLine(w.box.value.msgs, w.accepted, w.handled)
    && (forall body :: body in w.accepted ==> !Poison(start.instance, body))
    && w.receiver.instance == start.instance
    && ApplyAll(start, w.accepted[..|w.handled|]) == Some(w.receiver)
  }

  ghost predicate InLine(msgs: seq<Message<Sealed>>, accepted: seq<Sealed>, handled: seq<int>) {
    && |handled| <= |accepted|
    && (forall i :: 0 <= i < |handled| ==> handled[i] == i + 1)
    && OnFile(msgs, accepted[|handled|..], |handled|)
  }

  /** The first k files are handled and go. */
  lemma LineMoves(msgs: seq<Message<Sealed>>, accepted: seq<Sealed>, handled: seq<int>, k: nat)
    requires InLine(msgs, accepted, handled) && k <= |msgs|
    ensures InLine(msgs[k..], accepted, handled + Numbers(Mails(msgs[..k])))
  {
    var nos := Numbers(Mails(msgs[..k]));
    assert |nos| == k && forall i :: 0 <= i < k ==> nos[i] == msgs[i].no == |handled| + i + 1;
    assert accepted[|handled| + k..] == accepted[|handled|..][k..];
  }

  /** The files are these bodies, numbered from h + 1 on. */
  predicate OnFile(msgs: seq<Message<Sealed>>, bodies: seq<Sealed>, h: nat) {
    |msgs| == |bodies| && forall i :: 0 <= i < |msgs| ==> msgs[i].no == h + i + 1 && msgs[i].body == bodies[i]
  }

  lemma {:induction false} NothingLeased(msgs: seq<Message<Sealed>>, limit: int, now: int)
    ensures HandOut(msgs, map[], limit, now) == msgs[..if limit <= 0 then 0 else if limit < |msgs| then limit else |msgs|]
  {
    if msgs != [] && limit > 0 {
      NothingLeased(msgs[1..], limit - 1, now);
      var k := if limit - 1 < |msgs| - 1 then limit - 1 else |msgs| - 1;
      assert msgs[..k + 1] == [msgs[0]] + msgs[1..][..k];
    }
  }

  /** A batch of harmless messages goes through whole, message by message in order. */
  lemma {:induction false} SmoothBatch(r: Replica, batch: seq<Mail>, bodies: seq<Sealed>)
    requires |batch| == |bodies| && forall i :: 0 <= i < |batch| ==> batch[i].body == bodies[i]
    requires forall i :: 0 <= i < |batch| ==> !Poison(r.instance, bodies[i])
    ensures var p := PullBatch(r, batch, {});
            p.finished && p.done == Numbers(batch) && ApplyAll(r, bodies) == Some(p.replica)
            && p.replica.instance == r.instance
    decreases |batch|
  {
    BatchProgress(r, batch, {});
    if batch != [] {
      var h := Handle(r, bodies[0], false);
      assert h.Some? && h.value.instance == r.instance;
      SmoothBatch(h.value, batch[1..], bodies[1..]);
    }
  }

  lemma {:induction false} WithoutPrefix(msgs: seq<Message<Sealed>>, k: nat, nos: set<int>)
    requires k <= |msgs| && Increasing(msgs) && nos == Nos(msgs[..k])
    ensures Without(msgs, nos) == msgs[k..]
  {
    if k == 0 {
      WithoutNone(msgs);
      assert nos == {} && msgs[0..] == msgs;
    } else {
      var tail := msgs[1..];
      PrefixNos(msgs, k);
      WithoutPrefix(tail, k - 1, Nos(tail[..k - 1]));
      WithoutIgnores(tail, Nos(tail[..k - 1]), msgs[0].no);
      assert Without(msgs, nos) == Without(tail, nos);
    }
  }

  lemma PrefixNos(msgs: seq<Message<Sealed>>, k: nat)
    requires 0 < k <= |msgs| && Increasing(msgs)
    ensures Increasing(msgs[1..]) && msgs[0].no !in Nos(msgs[1..])
    ensures Nos(msgs[..k]) == Nos(msgs[1..][..k - 1]) + {msgs[0].no}
  {
    assert msgs == [msgs[0]] + msgs[1..];
    ListingCons(msgs[0], msgs[1..]);
    assert msgs[..k] == [msgs[0]] + msgs[1..][..k - 1];
    NosCons(msgs[0], msgs[1..][..k - 1]);
  }

  lemma {:induction false} WithoutIgnores(msgs: seq<Message<Sealed>>, nos: set<int>, no: int)
    requires no !in Nos(msgs)
    ensures Without(msgs, nos) == Without(msgs, nos + {no})
  {
    if msgs != [] {
      assert msgs[0].no in Nos(msgs);
      assert Nos(msgs[1..]) <= Nos(msgs) by {
        forall x | x in Nos(msgs[1..]) ensures x in Nos(msgs) {
          var i :| 0 <= i < |msgs[1..]| && msgs[1..][i].no == x;
          assert msgs[i + 1].no == x;
        }
      }
      WithoutIgnores(msgs[1..], nos, no);
    }
  }

  function Batch(w: World): nat
    requires w.box.Some?
  {
    if |w.box.value.msgs| < BATCH then |w.box.value.msgs| else BATCH
  }

  /** Receiving and acking one batch of a mailbox without leases takes its first files. */
  lemma BoxShape(b: Box<Sealed>, k: nat, now: int)
    requires b.leases == map[] && Increasing(b.msgs) && k == if |b.msgs| < BATCH then |b.msgs| else BATCH
    ensures var (leased, out) := ReceiveBox(b, BATCH, now);
            out == b.msgs[..k] && AckBox(leased, Nos(out)) == Box(b.nextSeq, b.msgs[k..], map[])
  {
    NothingLeased(b.msgs, BATCH, now);
    var out := b.msgs[..k];
    WithoutPrefix(b.msgs, k, Nos(out));
    LeaseAdds(b.leases, out, now);
    assert Lease(b.leases, out, now) - Nos(out) == map[];
  }

  /** What an uninterrupted pull does to a mailbox without leases. */
  lemma PullShape(w: World, e: Event, bodies: seq<Sealed>)
    requires w.box.Some? && w.box.value.leases == map[] && Increasing(w.box.value.msgs)
    requires e.Pull? && e.faults == {} && e.diesAfter.None? && e.ackArrives
    requires |bodies| == Batch(w) && forall i :: 0 <= i < |bodies| ==> w.box.value.msgs[i].body == bodies[i]
    requires forall body :: body in bodies ==> !Poison(w.receiver.instance, body)
    ensures var b := w.box.value;
            var r := ApplyAll(w.receiver, bodies);
            && r.Some? && r.value.instance == w.receiver.instance
            && Next(w, e) == World(Some(Box(b.nextSeq, b.msgs[Batch(w)..], map[])), r.value, w.accepted,
                                   w.handled + Numbers(Mails(b.msgs[..Batch(w)])),
                                   w.acked + Nos(b.msgs[..Batch(w)]))
  {
    BoxShape(w.box.value, Batch(w), e.now);
  }

  lemma ApplyOn(start: Replica, accepted: seq<Sealed>, h: nat, k: nat)
    requires h + k <= |accepted| && ApplyAll(start, accepted[..h]).Some?
    ensures ApplyAll(start, accepted[..h + k])
         == ApplyAll(ApplyAll(start, accepted[..h]).value, accepted[h..h + k])
  {
    ApplyAllConcat(start, accepted[..h], accepted[h..h + k]);
    assert accepted[..h] + accepted[h..h + k] == accepted[..h + k];
  }

  lemma QueueingPull(w: World, start: Replica, e: Event)
    requires Queueing(w, start) && e.Pull? && Smooth(start.instance, e)
    ensures Queueing(Next(w, e), start)
    ensures |Next(w, e).handled| == |w.handled| + Batch(w)
    ensures |Next(w, e).box.value.msgs| == |w.box.value.msgs| - Batch(w) && Next(w, e).accepted == w.accepted
  {
    var h, k := |w.handled|, Batch(w);
    var bodies := w.accepted[h..h + k];
    PullShape(w, e, bodies);
    LineMoves(w.box.value.msgs, w.accepted, w.handled, k);
    ApplyOn(start, w.accepted, h, k);
  }

  lemma QueueingSend(w: World, start: Replica, e: Event)
    requires Queueing(w, start) && e.Send? && Smooth(start.instance, e)
    ensures Queueing(Next(w, e), start)
  {
    assert (w.accepted + [e.body])[..|w.handled|] == w.accepted[..|w.handled|];
  }

  /** As long as no pull is interrupted, the mailbox is a first-in first-out queue delivering
      each message once: the receiver has dealt with exactly the first messages accepted, in order
      of acceptance, the rest is on file, and its state is theirs applied one after the other. */
  lemma {:induction false} SmoothRunIsQueue(w: World, start: Replica, events: seq<Event>)
    requires Queueing(w, start)
    requires forall e :: e in events ==> Smooth(start.instance, e)
    ensures Queueing(Run(w, events), start)
    decreases |events|
  {
    if events != [] {
      var e := events[0];
      assert e in events;
      if e.Send? { QueueingSend(w, start, e); }
      if e.Pull? { QueueingPull(w, start, e); }
      SmoothRunIsQueue(Next(w, e), start, events[1..]);
    }
  }

  /** And n uninterrupted pulls empty a backlog of at most n batches. */
  lemma {:induction false} SmoothPullsDrain(w: World, start: Replica, pulls: seq<Event>)
    requires Queueing(w, start)
    requires forall e :: e in pulls ==> e.Pull? && Smooth(start.instance, e)
    requires |w.box.value.msgs| <= |pulls| * BATCH
    ensures var w' := Run(w, pulls);
            && w'.box.Some? && w'.box.value.msgs == [] && w'.accepted == w.accepted
            && |w'.handled| == |w.accepted| && ApplyAll(start, w.accepted) == Some(w'.receiver)
    decreases |pulls|
  {
    if pulls == [] {
      assert w.accepted[..|w.handled|] == w.accepted;
    } else {
      var e := pulls[0];
      assert e in pulls;
      QueueingPull(w, start, e);
      SmoothPullsDrain(Next(w, e), start, pulls[1..]);
    }
  }

  /** A fresh mailbox starts out that way. */
  lemma StartIsQueueing(start: Replica)
    ensures Queueing(Start(start), start) && Sound(Start(start), start)
  {
    assert Elements([]) == {};
  }

  /** An interrupted pull, whether the receiver died, a message failed or the ack was lost, loses the
      order: until its lease runs out, whatever lies behind it or is sent in the meantime (more)
      overtakes it. */
  lemma InterruptedPullIsOvertaken(w: World, cut: Event, more: seq<Message<Sealed>>, next: Event)
    requires w.box.Some? && Valid(w.box.value) && cut.Pull? && next.Pull?
    requires NoneLeased(w.box.value.msgs, w.box.value.leases, cut.now)
    requires cut.diesAfter.Some? || !cut.ackArrives
             || Blocked(w.receiver.instance, Mails(HandOut(w.box.value.msgs, w.box.value.leases, BATCH, cut.now)), cut.faults)
    requires Increasing(w.box.value.msgs + more)
    requires cut.now <= next.now < cut.now + LEASE_TTL
    ensures var n := Batch(w);
            var all := w.box.value.msgs + more;
            var b' := Next(w, cut).box.value;
            && b'.msgs == w.box.value.msgs
            && HandOut(all, b'.leases, BATCH, next.now) == all[n..if |all| < n + BATCH then |all| else n + BATCH]
  {
    var b, n := w.box.value, Batch(w);
    SkipLeased(b.msgs, b.leases, 0, BATCH, cut.now);
    var out := b.msgs[..n];
    FailedBatchAcksNothing(w, cut);
    assert Next(w, cut).box.value.leases == Lease(b.leases, out, cut.now);
    OnlyBatchLeased(b, n, more, cut.now, next.now);
    SkipLeased(b.msgs + more, Lease(b.leases, out, cut.now), n, BATCH, next.now);
  }

  lemma OnlyBatchLeased(b: Box<Sealed>, n: nat, more: seq<Message<Sealed>>, now: int, later: int)
    requires Valid(b) && n <= |b.msgs| && NoneLeased(b.msgs, b.leases, now)
    requires Increasing(b.msgs + more) && now <= later < now + LEASE_TTL
    ensures var all := b.msgs + more;
            forall i :: 0 <= i < |all| ==> (Leased(Lease(b.leases, b.msgs[..n], now), all[i].no, later) <==> i < n)
  {
    var all, out := b.msgs + more, b.msgs[..n];
    LeaseAdds(b.leases, out, now);
    forall i | 0 <= i < |all| ensures Leased(Lease(b.leases, out, now), all[i].no, later) <==> i < n {
      if i < n {
        assert out[i] == all[i] && out[i].no in Nos(out);
      } else {
        assert forall j :: 0 <= j < n ==> out[j] == all[j] && all[j].no < all[i].no;
        if i < |b.msgs| {
          assert all[i] == b.msgs[i] && !Leased(b.leases, b.msgs[i].no, now);
        } else {
          assert forall j :: 0 <= j < |b.msgs| ==> all[j] == b.msgs[j] && all[j].no < all[i].no;
        }
      }
    }
  }

  /** Messages under lease at the head are passed over; none of the rest is. */
  lemma {:induction false} SkipLeased(msgs: seq<Message<Sealed>>, leases: map<int, int>, k: nat, limit: nat, now: int)
    requires k <= |msgs|
    requires forall i :: 0 <= i < |msgs| ==> (Leased(leases, msgs[i].no, now) <==> i < k)
    ensures HandOut(msgs, leases, limit, now) == msgs[k..if |msgs| < k + limit then |msgs| else k + limit]
    decreases |msgs|
  {
    if msgs != [] && limit > 0 {
      var rest := msgs[1..];
      assert forall i :: 0 <= i < |rest| ==> rest[i] == msgs[i + 1];
      if k > 0 {
        SkipLeased(rest, leases, k - 1, limit, now);
      } else {
        SkipLeased(rest, leases, 0, limit - 1, now);
        var n := if |msgs| < limit then |msgs| else limit;
        assert msgs[..n] == [msgs[0]] + rest[..n - 1];
      }
    }
  }

  // ---- the two classes wired together ----

  /** What the pair (mailbox, receiver) becomes by one inbound pass. */
  ghost function Passed(b: Box<Sealed>, r: Replica, e: Event): (Box<Sealed>, Replica)
    requires e.Pull?
  {
    var w := Next(World(Some(b), r, [], [], {}), e);
    (w.box.value, w.receiver)
  }

  /** Whether that pass returns without an error, which a process that dies never does. */
  ghost predicate PassSucceeds(b: Box<Sealed>, r: Replica, e: Event)
    requires e.Pull?
  {
    var out := HandOut(b.msgs, b.leases, BATCH, e.now);
    e.diesAfter.None? && PullBatch(r, Mails(out), e.faults).finished && (out == [] || e.ackArrives)
  }

  /** One inbound pass of SyncShare against the running server; e says which writes fail, whether
      the ack arrives, and after how many messages the process dies, if it does. ok is false where
      the source returns an error or does not return. */
  method PullShare(server: Store<Sealed>, id: string, engine: Engine, e: Event) returns (ok: bool)
    requires server.Healthy() && e.Pull?
    modifies server, engine
    ensures server.Healthy() && (id in server.disks <==> id in old(server.disks))
    ensures id !in server.disks ==> !ok && engine.View() == old(engine.View())
    ensures id in server.disks ==>
              && (server.BoxOf(id), engine.View()) == Passed(old(server.BoxOf(id)), old(engine.View()), e)
              && (ok <==> PassSucceeds(old(server.BoxOf(id)), old(engine.View()), e))
  {
    if id !in server.disks {
      return false;
    }
    PassedParts(server.BoxOf(id), engine.View(), e);
    var r := server.Receive(id, BATCH, e.now);
    var batch := Mails(r.value);
    var done, finished := engine.PullInbound(Seen(batch, e.diesAfter), e.faults, e.ackArrives && e.diesAfter.None?);
    if e.diesAfter.Some? || !finished {
      return false;
    }
    if |batch| == 0 {
      return true;
    }
    if e.ackArrives {
      var _ := server.Ack(id, done);
    }
    ok := e.ackArrives;
  }

  lemma PassedParts(b: Box<Sealed>, r: Replica, e: Event)
    requires e.Pull?
    ensures var (leased, out) := ReceiveBox(b, BATCH, e.now);
            var p := PullBatch(r, Seen(Mails(out), e.diesAfter), e.faults);
            Passed(b, r, e)
            == (if out != [] && p.finished && e.diesAfter.None? && e.ackArrives then AckBox(leased, Elements(p.done))
                else leased, p.replica)
  {
    AckNothing(ReceiveBox(b, BATCH, e.now).0);
  }

  lemma AckNothing(b: Box<Sealed>)
    ensures AckBox(b, Elements([])) == b
  {
    WithoutNone(b.msgs);
    assert Elements([]) == {};
  }
}
