/** A message whose payload does not decode: what it costs, batch by batch and run by run. */
module Wedge {
  import opened Prelude
  import opened SyncProtocol
  import opened Replicas
  import opened Mailbox
  import opened Courier

  type Mailed = Message<Sealed>

  // ---- it never leaves ----

  lemma {:induction false} AppliedIsNoPoison(r: Replica, bodies: seq<Sealed>)
    requires ApplyAll(r, bodies).Some?
    ensures forall body :: body in bodies ==> !Poison(r.instance, body)
    decreases |bodies|
  {
    if bodies != [] {
      AppliedIsNoPoison(Handle(r, bodies[0], false).value, bodies[1..]);
      assert forall body :: body in bodies ==> body == bodies[0] || body in bodies[1..];
    }
  }

  /** In every run an accepted message that decodes to nonsense is never dealt with and never
      acked: it stays on file until its mailbox is deleted. */
  lemma PoisonNeverLeaves(receiver: Replica, events: seq<Event>, no: int)
    requires var w := Run(Start(receiver), events);
             1 <= no <= |w.accepted| && Poison(receiver.instance, w.accepted[no - 1])
    ensures var w := Run(Start(receiver), events);
            no !in w.handled && no !in w.acked
            && (w.box.None? || OnFileAs(w.box.value, no, w.accepted[no - 1]))
  {
    StartIsQueueing(receiver);
    SoundRun(Start(receiver), events, receiver);
    NothingAcceptedIsLost(receiver, events);
    var w := Run(Start(receiver), events);
    var replay := Replay(w.accepted, w.handled);
    AppliedIsNoPoison(receiver, replay);
    assert forall i :: 0 <= i < |w.handled| ==> replay[i] in replay && replay[i] == w.accepted[w.handled[i] - 1];
  }

  /** No pull whose batch holds one acks anything, interrupted or not. */
  lemma PoisonBatchAcksNothing(w: World, e: Event, i: nat)
    requires e.Pull? && w.box.Some?
    requires var out := HandOut(w.box.value.msgs, w.box.value.leases, BATCH, e.now);
             i < |out| && Poison(w.receiver.instance, out[i].body)
    ensures Next(w, e).box.Some? && Next(w, e).box.value.msgs == w.box.value.msgs && Next(w, e).acked == w.acked
  {
    var out := HandOut(w.box.value.msgs, w.box.value.leases, BATCH, e.now);
    assert Blocks(w.receiver.instance, Mails(out)[i], e.faults);
    FailedBatchAcksNothing(w, e);
  }

  // ---- one pull, exactly ----

  /** A pull nothing interrupts. */
  predicate Whole(e: Event) { e.Pull? && e.faults == {} && e.diesAfter.None? && e.ackArrives }

  function OutOf(w: World, e: Event): seq<Mailed>
    requires e.Pull? && w.box.Some?
  {
    HandOut(w.box.value.msgs, w.box.value.leases, BATCH, e.now)
  }

  /** How many messages precede the first poison; all of them if there is none. */
  function UpToPoison(instance: string, out: seq<Mailed>): (k: nat)
    ensures k <= |out| && (k < |out| ==> Poison(instance, out[k].body))
    ensures forall i :: 0 <= i < k ==> !Poison(instance, out[i].body)
  {
    if out == [] || Poison(instance, out[0].body) then 0 else 1 + UpToPoison(instance, out[1..])
  }

  /** A batch is applied up to its first poison. */
  lemma BatchUpToPoison(r: Replica, out: seq<Mailed>)
    ensures var k := UpToPoison(r.instance, out);
            var p := PullBatch(r, Mails(out), {});
            && (p.finished <==> k == |out|) && p.done == Numbers(Mails(out[..k]))
            && p.replica.instance == r.instance && ApplyAll(r, Bodies(out[..k])) == Some(p.replica)
  {
    var batch := Mails(out);
    var p, k := PullBatch(r, batch, {}), UpToPoison(r.instance, out);
    BatchProgress(r, batch, {});
    assert forall i :: 0 <= i < |batch| ==> (Blocks(r.instance, batch[i], {}) <==> Poison(r.instance, out[i].body));
    var d := |p.done|;
    assert forall i :: 0 <= i < d ==> batch[..d][i] == batch[i];
    assert d <= k;
    assert p.finished ==> d == |Numbers(batch)| == |out|;
    assert !p.finished ==> d == k;
    assert batch[..k] == Mails(out[..k]);
    BatchReplays(r, batch, {}, Bodies(out[..k]));
  }

  lemma DoneNumbers(out: seq<Mailed>)
    ensures Elements(Numbers(Mails(out))) == Nos(out)
  {
    NumbersOfMails(out, |out|);
    assert Mails(out)[..|out|] == Mails(out);
  }

  /** The whole effect of a pull that nothing interrupts. What it hands out in front of the first
      poison is applied; that poison and what it hands out behind it are held back, all of the batch
      for a lease; and a batch without poison is acked. */
  lemma PullOutcome(w: World, e: Event)
    requires w.box.Some? && Whole(e)
    ensures var b, out := w.box.value, OutOf(w, e);
            var k := UpToPoison(w.receiver.instance, out);
            var w' := Next(w, e);
            && w'.accepted == w.accepted && w'.receiver.instance == w.receiver.instance
            && w'.handled == w.handled + Numbers(Mails(out[..k]))
            && ApplyAll(w.receiver, Bodies(out[..k])) == Some(w'.receiver)
            && w'.acked == (if k == |out| then w.acked + Nos(out) else w.acked)
            && w'.box == Some(
                 if k == |out| then Box(b.nextSeq, Without(b.msgs, Nos(out)), Lease(b.leases, out, e.now) - Nos(out))
                 else b.(leases := Lease(b.leases, out, e.now)))
  {
    var out := OutOf(w, e);
    BatchUpToPoison(w.receiver, out);
    assert out[..|out|] == out;
    DoneNumbers(out);
  }

  // ---- when a mailbox can be emptied ----

  /** Pulls that nothing interrupts, from when no lease is running, enough for the messages on file. */
  ghost predicate Enough(w: World, pulls: seq<Event>) {
    && w.box.Some? && |w.box.value.msgs| <= |pulls| * BATCH
    && (forall i :: 0 <= i < |pulls| ==> Whole(pulls[i]))
    && (forall i, j :: 0 <= i < j < |pulls| ==> pulls[i].now <= pulls[j].now)
    && (pulls != [] ==> NoneLeased(w.box.value.msgs, w.box.value.leases, pulls[0].now))
  }

  predicate Clean(instance: string, msgs: seq<Mailed>) {
    forall i :: 0 <= i < |msgs| ==> !Poison(instance, msgs[i].body)
  }

  lemma ClearPull(w: World, e: Event)
    requires w.box.Some? && Whole(e) && Increasing(w.box.value.msgs)
    requires Clean(w.receiver.instance, w.box.value.msgs)
    requires NoneLeased(w.box.value.msgs, w.box.value.leases, e.now)
    ensures var w' := Next(w, e);
            && w'.box.Some? && w'.box.value.msgs == w.box.value.msgs[Batch(w)..]
            && w'.receiver.instance == w.receiver.instance
            && forall later :: e.now <= later ==> NoneLeased(w'.box.value.msgs, w'.box.value.leases, later)
  {
    var b, k := w.box.value, Batch(w);
    SkipLeased(b.msgs, b.leases, 0, BATCH, e.now);
    assert OutOf(w, e) == b.msgs[..k];
    PullOutcome(w, e);
    WithoutPrefix(b.msgs, k, Nos(b.msgs[..k]));
    RestUnleased(b.msgs, b.leases, k, e.now);
  }

  lemma RestUnleased(msgs: seq<Mailed>, leases: map<int, int>, k: nat, now: int)
    requires k <= |msgs| && Increasing(msgs) && NoneLeased(msgs, leases, now)
    ensures forall later :: now <= later ==> NoneLeased(msgs[k..], Lease(leases, msgs[..k], now) - Nos(msgs[..k]), later)
  {
    LeaseAdds(leases, msgs[..k], now);
    assert forall i :: 0 <= i < |msgs[k..]| ==> msgs[k..][i] == msgs[k + i] && msgs[k + i].no !in Nos(msgs[..k]);
  }

  lemma {:induction false} ClearDrain(w: World, pulls: seq<Event>)
    requires Enough(w, pulls) && Increasing(w.box.value.msgs) && Clean(w.receiver.instance, w.box.value.msgs)
    ensures Run(w, pulls).box.Some? && Run(w, pulls).box.value.msgs == []
    decreases |pulls|
  {
    if pulls != [] {
      ClearPull(w, pulls[0]);
      ClearDrain(Next(w, pulls[0]), pulls[1..]);
    }
  }

  lemma {:induction false} PullsKeepBox(w: World, pulls: seq<Event>)
    requires w.box.Some? && forall i :: 0 <= i < |pulls| ==> pulls[i].Pull?
    ensures Run(w, pulls).box.Some? && Run(w, pulls).accepted == w.accepted
    decreases |pulls|
  {
    if pulls != [] { PullsKeepBox(Next(w, pulls[0]), pulls[1..]); }
  }

  /** After any history, of sends, deaths, faults, lost acks and restarts: enough uninterrupted pulls
      empty the mailbox if and only if nothing that was ever accepted is poison. */
  lemma EmptiesIff(receiver: Replica, events: seq<Event>, pulls: seq<Event>)
    requires Enough(Run(Start(receiver), events), pulls)
    ensures var w := Run(Start(receiver), events);
            var w' := Run(w, pulls);
            && w'.box.Some?
            && (w'.box.value.msgs == [] <==> forall i :: 0 <= i < |w.accepted| ==> !Poison(receiver.instance, w.accepted[i]))
  {
    var w := Run(Start(receiver), events);
    StartIsQueueing(receiver);
    SoundRun(Start(receiver), events, receiver);
    PullsKeepBox(w, pulls);
    SameReceiver(receiver, Replay(w.accepted, w.handled));
    if i :| 0 <= i < |w.accepted| && Poison(receiver.instance, w.accepted[i]) {
      RunConcat(Start(receiver), events, pulls);
      PoisonNeverLeaves(receiver, events + pulls, i + 1);
    } else {
      assert forall i :: 0 <= i < |w.box.value.msgs| ==> w.box.value.msgs[i] in w.box.value.msgs;
      ClearDrain(w, pulls);
    }
  }

  lemma {:induction false} SameReceiver(r: Replica, bodies: seq<Sealed>)
    requires ApplyAll(r, bodies).Some?
    ensures ApplyAll(r, bodies).value.instance == r.instance
    decreases |bodies|
  {
    if bodies != [] { SameReceiver(Handle(r, bodies[0], false).value, bodies[1..]); }
  }

  // ---- what it keeps applying ----

  /** The first k messages on file, then a poison, all within reach of one batch, and hidden together
      until a moment. Only times from now on matter. */
  ghost predicate Front(instance: string, b: Box<Sealed>, front: seq<Mailed>, now: int, until: int) {
    && Valid(b) && 0 < |front| <= BATCH && front <= b.msgs
    && UpToPoison(instance, front) == |front| - 1
    && forall i, t :: 0 <= i < |front| && now <= t ==> (Leased(b.leases, front[i].no, t) <==> t < until)
  }

  function Clock(e: Event, now: int): int { if e.Pull? then e.now else now }

  /** Sends, and pulls that nothing interrupts, as the clock goes. */
  ghost predicate Timed(events: seq<Event>, now: int)
    decreases |events|
  {
    events != [] ==>
      && (events[0].Send? || (Whole(events[0]) && now <= events[0].now))
      && Timed(events[1..], Clock(events[0], now))
  }

  predicate Turn(e: Event, until: int) { e.Pull? && until <= e.now }

  function Hidden(e: Event, until: int): int { if Turn(e, until) then e.now + LEASE_TTL else until }

  /** How many of the pulls come when no lease hides the front: one, and then one for each lease
      that has run out. */
  function Turns(events: seq<Event>, until: int): nat
    decreases |events|
  {
    if events == [] then 0 else Flag(Turn(events[0], until)) + Turns(events[1..], Hidden(events[0], until))
  }

  /** The part of a ledger about some numbers. */
  function Among(ledger: seq<int>, nos: set<int>): seq<int> {
    if ledger == [] then []
    else if ledger[0] in nos then [ledger[0]] + Among(ledger[1..], nos)
    else Among(ledger[1..], nos)
  }

  lemma {:induction false} AmongConcat(a: seq<int>, b: seq<int>, nos: set<int>)
    ensures Among(a + b, nos) == Among(a, nos) + Among(b, nos)
  {
    if a == [] {
      assert a + b == b;
    } else {
      assert (a + b)[0] == a[0] && (a + b)[1..] == a[1..] + b;
      AmongConcat(a[1..], b, nos);
    }
  }

  lemma {:induction false} AmongAll(a: seq<int>, nos: set<int>)
    requires Elements(a) <= nos
    ensures Among(a, nos) == a
  {
    if a != [] {
      assert a[0] in Elements(a);
      assert Elements(a[1..]) <= Elements(a);
      AmongAll(a[1..], nos);
    }
  }

  lemma {:induction false} AmongNone(a: seq<int>, nos: set<int>)
    requires Elements(a) !! nos
    ensures Among(a, nos) == []
  {
    if a != [] {
      assert a[0] in Elements(a);
      assert Elements(a[1..]) <= Elements(a);
      AmongNone(a[1..], nos);
    }
  }

  lemma {:induction false} PoisonStaysFirst(instance: string, front: seq<Mailed>, more: seq<Mailed>)
    requires front != [] && UpToPoison(instance, front) == |front| - 1
    ensures UpToPoison(instance, front + more) == |front| - 1
  {
    var k := UpToPoison(instance, front + more);
    assert (front + more)[|front| - 1] == front[|front| - 1];
    if k < |front| { assert (front + more)[k] == front[k]; }
  }

  /** Visible messages at the head of the file are handed out first. */
  lemma {:induction false} VisibleFirst(front: seq<Mailed>, rest: seq<Mailed>, leases: map<int, int>, limit: nat, now: int)
    requires NoneLeased(front, leases, now) && |front| <= limit
    ensures HandOut(front + rest, leases, limit, now) == front + HandOut(rest, leases, limit - |front|, now)
    decreases |front|
  {
    if front == [] {
      assert front + rest == rest;
    } else {
      assert (front + rest)[0] == front[0] && (front + rest)[1..] == front[1..] + rest;
      assert forall i :: 0 <= i < |front[1..]| ==> front[1..][i] == front[i + 1];
      VisibleFirst(front[1..], rest, leases, limit - 1, now);
    }
  }

  lemma {:induction false} WithoutRest(front: seq<Mailed>, rest: seq<Mailed>, nos: set<int>)
    requires Nos(front) !! nos
    ensures Without(front + rest, nos) == front + Without(rest, nos)
    decreases |front|
  {
    if front == [] {
      assert front + rest == rest;
    } else {
      assert (front + rest)[0] == front[0] && (front + rest)[1..] == front[1..] + rest;
      assert front == [front[0]] + front[1..];
      NosCons(front[0], front[1..]);
      WithoutRest(front[1..], rest, nos);
    }
  }

  function Repeat<T>(s: seq<T>, n: nat): seq<T> { if n == 0 then [] else s + Repeat(s, n - 1) }

  lemma {:induction false} RepeatAdds<T>(s: seq<T>, m: nat, n: nat)
    ensures Repeat(s, m + n) == Repeat(s, m) + Repeat(s, n)
  {
    if m == 0 {
      assert Repeat(s, m) + Repeat(s, n) == Repeat(s, n);
    } else {
      RepeatAdds(s, m - 1, n);
      assert s + (Repeat(s, m - 1) + Repeat(s, n)) == (s + Repeat(s, m - 1)) + Repeat(s, n);
    }
  }

  /** Between w and w' the front was applied n times up to its poison, and nothing of it left. */
  ghost predicate Replayed(w: World, w': World, front: seq<Mailed>, n: nat)
    requires front != []
  {
    && w'.box.Some? && front <= w'.box.value.msgs && w'.acked * Nos(front) == w.acked * Nos(front)
    && Among(w'.handled, Nos(front))
       == Among(w.handled, Nos(front)) + Repeat(Numbers(Mails(front[..|front| - 1])), n)
  }

  lemma ReplaysAdd(w: World, w1: World, w2: World, front: seq<Mailed>, m: nat, n: nat)
    requires front != [] && Replayed(w, w1, front, m) && Replayed(w1, w2, front, n)
    ensures Replayed(w, w2, front, m + n)
  {
    var once := Numbers(Mails(front[..|front| - 1]));
    RepeatAdds(once, m, n);
    var before := Among(w.handled, Nos(front));
    assert (before + Repeat(once, m)) + Repeat(once, n) == before + (Repeat(once, m) + Repeat(once, n));
  }

  lemma NothingReplayed(w: World, w': World, front: seq<Mailed>)
    requires front != [] && w'.box.Some? && front <= w'.box.value.msgs
    requires w'.acked * Nos(front) == w.acked * Nos(front)
    requires Among(w'.handled, Nos(front)) == Among(w.handled, Nos(front))
    ensures Replayed(w, w', front, 0)
  {
    assert Among(w.handled, Nos(front)) + [] == Among(w.handled, Nos(front));
  }

  // The front's turn.

  lemma TurnOut(w: World, e: Event, front: seq<Mailed>, now: int, until: int)
    requires w.box.Some? && Whole(e) && now <= e.now && until <= e.now
    requires Front(w.receiver.instance, w.box.value, front, now, until)
    ensures var out := OutOf(w, e);
            && front <= out && out[..|front| - 1] == front[..|front| - 1]
            && UpToPoison(w.receiver.instance, out) == |front| - 1
  {
    var b := w.box.value;
    var rest := b.msgs[|front|..];
    assert b.msgs == front + rest;
    VisibleFirst(front, rest, b.leases, BATCH, e.now);
    PoisonStaysFirst(w.receiver.instance, front, HandOut(rest, b.leases, BATCH - |front|, e.now));
  }

  lemma TurnBox(instance: string, b: Box<Sealed>, front: seq<Mailed>, now: int, until: int, at: int)
    requires Front(instance, b, front, now, until) && now <= at
    requires front <= HandOut(b.msgs, b.leases, BATCH, at)
    ensures Front(instance, ReceiveBox(b, BATCH, at).0, front, at, at + LEASE_TTL)
  {
    var out := HandOut(b.msgs, b.leases, BATCH, at);
    DoKeepsValid(b, Op.Receive(BATCH, at));
    LeaseAdds(b.leases, out, at);
    assert forall i :: 0 <= i < |front| ==> out[i] == front[i] && out[i].no in Nos(out);
  }

  /** Applied up to the poison again, and hidden again for a lease. */
  lemma FrontTurn(w: World, e: Event, front: seq<Mailed>, now: int, until: int)
    requires w.box.Some? && Whole(e) && now <= e.now && until <= e.now
    requires Front(w.receiver.instance, w.box.value, front, now, until)
    ensures var w' := Next(w, e);
            && Replayed(w, w', front, 1) && w'.receiver.instance == w.receiver.instance
            && Front(w.receiver.instance, w'.box.value, front, e.now, e.now + LEASE_TTL)
  {
    TurnOut(w, e, front, now, until);
    PullOutcome(w, e);
    TurnBox(w.receiver.instance, w.box.value, front, now, until, e.now);
    FrontLedger(w.handled, front);
    var once := Numbers(Mails(front[..|front| - 1]));
    assert Repeat(once, 1) == once + Repeat(once, 0) == once;
  }

  lemma FrontLedger(handled: seq<int>, front: seq<Mailed>)
    requires front != []
    ensures var dealt := Numbers(Mails(front[..|front| - 1]));
            Among(handled + dealt, Nos(front)) == Among(handled, Nos(front)) + dealt
  {
    var before := front[..|front| - 1];
    DoneNumbers(before);
    assert Nos(before) <= Nos(front);
    AmongConcat(handled, Numbers(Mails(before)), Nos(front));
    AmongAll(Numbers(Mails(before)), Nos(front));
  }

  // Somebody else's turn.

  lemma HiddenLeased(instance: string, b: Box<Sealed>, front: seq<Mailed>, now: int, until: int, at: int)
    requires Front(instance, b, front, now, until) && now <= at < until
    ensures var (leased, out) := ReceiveBox(b, BATCH, at);
            Nos(out) !! Nos(front) && Front(instance, leased, front, at, until)
  {
    var (leased, out) := ReceiveBox(b, BATCH, at);
    HandOutOrdered(b.msgs, b.leases, BATCH, at);
    DoKeepsValid(b, Op.Receive(BATCH, at));
    LeaseAdds(b.leases, out, at);
    forall no | no in Nos(front) ensures no !in Nos(out) {
      var i :| 0 <= i < |front| && front[i].no == no;
      assert Leased(b.leases, front[i].no, at);
    }
    forall i, t | 0 <= i < |front| && at <= t ensures Leased(leased.leases, front[i].no, t) <==> t < until {
      assert front[i].no in Nos(front);
      assert Leased(b.leases, front[i].no, t) <==> t < until;
    }
  }

  lemma HiddenAcked(instance: string, b: Box<Sealed>, front: seq<Mailed>, now: int, until: int, nos: set<int>)
    requires Front(instance, b, front, now, until) && nos !! Nos(front)
    ensures Front(instance, AckBox(b, nos), front, now, until)
  {
    AckKeepsValid(b, nos);
    var rest := b.msgs[|front|..];
    assert b.msgs == front + rest;
    WithoutRest(front, rest, nos);
    forall i, t | 0 <= i < |front| && now <= t ensures Leased(AckBox(b, nos).leases, front[i].no, t) <==> t < until {
      assert front[i].no in Nos(front);
      assert Leased(b.leases, front[i].no, t) <==> t < until;
    }
  }

  lemma OthersLedger(handled: seq<int>, out: seq<Mailed>, k: nat, nos: set<int>)
    requires k <= |out| && Nos(out) !! nos
    ensures Among(handled + Numbers(Mails(out[..k])), nos) == Among(handled, nos)
  {
    var dealt := Numbers(Mails(out[..k]));
    DoneNumbers(out[..k]);
    assert Nos(out[..k]) <= Nos(out);
    AmongConcat(handled, dealt, nos);
    AmongNone(dealt, nos);
  }

  /** It is passed over: nothing of it is dealt with, acked or leased anew. */
  lemma FrontHidden(w: World, e: Event, front: seq<Mailed>, now: int, until: int)
    requires w.box.Some? && Whole(e) && now <= e.now < until
    requires Front(w.receiver.instance, w.box.value, front, now, until)
    ensures var w' := Next(w, e);
            && Replayed(w, w', front, 0) && w'.receiver.instance == w.receiver.instance
            && Front(w.receiver.instance, w'.box.value, front, e.now, until)
  {
    var out := OutOf(w, e);
    HiddenLeased(w.receiver.instance, w.box.value, front, now, until, e.now);
    HiddenAcked(w.receiver.instance, ReceiveBox(w.box.value, BATCH, e.now).0, front, e.now, until, Nos(out));
    PullOutcome(w, e);
    OthersLedger(w.handled, out, UpToPoison(w.receiver.instance, out), Nos(front));
    NothingReplayed(w, Next(w, e), front);
  }

  lemma FrontSend(w: World, e: Event, front: seq<Mailed>, now: int, until: int)
    requires w.box.Some? && e.Send? && Front(w.receiver.instance, w.box.value, front, now, until)
    ensures var w' := Next(w, e);
            && Replayed(w, w', front, 0) && w'.receiver == w.receiver
            && Front(w.receiver.instance, w'.box.value, front, now, until)
  {
    DoKeepsValid(w.box.value, Op.Send(e.now, e.body));
    NothingReplayed(w, Next(w, e), front);
  }

  lemma FrontStep(w: World, e: Event, front: seq<Mailed>, now: int, until: int)
    requires w.box.Some? && (e.Send? || (Whole(e) && now <= e.now))
    requires Front(w.receiver.instance, w.box.value, front, now, until)
    ensures var w' := Next(w, e);
            && Replayed(w, w', front, Flag(Turn(e, until))) && w'.receiver.instance == w.receiver.instance
            && Front(w.receiver.instance, w'.box.value, front, Clock(e, now), Hidden(e, until))
  {
    if e.Send? { FrontSend(w, e, front, now, until); }
    else if e.now < until { FrontHidden(w, e, front, now, until); }
    else { FrontTurn(w, e, front, now, until); }
  }

  /** However often the receiver pulls and however much is sent meanwhile, what lies in front of the
      poison is applied again, whole and in order, in every pull that finds it free of its lease, and
      in no other; and neither it nor the poison is ever acked or leaves. (What applying again does
      to a row is the subject of Redelivery.) */
  lemma {:induction false} PoisonReplays(w: World, events: seq<Event>, front: seq<Mailed>, now: int, until: int)
    requires w.box.Some? && Timed(events, now) && Front(w.receiver.instance, w.box.value, front, now, until)
    ensures Replayed(w, Run(w, events), front, Turns(events, until))
    decreases |events|
  {
    if events == [] {
      NothingReplayed(w, w, front);
    } else {
      var e, w1 := events[0], Next(w, events[0]);
      FrontStep(w, e, front, now, until);
      PoisonReplays(w1, events[1..], front, Clock(e, now), Hidden(e, until));
      ReplaysAdd(w, w1, Run(w1, events[1..]), front, Flag(Turn(e, until)), Turns(events[1..], Hidden(e, until)));
    }
  }
}
