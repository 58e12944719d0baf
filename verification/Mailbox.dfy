/** The rendezvous server: per-mailbox message files, a sequence counter that survives restarts,
    and delivery leases that do not. */
module Mailbox {
  import opened Prelude

  const MAX_PENDING := 5000
  const MAX_MAILBOXES := 256
  const LEASE_TTL := 60_000_000_000   // nanoseconds

  datatype Message<T> = Message(no: int, sentAt: int, body: T)

  /** One mailbox: the counter and the message files in file-name order, on disk, and the lease
      expiries, in memory. */
  datatype Box<T> = Box(nextSeq: int, msgs: seq<Message<T>>, leases: map<int, int>)

  datatype Error = NotFound | Full | TooMany

  /** The sequence numbers of a directory listing. */
  function Nos<T>(msgs: seq<Message<T>>): set<int> { set i | 0 <= i < |msgs| :: msgs[i].no }

  predicate Stored<T>(b: Box<T>, no: int) { no in Nos(b.msgs) }

  predicate Increasing<T>(msgs: seq<Message<T>>) {
    forall i, j :: 0 <= i < j < |msgs| ==> msgs[i].no < msgs[j].no
  }

  ghost predicate Valid<T>(b: Box<T>) {
    && Increasing(b.msgs) && |b.msgs| <= MAX_PENDING && 1 <= b.nextSeq
    && (forall no :: no in Nos(b.msgs) ==> 1 <= no < b.nextSeq)
    && b.leases.Keys <= Nos(b.msgs)
  }

  lemma NosCons<T>(m: Message<T>, rest: seq<Message<T>>)
    ensures Nos([m] + rest) == {m.no} + Nos(rest)
  {
    var all := [m] + rest;
    forall no | no in Nos(rest) ensures no in Nos(all) {
      var i :| 0 <= i < |rest| && rest[i].no == no;
      assert all[i + 1].no == no;
    }
    forall no | no in Nos(all) ensures no == m.no || no in Nos(rest) {
      var i :| 0 <= i < |all| && all[i].no == no;
      assert i > 0 ==> rest[i - 1].no == no;
    }
    assert all[0].no in Nos(all);
  }

  lemma IncreasingTail<T>(m: Message<T>, rest: seq<Message<T>>)
    requires Increasing([m] + rest)
    ensures Increasing(rest) && forall no :: no in Nos(rest) ==> m.no < no
  {
    var all := [m] + rest;
    forall no | no in Nos(rest) ensures m.no < no {
      var i :| 0 <= i < |rest| && rest[i].no == no;
      assert all[0].no < all[i + 1].no;
    }
    forall i, j | 0 <= i < j < |rest| ensures rest[i].no < rest[j].no {
      assert all[i + 1].no < all[j + 1].no;
    }
  }

  lemma IncreasingCons<T>(m: Message<T>, rest: seq<Message<T>>)
    requires Increasing(rest) && forall no :: no in Nos(rest) ==> m.no < no
    ensures Increasing([m] + rest)
  {
    var all := [m] + rest;
    forall i, j | 0 <= i < j < |all| ensures all[i].no < all[j].no {
      var x := rest[j - 1];
      if i == 0 { assert x.no in Nos(rest); } else { assert rest[i - 1].no < x.no; }
    }
  }

  lemma ListingCons<T>(m: Message<T>, rest: seq<Message<T>>)
    ensures Nos([m] + rest) == {m.no} + Nos(rest)
    ensures Increasing([m] + rest) <==> Increasing(rest) && forall no :: no in Nos(rest) ==> m.no < no
  {
    NosCons(m, rest);
    if Increasing([m] + rest) { IncreasingTail(m, rest); }
    if Increasing(rest) && forall no :: no in Nos(rest) ==> m.no < no { IncreasingCons(m, rest); }
  }

  lemma ListingSnoc<T>(msgs: seq<Message<T>>, m: Message<T>)
    requires Increasing(msgs) && forall no :: no in Nos(msgs) ==> no < m.no
    ensures Nos(msgs + [m]) == Nos(msgs) + {m.no} && Increasing(msgs + [m])
  {
    var all := msgs + [m];
    assert all[|msgs|].no in Nos(all);
    forall no | no in Nos(msgs) ensures no in Nos(all) {
      var i :| 0 <= i < |msgs| && msgs[i].no == no;
      assert all[i].no == no;
    }
    forall i, j | 0 <= i < j < |all| ensures all[i].no < all[j].no {
      assert all[i].no in Nos(msgs);
    }
  }

  // ---- the operations on one mailbox ----

  function SendBox<T>(b: Box<T>, now: int, body: T): (Box<T>, Result<int, Error>) {
    if |b.msgs| >= MAX_PENDING then (b, Err(Full))
    else (b.(msgs := b.msgs + [Message(b.nextSeq, now, body)], nextSeq := b.nextSeq + 1), Ok(b.nextSeq))
  }

  /** Still hidden by a delivery whose lease has not run out. */
  predicate Leased(leases: map<int, int>, no: int, now: int) { no in leases && now < leases[no] }

  /** The messages one Receive hands out, as its loop finds them. */
  function HandOut<T>(msgs: seq<Message<T>>, leases: map<int, int>, limit: int, now: int): seq<Message<T>> {
    if msgs == [] || limit <= 0 then []
    else if Leased(leases, msgs[0].no, now) then HandOut(msgs[1..], leases, limit, now)
    else [msgs[0]] + HandOut(msgs[1..], leases, limit - 1, now)
  }

  function Lease<T>(leases: map<int, int>, out: seq<Message<T>>, now: int): map<int, int>
    decreases |out|
  {
    if out == [] then leases
    else Lease(leases[out[0].no := now + LEASE_TTL], out[1..], now)
  }

  function ReceiveBox<T>(b: Box<T>, limit: int, now: int): (Box<T>, seq<Message<T>>) {
    var out := HandOut(b.msgs, b.leases, limit, now);
    (b.(leases := Lease(b.leases, out, now)), out)
  }

  function Without<T>(msgs: seq<Message<T>>, nos: set<int>): seq<Message<T>> {
    if msgs == [] then []
    else if msgs[0].no in nos then Without(msgs[1..], nos)
    else [msgs[0]] + Without(msgs[1..], nos)
  }

  function AckBox<T>(b: Box<T>, nos: set<int>): Box<T> {
    b.(msgs := Without(b.msgs, nos), leases := b.leases - nos)
  }

  /** How many messages an ack of these numbers deletes. */
  function Removed<T>(b: Box<T>, nos: set<int>): int { |b.msgs| - |AckBox(b, nos).msgs| }

  /** The server process restarts: every lease is forgotten. */
  function RestartBox<T>(b: Box<T>): Box<T> { b.(leases := map[]) }

  // ---- what Receive hands out ----

  function Visible<T>(msgs: seq<Message<T>>, leases: map<int, int>, now: int): seq<Message<T>> {
    if msgs == [] then []
    else if Leased(leases, msgs[0].no, now) then Visible(msgs[1..], leases, now)
    else [msgs[0]] + Visible(msgs[1..], leases, now)
  }

  /** Receive hands out exactly the first limit messages not under lease. */
  lemma {:induction false} HandOutIsFirstVisible<T>(msgs: seq<Message<T>>, leases: map<int, int>, limit: int, now: int)
    ensures var v := Visible(msgs, leases, now);
            HandOut(msgs, leases, limit, now) == v[..if limit <= 0 then 0 else if limit < |v| then limit else |v|]
  {
    if msgs != [] && limit > 0 {
      if Leased(leases, msgs[0].no, now) {
        HandOutIsFirstVisible(msgs[1..], leases, limit, now);
        assert Visible(msgs, leases, now) == Visible(msgs[1..], leases, now);
      } else {
        HandOutIsFirstVisible(msgs[1..], leases, limit - 1, now);
        var v := Visible(msgs[1..], leases, now);
        var k := if limit - 1 < |v| then limit - 1 else |v|;
        assert ([msgs[0]] + v)[..k + 1] == [msgs[0]] + v[..k];
      }
    }
  }

  /** Handed-out messages are stored ones, none is under lease, and they come in strictly
      increasing sequence order. */
  lemma {:induction false} HandOutOrdered<T>(msgs: seq<Message<T>>, leases: map<int, int>, limit: int, now: int)
    requires Increasing(msgs)
    ensures var out := HandOut(msgs, leases, limit, now);
            && Increasing(out) && Nos(out) <= Nos(msgs)
            && (forall m :: m in out ==> m in msgs)
            && (forall no :: no in Nos(out) ==> !Leased(leases, no, now))
  {
    if msgs != [] && limit > 0 {
      var rest := msgs[1..];
      assert msgs == [msgs[0]] + rest;
      ListingCons(msgs[0], rest);
      if Leased(leases, msgs[0].no, now) {
        HandOutOrdered(rest, leases, limit, now);
      } else {
        HandOutOrdered(rest, leases, limit - 1, now);
        ListingCons(msgs[0], HandOut(rest, leases, limit - 1, now));
      }
    }
  }

  /** Leasing sets the expiry of what was handed out and of nothing else. */
  lemma {:induction false} LeaseAdds<T>(leases: map<int, int>, out: seq<Message<T>>, now: int)
    ensures Lease(leases, out, now).Keys == leases.Keys + Nos(out)
    ensures forall no :: no in Lease(leases, out, now) ==>
              Lease(leases, out, now)[no] == if no in Nos(out) then now + LEASE_TTL else leases[no]
    decreases |out|
  {
    if out != [] {
      LeaseAdds(leases[out[0].no := now + LEASE_TTL], out[1..], now);
      assert out == [out[0]] + out[1..];
      ListingCons(out[0], out[1..]);
    }
  }

  /** Deleting files keeps the others, in order. */
  lemma {:induction false} WithoutKeeps<T>(msgs: seq<Message<T>>, nos: set<int>)
    requires Increasing(msgs)
    ensures var rest := Without(msgs, nos);
            && Increasing(rest) && |rest| <= |msgs| && Nos(rest) == Nos(msgs) - nos
            && (forall m :: m in rest <==> m in msgs && m.no !in nos)
  {
    if msgs != [] {
      var tail := msgs[1..];
      assert msgs == [msgs[0]] + tail;
      ListingCons(msgs[0], tail);
      WithoutKeeps(tail, nos);
      ListingCons(msgs[0], Without(tail, nos));
      assert Without(msgs, nos) == if msgs[0].no in nos then Without(tail, nos) else [msgs[0]] + Without(tail, nos);
      assert forall m :: m in msgs <==> m == msgs[0] || m in tail;
    }
  }

  // ---- invariant and runs of one mailbox ----

  datatype Op<T> = Send(now: int, body: T) | Receive(limit: int, now: int) | Ack(nos: set<int>) | Restart

  function Do<T>(b: Box<T>, op: Op<T>): Box<T> {
    match op
    case Send(now, body) => SendBox(b, now, body).0
    case Receive(limit, now) => ReceiveBox(b, limit, now).0
    case Ack(nos) => AckBox(b, nos)
    case Restart => RestartBox(b)
  }

  /** What an operation hands out. */
  function Given<T>(b: Box<T>, op: Op<T>): seq<Message<T>> {
    if op.Receive? then HandOut(b.msgs, b.leases, op.limit, op.now) else []
  }

  lemma DoKeepsValid<T>(b: Box<T>, op: Op<T>)
    requires Valid(b)
    ensures Valid(Do(b, op)) && b.nextSeq <= Do(b, op).nextSeq
    ensures forall no :: no < b.nextSeq && Stored(Do(b, op), no) ==> Stored(b, no)
  {
    match op {
      case Send(now, body) =>
        if |b.msgs| < MAX_PENDING { ListingSnoc(b.msgs, Message(b.nextSeq, now, body)); }
      case Receive(limit, now) =>
        HandOutOrdered(b.msgs, b.leases, limit, now);
        LeaseAdds(b.leases, HandOut(b.msgs, b.leases, limit, now), now);
      case Ack(nos) =>
        WithoutKeeps(b.msgs, nos);
      case Restart =>
    }
  }

  lemma AckKeepsValid<T>(b: Box<T>, nos: set<int>)
    requires Valid(b)
    ensures Valid(AckBox(b, nos))
  {
    DoKeepsValid(b, Op.Ack(nos));
  }

  /** The box after the first n operations of a run. */
  function After<T>(b: Box<T>, ops: seq<Op<T>>, n: nat): Box<T>
    requires n <= |ops|
  {
    if n == 0 then b else Do(After(b, ops, n - 1), ops[n - 1])
  }

  function GivenAt<T>(b: Box<T>, ops: seq<Op<T>>, n: nat): seq<Message<T>>
    requires n < |ops|
  {
    Given(After(b, ops, n), ops[n])
  }

  /** Every reachable mailbox is valid, and its counter never goes back. */
  lemma {:induction false} RunKeepsValid<T>(b: Box<T>, ops: seq<Op<T>>, m: nat, n: nat)
    requires Valid(b) && m <= n <= |ops|
    ensures Valid(After(b, ops, m)) && Valid(After(b, ops, n))
    ensures After(b, ops, m).nextSeq <= After(b, ops, n).nextSeq
    decreases n
  {
    if n > 0 {
      if m < n { RunKeepsValid(b, ops, m, n - 1); } else { RunKeepsValid(b, ops, n - 1, n - 1); }
      DoKeepsValid(After(b, ops, n - 1), ops[n - 1]);
    }
  }

  /** Sequence numbers are never reused: two accepted sends of one run get different ones. */
  lemma NumbersNeverReused<T>(b: Box<T>, ops: seq<Op<T>>, m: nat, n: nat)
    requires Valid(b) && m < n < |ops| && ops[m].Send? && ops[n].Send?
    requires SendBox(After(b, ops, m), ops[m].now, ops[m].body).1.Ok?
    requires SendBox(After(b, ops, n), ops[n].now, ops[n].body).1.Ok?
    ensures SendBox(After(b, ops, m), ops[m].now, ops[m].body).1.value
            < SendBox(After(b, ops, n), ops[n].now, ops[n].body).1.value
  {
    RunKeepsValid(b, ops, m + 1, n);
    assert After(b, ops, m + 1).nextSeq == After(b, ops, m).nextSeq + 1;
  }

  // ---- lease discipline ----

  function Clock<T>(op: Op<T>): Option<int> {
    match op
    case Send(now, _) => Some(now)
    case Receive(_, now) => Some(now)
    case Ack(_) => None
    case Restart => None
  }

  ghost predicate Monotone<T>(ops: seq<Op<T>>) {
    forall i, j :: 0 <= i < j < |ops| && Clock(ops[i]).Some? && Clock(ops[j]).Some?
                   ==> Clock(ops[i]).value <= Clock(ops[j]).value
  }

  predicate GivesOut<T>(b: Box<T>, ops: seq<Op<T>>, n: nat, no: int)
    requires n < |ops|
  {
    no in Nos(GivenAt(b, ops, n))
  }

  /** Gone for good, or hidden until the time. */
  predicate HiddenUntil<T>(b: Box<T>, no: int, time: int) {
    no < b.nextSeq && (!Stored(b, no) || (no in b.leases && time <= b.leases[no]))
  }

  lemma HiddenStep<T>(b: Box<T>, op: Op<T>, no: int, time: int)
    requires Valid(b) && HiddenUntil(b, no, time) && op != Restart
    requires op.Receive? ==> time <= op.now + LEASE_TTL
    ensures HiddenUntil(Do(b, op), no, time)
    ensures no in Nos(Given(b, op)) ==> time <= op.now
  {
    DoKeepsValid(b, op);
    if op.Receive? {
      HandOutOrdered(b.msgs, b.leases, op.limit, op.now);
      LeaseAdds(b.leases, Given(b, op), op.now);
    } else if op.Ack? {
      WithoutKeeps(b.msgs, op.nos);
    }
  }

  lemma HandOutHides<T>(b: Box<T>, op: Op<T>, no: int)
    requires Valid(b) && op.Receive? && no in Nos(Given(b, op))
    ensures HiddenUntil(Do(b, op), no, op.now + LEASE_TTL)
  {
    HandOutOrdered(b.msgs, b.leases, op.limit, op.now);
    LeaseAdds(b.leases, Given(b, op), op.now);
  }

  lemma {:induction false} HiddenAlong<T>(b: Box<T>, ops: seq<Op<T>>, m: nat, n: nat, no: int)
    requires Valid(b) && Monotone(ops) && m < n <= |ops| && ops[m].Receive? && GivesOut(b, ops, m, no)
    requires forall k :: m < k < n ==> ops[k] != Restart
    ensures HiddenUntil(After(b, ops, n), no, ops[m].now + LEASE_TTL)
    decreases n
  {
    RunKeepsValid(b, ops, m, n - 1);
    if n == m + 1 {
      HandOutHides(After(b, ops, m), ops[m], no);
    } else {
      HiddenAlong(b, ops, m, n - 1, no);
      assert Clock(ops[m]).Some? && (ops[n - 1].Receive? ==> Clock(ops[n - 1]).Some?);
      HiddenStep(After(b, ops, n - 1), ops[n - 1], no, ops[m].now + LEASE_TTL);
    }
  }

  /** Without a restart in between, no message is handed out twice within LEASE_TTL. */
  lemma NoRedeliveryWithinLease<T>(b: Box<T>, ops: seq<Op<T>>, m: nat, n: nat, no: int)
    requires Valid(b) && Monotone(ops) && m < n < |ops| && ops[m].Receive? && ops[n].Receive?
    requires forall k :: m < k < n ==> ops[k] != Restart
    requires GivesOut(b, ops, m, no) && GivesOut(b, ops, n, no)
    ensures ops[m].now + LEASE_TTL <= ops[n].now
  {
    HiddenAlong(b, ops, m, n, no);
    RunKeepsValid(b, ops, m, n);
    assert Clock(ops[m]).Some? && Clock(ops[n]).Some?;
    HiddenStep(After(b, ops, n), ops[n], no, ops[m].now + LEASE_TTL);
  }

  lemma {:induction false} GoneStaysGone<T>(b: Box<T>, ops: seq<Op<T>>, m: nat, n: nat, no: int)
    requires Valid(b) && m <= n <= |ops|
    requires no < After(b, ops, m).nextSeq && !Stored(After(b, ops, m), no)
    ensures no < After(b, ops, n).nextSeq && !Stored(After(b, ops, n), no)
    decreases n
  {
    if m < n {
      GoneStaysGone(b, ops, m, n - 1, no);
      RunKeepsValid(b, ops, m, n - 1);
      DoKeepsValid(After(b, ops, n - 1), ops[n - 1]);
    }
  }

  /** An acked message is never handed out again, restarts or not. */
  lemma AckedNeverReturns<T>(b: Box<T>, ops: seq<Op<T>>, m: nat, n: nat, no: int)
    requires Valid(b) && m < n < |ops| && ops[m].Ack? && no in ops[m].nos
    requires no < After(b, ops, m).nextSeq
    ensures !GivesOut(b, ops, n, no)
  {
    RunKeepsValid(b, ops, m, n);
    AckRemoves(After(b, ops, m), ops[m].nos, no);
    assert After(b, ops, m + 1) == AckBox(After(b, ops, m), ops[m].nos);
    GoneStaysGone(b, ops, m + 1, n, no);
    GoneNotGiven(After(b, ops, n), ops[n], no);
  }

  lemma AckRemoves<T>(b: Box<T>, nos: set<int>, no: int)
    requires Valid(b) && no in nos
    ensures !Stored(AckBox(b, nos), no) && AckBox(b, nos).nextSeq == b.nextSeq && Valid(AckBox(b, nos))
  {
    WithoutKeeps(b.msgs, nos);
    AckKeepsValid(b, nos);
  }

  lemma GoneNotGiven<T>(b: Box<T>, op: Op<T>, no: int)
    requires Valid(b) && !Stored(b, no)
    ensures no !in Nos(Given(b, op))
  {
    if op.Receive? { HandOutOrdered(b.msgs, b.leases, op.limit, op.now); }
  }

  // ---- a crash inside Send ----

  /** Write a message file under a number no lower than any on file, over the one that is there if
      that has the same number. */
  function Put<T>(msgs: seq<Message<T>>, m: Message<T>): seq<Message<T>> {
    if msgs != [] && msgs[|msgs| - 1].no == m.no then msgs[..|msgs| - 1] + [m] else msgs + [m]
  }

  /** The server dies after the message file and before the counter. */
  function CrashBox<T>(b: Box<T>, now: int, body: T): Box<T> {
    b.(msgs := Put(b.msgs, Message(b.nextSeq, now, body)))
  }

  /** Send as it is written, on boxes such a crash has left, too. */
  function ResendBox<T>(b: Box<T>, now: int, body: T): (Box<T>, Result<int, Error>) {
    if |b.msgs| >= MAX_PENDING then (b, Err(Full))
    else (b.(msgs := Put(b.msgs, Message(b.nextSeq, now, body)), nextSeq := b.nextSeq + 1), Ok(b.nextSeq))
  }

  lemma ResendIsSend<T>(b: Box<T>, now: int, body: T)
    requires Valid(b)
    ensures ResendBox(b, now, body) == SendBox(b, now, body)
    ensures CrashBox(b, now, body).msgs == b.msgs + [Message(b.nextSeq, now, body)]
  {
    if b.msgs != [] { assert b.msgs[|b.msgs| - 1].no in Nos(b.msgs); }
  }

  lemma {:induction false} VisibleSnoc<T>(msgs: seq<Message<T>>, m: Message<T>, leases: map<int, int>, now: int)
    requires !Leased(leases, m.no, now)
    ensures Visible(msgs + [m], leases, now) == Visible(msgs, leases, now) + [m]
  {
    if msgs == [] {
      assert msgs + [m] == [m] && [m][1..] == [];
    } else {
      assert (msgs + [m])[0] == msgs[0] && (msgs + [m])[1..] == msgs[1..] + [m];
      VisibleSnoc(msgs[1..], m, leases, now);
      if !Leased(leases, msgs[0].no, now) {
        var v := Visible(msgs[1..], leases, now);
        assert [msgs[0]] + (v + [m]) == ([msgs[0]] + v) + [m];
      }
    }
  }

  lemma {:induction false} VisibleStored<T>(msgs: seq<Message<T>>, leases: map<int, int>, now: int)
    ensures forall m :: m in Visible(msgs, leases, now) ==> m in msgs
  {
    if msgs != [] { VisibleStored(msgs[1..], leases, now); }
  }

  lemma InNos<T>(msgs: seq<Message<T>>)
    ensures forall m :: m in msgs ==> m.no in Nos(msgs)
  {
  }

  /** Whether the half-sent message goes out is decided by the room left in the batch. */
  lemma HalfSentGoesOut<T>(b: Box<T>, x: T, at: int, limit: nat, now: int)
    requires Valid(b)
    ensures var c := CrashBox(b, at, x);
            b.nextSeq in Nos(HandOut(c.msgs, c.leases, limit, now)) <==> |Visible(b.msgs, b.leases, now)| < limit
  {
    ResendIsSend(b, at, x);
    var m := Message(b.nextSeq, at, x);
    var v := Visible(b.msgs, b.leases, now);
    VisibleSnoc(b.msgs, m, b.leases, now);
    HandOutIsFirstVisible(b.msgs + [m], b.leases, limit, now);
    VisibleStored(b.msgs, b.leases, now);
    InNos(b.msgs);
    var out := HandOut(b.msgs + [m], b.leases, limit, now);
    if |v| < limit {
      assert out == v + [m] && out[|v|].no in Nos(out);
    } else {
      assert out == v[..limit];
      assert forall i :: 0 <= i < |out| ==> out[i] in v;
    }
  }

  /** The peer pulls while the half-sent message is on file, the sender sends again, the peer acks. */
  function CrashThenRetry<T>(b: Box<T>, x: T, y: T, at: int, limit: nat, pulled: int, again: int): (Box<T>, seq<Message<T>>) {
    var (held, out) := ReceiveBox(CrashBox(b, at, x), limit, pulled);
    (AckBox(ResendBox(held, again, y).0, Nos(out)), out)
  }

  /** The crash is called harmless because its number was never announced. It is, if and only if the
      half-sent message does not go out before the sender's retry takes the number again: else the ack
      for the first deletes the second, and what was accepted is never handed out. */
  lemma CrashHarmlessIff<T>(b: Box<T>, x: T, y: T, at: int, limit: nat, pulled: int, again: int)
    requires Valid(b) && |b.msgs| + 1 < MAX_PENDING
    ensures var (c, out) := CrashThenRetry(b, x, y, at, limit, pulled, again);
            && Valid(c) && c.nextSeq == b.nextSeq + 1
            && (Stored(c, b.nextSeq) ==> Message(b.nextSeq, again, y) in c.msgs)
            && (Stored(c, b.nextSeq) <==> |Visible(b.msgs, b.leases, pulled)| >= limit)
  {
    HalfSentGoesOut(b, x, at, limit, pulled);
    RetryOverwrites(b, x, y, at, limit, pulled, again);
    var (held, out) := ReceiveBox(CrashBox(b, at, x), limit, pulled);
    var sent := ResendBox(held, again, y).0;
    AckKeepsValid(sent, Nos(out));
    WithoutKeeps(sent.msgs, Nos(out));
    assert Message(b.nextSeq, again, y) in sent.msgs;
  }

  lemma RetryOverwrites<T>(b: Box<T>, x: T, y: T, at: int, limit: nat, pulled: int, again: int)
    requires Valid(b) && |b.msgs| + 1 < MAX_PENDING
    ensures var held := ReceiveBox(CrashBox(b, at, x), limit, pulled).0;
            var sent := ResendBox(held, again, y).0;
            && Valid(sent) && sent.nextSeq == b.nextSeq + 1 && sent.msgs == b.msgs + [Message(b.nextSeq, again, y)]
            && b.nextSeq in Nos(sent.msgs)
  {
    ResendIsSend(b, at, x);
    var first, second := Message(b.nextSeq, at, x), Message(b.nextSeq, again, y);
    assert (b.msgs + [first])[..|b.msgs|] == b.msgs;
    ListingSnoc(b.msgs, first);
    ListingSnoc(b.msgs, second);
    HandOutOrdered(b.msgs + [first], b.leases, limit, pulled);
    LeaseAdds(b.leases, HandOut(b.msgs + [first], b.leases, limit, pulled), pulled);
  }

  /** And then it is lost for good: no later operation hands it out. */
  lemma CrashedRetryNeverGoesOut<T>(b: Box<T>, x: T, y: T, at: int, limit: nat, pulled: int, again: int,
                                    ops: seq<Op<T>>, n: nat)
    requires Valid(b) && |b.msgs| + 1 < MAX_PENDING && n < |ops|
    requires |Visible(b.msgs, b.leases, pulled)| < limit
    ensures !GivesOut(CrashThenRetry(b, x, y, at, limit, pulled, again).0, ops, n, b.nextSeq)
  {
    CrashHarmlessIff(b, x, y, at, limit, pulled, again);
    var c := CrashThenRetry(b, x, y, at, limit, pulled, again).0;
    GoneStaysGone(c, ops, 0, n, b.nextSeq);
    RunKeepsValid(c, ops, 0, n);
    GoneNotGiven(After(c, ops, n), ops[n], b.nextSeq);
  }

  // ---- the loops of Receive and Ack ----

  /** The two lease tables hide the same of these messages. */
  ghost predicate HideSame<T>(held: map<int, int>, leases: map<int, int>, msgs: seq<Message<T>>, now: int) {
    Increasing(msgs) && forall no :: no in Nos(msgs) ==> Leased(held, no, now) == Leased(leases, no, now)
  }

  /** The state of the receive loop after i messages. */
  ghost predicate Midway<T>(msgs: seq<Message<T>>, leases: map<int, int>, limit: int, now: int,
                            i: nat, out: seq<Message<T>>, held: map<int, int>)
  {
    && i <= |msgs| && HideSame(held, leases, msgs[i..], now) && held == Lease(leases, out, now)
    && HandOut(msgs, leases, limit, now) == out + HandOut(msgs[i..], leases, limit - |out|, now)
  }

  lemma MidwayStep<T>(msgs: seq<Message<T>>, leases: map<int, int>, limit: int, now: int,
                      i: nat, out: seq<Message<T>>, held: map<int, int>)
    requires Midway(msgs, leases, limit, now, i, out, held) && i < |msgs| && |out| < limit
    ensures if Leased(held, msgs[i].no, now) then Midway(msgs, leases, limit, now, i + 1, out, held)
            else Midway(msgs, leases, limit, now, i + 1, out + [msgs[i]], held[msgs[i].no := now + LEASE_TTL])
  {
    assert msgs[i..][0] == msgs[i] && msgs[i..][1..] == msgs[i + 1..];
    LeaseSnoc(leases, out, msgs[i], now);
  }

  lemma MidwayEnds<T>(msgs: seq<Message<T>>, leases: map<int, int>, limit: int, now: int,
                      i: nat, out: seq<Message<T>>, held: map<int, int>)
    requires Midway(msgs, leases, limit, now, i, out, held) && (i == |msgs| || |out| >= limit)
    ensures out == HandOut(msgs, leases, limit, now) && held == Lease(leases, out, now)
  {
    assert HandOut(msgs[i..], leases, limit - |out|, now) == [] && out + [] == out;
  }

  /** Walk the pending messages, handing out and leasing what is not leased already. */
  method LeaseOut<T>(msgs: seq<Message<T>>, leases: map<int, int>, limit: int, now: int)
    returns (out: seq<Message<T>>, held: map<int, int>)
    requires Increasing(msgs)
    ensures out == HandOut(msgs, leases, limit, now)
    ensures held == Lease(leases, out, now)
  {
    out, held := [], leases;
    var i := 0;
    assert msgs[0..] == msgs;
    while i < |msgs| && |out| < limit
      invariant 0 <= i <= |msgs| && Midway(msgs, leases, limit, now, i, out, held)
    {
      var m := msgs[i];
      MidwayStep(msgs, leases, limit, now, i, out, held);
      if m.no in held && now < held[m.no] {
        // hidden by an earlier delivery
      } else {
        held := held[m.no := now + LEASE_TTL];
        out := out + [m];
      }
      i := i + 1;
    }
    MidwayEnds(msgs, leases, limit, now, i, out, held);
  }

  lemma RemoveStep<T>(msgs: seq<Message<T>>, gone: set<int>, no: int)
    requires Increasing(Without(msgs, gone))
    ensures var kept := Without(msgs, gone);
            var next := Without(msgs, gone + {no});
            && Without(kept, {no}) == next && Increasing(next)
            && |next| == |kept| - if no in Nos(kept) then 1 else 0
  {
    var kept := Without(msgs, gone);
    WithoutTwice(msgs, gone, {no});
    WithoutKeeps(kept, {no});
    WithoutOne(kept, no);
  }

  /** Delete the named files and leases, counting the files that were there. */
  method RemoveFiles<T>(msgs: seq<Message<T>>, leases: map<int, int>, nos: seq<int>)
    returns (kept: seq<Message<T>>, held: map<int, int>, n: int)
    requires Increasing(msgs)
    ensures kept == Without(msgs, Elements(nos)) && held == leases - Elements(nos)
    ensures n == |msgs| - |kept|
  {
    kept, held, n := msgs, leases, 0;
    var i := 0;
    ghost var gone: set<int> := {};
    WithoutNone(msgs);
    while i < |nos|
      invariant 0 <= i <= |nos| && gone == Elements(nos[..i])
      invariant kept == Without(msgs, gone) && Increasing(kept)
      invariant held == leases - gone
      invariant n == |msgs| - |kept|
    {
      RemoveStep(msgs, gone, nos[i]);
      gone := gone + {nos[i]};
      if nos[i] in Nos(kept) {
        n := n + 1;
      }
      kept := Without(kept, {nos[i]});
      held := held - {nos[i]};
      i := i + 1;
    }
    assert nos[..i] == nos;
  }

  // ---- the server, with all its mailboxes ----

  /** What is on disk for one mailbox; the tokens are not part of this model. */
  datatype Disk<T> = Disk(nextSeq: int, msgs: seq<Message<T>>)

  function BoxAt<T>(disks: map<string, Disk<T>>, leases: map<string, map<int, int>>, id: string): Box<T>
    requires id in disks
  {
    Box(disks[id].nextSeq, disks[id].msgs, if id in leases then leases[id] else map[])
  }

  ghost predicate AllValid<T>(disks: map<string, Disk<T>>, leases: map<string, map<int, int>>) {
    leases.Keys <= disks.Keys && forall id :: id in disks ==> Valid(BoxAt(disks, leases, id))
  }

  lemma MapSizes<D>(m: map<string, D>, id: string, d: D)
    ensures |m[id := d]| == if id in m then |m| else |m| + 1
    ensures |m - {id}| <= |m| && (id !in m ==> m - {id} == m)
  {
    assert m[id := d].Keys == m.Keys + {id} && (m - {id}).Keys == m.Keys - {id};
    assert |m[id := d]| == |m[id := d].Keys| && |m - {id}| == |(m - {id}).Keys| && |m| == |m.Keys|;
  }

  lemma DiskPut<T>(disks: map<string, Disk<T>>, leases: map<string, map<int, int>>, id: string, d: Disk<T>)
    requires AllValid(disks, leases) && Valid(BoxAt(disks[id := d], leases, id))
    ensures AllValid(disks[id := d], leases)
  {
    var next := disks[id := d];
    forall other | other in next && other != id ensures Valid(BoxAt(next, leases, other)) {
      assert BoxAt(next, leases, other) == BoxAt(disks, leases, other);
    }
  }

  lemma BothPut<T>(disks: map<string, Disk<T>>, leases: map<string, map<int, int>>, id: string, d: Disk<T>,
                   held: map<int, int>)
    requires AllValid(disks, leases) && id in disks && Valid(Box(d.nextSeq, d.msgs, held))
    ensures AllValid(disks[id := d], leases[id := held])
  {
    var next := disks[id := d];
    forall other | other in next && other != id ensures Valid(BoxAt(next, leases[id := held], other)) {
      assert BoxAt(next, leases[id := held], other) == BoxAt(disks, leases, other);
    }
  }

  lemma NothingToDrop<T>(disks: map<string, Disk<T>>, leases: map<string, map<int, int>>, id: string)
    requires leases.Keys <= disks.Keys && id !in disks
    ensures disks - {id} == disks && leases - {id} == leases
  {
  }

  lemma Dropped<T>(disks: map<string, Disk<T>>, leases: map<string, map<int, int>>, id: string)
    requires AllValid(disks, leases)
    ensures AllValid(disks - {id}, leases - {id})
  {
    var rest := disks - {id};
    forall other | other in rest ensures Valid(BoxAt(rest, leases - {id}, other)) {
      assert BoxAt(rest, leases - {id}, other) == BoxAt(disks, leases, other);
    }
  }

  class Store<T> {
    var disks: map<string, Disk<T>>
    var leases: map<string, map<int, int>>

    constructor ()
      ensures Healthy() && disks == map[] && leases == map[]
    {
      disks, leases := map[], map[];
    }

    ghost function BoxOf(id: string): Box<T>
      requires id in disks
      reads this
    {
      BoxAt(disks, leases, id)
    }

    /** Every mailbox is valid, there are not too many, and only mailboxes have leases. */
    ghost predicate Healthy()
      reads this
    {
      AllValid(disks, leases) && |disks| <= MAX_MAILBOXES
    }

    /** id stands for the fresh random name the server mints. */
    method Create(id: string) returns (r: Result<string, Error>)
      requires Healthy() && id !in disks
      modifies this
      ensures Healthy()
      ensures r == if |old(disks)| >= MAX_MAILBOXES then Err(TooMany) else Ok(id)
      ensures disks == if r.Ok? then old(disks)[id := Disk(1, [])] else old(disks)
      ensures leases == old(leases)
      ensures r.Ok? ==> BoxOf(id) == Box(1, [], map[])
    {
      if |disks| >= MAX_MAILBOXES {
        return Err(TooMany);
      }
      MapSizes(disks, id, Disk(1, []));
      DiskPut(disks, leases, id, Disk(1, []));
      disks := disks[id := Disk(1, [])];
      r := Ok(id);
    }

    /** Others are left alone by an operation on one mailbox. */
    twostate predicate OthersKept(id: string)
      reads this
    {
      && disks.Keys == old(disks).Keys
      && (forall other :: other in disks && other != id ==>
            disks[other] == old(disks)[other]
            && (other in leases <==> other in old(leases))
            && (other in leases ==> leases[other] == old(leases)[other]))
    }

    method Send(id: string, now: int, body: T) returns (r: Result<int, Error>)
      requires Healthy()
      modifies this
      ensures Healthy()
      ensures id !in old(disks) ==> r == Err(NotFound) && disks == old(disks) && leases == old(leases)
      ensures id in old(disks) ==>
                OthersKept(id) && (BoxOf(id), r) == SendBox(old(BoxOf(id)), now, body)
    {
      if id !in disks {
        return Err(NotFound);
      }
      var m := disks[id];
      if |m.msgs| >= MAX_PENDING {
        return Err(Full);
      }
      DoKeepsValid(BoxOf(id), Op.Send(now, body));
      var no := m.nextSeq;
      m := m.(msgs := m.msgs + [Message(no, now, body)]);
      m := m.(nextSeq := m.nextSeq + 1);
      Write(id, m);
      r := Ok(no);
    }

    method Receive(id: string, limit: int, now: int) returns (r: Result<seq<Message<T>>, Error>)
      requires Healthy()
      modifies this
      ensures Healthy()
      ensures id !in old(disks) ==> r == Err(NotFound) && disks == old(disks) && leases == old(leases)
      ensures id in old(disks) ==>
                && OthersKept(id) && r.Ok?
                && (BoxOf(id), r.value) == ReceiveBox(old(BoxOf(id)), limit, now)
    {
      if id !in disks {
        return Err(NotFound);
      }
      DoKeepsValid(BoxOf(id), Op.Receive(limit, now));
      var out, held := LeaseOut(disks[id].msgs, if id in leases then leases[id] else map[], limit, now);
      Keep(id, disks[id].msgs, held);
      r := Ok(out);
    }

    method Ack(id: string, nos: seq<int>) returns (r: Result<int, Error>)
      requires Healthy()
      modifies this
      ensures Healthy()
      ensures id !in old(disks) ==> r == Err(NotFound) && disks == old(disks) && leases == old(leases)
      ensures id in old(disks) ==>
                && OthersKept(id) && BoxOf(id) == AckBox(old(BoxOf(id)), Elements(nos))
                && r == Ok(Removed(old(BoxOf(id)), Elements(nos)))
    {
      if id !in disks {
        return Err(NotFound);
      }
      var msgs, held, n := RemoveFiles(disks[id].msgs, if id in leases then leases[id] else map[], nos);
      ghost var b := BoxOf(id);
      AckKeepsValid(b, Elements(nos));
      assert n == Removed(b, Elements(nos)) && Box(b.nextSeq, msgs, held) == AckBox(b, Elements(nos));
      Keep(id, msgs, held);
      r := Ok(n);
    }

    /** Put back what is on disk for one mailbox. */
    method Write(id: string, d: Disk<T>)
      requires Healthy() && id in disks && Valid(BoxOf(id).(nextSeq := d.nextSeq, msgs := d.msgs))
      modifies this`disks
      ensures Healthy() && OthersKept(id) && id in disks
      ensures BoxOf(id) == old(BoxOf(id)).(nextSeq := d.nextSeq, msgs := d.msgs)
    {
      MapSizes(disks, id, d);
      DiskPut(disks, leases, id, d);
      disks := disks[id := d];
    }

    /** Put back the message files and leases of one mailbox. */
    method Keep(id: string, msgs: seq<Message<T>>, held: map<int, int>)
      requires Healthy() && id in disks && Valid(Box(disks[id].nextSeq, msgs, held))
      modifies this
      ensures Healthy() && OthersKept(id)
      ensures id in disks && BoxOf(id) == Box(old(disks)[id].nextSeq, msgs, held) && disks[id].msgs == msgs
    {
      MapSizes(disks, id, disks[id].(msgs := msgs));
      BothPut(disks, leases, id, disks[id].(msgs := msgs), held);
      disks := disks[id := disks[id].(msgs := msgs)];
      leases := leases[id := held];
    }

    method Delete(id: string) returns (r: Result<(), Error>)
      requires Healthy()
      modifies this
      ensures Healthy()
      ensures r == if id in old(disks) then Ok(()) else Err(NotFound)
      ensures disks == old(disks) - {id}
      ensures leases == old(leases) - {id}
    {
      if id !in disks {
        NothingToDrop(disks, leases, id);
        return Err(NotFound);
      }
      MapSizes(disks, id, disks[id]);
      Dropped(disks, leases, id);
      leases := leases - {id};
      disks := disks - {id};
      r := Ok(());
    }

    /** A new process on the same volume. */
    method Restart()
      requires Healthy()
      modifies this`leases
      ensures Healthy() && leases == map[]
      ensures forall id :: id in disks ==> BoxOf(id) == RestartBox(old(BoxOf(id)))
    {
      leases := map[];
    }
  }

  function Elements(s: seq<int>): set<int> { set x | x in s }

  lemma {:induction false} LeaseSnoc<T>(leases: map<int, int>, out: seq<Message<T>>, m: Message<T>, now: int)
    ensures Lease(leases, out + [m], now) == Lease(leases, out, now)[m.no := now + LEASE_TTL]
    decreases |out|
  {
    if out == [] {
      assert [m][1..] == [] && out + [m] == [m];
    } else {
      assert (out + [m])[1..] == out[1..] + [m];
      LeaseSnoc(leases[out[0].no := now + LEASE_TTL], out[1..], m, now);
    }
  }

  lemma {:induction false} WithoutNone<T>(msgs: seq<Message<T>>)
    ensures Without(msgs, {}) == msgs
  {
    if msgs != [] { WithoutNone(msgs[1..]); }
  }

  lemma {:induction false} WithoutTwice<T>(msgs: seq<Message<T>>, s: set<int>, t: set<int>)
    ensures Without(Without(msgs, s), t) == Without(msgs, s + t)
  {
    if msgs != [] {
      WithoutTwice(msgs[1..], s, t);
      var rest := Without(msgs[1..], s);
      if msgs[0].no in s {
        assert Without(msgs, s) == rest;
      } else {
        assert Without(msgs, s)[1..] == rest;
      }
    }
  }

  lemma {:induction false} WithoutOne<T>(msgs: seq<Message<T>>, no: int)
    requires Increasing(msgs)
    ensures |Without(msgs, {no})| == |msgs| - (if no in Nos(msgs) then 1 else 0)
  {
    if msgs != [] {
      assert msgs == [msgs[0]] + msgs[1..];
      ListingCons(msgs[0], msgs[1..]);
      WithoutOne(msgs[1..], no);
    }
  }
}
