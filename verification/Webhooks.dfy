/** The durable webhook outbox: retry rounds, per-subscriber tracking and the dead-letter state. */
module Webhooks {
  import opened Prelude

  const MAX_ATTEMPTS := 8
  const MAX_BACKOFF := 3600   // seconds
  const LEASE := 60           // seconds

  type HookId = string

  /** A row of webhook_events. Times in seconds. */
  datatype Event = Event(
    attempts: nat, nextAttemptAt: int, deliveredAt: Option<int>, parkedAt: Option<int>,
    lastError: string, deliveredHooks: seq<HookId>)

  function Enqueued(now: int): Event { Event(0, now, None, None, "", []) }

  predicate Pending(ev: Event) { ev.deliveredAt.None? && ev.parkedAt.None? }

  predicate Due(ev: Event, now: int) { Pending(ev) && ev.nextAttemptAt <= now }

  function Pow2(n: nat): nat { if n == 0 then 1 else 2 * Pow2(n - 1) }

  function Backoff(attempts: nat): nat { if Pow2(attempts) <= MAX_BACKOFF then Pow2(attempts) else MAX_BACKOFF }

  // ---- one round ----

  /** What one delivery round meets: when the event was leased and when its delivery ends, the
      subscribers matching, which of them answer with an error, and whether the row update that closes
      the round is lost. */
  datatype Round = Round(leasedAt: int, now: int, lookup: Result<seq<HookId>, string>, errors: map<HookId, string>, lost: bool)

  predicate Distinct(hooks: seq<HookId>) { forall i, j :: 0 <= i < j < |hooks| ==> hooks[i] != hooks[j] }

  predicate ValidRound(r: Round) { r.leasedAt <= r.now && (r.lookup.Ok? ==> Distinct(r.lookup.value)) }

  /** The subscribers POSTed to: those not recorded yet. */
  function Posted(ev: Event, hooks: seq<HookId>): seq<HookId> {
    if hooks == [] then []
    else
      var rest := Posted(ev, hooks[..|hooks| - 1]);
      if hooks[|hooks| - 1] in ev.deliveredHooks then rest else rest + [hooks[|hooks| - 1]]
  }

  /** Those of them that acknowledged. */
  function Acked(posted: seq<HookId>, errors: map<HookId, string>): seq<HookId> {
    if posted == [] then []
    else
      var rest := Acked(posted[..|posted| - 1], errors);
      if posted[|posted| - 1] in errors then rest else rest + [posted[|posted| - 1]]
  }

  function LastError(posted: seq<HookId>, errors: map<HookId, string>): string {
    if posted == [] then ""
    else if posted[|posted| - 1] in errors then errors[posted[|posted| - 1]]
    else LastError(posted[..|posted| - 1], errors)
  }

  predicate AllOk(posted: seq<HookId>, errors: map<HookId, string>) {
    forall i :: 0 <= i < |posted| ==> posted[i] !in errors
  }

  function Reschedule(ev: Event, now: int, lastError: string, delivered: seq<HookId>): Event {
    ev.(attempts := ev.attempts + 1, nextAttemptAt := now + Backoff(ev.attempts),
        lastError := lastError, deliveredHooks := delivered)
  }

  /** The row when the round's update is written. */
  function Closed(ev: Event, r: Round): Event {
    if r.lookup.Err? then Reschedule(ev, r.now, "lookup: " + r.lookup.error, ev.deliveredHooks)
    else
      var posted := Posted(ev, r.lookup.value);
      var delivered := ev.deliveredHooks + Acked(posted, r.errors);
      if AllOk(posted, r.errors) then ev.(deliveredAt := Some(r.now), lastError := "")
      else if ev.attempts + 1 >= MAX_ATTEMPTS then
        ev.(parkedAt := Some(r.now), lastError := LastError(posted, r.errors), deliveredHooks := delivered)
      else Reschedule(ev, r.now, LastError(posted, r.errors), delivered)
  }

  /** The error on record is the one of the last POST that failed. */
  lemma {:induction false} LastErrorIs(posted: seq<HookId>, errors: map<HookId, string>) returns (i: nat)
    requires !AllOk(posted, errors)
    ensures i < |posted| && posted[i] in errors && LastError(posted, errors) == errors[posted[i]]
    ensures forall j :: i < j < |posted| ==> posted[j] !in errors
  {
    i := |posted| - 1;
    if posted[i] !in errors {
      var k :| 0 <= k < |posted| && posted[k] in errors;
      assert posted[..i][k] in errors;
      i := LastErrorIs(posted[..i], errors);
    }
  }

  /** A pending event is leased and delivered; a finished one is never leased again. */
  function AfterRound(ev: Event, r: Round): Event {
    if !Pending(ev) then ev
    else if r.lost then ev.(nextAttemptAt := r.leasedAt + LEASE)
    else Closed(ev.(nextAttemptAt := r.leasedAt + LEASE), r)
  }

  /** The acknowledged POSTs of a round. */
  function AcksOf(ev: Event, r: Round): seq<HookId> {
    if Pending(ev) && r.lookup.Ok? then Acked(Posted(ev, r.lookup.value), r.errors) else []
  }

  lemma {:induction false} PostedFacts(ev: Event, hooks: seq<HookId>)
    requires Distinct(hooks)
    ensures Distinct(Posted(ev, hooks))
    ensures forall h :: h in Posted(ev, hooks) <==> h in hooks && h !in ev.deliveredHooks
  {
    if hooks != [] {
      var n := |hooks| - 1;
      PostedFacts(ev, hooks[..n]);
      assert hooks == hooks[..n] + [hooks[n]];
      assert hooks[n] !in hooks[..n];
    }
  }

  lemma {:induction false} AckedFacts(posted: seq<HookId>, errors: map<HookId, string>)
    requires Distinct(posted)
    ensures Distinct(Acked(posted, errors))
    ensures forall h :: h in Acked(posted, errors) <==> h in posted && h !in errors
  {
    if posted != [] {
      var n := |posted| - 1;
      AckedFacts(posted[..n], errors);
      assert posted == posted[..n] + [posted[n]];
      assert posted[n] !in posted[..n];
    }
  }

  // ---- runs of one event ----

  function Run(ev: Event, rounds: seq<Round>): Event {
    if rounds == [] then ev else AfterRound(Run(ev, rounds[..|rounds| - 1]), rounds[|rounds| - 1])
  }

  function Times(h: HookId, s: seq<HookId>): nat { multiset(s)[h] }

  /** How often a subscriber acknowledged the event. */
  function AckCount(ev: Event, rounds: seq<Round>, h: HookId): nat {
    if rounds == [] then 0
    else
      var n := |rounds| - 1;
      AckCount(ev, rounds[..n], h) + Times(h, AcksOf(Run(ev, rounds[..n]), rounds[n]))
  }

  /** Rounds whose closing update was lost while the event was pending. */
  function LostRounds(ev: Event, rounds: seq<Round>): nat {
    if rounds == [] then 0
    else
      var n := |rounds| - 1;
      LostRounds(ev, rounds[..n]) + if Pending(Run(ev, rounds[..n])) && rounds[n].lost then 1 else 0
  }

  lemma {:induction false} DistinctOnce(s: seq<HookId>, h: HookId)
    requires Distinct(s)
    ensures Times(h, s) == if h in s then 1 else 0
  {
    if s != [] {
      var n := |s| - 1;
      assert s == s[..n] + [s[n]];
      DistinctOnce(s[..n], h);
      assert s[n] !in s[..n];
    }
  }

  predicate Recorded(ev: Event, h: HookId) { h in ev.deliveredHooks || !Pending(ev) }

  lemma RoundAcks(ev: Event, r: Round, h: HookId)
    requires ValidRound(r)
    ensures Times(h, AcksOf(ev, r)) <= 1
    ensures Times(h, AcksOf(ev, r)) == 1 ==> Pending(ev) && h !in ev.deliveredHooks
    ensures Times(h, AcksOf(ev, r)) == 1 && !r.lost ==> Recorded(AfterRound(ev, r), h)
    ensures Recorded(ev, h) ==> Recorded(AfterRound(ev, r), h)
  {
    if Pending(ev) && r.lookup.Ok? {
      PostedFacts(ev, r.lookup.value);
      AckedFacts(Posted(ev, r.lookup.value), r.errors);
      DistinctOnce(AcksOf(ev, r), h);
      SamePosted(ev, ev.(nextAttemptAt := r.leasedAt + LEASE), r.lookup.value);
    }
  }

  lemma {:induction false} SamePosted(ev: Event, ev': Event, hooks: seq<HookId>)
    requires ev.deliveredHooks == ev'.deliveredHooks
    ensures Posted(ev, hooks) == Posted(ev', hooks)
  {
    if hooks != [] { SamePosted(ev, ev', hooks[..|hooks| - 1]); }
  }

  lemma {:induction false} AcksAccounted(ev: Event, rounds: seq<Round>, h: HookId)
    requires forall r :: r in rounds ==> ValidRound(r)
    requires !Recorded(ev, h)
    ensures AckCount(ev, rounds, h) <= LostRounds(ev, rounds) + if Recorded(Run(ev, rounds), h) then 1 else 0
  {
    if rounds != [] {
      var n := |rounds| - 1;
      assert rounds[n] in rounds;
      AcksAccounted(ev, rounds[..n], h);
      RoundAcks(Run(ev, rounds[..n]), rounds[n], h);
    }
  }

  /** A subscriber acknowledges an event at most once more than there were lost row updates: at
      most once, when none is lost. */
  lemma AtMostOncePerLoss(now: int, rounds: seq<Round>, h: HookId)
    requires forall r :: r in rounds ==> ValidRound(r)
    ensures AckCount(Enqueued(now), rounds, h) <= 1 + LostRounds(Enqueued(now), rounds)
  {
    AcksAccounted(Enqueued(now), rounds, h);
  }

  /** Rounds happen when the event is due. */
  ghost predicate Timely(ev: Event, rounds: seq<Round>) {
    forall i :: 0 <= i < |rounds| ==> Pending(Run(ev, rounds[..i])) ==> Run(ev, rounds[..i]).nextAttemptAt <= rounds[i].leasedAt
  }

  /** The event is run these rounds, with these closing updates lost. */
  ghost predicate RunsWith(now: int, rounds: seq<Round>, lost: seq<bool>) {
    && Timely(Enqueued(now), rounds) && (forall r :: r in rounds ==> ValidRound(r))
    && |rounds| == |lost| && forall i :: 0 <= i < |lost| ==> rounds[i].lost == lost[i]
  }

  function Losses(lost: seq<bool>): nat {
    if lost == [] then 0 else Losses(lost[..|lost| - 1]) + Flag(lost[|lost| - 1])
  }

  lemma {:induction false} LossesCover(ev: Event, rounds: seq<Round>, lost: seq<bool>)
    requires |rounds| == |lost| && forall i :: 0 <= i < |lost| ==> rounds[i].lost == lost[i]
    ensures LostRounds(ev, rounds) <= Losses(lost)
  {
    if rounds != [] { LossesCover(ev, rounds[..|rounds| - 1], lost[..|lost| - 1]); }
  }

  /** The most acknowledgements a pattern of lost updates allows one subscriber: one, and one more
      for each loss that is not the last round. */
  function MostAcks(lost: seq<bool>): nat {
    if lost == [] then 0 else 1 + Losses(lost[..|lost| - 1])
  }

  lemma AcksAtMost(now: int, rounds: seq<Round>, lost: seq<bool>, h: HookId)
    requires RunsWith(now, rounds, lost)
    ensures AckCount(Enqueued(now), rounds, h) <= MostAcks(lost)
  {
    if rounds != [] {
      var n := |rounds| - 1;
      assert rounds[n] in rounds;
      LossesCover(Enqueued(now), rounds[..n], lost[..n]);
      AcksAccounted(Enqueued(now), rounds[..n], h);
      RoundAcks(Run(Enqueued(now), rounds[..n]), rounds[n], h);
    }
  }

  /** One more round, in every account kept of a run. */
  lemma OneRoundMore(ev: Event, rounds: seq<Round>, r: Round, h: HookId)
    ensures Run(ev, rounds + [r]) == AfterRound(Run(ev, rounds), r)
    ensures AckCount(ev, rounds + [r], h) == AckCount(ev, rounds, h) + Times(h, AcksOf(Run(ev, rounds), r))
  {
    assert (rounds + [r])[..|rounds|] == rounds;
  }

  lemma TimelySnoc(ev: Event, rounds: seq<Round>, r: Round)
    requires Timely(ev, rounds)
    requires Pending(Run(ev, rounds)) ==> Run(ev, rounds).nextAttemptAt <= r.leasedAt
    ensures Timely(ev, rounds + [r])
  {
    var all := rounds + [r];
    forall i | 0 <= i < |all|
      ensures Pending(Run(ev, all[..i])) ==> Run(ev, all[..i]).nextAttemptAt <= all[i].leasedAt
    {
      assert all[..i] == rounds[..i];
      if i == |rounds| { assert rounds[..i] == rounds; }
    }
  }

  lemma RunsWithMore(now: int, rounds: seq<Round>, lost: seq<bool>, r: Round)
    requires lost != [] && RunsWith(now, rounds, lost[..|lost| - 1])
    requires ValidRound(r) && r.lost == lost[|lost| - 1]
    requires Pending(Run(Enqueued(now), rounds)) ==> Run(Enqueued(now), rounds).nextAttemptAt <= r.leasedAt
    ensures RunsWith(now, rounds + [r], lost)
  {
    TimelySnoc(Enqueued(now), rounds, r);
  }

  /** The n-th of the unluckiest rounds, an hour apart: h is the only subscriber and acknowledges,
      or the lookup fails. */
  function Meets(now: int, n: nat, h: HookId, hit: bool, lost: bool): Round {
    Round(now + MAX_BACKOFF * n, now + MAX_BACKOFF * n, if hit then Ok([h]) else Err(""), map[], lost)
  }

  lemma MeetsOne(ev: Event, now: int, n: nat, h: HookId, hit: bool, lost: bool)
    requires Pending(ev) && h !in ev.deliveredHooks
    ensures Times(h, AcksOf(ev, Meets(now, n, h, hit, lost))) == Flag(hit)
    ensures var ev' := AfterRound(ev, Meets(now, n, h, hit, lost));
            !hit || lost ==>
              Pending(ev') && h !in ev'.deliveredHooks && ev'.nextAttemptAt <= now + MAX_BACKOFF * (n + 1)
  {
    assert [h][..0] == [];
    assert Posted(ev, [h]) == [h] && Acked([h], map[]) == [h];
  }

  /** Nothing recorded yet, and an acknowledgement for each loss. */
  ghost predicate AckedInVain(now: int, rounds: seq<Round>, lost: seq<bool>, h: HookId) {
    var ev := Run(Enqueued(now), rounds);
    && RunsWith(now, rounds, lost) && AckCount(Enqueued(now), rounds, h) == Losses(lost)
    && Pending(ev) && h !in ev.deliveredHooks && ev.nextAttemptAt <= now + MAX_BACKOFF * |lost|
  }

  lemma AckInVain(now: int, rounds: seq<Round>, lost: seq<bool>, h: HookId)
    requires lost != [] && AckedInVain(now, rounds, lost[..|lost| - 1], h)
    ensures var n := |lost| - 1; AckedInVain(now, rounds + [Meets(now, n, h, lost[n], lost[n])], lost, h)
  {
    var n := |lost| - 1;
    var r := Meets(now, n, h, lost[n], lost[n]);
    OneRoundMore(Enqueued(now), rounds, r, h);
    MeetsOne(Run(Enqueued(now), rounds), now, n, h, lost[n], lost[n]);
    RunsWithMore(now, rounds, lost, r);
  }

  /** h acknowledges in every round whose update is lost, and the lookup fails in the others. */
  lemma {:induction false} Unlucky(now: int, lost: seq<bool>, h: HookId) returns (rounds: seq<Round>)
    ensures AckedInVain(now, rounds, lost, h)
    decreases |lost|
  {
    rounds := [];
    if lost != [] {
      var n := |lost| - 1;
      var before := Unlucky(now, lost[..n], h);
      AckInVain(now, before, lost, h);
      rounds := before + [Meets(now, n, h, lost[n], lost[n])];
    }
  }

  lemma AckAtLast(now: int, rounds: seq<Round>, lost: seq<bool>, h: HookId)
    requires lost != [] && AckedInVain(now, rounds, lost[..|lost| - 1], h)
    ensures var n := |lost| - 1;
            var all := rounds + [Meets(now, n, h, true, lost[n])];
            RunsWith(now, all, lost) && AckCount(Enqueued(now), all, h) == MostAcks(lost)
  {
    var n := |lost| - 1;
    var r := Meets(now, n, h, true, lost[n]);
    OneRoundMore(Enqueued(now), rounds, r, h);
    MeetsOne(Run(Enqueued(now), rounds), now, n, h, true, lost[n]);
    RunsWithMore(now, rounds, lost, r);
  }

  /** That many do happen, in a run whose every round is held when the event is due. */
  lemma MostAcksHappen(now: int, lost: seq<bool>, h: HookId) returns (rounds: seq<Round>)
    ensures RunsWith(now, rounds, lost) && AckCount(Enqueued(now), rounds, h) == MostAcks(lost)
  {
    rounds := [];
    if lost != [] {
      var n := |lost| - 1;
      var before := Unlucky(now, lost[..n], h);
      AckAtLast(now, before, lost, h);
      rounds := before + [Meets(now, n, h, true, lost[n])];
    }
  }

  lemma {:induction false} NoLosses(lost: seq<bool>)
    ensures Losses(lost) == 0 <==> forall i :: 0 <= i < |lost| ==> !lost[i]
  {
    if lost != [] { NoLosses(lost[..|lost| - 1]); }
  }

  lemma MostAcksDecide(now: int, lost: seq<bool>, bound: nat)
    ensures (forall rounds, h :: RunsWith(now, rounds, lost) ==> AckCount(Enqueued(now), rounds, h) <= bound)
            <==> MostAcks(lost) <= bound
  {
    if MostAcks(lost) <= bound {
      forall rounds, h | RunsWith(now, rounds, lost) ensures AckCount(Enqueued(now), rounds, h) <= bound {
        AcksAtMost(now, rounds, lost, h);
      }
    } else {
      var worst := MostAcksHappen(now, lost, "");
    }
  }

  /** At most one acknowledged POST per subscriber, whatever the rounds bring, is guaranteed by
      exactly those patterns of lost updates in which at most the last one is lost. */
  lemma AtMostOnceIff(now: int, lost: seq<bool>)
    ensures (forall rounds, h :: RunsWith(now, rounds, lost) ==> AckCount(Enqueued(now), rounds, h) <= 1)
            <==> forall i :: 0 <= i < |lost| - 1 ==> !lost[i]
  {
    MostAcksDecide(now, lost, 1);
    if lost != [] { NoLosses(lost[..|lost| - 1]); }
  }

  /** The tracking list only grows, holds no subscriber twice, and no event is both delivered and
      parked. */
  predicate Consistent(ev: Event) {
    Distinct(ev.deliveredHooks) && !(ev.deliveredAt.Some? && ev.parkedAt.Some?)
  }

  lemma RoundKeepsConsistent(ev: Event, r: Round)
    requires Consistent(ev) && ValidRound(r)
    ensures Consistent(AfterRound(ev, r)) && ev.deliveredHooks <= AfterRound(ev, r).deliveredHooks
    ensures !Pending(ev) ==> AfterRound(ev, r) == ev
  {
    if r.lookup.Ok? {
      var leased := ev.(nextAttemptAt := r.leasedAt + LEASE);
      PostedFacts(leased, r.lookup.value);
      AckedFacts(Posted(leased, r.lookup.value), r.errors);
      var acked := Acked(Posted(leased, r.lookup.value), r.errors);
      var all := ev.deliveredHooks + acked;
      forall i, j | 0 <= i < j < |all| ensures all[i] != all[j] {
        if i < |ev.deliveredHooks| <= j { assert all[j] in acked && all[i] in ev.deliveredHooks; }
      }
    }
  }

  /** Along every run: consistent at every point, tracking monotone, and final once finished. */
  lemma {:induction false} RunKeepsConsistent(now: int, rounds: seq<Round>, m: nat, n: nat)
    requires forall r :: r in rounds ==> ValidRound(r)
    requires m <= n <= |rounds|
    ensures var a, b := Run(Enqueued(now), rounds[..m]), Run(Enqueued(now), rounds[..n]);
            && Consistent(a) && Consistent(b) && a.deliveredHooks <= b.deliveredHooks
            && (!Pending(a) ==> b == a)
    decreases n
  {
    if n > 0 {
      assert rounds[..n][..n - 1] == rounds[..n - 1] && rounds[..n][n - 1] in rounds;
      if m < n {
        RunKeepsConsistent(now, rounds, m, n - 1);
      } else {
        RunKeepsConsistent(now, rounds, n - 1, n - 1);
      }
      RoundKeepsConsistent(Run(Enqueued(now), rounds[..n - 1]), rounds[n - 1]);
    }
  }

  /** An event is marked delivered in a round exactly when the lookup worked and every subscriber
      matching then has acknowledged, in this round or an earlier recorded one. */
  lemma DeliveredMeansAllAcked(ev: Event, r: Round)
    requires Pending(ev) && ValidRound(r) && !r.lost
    ensures AfterRound(ev, r).deliveredAt.Some? <==>
            r.lookup.Ok? && forall h :: h in r.lookup.value ==> h in ev.deliveredHooks || h in AcksOf(ev, r)
  {
    if r.lookup.Ok? {
      var leased := ev.(nextAttemptAt := r.leasedAt + LEASE);
      SamePosted(ev, leased, r.lookup.value);
      PostedFacts(ev, r.lookup.value);
      var posted := Posted(ev, r.lookup.value);
      AckedFacts(posted, r.errors);
      assert AllOk(posted, r.errors) <==> forall h :: h in posted ==> h !in r.errors;
    }
  }

  // ---- it ends ----

  /** A round, not lost, in which some POST fails. */
  predicate Fails(ev: Event, r: Round) {
    Pending(ev) && !r.lost && r.lookup.Ok? && !AllOk(Posted(ev, r.lookup.value), r.errors)
  }

  function Failures(ev: Event, rounds: seq<Round>): nat {
    if rounds == [] then 0
    else
      var n := |rounds| - 1;
      Failures(ev, rounds[..n]) + if Fails(Run(ev, rounds[..n]), rounds[n]) then 1 else 0
  }

  lemma {:induction false} FailuresCounted(now: int, rounds: seq<Round>)
    ensures var ev := Run(Enqueued(now), rounds);
            var f := Failures(Enqueued(now), rounds);
            && (Pending(ev) || ev.deliveredAt.Some? ==> f <= ev.attempts && f < MAX_ATTEMPTS)
            && f <= MAX_ATTEMPTS
  {
    if rounds != [] {
      var n := |rounds| - 1;
      FailuresCounted(now, rounds[..n]);
      var ev := Run(Enqueued(now), rounds[..n]);
      if rounds[n].lookup.Ok? {
        SamePosted(ev, ev.(nextAttemptAt := rounds[n].leasedAt + LEASE), rounds[n].lookup.value);
      }
    }
  }

  /** No event sees more than eight recorded rounds with a failing POST, and after the eighth it is
      parked. */
  lemma EightFailuresPark(now: int, rounds: seq<Round>)
    ensures Failures(Enqueued(now), rounds) <= MAX_ATTEMPTS
    ensures Failures(Enqueued(now), rounds) == MAX_ATTEMPTS ==> Run(Enqueued(now), rounds).parkedAt.Some?
  {
    FailuresCounted(now, rounds);
  }

  /** Every round in which some POST fails, recorded or not. */
  function FailingRounds(ev: Event, rounds: seq<Round>): nat {
    if rounds == [] then 0
    else
      var n := |rounds| - 1;
      FailingRounds(ev, rounds[..n]) + if Fails(Run(ev, rounds[..n]), rounds[n].(lost := false)) then 1 else 0
  }

  lemma {:induction false} FailingSplit(ev: Event, rounds: seq<Round>)
    ensures FailingRounds(ev, rounds) <= Failures(ev, rounds) + LostRounds(ev, rounds)
  {
    if rounds != [] { FailingSplit(ev, rounds[..|rounds| - 1]); }
  }

  /** At most eight rounds with a failing POST, plus one for each lost update. */
  lemma EightFailuresAndLosses(now: int, rounds: seq<Round>)
    ensures FailingRounds(Enqueued(now), rounds) <= MAX_ATTEMPTS + LostRounds(Enqueued(now), rounds)
  {
    FailingSplit(Enqueued(now), rounds);
    EightFailuresPark(now, rounds);
  }

  /** The n-th of rounds a lease apart in which the one subscriber fails and the update is lost. */
  function LostRound(now: int, h: HookId, error: string, n: nat): Round {
    Round(now + LEASE * n, now + LEASE * n, Ok([h]), map[h := error], true)
  }

  lemma LostFailure(ev: Event, r: Round, h: HookId)
    requires Pending(ev) && ev.deliveredHooks == [] && r.lookup == Ok([h]) && h in r.errors
    ensures Fails(ev, r.(lost := false))
  {
    assert [h][..0] == [] && Posted(ev, [h]) == [h];
    assert !AllOk([h], r.errors) by { assert [h][0] in r.errors; }
  }

  lemma FailingSnoc(ev: Event, rounds: seq<Round>, r: Round)
    ensures FailingRounds(ev, rounds + [r])
            == FailingRounds(ev, rounds) + Flag(Fails(Run(ev, rounds), r.(lost := false)))
  {
    assert (rounds + [r])[..|rounds|] == rounds;
  }

  /** n failing rounds, each valid and held when it was due, and nothing to show for them. */
  ghost predicate FailedInVain(now: int, rounds: seq<Round>, n: nat) {
    var ev := Run(Enqueued(now), rounds);
    && Timely(Enqueued(now), rounds) && (forall r :: r in rounds ==> ValidRound(r))
    && Pending(ev) && ev.attempts == 0 && ev.deliveredHooks == [] && ev.nextAttemptAt <= now + LEASE * n
    && FailingRounds(Enqueued(now), rounds) == n
  }

  lemma FailInVain(now: int, rounds: seq<Round>, n: nat, h: HookId, error: string)
    requires FailedInVain(now, rounds, n)
    ensures FailedInVain(now, rounds + [LostRound(now, h, error, n)], n + 1)
  {
    var r := LostRound(now, h, error, n);
    OneRoundMore(Enqueued(now), rounds, r, h);
    FailingSnoc(Enqueued(now), rounds, r);
    TimelySnoc(Enqueued(now), rounds, r);
    LostFailure(Run(Enqueued(now), rounds), r, h);
  }

  /** The losses really do come on top: any number of failing rounds with the event still pending
      and no attempt counted. */
  lemma {:induction false} LostFailuresGoOn(now: int, h: HookId, error: string, n: nat) returns (rounds: seq<Round>)
    ensures FailedInVain(now, rounds, n)
    decreases n
  {
    rounds := [];
    if n > 0 {
      var before := LostFailuresGoOn(now, h, error, n - 1);
      FailInVain(now, before, n - 1, h, error);
      rounds := before + [LostRound(now, h, error, n - 1)];
    }
  }

  // ---- when an event is sure to be finished ----

  /** What is decided about a round apart from the subscribers: whether its update is lost and
      whether its lookup fails. A failed lookup is recorded as an attempt, but never parks. */
  datatype Shape = Shape(lost: bool, lookupFails: bool)

  ghost predicate RunsThrough(now: int, rounds: seq<Round>, shapes: seq<Shape>) {
    && Timely(Enqueued(now), rounds) && (forall r :: r in rounds ==> ValidRound(r)) && |rounds| == |shapes|
    && forall i :: 0 <= i < |shapes| ==>
         rounds[i].lost == shapes[i].lost && (rounds[i].lookup.Err? <==> shapes[i].lookupFails)
  }

  function Unlost(shapes: seq<Shape>): nat {
    if shapes == [] then 0 else Unlost(shapes[..|shapes| - 1]) + Flag(!shapes[|shapes| - 1].lost)
  }

  /** The i-th round posts and is recorded, with seven attempts on record before it. */
  predicate Decides(shapes: seq<Shape>, i: nat)
    requires i < |shapes|
  {
    !shapes[i].lost && !shapes[i].lookupFails && Unlost(shapes[..i]) >= MAX_ATTEMPTS - 1
  }

  lemma DecidesInit(shapes: seq<Shape>, i: nat)
    requires i < |shapes| - 1
    ensures Decides(shapes[..|shapes| - 1], i) <==> Decides(shapes, i)
  {
    assert shapes[..|shapes| - 1][..i] == shapes[..i];
  }

  lemma RoundDecides(ev: Event, r: Round)
    requires Pending(ev) && ev.attempts >= MAX_ATTEMPTS - 1 && !r.lost && r.lookup.Ok?
    ensures !Pending(AfterRound(ev, r))
  {
  }

  lemma {:induction false} AttemptsAreUnlost(now: int, rounds: seq<Round>, shapes: seq<Shape>)
    requires RunsThrough(now, rounds, shapes) && Pending(Run(Enqueued(now), rounds))
    ensures Run(Enqueued(now), rounds).attempts == Unlost(shapes)
    decreases |rounds|
  {
    if rounds != [] {
      RunsThroughInit(now, rounds, shapes);
      AttemptsAreUnlost(now, rounds[..|rounds| - 1], shapes[..|shapes| - 1]);
    }
  }

  lemma {:induction false} PendingMeansUndecided(now: int, rounds: seq<Round>, shapes: seq<Shape>, i: nat)
    requires RunsThrough(now, rounds, shapes) && Pending(Run(Enqueued(now), rounds)) && i < |shapes|
    ensures !Decides(shapes, i)
    decreases |rounds|
  {
    var n := |rounds| - 1;
    if i < n {
      RunsThroughInit(now, rounds, shapes);
      DecidesInit(shapes, i);
      PendingMeansUndecided(now, rounds[..n], shapes[..n], i);
    } else {
      LastUndecided(now, rounds, shapes);
    }
  }

  lemma LastUndecided(now: int, rounds: seq<Round>, shapes: seq<Shape>)
    requires RunsThrough(now, rounds, shapes) && Pending(Run(Enqueued(now), rounds)) && shapes != []
    ensures !Decides(shapes, |shapes| - 1)
  {
    var n := |rounds| - 1;
    RunsThroughInit(now, rounds, shapes);
    AttemptsAreUnlost(now, rounds[..n], shapes[..n]);
    var ev := Run(Enqueued(now), rounds[..n]);
    if !rounds[n].lost && rounds[n].lookup.Ok? && ev.attempts >= MAX_ATTEMPTS - 1 { RoundDecides(ev, rounds[n]); }
  }

  lemma RunsThroughInit(now: int, rounds: seq<Round>, shapes: seq<Shape>)
    requires RunsThrough(now, rounds, shapes) && rounds != []
    ensures RunsThrough(now, rounds[..|rounds| - 1], shapes[..|shapes| - 1])
  {
    var init := rounds[..|rounds| - 1];
    assert forall i :: 0 <= i < |init| ==> init[..i] == rounds[..i];
  }

  /** The n-th round, an hour apart from the others, in which the one subscriber always fails. */
  function Stubborn(now: int, n: nat, h: HookId, shape: Shape): Round {
    Round(now + MAX_BACKOFF * n, now + MAX_BACKOFF * n, if shape.lookupFails then Err("") else Ok([h]), map[h := ""],
          shape.lost)
  }

  ghost predicate StillPending(now: int, rounds: seq<Round>, shapes: seq<Shape>) {
    var ev := Run(Enqueued(now), rounds);
    && RunsThrough(now, rounds, shapes) && Pending(ev) && ev.deliveredHooks == []
    && ev.attempts == Unlost(shapes) && ev.nextAttemptAt <= now + MAX_BACKOFF * |shapes|
  }

  lemma StubbornRound(ev: Event, now: int, n: nat, h: HookId, shape: Shape)
    requires Pending(ev) && ev.deliveredHooks == []
    requires shape.lost || shape.lookupFails || ev.attempts < MAX_ATTEMPTS - 1
    ensures var ev' := AfterRound(ev, Stubborn(now, n, h, shape));
            && Pending(ev') && ev'.deliveredHooks == [] && ev'.attempts == ev.attempts + Flag(!shape.lost)
            && ev'.nextAttemptAt <= now + MAX_BACKOFF * (n + 1)
  {
    assert [h][..0] == [] && Posted(ev, [h]) == [h];
    var r := Stubborn(now, n, h, shape);
    assert Posted(ev.(nextAttemptAt := r.leasedAt + LEASE), [h]) == [h];
    assert !AllOk([h], r.errors) by { assert [h][0] in r.errors; }
    assert Acked([h], r.errors) == [] by { assert Acked([], r.errors) == []; }
  }

  lemma RunsThroughMore(now: int, rounds: seq<Round>, shapes: seq<Shape>, r: Round)
    requires shapes != [] && RunsThrough(now, rounds, shapes[..|shapes| - 1])
    requires ValidRound(r) && Shape(r.lost, r.lookup.Err?) == shapes[|shapes| - 1]
    requires Pending(Run(Enqueued(now), rounds)) ==> Run(Enqueued(now), rounds).nextAttemptAt <= r.leasedAt
    ensures RunsThrough(now, rounds + [r], shapes)
  {
    TimelySnoc(Enqueued(now), rounds, r);
  }

  lemma StillPendingMore(now: int, rounds: seq<Round>, shapes: seq<Shape>, h: HookId)
    requires shapes != [] && StillPending(now, rounds, shapes[..|shapes| - 1]) && !Decides(shapes, |shapes| - 1)
    ensures StillPending(now, rounds + [Stubborn(now, |shapes| - 1, h, shapes[|shapes| - 1])], shapes)
  {
    var n := |shapes| - 1;
    var r := Stubborn(now, n, h, shapes[n]);
    StubbornRound(Run(Enqueued(now), rounds), now, n, h, shapes[n]);
    OneRoundMore(Enqueued(now), rounds, r, h);
    RunsThroughMore(now, rounds, shapes, r);
  }

  lemma {:induction false} StaysPending(now: int, shapes: seq<Shape>, h: HookId) returns (rounds: seq<Round>)
    requires forall i :: 0 <= i < |shapes| ==> !Decides(shapes, i)
    ensures StillPending(now, rounds, shapes)
    decreases |shapes|
  {
    rounds := [];
    if shapes != [] {
      var n := |shapes| - 1;
      forall i | 0 <= i < n ensures !Decides(shapes[..n], i) {
        DecidesInit(shapes, i);
      }
      var before := StaysPending(now, shapes[..n], h);
      StillPendingMore(now, before, shapes, h);
      rounds := before + [Stubborn(now, n, h, shapes[n])];
    }
  }

  /** Whatever the subscribers do, the event is delivered or parked after these rounds if and only if
      one of them posts and is recorded with at least seven attempts on record before it. Failed
      lookups fill the record, but however many there are they never finish it. */
  lemma FinishedIff(now: int, shapes: seq<Shape>)
    ensures (forall rounds :: RunsThrough(now, rounds, shapes) ==> !Pending(Run(Enqueued(now), rounds)))
            <==> exists i :: 0 <= i < |shapes| && Decides(shapes, i)
  {
    if i :| 0 <= i < |shapes| && Decides(shapes, i) {
      forall rounds | RunsThrough(now, rounds, shapes) ensures !Pending(Run(Enqueued(now), rounds)) {
        if Pending(Run(Enqueued(now), rounds)) { PendingMeansUndecided(now, rounds, shapes, i); }
      }
    } else {
      var rounds := StaysPending(now, shapes, "");
    }
  }

  /** How long a round puts the event off, as the row has it. */
  function Wait(ev: Event, r: Round): int {
    if Pending(ev) && Pending(AfterRound(ev, r)) && !r.lost then AfterRound(ev, r).nextAttemptAt - r.now else 0
  }

  function Waits(ev: Event, rounds: seq<Round>): int {
    if rounds == [] then 0
    else
      var n := |rounds| - 1;
      Waits(ev, rounds[..n]) + Wait(Run(ev, rounds[..n]), rounds[n])
  }

  lemma PowersOfTwo(n: nat)
    ensures Pow2(0) == 1 && Pow2(n + 1) == 2 * Pow2(n) && Pow2(7) == 128 && Pow2(11) == 2048 && Pow2(12) == 4096
  {
    assert Pow2(3) == 8 && Pow2(6) == 64 && Pow2(9) == 512;
  }

  /** A recorded round that leaves the event pending puts it off by two to the power of the attempts
      before it, in seconds from its end; by an hour from the twelfth attempt on. */
  lemma NextAttemptAt(ev: Event, r: Round)
    requires Pending(ev) && !r.lost && Pending(AfterRound(ev, r))
    ensures AfterRound(ev, r).attempts == ev.attempts + 1
    ensures AfterRound(ev, r).nextAttemptAt == r.now + if ev.attempts < 12 then Pow2(ev.attempts) else 3600
  {
    PowersOfTwo(ev.attempts);
    if ev.attempts < 12 { PowMonotone(ev.attempts, 11); } else { PowMonotone(12, ev.attempts); }
  }

  lemma RunInit(ev: Event, rounds: seq<Round>, n: nat)
    requires n < |rounds|
    ensures Run(ev, rounds[..n + 1]) == AfterRound(Run(ev, rounds[..n]), rounds[n])
  {
    assert rounds[..n + 1][..n] == rounds[..n];
  }

  lemma {:induction false} EveryRoundCounts(now: int, rounds: seq<Round>, n: nat)
    requires n <= |rounds| && Pending(Run(Enqueued(now), rounds[..n]))
    requires forall i :: 0 <= i < |rounds| ==> !rounds[i].lost
    ensures Run(Enqueued(now), rounds[..n]).attempts == n
    decreases n
  {
    if n > 0 {
      RunInit(Enqueued(now), rounds, n - 1);
      EveryRoundCounts(now, rounds, n - 1);
      NextAttemptAt(Run(Enqueued(now), rounds[..n - 1]), rounds[n - 1]);
    }
  }

  /** The worker keeps to it: as long as no update is lost, round n, if there is one, starts at least
      2^n - 1 seconds after the first one ended. The eighth is at least 127 seconds later. */
  lemma {:induction false} BackoffIsKept(now: int, rounds: seq<Round>, n: nat)
    requires Timely(Enqueued(now), rounds) && forall r :: r in rounds ==> ValidRound(r) && !r.lost
    requires 0 < n < |rounds| && n <= 12 && Pending(Run(Enqueued(now), rounds[..n]))
    ensures rounds[n].leasedAt >= rounds[0].now + Pow2(n) - 1
    ensures n == 7 ==> rounds[n].leasedAt >= rounds[0].now + 127
    decreases n
  {
    var m := n - 1;
    assert forall i :: 0 <= i < |rounds| ==> rounds[i] in rounds;
    RunInit(Enqueued(now), rounds, m);
    EveryRoundCounts(now, rounds, m);
    NextAttemptAt(Run(Enqueued(now), rounds[..m]), rounds[m]);
    if m > 0 { BackoffIsKept(now, rounds, m); }
    PowersOfTwo(n);
  }

  lemma PowersBelow128(n: nat)
    requires n < MAX_ATTEMPTS
    ensures Pow2(n) <= 128 && (n < 7 ==> Pow2(n) <= 64)
  {
    assert Pow2(7) == 128 by {
      assert Pow2(3) == 8;
      assert Pow2(5) == 32;
    }
    if n < 7 { PowMonotone(n, 6); }
    PowMonotone(n, 7);
  }

  lemma {:induction false} PowMonotone(a: nat, b: nat)
    requires a <= b
    ensures Pow2(a) <= Pow2(b)
    decreases b
  {
    if a < b { PowMonotone(a, b - 1); }
  }

  lemma WaitStep(ev: Event, r: Round)
    requires ev.attempts < MAX_ATTEMPTS && r.lookup.Ok? && !r.lost
    ensures AfterRound(ev, r).attempts < MAX_ATTEMPTS
    ensures Wait(ev, r) == Pow2(AfterRound(ev, r).attempts) - Pow2(ev.attempts)
  {
    PowersBelow128(ev.attempts);
    if Pending(ev) && Pending(AfterRound(ev, r)) { NextAttemptAt(ev, r); }
  }

  /** Without lookup failures or lost updates the attempts stay below eight while pending, and the
      waits so far are exactly 2^attempts - 1 seconds, 127 at the most. */
  lemma {:induction false} WaitsAddUp(now: int, rounds: seq<Round>)
    requires forall r :: r in rounds ==> r.lookup.Ok? && !r.lost
    ensures var ev := Run(Enqueued(now), rounds);
            && ev.attempts < MAX_ATTEMPTS
            && Waits(Enqueued(now), rounds) == Pow2(ev.attempts) - 1 <= 127
  {
    if rounds != [] {
      var n := |rounds| - 1;
      assert rounds[n] in rounds;
      WaitsAddUp(now, rounds[..n]);
      WaitStep(Run(Enqueued(now), rounds[..n]), rounds[n]);
    }
    PowersBelow128(Run(Enqueued(now), rounds).attempts);
  }

  // ---- the worker ----

  /** A leased event after its delivery. */
  function Worked(ev: Event, r: Round): Event { if r.lost then ev else Closed(ev, r) }

  /** One tick of the worker: the events it leased, and what their delivery met. */
  datatype Tick = Tick(leased: set<string>, outcome: string -> Round)

  function AfterTick(events: map<string, Event>, tick: Tick): map<string, Event> {
    map id | id in events :: if id in tick.leased then AfterRound(events[id], tick.outcome(id)) else events[id]
  }

  function AfterTicks(events: map<string, Event>, ticks: seq<Tick>): map<string, Event> {
    if ticks == [] then events else AfterTick(AfterTicks(events, ticks[..|ticks| - 1]), ticks[|ticks| - 1])
  }

  /** The rounds one event had in these ticks. */
  function RoundsOf(id: string, ticks: seq<Tick>): seq<Round> {
    if ticks == [] then []
    else
      var n := |ticks| - 1;
      if id in ticks[n].leased then RoundsOf(id, ticks[..n]) + [ticks[n].outcome(id)] else RoundsOf(id, ticks[..n])
  }

  /** Ticks lease events that are due. */
  ghost predicate LeaseDue(events: map<string, Event>, ticks: seq<Tick>) {
    forall i, id :: 0 <= i < |ticks| && id in ticks[i].leased ==>
      var now := ticks[i].outcome(id).leasedAt;
      id in AfterTicks(events, ticks[..i]) && Due(AfterTicks(events, ticks[..i])[id], now)
  }

  /** Whatever else is in the outbox and however its events take turns in the batches, each event
      lives through a run of its own rounds. */
  lemma {:induction false} TicksAreRuns(events: map<string, Event>, ticks: seq<Tick>, id: string)
    requires id in events
    ensures id in AfterTicks(events, ticks) && AfterTicks(events, ticks)[id] == Run(events[id], RoundsOf(id, ticks))
  {
    if ticks != [] {
      var n := |ticks| - 1;
      TicksAreRuns(events, ticks[..n], id);
      OneRoundMore(events[id], RoundsOf(id, ticks[..n]), ticks[n].outcome(id), "");
    }
  }

  lemma LeaseDueInit(events: map<string, Event>, ticks: seq<Tick>)
    requires LeaseDue(events, ticks) && ticks != []
    ensures LeaseDue(events, ticks[..|ticks| - 1])
  {
    var init := ticks[..|ticks| - 1];
    assert forall i :: 0 <= i < |init| ==> init[..i] == ticks[..i];
  }

  /** And if the worker leases what is due, each of those rounds is held when it was due. */
  lemma {:induction false} TicksAreTimely(events: map<string, Event>, ticks: seq<Tick>, id: string)
    requires id in events && LeaseDue(events, ticks)
    ensures Timely(events[id], RoundsOf(id, ticks))
  {
    if ticks != [] {
      var n := |ticks| - 1;
      LeaseDueInit(events, ticks);
      TicksAreTimely(events, ticks[..n], id);
      if id in ticks[n].leased {
        TicksAreRuns(events, ticks[..n], id);
        TimelySnoc(events[id], RoundsOf(id, ticks[..n]), ticks[n].outcome(id));
      }
    }
  }

  /** The table when the first i leased events have been delivered. */
  function HalfTick(held: map<string, Event>, leased: seq<string>, i: nat, outcome: string -> Round): map<string, Event>
    requires i <= |leased|
  {
    map id | id in held :: if id in leased[..i] then Worked(held[id], outcome(id)) else held[id]
  }

  lemma HalfTickStep(held: map<string, Event>, leased: seq<string>, i: nat, outcome: string -> Round)
    requires i < |leased| && leased[i] in held
    requires forall i, j :: 0 <= i < j < |leased| ==> leased[i] != leased[j]
    ensures var t := HalfTick(held, leased, i, outcome);
            var id := leased[i];
            && id in t && t[id] == held[id]
            && HalfTick(held, leased, i + 1, outcome) == t[id := Worked(held[id], outcome(id))]
  {
    assert leased[..i + 1] == leased[..i] + [leased[i]];
  }

  lemma TickDone(events: map<string, Event>, held: map<string, Event>, leased: seq<string>, now: int,
                 outcome: string -> Round)
    requires forall id :: id in leased ==> id in events && Pending(events[id]) && outcome(id).leasedAt == now
    requires held == map id | id in events ::
               if id in leased then events[id].(nextAttemptAt := now + LEASE) else events[id]
    ensures HalfTick(held, leased, |leased|, outcome) == AfterTick(events, Tick((set id | id in leased), outcome))
  {
    assert leased[..|leased|] == leased;
  }

  lemma PostSnoc(posts: seq<HookId>, h: HookId, errors: map<HookId, string>)
    ensures Acked(posts + [h], errors) == Acked(posts, errors) + if h in errors then [] else [h]
    ensures LastError(posts + [h], errors) == if h in errors then errors[h] else LastError(posts, errors)
    ensures AllOk(posts + [h], errors) <==> AllOk(posts, errors) && h !in errors
  {
    var all := posts + [h];
    assert all[..|posts|] == posts && all[|posts|] == h;
    assert forall k :: 0 <= k < |posts| ==> all[k] == posts[k];
  }

  class Outbox {
    var events: map<string, Event>

    constructor ()
      ensures events == map[]
    {
      events := map[];
    }

    /** LeaseWebhookEvents: the due events with the earliest next attempt, pushed a minute ahead. */
    method Lease(now: int, limit: nat) returns (leased: seq<string>)
      modifies this
      ensures forall i, j :: 0 <= i < j < |leased| ==> leased[i] != leased[j]
      ensures |leased| <= limit
      ensures forall id :: id in leased ==> id in old(events) && Due(old(events)[id], now)
      ensures forall id :: id in old(events) && Due(old(events)[id], now) && id !in leased ==>
                |leased| == limit
                && forall l :: l in leased ==> old(events)[l].nextAttemptAt <= old(events)[id].nextAttemptAt
      ensures events == map id | id in old(events) ::
                if id in leased then old(events)[id].(nextAttemptAt := now + LEASE) else old(events)[id]
    {
      leased := [];
      var due := set id | id in events && Due(events[id], now);
      ghost var all := due;
      while due != {} && |leased| < limit
        invariant events == old(events) && all <= events.Keys
        invariant due <= all && |leased| <= limit
        invariant forall id :: id in leased <==> id in all && id !in due
        invariant forall i, j :: 0 <= i < j < |leased| ==> leased[i] != leased[j]
        invariant forall l, id :: l in leased && id in due ==>
                    old(events)[l].nextAttemptAt <= old(events)[id].nextAttemptAt
        decreases |due|
      {
        var id := Earliest(due);
        leased := leased + [id];
        due := due - {id};
      }
      events := map id | id in events ::
        if id in leased then events[id].(nextAttemptAt := now + LEASE) else events[id];
    }

    /** ORDER BY next_attempt_at, one row at a time. */
    method Earliest(due: set<string>) returns (id: string)
      requires due != {} && due <= events.Keys
      ensures id in due
      ensures forall other :: other in due ==> events[id].nextAttemptAt <= events[other].nextAttemptAt
    {
      id :| id in due;
      var rest := due - {id};
      while rest != {}
        invariant rest <= due && id in due
        invariant forall other :: other in due && other !in rest ==>
                    events[id].nextAttemptAt <= events[other].nextAttemptAt
        decreases |rest|
      {
        var other :| other in rest;
        if events[other].nextAttemptAt < events[id].nextAttemptAt {
          id := other;
        }
        rest := rest - {other};
      }
    }

    /** deliverEvent for one leased event; posts lists the subscribers POSTed to. */
    method Deliver(id: string, r: Round) returns (posts: seq<HookId>)
      requires id in events && Pending(events[id]) && ValidRound(r)
      modifies this
      ensures posts == if r.lookup.Ok? then Posted(old(events)[id], r.lookup.value) else []
      ensures events == if r.lost then old(events) else old(events)[id := Closed(old(events)[id], r)]
    {
      var ev := events[id];
      posts := [];
      if r.lookup.Err? {
        if !r.lost {
          events := events[id := Reschedule(ev, r.now, "lookup: " + r.lookup.error, ev.deliveredHooks)];
        }
        return;
      }
      var hooks := r.lookup.value;
      var already := set h | h in ev.deliveredHooks;
      var delivered := ev.deliveredHooks;
      var allOk, lastErr := true, "";
      var i := 0;
      while i < |hooks|
        invariant 0 <= i <= |hooks| && events == old(events)
        invariant posts == Posted(ev, hooks[..i])
        invariant delivered == ev.deliveredHooks + Acked(posts, r.errors)
        invariant allOk == AllOk(posts, r.errors)
        invariant lastErr == LastError(posts, r.errors)
      {
        var h := hooks[i];
        assert hooks[..i + 1][..i] == hooks[..i];
        if h !in already {
          PostSnoc(posts, h, r.errors);
          posts := posts + [h];
          if h in r.errors {
            allOk := false;
            lastErr := r.errors[h];
          } else {
            delivered := delivered + [h];
          }
        }
        i := i + 1;
      }
      assert hooks[..i] == hooks;
      if r.lost {
        return;
      }
      if allOk {
        ev := ev.(deliveredAt := Some(r.now), lastError := "");
      } else if ev.attempts + 1 >= MAX_ATTEMPTS {
        ev := ev.(parkedAt := Some(r.now), lastError := lastErr, deliveredHooks := delivered);
      } else {
        ev := Reschedule(ev, r.now, lastErr, delivered);
      }
      assert ev == Closed(old(events)[id], r);
      events := events[id := ev];
    }

    /** processWebhookBatch: lease what is due, deliver one by one. outcome is what each delivery
        meets. */
    method ProcessBatch(now: int, limit: nat, outcome: string -> Round) returns (leased: seq<string>)
      requires forall id :: outcome(id).leasedAt == now && ValidRound(outcome(id))
      modifies this
      ensures events == AfterTick(old(events), Tick((set id | id in leased), outcome))
      ensures forall id :: id in leased ==> id in old(events) && Due(old(events)[id], now)
      ensures |leased| <= limit
    {
      leased := Lease(now, limit);
      ghost var held := events;
      assert HalfTick(held, leased, 0, outcome) == held;
      for i := 0 to |leased|
        invariant events == HalfTick(held, leased, i, outcome)
      {
        HalfTickStep(held, leased, i, outcome);
        var _ := Deliver(leased[i], outcome(leased[i]));
      }
      TickDone(old(events), held, leased, now, outcome);
    }
  }
}
