/** The per-IP token bucket, with exact arithmetic: times in seconds, tokens as reals. */
module RateLimit {
  import opened Prelude

  const IDLE := 600.0

  datatype Visitor = Visitor(tokens: real, last: real)

  function Min(a: real, b: real): real { if a <= b then a else b }

  // ---- one visitor ----

  datatype Config = Config(rate: real, burst: int)

  /** What time buys. */
  function Gain(c: Config, from: real, to: real): real { (to - from) * c.rate }

  /** Tokens a visitor would have at a moment. */
  function Level(c: Config, v: Visitor, now: real): real {
    Min(c.burst as real, v.tokens + Gain(c, v.last, now))
  }

  function Admits(c: Config, v: Option<Visitor>, now: real): bool {
    v.None? || Level(c, v.value, now) >= 1.0
  }

  function AfterAllow(c: Config, v: Option<Visitor>, now: real): Visitor {
    if v.None? then Visitor(c.burst as real - 1.0, now)
    else
      var tokens := Level(c, v.value, now);
      Visitor(if tokens >= 1.0 then tokens - 1.0 else tokens, now)
  }

  /** The janitor's verdict on one entry. */
  function AfterSweep(v: Option<Visitor>, now: real): Option<Visitor> {
    if v.Some? && now - v.value.last > IDLE then None else v
  }

  // ---- the limiter ----

  class IPLimiter {
    var visitors: map<string, Visitor>
    const config: Config

    constructor (rate: real, burst: int)
      ensures visitors == map[] && config == Config(rate, burst)
    {
      visitors := map[];
      config := Config(rate, burst);
    }

    ghost function Entry(ip: string): Option<Visitor>
      reads this
    {
      if ip in visitors then Some(visitors[ip]) else None
    }

    method Allow(ip: string, now: real) returns (ok: bool)
      modifies this`visitors
      ensures ok == Admits(config, old(Entry(ip)), now)
      ensures visitors == old(visitors)[ip := AfterAllow(config, old(Entry(ip)), now)]
    {
      ghost var was := Entry(ip);
      if ip !in visitors {
        visitors := visitors[ip := Visitor(config.burst as real - 1.0, now)];
        return true;
      }
      var v := visitors[ip];
      v := v.(tokens := Min(config.burst as real, v.tokens + (now - v.last) * config.rate));
      assert v.tokens == Level(config, was.value, now);
      v := v.(last := now);
      if v.tokens >= 1.0 {
        v := v.(tokens := v.tokens - 1.0);
        visitors := visitors[ip := v];
        return true;
      }
      visitors := visitors[ip := v];
      ok := false;
    }

    /** One tick of the janitor. */
    method Sweep(now: real)
      modifies this`visitors
      ensures visitors == map ip | ip in old(visitors) && !(now - old(visitors)[ip].last > IDLE) :: old(visitors)[ip]
      ensures forall ip :: Entry(ip) == AfterSweep(old(Entry(ip)), now)
    {
      var todo := visitors.Keys;
      while todo != {}
        invariant todo <= old(visitors).Keys
        invariant visitors == map ip | ip in old(visitors)
                                       && (ip in todo || !(now - old(visitors)[ip].last > IDLE)) :: old(visitors)[ip]
        decreases |todo|
      {
        var ip :| ip in todo;
        todo := todo - {ip};
        if now - visitors[ip].last > IDLE {
          visitors := visitors - {ip};
        }
      }
    }
  }

  // ---- runs, seen by one IP ----

  /** What reaches one IP's entry: its own requests and the janitor's ticks. */
  datatype Event = Request(at: real) | Tick(at: real)

  predicate InOrder(run: seq<Event>) { forall i, j :: 0 <= i < j < |run| ==> run[i].at <= run[j].at }

  function Entry(c: Config, run: seq<Event>): Option<Visitor> {
    if run == [] then None
    else
      var n := |run| - 1;
      match run[n]
      case Request(at) => Some(AfterAllow(c, Entry(c, run[..n]), at))
      case Tick(at) => AfterSweep(Entry(c, run[..n]), at)
  }

  /** Whether the i-th event is an admitted request. */
  function Admitted(c: Config, run: seq<Event>, i: nat): bool
    requires i < |run|
  {
    run[i].Request? && Admits(c, Entry(c, run[..i]), run[i].at)
  }

  /** Admissions among the events m to n. */
  function Admissions(c: Config, run: seq<Event>, m: nat, n: nat): nat
    requires m <= n <= |run|
  {
    if m == n then 0 else Admissions(c, run, m, n - 1) + if Admitted(c, run, n - 1) then 1 else 0
  }

  /** The tokens the IP can spend at a moment: a missing entry is as good as a full bucket. */
  function Budget(c: Config, v: Option<Visitor>, now: real): real {
    if v.None? then c.burst as real else Level(c, v.value, now)
  }

  predicate Sane(c: Config) { c.rate >= 0.0 && c.burst >= 1 }

  /** An idle bucket refills within the janitor's patience. */
  predicate RefillsWhileIdle(c: Config) { c.rate * IDLE >= c.burst as real }

  /** Entries never hold negative tokens and never come from the future. */
  predicate Plausible(v: Option<Visitor>, now: real) { v.Some? ==> v.value.tokens >= 0.0 && v.value.last <= now }

  lemma {:induction false} EntryPlausible(c: Config, run: seq<Event>, now: real)
    requires Sane(c) && InOrder(run) && (run != [] ==> run[|run| - 1].at <= now)
    ensures Plausible(Entry(c, run), now)
  {
    if run != [] {
      var n := |run| - 1;
      EntryPlausible(c, run[..n], run[n].at);
      var v := Entry(c, run[..n]);
      if run[n].Request? && v.Some? {
        Refill(c, v.value, run[n].at, run[n].at);
      }
    }
  }

  lemma Product(a: real, b: real)
    requires a >= 0.0 && b >= 0.0
    ensures a * b >= 0.0
  {
  }

  lemma Distribute(a: real, b: real, r: real)
    ensures (a + b) * r == a * r + b * r
  {
  }

  lemma GainAdds(c: Config, a: real, b: real, d: real)
    requires Sane(c) && a <= b <= d
    ensures Gain(c, a, b) + Gain(c, b, d) == Gain(c, a, d)
    ensures Gain(c, a, b) >= 0.0 && Gain(c, b, d) >= 0.0 && Gain(c, a, a) == 0.0
  {
    Distribute(b - a, d - b, c.rate);
    Product(b - a, c.rate);
    Product(d - b, c.rate);
    assert a - a == 0.0;
  }

  /** Waiting adds at most rate tokens a second. */
  lemma Refill(c: Config, v: Visitor, t: real, now: real)
    requires Sane(c) && v.last <= t <= now
    ensures Level(c, v, now) <= Level(c, v, t) + Gain(c, t, now)
    ensures v.tokens >= 0.0 ==> Level(c, v, now) >= 0.0
  {
    GainAdds(c, v.last, t, now);
  }

  /** Forgetting an entry idle for over ten minutes cannot be noticed. */
  lemma SweepKeepsBudget(c: Config, v: Option<Visitor>, tick: real, now: real)
    requires Sane(c) && RefillsWhileIdle(c) && Plausible(v, tick) && tick <= now
    ensures Budget(c, AfterSweep(v, tick), now) == Budget(c, v, now)
  {
    if v.Some? && tick - v.value.last > IDLE {
      var last := v.value.last;
      GainAdds(c, last, last + IDLE, now);
      assert Gain(c, last, last + IDLE) == c.rate * IDLE;
    }
  }

  /** A request is admitted exactly when the budget holds a token, and an admission costs one. */
  lemma RequestSpends(c: Config, v: Option<Visitor>, at: real, now: real)
    requires Sane(c) && Plausible(v, at) && at <= now
    ensures Admits(c, v, at) <==> Budget(c, v, at) >= 1.0
    ensures Budget(c, Some(AfterAllow(c, v, at)), now)
            <= Budget(c, v, at) - (if Admits(c, v, at) then 1.0 else 0.0) + Gain(c, at, now)
  {
  }

  /** A refusal costs nothing: the partial tokens stay, and the next request is admitted exactly when
      the refill since the refused one's bucket was last written makes a whole token. */
  lemma RefusalCostsNothing(c: Config, v: Visitor, at: real, now: real)
    requires Sane(c) && v.last <= at <= now && !Admits(c, Some(v), at)
    ensures var after := AfterAllow(c, Some(v), at);
            && Level(c, after, now) == Level(c, v, now)
            && (Admits(c, Some(after), now) <==> v.tokens + Gain(c, v.last, now) >= 1.0)
  {
    GainAdds(c, v.last, at, now);
  }

  function Fee(b: bool): real { if b then 1.0 else 0.0 }

  /** One event of a run: what it admits plus what it leaves is covered by what there was. */
  lemma EventPaid(c: Config, v: Option<Visitor>, e: Event, now: real)
    requires Sane(c) && RefillsWhileIdle(c) && Plausible(v, e.at) && e.at <= now
    ensures var v' := AfterEvent(c, v, e);
            Fee(e.Request? && Admits(c, v, e.at)) + Budget(c, v', now) <= Budget(c, v, e.at) + Gain(c, e.at, now)
    ensures 0.0 <= Budget(c, v, e.at) <= c.burst as real
  {
    GainAdds(c, e.at, now, now);
    if v.Some? { Refill(c, v.value, e.at, now); }
    if v.Some? { Refill(c, v.value, e.at, e.at); }
    match e {
      case Request(at) => RequestSpends(c, v, at, now);
      case Tick(at) => SweepKeepsBudget(c, v, at, now);
    }
  }

  /** Admissions in a stretch are paid for by a full bucket and the refill since. */
  lemma {:induction false} AdmissionsPaid(c: Config, run: seq<Event>, m: nat, n: nat, now: real)
    requires Sane(c) && RefillsWhileIdle(c) && InOrder(run) && m < n <= |run| && run[n - 1].at <= now
    ensures Admissions(c, run, m, n) as real + Budget(c, Entry(c, run[..n]), now)
            <= c.burst as real + Gain(c, run[m].at, now)
    decreases n
  {
    var e := run[n - 1];
    var before := run[..n - 1];
    assert run[..n][..n - 1] == before && run[..n][n - 1] == e;
    assert n >= 2 ==> run[n - 2].at <= e.at;
    EntryPlausible(c, before, e.at);
    EventPaid(c, Entry(c, before), e, now);
    GainAdds(c, run[m].at, e.at, now);
    assert Admissions(c, run, m, n) as real == Admissions(c, run, m, n - 1) as real + Fee(Admitted(c, run, n - 1));
    if n - 1 > m {
      AdmissionsPaid(c, run, m, n - 1, e.at);
    }
  }

  /** In every run and every window, with the janitor ticking whenever it likes, an IP gets at
      most burst + rate * length requests through. */
  lemma WindowBound(c: Config, run: seq<Event>, m: nat, n: nat)
    requires Sane(c) && RefillsWhileIdle(c) && InOrder(run) && m < n <= |run|
    ensures Admissions(c, run, m, n) as real <= c.burst as real + Gain(c, run[m].at, run[n - 1].at)
  {
    var end := run[n - 1].at;
    AdmissionsPaid(c, run, m, n, end);
    EntryPlausible(c, run[..n], end);
    EventPaid(c, Entry(c, run[..n]), Tick(end), end);
  }

  // ---- the idle timeout is not arbitrary ----

  function Requests(n: nat, at: real): seq<Event> { seq(n, i => Request(at)) }

  lemma {:induction false} AdmissionsLocal(c: Config, a: seq<Event>, b: seq<Event>, m: nat, n: nat)
    requires m <= n <= |a| && n <= |b| && a[..n] == b[..n]
    ensures Admissions(c, a, m, n) == Admissions(c, b, m, n)
    decreases n
  {
    if m < n {
      assert a[..n - 1] == a[..n][..n - 1] == b[..n][..n - 1] == b[..n - 1];
      assert a[n - 1] == a[..n][n - 1] == b[..n][n - 1] == b[n - 1];
      AdmissionsLocal(c, a, b, m, n - 1);
    }
  }

  lemma {:induction false} AdmissionsAdd(c: Config, run: seq<Event>, m: nat, k: nat, n: nat)
    requires m <= k <= n <= |run|
    ensures Admissions(c, run, m, k) + Admissions(c, run, k, n) == Admissions(c, run, m, n)
    decreases n
  {
    if k < n { AdmissionsAdd(c, run, m, k, n - 1); }
  }

  /** A request at the moment of the last one spends a whole token. */
  lemma SpendAtOnce(c: Config, v: Visitor)
    requires Sane(c) && 1.0 <= v.tokens <= c.burst as real
    ensures Admits(c, Some(v), v.last) && AfterAllow(c, Some(v), v.last) == Visitor(v.tokens - 1.0, v.last)
  {
    GainAdds(c, v.last, v.last, v.last);
  }

  function AfterEvent(c: Config, v: Option<Visitor>, e: Event): Option<Visitor> {
    if e.Request? then Some(AfterAllow(c, v, e.at)) else AfterSweep(v, e.at)
  }

  lemma EventSnoc(c: Config, run: seq<Event>, e: Event, m: nat)
    requires m <= |run|
    ensures Entry(c, run + [e]) == AfterEvent(c, Entry(c, run), e)
    ensures Admissions(c, run + [e], m, |run| + 1)
         == Admissions(c, run, m, |run|) + if e.Request? && Admits(c, Entry(c, run), e.at) then 1 else 0
  {
    var all := run + [e];
    assert all[..|run|] == run == run[..|run|];
    AdmissionsLocal(c, all, run, m, |run|);
  }

  lemma RequestsSnoc(pre: seq<Event>, k: nat, at: real)
    ensures pre + Requests(k + 1, at) == (pre + Requests(k, at)) + [Request(at)]
  {
  }

  function AfterBurst(c: Config, k: nat, at: real): Option<Visitor>
    requires k <= c.burst
  {
    if k == 0 then None else Some(Visitor((c.burst - k) as real, at))
  }

  lemma BurstStep(c: Config, k: nat, at: real)
    requires Sane(c) && k < c.burst
    ensures Admits(c, AfterBurst(c, k, at), at)
    ensures AfterEvent(c, AfterBurst(c, k, at), Request(at)) == AfterBurst(c, k + 1, at)
  {
    if k > 0 { SpendAtOnce(c, AfterBurst(c, k, at).value); }
  }

  /** k requests at one moment after pre were all admitted. */
  ghost predicate Burst(c: Config, pre: seq<Event>, k: nat, at: real)
    requires k <= c.burst
  {
    var run := pre + Requests(k, at);
    |run| == |pre| + k && Admissions(c, run, |pre|, |run|) == k && Entry(c, run) == AfterBurst(c, k, at)
  }

  lemma BurstGrows(c: Config, pre: seq<Event>, k: nat, at: real)
    requires Sane(c) && k < c.burst && Burst(c, pre, k, at)
    ensures Burst(c, pre, k + 1, at)
  {
    RequestsSnoc(pre, k, at);
    var run := pre + Requests(k, at);
    EventSnoc(c, run, Request(at), |pre|);
    BurstStep(c, k, at);
  }

  /** From a missing entry, a full burst at one moment is admitted. */
  lemma {:induction false} BurstAdmitted(c: Config, pre: seq<Event>, k: nat, at: real)
    requires Sane(c) && Entry(c, pre) == None && k <= c.burst
    ensures Burst(c, pre, k, at)
    decreases k
  {
    if k == 0 {
      assert pre + Requests(k, at) == pre;
    } else {
      BurstAdmitted(c, pre, k - 1, at);
      BurstGrows(c, pre, k - 1, at);
    }
  }

  lemma Grows(a: real, b: real, r: real)
    requires a <= b && r > 0.0
    ensures a * r <= b * r && (a < b ==> a * r < b * r)
  {
    if a < b { assert (b - a) * r > 0.0 by { Positive(b - a, r); } Distribute(a, b - a, r); }
  }

  lemma Positive(a: real, b: real)
    requires a > 0.0 && b > 0.0
    ensures a * b > 0.0
  {
  }

  lemma FillTime(b: real, r: real)
    requires r > 0.0 && r * IDLE < b
    ensures (b / r) * r == b && b / r > IDLE
  {
    var full := b / r;
    assert full * r == b;
    if full <= IDLE { Grows(full, IDLE, r); }
  }

  /** A moment past the idle limit at which the bucket would still not be full. */
  lemma UnfilledMoment(c: Config) returns (t: real)
    requires Sane(c) && !RefillsWhileIdle(c)
    ensures t > IDLE && Gain(c, 0.0, t) < c.burst as real
  {
    if c.rate == 0.0 {
      t := IDLE + 1.0;
    } else {
      var full := c.burst as real / c.rate;
      FillTime(c.burst as real, c.rate);
      t := (IDLE + full) / 2.0;
      Grows(t, full, c.rate);
    }
  }

  lemma TwoBurstsInOrder(k: nat, t: real, run: seq<Event>)
    requires k > 0 && t >= 0.0 && run == Requests(k, 0.0) + [Tick(t)] + Requests(k, t)
    ensures InOrder(run) && run[0].at == 0.0 && run[|run| - 1].at == t
  {
    assert forall i :: 0 <= i < |run| ==> run[i].at == if i < k then 0.0 else t;
  }

  /** Spend a burst, sit out the janitor, spend another. */
  lemma TwoBursts(c: Config, t: real) returns (run: seq<Event>)
    requires Sane(c) && t > IDLE
    ensures InOrder(run) && run != [] && run[0].at == 0.0 && run[|run| - 1].at == t
    ensures Admissions(c, run, 0, |run|) >= 2 * c.burst
  {
    var first := Requests(c.burst, 0.0);
    assert [] + first == first;
    BurstAdmitted(c, [], c.burst, 0.0);
    var swept := first + [Tick(t)];
    EventSnoc(c, first, Tick(t), 0);
    BurstAdmitted(c, swept, c.burst, t);
    run := swept + Requests(c.burst, t);
    assert run[..|swept|] == swept[..|swept|];
    AdmissionsLocal(c, run, swept, 0, |swept|);
    AdmissionsAdd(c, run, 0, |swept|, |run|);
    TwoBurstsInOrder(c.burst, t, run);
  }

  lemma Doubled(b: int, extra: real, admitted: nat)
    requires admitted >= 2 * b && extra < b as real
    ensures admitted as real > b as real + extra
  {
    assert (2 * b) as real == b as real + b as real;
  }

  lemma JanitorHandsOutMore(c: Config) returns (run: seq<Event>)
    requires Sane(c) && !RefillsWhileIdle(c)
    ensures InOrder(run) && run != []
    ensures Admissions(c, run, 0, |run|) as real > c.burst as real + Gain(c, run[0].at, run[|run| - 1].at)
  {
    var t := UnfilledMoment(c);
    run := TwoBursts(c, t);
    Doubled(c.burst, Gain(c, 0.0, t), Admissions(c, run, 0, |run|));
  }

  /** Every run of some length keeps to burst + rate * length. */
  ghost predicate KeepsBound(c: Config) {
    forall run: seq<Event>, m: nat, n: nat :: InOrder(run) && m < n <= |run| ==>
      Admissions(c, run, m, n) as real <= c.burst as real + Gain(c, run[m].at, run[n - 1].at)
  }

  /** The limiter keeps its promise exactly when an idle bucket refills within ten minutes. */
  lemma BoundIff(c: Config)
    requires Sane(c)
    ensures KeepsBound(c) <==> RefillsWhileIdle(c)
  {
    if RefillsWhileIdle(c) {
      forall run: seq<Event>, m: nat, n: nat | InOrder(run) && m < n <= |run|
        ensures Admissions(c, run, m, n) as real <= c.burst as real + Gain(c, run[m].at, run[n - 1].at)
      {
        WindowBound(c, run, m, n);
      }
    } else {
      var run := JanitorHandsOutMore(c);
      assert !(Admissions(c, run, 0, |run|) as real <= c.burst as real + Gain(c, run[0].at, run[|run| - 1].at));
    }
  }
}
