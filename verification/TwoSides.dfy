/** Both ends of a share, for one item: two cells and the two mailboxes between them, here as
    in-order, once-only queues (Courier shows when the mailbox behaves as one). */
module TwoSides {
  import opened Prelude
  import opened SyncProtocol
  import opened ShareState

  /** The fixed facts: the instance ids and the project each side files the item under. */
  datatype Pair = Pair(idA: string, idB: string, projectA: string, projectB: string)

  datatype Sys = Sys(a: Cell, b: Cell, toA: seq<ItemPayload>, toB: seq<ItemPayload>)

  datatype Step = PullA | PullB | PushA | PushB | EditA(row: Item) | EditB(row: Item)

  function ArriveA(p: Pair, s: Sys): Cell
    requires s.toA != []
  {
    Apply(s.a, Delivery(p.idA, p.idB, p.projectA, s.toA[0]))
  }

  function ArriveB(p: Pair, s: Sys): Cell
    requires s.toB != []
  {
    Apply(s.b, Delivery(p.idB, p.idA, p.projectB, s.toB[0]))
  }

  function Next(p: Pair, s: Sys, step: Step): Sys {
    match step
    case PullA => if s.toA == [] then s else s.(a := ArriveA(p, s), toA := s.toA[1..])
    case PullB => if s.toB == [] then s else s.(b := ArriveB(p, s), toB := s.toB[1..])
    case PushA => if Unsent(s.a) then s.(a := MarkSent(s.a), toB := s.toB + [ContentOf(s.a)]) else s
    case PushB => if Unsent(s.b) then s.(b := MarkSent(s.b), toA := s.toA + [ContentOf(s.b)]) else s
    case EditA(row) => s.(a := s.a.(row := Some(row)))
    case EditB(row) => s.(b := s.b.(row := Some(row)))
  }

  /** The step moves a message. */
  predicate Works(s: Sys, step: Step) {
    match step
    case PullA => s.toA != []
    case PullB => s.toB != []
    case PushA => Unsent(s.a)
    case PushB => Unsent(s.b)
    case EditA(_) => false
    case EditB(_) => false
  }

  predicate IsEdit(step: Step) { step.EditA? || step.EditB? }

  predicate NoEdits(run: seq<Step>) { forall step :: step in run ==> !IsEdit(step) }

  /** Nothing in flight and nothing either side would send. */
  predicate Quiet(s: Sys) { s.toA == [] && s.toB == [] && !Unsent(s.a) && !Unsent(s.b) }

  function Run(p: Pair, s: Sys, run: seq<Step>): Sys
    decreases |run|
  {
    if run == [] then s else Run(p, Next(p, s, run[0]), run[1..])
  }

  lemma {:induction false} RunConcat(p: Pair, s: Sys, u: seq<Step>, v: seq<Step>)
    ensures Run(p, s, u + v) == Run(p, Run(p, s, u), v)
    decreases |u|
  {
    if u == [] {
      assert u + v == v;
    } else {
      assert (u + v)[1..] == u[1..] + v;
      RunConcat(p, Next(p, s, u[0]), u[1..], v);
    }
  }

  /** Messages sent or applied along a run. */
  function Traffic(p: Pair, s: Sys, run: seq<Step>): nat
    decreases |run|
  {
    if run == [] then 0
    else (if Works(s, run[0]) then 1 else 0) + Traffic(p, Next(p, s, run[0]), run[1..])
  }

  function Edits(run: seq<Step>): nat {
    if run == [] then 0 else (if IsEdit(run[0]) then 1 else 0) + Edits(run[1..])
  }

  /** How many more messages the share can move without another edit. */
  function Potential(s: Sys): nat {
    |s.toA| + |s.toB| + 2 * (Flag(Unsent(s.a)) + Flag(Unsent(s.b)) + Flag(Dirty(s.a)) + Flag(Dirty(s.b)))
  }

  lemma StepPotential(p: Pair, s: Sys, step: Step)
    ensures Potential(Next(p, s, step)) + Flag(Works(s, step)) <= Potential(s) + 4 * Flag(IsEdit(step))
  {
    match step
    case PullA => if s.toA != [] { ApplySettles(s.a, Delivery(p.idA, p.idB, p.projectA, s.toA[0])); }
    case PullB => if s.toB != [] { ApplySettles(s.b, Delivery(p.idB, p.idA, p.projectB, s.toB[0])); }
    case PushA =>
    case PushB =>
    case EditA(_) =>
    case EditB(_) =>
  }

  /** From any state whatever, a run moves at most its initial potential plus four messages for
      each edit: no interleaving volleys a row for ever. */
  lemma {:induction false} TrafficBounded(p: Pair, s: Sys, run: seq<Step>)
    ensures Traffic(p, s, run) + Potential(Run(p, s, run)) <= Potential(s) + 4 * Edits(run)
    decreases |run|
  {
    if run != [] {
      StepPotential(p, s, run[0]);
      TrafficBounded(p, Next(p, s, run[0]), run[1..]);
    }
  }

  /** A stretch of run in which every side pulls and pushes at least once. */
  predicate Round(run: seq<Step>) {
    NoEdits(run) && PullA in run && PullB in run && PushA in run && PushB in run
  }

  function RunRounds(p: Pair, s: Sys, rounds: seq<seq<Step>>): Sys
    decreases |rounds|
  {
    if rounds == [] then s else RunRounds(p, Run(p, s, rounds[0]), rounds[1..])
  }

  lemma {:induction false} IdleRun(p: Pair, s: Sys, run: seq<Step>)
    requires NoEdits(run) && Traffic(p, s, run) == 0
    ensures Run(p, s, run) == s && forall step :: step in run ==> !Works(s, step)
    decreases |run|
  {
    if run != [] {
      assert run[0] in run;
      assert Next(p, s, run[0]) == s;
      IdleRun(p, s, run[1..]);
      assert forall step :: step in run ==> step == run[0] || step in run[1..];
    }
  }

  lemma {:induction false} NoEditsCount(run: seq<Step>)
    requires NoEdits(run)
    ensures Edits(run) == 0
  {
    if run != [] {
      assert run[0] in run;
      NoEditsCount(run[1..]);
    }
  }

  /** However the steps interleave, as many rounds as the potential bring the share to rest. */
  lemma {:induction false} RoundsBringQuiet(p: Pair, s: Sys, rounds: seq<seq<Step>>)
    requires |rounds| >= Potential(s)
    requires forall r :: r in rounds ==> Round(r)
    ensures Quiet(RunRounds(p, s, rounds))
    decreases |rounds|
  {
    if rounds != [] {
      var r := rounds[0];
      assert r in rounds;
      NoEditsCount(r);
      TrafficBounded(p, s, r);
      if Traffic(p, s, r) == 0 {
        IdleRun(p, s, r);
        assert !Works(s, PullA) && !Works(s, PullB) && !Works(s, PushA) && !Works(s, PushB);
        QuietStays(p, s, rounds);
      } else {
        RoundsBringQuiet(p, Run(p, s, r), rounds[1..]);
      }
    }
  }

  lemma {:induction false} QuietStays(p: Pair, s: Sys, rounds: seq<seq<Step>>)
    requires Quiet(s) && forall r :: r in rounds ==> Round(r)
    ensures RunRounds(p, s, rounds) == s
  {
    if rounds != [] {
      assert rounds[0] in rounds;
      NoEditsCount(rounds[0]);
      QuietRun(p, s, rounds[0]);
      QuietStays(p, s, rounds[1..]);
    }
  }

  lemma {:induction false} QuietRun(p: Pair, s: Sys, run: seq<Step>)
    requires Quiet(s) && NoEdits(run)
    ensures Run(p, s, run) == s
    decreases |run|
  {
    if run != [] {
      assert run[0] in run;
      QuietRun(p, s, run[1..]);
    }
  }

  // ---- the protocol does not know which side is called A ----

  function MirrorPair(p: Pair): Pair { Pair(p.idB, p.idA, p.projectB, p.projectA) }

  function Mirror(s: Sys): Sys { Sys(s.b, s.a, s.toB, s.toA) }

  function MirrorStep(step: Step): Step {
    match step
    case PullA => PullB
    case PullB => PullA
    case PushA => PushB
    case PushB => PushA
    case EditA(row) => EditB(row)
    case EditB(row) => EditA(row)
  }

  function MirrorSteps(run: seq<Step>): seq<Step> { seq(|run|, i requires 0 <= i < |run| => MirrorStep(run[i])) }

  lemma MirrorNext(p: Pair, s: Sys, step: Step)
    ensures Next(MirrorPair(p), Mirror(s), MirrorStep(step)) == Mirror(Next(p, s, step))
  {
  }

  lemma {:induction false} MirrorRun(p: Pair, s: Sys, run: seq<Step>)
    ensures Run(MirrorPair(p), Mirror(s), MirrorSteps(run)) == Mirror(Run(p, s, run))
    decreases |run|
  {
    if run != [] {
      assert MirrorSteps(run)[1..] == MirrorSteps(run[1..]);
      MirrorNext(p, s, run[0]);
      MirrorRun(p, Next(p, s, run[0]), run[1..]);
    }
  }

  lemma MirrorNoEdits(run: seq<Step>)
    requires NoEdits(run)
    ensures NoEdits(MirrorSteps(run))
  {
    assert forall i :: 0 <= i < |run| ==> run[i] in run && MirrorSteps(run)[i] == MirrorStep(run[i]);
  }
}
