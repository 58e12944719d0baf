/** No echo loop: how often one row can be merged or sent, over every run one side can see. */
module EchoBound {
  import opened Prelude
  import opened SyncProtocol
  import opened ShareState

  /** Everything that can happen to a row on one side. Deliveries are arbitrary: repeated,
      reordered and invented ones included. The two crashes hit between the two writes of an
      apply, and between handing a message to the mailbox and recording it. */
  datatype Event =
    | Edit(row: Item)
    | Deliver(d: Delivery)
    | PushPass
    | CrashedDeliver(d: Delivery)
    | CrashedPush

  function Step(c: Cell, e: Event): Cell {
    match e
    case Edit(row) => c.(row := Some(row))
    case Deliver(d) => Apply(c, d)
    case PushPass => Push(c)
    case CrashedDeliver(d) => c.(row := Some(StoreRow(c, d)))
    case CrashedPush => c
  }

  datatype Tally = Tally(edits: nat, merges: nat, sends: nat, crashedApplies: nat, crashedSends: nat)

  /** What one event adds to the tally, seen from the state it happens in. */
  function Count(t: Tally, c: Cell, e: Event): Tally {
    match e
    case Edit(_) => t.(edits := t.edits + 1)
    case Deliver(_) => if Dirty(c) then t.(merges := t.merges + 1) else t
    case PushPass => if Unsent(c) then t.(sends := t.sends + 1) else t
    case CrashedDeliver(_) =>
      var t' := t.(crashedApplies := t.crashedApplies + 1);
      if Dirty(c) then t'.(merges := t.merges + 1) else t'
    case CrashedPush =>
      if Unsent(c) then t.(sends := t.sends + 1, crashedSends := t.crashedSends + 1) else t
  }

  function Run(c: Cell, run: seq<Event>): (Cell, Tally) {
    if run == [] then (c, Tally(0, 0, 0, 0, 0))
    else
      var (c', t) := Run(c, run[..|run| - 1]);
      var e := run[|run| - 1];
      (Step(c', e), Count(t, c', e))
  }

  /** The bound with its slack: a row still waiting to be merged or sent has one in hand. */
  lemma {:induction false} EchoBounded(c: Cell, run: seq<Event>)
    ensures var (c', t) := Run(c, run);
            && t.merges + Flag(Dirty(c')) <= Flag(Dirty(c)) + t.edits + t.crashedApplies
            && t.sends + Flag(Unsent(c'))
               <= Flag(Unsent(c)) + t.edits + t.merges + t.crashedApplies + t.crashedSends
  {
    if run != [] {
      var before := run[..|run| - 1];
      var e := run[|run| - 1];
      EchoBounded(c, before);
      var (c', t) := Run(c, before);
      if e.Deliver? { ApplySettles(c', e.d); }
    }
  }

  /** Without crashes: at most 1 + edits merges, at most 1 + edits + merges sends. */
  lemma NoEchoLoop(c: Cell, run: seq<Event>)
    requires forall e :: e in run ==> !e.CrashedDeliver? && !e.CrashedPush?
    ensures var (_, t) := Run(c, run);
            t.merges <= 1 + t.edits && t.sends <= 1 + t.edits + t.merges
  {
    EchoBounded(c, run);
    NoCrashes(c, run);
  }

  lemma {:induction false} NoCrashes(c: Cell, run: seq<Event>)
    requires forall e :: e in run ==> !e.CrashedDeliver? && !e.CrashedPush?
    ensures Run(c, run).1.crashedApplies == Run(c, run).1.crashedSends == 0
  {
    if run != [] { NoCrashes(c, run[..|run| - 1]); }
  }
}
