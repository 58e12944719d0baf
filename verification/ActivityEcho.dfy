/** Activity rows are append-only and never merged, but the echo guard records the row that
    arrived, not the row that was stored. */
module ActivityEcho {
  import opened Prelude
  import opened SyncProtocol
  import opened Replicas

  /** One activity row on one side: stored at most once, never changed, and its echo guard. */
  datatype Side = Side(row: Option<ActivityRow>, sent: Hash)

  /** Two sides and the copies in flight. items is what each side has when the row is stored. */
  datatype Link = Link(a: Side, b: Side, toA: seq<ActivityPayload>, toB: seq<ActivityPayload>)

  datatype Step = PullA | PullB | PushA | PushB

  function Hash1(a: ActivityPayload): Hash { ContentHash(ActivityBody(a)) }

  predicate Unsent(s: Side) { s.row.Some? && s.sent != Hash1(ActivityContent(s.row.value)) }

  function Arrive(s: Side, copy: ActivityRow, remote: ActivityPayload): Side {
    Side(if s.row.Some? then s.row else Some(copy), Hash1(remote))
  }

  function Send(s: Side): Side
    requires s.row.Some?
  {
    s.(sent := Hash1(ActivityContent(s.row.value)))
  }

  /** copy is the row the receiving side would store if it has none. */
  function Next(l: Link, freshA: ActivityRow, freshB: ActivityRow, step: Step): Link {
    match step
    case PullA => if l.toA == [] then l else l.(a := Arrive(l.a, freshA, l.toA[0]), toA := l.toA[1..])
    case PullB => if l.toB == [] then l else l.(b := Arrive(l.b, freshB, l.toB[0]), toB := l.toB[1..])
    case PushA => if Unsent(l.a) then l.(a := Send(l.a), toB := l.toB + [ActivityContent(l.a.row.value)]) else l
    case PushB => if Unsent(l.b) then l.(b := Send(l.b), toA := l.toA + [ActivityContent(l.b.row.value)]) else l
  }

  function Run(l: Link, freshA: ActivityRow, freshB: ActivityRow, run: seq<Step>): Link
    decreases |run|
  {
    if run == [] then l else Run(Next(l, freshA, freshB, run[0]), freshA, freshB, run[1..])
  }

  predicate Quiet(l: Link) { l.toA == [] && l.toB == [] && !Unsent(l.a) && !Unsent(l.b) }

  /** Side is what receiveActivity does to one key. */
  lemma ArriveIsReceive(r: Replica, remote: ActivityPayload)
    ensures var side := (x: Replica) =>
              Side(if remote.id in x.activity then Some(x.activity[remote.id]) else None,
                   StateOf(x.states, Key(ActivityKind, remote.id)).sent);
            side(ReceiveActivity(r, remote))
            == Arrive(side(r), StoreActivity(r.projectId, r.items.Keys, remote), remote)
  {
  }

  /** A row just sent from A to a side that does not have it. */
  predicate JustSent(l: Link, row: ActivityRow) {
    && l.a == Side(Some(row), Hash1(ActivityContent(row))) && l.b.row.None?
    && l.toA == [] && l.toB == [ActivityContent(row)]
  }

  /** Every copy in flight is its sender's, and if the two stored rows differ something is always
      left to do: a copy in flight, or a side whose guard holds the other side's row. */
  predicate Restless(l: Link, row: ActivityRow, copy: ActivityRow) {
    && l.a.row == Some(row)
    && (forall i :: 0 <= i < |l.toB| ==> l.toB[i] == ActivityContent(row))
    && (forall i :: 0 <= i < |l.toA| ==> l.toA[i] == ActivityContent(copy))
    && (l.b.row == None ==> l.toB != [] && l.toA == [])
    && (l.b.row.Some? ==> l.b.row == Some(copy))
    && !Quiet(l)
  }

  lemma RestlessStep(l: Link, freshA: ActivityRow, row: ActivityRow, copy: ActivityRow, step: Step)
    requires Restless(l, row, copy) && ActivityContent(row) != ActivityContent(copy)
    ensures Restless(Next(l, freshA, copy, step), row, copy)
  {
  }

  lemma {:induction false} RestlessRun(l: Link, freshA: ActivityRow, row: ActivityRow, copy: ActivityRow, run: seq<Step>)
    requires Restless(l, row, copy) && ActivityContent(row) != ActivityContent(copy)
    ensures Restless(Run(l, freshA, copy, run), row, copy)
    decreases |run|
  {
    if run != [] {
      RestlessStep(l, freshA, row, copy, run[0]);
      RestlessRun(Next(l, freshA, copy, run[0]), freshA, row, copy, run[1..]);
    }
  }

  /** The receiver had the item the row hangs on, or the row hangs on none. */
  predicate Attached(row: ActivityRow, itemsAtB: set<string>) {
    row.itemId.None? || row.itemId.value in itemsAtB
  }

  lemma StoredEqualIff(row: ActivityRow, projectB: string, itemsAtB: set<string>)
    ensures ActivityContent(StoreActivity(projectB, itemsAtB, ActivityContent(row))) == ActivityContent(row)
            <==> Attached(row, itemsAtB)
  {
  }

  /** The two sides take the union, and it ends, exactly when the item was there first: an
      activity row that arrives before its item is echoed for ever, on every interleaving. */
  lemma EchoesForeverIff(l: Link, row: ActivityRow, freshA: ActivityRow, projectB: string, itemsAtB: set<string>)
    requires JustSent(l, row)
    ensures var copy := StoreActivity(projectB, itemsAtB, ActivityContent(row));
            Attached(row, itemsAtB) <==> exists run :: Quiet(Run(l, freshA, copy, run))
    ensures var copy := StoreActivity(projectB, itemsAtB, ActivityContent(row));
            var t := Next(l, freshA, copy, PullB);
            Attached(row, itemsAtB) ==>
              Quiet(t) && t.b.row.Some? && ActivityContent(t.b.row.value) == ActivityContent(row)
  {
    StoredEqualIff(row, projectB, itemsAtB);
    var copy := StoreActivity(projectB, itemsAtB, ActivityContent(row));
    if Attached(row, itemsAtB) {
      assert Run(l, freshA, copy, [PullB]) == Next(l, freshA, copy, PullB) by {
        assert [PullB][1..] == [];
      }
      assert Quiet(Run(l, freshA, copy, [PullB]));
    } else {
      forall run ensures !Quiet(Run(l, freshA, copy, run)) {
        RestlessRun(l, freshA, row, copy, run);
      }
    }
  }
}
