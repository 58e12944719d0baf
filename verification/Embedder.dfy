/** The embedding backlog: what is sent, how a batch is settled row by row, and what a drain leaves. */
module Embedder {
  import opened Prelude

  const BATCH_SIZE := 50
  const MAX_CHARS := 8000
  const DIMS := 1536

  newtype byte = b: int | 0 <= b < 256

  // ---- text sent to the model ----

  /** Not of the form 10xxxxxx. */
  predicate RuneStart(b: byte) { b / 64 != 2 }

  /** The last rune boundary at or below n. */
  function Cut(s: seq<byte>, n: nat): (r: nat)
    requires n < |s|
    ensures r <= n && (r > 0 ==> RuneStart(s[r])) && forall k :: r < k <= n ==> !RuneStart(s[k])
  {
    if n == 0 || RuneStart(s[n]) then n else Cut(s, n - 1)
  }

  function Trunc(s: seq<byte>, max: nat): seq<byte> {
    if |s| <= max then s else s[..Cut(s, max)]
  }

  method TruncBytes(s: seq<byte>, max: nat) returns (r: seq<byte>)
    ensures r == Trunc(s, max)
  {
    if |s| <= max {
      return s;
    }
    var cut: nat := max;
    while cut > 0 && !RuneStart(s[cut])
      invariant 0 <= cut <= max && Cut(s, cut) == Cut(s, max)
    {
      cut := cut - 1;
    }
    r := s[..cut];
  }

  /** The encoding of one code point: a start byte, then continuation bytes. */
  predicate Rune(r: seq<byte>) {
    |r| > 0 && RuneStart(r[0]) && forall i :: 1 <= i < |r| ==> !RuneStart(r[i])
  }

  function Joined(runes: seq<seq<byte>>): seq<byte> {
    if runes == [] then [] else runes[0] + Joined(runes[1..])
  }

  lemma CutShift(a: seq<byte>, s: seq<byte>, n: nat)
    requires n < |s| && RuneStart(s[0])
    ensures Cut(a + s, |a| + n) == |a| + Cut(s, n)
  {
    assert RuneStart((a + s)[|a| + Cut(s, n)]);
  }

  lemma TruncCons(first: seq<byte>, s: seq<byte>, max: nat)
    requires |first| <= max && (s != [] ==> RuneStart(s[0]))
    ensures Trunc(first + s, max) == first + Trunc(s, max - |first|)
  {
    if |first + s| > max {
      CutShift(first, s, max - |first|);
    }
  }

  /** On encoded text truncation keeps whole code points, and as many as fit. */
  lemma {:induction false} TruncKeepsWholeRunes(runes: seq<seq<byte>>, max: nat) returns (k: nat)
    requires forall i :: 0 <= i < |runes| ==> Rune(runes[i])
    ensures k <= |runes| && Trunc(Joined(runes), max) == Joined(runes[..k]) && |Joined(runes[..k])| <= max
    ensures k < |runes| ==> |Joined(runes[..k + 1])| > max
    decreases |runes|
  {
    if runes == [] { return 0; }
    var first, rest := runes[0], runes[1..];
    if |first| > max {
      assert runes[..1] == [first] + rest[..0];
      return 0;
    }
    var j := TruncKeepsWholeRunes(rest, max - |first|);
    k := j + 1;
    TruncCons(first, Joined(rest), max);
    assert runes[..k] == [first] + rest[..j];
    if j < |rest| {
      assert runes[..k + 1] == [first] + rest[..j + 1];
    }
  }

  // ---- rows, replies and the call log ----

  type Vector = seq<real>

  datatype Row = Row(title: seq<byte>, body: seq<byte>, updatedAt: int, deleted: bool,
                     embedding: Option<Vector>, model: string)

  type Table = map<int, Row>

  predicate Waiting(r: Row) { !r.deleted && r.embedding.None? && r.model != "failed" }

  function Backlog(t: Table): set<int> { set id | id in t && Waiting(t[id]) }

  /** Title, blank line, body, capped. */
  function Text(r: Row): seq<byte> {
    Trunc(r.title + if r.body == [] then [] else [10, 10] + r.body, MAX_CHARS)
  }

  /** The text sent about a row begins with its title; within the cap it is title, blank line and body,
      and beyond it the longest beginning of that which ends between two code points. */
  lemma TextOfRow(r: Row)
    ensures var whole := if r.body == [] then r.title else r.title + [10, 10] + r.body;
            && Text(r) <= whole && |Text(r)| <= MAX_CHARS && (|whole| <= MAX_CHARS ==> Text(r) == whole)
            && (|whole| > MAX_CHARS ==> forall n :: |Text(r)| < n <= MAX_CHARS ==> !RuneStart(whole[n]))
  {
    var whole := if r.body == [] then r.title else r.title + [10, 10] + r.body;
    assert r.title + (if r.body == [] then [] else [10, 10] + r.body) == whole;
  }

  datatype Failure = Status(code: int) | Broken

  type Reply = Result<seq<Vector>, Failure>

  /** A 4xx other than 429: retrying the same input cannot succeed. */
  predicate IsPoison(f: Failure) { f.Status? && 400 <= f.code < 500 && f.code != 429 }

  /** One exchange with the outside world: an API call, or a database operation that worked or not. */
  datatype Exchange = Called(inputs: seq<seq<byte>>, reply: Reply) | Database(ok: bool)

  /** An outage, a rate limit, a failed query: something to retry on the next tick. */
  predicate Setback(x: Exchange) {
    match x
    case Called(_, reply) => reply.Err? && !IsPoison(reply.error)
    case Database(ok) => !ok
  }

  // ---- what may happen to a row ----

  /** The API refused this text by itself, or answered it with a vector of the wrong size. */
  predicate Condemns(x: Exchange, text: seq<byte>) {
    && x.Called?
    && match x.reply
       case Err(f) => IsPoison(f) && x.inputs == [text]
       case Ok(vs) => |vs| == |x.inputs| && exists i :: 0 <= i < |vs| && x.inputs[i] == text && |vs[i]| != DIMS
  }

  /** The API answered this text with v. */
  predicate Embeds(x: Exchange, text: seq<byte>, v: Vector) {
    && x.Called? && x.reply.Ok? && |x.reply.value| == |x.inputs| && |v| == DIMS
    && exists i :: 0 <= i < |x.inputs| && x.inputs[i] == text && x.reply.value[i] == v
  }

  function Parked(r: Row): Row { r.(model := "failed") }

  ghost predicate Settled(r: Row, after: Row, model: string, log: seq<Exchange>) {
    || (after == Parked(r) && exists x :: x in log && Condemns(x, Text(r)))
    || (after == r.(embedding := after.embedding, model := model) && after.embedding.Some?
        && exists x :: x in log && Embeds(x, Text(r), after.embedding.value))
  }

  ghost predicate RowProgress(r: Row, after: Row, model: string, log: seq<Exchange>) {
    after == r || (Waiting(r) && !Waiting(after) && Settled(r, after, model, log))
  }

  /** Over these exchanges nothing but waiting rows changed, each for a reason on record. */
  ghost predicate Progress(before: Table, after: Table, model: string, log: seq<Exchange>) {
    before.Keys == after.Keys && forall id :: id in before ==> RowProgress(before[id], after[id], model, log)
  }

  /** Drains, interrupted or not, add up. */
  lemma ProgressJoins(a: Table, b: Table, c: Table, model: string, log: seq<Exchange>, more: seq<Exchange>)
    requires Progress(a, b, model, log) && Progress(b, c, model, more)
    ensures Progress(a, c, model, log + more)
  {
    forall id | id in a ensures RowProgress(a[id], c[id], model, log + more) {
    }
  }

  // ---- the per-row result ----

  datatype Verdict = Refused | Answered(v: Vector)

  /** What the API thinks of a text, calls that failed for other reasons apart: it refuses refused
      texts sent alone, may refuse any larger batch, and otherwise answers each text with its vector. */
  ghost predicate Steady(alone: seq<byte> -> Verdict, x: Exchange) {
    Setback(x) || (x.Called? ==>
      match x.reply
      case Err(_) => |x.inputs| == 1 ==> alone(x.inputs[0]).Refused?
      case Ok(vs) => |vs| == |x.inputs| && forall i :: 0 <= i < |vs| ==> alone(x.inputs[i]) == Answered(vs[i]))
  }

  function PerRow(r: Row, model: string, alone: seq<byte> -> Verdict): Row {
    if !Waiting(r) then r else
      match alone(Text(r))
      case Refused => Parked(r)
      case Answered(v) => if |v| == DIMS then r.(embedding := Some(v), model := model) else Parked(r)
  }

  /** However many interrupted drains it took, an empty backlog means every row got what it would
      have got by itself. */
  lemma EmptyBacklogIsPerRow(before: Table, after: Table, model: string, log: seq<Exchange>,
                             alone: seq<byte> -> Verdict)
    requires Progress(before, after, model, log) && Backlog(after) == {}
    requires forall x :: x in log ==> Steady(alone, x)
    ensures after == map id | id in before :: PerRow(before[id], model, alone)
  {
    forall id | id in before ensures after[id] == PerRow(before[id], model, alone) {
      assert id in Backlog(after) <==> Waiting(after[id]);
    }
  }

  /** When the API gives every call the same answer, whatever the content: a drain that ran its
      course parks every waiting row exactly when the answer is a 4xx other than 429 (a revoked key
      answers 401), and otherwise changes no row at all. */
  lemma OneAnswerParksIff(before: Table, after: Table, model: string, log: seq<Exchange>, code: int)
    requires Progress(before, after, model, log) && Backlog(before) != {}
    requires (forall x :: x in log ==> !Setback(x)) ==> Backlog(after) == {}
    requires forall x :: x in log ==> if x.Called? then x.reply == Err(Status(code)) else x.ok
    ensures (forall id :: id in Backlog(before) ==> after[id] == Parked(before[id]))
            <==> 400 <= code < 500 && code != 429
    ensures !(400 <= code < 500 && code != 429) ==> after == before
  {
    if IsPoison(Status(code)) {
      EmptyBacklogIsPerRow(before, after, model, log, text => Refused);
    } else {
      assert (forall id :: id !in Backlog(before)) ==> Backlog(before) == {};
      forall id | id in before ensures after[id] == before[id] {
        assert RowProgress(before[id], after[id], model, log);
      }
    }
  }

  // ---- the drain ----

  /** A waiting row as listed: its id and the text to embed. */
  datatype Pending = Pending(id: int, text: seq<byte>)

  /** The first rows of the backlog, newest first. */
  ghost predicate NewestWaiting(t: Table, ids: seq<int>) {
    forall i :: 0 <= i < |ids| ==>
      && ids[i] in Backlog(t) && ids[i] !in ids[..i]
      && forall o :: o in Backlog(t) && o !in ids[..i] ==> t[o].updatedAt <= t[ids[i]].updatedAt
  }

  lemma {:induction false} NewestOf(t: Table, ids: set<int>) returns (best: int)
    requires ids != {} && ids <= t.Keys
    ensures best in ids && forall o :: o in ids ==> t[o].updatedAt <= t[best].updatedAt
    decreases ids
  {
    assert (forall id :: id !in ids) ==> ids == {};
    best :| best in ids;
    if ids != {best} {
      var other := NewestOf(t, ids - {best});
      if t[other].updatedAt > t[best].updatedAt { best := other; }
    }
  }

  method ListWaiting(t: Table) returns (ids: seq<int>)
    ensures NewestWaiting(t, ids) && |ids| <= BATCH_SIZE
    ensures |ids| < BATCH_SIZE ==> Backlog(t) == set id | id in ids
  {
    ids := [];
    var left := Backlog(t);
    while |ids| < BATCH_SIZE && left != {}
      invariant |ids| <= BATCH_SIZE && left == Backlog(t) - (set id | id in ids)
      invariant NewestWaiting(t, ids)
      invariant forall id :: id in ids ==> id in Backlog(t)
      decreases BATCH_SIZE - |ids|
    {
      ghost var newest := NewestOf(t, left);
      var id :| id in left && forall o :: o in left ==> t[o].updatedAt <= t[id].updatedAt;
      NewestSnoc(t, ids, id);
      ids := ids + [id];
      left := left - {id};
    }
    assert Backlog(t) <= left + set id | id in ids;
  }

  lemma NewestSnoc(t: Table, ids: seq<int>, id: int)
    requires NewestWaiting(t, ids) && id in Backlog(t) && id !in ids
    requires forall o :: o in Backlog(t) && o !in ids ==> t[o].updatedAt <= t[id].updatedAt
    ensures NewestWaiting(t, ids + [id])
  {
    var all := ids + [id];
    forall i | 0 <= i < |all|
      ensures all[i] in Backlog(t) && all[i] !in all[..i]
      ensures forall o :: o in Backlog(t) && o !in all[..i] ==> t[o].updatedAt <= t[all[i]].updatedAt
    {
      assert all[..i] == ids[..i];
    }
  }

  /** Listed rows still waiting, each with the text its row holds. */
  ghost predicate Fresh(t: Table, rows: seq<Pending>) {
    && (forall i :: 0 <= i < |rows| ==>
          rows[i].id in t && Waiting(t[rows[i].id]) && rows[i].text == Text(t[rows[i].id]))
    && forall i, j :: 0 <= i < j < |rows| ==> rows[i].id != rows[j].id
  }

  /** The first i rows are settled, the others untouched since before. */
  ghost predicate Going(before: Table, t: Table, model: string, log: seq<Exchange>, rows: seq<Pending>, i: int) {
    && 0 <= i <= |rows| && Fresh(before, rows) && Progress(before, t, model, log)
    && (forall j :: 0 <= j < i ==> !Waiting(t[rows[j].id]))
    && forall j :: i <= j < |rows| ==> t[rows[j].id] == before[rows[j].id]
  }

  lemma GoingSettles(before: Table, t: Table, model: string, log: seq<Exchange>, rows: seq<Pending>, i: int,
                     after: Row)
    requires Going(before, t, model, log, rows, i) && i < |rows|
    requires Settled(before[rows[i].id], after, model, log)
    ensures Going(before, t[rows[i].id := after], model, log, rows, i + 1)
  {
  }

  function MarkFailed(t: Table, id: int): Table {
    if id in t && t[id].embedding.None? then t[id := Parked(t[id])] else t
  }

  function SetEmbedding(t: Table, id: int, v: Vector, model: string): Table {
    if id in t && t[id].embedding.None? then t[id := t[id].(embedding := Some(v), model := model)] else t
  }

  class Backfill {
    const api: (nat, seq<seq<byte>>) -> Reply
    const db: nat -> bool
    const model: string
    var table: Table
    var clock: nat

    constructor (api: (nat, seq<seq<byte>>) -> Reply, db: nat -> bool, model: string, table: Table)
      ensures this.api == api && this.db == db && this.model == model && this.table == table
    {
      this.api, this.db, this.model, this.table, this.clock := api, db, model, table, 0;
    }

    /** The exchange is one the outside world gives at some moment; a reply with the wrong number
        of vectors is an error. */
    ghost predicate Real(x: Exchange) {
      match x
      case Called(inputs, reply) => exists n :: reply == Checked(api(n, inputs), |inputs|)
      case Database(ok) => exists n :: ok == db(n)
    }

    method Embed(inputs: seq<seq<byte>>) returns (reply: Reply)
      modifies this`clock
      ensures Real(Called(inputs, reply)) && (reply.Ok? ==> |reply.value| == |inputs|)
    {
      reply := Checked(api(clock, inputs), |inputs|);
      clock := clock + 1;
    }

    method SaveVec(id: int, vec: Vector) returns (ok: bool)
      modifies this`clock, this`table
      ensures Real(Database(ok))
      ensures table == if !ok then old(table)
                       else if |vec| != DIMS then MarkFailed(old(table), id)
                       else SetEmbedding(old(table), id, vec, model)
    {
      if |vec| != DIMS {
        ok := Park(id);
        return;
      }
      ok := db(clock);
      clock := clock + 1;
      if ok { table := SetEmbedding(table, id, vec, model); }
    }

    method Park(id: int) returns (ok: bool)
      modifies this`clock, this`table
      ensures Real(Database(ok)) && table == if ok then MarkFailed(old(table), id) else old(table)
    {
      ok := db(clock);
      clock := clock + 1;
      if ok { table := MarkFailed(table, id); }
    }

    method SaveAll(rows: seq<Pending>, vecs: seq<Vector>) returns (ok: bool, ghost log: seq<Exchange>)
      requires Fresh(table, rows) && |vecs| == |rows|
      modifies this`clock, this`table
      ensures ok <==> forall x :: x in log ==> !Setback(x)
      ensures forall x :: x in log ==> Real(x)
      ensures Progress(old(table), table, model, [Called(Texts(rows), Ok(vecs))] + log)
      ensures ok ==> forall j :: 0 <= j < |rows| ==> !Waiting(table[rows[j].id])
    {
      ghost var call := Called(Texts(rows), Ok(vecs));
      log := [];
      for i := 0 to |rows|
        invariant Going(old(table), table, model, [call] + log, rows, i)
        invariant forall x :: x in log ==> !Setback(x) && Real(x)
      {
        ghost var before := table;
        ok := SaveVec(rows[i].id, vecs[i]);
        assert [call] + log + [Database(ok)] == [call] + (log + [Database(ok)]);
        log := log + [Database(ok)];
        if !ok {
          assert Setback(Database(false));
          return;
        }
        SavedIsSettled(old(table)[rows[i].id], rows, vecs, i, model, [call] + log);
        GoingSettles(old(table), before, model, [call] + log, rows, i, table[rows[i].id]);
      }
      ok := true;
    }

    /** One row of the fallback loop. */
    method EmbedOne(p: Pending) returns (ok: bool, ghost log: seq<Exchange>)
      requires Fresh(table, [p])
      modifies this`clock, this`table
      ensures ok <==> forall x :: x in log ==> !Setback(x)
      ensures forall x :: x in log ==> Real(x)
      ensures p.id in table && p.id in old(table) && table == old(table)[p.id := table[p.id]]
      ensures if ok then Settled(old(table)[p.id], table[p.id], model, log) else table == old(table)
    {
      assert [p][0] == p;
      var reply := Embed([p.text]);
      ghost var call := Called([p.text], reply);
      log := [call];
      if reply.Err? {
        if !IsPoison(reply.error) {
          assert Setback(call) && call in log;
          return false, log;
        }
        ok := Park(p.id);
        assert Condemns(call, p.text);
      } else {
        ok := SaveVec(p.id, reply.value[0]);
        assert Texts([p]) == [p.text];
        SavedIsSettled(old(table)[p.id], [p], reply.value, 0, model, [call, Database(ok)]);
      }
      log := [call, Database(ok)];
      assert Setback(Database(false)) && call in log && Database(ok) in log;
    }

    method EmbedRowsIndividually(rows: seq<Pending>) returns (ok: bool, ghost log: seq<Exchange>)
      requires Fresh(table, rows)
      modifies this`clock, this`table
      ensures ok <==> forall x :: x in log ==> !Setback(x)
      ensures forall x :: x in log ==> Real(x)
      ensures Progress(old(table), table, model, log)
      ensures ok ==> forall j :: 0 <= j < |rows| ==> !Waiting(table[rows[j].id])
    {
      log := [];
      for i := 0 to |rows|
        invariant Going(old(table), table, model, log, rows, i)
        invariant forall x :: x in log ==> !Setback(x) && Real(x)
      {
        ghost var before := table;
        ghost var part;
        ok, part := EmbedOne(rows[i]);
        log := log + part;
        if !ok {
          return;
        }
        GoingSettles(old(table), before, model, log, rows, i, table[rows[i].id]);
      }
      ok := true;
    }

    method EmbedBatch(rows: seq<Pending>) returns (ok: bool, ghost log: seq<Exchange>)
      requires Fresh(table, rows)
      modifies this`clock, this`table
      ensures ok <==> forall x :: x in log ==> !Setback(x)
      ensures forall x :: x in log ==> Real(x)
      ensures Progress(old(table), table, model, log)
      ensures ok ==> forall j :: 0 <= j < |rows| ==> !Waiting(table[rows[j].id])
    {
      var inputs := Texts(rows);
      var reply := Embed(inputs);
      ghost var call := Called(inputs, reply);
      ghost var rest := [];
      if reply.Err? {
        if !IsPoison(reply.error) {
          log := [call];
          assert Setback(call) && call in log;
          return false, log;
        }
        ok, rest := EmbedRowsIndividually(rows);
        ProgressJoins(old(table), old(table), table, model, [call], rest);
      } else {
        ok, rest := SaveAll(rows, reply.value);
      }
      log := [call] + rest;
      assert call in log && forall x :: x in rest ==> x in log;
    }

    method NextBatch() returns (rows: Result<seq<Pending>, ()>, ghost log: seq<Exchange>)
      modifies this`clock
      ensures log == [Database(rows.Ok?)] && Real(log[0])
      ensures rows.Ok? ==>
                && Fresh(table, rows.value) && |rows.value| <= BATCH_SIZE
                && NewestWaiting(table, seq(|rows.value|, i requires 0 <= i < |rows.value| => rows.value[i].id))
                && (|rows.value| < BATCH_SIZE ==> Backlog(table) <= set p | p in rows.value :: p.id)
    {
      var ok := db(clock);
      clock := clock + 1;
      log := [Database(ok)];
      if !ok {
        return Err(()), log;
      }
      var ids := ListWaiting(table);
      var batch := Load(table, ids);
      assert ids == seq(|batch|, i requires 0 <= i < |batch| => batch[i].id);
      rows := Ok(batch);
    }

    /** Drain until the backlog is empty or something says to try again on the next tick. */
    method DrainBacklog() returns (done: bool, ghost log: seq<Exchange>)
      modifies this`clock, this`table
      ensures done <==> forall x :: x in log ==> !Setback(x)
      ensures done ==> Backlog(table) == {}
      ensures forall x :: x in log ==> Real(x)
      ensures Progress(old(table), table, model, log)
    {
      log := [];
      while true
        invariant Progress(old(table), table, model, log)
        invariant forall x :: x in log ==> !Setback(x) && Real(x)
        decreases Backlog(table)
      {
        ghost var start := table;
        ghost var listed, handled;
        var rows, ok;
        rows, listed := NextBatch();
        ProgressJoins(old(table), table, table, model, log, listed);
        log := log + listed;
        if rows.Err? {
          assert Setback(log[|log| - 1]);
          return false, log;
        }
        if rows.value == [] {
          return true, log;
        }
        ok, handled := EmbedBatch(rows.value);
        ProgressJoins(old(table), start, table, model, log, handled);
        assert forall x :: x in handled ==> x in log + handled;
        log := log + handled;
        if !ok {
          return false, log;
        }
        BatchLeaves(start, table, model, handled, rows.value);
        if |rows.value| < BATCH_SIZE {
          return true, log;
        }
      }
    }
  }

  /** The listed rows with their texts. */
  method Load(t: Table, ids: seq<int>) returns (rows: seq<Pending>)
    requires forall i :: 0 <= i < |ids| ==> ids[i] in t
    ensures |rows| == |ids| && forall i :: 0 <= i < |ids| ==> rows[i] == Pending(ids[i], Text(t[ids[i]]))
  {
    rows := [];
    for i := 0 to |ids|
      invariant |rows| == i && forall j :: 0 <= j < i ==> rows[j] == Pending(ids[j], Text(t[ids[j]]))
    {
      var r := t[ids[i]];
      var text := EmbedText(r.title, r.body);
      rows := rows + [Pending(ids[i], text)];
    }
  }

  method EmbedText(title: seq<byte>, body: seq<byte>) returns (text: seq<byte>)
    ensures text == Trunc(title + if body == [] then [] else [10, 10] + body, MAX_CHARS)
  {
    text := title;
    assert title + [] == title;
    if body != [] {
      text := text + ([10, 10] + body);
    }
    text := TruncBytes(text, MAX_CHARS);
  }

  /** A handled batch leaves the backlog for good, and nothing joins it. */
  lemma BatchLeaves(before: Table, after: Table, model: string, log: seq<Exchange>, rows: seq<Pending>)
    requires Fresh(before, rows) && rows != [] && Progress(before, after, model, log)
    requires forall j :: 0 <= j < |rows| ==> !Waiting(after[rows[j].id])
    ensures Backlog(after) <= Backlog(before) - set p | p in rows :: p.id
    ensures Backlog(after) < Backlog(before)
  {
    forall id | id in Backlog(after) ensures id in Backlog(before) {
      assert RowProgress(before[id], after[id], model, log);
    }
    forall p | p in rows ensures p.id !in Backlog(after) {
      var j :| 0 <= j < |rows| && rows[j] == p;
    }
    assert rows[0].id in Backlog(before) && rows[0].id !in Backlog(after);
  }

  function Checked(r: Reply, count: nat): Reply {
    if r.Ok? && |r.value| != count then Err(Broken) else r
  }

  function Texts(rows: seq<Pending>): seq<seq<byte>> { seq(|rows|, i requires 0 <= i < |rows| => rows[i].text) }

  /** What SaveVec leaves of a waiting row. */
  function Saved(r: Row, v: Vector, model: string): Row {
    if |v| != DIMS then Parked(r) else r.(embedding := Some(v), model := model)
  }

  lemma SavedIsSettled(r: Row, rows: seq<Pending>, vecs: seq<Vector>, i: nat, model: string, log: seq<Exchange>)
    requires |vecs| == |rows| && i < |rows| && rows[i].text == Text(r)
    requires Called(Texts(rows), Ok(vecs)) in log
    ensures Settled(r, Saved(r, vecs[i], model), model, log)
  {
    var x := Called(Texts(rows), Ok(vecs));
    assert x.inputs[i] == Text(r) && x.reply.value[i] == vecs[i];
    if |vecs[i]| != DIMS { assert Condemns(x, Text(r)); } else { assert Embeds(x, Text(r), vecs[i]); }
  }

  /** No outage, and one opinion on each text. */
  ghost predicate SteadyWorld(w: Backfill, alone: seq<byte> -> Verdict) {
    && (forall n :: w.db(n))
    && forall n, inputs ::
         var x := Called(inputs, Checked(w.api(n, inputs), |inputs|)); !Setback(x) && Steady(alone, x)
  }

  /** With no transient failure one drain ends with an empty backlog and the per-row result. */
  method SteadyDrain(w: Backfill, ghost alone: seq<byte> -> Verdict)
    requires SteadyWorld(w, alone)
    modifies w
    ensures Backlog(w.table) == {}
    ensures w.table == map id | id in old(w.table) :: PerRow(old(w.table)[id], w.model, alone)
  {
    var done, log := w.DrainBacklog();
    forall x | x in log ensures !Setback(x) && Steady(alone, x) {
      assert w.Real(x);
    }
    EmptyBacklogIsPerRow(old(w.table), w.table, w.model, log, alone);
  }

  /** The drain itself against such an API. */
  method DrainUnderOneAnswer(w: Backfill, code: int)
    requires forall n, inputs :: w.api(n, inputs) == Err(Status(code))
    requires forall n :: w.db(n)
    modifies w
    ensures w.table == map id | id in old(w.table) ::
              if Waiting(old(w.table)[id]) && 400 <= code < 500 && code != 429 then Parked(old(w.table)[id])
              else old(w.table)[id]
  {
    ghost var before := w.table;
    var done, log := w.DrainBacklog();
    forall x | x in log ensures if x.Called? then x.reply == Err(Status(code)) else x.ok {
      assert w.Real(x);
    }
    if IsPoison(Status(code)) {
      EmptyBacklogIsPerRow(before, w.table, w.model, log, text => Refused);
    } else if Backlog(before) != {} {
      OneAnswerParksIff(before, w.table, w.model, log, code);
    } else {
      forall id | id in before ensures w.table[id] == before[id] {
        assert RowProgress(before[id], w.table[id], w.model, log);
        assert Waiting(before[id]) ==> id in Backlog(before);
      }
    }
  }
}
