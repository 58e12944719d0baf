/** Reciprocal-rank fusion of ranked result lists, over exact reals. */
module RankFusion {
  import opened Prelude

  const DAMPING := 60

  function Weight(rank: nat): real { 1.0 / (DAMPING + rank) as real }

  // ---- the definition ----

  /** What one list gives a key: 1/(60+rank) for each place it stands at. */
  function ListScore<T, K(==)>(key: T -> K, list: seq<T>, k: K): real {
    if list == [] then 0.0
    else
      var n := |list| - 1;
      ListScore(key, list[..n], k) + if key(list[n]) == k then Weight(n) else 0.0
  }

  function Score<T, K(==)>(key: T -> K, lists: seq<seq<T>>, k: K): real {
    if lists == [] then 0.0
    else Score(key, lists[..|lists| - 1], k) + ListScore(key, lists[|lists| - 1], k)
  }

  function Flat<T>(lists: seq<seq<T>>): seq<T> {
    if lists == [] then [] else Flat(lists[..|lists| - 1]) + lists[|lists| - 1]
  }

  /** The index of the first row with key k, or the length. */
  function FirstIndex<T, K(==)>(key: T -> K, rows: seq<T>, k: K): nat {
    if rows == [] then 0
    else if key(rows[0]) == k then 0
    else 1 + FirstIndex(key, rows[1..], k)
  }

  /** The rows that are the first with their key. */
  function Firsts<T, K(==)>(key: T -> K, rows: seq<T>): seq<T> {
    if rows == [] then []
    else
      var n := |rows| - 1;
      if HasKey(key, rows[..n], key(rows[n])) then Firsts(key, rows[..n]) else Firsts(key, rows[..n]) + [rows[n]]
  }

  predicate HasKey<T, K(==)>(key: T -> K, rows: seq<T>, k: K) {
    exists i :: 0 <= i < |rows| && key(rows[i]) == k
  }

  predicate DistinctRows<T, K(==)>(key: T -> K, rows: seq<T>) {
    forall i, j :: 0 <= i < j < |rows| ==> key(rows[i]) != key(rows[j])
  }

  /** x is ranked before y: a higher score, or an equal one and an earlier first appearance. */
  predicate Before<T, K(==)>(key: T -> K, lists: seq<seq<T>>, x: T, y: T) {
    var sx, sy := Score(key, lists, key(x)), Score(key, lists, key(y));
    sx > sy || (sx == sy && FirstIndex(key, Flat(lists), key(x)) < FirstIndex(key, Flat(lists), key(y)))
  }

  /** out is the fusion of the lists: the first row of every key, once each, in rank order. */
  ghost predicate Fused<T(!new), K>(key: T -> K, lists: seq<seq<T>>, out: seq<T>) {
    && multiset(out) == multiset(Firsts(key, Flat(lists)))
    && forall i, j :: 0 <= i < j < |out| ==> Before(key, lists, out[i], out[j])
  }

  // ---- facts about first appearances ----

  lemma HasKeyConcat<T, K>(key: T -> K, a: seq<T>, b: seq<T>, k: K)
    ensures HasKey(key, a + b, k) <==> HasKey(key, a, k) || HasKey(key, b, k)
  {
    var all := a + b;
    if HasKey(key, a, k) {
      var i :| 0 <= i < |a| && key(a[i]) == k;
      assert key(all[i]) == k;
    }
    if HasKey(key, b, k) {
      var i :| 0 <= i < |b| && key(b[i]) == k;
      assert key(all[|a| + i]) == k;
    }
    if HasKey(key, all, k) {
      var i :| 0 <= i < |all| && key(all[i]) == k;
      if i < |a| { assert key(a[i]) == k; } else { assert key(b[i - |a|]) == k; }
    }
  }

  lemma HasKeyOne<T, K>(key: T -> K, v: T, k: K)
    ensures HasKey(key, [v], k) <==> key(v) == k
  {
    if key(v) == k { assert key([v][0]) == k; }
  }

  lemma {:induction false} FirstsFacts<T, K>(key: T -> K, rows: seq<T>)
    ensures DistinctRows(key, Firsts(key, rows))
    ensures forall k :: HasKey(key, Firsts(key, rows), k) <==> HasKey(key, rows, k)
  {
    if rows != [] {
      var n := |rows| - 1;
      var before, v := rows[..n], rows[n];
      var f := Firsts(key, before);
      FirstsFacts(key, before);
      assert rows == before + [v];
      forall k ensures HasKey(key, Firsts(key, rows), k) <==> HasKey(key, rows, k) {
        HasKeyConcat(key, before, [v], k);
        HasKeyConcat(key, f, [v], k);
        HasKeyOne(key, v, k);
      }
      if !HasKey(key, before, key(v)) {
        assert forall i :: 0 <= i < |f| ==> HasKey(key, f, key(f[i]));
      }
    }
  }

  lemma {:induction false} FirstIndexFound<T, K>(key: T -> K, rows: seq<T>, k: K)
    ensures FirstIndex(key, rows, k) <= |rows|
    ensures HasKey(key, rows, k) <==> FirstIndex(key, rows, k) < |rows|
    ensures HasKey(key, rows, k) ==> key(rows[FirstIndex(key, rows, k)]) == k
  {
    if rows != [] {
      assert rows == [rows[0]] + rows[1..];
      HasKeyConcat(key, [rows[0]], rows[1..], k);
      HasKeyOne(key, rows[0], k);
      FirstIndexFound(key, rows[1..], k);
    }
  }

  lemma {:induction false} FirstIndexAppend<T, K>(key: T -> K, rows: seq<T>, more: seq<T>, k: K)
    ensures FirstIndex(key, rows + more, k)
            == if HasKey(key, rows, k) then FirstIndex(key, rows, k) else |rows| + FirstIndex(key, more, k)
  {
    if rows == [] {
      assert rows + more == more;
    } else {
      assert (rows + more)[1..] == rows[1..] + more;
      assert rows == [rows[0]] + rows[1..];
      HasKeyConcat(key, [rows[0]], rows[1..], k);
      HasKeyOne(key, rows[0], k);
      FirstIndexAppend(key, rows[1..], more, k);
    }
  }

  // ---- the definition determines the output ----

  ghost predicate OrderedBy<T>(before: (T, T) -> bool, a: seq<T>) {
    forall i, j :: 0 <= i < j < |a| ==> before(a[i], a[j])
  }

  lemma OrderedHead<T(!new)>(before: (T, T) -> bool, a: seq<T>, b: seq<T>)
    requires forall x, y :: before(x, y) ==> !before(y, x)
    requires multiset(a) == multiset(b) && OrderedBy(before, a) && OrderedBy(before, b)
    requires a != [] && b != []
    ensures a[0] == b[0]
  {
    assert a[0] in multiset(b) && b[0] in multiset(a);
    var i :| 0 <= i < |b| && b[i] == a[0];
    var j :| 0 <= j < |a| && a[j] == b[0];
    assert i == 0 || j == 0;
  }

  lemma TailMultiset<T>(a: seq<T>)
    requires a != []
    ensures multiset(a[1..]) == multiset(a) - multiset{a[0]}
  {
    assert a == [a[0]] + a[1..];
  }

  lemma {:induction false} OrderedUnique<T(!new)>(before: (T, T) -> bool, a: seq<T>, b: seq<T>)
    requires forall x, y :: before(x, y) ==> !before(y, x)
    requires multiset(a) == multiset(b) && OrderedBy(before, a) && OrderedBy(before, b)
    ensures a == b
    decreases |a|
  {
    assert |a| == |multiset(a)| && |multiset(b)| == |b|;
    if a != [] && b != [] {
      OrderedHead(before, a, b);
      TailMultiset(a);
      TailMultiset(b);
      OrderedUnique(before, a[1..], b[1..]);
    }
  }

  /** There is at most one fusion of given lists. */
  lemma FusionUnique<T(!new), K(!new)>(key: T -> K, lists: seq<seq<T>>, a: seq<T>, b: seq<T>)
    requires Fused(key, lists, a) && Fused(key, lists, b)
    ensures a == b
  {
    OrderedUnique((x, y) => Before(key, lists, x, y), a, b);
  }

  // ---- rrfMerge ----

  datatype Scored<T> = Scored(val: T, score: real, seen: nat)

  function Vals<T>(order: seq<Scored<T>>): seq<T> { seq(|order|, i requires 0 <= i < |order| => order[i].val) }

  predicate RanksBefore<T>(x: Scored<T>, y: Scored<T>) {
    x.score > y.score || (x.score == y.score && x.seen < y.seen)
  }

  /** Stable descending sort, standing for sort.SliceStable: each row goes behind the rows
      already placed that do not score less. */
  function InsertScored<T>(sorted: seq<Scored<T>>, x: Scored<T>): seq<Scored<T>> {
    if sorted == [] then [x]
    else
      var n := |sorted| - 1;
      if sorted[n].score < x.score then InsertScored(sorted[..n], x) + [sorted[n]] else sorted + [x]
  }

  function SortStable<T>(order: seq<Scored<T>>): seq<Scored<T>> {
    if order == [] then []
    else InsertScored(SortStable(order[..|order| - 1]), order[|order| - 1])
  }

  lemma {:induction false} InsertScoredKeeps<T>(sorted: seq<Scored<T>>, x: Scored<T>)
    ensures multiset(InsertScored(sorted, x)) == multiset(sorted) + multiset{x}
  {
    if sorted != [] {
      var n := |sorted| - 1;
      assert sorted == sorted[..n] + [sorted[n]];
      if sorted[n].score < x.score { InsertScoredKeeps(sorted[..n], x); }
    }
  }

  ghost predicate Ranked<T>(s: seq<Scored<T>>) {
    forall i, j :: 0 <= i < j < |s| ==> RanksBefore(s[i], s[j])
  }

  lemma {:induction false} InsertScoredRanks<T>(sorted: seq<Scored<T>>, x: Scored<T>)
    requires Ranked(sorted)
    requires forall y :: y in sorted ==> y.seen < x.seen
    ensures Ranked(InsertScored(sorted, x))
    ensures forall y :: y in InsertScored(sorted, x) ==> y == x || y in sorted
  {
    if sorted != [] {
      var n := |sorted| - 1;
      var rest := sorted[..n];
      if sorted[n].score < x.score {
        InsertScoredRanks(rest, x);
        var r := InsertScored(rest, x);
        forall i | 0 <= i < |r| ensures RanksBefore(r[i], sorted[n]) {
          assert r[i] == x || r[i] in rest;
        }
      } else {
        forall i | 0 <= i < |sorted| ensures RanksBefore(sorted[i], x) {
          assert sorted[i] in sorted && (i < n ==> RanksBefore(sorted[i], sorted[n]));
        }
      }
    }
  }

  lemma SameMembers<T>(a: seq<T>, b: seq<T>)
    requires multiset(a) == multiset(b)
    ensures forall y :: y in a ==> y in b
  {
    forall y | y in a ensures y in b {
      assert y in multiset(b);
    }
  }

  lemma {:induction false} SortStableSorts<T>(order: seq<Scored<T>>)
    requires forall i :: 0 <= i < |order| ==> order[i].seen == i
    ensures multiset(SortStable(order)) == multiset(order)
    ensures Ranked(SortStable(order))
  {
    if order != [] {
      var n := |order| - 1;
      var rest := order[..n];
      SortStableSorts(rest);
      var r := SortStable(rest);
      SameMembers(r, rest);
      InsertScoredRanks(r, order[n]);
      InsertScoredKeeps(r, order[n]);
      assert order == rest + [order[n]];
    }
  }

  lemma ValsSnoc<T>(s: seq<Scored<T>>, x: Scored<T>)
    ensures Vals(s + [x]) == Vals(s) + [x.val]
  {
  }

  lemma {:induction false} InsertKeepsVals<T>(sorted: seq<Scored<T>>, x: Scored<T>)
    ensures multiset(Vals(InsertScored(sorted, x))) == multiset(Vals(sorted)) + multiset{x.val}
  {
    if sorted == [] {
      assert Vals(sorted) == [] && Vals([x]) == [x.val];
    } else {
      var n := |sorted| - 1;
      assert sorted == sorted[..n] + [sorted[n]];
      ValsSnoc(sorted[..n], sorted[n]);
      ValsSnoc(sorted, x);
      ValsSnoc(InsertScored(sorted[..n], x), sorted[n]);
      InsertKeepsVals(sorted[..n], x);
    }
  }

  lemma {:induction false} SortKeepsVals<T>(order: seq<Scored<T>>)
    ensures multiset(Vals(SortStable(order))) == multiset(Vals(order))
  {
    if order != [] {
      var n := |order| - 1;
      assert order == order[..n] + [order[n]];
      SortKeepsVals(order[..n]);
      InsertKeepsVals(SortStable(order[..n]), order[n]);
      ValsSnoc(order[..n], order[n]);
    }
  }

  /** The scoreboard after the first lists and the first rows of one more list. */
  ghost predicate Board<T(!new), K(!new)>(key: T -> K, lists: seq<seq<T>>, part: seq<T>,
                                          byKey: map<K, nat>, order: seq<Scored<T>>)
  {
    && Vals(order) == Firsts(key, Flat(lists) + part)
    && Indexed(key, byKey, order)
    && Tallied(key, lists, part, order)
  }

  /** Every entry holds the score its key has earned so far. */
  ghost predicate Tallied<T, K>(key: T -> K, lists: seq<seq<T>>, part: seq<T>, order: seq<Scored<T>>) {
    forall i :: 0 <= i < |order| ==>
      order[i].score == Score(key, lists, key(order[i].val)) + ListScore(key, part, key(order[i].val))
  }

  /** The map finds every entry by its key, and entries know their place. */
  ghost predicate Indexed<T(!new), K(!new)>(key: T -> K, byKey: map<K, nat>, order: seq<Scored<T>>) {
    && (forall i :: 0 <= i < |order| ==>
          order[i].seen == i && key(order[i].val) in byKey && byKey[key(order[i].val)] == i)
    && (forall k :: k in byKey ==> byKey[k] < |order| && key(order[byKey[k]].val) == k)
  }

  lemma {:induction false} NoScore<T, K>(key: T -> K, list: seq<T>, k: K)
    requires !HasKey(key, list, k)
    ensures ListScore(key, list, k) == 0.0
  {
    if list != [] {
      var n := |list| - 1;
      assert list == list[..n] + [list[n]];
      HasKeyConcat(key, list[..n], [list[n]], k);
      HasKeyOne(key, list[n], k);
      NoScore(key, list[..n], k);
    }
  }

  lemma {:induction false} NoScoreAtAll<T, K>(key: T -> K, lists: seq<seq<T>>, k: K)
    requires !HasKey(key, Flat(lists), k)
    ensures Score(key, lists, k) == 0.0
  {
    if lists != [] {
      var before, last := lists[..|lists| - 1], lists[|lists| - 1];
      HasKeyConcat(key, Flat(before), last, k);
      NoScoreAtAll(key, before, k);
      NoScore(key, last, k);
    }
  }

  lemma BoardKnows<T(!new), K(!new)>(key: T -> K, lists: seq<seq<T>>, part: seq<T>, k: K,
                                     byKey: map<K, nat>, order: seq<Scored<T>>)
    requires Board(key, lists, part, byKey, order)
    ensures k in byKey <==> HasKey(key, Flat(lists) + part, k)
  {
    var f := Firsts(key, Flat(lists) + part);
    FirstsFacts(key, Flat(lists) + part);
    if HasKey(key, f, k) {
      var i :| 0 <= i < |f| && key(f[i]) == k;
      assert key(order[i].val) == k;
    }
    if k in byKey { assert key(f[byKey[k]]) == k; }
  }

  /** A row whose key is on the board adds to its score. */
  lemma BoardHit<T(!new), K(!new)>(key: T -> K, lists: seq<seq<T>>, part: seq<T>, v: T,
                                   byKey: map<K, nat>, order: seq<Scored<T>>, order': seq<Scored<T>>)
    requires Board(key, lists, part, byKey, order) && key(v) in byKey
    requires order' == order[byKey[key(v)] := order[byKey[key(v)]].(score := order[byKey[key(v)]].score + Weight(|part|))]
    ensures Board(key, lists, part + [v], byKey, order')
  {
    BoardKnows(key, lists, part, key(v), byKey, order);
    var rows := Flat(lists) + part;
    assert Flat(lists) + (part + [v]) == rows + [v] && (rows + [v])[..|rows|] == rows;
    assert Vals(order') == Vals(order);
    forall i | 0 <= i < |order'|
      ensures order'[i].score == Score(key, lists, key(order'[i].val)) + ListScore(key, part + [v], key(order'[i].val))
    {
    }
  }

  lemma TallyMiss<T, K>(key: T -> K, lists: seq<seq<T>>, part: seq<T>, v: T, order: seq<Scored<T>>, x: Scored<T>)
    requires Tallied(key, lists, part, order) && !HasKey(key, Flat(lists) + part, key(v))
    requires forall i :: 0 <= i < |order| ==> key(order[i].val) != key(v)
    requires x.val == v && x.score == Weight(|part|)
    ensures Tallied(key, lists, part + [v], order + [x])
  {
    HasKeyConcat(key, Flat(lists), part, key(v));
    NoScoreAtAll(key, lists, key(v));
    NoScore(key, part, key(v));
    forall i | 0 <= i < |order + [x]|
      ensures var y := (order + [x])[i];
        y.score == Score(key, lists, key(y.val)) + ListScore(key, part + [v], key(y.val))
    {
    }
  }

  lemma FirstsMiss<T, K>(key: T -> K, rows: seq<T>, v: T)
    requires !HasKey(key, rows, key(v))
    ensures Firsts(key, rows + [v]) == Firsts(key, rows) + [v]
  {
    assert (rows + [v])[..|rows|] == rows;
  }

  lemma IndexMiss<T(!new), K(!new)>(key: T -> K, byKey: map<K, nat>, order: seq<Scored<T>>, x: Scored<T>)
    requires Indexed(key, byKey, order) && key(x.val) !in byKey && x.seen == |order|
    ensures Indexed(key, byKey[key(x.val) := |order|], order + [x])
  {
  }

  /** A row with a new key gets a place of its own. */
  lemma BoardMiss<T(!new), K(!new)>(key: T -> K, lists: seq<seq<T>>, part: seq<T>, v: T,
                                    byKey: map<K, nat>, order: seq<Scored<T>>)
    requires Board(key, lists, part, byKey, order) && key(v) !in byKey
    ensures Board(key, lists, part + [v], byKey[key(v) := |order|], order + [Scored(v, Weight(|part|), |order|)])
  {
    BoardKnows(key, lists, part, key(v), byKey, order);
    var x := Scored(v, Weight(|part|), |order|);
    assert Flat(lists) + (part + [v]) == (Flat(lists) + part) + [v];
    FirstsMiss(key, Flat(lists) + part, v);
    ValsSnoc(order, x);
    IndexMiss(key, byKey, order, x);
    TallyMiss(key, lists, part, v, order, x);
  }

  /** Rows of a finished scoreboard sort into the fusion. */
  lemma BoardFuses<T(!new), K(!new)>(key: T -> K, lists: seq<seq<T>>, byKey: map<K, nat>, order: seq<Scored<T>>)
    requires Board(key, lists, [], byKey, order)
    ensures Fused(key, lists, Vals(SortStable(order)))
  {
    var r := SortStable(order);
    SortStableSorts(order);
    SortKeepsVals(order);
    assert Flat(lists) + [] == Flat(lists);
    forall i, j | 0 <= i < j < |r| ensures Before(key, lists, Vals(r)[i], Vals(r)[j]) {
      assert RanksBefore(r[i], r[j]);
      assert r[i] in multiset(order) && r[j] in multiset(order);
      var a :| 0 <= a < |order| && order[a] == r[i];
      var b :| 0 <= b < |order| && order[b] == r[j];
      FirstsInOrder(key, Flat(lists), a, b);
    }
  }

  /** Firsts lists its rows in order of first appearance. */
  lemma {:induction false} FirstsInOrder<T, K>(key: T -> K, rows: seq<T>, a: nat, b: nat)
    requires a < |Firsts(key, rows)| && b < |Firsts(key, rows)|
    ensures a < b <==> FirstIndex(key, rows, key(Firsts(key, rows)[a])) < FirstIndex(key, rows, key(Firsts(key, rows)[b]))
  {
    var n := |rows| - 1;
    var before, f := rows[..n], Firsts(key, rows[..n]);
    assert rows == before + [rows[n]];
    FirstsFacts(key, before);
    var ka, kb := key(Firsts(key, rows)[a]), key(Firsts(key, rows)[b]);
    FirstIndexAppend(key, before, [rows[n]], ka);
    FirstIndexAppend(key, before, [rows[n]], kb);
    if a < |f| { assert HasKey(key, f, ka); FirstIndexFound(key, before, ka); }
    if b < |f| { assert HasKey(key, f, kb); FirstIndexFound(key, before, kb); }
    if a < |f| && b < |f| { FirstsInOrder(key, before, a, b); }
  }

  lemma BoardListDone<T(!new), K(!new)>(key: T -> K, lists: seq<seq<T>>, list: seq<T>,
                                        byKey: map<K, nat>, order: seq<Scored<T>>)
    requires Board(key, lists, list, byKey, order)
    ensures Board(key, lists + [list], [], byKey, order)
  {
    assert (lists + [list])[..|lists|] == lists;
    assert Flat(lists + [list]) + [] == Flat(lists) + list;
  }

  /** The inner loop: one more list onto the scoreboard. */
  method AddList<T(!new), K(==, !new)>(key: T -> K, ghost lists: seq<seq<T>>, list: seq<T>,
                                       byKey0: map<K, nat>, order0: seq<Scored<T>>)
    returns (byKey: map<K, nat>, order: seq<Scored<T>>)
    requires Board(key, lists, [], byKey0, order0)
    ensures Board(key, lists + [list], [], byKey, order)
  {
    byKey, order := byKey0, order0;
    var rank := 0;
    assert list[..0] == [];
    while rank < |list|
      invariant 0 <= rank <= |list|
      invariant Board(key, lists, list[..rank], byKey, order)
    {
      var v := list[rank];
      assert list[..rank + 1] == list[..rank] + [v];
      ghost var oldByKey, oldOrder := byKey, order;
      var k := key(v);
      if k !in byKey {
        BoardMiss(key, lists, list[..rank], v, byKey, order);
        byKey := byKey[k := |order|];
        order := order + [Scored(v, 0.0, |order|)];
      }
      var sc := order[byKey[k]];
      order := order[byKey[k] := sc.(score := sc.score + 1.0 / (DAMPING + rank) as real)];
      if k in oldByKey {
        BoardHit(key, lists, list[..rank], v, oldByKey, oldOrder, order);
      } else {
        assert order == oldOrder + [Scored(v, Weight(rank), |oldOrder|)];
      }
      rank := rank + 1;
    }
    assert list[..rank] == list;
    BoardListDone(key, lists, list, byKey, order);
  }

  method RrfMerge<T(!new), K(==, !new)>(key: T -> K, lists: seq<seq<T>>) returns (out: seq<T>)
    ensures Fused(key, lists, out)
  {
    var byKey: map<K, nat> := map[];
    var order: seq<Scored<T>> := [];
    var i := 0;
    assert Vals(order) == [] && Flat(lists[..0]) + [] == [];
    while i < |lists|
      invariant 0 <= i <= |lists|
      invariant Board(key, lists[..i], [], byKey, order)
    {
      byKey, order := AddList(key, lists[..i], lists[i], byKey, order);
      assert lists[..i + 1] == lists[..i] + [lists[i]];
      i := i + 1;
    }
    assert lists[..i] == lists;
    BoardFuses(key, lists, byKey, order);
    out := Vals(SortStable(order));
  }

  // ---- what fusion promises about rankings ----

  lemma WeightDecreases(a: nat, b: nat)
    requires a < b
    ensures 0.0 < Weight(b) < Weight(a)
  {
    var x, y := (DAMPING + a) as real, (DAMPING + b) as real;
    assert 0.0 < x < y;
    assert 1.0 / x - 1.0 / y == (y - x) / (x * y);
  }

  lemma {:induction false} SingleScore<T, K>(key: T -> K, list: seq<T>, i: nat)
    requires DistinctRows(key, list) && i < |list|
    ensures ListScore(key, list, key(list[i])) == Weight(i)
  {
    var n := |list| - 1;
    if i == n {
      NoScore(key, list[..n], key(list[n]));
    } else {
      SingleScore(key, list[..n], i);
    }
  }

  lemma {:induction false} DistinctFirsts<T, K>(key: T -> K, rows: seq<T>)
    requires DistinctRows(key, rows)
    ensures Firsts(key, rows) == rows
  {
    if rows != [] {
      var n := |rows| - 1;
      DistinctFirsts(key, rows[..n]);
      assert rows == rows[..n] + [rows[n]];
    }
  }

  lemma OneListOrdered<T, K>(key: T -> K, list: seq<T>, i: nat, j: nat)
    requires DistinctRows(key, list) && i < j < |list|
    ensures Score(key, [list], key(list[i])) > Score(key, [list], key(list[j]))
  {
    assert [list][..0] == [];
    SingleScore(key, list, i);
    SingleScore(key, list, j);
    WeightDecreases(i, j);
  }

  lemma OneListFused<T(!new), K(!new)>(key: T -> K, list: seq<T>)
    requires DistinctRows(key, list)
    ensures Fused(key, [list], list)
  {
    assert Flat([list]) == list by { assert [list][..0] == [] && [] + list == list; }
    DistinctFirsts(key, list);
    forall i, j | 0 <= i < j < |list| ensures Before(key, [list], list[i], list[j]) {
      OneListOrdered(key, list, i, j);
    }
  }

  /** Fusing one list without duplicates gives it back. */
  lemma FusingOneList<T(!new), K(!new)>(key: T -> K, list: seq<T>, out: seq<T>)
    requires DistinctRows(key, list) && Fused(key, [list], out)
    ensures out == list
  {
    OneListFused(key, list);
    FusionUnique(key, [list], out, list);
  }

  /** In how many lists a key stands. */
  function Votes<T, K(==)>(key: T -> K, lists: seq<seq<T>>, k: K): nat {
    if lists == [] then 0
    else Votes(key, lists[..|lists| - 1], k) + if HasKey(key, lists[|lists| - 1], k) then 1 else 0
  }

  lemma VoteWorth<T, K>(key: T -> K, list: seq<T>, k: K, max: nat)
    requires DistinctRows(key, list) && |list| <= max && HasKey(key, list, k)
    ensures max > 0 && Weight(max - 1) <= ListScore(key, list, k) <= Weight(0)
  {
    var i :| 0 <= i < |list| && key(list[i]) == k;
    SingleScore(key, list, i);
    if 0 < i { WeightDecreases(0, i); }
    if i < max - 1 { WeightDecreases(i, max - 1); }
  }

  /** What votes are worth at w each. */
  function Worth(votes: nat, w: real): real { votes as real * w }

  lemma OneMore(v: nat, w: real)
    ensures Worth(v + 1, w) == Worth(v, w) + w
  {
    assert (v + 1) as real == v as real + 1.0;
  }

  ghost predicate Bounded<T(!new), K(!new)>(key: T -> K, lists: seq<seq<T>>, k: K, low: real, high: real) {
    Worth(Votes(key, lists, k), low) <= Score(key, lists, k) <= Worth(Votes(key, lists, k), high)
  }

  lemma BoundStep<T(!new), K(!new)>(key: T -> K, before: seq<seq<T>>, last: seq<T>, k: K, max: nat)
    requires max > 0 && DistinctRows(key, last) && |last| <= max
    requires Bounded(key, before, k, Weight(max - 1), Weight(0))
    ensures Bounded(key, before + [last], k, Weight(max - 1), Weight(0))
  {
    assert (before + [last])[..|before|] == before;
    if HasKey(key, last, k) {
      VoteWorth(key, last, k, max);
      OneMore(Votes(key, before, k), Weight(max - 1));
      OneMore(Votes(key, before, k), Weight(0));
    } else {
      NoScore(key, last, k);
    }
  }

  /** Of lists without duplicates, none longer than max: a vote is worth at most the top place
      and at least the bottom one. */
  lemma {:induction false} ScoreBounds<T(!new), K(!new)>(key: T -> K, lists: seq<seq<T>>, k: K, max: nat)
    requires max > 0
    requires forall i :: 0 <= i < |lists| ==> DistinctRows(key, lists[i]) && |lists[i]| <= max
    ensures Bounded(key, lists, k, Weight(max - 1), Weight(0))
  {
    if lists != [] {
      var n := |lists| - 1;
      ScoreBounds(key, lists[..n], k, max);
      BoundStep(key, lists[..n], lists[n], k, max);
      assert lists[..n] + [lists[n]] == lists;
    }
  }

  /** With lists of at most 60 rows, whatever two or more lists found comes out before everything
      that only one list found, wherever it stood there. */
  lemma AgreementBeatsRank<T(!new), K(!new)>(key: T -> K, lists: seq<seq<T>>, out: seq<T>, i: nat, j: nat)
    requires forall l :: 0 <= l < |lists| ==> DistinctRows(key, lists[l]) && |lists[l]| <= DAMPING
    requires Fused(key, lists, out) && i < |out| && j < |out|
    requires Votes(key, lists, key(out[i])) >= 2 && Votes(key, lists, key(out[j])) == 1
    ensures i < j
  {
    var x, y := key(out[i]), key(out[j]);
    ScoreBounds(key, lists, x, DAMPING);
    ScoreBounds(key, lists, y, DAMPING);
    var w, top := Weight(DAMPING - 1), Weight(0);
    assert w == 1.0 / 119.0 && top == 1.0 / 60.0;
    assert Score(key, lists, x) > Score(key, lists, y);
  }

  lemma {:induction false} FlatVotes<T, K>(key: T -> K, lists: seq<seq<T>>, k: K)
    ensures HasKey(key, Flat(lists), k) <==> Votes(key, lists, k) > 0
  {
    if lists != [] {
      var n := |lists| - 1;
      FlatVotes(key, lists[..n], k);
      HasKeyConcat(key, Flat(lists[..n]), lists[n], k);
    }
  }

  /** Everything in the output stands in some list. */
  lemma FusedVotes<T(!new), K(!new)>(key: T -> K, lists: seq<seq<T>>, out: seq<T>, j: nat)
    requires Fused(key, lists, out) && j < |out|
    ensures Votes(key, lists, key(out[j])) > 0
  {
    var f := Firsts(key, Flat(lists));
    assert out[j] in multiset(f);
    var i :| 0 <= i < |f| && f[i] == out[j];
    assert key(f[i]) == key(out[j]);
    FirstsFacts(key, Flat(lists));
    FlatVotes(key, lists, key(out[j]));
  }

  /** A row that beats another in every list holding the other comes out before it. */
  lemma BetterEverywhereComesFirst<T(!new), K(!new)>(key: T -> K, lists: seq<seq<T>>, out: seq<T>, i: nat, j: nat)
    requires forall l :: 0 <= l < |lists| ==> DistinctRows(key, lists[l])
    requires Fused(key, lists, out) && i < |out| && j < |out|
    requires forall l :: 0 <= l < |lists| && HasKey(key, lists[l], key(out[j])) ==>
               FirstIndex(key, lists[l], key(out[i])) < FirstIndex(key, lists[l], key(out[j]))
    ensures i < j
  {
    FusedVotes(key, lists, out, j);
    BetterEverywhere(key, lists, key(out[i]), key(out[j]));
  }

  lemma {:induction false} BetterEverywhere<T, K>(key: T -> K, lists: seq<seq<T>>, x: K, y: K)
    requires forall i :: 0 <= i < |lists| ==> DistinctRows(key, lists[i])
    requires forall i :: 0 <= i < |lists| && HasKey(key, lists[i], y) ==>
               FirstIndex(key, lists[i], x) < FirstIndex(key, lists[i], y)
    ensures Score(key, lists, x) >= Score(key, lists, y)
    ensures Votes(key, lists, y) > 0 ==> Score(key, lists, x) > Score(key, lists, y)
  {
    if lists != [] {
      var n := |lists| - 1;
      var before, last := lists[..n], lists[n];
      assert forall i :: 0 <= i < n ==> before[i] == lists[i];
      BetterEverywhere(key, before, x, y);
      FirstIndexFound(key, last, x);
      FirstIndexFound(key, last, y);
      if HasKey(key, last, y) {
        SingleScore(key, last, FirstIndex(key, last, x));
        SingleScore(key, last, FirstIndex(key, last, y));
        WeightDecreases(FirstIndex(key, last, x), FirstIndex(key, last, y));
      } else {
        NoScore(key, last, y);
        ListScoreNonNegative(key, last, x);
      }
    }
  }

  lemma {:induction false} ListScoreNonNegative<T, K>(key: T -> K, list: seq<T>, k: K)
    ensures ListScore(key, list, k) >= 0.0
  {
    if list != [] {
      ListScoreNonNegative(key, list[..|list| - 1], k);
      WeightDecreases(|list| - 1, |list|);
    }
  }

  function Identity(x: int): int { x }

  /** Two lists of 61 rows: 0 tops the first list only, 60 is last in both. */
  const LONG_A: seq<int> := seq(61, i => i)
  const LONG_B: seq<int> := seq(61, i => if i == 60 then 60 else 100 + i)

  /** Sixty is the exact limit: at 61 rows a row found once can come before a row found twice. */
  lemma SixtyOneRowsBreakAgreement(out: seq<int>, i: nat, j: nat)
    requires Fused(Identity, [LONG_A, LONG_B], out) && i < |out| && j < |out| && out[i] == 60 && out[j] == 0
    ensures DistinctRows(Identity, LONG_A) && DistinctRows(Identity, LONG_B)
    ensures |LONG_A| == |LONG_B| == DAMPING + 1
    ensures Votes(Identity, [LONG_A, LONG_B], 60) == 2 && Votes(Identity, [LONG_A, LONG_B], 0) == 1
    ensures j < i
  {
    assert Identity(LONG_A[60]) == 60 && Identity(LONG_B[60]) == 60 && Identity(LONG_A[0]) == 0;
    TwoLists(Identity, LONG_A, LONG_B, 0);
    TwoLists(Identity, LONG_A, LONG_B, 60);
    SingleScore(Identity, LONG_A, 0);
    SingleScore(Identity, LONG_A, 60);
    SingleScore(Identity, LONG_B, 60);
    NoScore(Identity, LONG_B, 0);
    assert Weight(60) + Weight(60) == Weight(0);
    FirstIndexAppend(Identity, LONG_A, LONG_B, 60);
    FirstIndexFound(Identity, LONG_A, 60);
    assert FirstIndex(Identity, LONG_A + LONG_B, 0) == 0;
    assert Before(Identity, [LONG_A, LONG_B], 0, 60);
  }

  lemma TwoLists<T, K>(key: T -> K, a: seq<T>, b: seq<T>, k: K)
    ensures Score(key, [a, b], k) == ListScore(key, a, k) + ListScore(key, b, k)
    ensures Votes(key, [a, b], k) == (if HasKey(key, a, k) then 1 else 0) + (if HasKey(key, b, k) then 1 else 0)
    ensures Flat([a, b]) == a + b
  {
    var none: seq<seq<T>> := [];
    assert [a, b][..1] == [a] && [a][..0] == none;
    assert Flat([a]) == Flat(none) + a == a;
    assert Score(key, [a], k) == Score(key, none, k) + ListScore(key, a, k);
    assert Votes(key, [a], k) == if HasKey(key, a, k) then 1 else 0;
  }
}
