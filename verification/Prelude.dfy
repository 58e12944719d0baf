/** Shared vocabulary: optional values, fallible results and the order on instance ids. */
module Prelude {

  datatype Option<+T> = None | Some(value: T)

  datatype Result<+T, +E> = Ok(value: T) | Err(error: E)

  /** A condition as a count. */
  function Flag(b: bool): nat { if b then 1 else 0 }

  /** Lexicographic order on ids: the tiebreak both instances can compute. */
  predicate Less(a: string, b: string)
    decreases |a|
  {
    if b == [] then false
    else if a == [] then true
    else a[0] < b[0] || (a[0] == b[0] && Less(a[1..], b[1..]))
  }

  lemma {:induction false} LessIsStrictTotal(a: string, b: string)
    ensures !Less(a, a)
    ensures a != b ==> Less(a, b) != Less(b, a)
    decreases |a|
  {
    if a != [] {
      LessIsStrictTotal(a[1..], a[1..]);
      if b != [] && a[0] == b[0] {
        assert a == [a[0]] + a[1..] && b == [b[0]] + b[1..];
        LessIsStrictTotal(a[1..], b[1..]);
      }
    }
  }

  /** The first place where two strings differ, a having the smaller character there. */
  predicate SmallerAt(a: string, b: string, k: int) {
    0 <= k < |a| && k < |b| && a[..k] == b[..k] && a[k] < b[k]
  }

  lemma SmallerShift(a: string, b: string, k: nat)
    requires a != [] && b != [] && a[0] == b[0]
    ensures SmallerAt(a, b, k + 1) <==> SmallerAt(a[1..], b[1..], k)
    ensures !SmallerAt(a, b, 0)
  {
    if k < |a| - 1 && k < |b| - 1 {
      assert a[..k + 1] == [a[0]] + a[1..][..k] && b[..k + 1] == [b[0]] + b[1..][..k];
      assert a[1..][..k] == a[..k + 1][1..] && b[1..][..k] == b[..k + 1][1..];
    }
  }

  /** It is the order of the dictionary: a proper prefix comes first, and otherwise the first
      difference decides. */
  lemma {:induction false} LessIsDictionaryOrder(a: string, b: string)
    ensures Less(a, b) <==> a < b || exists k :: SmallerAt(a, b, k)
    decreases |a|
  {
    if a != [] && b != [] {
      if a[0] == b[0] {
        LessIsDictionaryOrder(a[1..], b[1..]);
        assert a == [a[0]] + a[1..] && b == [b[0]] + b[1..];
        if k :| SmallerAt(a, b, k) { SmallerShift(a, b, if k > 0 then k - 1 else 0); }
        if k :| SmallerAt(a[1..], b[1..], k) { SmallerShift(a, b, k); }
      } else {
        assert a[0] < b[0] ==> SmallerAt(a, b, 0);
        if k :| SmallerAt(a, b, k) { assert k > 0 ==> a[..k][0] == b[..k][0]; }
      }
    }
  }
}
