/** Option, and the leftmost-position searches that every scanner below is built on.

    A JavaScript regular expression without the `g` flag reports the match that
    starts at the smallest position; among the ways to match at that position it
    reports the first one its backtracking order tries. Both are searches for the
    first index (ascending or descending) at which a candidate succeeds.
 */
module Scan {

  datatype Option<+T> = None | Some(value: T) {
    function GetOr(default: T): T {
      match this
      case Some(v) => v
      case None => default
    }
  }

  /** A successful candidate: where it was found and what it produced. */
  datatype Hit<+T> = Hit(pos: nat, value: T)

  /** The first index in `lo..hi` (ascending) at which `f` succeeds. */
  function FirstHit<T>(lo: nat, hi: nat, f: nat -> Option<T>): (r: Option<Hit<T>>)
    ensures r.Some? ==> lo <= r.value.pos <= hi && f(r.value.pos) == Some(r.value.value)
    ensures r.Some? ==> forall q :: lo <= q < r.value.pos ==> f(q).None?
    ensures r.None? ==> forall q :: lo <= q <= hi ==> f(q).None?
    decreases hi + 1 - lo
  {
    if lo > hi then None
    else if f(lo).Some? then Some(Hit(lo, f(lo).value))
    else FirstHit(lo + 1, hi, f)
  }

  /** The first index in `hi` down to `lo` at which `f` succeeds: the order in
      which a greedy quantifier gives characters back. */
  function FirstHitDown<T>(hi: nat, lo: nat, f: nat -> Option<T>): (r: Option<Hit<T>>)
    ensures r.Some? ==> lo <= r.value.pos <= hi && f(r.value.pos) == Some(r.value.value)
    ensures r.Some? ==> forall q :: r.value.pos < q <= hi ==> f(q).None?
    ensures r.None? ==> forall q :: lo <= q <= hi ==> f(q).None?
    decreases hi
  {
    if hi < lo then None
    else if f(hi).Some? then Some(Hit(hi, f(hi).value))
    else if hi == 0 then None
    else FirstHitDown(hi - 1, lo, f)
  }

  /** The value of the first success, dropping its position. */
  function FirstValue<T>(lo: nat, hi: nat, f: nat -> Option<T>): (r: Option<T>)
    ensures r.Some? <==> exists q :: lo <= q <= hi && f(q).Some?
    ensures r.Some? ==> exists q :: lo <= q <= hi && f(q) == r && forall q' :: lo <= q' < q ==> f(q').None?
  {
    var h := FirstHit(lo, hi, f);
    if h.Some? then Some(h.value.value) else None
  }

  /** The value of the first success in descending order. */
  function FirstValueDown<T>(hi: nat, lo: nat, f: nat -> Option<T>): (r: Option<T>)
    ensures r.Some? <==> exists q :: lo <= q <= hi && f(q).Some?
    ensures r.Some? ==> exists q :: lo <= q <= hi && f(q) == r && forall q' :: q < q' <= hi ==> f(q').None?
  {
    var h := FirstHitDown(hi, lo, f);
    if h.Some? then Some(h.value.value) else None
  }

  /** The first success is the one at `m` when every earlier candidate fails. */
  lemma {:induction false} FirstHitAt<T>(lo: nat, hi: nat, f: nat -> Option<T>, m: nat)
    requires lo <= m <= hi && f(m).Some?
    requires forall q :: lo <= q < m ==> f(q).None?
    ensures FirstHit(lo, hi, f) == Some(Hit(m, f(m).value))
    ensures FirstValue(lo, hi, f) == f(m)
    decreases m - lo
  {
    if lo < m {
      FirstHitAt(lo + 1, hi, f, m);
    }
  }
}
