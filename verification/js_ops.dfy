/**
 * The JavaScript built-ins whose exact semantics the typewriter's word-wrap
 * logic depends on: the truncating remainder operator, `String.prototype.
 * lastIndexOf` / `indexOf` with a start position, and the local `arrayRange`
 * helper followed by `.some(...)`.
 */
module JsOps {

  function Abs(x: int): int {
    if x < 0 then -x else x
  }

  /**
   * `a % b` on integral numbers in JavaScript: the quotient is truncated toward
   * zero, so the remainder takes the sign of the dividend (unlike Dafny's `%`).
   */
  function Rem(a: int, b: int): (r: int)
    requires b != 0
    ensures -Abs(b) < r < Abs(b)
    ensures a >= 0 ==> r >= 0
    ensures a <= 0 ==> r <= 0
    ensures Abs(r) == Abs(a) % Abs(b)
  {
    if a >= 0 then a % Abs(b) else -((-a) % Abs(b))
  }

  /** `a % b === r`. With `b == 0` JavaScript yields NaN, which equals nothing. */
  predicate RemIs(a: int, b: int, r: int) {
    b != 0 && Rem(a, b) == r
  }

  /**
   * `s.lastIndexOf(c, from)` for a start position inside the string (or -1,
   * which ends the backward search): the greatest index `<= from` holding `c`,
   * or -1 when there is none.
   */
  function LastIndexOf(s: string, c: char, from: int): (r: int)
    requires -1 <= from < |s|
    ensures -1 <= r <= from
    ensures r >= 0 ==> s[r] == c
    ensures forall k :: r < k <= from ==> s[k] != c
    decreases from + 1
  {
    if from < 0 then -1
    else if s[from] == c then from
    else LastIndexOf(s, c, from - 1)
  }

  /**
   * `s.indexOf(c, from)` for `0 <= from <= |s|`: the least index `>= from`
   * holding `c`, or -1 when there is none.
   */
  function IndexOf(s: string, c: char, from: int): (r: int)
    requires 0 <= from <= |s|
    ensures r == -1 || (from <= r < |s| && s[r] == c)
    ensures forall k :: from <= k < (if r == -1 then |s| else r) ==> s[k] != c
    decreases |s| - from
  {
    if from == |s| then -1
    else if s[from] == c then from
    else IndexOf(s, c, from + 1)
  }

  /** The element at position `k` of `arrayRange(lo, _, delta)`. */
  function RangeElem(lo: int, delta: int, k: int): int {
    lo + k * delta
  }

  /**
   * The length `Array.from` gives `arrayRange(lo, hi, delta)`:
   * `(hi - lo) / delta + 1` truncated, and never negative. It is exactly the
   * number of elements `lo, lo + delta, ...` that do not exceed `hi`.
   */
  function ArrayRangeLength(lo: int, hi: int, delta: int): (n: nat)
    requires delta > 0
    ensures forall k :: 0 <= k < n ==> RangeElem(lo, delta, k) <= hi
    ensures RangeElem(lo, delta, n) > hi
  {
    if hi < lo then 0
    else
      var n := (hi - lo) / delta + 1;
      RangeBound(hi - lo, delta);
      n
  }

  lemma RangeBound(d: int, delta: int)
    requires d >= 0 && delta > 0
    ensures forall k :: 0 <= k <= d / delta ==> k * delta <= d
    ensures (d / delta + 1) * delta > d
  {
    var q := d / delta;
    assert d == q * delta + d % delta;
    forall k | 0 <= k <= q
      ensures k * delta <= d
    {
      assert k * delta <= q * delta by {
        assert (q - k) * delta >= 0;
      }
    }
    assert (q + 1) * delta == q * delta + delta;
  }

  /**
   * Some element among the first `n` of `lo, lo + delta, ...` has JavaScript
   * remainder 1 modulo `limit`.
   */
  ghost predicate HasRemOne(lo: int, n: nat, delta: int, limit: int) {
    exists k :: 0 <= k < n && RemIs(RangeElem(lo, delta, k), limit, 1)
  }

  /** The `.some(x => x % limit === 1)` scan over the first `n` range elements. */
  function AnyRemOne(lo: int, n: nat, delta: int, limit: int): (r: bool)
    ensures r <==> HasRemOne(lo, n, delta, limit)
    decreases n
  {
    if n == 0 then false
    else
      var rest := AnyRemOne(lo + delta, n - 1, delta, limit);
      ShiftRange(lo, n, delta, limit);
      RemIs(lo, limit, 1) || rest
  }

  /** Dropping the first element of a range shifts the start by `delta`. */
  lemma ShiftRange(lo: int, n: nat, delta: int, limit: int)
    requires n > 0
    ensures HasRemOne(lo, n, delta, limit) <==> RemIs(lo, limit, 1) || HasRemOne(lo + delta, n - 1, delta, limit)
  {
    var next := lo + delta;
    assert RangeElem(lo, delta, 0) == lo;
    if k :| 0 <= k < n && RemIs(RangeElem(lo, delta, k), limit, 1) {
      if k > 0 {
        assert RangeElem(next, delta, k - 1) == RangeElem(lo, delta, k) by {
          assert (k - 1) * delta + delta == k * delta;
        }
      }
    }
    if k :| 0 <= k < n - 1 && RemIs(RangeElem(next, delta, k), limit, 1) {
      assert RangeElem(lo, delta, k + 1) == RangeElem(next, delta, k) by {
        assert (k + 1) * delta == k * delta + delta;
      }
    }
  }

  /**
   * `arrayRange(lo, hi, delta).some(x => x % limit === 1)`.
   */
  function ArrayRangeSome(lo: int, hi: int, delta: int, limit: int): (r: bool)
    requires delta > 0
    ensures r <==> HasRemOne(lo, ArrayRangeLength(lo, hi, delta), delta, limit)
    ensures r ==> exists x :: lo <= x <= hi && RemIs(x, limit, 1)
  {
    var n := ArrayRangeLength(lo, hi, delta);
    var r := AnyRemOne(lo, n, delta, limit);
    if r then
      var k :| 0 <= k < n && RemIs(RangeElem(lo, delta, k), limit, 1);
      assert k * delta >= 0;
      assert lo <= RangeElem(lo, delta, k) <= hi;
      r
    else r
  }
}
