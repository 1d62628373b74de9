/**
 * The array helpers `Array.range` and `Array.prototype.chunk`
 * (scripts/utils/index.js), as functions on sequences. Only integer
 * arguments are modelled. Where JavaScript's `Array(n)` would throw a
 * RangeError (a length that is infinite, negative or above
 * `MaxArrayLength`) the result is `Failure(InvalidArrayLength)`.
 */
module ArrayHelpers {
  import opened Wrappers

  datatype ArrayError = InvalidArrayLength

  /** The largest length `Array(n)` accepts: 2^32 - 1. */
  const MaxArrayLength: int := 4294967295

  /** `Math.ceil(a / b)` for a non-zero integer divisor. */
  function CeilDiv(a: int, b: int): (q: int)
    requires b != 0
    ensures b > 0 ==> (q - 1) * b < a <= q * b
    ensures b < 0 ==> q * b <= a < (q - 1) * b
  {
    if b > 0 then (a + b - 1) / b else (-a - b - 1) / (-b)
  }

  /** The bounds `range` actually uses: a missing or zero `stop` means "count from 0 to `start`". */
  function Bounds(start: int, stop: Option<int>): (int, int)
  {
    if stop.None? || stop.value == 0 then (0, start) else (start, stop.value)
  }

  /**
   * `Array.range(start, stop, step)`: `start, start + step, ...` below
   * `stop`. `stop` is `None` for the one-argument form.
   */
  function Range(start: int, stop: Option<int>, step: int): (r: Result<seq<int>, ArrayError>)
    // the result always fits a JavaScript array
    ensures r.Success? ==> |r.value| <= MaxArrayLength
    // a non-empty result needs a non-empty interval, and starts at its lower bound
    ensures r.Success? && r.value != [] ==> Bounds(start, stop).0 < Bounds(start, stop).1
    ensures r.Success? && r.value != [] ==> r.value[0] == Bounds(start, stop).0
    // for a positive step no element is below the lower bound
    ensures r.Success? && step > 0 ==> forall i :: 0 <= i < |r.value| ==> Bounds(start, stop).0 <= r.value[i]
  {
    var (lo, hi) := Bounds(start, stop);
    if !(lo < hi) then Success([])
    else if step == 0 then Failure(InvalidArrayLength)
    else
      var n := CeilDiv(hi - lo, step);
      if n < 0 || n > MaxArrayLength then Failure(InvalidArrayLength)
      else Success(seq(n, i => lo + i * step))
  }

  lemma MulMonotone(i: int, j: int, step: int)
    requires i <= j && step > 0
    ensures i * step <= j * step
  {
  }

  /** Euclidean division by a positive divisor rounds down. */
  lemma DivSign(x: int, m: int)
    requires m > 0
    ensures 0 <= x < m ==> x / m == 0
    ensures x < 0 ==> x / m < 0
  {
    var q := x / m;
    assert x == q * m + x % m;
    if 0 <= x < m {
      if q >= 1 { MulMonotone(1, q, m); }
      if q <= -1 { MulMonotone(q, -1, m); }
    }
    if x < 0 && q >= 0 {
      MulMonotone(0, q, m);
    }
  }

  /**
   * For a positive step, `range` succeeds exactly when its length fits a
   * JavaScript array, and then yields the arithmetic progression from `lo`
   * by `step` that stays below `hi`: every element is below `hi`, and the
   * next term would not be. It has `ceil((hi - lo) / step)` elements when
   * `lo < hi` and none otherwise.
   */
  lemma RangeIsProgression(start: int, stop: Option<int>, step: int)
    requires step > 0
    ensures var (lo, hi) := Bounds(start, stop);
            Range(start, stop, step).Success? <==> (lo < hi ==> CeilDiv(hi - lo, step) <= MaxArrayLength)
    ensures var (lo, hi) := Bounds(start, stop);
            Range(start, stop, step).Success? ==>
            && var r := Range(start, stop, step).value;
            && |r| == (if lo < hi then CeilDiv(hi - lo, step) else 0)
            && (forall i :: 0 <= i < |r| ==> r[i] == lo + i * step && lo <= r[i] < hi)
            && (lo < hi ==> lo + |r| * step >= hi)
  {
    var (lo, hi) := Bounds(start, stop);
    if lo < hi {
      var n := CeilDiv(hi - lo, step);
      assert n >= 1 by {
        if n < 1 { MulMonotone(n, 0, step); }
      }
      if Range(start, stop, step).Success? {
        var r := Range(start, stop, step).value;
        forall i | 0 <= i < |r|
          ensures lo <= r[i] < hi
        {
          MulMonotone(0, i, step);
          MulMonotone(i, n - 1, step);
        }
      }
    }
  }

  /** `range(0, 2 ** 32)` is a RangeError: the array would be too long. */
  lemma RangeTooLong()
    ensures Range(0, Some(MaxArrayLength + 1), 1) == Failure(InvalidArrayLength)
  {
    assert CeilDiv(MaxArrayLength + 1, 1) == MaxArrayLength + 1;
  }

  /** A falsy `stop` (missing or 0) swaps in 0 as the start: `range(3, 0)` is `range(0, 3)`. */
  lemma FalsyStopCountsFromZero(n: int, step: int)
    ensures Range(n, Some(0), step) == Range(0, Some(n), step)
    ensures Range(n, None, step) == Range(0, Some(n), step)
  {
  }

  /** `range(3, 0)` and `range(3)` are both `[0, 1, 2]`; `range(1, 10, 4)` is `[1, 5, 9]`. */
  lemma RangeExamples()
    ensures Range(3, Some(0), 1) == Success([0, 1, 2])
    ensures Range(3, None, 1) == Success([0, 1, 2])
    ensures Range(1, Some(10), 4) == Success([1, 5, 9])
  {
    assert CeilDiv(3, 1) == 3;
    var r := Range(3, None, 1).value;
    assert |r| == 3 && r[0] == 0 && r[1] == 1 && r[2] == 2;
    assert r == [0, 1, 2];
    FalsyStopCountsFromZero(3, 1);
    assert CeilDiv(9, 4) == 3;
    var t := Range(1, Some(10), 4).value;
    assert |t| == 3 && t[0] == 1 && t[1] == 5 && t[2] == 9;
    assert t == [1, 5, 9];
  }

  /** A non-positive step over a non-empty interval: empty when the step overshoots at once, otherwise a RangeError. */
  lemma RangeNonPositiveStep(start: int, stop: Option<int>, step: int)
    requires step <= 0
    ensures var (lo, hi) := Bounds(start, stop);
            Range(start, stop, step)
            == if !(lo < hi) || (step < 0 && hi - lo < -step) then Success([]) else Failure(InvalidArrayLength)
  {
    var (lo, hi) := Bounds(start, stop);
    if lo < hi && step < 0 {
      var m := -step;
      var n := CeilDiv(hi - lo, step);
      assert n == (lo - hi + m - 1) / m;
      DivSign(lo - hi + m - 1, m);
      if hi - lo < m {
        assert n == 0;
        var r := Range(start, stop, step).value;
        assert |r| == 0;
        assert r == [];
      } else {
        assert n < 0;
      }
    }
  }

  /** `Array.prototype.slice(begin, end)`: negative positions count from the end; both are clipped to the array. */
  function Slice<T>(xs: seq<T>, begin: int, end: int): (r: seq<T>)
    // positions inside the array give the plain subsequence
    ensures 0 <= begin <= end <= |xs| ==> r == xs[begin..end]
    // from non-negative positions the slice holds at most `end - begin` elements
    ensures 0 <= begin && 0 <= end ==> |r| <= (if end < begin then 0 else end - begin)
    ensures |r| <= |xs|
  {
    var b := if begin < 0 then (if |xs| + begin < 0 then 0 else |xs| + begin) else (if begin > |xs| then |xs| else begin);
    var e := if end < 0 then (if |xs| + end < 0 then 0 else |xs| + end) else (if end > |xs| then |xs| else end);
    if b < e then xs[b..e] else []
  }

  /**
   * `xs.chunk(size)`: `Array.range(Math.ceil(len / size))` mapped to the
   * slices `[i * size, i * size + size)`. A zero size divides by zero:
   * `NaN` for an empty array (no pieces) and `Infinity` otherwise (a
   * RangeError).
   */
  function Chunk<T>(xs: seq<T>, size: int): (r: Result<seq<seq<T>>, ArrayError>)
    ensures r.Success? ==> |r.value| <= MaxArrayLength
    // for a positive size no piece is longer than `size`
    ensures r.Success? && size > 0 ==> forall k :: 0 <= k < |r.value| ==> |r.value[k]| <= size
  {
    if size == 0 then
      if |xs| == 0 then Success([]) else Failure(InvalidArrayLength)
    else
      match Range(CeilDiv(|xs|, size), None, 1)
      case Failure(e) => Failure(e)
      case Success(indices) => Success(seq(|indices|, k requires 0 <= k < |indices| => Slice(xs, indices[k] * size, indices[k] * size + size)))
  }

  /** Concatenation of a list of pieces. */
  function Flatten<T>(pieces: seq<seq<T>>): seq<T>
  {
    if pieces == [] then [] else Flatten(pieces[..|pieces| - 1]) + pieces[|pieces| - 1]
  }

  lemma PrefixThenSlice<T>(xs: seq<T>, b: int, e: int)
    requires 0 <= b <= e <= |xs|
    ensures xs[..b] + xs[b..e] == xs[..e]
  {
  }

  lemma SliceInside<T>(xs: seq<T>, b: int, size: int)
    requires 0 <= b < |xs| && size > 0
    ensures Slice(xs, b, b + size) == xs[b..if b + size > |xs| then |xs| else b + size]
  {
  }

  /** The first `k` pieces concatenate to the first `min(k * size, |xs|)` elements. */
  lemma {:induction false} FlattenPrefix<T>(xs: seq<T>, size: int, pieces: seq<seq<T>>, k: nat)
    requires size > 0 && k <= |pieces|
    requires forall i :: 0 <= i < |pieces| ==> pieces[i] == Slice(xs, i * size, i * size + size)
    requires (|pieces| - 1) * size < |xs|
    ensures Flatten(pieces[..k]) == xs[..if k * size < |xs| then k * size else |xs|]
    decreases k
  {
    if k == 0 {
      assert pieces[..0] == [];
    } else {
      FlattenPrefix(xs, size, pieces, k - 1);
      var b := (k - 1) * size;
      assert k * size == b + size;
      assert Flatten(pieces[..k]) == Flatten(pieces[..k - 1]) + pieces[k - 1] by {
        assert pieces[..k][..k - 1] == pieces[..k - 1];
      }
      MulMonotone(0, k - 1, size);
      MulMonotone(k - 1, |pieces| - 1, size);
      var e := if b + size > |xs| then |xs| else b + size;
      assert pieces[k - 1] == Slice(xs, b, b + size);
      SliceInside(xs, b, size);
      PrefixThenSlice(xs, b, e);
    }
  }

  /** A piece that starts inside `xs` is non-empty, and full when the next piece starts inside `xs` too. */
  lemma PieceLength<T>(xs: seq<T>, size: int, i: int)
    requires size > 0 && 0 <= i && i * size < |xs|
    ensures var p := Slice(xs, i * size, i * size + size);
            && 0 < |p| <= size
            && ((i + 1) * size <= |xs| ==> |p| == size)
  {
    MulMonotone(0, i, size);
    assert (i + 1) * size == i * size + size;
  }

  lemma PieceLengths<T>(xs: seq<T>, size: int, pieces: seq<seq<T>>)
    requires size > 0 && |pieces| > 0
    requires forall i :: 0 <= i < |pieces| ==> pieces[i] == Slice(xs, i * size, i * size + size)
    requires (|pieces| - 1) * size < |xs|
    ensures forall i :: 0 <= i < |pieces| - 1 ==> |pieces[i]| == size
    ensures 0 < |pieces[|pieces| - 1]| <= size
  {
    var n := |pieces|;
    forall i | 0 <= i < n - 1
      ensures |pieces[i]| == size
    {
      MulMonotone(i, n - 1, size);
      MulMonotone(i + 1, n - 1, size);
      PieceLength(xs, size, i);
    }
    MulMonotone(0, n - 1, size);
    PieceLength(xs, size, n - 1);
  }

  /** There are between 0 and `len` pieces. */
  lemma PieceCount(len: nat, size: int)
    requires size > 0
    ensures 0 <= CeilDiv(len, size) <= len
  {
    var n := CeilDiv(len, size);
    assert (n - 1) * size < len <= n * size;
    if n < 0 {
      // then n * size <= -size < 0 <= len
      MulMonotone(n, -1, size);
    }
    if n > len {
      // then (n - 1) * size >= len * size >= len
      MulMonotone(len, n - 1, size);
      if len > 0 { MulMonotone(1, size, len); }
    }
  }

  /**
   * For a positive size, `chunk` succeeds exactly when the number of pieces
   * fits a JavaScript array, which it always does for an array of at most
   * `MaxArrayLength` elements.
   */
  lemma ChunkFits<T>(xs: seq<T>, size: int)
    requires size > 0
    ensures Chunk(xs, size).Success? <==> CeilDiv(|xs|, size) <= MaxArrayLength
    ensures |xs| <= MaxArrayLength ==> Chunk(xs, size).Success?
  {
    PieceCount(|xs|, size);
    RangeIsProgression(CeilDiv(|xs|, size), None, 1);
  }

  /**
   * For a positive size, a successful `chunk` cuts `xs` into
   * `ceil(|xs| / size)` pieces whose concatenation is `xs`; every piece holds
   * `size` elements except the last, which holds between 1 and `size`.
   */
  lemma ChunkSplits<T>(xs: seq<T>, size: int)
    requires size > 0
    ensures Chunk(xs, size).Success? ==>
            && var pieces := Chunk(xs, size).value;
            && |pieces| == CeilDiv(|xs|, size)
            && Flatten(pieces) == xs
            && (forall i :: 0 <= i < |pieces| - 1 ==> |pieces[i]| == size)
            && (pieces != [] ==> 0 < |pieces[|pieces| - 1]| <= size)
  {
    var n := CeilDiv(|xs|, size);
    if Chunk(xs, size).Success? {
      PieceCount(|xs|, size);
      RangeIsProgression(n, None, 1);
      var pieces := Chunk(xs, size).value;
      assert |pieces| == n;
      assert forall i :: 0 <= i < |pieces| ==> pieces[i] == Slice(xs, i * size, i * size + size);
      if n > 0 {
        FlattenPrefix(xs, size, pieces, n);
        assert pieces[..n] == pieces;
        PieceLengths(xs, size, pieces);
      } else {
        assert |xs| == 0;
      }
    }
  }

  /** A negative size yields no pieces; a zero size fails unless the array is empty. */
  lemma ChunkNonPositiveSize<T>(xs: seq<T>, size: int)
    requires size <= 0
    ensures Chunk(xs, size) == if size == 0 && |xs| > 0 then Failure(InvalidArrayLength) else Success([])
  {
    if size < 0 {
      var n := CeilDiv(|xs|, size);
      assert n == (-|xs| - size - 1) / (-size);
      DivSign(-|xs| - size - 1, -size);
      assert n <= 0;
      var r := Chunk(xs, size).value;
      assert |r| == 0;
      assert r == [];
    }
  }
}
