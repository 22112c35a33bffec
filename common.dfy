/** Values shared by every module of the model: failure-carrying results, grid
    cells, and the three pieces of Python arithmetic the source relies on
    (`int()` on a float, the built-in `round()`, and slice clipping). */
module Common {

  datatype Option<T> = None | Some(value: T)

  /** The exceptions the source raises (or runs into) that the model keeps. */
  datatype Error =
    | IndexError          // an index or a tuple position that does not exist
    | ValueError          // an explicit `raise ValueError` or a numpy shape error
    | TypeError           // an explicit `raise TypeError`
    | AttributeError      // an attribute a plain Python list does not have
    | KeyError            // a missing dictionary key
    | ZeroDivisionError   // a Python float division by zero
    | AssertionError      // a failing `assert`
    | UnboundLocalError   // a local read before any loop pass assigned it
    | NotANumber          // numpy would carry on with NaN or inf values

  datatype Result<T> = Ok(value: T) | Err(error: Error)

  /** A grid index pair (row i, column j). */
  datatype Cell = Cell(i: int, j: int)

  /** Python's `int(r)` on a float: truncation toward zero. */
  function Trunc(r: real): (n: int)
    ensures r >= 0.0 ==> n as real <= r < n as real + 1.0
    ensures r < 0.0 ==> n as real - 1.0 < r <= n as real
  {
    if r >= 0.0 then r.Floor else -((-r).Floor)
  }

  lemma {:induction false} TruncMonotonic(r: real, s: real)
    requires r <= s
    ensures Trunc(r) <= Trunc(s)
  {
    if r >= 0.0 {
      assert r.Floor <= s.Floor;
    } else if s < 0.0 {
      assert (-s).Floor <= (-r).Floor;
    }
  }

  lemma {:induction false} TruncOfInt(n: int)
    ensures Trunc(n as real) == n
  {
    if n < 0 {
      assert (-(n as real)).Floor == -n;
    }
  }

  /** A real that is the whole number n truncates to n. */
  lemma TruncAt(r: real, n: int)
    requires r == n as real
    ensures Trunc(r) == n
  {
    TruncOfInt(n);
  }

  /** Scaling by a positive c and dividing by it again is the identity. */
  lemma ScaleCancel(x: real, c: real)
    requires c > 0.0
    ensures (x * c) / c == x
  {
  }

  /** Python's built-in `round(r)`: nearest integer, ties to the even one. */
  function RoundHalfEven(r: real): (n: int)
    ensures n as real - 0.5 <= r <= n as real + 0.5
    ensures (r - n as real == 0.5 || n as real - r == 0.5) ==> n % 2 == 0
  {
    var f := r.Floor;
    var d := r - f as real;
    if d < 0.5 then f
    else if d > 0.5 then f + 1
    else if f % 2 == 0 then f
    else f + 1
  }

  lemma {:induction false} RoundMonotonic(r: real, s: real)
    requires r <= s
    ensures RoundHalfEven(r) <= RoundHalfEven(s)
  {
    var a, b := RoundHalfEven(r), RoundHalfEven(s);
    if a > b {
      // a - 0.5 <= r <= s <= b + 0.5 forces a == b + 1 and r == s == a - 0.5,
      // a tie that rounds both to the same even neighbour
      assert a == b + 1;
      assert r == s;
    }
  }

  lemma {:induction false} RoundOfInt(n: int)
    ensures RoundHalfEven(n as real) == n
  {
  }

  /** Bounds of the Python slice `lo:hi` on an axis of length `n`: negative
      bounds count from the end, then both are clipped into [0, n]; an empty
      slice is reported as `start == stop`. */
  function SliceBounds(lo: int, hi: int, n: nat): (b: (nat, nat))
    ensures b.0 <= b.1 <= n
    ensures 0 <= lo <= hi <= n ==> b == (lo, hi)
  {
    var start := Clip(if lo < 0 then lo + n else lo, n);
    var stop := Clip(if hi < 0 then hi + n else hi, n);
    (start, if stop < start then start else stop)
  }

  function Clip(k: int, n: nat): (c: nat)
    ensures c <= n
    ensures 0 <= k <= n ==> c == k
  {
    if k < 0 then 0 else if k > n then n else k
  }

  /** The index into an array of length `len` that numpy pairs with
      position `off` of a broadcast: the same position, or 0 along a
      length-1 axis, which numpy repeats. */
  function Along(len: nat, off: nat): nat {
    if len == 1 then 0 else off
  }

  /** Two one-dimensional lengths numpy broadcasts together: equal, or one
      of them 1. */
  predicate Broadcastable(a: nat, b: nat) { a == b || a == 1 || b == 1 }

  /** The length of the broadcast of two broadcastable lengths. */
  function BroadcastLen(a: nat, b: nat): (k: nat)
    requires Broadcastable(a, b)
    ensures (a == k || a == 1) && (b == k || b == 1)
    ensures forall off :: 0 <= off < k ==> Along(a, off) < a && Along(b, off) < b
  {
    if a == 1 then b else a
  }

  /** The element of `s` at position `k` of a broadcast. */
  function Pick<T>(s: seq<T>, k: nat): T
    requires Along(|s|, k) < |s|
  {
    s[Along(|s|, k)]
  }

  function Min(a: int, b: int): int { if a <= b then a else b }
  function Max(a: int, b: int): int { if a >= b then a else b }
  function MinR(a: real, b: real): real { if a <= b then a else b }
  function MaxR(a: real, b: real): real { if a >= b then a else b }
}
