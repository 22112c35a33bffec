/** Sums and means of real sequences (`np.sum`, `np.mean`). */
module Stats {

  function Sum(s: seq<real>): real {
    if |s| == 0 then 0.0 else Sum(s[..|s| - 1]) + s[|s| - 1]
  }

  /** `np.mean` of a non-empty sequence. */
  function Mean(s: seq<real>): (m: real)
    requires |s| > 0
    ensures m * |s| as real == Sum(s)
  {
    Sum(s) / |s| as real
  }

  /** Extending a prefix by one element adds that element to the sum. */
  lemma {:induction false} SumPrefix(s: seq<real>, k: nat)
    requires k < |s|
    ensures Sum(s[..k + 1]) == Sum(s[..k]) + s[k]
  {
    assert s[..k + 1][..k] == s[..k];
  }

  /** A sum of non-negative terms is non-negative, and it is zero exactly
      when every term is. */
  lemma {:induction false} SumNonNegative(s: seq<real>)
    requires forall k :: 0 <= k < |s| ==> 0.0 <= s[k]
    ensures 0.0 <= Sum(s)
    ensures Sum(s) == 0.0 <==> forall k :: 0 <= k < |s| ==> s[k] == 0.0
  {
    if |s| > 0 {
      var init := s[..|s| - 1];
      SumNonNegative(init);
      if Sum(s) == 0.0 {
        forall k | 0 <= k < |s| ensures s[k] == 0.0 {
          if k < |s| - 1 { assert s[k] == init[k]; }
        }
      }
    }
  }

  /** The sum of `n` copies of `c` is `n * c`. */
  lemma {:induction false} SumConstant(s: seq<real>, c: real)
    requires forall k :: 0 <= k < |s| ==> s[k] == c
    ensures Sum(s) == |s| as real * c
  {
    if |s| > 0 {
      SumConstant(s[..|s| - 1], c);
    }
  }
}
