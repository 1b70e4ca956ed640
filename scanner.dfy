/**
 * The candidate enumeration of `ComputeImpl` (ngram.cc): for every size `ni`
 * from the lower bound up to `N`, the probes the scan looks up, in the order
 * it looks them up.  Unigrams slide over every position; larger sizes sample
 * `ni` tokens at every stride `si` in `1..S+1` from every start where the
 * whole n-gram fits.
 */
module Scanner {

  /** `si * a <= si * b` exactly when `a <= b`, for a positive stride. */
  lemma StrideMono(si: nat, a: nat, b: nat)
    requires si >= 1
    ensures si * a <= si * b <==> a <= b
  {
    if a <= b {
      assert si * b == si * a + si * (b - a);
    } else {
      assert si * a == si * b + si * (a - b);
    }
  }

  /** The `n` tokens of `x` at stride `si` from `p`: x[p], x[p+si], ..., x[p+si*(n-1)]. */
  function Sample<T>(x: seq<T>, p: nat, si: nat, n: nat): (r: seq<T>)
    requires n == 0 || p + si * (n - 1) < |x|
    ensures |r| == n
    decreases n
  {
    if n == 0 then []
    else
      assert n == 1 || si * (n - 1) == si * (n - 2) + si;
      Sample(x, p, si, n - 1) + [x[p + si * (n - 1)]]
  }

  /** Token `k` of a sample is the input token at `p + si*k`. */
  lemma {:induction false} SampleAt<T>(x: seq<T>, p: nat, si: nat, n: nat, k: nat)
    requires n == 0 || p + si * (n - 1) < |x|
    requires k < n
    ensures p + si * k < |x|
    ensures Sample(x, p, si, n)[k] == x[p + si * k]
    decreases n
  {
    assert n == 1 || si * (n - 1) == si * (n - 2) + si;
    if k < n - 1 {
      SampleAt(x, p, si, n - 1, k);
    }
  }

  /** A window reaching `d` tokens past its start `p` fits in `len` tokens. */
  predicate Fits(len: nat, d: nat, p: nat)
  {
    p + d < len
  }

  /** Number of starts `p` where a window reaching `d` tokens further fits in `len` tokens. */
  function StartCount(len: nat, d: nat): (r: nat)
    ensures r == 0 <==> len <= d
    ensures r > 0 ==> r + d == len
  {
    if d < len then len - d else 0
  }

  /** The starts counted are exactly those where the window fits: the starts fitting form a prefix. */
  lemma StartCountFits(len: nat, d: nat)
    ensures forall p: nat :: p < StartCount(len, d) <==> Fits(len, d, p)
  {
  }

  /** The probes of size `ni` at stride `si` from the first `k` starts, in start order. */
  function Starts<T>(x: seq<T>, ni: nat, si: nat, k: nat): (r: seq<seq<T>>)
    requires ni >= 1
    requires k == 0 || k - 1 + si * (ni - 1) < |x|
    ensures |r| == k
  {
    seq(k, p requires 0 <= p < k => Sample(x, p, si, ni))
  }

  /** One more start appends its sample. */
  lemma StartsSnoc<T>(x: seq<T>, ni: nat, si: nat, k: nat)
    requires ni >= 1 && k + si * (ni - 1) < |x|
    ensures Starts(x, ni, si, k + 1) == Starts(x, ni, si, k) + [Sample(x, k, si, ni)]
  {
    assert Starts(x, ni, si, k + 1)[..k] == Starts(x, ni, si, k);
  }

  /** One stride pass: the probes of size `ni` at stride `si` from every start where they fit. */
  function Pass<T>(x: seq<T>, ni: nat, si: nat): seq<seq<T>>
    requires ni >= 1
  {
    Starts(x, ni, si, StartCount(|x|, si * (ni - 1)))
  }

  /** The probes of size `ni >= 2` for the strides `1..s`, stride by stride. */
  function Strides<T>(x: seq<T>, ni: nat, s: int): seq<seq<T>>
    requires ni >= 1
    decreases s
  {
    if s <= 0 then []
    else Strides(x, ni, s - 1) + Pass(x, ni, s)
  }

  /** All probes of size `ni`: unigrams ignore the skip count. */
  function SizeProbes<T>(x: seq<T>, ni: nat, S: int): seq<seq<T>>
    requires ni >= 1
  {
    if ni == 1 then Pass(x, 1, 1) else Strides(x, ni, S + 1)
  }

  /** The probes of the sizes `lo .. hi-1`, size by size. */
  function Range<T>(x: seq<T>, lo: nat, hi: int, S: int): seq<seq<T>>
    requires lo >= 1
    decreases hi - lo
  {
    if hi <= lo then [] else Range(x, lo, hi - 1, S) + SizeProbes(x, hi - 1, S)
  }

  /** Every probe of a scan, in lookup order: sizes from `M` (all) or `N`, up to `N`. */
  function Probes<T>(x: seq<T>, M: int, N: int, S: int, all: bool): seq<seq<T>>
    requires 1 <= M <= N
  {
    Range(x, if all then M else N, N + 1, S)
  }

  /** The sample loop of `ComputeImpl`: items from `p` while below `p + si*(ni-1) + 1`, step `si`. */
  method BuildSample<T>(x: seq<T>, p: nat, si: nat, ni: nat) returns (sample: seq<T>)
    requires si >= 1 && ni >= 1 && p + si * (ni - 1) < |x|
    ensures sample == Sample(x, p, si, ni)
  {
    var ngramEnd := p + si * (ni - 1) + 1;
    sample := [];
    var item := p;
    ghost var k: nat := 0;
    while item < ngramEnd
      invariant k <= ni && item == p + si * k
      invariant sample == Sample(x, p, si, k)
    {
      StrideMono(si, k, ni - 1);
      sample := sample + [x[item]];
      item := item + si;
      k := k + 1;
    }
    StrideMono(si, k, ni - 1);
  }

  /* ---- What the enumeration contains ---- */

  /** A stride pass holds the sample of every start where the whole n-gram fits. */
  lemma StartsComplete<T>(x: seq<T>, ni: nat, si: nat, p: nat)
    requires ni >= 1 && p + si * (ni - 1) < |x|
    ensures Sample(x, p, si, ni) in Pass(x, ni, si)
  {
    assert Pass(x, ni, si)[p] == Sample(x, p, si, ni);
  }

  /** Every probe of a stride pass is the sample of a start where the whole n-gram fits. */
  lemma StartsSound<T>(x: seq<T>, ni: nat, si: nat, q: seq<T>)
    requires ni >= 1 && q in Pass(x, ni, si)
    ensures exists p: nat :: p + si * (ni - 1) < |x| && q == Sample(x, p, si, ni)
  {
    var k := StartCount(|x|, si * (ni - 1));
    var p :| 0 <= p < k && Starts(x, ni, si, k)[p] == q;
  }

  /** For `ni >= 2` the probes at strides `1..s` include the sample at every such stride and start. */
  lemma {:induction false} StridesComplete<T>(x: seq<T>, ni: nat, s: int, si: nat, p: nat)
    requires ni >= 1 && 1 <= si <= s && p + si * (ni - 1) < |x|
    ensures Sample(x, p, si, ni) in Strides(x, ni, s)
    decreases s
  {
    if si == s {
      StartsComplete(x, ni, si, p);
    } else {
      StridesComplete(x, ni, s - 1, si, p);
    }
  }

  /** Every probe at strides `1..s` is a whole sample at one of those strides. */
  lemma {:induction false} StridesSound<T>(x: seq<T>, ni: nat, s: int, q: seq<T>)
    requires ni >= 1 && q in Strides(x, ni, s)
    ensures exists si: nat, p: nat :: 1 <= si <= s && p + si * (ni - 1) < |x| && q == Sample(x, p, si, ni)
    decreases s
  {
    if q in Strides(x, ni, s - 1) {
      StridesSound(x, ni, s - 1, q);
    } else {
      StartsSound(x, ni, s, q);
    }
  }

  /** The scan over sizes `lo .. hi-1` includes every probe of each of those sizes. */
  lemma {:induction false} RangeComplete<T>(x: seq<T>, lo: nat, hi: int, S: int, ni: nat, q: seq<T>)
    requires 1 <= lo <= ni < hi && q in SizeProbes(x, ni, S)
    ensures q in Range(x, lo, hi, S)
    decreases hi - lo
  {
    RangeStep(x, lo, hi, S);
    var before, last := Range(x, lo, hi - 1, S), SizeProbes(x, hi - 1, S);
    if ni < hi - 1 {
      RangeComplete(x, lo, hi - 1, S, ni, q);
      assert q in before;
    } else {
      assert q in last;
    }
    assert q in before + last;
  }

  /** Past the last size the scan is the scan up to `hi`. */
  lemma RangeEmpty<T>(x: seq<T>, lo: nat, ni: int, hi: int, S: int)
    requires 1 <= lo && (ni == hi || (ni == lo && hi <= lo))
    ensures Range(x, lo, ni, S) == Range(x, lo, hi, S)
  {
  }

  /** The scan over sizes `lo .. hi-1` is the scan up to `hi - 2` followed by size `hi - 1`. */
  lemma RangeStep<T>(x: seq<T>, lo: nat, hi: int, S: int)
    requires 1 <= lo < hi
    ensures Range(x, lo, hi, S) == Range(x, lo, hi - 1, S) + SizeProbes(x, hi - 1, S)
  {
  }

  /** Every probe of a size pass has that size. */
  lemma SizeProbesSizes<T>(x: seq<T>, ni: nat, S: int, q: seq<T>)
    requires ni >= 1 && q in SizeProbes(x, ni, S)
    ensures |q| == ni
  {
    if ni == 1 {
      StartsSound(x, 1, 1, q);
    } else {
      StridesSound(x, ni, S + 1, q);
    }
  }

  /** Every probe of the scan over sizes `lo .. hi-1` has one of those sizes. */
  lemma {:induction false} RangeSizes<T>(x: seq<T>, lo: nat, hi: int, S: int, q: seq<T>)
    requires lo >= 1 && q in Range(x, lo, hi, S)
    ensures lo <= |q| < hi
    decreases hi - lo
  {
    RangeStep(x, lo, hi, S);
    var before, last := Range(x, lo, hi - 1, S), SizeProbes(x, hi - 1, S);
    assert q in before + last;
    if q in before {
      RangeSizes(x, lo, hi - 1, S, q);
    } else {
      SizeProbesSizes(x, hi - 1, S, q);
    }
  }

  /** The probes of size `ni` hold the sample at every stride the size allows, from every start where it fits. */
  lemma SizeProbesComplete<T>(x: seq<T>, ni: nat, S: int, si: nat, p: nat)
    requires ni >= 1 && (ni == 1 ==> si == 1) && (ni >= 2 ==> 1 <= si <= S + 1)
    requires p + si * (ni - 1) < |x|
    ensures Sample(x, p, si, ni) in SizeProbes(x, ni, S)
  {
    if ni == 1 {
      StartsComplete(x, 1, 1, p);
    } else {
      StridesComplete(x, ni, S + 1, si, p);
    }
  }

  /** Every probe of size `ni` is a sample at a stride the size allows, from a start where it fits. */
  lemma SizeProbesSound<T>(x: seq<T>, ni: nat, S: int, q: seq<T>)
    requires ni >= 1 && q in SizeProbes(x, ni, S)
    ensures exists si: nat, p: nat ::
              && (ni == 1 ==> si == 1) && (ni >= 2 ==> 1 <= si <= S + 1)
              && p + si * (ni - 1) < |x| && q == Sample(x, p, si, ni)
  {
    if ni == 1 {
      StartsSound(x, 1, 1, q);
      var p: nat :| p + 1 * (ni - 1) < |x| && q == Sample(x, p, 1, ni);
      assert (ni == 1 ==> 1 == 1) && p + 1 * (ni - 1) < |x| && q == Sample(x, p, 1, ni);
    } else {
      StridesSound(x, ni, S + 1, q);
    }
  }

  /** Every probe of the scan over sizes `lo .. hi-1` is a probe of one of those sizes. */
  lemma {:induction false} RangeSound<T>(x: seq<T>, lo: nat, hi: int, S: int, q: seq<T>)
    requires lo >= 1 && q in Range(x, lo, hi, S)
    ensures exists ni: nat :: lo <= ni < hi && q in SizeProbes(x, ni, S)
    decreases hi - lo
  {
    RangeStep(x, lo, hi, S);
    var before, last := Range(x, lo, hi - 1, S), SizeProbes(x, hi - 1, S);
    assert q in before + last;
    if q in before {
      RangeSound(x, lo, hi - 1, S, q);
    } else {
      assert q in last;
    }
  }

  /** The probes of the sizes `lo .. hi-1` hold the sample of each such size at every allowed stride and fitting start. */
  lemma RangeSampleComplete<T>(x: seq<T>, lo: nat, hi: int, S: int, ni: nat, si: nat, p: nat)
    requires 1 <= lo <= ni < hi
    requires (ni == 1 ==> si == 1) && (ni >= 2 ==> 1 <= si <= S + 1)
    requires p + si * (ni - 1) < |x|
    ensures Sample(x, p, si, ni) in Range(x, lo, hi, S)
  {
    SizeProbesComplete(x, ni, S, si, p);
    RangeComplete(x, lo, hi, S, ni, Sample(x, p, si, ni));
  }

  /**
   * With `ProbesSound`, the probes of a scan are exactly: the unigrams at
   * every position (when size 1 is scanned), and for every scanned size
   * `ni >= 2`, every stride `si` in `1..S+1` and every start `p` with
   * `p + si*(ni-1) + 1 <= |x|`, the sample of `ni` tokens at stride `si`
   * from `p`.  This lemma gives the inclusion of all those samples.
   */
  lemma ProbesComplete<T>(x: seq<T>, M: int, N: int, S: int, all: bool, ni: nat, si: nat, p: nat)
    requires 1 <= M <= N
    requires (if all then M else N) <= ni <= N
    requires ni == 1 ==> si == 1
    requires ni >= 2 ==> 1 <= si <= S + 1
    requires p + si * (ni - 1) < |x|
    ensures Sample(x, p, si, ni) in Probes(x, M, N, S, all)
  {
    var lo := if all then M else N;
    var r := Range(x, lo, N + 1, S);
    assert r == Probes(x, M, N, S, all);
    RangeSampleComplete(x, lo, N + 1, S, ni, si, p);
  }

  /**
   * `q` is the sample of some size `ni` in `lo .. hi-1`, at a stride `si` that
   * size allows, from a start `p` where the whole n-gram fits.
   */
  ghost predicate SampleOfSizes<T>(x: seq<T>, q: seq<T>, lo: int, hi: int, S: int)
  {
    exists ni: nat, si: nat, p: nat ::
      && lo <= ni < hi
      && (ni == 1 ==> si == 1) && (ni >= 2 ==> 1 <= si <= S + 1)
      && p + si * (ni - 1) < |x| && q == Sample(x, p, si, ni)
  }

  /** Every probe of the sizes `lo .. hi-1` is a sample of one of those sizes at an allowed stride, where it fits. */
  lemma RangeSamplesSound<T>(x: seq<T>, lo: nat, hi: int, S: int, q: seq<T>)
    requires lo >= 1 && q in Range(x, lo, hi, S)
    ensures SampleOfSizes(x, q, lo, hi, S)
  {
    RangeSound(x, lo, hi, S, q);
    var ni: nat :| lo <= ni < hi && q in SizeProbes(x, ni, S);
    SizeProbesSound(x, ni, S, q);
  }

  /** Every probe of a scan is one of the samples `ProbesComplete` names: nothing else is looked up. */
  lemma ProbesSound<T>(x: seq<T>, M: int, N: int, S: int, all: bool, q: seq<T>)
    requires 1 <= M <= N && q in Probes(x, M, N, S, all)
    ensures SampleOfSizes(x, q, if all then M else N, N + 1, S)
  {
    RangeSamplesSound(x, if all then M else N, N + 1, S, q);
  }

  /** Every probe of a scan has a size between the lower bound and `N`. */
  lemma ProbesSizes<T>(x: seq<T>, M: int, N: int, S: int, all: bool, q: seq<T>)
    requires 1 <= M <= N && q in Probes(x, M, N, S, all)
    ensures (if all then M else N) <= |q| <= N
  {
    var lo := if all then M else N;
    var r := Range(x, lo, N + 1, S);
    assert r == Probes(x, M, N, S, all);
    RangeSizes(x, lo, N + 1, S, q);
  }

  /** With `M = N = 1` the skip count does not change the probes. */
  lemma UnigramsIgnoreSkips<T>(x: seq<T>, S1: int, S2: int, all1: bool, all2: bool)
    ensures Probes(x, 1, 1, S1, all1) == Probes(x, 1, 1, S2, all2)
  {
    assert Range(x, 1, 2, S1) == Range(x, 1, 1, S1) + SizeProbes(x, 1, S1);
    assert Range(x, 1, 2, S2) == Range(x, 1, 1, S2) + SizeProbes(x, 1, S2);
  }

  /** A negative skip count leaves no stride pass for sizes of two or more. */
  lemma NegativeSkipsNoMultiTokenProbes<T>(x: seq<T>, ni: nat, S: int)
    requires ni >= 2 && S < 0
    ensures SizeProbes(x, ni, S) == []
  {
  }

  /** Tokens 1..5, bigrams, one skip: contiguous pairs, then pairs two apart. */
  /** A scan of unigrams only looks up every token once, in input order, whatever the skip count. */
  lemma UnigramScan<T>(x: seq<T>, S: int, all: bool)
    ensures Probes(x, 1, 1, S, all) == seq(|x|, p requires 0 <= p < |x| => [x[p]])
  {
    var u := seq(|x|, p requires 0 <= p < |x| => [x[p]]);
    forall p: nat | p < |x| ensures Starts(x, 1, 1, |x|)[p] == u[p] {
      SampleAt(x, p, 1, 1, 0);
    }
    assert Range(x, 1, 2, S) == Range(x, 1, 1, S) + Pass(x, 1, 1);
  }

  lemma BigramSkipExample()
    ensures SizeProbes([1, 2, 3, 4, 5], 2, 1)
            == [[1, 2], [2, 3], [3, 4], [4, 5], [1, 3], [2, 4], [3, 5]]
  {
    var x := [1, 2, 3, 4, 5];
    forall p: nat | p < 4 ensures Starts(x, 2, 1, 4)[p] == [x[p], x[p + 1]] {
      SampleAt(x, p, 1, 2, 0);
      SampleAt(x, p, 1, 2, 1);
    }
    forall p: nat | p < 3 ensures Starts(x, 2, 2, 3)[p] == [x[p], x[p + 2]] {
      SampleAt(x, p, 2, 2, 0);
      SampleAt(x, p, 2, 2, 1);
    }
    assert Starts(x, 2, 1, 4) == [[1, 2], [2, 3], [3, 4], [4, 5]];
    assert Starts(x, 2, 2, 3) == [[1, 3], [2, 4], [3, 5]];
    assert Strides(x, 2, 2) == Strides(x, 2, 1) + Starts(x, 2, 2, 3);
    assert Strides(x, 2, 1) == Strides(x, 2, 0) + Starts(x, 2, 1, 4);
  }
}
