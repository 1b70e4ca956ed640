/**
 * The scan loops of `ComputeImpl` (ngram.cc): every probe of the enumeration
 * is looked up in the dictionary and every hit is counted into a frequency
 * vector as long as the dictionary, zero-initialized per call.
 */
module NgramScan {
  import opened MachineInts
  import opened Vocabulary
  import opened Scanner
  import opened Frequencies

  /** One probe: a hit bumps the slot of its id through `IncrementCount`, a miss changes nothing. */
  method CountProbe<T(==)>(q: seq<T>, dict: Dictionary<T>, indexes: seq<int64>, frequencies: array<nat>)
    returns (ok: bool)
    requires IdsInRange(dict, indexes) && (q in dict ==> indexes[dict[q]] as int < frequencies.Length)
    modifies frequencies
    ensures ok <==> SlotOk(q, dict, indexes)
    ensures ok ==> frequencies[..] == Record(old(frequencies[..]), q, dict, indexes)
  {
    ok := true;
    if q in dict {
      ok := IncrementCount(dict[q], indexes, frequencies);
    }
  }

  /** Counting the sample at start `k` extends the slot check and the tally to `k + 1` starts. */
  lemma StartsStep<T>(x: seq<T>, ni: nat, si: nat, k: nat, start: seq<nat>, mid: seq<nat>, f: seq<nat>,
                      dict: map<seq<T>, nat>, indexes: seq<int64>)
    requires ni >= 1 && k + si * (ni - 1) < |x| && IdsInRange(dict, indexes)
    requires SlotsNonNegative(Starts(x, ni, si, k), dict, indexes)
    requires mid == Tally(start, Starts(x, ni, si, k), dict, indexes)
    requires SlotOk(Sample(x, k, si, ni), dict, indexes)
    requires f == Record(mid, Sample(x, k, si, ni), dict, indexes)
    ensures SlotsNonNegative(Starts(x, ni, si, k + 1), dict, indexes)
    ensures f == Tally(start, Starts(x, ni, si, k + 1), dict, indexes)
  {
    StartsSnoc(x, ni, si, k);
    SlotsNonNegativeSnoc(Starts(x, ni, si, k), Sample(x, k, si, ni), dict, indexes);
    TallySnoc(start, Starts(x, ni, si, k), Sample(x, k, si, ni), dict, indexes);
  }

  /** A sample with a negative slot fails the whole stride pass it belongs to. */
  lemma StartsFailure<T>(x: seq<T>, ni: nat, si: nat, k: nat, dict: map<seq<T>, nat>, indexes: seq<int64>)
    requires ni >= 1 && k + si * (ni - 1) < |x| && IdsInRange(dict, indexes)
    requires !SlotOk(Sample(x, k, si, ni), dict, indexes)
    ensures !SlotsNonNegative(Pass(x, ni, si), dict, indexes)
  {
    StartsComplete(x, ni, si, k);
    MemberFailure(Pass(x, ni, si), Sample(x, k, si, ni), dict, indexes);
  }

  /** The unigram pass: a one-token probe at every position; the skip count does not apply. */
  method CountUnigrams<T(==)>(x: seq<T>, dict: Dictionary<T>, indexes: seq<int64>, frequencies: array<nat>)
    returns (ok: bool)
    requires IdsInRange(dict, indexes) && HitsBelow(Pass(x, 1, 1), dict, indexes, frequencies.Length)
    modifies frequencies
    ensures ok <==> SlotsNonNegative(Pass(x, 1, 1), dict, indexes)
    ensures ok ==> frequencies[..] == Tally(old(frequencies[..]), Pass(x, 1, 1), dict, indexes)
  {
    var first := 0;
    while first != |x|
      invariant first <= |x|
      invariant SlotsNonNegative(Starts(x, 1, 1, first), dict, indexes)
      invariant frequencies[..] == Tally(old(frequencies[..]), Starts(x, 1, 1, first), dict, indexes)
    {
      var sample := [x[first]];
      assert sample == Sample(x, first, 1, 1);
      StartsComplete(x, 1, 1, first);
      ghost var mid := frequencies[..];
      ok := CountProbe(sample, dict, indexes, frequencies);
      if !ok {
        StartsFailure(x, 1, 1, first, dict, indexes);
        return;
      }
      StartsStep(x, 1, 1, first, old(frequencies[..]), mid, frequencies[..], dict, indexes);
      first := first + 1;
    }
    return true;
  }

  /** One stride pass of a size `ni >= 2`: the sample at stride `si` from every start where it fits. */
  method CountStride<T(==)>(x: seq<T>, ni: nat, si: nat, dict: Dictionary<T>, indexes: seq<int64>, frequencies: array<nat>)
    returns (ok: bool)
    requires ni >= 2 && si >= 1
    requires IdsInRange(dict, indexes) && HitsBelow(Pass(x, ni, si), dict, indexes, frequencies.Length)
    modifies frequencies
    ensures ok <==> SlotsNonNegative(Pass(x, ni, si), dict, indexes)
    ensures ok ==> frequencies[..] == Tally(old(frequencies[..]), Pass(x, ni, si), dict, indexes)
  {
    var span := si * (ni - 1);
    var ngramStart := 0;
    while ngramStart < |x|
      invariant ngramStart <= StartCount(|x|, span)
      invariant SlotsNonNegative(Starts(x, ni, si, ngramStart), dict, indexes)
      invariant frequencies[..] == Tally(old(frequencies[..]), Starts(x, ni, si, ngramStart), dict, indexes)
    {
      var ngramEnd := ngramStart + span + 1;
      if ngramEnd > |x| {
        break;
      }
      var sample := BuildSample(x, ngramStart, si, ni);
      StartsComplete(x, ni, si, ngramStart);
      ghost var mid := frequencies[..];
      ok := CountProbe(sample, dict, indexes, frequencies);
      if !ok {
        StartsFailure(x, ni, si, ngramStart, dict, indexes);
        return;
      }
      StartsStep(x, ni, si, ngramStart, old(frequencies[..]), mid, frequencies[..], dict, indexes);
      ngramStart := ngramStart + 1;
    }
    assert ngramStart == StartCount(|x|, span);
    return true;
  }

  /** A probe of a stride pass is a probe of every stride range containing that stride. */
  lemma {:induction false} StartsInStrides<T>(x: seq<T>, ni: nat, s: int, si: nat, q: seq<T>)
    requires ni >= 1 && 1 <= si <= s && q in Pass(x, ni, si)
    ensures q in Strides(x, ni, s)
    decreases s
  {
    if si < s {
      StartsInStrides(x, ni, s - 1, si, q);
    }
  }

  /** The slot bound of a stride range holds of each of its stride passes. */
  lemma StrideHitsBelow<T>(x: seq<T>, ni: nat, s: int, si: nat, dict: map<seq<T>, nat>, indexes: seq<int64>, n: nat)
    requires ni >= 1 && 1 <= si <= s && IdsInRange(dict, indexes)
    requires HitsBelow(Strides(x, ni, s), dict, indexes, n)
    ensures HitsBelow(Pass(x, ni, si), dict, indexes, n)
  {
    forall q | q in Pass(x, ni, si) ensures q in Strides(x, ni, s) {
      StartsInStrides(x, ni, s, si, q);
    }
  }

  /** The slot bound of a scan holds of each of its size passes. */
  lemma SizeHitsBelow<T>(x: seq<T>, lo: nat, hi: int, S: int, ni: nat, dict: map<seq<T>, nat>, indexes: seq<int64>, n: nat)
    requires 1 <= lo <= ni < hi && IdsInRange(dict, indexes)
    requires HitsBelow(Range(x, lo, hi, S), dict, indexes, n)
    ensures HitsBelow(SizeProbes(x, ni, S), dict, indexes, n)
  {
    forall q | q in SizeProbes(x, ni, S) ensures q in Range(x, lo, hi, S) {
      RangeComplete(x, lo, hi, S, ni, q);
    }
  }

  lemma StridesStep<T>(x: seq<T>, ni: nat, si: nat)
    requires ni >= 1 && si >= 1
    ensures Strides(x, ni, si) == Strides(x, ni, si - 1) + Pass(x, ni, si)
  {
  }

  lemma StridesNone<T>(x: seq<T>, ni: nat, s: int, t: int)
    requires ni >= 1 && (t == s || (s <= 0 && t == 0))
    ensures Strides(x, ni, t) == Strides(x, ni, s)
  {
  }

  /** A negative slot hit in one stride pass is a negative slot hit of the whole stride range. */
  lemma StrideFailure<T>(x: seq<T>, ni: nat, s: int, si: nat, dict: map<seq<T>, nat>, indexes: seq<int64>)
    requires ni >= 1 && 1 <= si <= s && IdsInRange(dict, indexes)
    requires !SlotsNonNegative(Pass(x, ni, si), dict, indexes)
    ensures !SlotsNonNegative(Strides(x, ni, s), dict, indexes)
  {
    SlotsNonNegativeAll(Pass(x, ni, si), dict, indexes);
    var q :| q in Pass(x, ni, si) && !SlotOk(q, dict, indexes);
    StartsInStrides(x, ni, s, si, q);
    MemberFailure(Strides(x, ni, s), q, dict, indexes);
  }

  /** A negative slot hit in one size pass is a negative slot hit of the whole scan. */
  lemma SizeFailure<T>(x: seq<T>, lo: nat, hi: int, S: int, ni: nat, dict: map<seq<T>, nat>, indexes: seq<int64>)
    requires 1 <= lo <= ni < hi && IdsInRange(dict, indexes)
    requires !SlotsNonNegative(SizeProbes(x, ni, S), dict, indexes)
    ensures !SlotsNonNegative(Range(x, lo, hi, S), dict, indexes)
  {
    SlotsNonNegativeAll(SizeProbes(x, ni, S), dict, indexes);
    var q :| q in SizeProbes(x, ni, S) && !SlotOk(q, dict, indexes);
    RangeComplete(x, lo, hi, S, ni, q);
    MemberFailure(Range(x, lo, hi, S), q, dict, indexes);
  }

  /**
   * One pass of the skip loop inside a size pass that began with counters
   * `start`: it extends the strides `1 .. si-1` by stride `si`, or fails, in
   * which case the whole stride range `1..s` fails.
   */
  method CountNextStride<T(==)>(x: seq<T>, ni: nat, si: nat, s: int, dict: Dictionary<T>, indexes: seq<int64>,
                                frequencies: array<nat>, ghost start: seq<nat>)
    returns (ok: bool)
    requires ni >= 2 && 1 <= si <= s
    requires IdsInRange(dict, indexes) && HitsBelow(Strides(x, ni, s), dict, indexes, frequencies.Length)
    requires SlotsNonNegative(Strides(x, ni, si - 1), dict, indexes)
    requires frequencies[..] == Tally(start, Strides(x, ni, si - 1), dict, indexes)
    modifies frequencies
    ensures !ok ==> !SlotsNonNegative(Strides(x, ni, s), dict, indexes)
    ensures ok ==> SlotsNonNegative(Strides(x, ni, si), dict, indexes)
    ensures ok ==> frequencies[..] == Tally(start, Strides(x, ni, si), dict, indexes)
  {
    ghost var mid := frequencies[..];
    StrideHitsBelow(x, ni, s, si, dict, indexes, frequencies.Length);
    ok := CountStride(x, ni, si, dict, indexes, frequencies);
    if !ok {
      StrideFailure(x, ni, s, si, dict, indexes);
      return;
    }
    StridesStep(x, ni, si);
    AppendStep(start, Strides(x, ni, si - 1), Pass(x, ni, si), mid, frequencies[..], dict, indexes);
  }

  /** The skip loop for one size `ni >= 2`: the stride passes `1..S+1`, none when `S < 0`. */
  method CountSize<T(==)>(x: seq<T>, ni: nat, S: int, dict: Dictionary<T>, indexes: seq<int64>, frequencies: array<nat>)
    returns (ok: bool)
    requires ni >= 2
    requires IdsInRange(dict, indexes) && HitsBelow(Strides(x, ni, S + 1), dict, indexes, frequencies.Length)
    modifies frequencies
    ensures ok <==> SlotsNonNegative(Strides(x, ni, S + 1), dict, indexes)
    ensures ok ==> frequencies[..] == Tally(old(frequencies[..]), Strides(x, ni, S + 1), dict, indexes)
  {
    var si := 1;
    while si <= S + 1
      invariant 1 <= si <= (if S + 1 >= 1 then S + 2 else 1)
      invariant SlotsNonNegative(Strides(x, ni, si - 1), dict, indexes)
      invariant frequencies[..] == Tally(old(frequencies[..]), Strides(x, ni, si - 1), dict, indexes)
    {
      ok := CountNextStride(x, ni, si, S + 1, dict, indexes, frequencies, old(frequencies[..]));
      if !ok {
        return;
      }
      si := si + 1;
    }
    StridesNone(x, ni, S + 1, si - 1);
    return true;
  }

  /** The passes of one size: the unigram pass for size 1, the skip loop otherwise. */
  method CountSizeProbes<T(==)>(x: seq<T>, ni: nat, S: int, dict: Dictionary<T>, indexes: seq<int64>, frequencies: array<nat>)
    returns (ok: bool)
    requires ni >= 1
    requires IdsInRange(dict, indexes) && HitsBelow(SizeProbes(x, ni, S), dict, indexes, frequencies.Length)
    modifies frequencies
    ensures ok <==> SlotsNonNegative(SizeProbes(x, ni, S), dict, indexes)
    ensures ok ==> frequencies[..] == Tally(old(frequencies[..]), SizeProbes(x, ni, S), dict, indexes)
  {
    if ni == 1 {
      ok := CountUnigrams(x, dict, indexes, frequencies);
    } else {
      ok := CountSize(x, ni, S, dict, indexes, frequencies);
    }
  }

  /**
   * One pass of the size loop inside a scan that began with counters `start`:
   * it extends the scan over sizes `n .. ni-1` by size `ni`, or fails, in which
   * case every scan reaching past `ni` fails.
   */
  method CountNextSize<T(==)>(x: seq<T>, n: nat, ni: nat, hi: int, S: int, dict: Dictionary<T>, indexes: seq<int64>,
                              frequencies: array<nat>, ghost start: seq<nat>)
    returns (ok: bool)
    requires 1 <= n <= ni < hi
    requires IdsInRange(dict, indexes) && HitsBelow(Range(x, n, hi, S), dict, indexes, frequencies.Length)
    requires SlotsNonNegative(Range(x, n, ni, S), dict, indexes)
    requires frequencies[..] == Tally(start, Range(x, n, ni, S), dict, indexes)
    modifies frequencies
    ensures !ok ==> !SlotsNonNegative(Range(x, n, hi, S), dict, indexes)
    ensures ok ==> SlotsNonNegative(Range(x, n, ni + 1, S), dict, indexes)
    ensures ok ==> frequencies[..] == Tally(start, Range(x, n, ni + 1, S), dict, indexes)
  {
    ghost var mid := frequencies[..];
    SizeHitsBelow(x, n, hi, S, ni, dict, indexes, frequencies.Length);
    ok := CountSizeProbes(x, ni, S, dict, indexes, frequencies);
    if !ok {
      SizeFailure(x, n, hi, S, ni, dict, indexes);
      return;
    }
    RangeStep(x, n, ni + 1, S);
    AppendStep(start, Range(x, n, ni, S), SizeProbes(x, ni, S), mid, frequencies[..], dict, indexes);
  }

  /** The size loop of `ComputeImpl`: the passes of the sizes `n..N` in order. */
  method CountRange<T(==)>(x: seq<T>, n: nat, N: int, S: int, dict: Dictionary<T>, indexes: seq<int64>, frequencies: array<nat>)
    returns (ok: bool)
    requires 1 <= n
    requires IdsInRange(dict, indexes) && HitsBelow(Range(x, n, N + 1, S), dict, indexes, frequencies.Length)
    modifies frequencies
    ensures ok <==> SlotsNonNegative(Range(x, n, N + 1, S), dict, indexes)
    ensures ok ==> frequencies[..] == Tally(old(frequencies[..]), Range(x, n, N + 1, S), dict, indexes)
  {
    var ni := n;
    while ni <= N
      invariant n <= ni && (ni <= N + 1 || ni == n)
      invariant SlotsNonNegative(Range(x, n, ni, S), dict, indexes)
      invariant frequencies[..] == Tally(old(frequencies[..]), Range(x, n, ni, S), dict, indexes)
    {
      ok := CountNextSize(x, n, ni, N + 1, S, dict, indexes, frequencies, old(frequencies[..]));
      if !ok {
        return;
      }
      ni := ni + 1;
    }
    RangeEmpty(x, n, ni, N + 1, S);
    return true;
  }

  /**
   * The nested size and skip loops of `ComputeImpl`, with the frequencies
   * sized by the dictionary and zero-initialized: either some hit maps to a
   * negative slot (the fatal error of `IncrementCount`), or the result is
   * the tally of every probe of the enumeration from zero.
   */
  method ScanCount<T(==)>(x: seq<T>, dict: Dictionary<T>, indexes: seq<int64>, M: int, N: int, S: int, all: bool)
    returns (ok: bool, counts: seq<nat>)
    requires 1 <= M <= N
    requires IdsInRange(dict, indexes) && HitsBelow(Probes(x, M, N, S, all), dict, indexes, |dict|)
    ensures ok <==> SlotsNonNegative(Probes(x, M, N, S, all), dict, indexes)
    ensures ok ==> counts == Tally(Zeros(|dict|), Probes(x, M, N, S, all), dict, indexes)
  {
    var frequencies := new nat[|dict|](_ => 0);
    assert frequencies[..] == Zeros(|dict|);
    ok := CountRange(x, if all then M else N, N, S, dict, indexes, frequencies);
    counts := if ok then frequencies[..] else [];
  }
}
