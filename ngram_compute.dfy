/**
 * `Ngram::ComputeImpl` and `Ngram::Compute` (ngram.cc): scan the input tokens
 * against the dictionary of their kind, then weight the counts.  `int32_t`
 * tokens are widened to `int64_t` and looked up in the integer set; string
 * tokens are looked up in the string set.
 */
module NgramCompute {
  import opened Wrappers
  import opened MachineInts
  import opened Vocabulary
  import opened Scanner
  import opened Frequencies
  import opened NgramScan
  import opened NgramSetup
  import opened NgramOutput

  /** The input tensor's elements, flattened, by element type. */
  datatype Tokens =
    | Int32Tokens(i32: seq<int32>)
    | Int64Tokens(i64: seq<int64>)
    | StringTokens(strs: seq<string>)

  /** The only error a scan can raise: a hit whose `ngram_indexes` entry is negative. */
  datatype ScanError = NegativeNgramIndex

  /** `NGramItem<int32_t>::AddItem` stores each token as an `int64_t`. */
  function Widen(xs: seq<int32>): (r: seq<int64>)
    ensures |r| == |xs| && forall k :: 0 <= k < |xs| ==> r[k] as int == xs[k] as int
  {
    seq(|xs|, k requires 0 <= k < |xs| => xs[k] as int as int64)
  }

  /** The probes of a scan of `x` with this kernel's `M`, `N`, `S` and `all`. */
  function ScanProbes<T>(ng: Ngram, x: seq<T>): seq<seq<T>>
    requires ng.Valid()
  {
    Probes(x, ng.M as int, ng.N as int, ng.S as int, ng.all)
  }

  /**
   * `ComputeImpl<T>` over the set `dict`: the frequencies are as long as the
   * set and start at zero; the scan fails when a hit has a negative output
   * slot, and otherwise the output is the mode's weighting of the tally of
   * every probe.  Only the hits need a slot below the set's size.
   */
  method ComputeImpl<T(==)>(ng: Ngram, x: seq<T>, dict: Dictionary<T>) returns (r: Result<seq<real>, ScanError>)
    requires ng.Valid() && |dict| <= |ng.ngramIndexes|
    requires IdsInRange(dict, ng.ngramIndexes) && HitsBelow(ScanProbes(ng, x), dict, ng.ngramIndexes, |dict|)
    ensures r.Success? <==> SlotsNonNegative(ScanProbes(ng, x), dict, ng.ngramIndexes)
    ensures r.Success? ==> |r.value| == |dict|
    ensures r.Success? ==>
              r.value == Weighted(ng.mode, Tally(Zeros(|dict|), ScanProbes(ng, x), dict, ng.ngramIndexes), ng.weights)
  {
    var ok, counts := ScanCount(x, dict, ng.ngramIndexes, ng.M as int, ng.N as int, ng.S as int, ng.all);
    if !ok {
      return Failure(NegativeNgramIndex);
    }
    var output := OutputResult(counts, ng.mode, ng.weights);
    return Success(output);
  }

  /** The size of the set a token kind is looked up in. */
  function SetSize(ng: Ngram, input: Tokens): nat
  {
    if input.StringTokens? then |ng.strSet| else |ng.intSet|
  }

  /**
   * `Compute`: dispatches on the element type.  Integer tokens (either width)
   * are scanned against the integer set, strings against the string set; the
   * output has one value per entry of that set.  Every hit of the scan must
   * map to a slot below that size (a debug assertion of the source).
   */
  method Compute(ng: Ngram, input: Tokens) returns (r: Result<seq<real>, ScanError>)
    requires ng.Valid()
    requires input.Int32Tokens? ==> HitsBelow(ScanProbes(ng, Widen(input.i32)), ng.intSet, ng.ngramIndexes, |ng.intSet|)
    requires input.Int64Tokens? ==> HitsBelow(ScanProbes(ng, input.i64), ng.intSet, ng.ngramIndexes, |ng.intSet|)
    requires input.StringTokens? ==> HitsBelow(ScanProbes(ng, input.strs), ng.strSet, ng.ngramIndexes, |ng.strSet|)
    ensures r.Success? ==> |r.value| == SetSize(ng, input)
    ensures input.Int32Tokens? ==>
              && (r.Success? <==> SlotsNonNegative(ScanProbes(ng, Widen(input.i32)), ng.intSet, ng.ngramIndexes))
              && (r.Success? ==> r.value == Weighted(ng.mode, Tally(Zeros(|ng.intSet|), ScanProbes(ng, Widen(input.i32)),
                                                                      ng.intSet, ng.ngramIndexes), ng.weights))
    ensures input.Int64Tokens? ==>
              && (r.Success? <==> SlotsNonNegative(ScanProbes(ng, input.i64), ng.intSet, ng.ngramIndexes))
              && (r.Success? ==> r.value == Weighted(ng.mode, Tally(Zeros(|ng.intSet|), ScanProbes(ng, input.i64),
                                                                      ng.intSet, ng.ngramIndexes), ng.weights))
    ensures input.StringTokens? ==>
              && (r.Success? <==> SlotsNonNegative(ScanProbes(ng, input.strs), ng.strSet, ng.ngramIndexes))
              && (r.Success? ==> r.value == Weighted(ng.mode, Tally(Zeros(|ng.strSet|), ScanProbes(ng, input.strs),
                                                                      ng.strSet, ng.ngramIndexes), ng.weights))
  {
    match input {
      case Int32Tokens(xs) =>
        r := ComputeImpl(ng, Widen(xs), ng.intSet);
      case Int64Tokens(xs) =>
        r := ComputeImpl(ng, xs, ng.intSet);
      case StringTokens(xs) =>
        r := ComputeImpl(ng, xs, ng.strSet);
    }
  }

  /** The tally of the single probe `[10]` against the unigrams `[10]`, `[20]` mapped to slots `[0, 5]`. */
  lemma UnhitSlotTally()
    ensures var d := map[[10 as int64] := 0, [20 as int64] := 1];
            && IdsInRange(d, [0, 5])
            && SlotsNonNegative([[10 as int64]], d, [0, 5])
            && Tally(Zeros(2), [[10 as int64]], d, [0, 5]) == [1, 0]
  {
    var d := map[[10 as int64] := 0, [20 as int64] := 1];
    TallySnoc(Zeros(2), [], [10 as int64], d, [0, 5]);
    SlotsNonNegativeSnoc([], [10 as int64], d, [0, 5]);
    assert [] + [[10 as int64]] == [[10 as int64]];
  }

  /**
   * Only the hits are bound by the set's size: with the integer pool
   * `[10, 20]` as one class of unigrams mapped to slots `[0, 5]`, the input
   * `[10]` hits only slot 0 and counts `[1.0, 0.0]` in TF mode, although
   * slot 5 lies past the two counters.
   */
  lemma UnhitSlotOutOfRangeExample()
    ensures var d := map[[10 as int64] := 0, [20 as int64] := 1];
            var indexes: seq<int64> := [0, 5];
            var probes := Probes([10 as int64], 1, 1, 0, false);
            && BuildFrom([10 as int64, 20], [0], 0, map[], 0) == Success((d, 2))
            && IdsInRange(d, indexes)
            && indexes[d[[20]]] as int >= |d|
            && HitsBelow(probes, d, indexes, |d|)
            && SlotsNonNegative(probes, d, indexes)
            && Weighted(TF, Tally(Zeros(|d|), probes, d, indexes), []) == [1.0, 0.0]
  {
    UnigramPoolExample();
    UnigramScan([10 as int64], 0, false);
    assert Probes([10 as int64], 1, 1, 0, false) == [[10 as int64]];
    UnhitSlotTally();
  }

  /** The tally of the probes `a, a, b` against the two distinct keys `a`, `b` in slots 0 and 1. */
  lemma TwoKeyTally<T>(a: seq<T>, b: seq<T>)
    requires a != b
    ensures var d := map[a := 0, b := 1];
            && IdsInRange(d, [0, 1])
            && SlotsNonNegative([a, a, b], d, [0, 1])
            && Tally(Zeros(2), [a, a, b], d, [0, 1]) == [2, 1]
  {
    var d := map[a := 0, b := 1];
    TallySnoc(Zeros(2), [], a, d, [0, 1]);
    TallySnoc(Zeros(2), [a], a, d, [0, 1]);
    TallySnoc(Zeros(2), [a, a], b, d, [0, 1]);
    assert [] + [a] == [a] && [a] + [a] == [a, a] && [a, a] + [b] == [a, a, b];
    assert Record(Zeros(2), a, d, [0, 1]) == [1, 0];
    assert Record([1, 0], a, d, [0, 1]) == [2, 0];
    assert Record([2, 0], b, d, [0, 1]) == [2, 1];
    SlotsNonNegativeSnoc([], a, d, [0, 1]);
    SlotsNonNegativeSnoc([a], a, d, [0, 1]);
    SlotsNonNegativeSnoc([a, a], b, d, [0, 1]);
  }

  /** TF over `["a", "a", "b"]` with unigrams `a` and `b` in slots 0 and 1 counts `[2.0, 1.0]`. */
  lemma UnigramCountExample()
    ensures var d := map[["a"] := 0, ["b"] := 1];
            var probes := Probes(["a", "a", "b"], 1, 1, 0, false);
            && IdsInRange(d, [0, 1])
            && HitsBelow(probes, d, [0, 1], |d|)
            && SlotsNonNegative(probes, d, [0, 1])
            && Weighted(TF, Tally(Zeros(2), probes, d, [0, 1]), []) == [2.0, 1.0]
  {
    UnigramScan(["a", "a", "b"], 0, false);
    assert Probes(["a", "a", "b"], 1, 1, 0, false) == [["a"], ["a"], ["b"]];
    assert ["a"] != ["b"] by {
      assert ["a"][0][0] != ["b"][0][0];
    }
    TwoKeyTally(["a"], ["b"]);
  }
}
