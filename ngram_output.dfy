/**
 * The weighting of `Ngram::OutputResult` (ngram.cc): one output value per
 * frequency slot, by mode.  TF copies the counts; IDF marks the slots that
 * were hit, with their weight or with 1; TFIDF multiplies each count by its
 * weight, or copies the counts when there are no weights.  Floats are reals.
 */
module NgramOutput {
  import opened NgramSetup

  /** Weights are usable for `f` when there are none or they cover every slot. */
  predicate WeightsCover(mode: Mode, f: seq<nat>, w: seq<real>)
  {
    mode == TF || |w| == 0 || |f| <= |w|
  }

  /** The output value of slot `i` with count `c`. */
  function SlotValue(mode: Mode, c: nat, i: nat, w: seq<real>): real
    requires mode == TF || |w| == 0 || i < |w|
  {
    match mode
    case TF => c as real
    case IDF => if c > 0 then (if |w| > 0 then w[i] else 1.0) else 0.0
    case TFIDF => if |w| > 0 then c as real * w[i] else c as real
  }

  /** The whole output for counts `f`. */
  function Weighted(mode: Mode, f: seq<nat>, w: seq<real>): (r: seq<real>)
    requires WeightsCover(mode, f, w)
    ensures |r| == |f|
  {
    seq(|f|, i requires 0 <= i < |f| => SlotValue(mode, f[i], i, w))
  }

  /** The output for one more slot appends that slot's value. */
  lemma WeightedSnoc(mode: Mode, f: seq<nat>, i: nat, w: seq<real>)
    requires i < |f| && WeightsCover(mode, f, w)
    ensures WeightsCover(mode, f[..i], w) && WeightsCover(mode, f[..i + 1], w)
    ensures Weighted(mode, f[..i + 1], w) == Weighted(mode, f[..i], w) + [SlotValue(mode, f[i], i, w)]
  {
    var a, b := Weighted(mode, f[..i + 1], w), Weighted(mode, f[..i], w) + [SlotValue(mode, f[i], i, w)];
    forall k | 0 <= k <= i ensures a[k] == b[k] {
    }
  }

  /**
   * `OutputResult`: writes one value per slot, in slot order, with the loop
   * of the selected mode.
   */
  method OutputResult(frequencies: seq<nat>, mode: Mode, w: seq<real>) returns (output: seq<real>)
    requires WeightsCover(mode, frequencies, w)
    ensures output == Weighted(mode, frequencies, w)
  {
    output := [];
    var i := 0;
    match mode {
      case TF =>
        while i < |frequencies|
          invariant i <= |frequencies| && output == Weighted(mode, frequencies[..i], w)
        {
          WeightedSnoc(mode, frequencies, i, w);
          output := output + [frequencies[i] as real];
          i := i + 1;
        }
      case IDF =>
        if |w| > 0 {
          while i < |frequencies|
            invariant i <= |frequencies| && output == Weighted(mode, frequencies[..i], w)
          {
            WeightedSnoc(mode, frequencies, i, w);
            output := output + [if frequencies[i] > 0 then w[i] else 0.0];
            i := i + 1;
          }
        } else {
          while i < |frequencies|
            invariant i <= |frequencies| && output == Weighted(mode, frequencies[..i], w)
          {
            WeightedSnoc(mode, frequencies, i, w);
            output := output + [if frequencies[i] > 0 then 1.0 else 0.0];
            i := i + 1;
          }
        }
      case TFIDF =>
        if |w| > 0 {
          while i < |frequencies|
            invariant i <= |frequencies| && output == Weighted(mode, frequencies[..i], w)
          {
            WeightedSnoc(mode, frequencies, i, w);
            assert SlotValue(TFIDF, frequencies[i], i, w) == frequencies[i] as real * w[i];
            output := output + [frequencies[i] as real * w[i]];
            i := i + 1;
          }
        } else {
          while i < |frequencies|
            invariant i <= |frequencies| && output == Weighted(mode, frequencies[..i], w)
          {
            WeightedSnoc(mode, frequencies, i, w);
            output := output + [frequencies[i] as real];
            i := i + 1;
          }
        }
    }
    assert frequencies[..i] == frequencies;
  }

  /** TF ignores the weights: the output is the counts. */
  lemma TFIgnoresWeights(f: seq<nat>, w1: seq<real>, w2: seq<real>)
    ensures Weighted(TF, f, w1) == Weighted(TF, f, w2)
    ensures forall i :: 0 <= i < |f| ==> Weighted(TF, f, w1)[i] == f[i] as real
  {
  }

  /** TFIDF without weights is TF. */
  lemma UnweightedTFIDFIsTF(f: seq<nat>)
    ensures Weighted(TFIDF, f, []) == Weighted(TF, f, [])
  {
  }

  /** With weights, TFIDF is TF scaled slot by slot. */
  lemma WeightedTFIDFScalesTF(f: seq<nat>, w: seq<real>)
    requires 0 < |w| && |f| <= |w|
    ensures forall i :: 0 <= i < |f| ==> Weighted(TFIDF, f, w)[i] == Weighted(TF, f, w)[i] * w[i]
  {
  }

  /** 1 for a slot that was hit, 0 for one that was not. */
  function Presence(f: seq<nat>): (r: seq<nat>)
    ensures |r| == |f|
    ensures forall i :: 0 <= i < |f| ==> (r[i] == 1 <==> f[i] > 0) && r[i] <= 1
  {
    seq(|f|, i requires 0 <= i < |f| => if f[i] > 0 then 1 else 0)
  }

  /**
   * IDF is TFIDF of the presence pattern: a hit slot gets its weight (or 1),
   * whatever its count.
   */
  lemma IDFIsTFIDFOfPresence(f: seq<nat>, w: seq<real>)
    requires |w| == 0 || |f| <= |w|
    ensures Weighted(IDF, f, w) == Weighted(TFIDF, Presence(f), w)
  {
    var a, b := Weighted(IDF, f, w), Weighted(TFIDF, Presence(f), w);
    forall i | 0 <= i < |f| ensures a[i] == b[i] {
      if f[i] == 0 {
        assert Presence(f)[i] == 0;
      } else {
        assert Presence(f)[i] == 1;
      }
    }
  }

  /** Unweighted IDF is the presence pattern itself: 1.0 exactly at the slots that were hit. */
  lemma UnweightedIDFMarksHits(f: seq<nat>)
    ensures forall i :: 0 <= i < |f| ==> Weighted(IDF, f, [])[i] == (if f[i] > 0 then 1.0 else 0.0)
    ensures forall i :: 0 <= i < |f| ==> (Weighted(IDF, f, [])[i] == 0.0 <==> f[i] == 0)
  {
  }

  /** Counts [3, 0] with weights [0.5, 0.7]: IDF gives [0.5, 0.0], TFIDF gives [1.5, 0.0]. */
  lemma WeightingExample()
    ensures Weighted(IDF, [3, 0], [0.5, 0.7]) == [0.5, 0.0]
    ensures Weighted(TFIDF, [3, 0], [0.5, 0.7]) == [1.5, 0.0]
    ensures Weighted(TFIDF, [3, 0], []) == [3.0, 0.0]
  {
  }
}
