/**
 * Setup of the Ngram kernel (the `Ngram` constructor in ngram.cc): the
 * validation of the configuration and the dictionary build.  Attribute
 * fetching is replaced by an `Attributes` value; an optional attribute is an
 * `Option`.
 */
module NgramSetup {
  import opened Wrappers
  import opened MachineInts
  import opened Vocabulary

  /** Weighting policy of the output. */
  datatype Mode = TF | IDF | TFIDF

  /** The `mode` attribute: exactly "TF", "IDF" or "TFIDF"; anything else is unrecognized. */
  function ParseMode(name: string): (r: Option<Mode>)
    ensures r == Some(TF) <==> name == "TF"
    ensures r == Some(IDF) <==> name == "IDF"
    ensures r == Some(TFIDF) <==> name == "TFIDF"
    ensures r.None? <==> name != "TF" && name != "IDF" && name != "TFIDF"
  {
    if name == "TF" then Some(TF)
    else if name == "IDF" then Some(IDF)
    else if name == "TFIDF" then Some(TFIDF)
    else None
  }

  /** The node attributes the constructor reads; `weights` and the two pools are optional. */
  datatype Attributes = Attributes(
    mode: string,
    M: int64,
    N: int64,
    S: int64,
    all: int64,
    ngramCounts: seq<int64>,
    ngramIndexes: seq<int64>,
    weights: Option<seq<real>>,
    poolStrings: Option<seq<string>>,
    poolInt64s: Option<seq<int64>>)

  /**
   * The kernel after setup.  `weights` is empty when the attribute is absent;
   * `poolStrings` is empty for an integer pool.  Only one of the two sets is
   * filled, the other stays empty.
   */
  datatype Ngram = Ngram(
    mode: Mode,
    M: int64,
    N: int64,
    S: int64,
    all: bool,
    ngramCounts: seq<int64>,
    ngramIndexes: seq<int64>,
    weights: seq<real>,
    poolStrings: seq<string>,
    strSet: Dictionary<string>,
    intSet: Dictionary<int64>)
  {
    /** What a successful setup guarantees to every scan. */
    predicate Valid()
    {
      && M > 0 && N >= M
      && |ngramIndexes| > 0
      && (|weights| == 0 || |weights| == |ngramIndexes|)
      && (forall q :: q in strSet ==> strSet[q] < |ngramIndexes|)
      && (forall q :: q in intSet ==> intSet[q] < |ngramIndexes|)
      && (|poolStrings| == 0 ==> |strSet| == 0 && |intSet| == |ngramIndexes|)
      && (|poolStrings| > 0 ==> |intSet| == 0 && |strSet| <= |poolStrings| == |ngramIndexes|)
    }
  }

  /** A pool builds into a dictionary: every class in bounds and whole, no chunk repeated. */
  predicate PoolBuilds<T(==)>(pool: seq<T>, counts: seq<int64>)
  {
    ClassesOk(pool, counts, 0) && Fresh(map[], AllChunks(pool, counts, 0))
  }

  /** The scalar checks pass: a known mode and `0 < M <= N`. */
  predicate ScalarsOk(a: Attributes)
  {
    ParseMode(a.mode).Some? && a.M > 0 && a.N >= a.M
  }

  /** The checks before the pool pass: non-empty counts and indexes, weights (if any) as long as the indexes. */
  predicate ListsOk(a: Attributes)
  {
    && ScalarsOk(a)
    && |a.ngramCounts| > 0
    && |a.ngramIndexes| > 0
    && (a.weights.Some? ==> |a.weights.value| == |a.ngramIndexes|)
  }

  /**
   * The configurations the constructor accepts, stated without the walk:
   * a known mode, `0 < M <= N`, non-empty counts and indexes, weights (if any)
   * as long as the indexes, a non-empty pool that builds, and the final size
   * check -- on the number of n-grams for an integer pool but on the raw pool
   * length for a string pool.
   */
  predicate Accepts(a: Attributes)
  {
    && ListsOk(a)
    && if a.poolStrings.Some? then
         && |a.poolStrings.value| > 0
         && PoolBuilds(a.poolStrings.value, a.ngramCounts)
         && |a.poolStrings.value| == |a.ngramIndexes|
       else
         && a.poolInt64s.Some? && |a.poolInt64s.value| > 0
         && PoolBuilds(a.poolInt64s.value, a.ngramCounts)
         && |AllChunks(a.poolInt64s.value, a.ngramCounts, 0)| == |a.ngramIndexes|
  }

  /**
   * The check at ngram.cc:286 tests `N` rather than `S`: acceptance does not
   * depend on `S`, so a negative `S` is accepted.
   */
  lemma SkipCountNeverChecked(a: Attributes, s: int64)
    ensures Accepts(a) <==> Accepts(a.(S := s))
  {
  }

  /**
   * The final size check of a string pool counts tokens, not n-grams: the
   * pool ["a", "b"] with `ngram_counts` [0, 0] holds the single bigram
   * ("a", "b"), yet is accepted with two `ngram_indexes` (and two weights),
   * so the string set and the frequencies have one entry fewer than the
   * weights.
   */
  lemma StringPoolCountsTokensExample()
    ensures var a := Attributes("IDF", 2, 2, 0, 0, [0, 0], [0, 1], Some([0.5, 0.25]), Some(["a", "b"]), None);
            && Accepts(a)
            && AllChunks(["a", "b"], [0, 0], 0) == [["a", "b"]]
            && |AllChunks(["a", "b"], [0, 0], 0)| < |a.ngramIndexes|
  {
    var pool: seq<string>, counts: seq<int64> := ["a", "b"], [0, 0];
    assert ClassOk(counts, |pool|, 0);
    assert Rem(2, 2) == Rem(0, 2) == 0;
    assert ClassOk(counts, |pool|, 1);
    assert ClassesOk(pool, counts, 0);
    assert ClassChunks(pool, counts, 0) == [];
    assert pool[0..2] == pool;
    assert Chunks(pool[2..], 2) == [];
    assert ClassChunks(pool, counts, 1) == [pool];
    assert AllChunks(pool, counts, 2) == [];
    assert AllChunks(pool, counts, 0) == [pool];
  }

  /**
   * The `Ngram` constructor: validates the attributes in the source's order
   * and builds the dictionary from the pool.  Each check that fails, after
   * all earlier ones passed, gives its own error; a failing pool walk gives
   * the walk's error.
   */
  method Setup(a: Attributes) returns (r: Result<Ngram, SetupError>)
    ensures r.Success? <==> Accepts(a)
    ensures ParseMode(a.mode).None? ==> r == Failure(UnrecognizedMode)
    ensures ParseMode(a.mode).Some? && a.M <= 0 ==> r == Failure(NonPositiveM)
    ensures ParseMode(a.mode).Some? && a.M > 0 && a.N < a.M ==> r == Failure(NLessThanM)
    ensures ScalarsOk(a) && |a.ngramCounts| == 0 ==> r == Failure(EmptyNgramCounts)
    ensures ScalarsOk(a) && |a.ngramCounts| > 0 && |a.ngramIndexes| == 0 ==> r == Failure(EmptyNgramIndexes)
    ensures ScalarsOk(a) && |a.ngramCounts| > 0 && |a.ngramIndexes| > 0 && a.weights.Some? ==>
              (|a.weights.value| != |a.ngramIndexes| ==> r == Failure(WeightsSizeMismatch))
    ensures ListsOk(a) && a.poolStrings == Some([]) ==> r == Failure(EmptyPoolStrings)
    ensures ListsOk(a) && a.poolStrings.Some? && |a.poolStrings.value| > 0 ==>
              var built := BuildFrom(a.poolStrings.value, a.ngramCounts, 0, map[], 0);
              && (built.Failure? ==> r == Failure(built.error))
              && (built.Success? && |a.poolStrings.value| != |a.ngramIndexes| ==> r == Failure(PoolSizeMismatch))
    ensures ListsOk(a) && a.poolStrings.None? && (a.poolInt64s.None? || a.poolInt64s == Some([])) ==>
              r == Failure(MissingPoolInt64s)
    ensures ListsOk(a) && a.poolStrings.None? && a.poolInt64s.Some? && |a.poolInt64s.value| > 0 ==>
              var built := BuildFrom(a.poolInt64s.value, a.ngramCounts, 0, map[], 0);
              && (built.Failure? ==> r == Failure(built.error))
              && (built.Success? && |built.value.0| != |a.ngramIndexes| ==> r == Failure(PoolSizeMismatch))
    ensures r.Success? ==> r.value.Valid()
    ensures r.Success? ==>
              && Some(r.value.mode) == ParseMode(a.mode)
              && r.value.M == a.M && r.value.N == a.N && r.value.S == a.S
              && r.value.all == (a.all != 0)
              && r.value.ngramCounts == a.ngramCounts && r.value.ngramIndexes == a.ngramIndexes
              && r.value.weights == (if a.weights.Some? then a.weights.value else [])
    ensures r.Success? && a.poolStrings.Some? ==>
              r.value.poolStrings == a.poolStrings.value
              && r.value.strSet == Emplaced(map[], AllChunks(a.poolStrings.value, a.ngramCounts, 0), 0)
    ensures r.Success? && a.poolStrings.None? ==>
              r.value.poolStrings == []
              && r.value.intSet == Emplaced(map[], AllChunks(a.poolInt64s.value, a.ngramCounts, 0), 0)
  {
    var mode := ParseMode(a.mode);
    if mode.None? {
      return Failure(UnrecognizedMode);
    }
    if !(a.M > 0) {
      return Failure(NonPositiveM);
    }
    if !(a.N >= a.M) {
      return Failure(NLessThanM);
    }
    // ngram.cc:286 enforces `N >= 0`, which the two checks above imply.
    var all := a.all != 0;
    if |a.ngramCounts| == 0 {
      return Failure(EmptyNgramCounts);
    }
    if |a.ngramIndexes| == 0 {
      return Failure(EmptyNgramIndexes);
    }
    var weights: seq<real> := [];
    if a.weights.Some? {
      if |a.weights.value| != |a.ngramIndexes| {
        return Failure(WeightsSizeMismatch);
      }
      weights := a.weights.value;
    }
    if a.poolStrings.Some? {
      var pool := a.poolStrings.value;
      if |pool| == 0 {
        return Failure(EmptyPoolStrings);
      }
      var built := BuildDictionary(pool, a.ngramCounts);
      BuildFromSpec(pool, a.ngramCounts, 0, map[], 0);
      if built.Failure? {
        return Failure(built.error);
      }
      BuiltDictionary(pool, a.ngramCounts);
      AllChunksBound(pool, a.ngramCounts, 0);
      if |pool| != |a.ngramIndexes| {
        return Failure(PoolSizeMismatch);
      }
      r := Success(Ngram(mode.value, a.M, a.N, a.S, all, a.ngramCounts, a.ngramIndexes,
                         weights, pool, built.value.0, map[]));
    } else {
      if a.poolInt64s.None? || |a.poolInt64s.value| == 0 {
        return Failure(MissingPoolInt64s);
      }
      var pool := a.poolInt64s.value;
      var built := BuildDictionary(pool, a.ngramCounts);
      BuildFromSpec(pool, a.ngramCounts, 0, map[], 0);
      if built.Failure? {
        return Failure(built.error);
      }
      BuiltDictionary(pool, a.ngramCounts);
      if |built.value.0| != |a.ngramIndexes| {
        return Failure(PoolSizeMismatch);
      }
      r := Success(Ngram(mode.value, a.M, a.N, a.S, all, a.ngramCounts, a.ngramIndexes,
                         weights, [], map[], built.value.0));
    }
  }
}
