/**
 * The dictionary builder of the Ngram kernel (the pool walk of the `Ngram`
 * constructor and `Emplace` in ngram.cc).  The unordered set of NGramItem is
 * modelled as a map from the token sequence to the id it was inserted with:
 * `emplace` adds an entry only when no equal item is present, and equality of
 * items includes their length, so one shared map serves every size class.
 */
module Vocabulary {
  import opened Wrappers
  import opened MachineInts

  /** The setup's configuration errors (every ONNXRUNTIME_ENFORCE of the constructor). */
  datatype SetupError =
    | UnrecognizedMode
    | NonPositiveM
    | NLessThanM
    | EmptyNgramCounts
    | EmptyNgramIndexes
    | WeightsSizeMismatch
    | EmptyPoolStrings
    | MissingPoolInt64s
    | CountsOutOfBounds(ngramSize: nat)
    | NotWholeNgrams(ngramSize: nat)
    | DuplicateNgrams(ngramSize: nat)
    | PoolSizeMismatch

  /** The set of n-grams with their ids, keyed by the items alone. */
  type Dictionary<T(==)> = map<seq<T>, nat>

  /** `emplace` into the unordered set: an item equal to a present one is not inserted. */
  function Insert<T(==)>(d: Dictionary<T>, item: seq<T>, id: nat): Dictionary<T>
  {
    if item in d then d else d[item := id]
  }

  /** An item equal to a present one leaves the set as it is; a new one adds exactly one entry. */
  lemma InsertSize<T>(d: map<seq<T>, nat>, item: seq<T>, id: nat)
    ensures item in d ==> Insert(d, item, id) == d
    ensures item !in d ==> |Insert(d, item, id)| == |d| + 1
    ensures item in Insert(d, item, id) && Insert(d, item, id)[item] == if item in d then d[item] else id
  {
  }

  /** The tokens taken by `n` chunks of `size` tokens (that is, `n * size`, by repeated addition). */
  function ChunkSpan(n: nat, size: nat): nat
    decreases n
  {
    if n == 0 then 0 else ChunkSpan(n - 1, size) + size
  }

  /** `ChunkSpan` is the product. */
  lemma {:induction false} ChunkSpanIsProduct(n: nat, size: nat)
    ensures ChunkSpan(n, size) == n * size
    decreases n
  {
    if n > 0 {
      ChunkSpanIsProduct(n - 1, size);
      assert n * size == (n - 1) * size + size;
    }
  }

  /** Quotient of `items` by `size`, by repeated subtraction. */
  function Quot(items: nat, size: nat): nat
    requires size >= 1
    decreases items
  {
    if items < size then 0 else Quot(items - size, size) + 1
  }

  /** Remainder of `items` by `size`, by repeated subtraction. */
  function Rem(items: nat, size: nat): nat
    requires size >= 1
    decreases items
  {
    if items < size then items else Rem(items - size, size)
  }

  /** Repeated subtraction leaves a remainder below `size` after `Quot` whole chunks. */
  lemma {:induction false} QuotRemSpan(items: nat, size: nat)
    requires size >= 1
    ensures ChunkSpan(Quot(items, size), size) + Rem(items, size) == items && Rem(items, size) < size
    decreases items
  {
    if items >= size {
      QuotRemSpan(items - size, size);
    }
  }

  /** More chunks take at least one more chunk's worth of tokens. */
  lemma {:induction false} ChunkSpanMono(a: nat, b: nat, size: nat)
    requires a < b
    ensures ChunkSpan(a, size) + size <= ChunkSpan(b, size)
    decreases b
  {
    if a + 1 < b {
      ChunkSpanMono(a, b - 1, size);
    }
  }

  /** Euclidean division, phrased with `ChunkSpan`. */
  lemma DivSpan(items: nat, size: nat)
    requires size >= 1
    ensures ChunkSpan(items / size, size) + items % size == items && items % size < size
  {
    ChunkSpanIsProduct(items / size, size);
  }

  /** A quotient and remainder below the divisor are the ones of Euclidean division. */
  lemma DivUnique(items: nat, size: nat, q: nat, r: nat)
    requires size >= 1 && ChunkSpan(q, size) + r == items && r < size
    ensures q == items / size && r == items % size
  {
    DivSpan(items, size);
    var q' := items / size;
    if q < q' {
      ChunkSpanMono(q, q', size);
    } else if q > q' {
      ChunkSpanMono(q', q, size);
    }
  }

  /** `Quot` and `Rem` are the quotient and the remainder of the division. */
  lemma QuotRem(items: nat, size: nat)
    requires size >= 1
    ensures Quot(items, size) == items / size && Rem(items, size) == items % size
    ensures ChunkSpan(Quot(items, size), size) + Rem(items, size) == items
  {
    QuotRemSpan(items, size);
    DivUnique(items, size, Quot(items, size), Rem(items, size));
  }


  /** The consecutive chunks of `size` tokens of `seg`, in order; a short tail is not a chunk. */
  function Chunks<T>(seg: seq<T>, size: nat): seq<seq<T>>
    requires size >= 1
    decreases |seg|
  {
    if |seg| < size then [] else [seg[..size]] + Chunks(seg[size..], size)
  }

  /** A segment of `n` whole chunks is cut into exactly `n` chunks. */
  lemma {:induction false} ChunkCount<T>(seg: seq<T>, size: nat, n: nat)
    requires size >= 1 && |seg| == ChunkSpan(n, size)
    ensures |Chunks(seg, size)| == n
    decreases n
  {
    if n > 0 {
      ChunkCount(seg[size..], size, n - 1);
    }
  }

  /** There are never more chunks than tokens. */
  lemma {:induction false} ChunksBound<T>(seg: seq<T>, size: nat)
    requires size >= 1
    ensures |Chunks(seg, size)| <= |seg|
    decreases |seg|
  {
    if |seg| >= size {
      ChunksBound(seg[size..], size);
    }
  }

  /** Every chunk has `size` tokens. */
  lemma {:induction false} ChunkSizes<T>(seg: seq<T>, size: nat, q: seq<T>)
    requires size >= 1 && q in Chunks(seg, size)
    ensures |q| == size
    decreases |seg|
  {
    if q != seg[..size] {
      ChunkSizes(seg[size..], size, q);
    }
  }

  /** A slice of a suffix is a slice of the whole. */
  lemma SliceOfSuffix<T>(s: seq<T>, a: nat, b: nat, c: nat)
    requires a <= |s| && b <= c <= |s| - a
    ensures s[a..][b..c] == s[a + b..a + c]
  {
    assert |s[a..][b..c]| == c - b;
    forall j | 0 <= j < c - b
      ensures s[a..][b..c][j] == s[a + b..a + c][j]
    {
    }
  }

  /** Chunk `k` holds the tokens `k*size .. (k+1)*size` of the segment. */
  lemma {:induction false} ChunkAt<T>(seg: seq<T>, size: nat, k: nat)
    requires size >= 1 && k < |Chunks(seg, size)|
    ensures ChunkSpan(k, size) + size <= |seg|
    ensures Chunks(seg, size)[k] == seg[ChunkSpan(k, size)..ChunkSpan(k, size) + size]
    decreases k
  {
    if k > 0 {
      ChunkAt(seg[size..], size, k - 1);
      var p := ChunkSpan(k - 1, size);
      assert Chunks(seg, size)[k] == Chunks(seg[size..], size)[k - 1];
      SliceOfSuffix(seg, size, p, p + size);
    }
  }

  /** Cutting a segment of the pool at its first chunk. */
  lemma ChunksCons<T>(pool: seq<T>, from: nat, end: nat, size: nat)
    requires size >= 1 && from + size <= end <= |pool|
    ensures Chunks(pool[from..end], size) == [pool[from..from + size]] + Chunks(pool[from + size..end], size)
  {
    assert pool[from..end][..size] == pool[from..from + size];
    assert pool[from..end][size..] == pool[from + size..end];
  }

  /** Emplacing a list of chunks one after the other with ids `id, id+1, ...`. */
  function Emplaced<T(==)>(d: Dictionary<T>, chunks: seq<seq<T>>, id: nat): Dictionary<T>
    decreases |chunks|
  {
    if chunks == [] then d else Emplaced(Insert(d, chunks[0], id), chunks[1..], id + 1)
  }

  /** The emplace loop from offset `from` up to `end`, one chunk of `size` tokens per id. */
  function EmplaceRun<T(==)>(pool: seq<T>, from: nat, end: nat, size: nat, id: nat, c: Dictionary<T>): Dictionary<T>
    requires size >= 1 && from <= end <= |pool|
    decreases end - from
  {
    if end - from < size then c
    else EmplaceRun(pool, from + size, end, size, id + 1, Insert(c, pool[from..from + size], id))
  }

  /** The emplace loop emplaces the chunks of its segment in order. */
  lemma {:induction false} EmplaceRunIsEmplaced<T>(pool: seq<T>, from: nat, end: nat, size: nat, id: nat, c: map<seq<T>, nat>)
    requires size >= 1 && from <= end <= |pool|
    ensures EmplaceRun(pool, from, end, size, id, c) == Emplaced(c, Chunks(pool[from..end], size), id)
    decreases end - from
  {
    if end - from >= size {
      EmplaceRunIsEmplaced(pool, from + size, end, size, id + 1, Insert(c, pool[from..from + size], id));
      EmplaceStep(pool, from, end, size, c, id);
    }
  }

  /**
   * `Emplace` (ngram.cc): inserts `ngrams` consecutive chunks of `ngramSize`
   * tokens starting at `first`, and advances `ngramId` once per chunk, whether
   * or not the chunk was inserted.
   */
  method Emplace<T(==)>(pool: seq<T>, first: nat, ngrams: nat, ngramSize: nat, ngramId: nat, c: Dictionary<T>)
    returns (c': Dictionary<T>, ngramId': nat)
    requires ngramSize >= 1
    requires first + ChunkSpan(ngrams, ngramSize) <= |pool|
    ensures ngramId' == ngramId + ngrams
    ensures c' == EmplaceRun(pool, first, first + ChunkSpan(ngrams, ngramSize), ngramSize, ngramId, c)
    ensures var chunks := Chunks(pool[first..first + ChunkSpan(ngrams, ngramSize)], ngramSize);
            |chunks| == ngrams && c' == Emplaced(c, chunks, ngramId)
  {
    ghost var end := first + ChunkSpan(ngrams, ngramSize);
    c', ngramId' := c, ngramId;
    var from: nat, left: nat := first, ngrams;
    while left > 0
      invariant from <= end <= |pool| && end - from == ChunkSpan(left, ngramSize)
      invariant ngramId' == ngramId + (ngrams - left)
      invariant EmplaceRun(pool, from, end, ngramSize, ngramId', c') == EmplaceRun(pool, first, end, ngramSize, ngramId, c)
    {
      c' := Insert(c', pool[from..from + ngramSize], ngramId');
      from := from + ngramSize;
      ngramId' := ngramId' + 1;
      left := left - 1;
    }
    EmplaceRunIsEmplaced(pool, first, end, ngramSize, ngramId, c);
    ChunkCount(pool[first..end], ngramSize, ngrams);
  }

  /** Emplacing the first chunk of a segment leaves the rest of the segment to emplace. */
  lemma EmplaceStep<T>(pool: seq<T>, from: nat, end: nat, size: nat, d: map<seq<T>, nat>, id: nat)
    requires size >= 1 && from + size <= end <= |pool|
    ensures Emplaced(d, Chunks(pool[from..end], size), id)
            == Emplaced(Insert(d, pool[from..from + size], id), Chunks(pool[from + size..end], size), id + 1)
  {
    ChunksCons(pool, from, end, size);
    EmplacedCons(d, pool[from..from + size], Chunks(pool[from + size..end], size), id);
  }

  /** Emplacing a first chunk, then the rest with the following ids. */
  lemma EmplacedCons<T>(d: map<seq<T>, nat>, chunk: seq<T>, rest: seq<seq<T>>, id: nat)
    ensures Emplaced(d, [chunk] + rest, id) == Emplaced(Insert(d, chunk, id), rest, id + 1)
  {
    assert ([chunk] + rest)[1..] == rest;
  }

  /** No chunk is already in `d` and no two chunks are equal. */
  predicate Fresh<T(==)>(d: Dictionary<T>, chunks: seq<seq<T>>)
  {
    && (forall k :: 0 <= k < |chunks| ==> chunks[k] !in d)
    && (forall j, k :: 0 <= j < k < |chunks| ==> chunks[j] != chunks[k])
  }

  /** Emplacing adds exactly the chunks to the keys and never changes an id already present. */
  lemma {:induction false} EmplacedKeys<T>(d: map<seq<T>, nat>, chunks: seq<seq<T>>, id: nat)
    ensures forall q :: q in Emplaced(d, chunks, id) <==> q in d || q in chunks
    ensures forall q :: q in d ==> Emplaced(d, chunks, id)[q] == d[q]
    decreases |chunks|
  {
    if chunks != [] {
      EmplacedKeys(Insert(d, chunks[0], id), chunks[1..], id + 1);
      assert chunks == [chunks[0]] + chunks[1..];
    }
  }

  /** Freshness of a non-empty list: the head is new, and the tail is fresh after it. */
  lemma FreshCons<T>(d: map<seq<T>, nat>, chunks: seq<seq<T>>, id: nat)
    requires chunks != []
    ensures Fresh(d, chunks) <==> chunks[0] !in d && Fresh(Insert(d, chunks[0], id), chunks[1..])
  {
    var d' := Insert(d, chunks[0], id);
    var t := chunks[1..];
    if chunks[0] !in d && Fresh(d', t) {
      forall j, k | 0 <= j < k < |chunks| ensures chunks[j] != chunks[k] {
        assert chunks[k] == t[k - 1];
        if j > 0 {
          assert chunks[j] == t[j - 1];
        }
      }
      forall k | 0 <= k < |chunks| ensures chunks[k] !in d {
        if k > 0 {
          assert chunks[k] == t[k - 1];
        }
      }
    }
    if Fresh(d, chunks) {
      forall k | 0 <= k < |t| ensures t[k] !in d' {
        assert chunks[0] != chunks[k + 1];
      }
      forall j, k | 0 <= j < k < |t| ensures t[j] != t[k] {
        assert chunks[j + 1] != chunks[k + 1];
      }
    }
  }

  /**
   * Emplacing grows the set by at most one per chunk, and by exactly one per
   * chunk when the chunks are fresh: the size test after `Emplace` is a
   * duplicate test.
   */
  lemma {:induction false} EmplacedSize<T>(d: map<seq<T>, nat>, chunks: seq<seq<T>>, id: nat)
    ensures |Emplaced(d, chunks, id)| <= |d| + |chunks|
    ensures |Emplaced(d, chunks, id)| == |d| + |chunks| <==> Fresh(d, chunks)
    decreases |chunks|
  {
    if chunks != [] {
      EmplacedSize(Insert(d, chunks[0], id), chunks[1..], id + 1);
      FreshCons(d, chunks, id);
    }
  }

  /** In the fresh case chunk `k` receives the id `id + k`. */
  lemma {:induction false} EmplacedIds<T>(d: map<seq<T>, nat>, chunks: seq<seq<T>>, id: nat)
    requires Fresh(d, chunks)
    ensures forall k :: 0 <= k < |chunks| ==>
              chunks[k] in Emplaced(d, chunks, id) && Emplaced(d, chunks, id)[chunks[k]] == id + k
    decreases |chunks|
  {
    if chunks != [] {
      var d' := Insert(d, chunks[0], id);
      FreshCons(d, chunks, id);
      EmplacedIds(d', chunks[1..], id + 1);
      EmplacedKeys(d', chunks[1..], id + 1);
      forall k | 0 <= k < |chunks|
        ensures chunks[k] in Emplaced(d, chunks, id) && Emplaced(d, chunks, id)[chunks[k]] == id + k
      {
        if k > 0 {
          assert chunks[k] == chunks[1..][k - 1];
        }
      }
    }
  }

  /** Emplacing `a + b` is emplacing `a`, then `b` with the ids that follow. */
  lemma {:induction false} EmplacedAppend<T>(d: map<seq<T>, nat>, a: seq<seq<T>>, b: seq<seq<T>>, id: nat)
    ensures Emplaced(d, a + b, id) == Emplaced(Emplaced(d, a, id), b, id + |a|)
    decreases |a|
  {
    if a != [] {
      assert (a + b)[0] == a[0];
      assert (a + b)[1..] == a[1..] + b;
      EmplacedAppend(Insert(d, a[0], id), a[1..], b, id + 1);
    } else {
      assert a + b == b;
    }
  }

  /** Freshness of `a + b` splits into freshness of `a`, then of `b` after `a`. */
  lemma FreshAppend<T>(d: map<seq<T>, nat>, a: seq<seq<T>>, b: seq<seq<T>>, id: nat)
    ensures Fresh(d, a + b) <==> Fresh(d, a) && Fresh(Emplaced(d, a, id), b)
  {
    EmplacedKeys(d, a, id);
    var e := Emplaced(d, a, id);
    if Fresh(d, a) && Fresh(e, b) {
      forall j, k | 0 <= j < k < |a + b| ensures (a + b)[j] != (a + b)[k] {
        if k >= |a| && j < |a| {
          assert (a + b)[k] == b[k - |a|];
          assert (a + b)[j] in e;
        } else if j >= |a| {
          assert (a + b)[k] == b[k - |a|] && (a + b)[j] == b[j - |a|];
        }
      }
      forall k | 0 <= k < |a + b| ensures (a + b)[k] !in d {
        if k >= |a| {
          assert (a + b)[k] == b[k - |a|];
        }
      }
    }
    if Fresh(d, a + b) {
      forall j, k | 0 <= j < k < |a| ensures a[j] != a[k] {
        assert a[j] == (a + b)[j] && a[k] == (a + b)[k];
      }
      forall k | 0 <= k < |a| ensures a[k] !in d {
        assert a[k] == (a + b)[k];
      }
      forall j, k | 0 <= j < k < |b| ensures b[j] != b[k] {
        assert b[j] == (a + b)[j + |a|] && b[k] == (a + b)[k + |a|];
      }
      forall k | 0 <= k < |b| ensures b[k] !in e {
        assert b[k] == (a + b)[k + |a|];
        forall j | 0 <= j < |a| ensures a[j] != b[k] {
          assert a[j] == (a + b)[j];
        }
      }
    }
  }

  /* ---- The pool walk of the constructor ---- */

  /** First pool offset of size class `i` (the class of `(i+1)`-grams), as `size_t`. */
  function ClassStart(counts: seq<int64>, i: nat): nat
    requires i < |counts|
  {
    ToSize(counts[i])
  }

  /** End offset of size class `i`: the next class's start, or the pool end for the last class. */
  function ClassEnd(counts: seq<int64>, total: nat, i: nat): nat
    requires i < |counts|
  {
    if i + 1 < |counts| then ToSize(counts[i + 1]) else total
  }

  /** Size class `i` lies within the pool and holds whole `(i+1)`-grams. */
  predicate ClassOk(counts: seq<int64>, total: nat, i: nat)
    requires i < |counts|
  {
    var s, e := ClassStart(counts, i), ClassEnd(counts, total, i);
    s <= e <= total && Rem(e - s, i + 1) == 0
  }

  /** The chunks of size class `i`, in pool order. */
  function ClassChunks<T(==)>(pool: seq<T>, counts: seq<int64>, i: nat): seq<seq<T>>
    requires i < |counts| && ClassOk(counts, |pool|, i)
  {
    Chunks(pool[ClassStart(counts, i)..ClassEnd(counts, |pool|, i)], i + 1)
  }

  /**
   * One pass of the constructor's loop, for size class `i` (the `(i+1)`-grams)
   * with the set `d` and next id `id` built so far: the failure it enforces,
   * or the set and next id after the class.
   */
  function ClassStep<T(==)>(pool: seq<T>, counts: seq<int64>, i: nat, d: Dictionary<T>, id: nat)
    : Result<(Dictionary<T>, nat), SetupError>
    requires i < |counts|
  {
    var s, e := ClassStart(counts, i), ClassEnd(counts, |pool|, i);
    if !(e >= s && e <= |pool|) then Failure(CountsOutOfBounds(i + 1))
    else if e - s == 0 then Success((d, id))
    else if Rem(e - s, i + 1) != 0 then Failure(NotWholeNgrams(i + 1))
    else
      var n := Quot(e - s, i + 1);
      var d' := EmplaceRun(pool, s, e, i + 1, id, d);
      if |d| + n != |d'| then Failure(DuplicateNgrams(i + 1))
      else Success((d', id + n))
  }

  /** The constructor's loop over the size classes from class `i` on: the first failure, or the final set and next id. */
  function BuildFrom<T(==)>(pool: seq<T>, counts: seq<int64>, i: nat, d: Dictionary<T>, id: nat)
    : Result<(Dictionary<T>, nat), SetupError>
    requires i <= |counts|
    decreases |counts| - i
  {
    if i == |counts| then Success((d, id))
    else
      match ClassStep(pool, counts, i, d, id)
      case Failure(err) => Failure(err)
      case Success(next) => BuildFrom(pool, counts, i + 1, next.0, next.1)
  }

  /**
   * The body of the constructor's loop for the class of `ngramSize`-grams:
   * its offsets are `ngram_counts[i]` and the next count (or the pool end),
   * both converted to `size_t`; they must lie in the pool, a non-empty class
   * must hold whole n-grams, and emplacing them must grow the set by one per
   * n-gram.
   */
  method ClassPass<T(==)>(pool: seq<T>, counts: seq<int64>, i: nat, ngramSize: nat, dict: Dictionary<T>, ngramId: nat)
    returns (r: Result<(Dictionary<T>, nat), SetupError>)
    requires i < |counts| && ngramSize == i + 1
    ensures r == ClassStep(pool, counts, i, dict, ngramId)
  {
    var startIdx := ToSize(counts[i]);
    var endIdx := if i + 1 < |counts| then ToSize(counts[i + 1]) else |pool|;
    if !(endIdx >= startIdx && endIdx <= |pool|) {
      return Failure(CountsOutOfBounds(ngramSize));
    }
    var items := endIdx - startIdx;
    if items > 0 {
      QuotRem(items, ngramSize);
      if items % ngramSize != 0 {
        return Failure(NotWholeNgrams(ngramSize));
      }
      var ngrams := items / ngramSize;
      var beforeInsert := |dict|;
      var dict', ngramId' := Emplace(pool, startIdx, ngrams, ngramSize, ngramId, dict);
      if beforeInsert + ngrams != |dict'| {
        return Failure(DuplicateNgrams(ngramSize));
      }
      return Success((dict', ngramId'));
    }
    return Success((dict, ngramId));
  }

  /**
   * The pool walk of the `Ngram` constructor: class `i` holds `(i+1)`-grams
   * between its start offset and the next one; each class is cut into chunks
   * that are emplaced with sequential ids, and the set must grow by one per
   * chunk.
   */
  method BuildDictionary<T(==)>(pool: seq<T>, counts: seq<int64>)
    returns (r: Result<(Dictionary<T>, nat), SetupError>)
    ensures r == BuildFrom(pool, counts, 0, map[], 0)
  {
    var dict: Dictionary<T> := map[];
    var ngramId: nat := 0;
    var ngramSize: nat := 1;
    var i: nat := 0;
    while i < |counts|
      invariant i <= |counts| && ngramSize == i + 1
      invariant BuildFrom(pool, counts, i, dict, ngramId) == BuildFrom(pool, counts, 0, map[], 0)
    {
      var step := ClassPass(pool, counts, i, ngramSize, dict, ngramId);
      if step.Failure? {
        return Failure(step.error);
      }
      dict, ngramId := step.value.0, step.value.1;
      ngramSize := ngramSize + 1;
      i := i + 1;
    }
    return Success((dict, ngramId));
  }

  /** Every size class from `i` on is in bounds and whole. */
  predicate ClassesOk<T>(pool: seq<T>, counts: seq<int64>, i: nat)
    requires i <= |counts|
  {
    forall j :: i <= j < |counts| ==> ClassOk(counts, |pool|, j)
  }

  /** All chunks of the classes from `i` on, class by class, in pool order. */
  function AllChunks<T(==)>(pool: seq<T>, counts: seq<int64>, i: nat): seq<seq<T>>
    requires i <= |counts| && ClassesOk(pool, counts, i)
    decreases |counts| - i
  {
    if i == |counts| then [] else ClassChunks(pool, counts, i) + AllChunks(pool, counts, i + 1)
  }

  /**
   * Emplacing a segment of whole chunks: the set is the chunks emplaced in
   * order, there are `Quot` of them, and the set grows by that many exactly
   * when they are fresh.
   */
  lemma RunOfWholeChunks<T>(pool: seq<T>, s: nat, e: nat, size: nat, id: nat, d: map<seq<T>, nat>)
    requires s <= e <= |pool| && size >= 1 && Rem(e - s, size) == 0
    ensures var c := Chunks(pool[s..e], size);
            && EmplaceRun(pool, s, e, size, id, d) == Emplaced(d, c, id)
            && |c| == Quot(e - s, size)
            && (|d| + |c| == |Emplaced(d, c, id)| <==> Fresh(d, c))
            && (e - s == 0 ==> c == [] && Emplaced(d, c, id) == d)
  {
    var c := Chunks(pool[s..e], size);
    QuotRemSpan(e - s, size);
    ChunkCount(pool[s..e], size, Quot(e - s, size));
    EmplaceRunIsEmplaced(pool, s, e, size, id, d);
    EmplacedSize(d, c, id);
    if e - s == 0 {
      assert c == [];
    }
  }

  /**
   * A class in bounds and whole succeeds exactly when its chunks are fresh,
   * and then emplaces them with ids from `id` on.
   */
  lemma ClassStepGood<T>(pool: seq<T>, counts: seq<int64>, i: nat, d: map<seq<T>, nat>, id: nat)
    requires i < |counts| && ClassOk(counts, |pool|, i)
    ensures var c := ClassChunks(pool, counts, i);
            && (Fresh(d, c) ==> ClassStep(pool, counts, i, d, id) == Success((Emplaced(d, c, id), id + |c|)))
            && (!Fresh(d, c) ==> ClassStep(pool, counts, i, d, id).Failure?)
  {
    var s, e := ClassStart(counts, i), ClassEnd(counts, |pool|, i);
    RunOfWholeChunks(pool, s, e, i + 1, id, d);
  }

  /** A class out of bounds or not whole fails. */
  lemma ClassStepBad<T>(pool: seq<T>, counts: seq<int64>, i: nat, d: map<seq<T>, nat>, id: nat)
    requires i < |counts| && !ClassOk(counts, |pool|, i)
    ensures ClassStep(pool, counts, i, d, id).Failure?
  {
  }

  /**
   * The builder succeeds exactly when every class is in bounds and whole and
   * no chunk repeats an earlier one or one already in the set, in which case
   * the set is every chunk emplaced in order and the next id has advanced by
   * the number of chunks.
   */
  lemma {:induction false} BuildFromSpec<T>(pool: seq<T>, counts: seq<int64>, i: nat, d: map<seq<T>, nat>, id: nat)
    requires i <= |counts|
    ensures BuildFrom(pool, counts, i, d, id).Success?
            <==> ClassesOk(pool, counts, i) && Fresh(d, AllChunks(pool, counts, i))
    ensures ClassesOk(pool, counts, i) && Fresh(d, AllChunks(pool, counts, i)) ==>
              BuildFrom(pool, counts, i, d, id)
              == Success((Emplaced(d, AllChunks(pool, counts, i), id), id + |AllChunks(pool, counts, i)|))
    decreases |counts| - i, 1
  {
    if i == |counts| {
      assert AllChunks(pool, counts, i) == [];
      assert Emplaced(d, [], id) == d;
    } else if !ClassOk(counts, |pool|, i) {
      ClassStepBad(pool, counts, i, d, id);
    } else {
      BuildFromGoodClass(pool, counts, i, d, id);
    }
  }

  /** The inductive step of `BuildFromSpec` for a class in bounds and whole. */
  lemma {:induction false} BuildFromGoodClass<T>(pool: seq<T>, counts: seq<int64>, i: nat, d: map<seq<T>, nat>, id: nat)
    requires i < |counts| && ClassOk(counts, |pool|, i)
    ensures BuildFrom(pool, counts, i, d, id).Success?
            <==> ClassesOk(pool, counts, i) && Fresh(d, AllChunks(pool, counts, i))
    ensures ClassesOk(pool, counts, i) && Fresh(d, AllChunks(pool, counts, i)) ==>
              BuildFrom(pool, counts, i, d, id)
              == Success((Emplaced(d, AllChunks(pool, counts, i), id), id + |AllChunks(pool, counts, i)|))
    decreases |counts| - i, 0
  {
    var c := ClassChunks(pool, counts, i);
    var d' := Emplaced(d, c, id);
    ClassStepGood(pool, counts, i, d, id);
    BuildFromSpec(pool, counts, i + 1, d', id + |c|);
    assert ClassesOk(pool, counts, i) <==> ClassesOk(pool, counts, i + 1);
    if ClassesOk(pool, counts, i + 1) {
      var rest := AllChunks(pool, counts, i + 1);
      assert AllChunks(pool, counts, i) == c + rest;
      FreshAppend(d, c, rest, id);
      EmplacedAppend(d, c, rest, id);
    }
  }

  /** Chunks from class `i` on are `(j+1)`-grams for classes `j >= i`: non-empty and no longer than the class count. */
  lemma {:induction false} AllChunksSizes<T>(pool: seq<T>, counts: seq<int64>, i: nat)
    requires i <= |counts| && ClassesOk(pool, counts, i)
    ensures forall q :: q in AllChunks(pool, counts, i) ==> i + 1 <= |q| <= |counts|
    decreases |counts| - i
  {
    if i < |counts| {
      AllChunksSizes(pool, counts, i + 1);
      var c := ClassChunks(pool, counts, i);
      var rest := AllChunks(pool, counts, i + 1);
      forall q | q in c + rest ensures i + 1 <= |q| <= |counts| {
        if q in c {
          ChunkSizes(pool[ClassStart(counts, i)..ClassEnd(counts, |pool|, i)], i + 1, q);
        }
      }
    }
  }

  /** The chunks from class `i` on fit in the pool from the start of class `i`. */
  lemma {:induction false} AllChunksBound<T>(pool: seq<T>, counts: seq<int64>, i: nat)
    requires i < |counts| && ClassesOk(pool, counts, i)
    ensures |AllChunks(pool, counts, i)| <= |pool| - ClassStart(counts, i)
    decreases |counts| - i
  {
    var s, e := ClassStart(counts, i), ClassEnd(counts, |pool|, i);
    assert ClassOk(counts, |pool|, i);
    ChunksBound(pool[s..e], i + 1);
    if i + 1 < |counts| {
      AllChunksBound(pool, counts, i + 1);
    }
  }

  /** Fresh chunks emplaced into an empty set with ids from 0 are numbered by position. */
  lemma EmplacedFromEmpty<T>(cs: seq<seq<T>>, d: map<seq<T>, nat>)
    requires Fresh(map[], cs) && d == Emplaced(map[], cs, 0)
    ensures forall q :: q in d <==> q in cs
    ensures forall k :: 0 <= k < |cs| ==> cs[k] in d && d[cs[k]] == k
    ensures |d| == |cs|
    ensures forall q :: q in d ==> d[q] < |d|
  {
    EmplacedKeys(map[], cs, 0);
    EmplacedIds(map[], cs, 0);
    EmplacedSize(map[], cs, 0);
    forall q | q in d ensures d[q] < |d| {
      assert q in cs;
      var k :| 0 <= k < |cs| && cs[k] == q;
      assert d[cs[k]] == k;
    }
  }

  /**
   * A successful build assigns chunk `k` (over all classes, in pool order)
   * the id `k`; the set holds exactly the chunks, the next id equals its size,
   * and every id is below that size.
   */
  lemma BuiltDictionary<T>(pool: seq<T>, counts: seq<int64>)
    requires BuildFrom(pool, counts, 0, map[], 0).Success?
    ensures ClassesOk(pool, counts, 0) && Fresh(map[], AllChunks(pool, counts, 0))
    ensures var (d, next) := BuildFrom(pool, counts, 0, map[], 0).value;
            var cs := AllChunks(pool, counts, 0);
            && (forall q :: q in d <==> q in cs)
            && (forall k :: 0 <= k < |cs| ==> cs[k] in d && d[cs[k]] == k)
            && |d| == next == |cs|
            && (forall q :: q in d ==> d[q] < |d|)
  {
    BuildFromSpec(pool, counts, 0, map[], 0);
    var cs := AllChunks(pool, counts, 0);
    var d := BuildFrom(pool, counts, 0, map[], 0).value.0;
    assert d == Emplaced(map[], cs, 0);
    EmplacedFromEmpty(cs, d);
    assert forall q :: q in d <==> q in cs;
  }

  /** Every key of a successfully built set is an n-gram of one of the configured sizes. */
  lemma BuiltKeySizes<T>(pool: seq<T>, counts: seq<int64>, d: map<seq<T>, nat>, next: nat)
    requires BuildFrom(pool, counts, 0, map[], 0) == Success((d, next))
    ensures forall q :: q in d ==> 1 <= |q| <= |counts|
  {
    BuiltDictionary(pool, counts);
    AllChunksSizes(pool, counts, 0);
  }

  /** One class of unigrams `[10, 20]`: ids 0 and 1, in pool order. */
  lemma UnigramPoolExample()
    ensures BuildFrom([10 as int64, 20], [0], 0, map[], 0) == Success((map[[10 as int64] := 0, [20 as int64] := 1], 2))
  {
    var pool: seq<int64> := [10, 20];
    assert Quot(2, 1) == 2 && Rem(2, 1) == 0;
    assert pool[0..1] == [10] && pool[1..2] == [20];
    assert EmplaceRun(pool, 0, 2, 1, 0, map[]) == map[[10 as int64] := 0, [20 as int64] := 1];
  }

  /** The bigrams `[10, 20, 10, 20]` repeat one bigram: the walk fails on the class of size 2. */
  lemma DuplicateBigramsExample()
    ensures BuildFrom([10 as int64, 20, 10, 20], [0, 0], 0, map[], 0) == Failure(DuplicateNgrams(2))
  {
    var pool: seq<int64> := [10, 20, 10, 20];
    assert ClassStep(pool, [0, 0], 0, map[], 0) == Success((map[], 0));
    assert Quot(4, 2) == 2 && Rem(4, 2) == 0;
    assert pool[0..2] == [10, 20] && pool[2..4] == [10, 20];
    assert EmplaceRun(pool, 0, 4, 2, 0, map[]) == map[[10 as int64, 20] := 0];
  }
}
