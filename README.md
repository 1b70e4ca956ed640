# Ngram feature extraction, modelled in Dafny

This project models the CPU `Ngram` kernel of ONNX Runtime
(`onnxruntime/contrib_ops/cpu/ngram.cc`). The kernel turns a sequence of
tokens (64-bit or 32-bit integers, or strings) into a vector of n-gram
features. It has four parts:

- **Setup.** The `Ngram` constructor validates the node attributes. It then
  cuts a flat pool of tokens into size classes using `ngram_counts`: class `i`
  holds `(i+1)`-grams. Each n-gram is emplaced into one shared set with a
  sequential id.
- **The n-gram value type.** `NGramItem` compares token by token, lengths
  included. Its hash is a `hash_combine` fold.
- **The scan.** `ComputeImpl` enumerates every probe:
  - sizes run from `M` (when `all` is set) or from `N`, up to `N`;
  - unigrams slide over every position;
  - larger sizes sample every stride `1..S+1` from every start where the whole
    n-gram fits.

  Each hit bumps `frequencies[ngram_indexes[id]]` through `IncrementCount`.
- **The weighting.** `OutputResult` turns the counts into TF, IDF or TFIDF
  values.

Modules and files:

| file | module | contents |
|---|---|---|
| `wrappers.dfy` | `Wrappers` | `Option`, `Result` |
| `machine_ints.dfy` | `MachineInts` | `int64`, `int32`, `size_t` conversion, the `uint32_t` modulus |
| `ngram_item.dfy` | `NGramItem` | item equality and the hash fold |
| `vocabulary.dfy` | `Vocabulary` | `Emplace` and the constructor's pool walk |
| `ngram_setup.dfy` | `NgramSetup` | the constructor's validation, as a `Result` |
| `scanner.dfy` | `Scanner` | the probe enumeration, as specification functions |
| `frequencies.dfy` | `Frequencies` | `IncrementCount` and the tally of a probe sequence |
| `ngram_scan.dfy` | `NgramScan` | the scan loops over a `frequencies` array |
| `ngram_output.dfy` | `NgramOutput` | `OutputResult` |
| `ngram_compute.dfy` | `NgramCompute` | `ComputeImpl` and the `Compute` dispatch |

Representation:

- A set of `NGramItem` is a `map<seq<T>, nat>` from the token sequence to the
  id it was inserted with. An item's id plays no part in its equality or its
  hash, so the sequence alone is the key.
- Each loop of the source that updates state is a `method` with loop
  invariants. The comparison loops of `operator==` (`std::equal` and
  `std::vector` equality) are not: they become Dafny's `==` on sequences,
  which `NGramItem.ItemEquality` relates to the token-by-token comparison.
  Each method is proved against a specification function:
  - `Emplaced` (emplacing chunks in order);
  - `BuildFrom` (the constructor's walk);
  - `Probes` (the enumeration);
  - `Tally` (counting a probe sequence);
  - `Weighted` (the output).

  Lemmas then relate these functions to what the code promises.
- `size_t`, `int64_t` and `uint32_t` behaviour is written out:
  - a negative `ngram_counts` entry converts to a huge `size_t`;
  - the counters wrap modulo 2^32.
- The source writes `items % ngram_size` and `items / ngram_size`. The
  model's pool walk states them through `Rem`, `Quot` and `ChunkSpan`
  (repeated subtraction and addition). `Vocabulary.QuotRem` and
  `Vocabulary.ChunkSpanIsProduct` prove these equal to `%`, `/` and `*`, and
  the method `Vocabulary.ClassPass` uses `%` and `/` as the source does.

Behaviour kept as the code has it:

- `S` is never validated. Line 286 tests `N >= 0` instead of `S`
  (`NgramSetup.SkipCountNeverChecked`). A negative `S` gives no multi-token
  probes at all (`Scanner.NegativeSkipsNoMultiTokenProbes`).
- The final size check of a string pool compares the raw pool length, not
  the number of n-grams, with `ngram_indexes`. An integer pool compares the
  set size.

  So a string pool with multi-token n-grams can be accepted with a set
  smaller than `ngram_indexes` and `weights`
  (`NgramSetup.StringPoolCountsTokensExample`). `OutputResult` then has
  fewer counts than weights. Its debug assertion that the two lengths are
  equal would fail there. A release build reads a prefix of the weights, and
  so does the model.
- Ids advance even for a chunk that `emplace` does not insert. The size check
  after each class then reports the duplicate.
- Pool tokens before `ngram_counts[0]` are never emplaced.
- `frequencies` has one counter per dictionary entry (line 402). It is not
  sized by the largest index.

## Model

| member | source | states |
|---|---|---|
| NGramItem.ItemEquality | onnxruntime/contrib_ops/cpu/ngram.cc:74-76 | two items are equal exactly when they have the same length and equal tokens at every position |
| NGramItem.DifferentSizesNeverEqual | onnxruntime/contrib_ops/cpu/ngram.cc:121-128 | items of different lengths are never equal, so one shared set keeps the size classes apart |
| NGramItem.OrderSensitive | onnxruntime/contrib_ops/cpu/ngram.cc:74-76 | `(x, y)` equals `(y, x)` only when `x == y` |
| NGramItem.ComputeHash | onnxruntime/contrib_ops/cpu/ngram.cc:77-87 | the hash loop returns the fold `Hash`: 0 for an empty item, else the first token's hash combined left to right with `h ^ (e + 0x9e3779b9 + (h << 6) + (h >> 2))` on 64 bits |
| NGramItem.HashIsFold | onnxruntime/contrib_ops/cpu/ngram.cc:129-139 | the hash of a non-empty item is the left fold of the combine step seeded with the first token's hash |
| NGramItem.HashAppend | onnxruntime/contrib_ops/cpu/ngram.cc:81-85 | appending a token combines its element hash into the item's hash |
| NGramItem.HashUnigram | onnxruntime/contrib_ops/cpu/ngram.cc:80-82 | a 1-gram hashes to its token's element hash |
| NGramItem.HashOrderSensitiveExample | onnxruntime/contrib_ops/cpu/ngram.cc:84 | with the identity element hash, (1, 2) and (2, 1) hash differently |
| Vocabulary.InsertSize | onnxruntime/contrib_ops/cpu/ngram.cc:150 | `emplace` leaves the set unchanged when an equal item is present, and otherwise adds exactly one entry with the given id |
| Vocabulary.Emplace | onnxruntime/contrib_ops/cpu/ngram.cc:147-154 | the id advances by exactly `ngrams`; the set is the `ngrams` consecutive chunks of `ngram_size` tokens from `first`, emplaced in order with ids `ngram_id, ngram_id+1, ...` |
| Vocabulary.EmplaceRunIsEmplaced | onnxruntime/contrib_ops/cpu/ngram.cc:149-153 | the loop's step-by-step insertion equals emplacing the list of chunks of the segment in order |
| Vocabulary.ChunkCount | onnxruntime/contrib_ops/cpu/ngram.cc:328 | a segment of `ngrams * ngram_size` tokens is cut into exactly `ngrams` chunks |
| Vocabulary.ChunkAt | onnxruntime/contrib_ops/cpu/ngram.cc:150-151 | chunk `k` is the tokens from `k * ngram_size` for `ngram_size` tokens |
| Vocabulary.ChunkSizes | onnxruntime/contrib_ops/cpu/ngram.cc:150 | every chunk has exactly `ngram_size` tokens |
| Vocabulary.EmplacedKeys | onnxruntime/contrib_ops/cpu/ngram.cc:149-153 | after emplacing, the keys are the old keys plus the chunks, and ids already present never change |
| Vocabulary.EmplacedSize | onnxruntime/contrib_ops/cpu/ngram.cc:330-336 | the set grows by at most one per chunk, and by exactly one per chunk iff no chunk repeats another or a present item, so the size check is a duplicate check |
| Vocabulary.EmplacedIds | onnxruntime/contrib_ops/cpu/ngram.cc:150-152 | when the chunks are fresh, chunk `k` gets id `ngram_id + k` |
| Vocabulary.EmplacedAppend | onnxruntime/contrib_ops/cpu/ngram.cc:319-340 | emplacing two runs of chunks is emplacing the first, then the second with ids continuing after it |
| Vocabulary.QuotRem | onnxruntime/contrib_ops/cpu/ngram.cc:324-328 | the repeated-subtraction quotient and remainder are `items / ngram_size` and `items % ngram_size`, and the whole chunks plus the remainder make up `items` |
| Vocabulary.ChunkSpanIsProduct | onnxruntime/contrib_ops/cpu/ngram.cc:151 | `ngrams` chunks of `ngram_size` tokens span `ngrams * ngram_size` tokens |
| Vocabulary.ClassPass | onnxruntime/contrib_ops/cpu/ngram.cc:320-339 | one pass of the constructor's loop: the offsets out of bounds, a non-whole class and a duplicate each fail with their error; otherwise the class is emplaced and the id advances, all as `ClassStep` |
| Vocabulary.ClassStepGood | onnxruntime/contrib_ops/cpu/ngram.cc:324-337 | a class in bounds and whole succeeds exactly when its chunks are fresh, and then emplaces them in order with ids from the current id |
| Vocabulary.ClassStepBad | onnxruntime/contrib_ops/cpu/ngram.cc:320-327 | a class whose end is below its start or past the pool, or whose non-empty length is not a multiple of its size, fails |
| Vocabulary.RunOfWholeChunks | onnxruntime/contrib_ops/cpu/ngram.cc:328-336 | a whole class holds `items / ngram_size` chunks; emplacing them grows the set by that count exactly when they are fresh; an empty class changes nothing |
| Vocabulary.BuildDictionary | onnxruntime/contrib_ops/cpu/ngram.cc:315-340 | the constructor's loop over the classes yields the first failure or the final set and id, as `BuildFrom` |
| Vocabulary.BuildFromSpec | onnxruntime/contrib_ops/cpu/ngram.cc:319-340 | the walk succeeds iff every class is in bounds and whole and no chunk repeats, and then the set is all chunks emplaced in pool order with the id advanced by their number |
| Vocabulary.BuildFromGoodClass | onnxruntime/contrib_ops/cpu/ngram.cc:325-339 | the inductive step of the walk's characterisation, for a class in bounds and whole |
| Vocabulary.BuiltDictionary | onnxruntime/contrib_ops/cpu/ngram.cc:317-340 | after a successful walk chunk `k` (over all classes, in pool order) has id `k`; the keys are exactly the chunks; the next id equals the set size; every id is below it |
| Vocabulary.BuiltKeySizes | onnxruntime/contrib_ops/cpu/ngram.cc:318-339 | every key of a built set is an n-gram of a configured size `1..|ngram_counts|` |
| Vocabulary.AllChunksSizes | onnxruntime/contrib_ops/cpu/ngram.cc:318-339 | chunks of the classes from `i` on have between `i+1` and `|ngram_counts|` tokens |
| Vocabulary.AllChunksBound | onnxruntime/contrib_ops/cpu/ngram.cc:320-321 | there are no more chunks than pool tokens from the first class's start on |
| Vocabulary.UnigramPoolExample | onnxruntime/contrib_ops/cpu/ngram.cc:319-337 | the pool [10, 20] as one class of unigrams builds the set {[10]: 0, [20]: 1} with next id 2 |
| Vocabulary.DuplicateBigramsExample | onnxruntime/contrib_ops/cpu/ngram.cc:330-333 | the bigram pool [10, 20, 10, 20] repeats a bigram, and the walk fails with the duplicate error for size 2 |
| Vocabulary.EmplacedFromEmpty | onnxruntime/contrib_ops/cpu/ngram.cc:317-336 | fresh chunks emplaced into an empty set from id 0 are numbered by position, and the set has one entry per chunk |
| NgramSetup.ParseMode | onnxruntime/contrib_ops/cpu/ngram.cc:272-279 | the mode is TF, IDF or TFIDF exactly for those three strings, and unrecognized otherwise |
| NgramSetup.Setup | onnxruntime/contrib_ops/cpu/ngram.cc:268-348 | the constructor succeeds iff `Accepts` holds (known mode, `M > 0`, `N >= M`, non-empty counts and indexes, weights as long as the indexes, a non-empty pool that builds, and the final size check); each check that fails after the earlier ones passed gives its own error, in the source's order, and a failing pool walk gives the walk's error; the kernel keeps the attributes and the set of all chunks emplaced in order |
| NgramSetup.SkipCountNeverChecked | onnxruntime/contrib_ops/cpu/ngram.cc:285-286 | acceptance does not depend on `S` |
| NgramSetup.StringPoolCountsTokensExample | onnxruntime/contrib_ops/cpu/ngram.cc:342-347 | a string pool of one bigram with two `ngram_indexes` is accepted although the set holds one n-gram |
| Scanner.BuildSample | onnxruntime/contrib_ops/cpu/ngram.cc:439-444 | the sample loop collects the tokens at `p, p+si, ..., p+si*(ni-1)` |
| Scanner.SampleAt | onnxruntime/contrib_ops/cpu/ngram.cc:440-443 | token `k` of a sample is input token `p + si*k` |
| Scanner.StartCountFits | onnxruntime/contrib_ops/cpu/ngram.cc:432-438 | the start loop runs exactly over the starts `p` whose n-gram, reaching `si*(ni-1)` tokens further, fits in the input: they form a prefix of the positions |
| Scanner.StartsComplete | onnxruntime/contrib_ops/cpu/ngram.cc:431-455 | a stride pass probes the sample from every start where the whole n-gram fits |
| Scanner.StartsSound | onnxruntime/contrib_ops/cpu/ngram.cc:431-455 | every probe of a stride pass is such a sample |
| Scanner.StridesComplete | onnxruntime/contrib_ops/cpu/ngram.cc:430-456 | the strides `1..s` probe every sample at every stride in that range |
| Scanner.StridesSound | onnxruntime/contrib_ops/cpu/ngram.cc:430-456 | every probe of the strides `1..s` is a whole sample at one of those strides |
| Scanner.SizeProbesComplete | onnxruntime/contrib_ops/cpu/ngram.cc:414-456 | size 1 probes every position, and a larger size probes every stride `1..S+1` from every start where it fits |
| Scanner.SizeProbesSizes | onnxruntime/contrib_ops/cpu/ngram.cc:414-456 | every probe of size `ni` has `ni` tokens |
| Scanner.RangeComplete | onnxruntime/contrib_ops/cpu/ngram.cc:412 | the size loop probes every probe of every size in its range |
| Scanner.RangeSizes | onnxruntime/contrib_ops/cpu/ngram.cc:412 | every probe of the size loop has a size within its range |
| Scanner.SizeProbesSound | onnxruntime/contrib_ops/cpu/ngram.cc:414-456 | every probe of size `ni` is the sample at an allowed stride (1 for unigrams, `1..S+1` otherwise) from a start where it fits |
| Scanner.RangeSound | onnxruntime/contrib_ops/cpu/ngram.cc:412 | every probe of the size loop is a probe of one of its sizes |
| Scanner.RangeSamplesSound | onnxruntime/contrib_ops/cpu/ngram.cc:412-456 | every probe of the size loop is a sample of one of its sizes at an allowed stride, from a start where it fits |
| Scanner.RangeSampleComplete | onnxruntime/contrib_ops/cpu/ngram.cc:412-456 | the size loop probes the sample of each of its sizes at every allowed stride from every start where it fits |
| Scanner.ProbesComplete | onnxruntime/contrib_ops/cpu/ngram.cc:404-458 | the scan probes the sample of every size from `M` (all) or `N` to `N`, every allowed stride and every start where it fits |
| Scanner.ProbesSound | onnxruntime/contrib_ops/cpu/ngram.cc:404-458 | the scan probes nothing else: every probe is such a sample, so with `ProbesComplete` the probes are exactly these samples |
| Scanner.UnigramScan | onnxruntime/contrib_ops/cpu/ngram.cc:413-426 | with `M = N = 1` the scan looks up each token once as a unigram, in input order |
| Scanner.ProbesSizes | onnxruntime/contrib_ops/cpu/ngram.cc:404-412 | every probe has between `M` (all) or `N`, and `N` tokens |
| Scanner.UnigramsIgnoreSkips | onnxruntime/contrib_ops/cpu/ngram.cc:413-426 | with `M = N = 1` the probes do not depend on `S` or `all` |
| Scanner.NegativeSkipsNoMultiTokenProbes | onnxruntime/contrib_ops/cpu/ngram.cc:405-430 | with a negative `S` a size of 2 or more has no probes |
| Scanner.BigramSkipExample | onnxruntime/contrib_ops/cpu/ngram.cc:430-456 | bigrams of [1,2,3,4,5] with `S = 1` are the adjacent pairs, then the pairs one apart |
| Frequencies.IncrementCount | onnxruntime/contrib_ops/cpu/ngram.cc:214-220 | a negative output slot is fatal and changes nothing; otherwise exactly that slot is incremented modulo 2^32 |
| Frequencies.Bump | onnxruntime/contrib_ops/cpu/ngram.cc:219 | the slot grows by one modulo 2^32 and every other slot is unchanged |
| Frequencies.SlotsNonNegativeAll | onnxruntime/contrib_ops/cpu/ngram.cc:216-217 | a scan raises no fatal error iff no hit among its probes maps to a negative slot |
| Frequencies.MissChangesNothing | onnxruntime/contrib_ops/cpu/ngram.cc:419-424 | a probe not in the set leaves the counts unchanged |
| Frequencies.TallyAppend | onnxruntime/contrib_ops/cpu/ngram.cc:412-458 | counting two probe runs is counting the first, then the second from its result |
| Frequencies.TallyPerSlot | onnxruntime/contrib_ops/cpu/ngram.cc:214-220 | each counter ends at its start plus the number of hits mapped to it, modulo 2^32 |
| Frequencies.TallySum | onnxruntime/contrib_ops/cpu/ngram.cc:419-453 | without wrap-around the counters' sum grows by exactly the number of hits |
| Frequencies.ScanSumIsHits | onnxruntime/contrib_ops/cpu/ngram.cc:401-458 | from zero, the counters sum to the number of dictionary hits when there are fewer than 2^32 probes |
| NgramScan.CountProbe | onnxruntime/contrib_ops/cpu/ngram.cc:419-424 | a probe fails iff it hits a negative slot; otherwise the counts are updated as `Record` |
| NgramScan.CountUnigrams | onnxruntime/contrib_ops/cpu/ngram.cc:414-426 | the unigram loop fails iff some unigram hits a negative slot, else tallies every unigram in order |
| NgramScan.CountStride | onnxruntime/contrib_ops/cpu/ngram.cc:431-455 | one stride pass fails iff one of its samples hits a negative slot, else tallies its samples in start order |
| NgramScan.StrideHitsBelow | onnxruntime/contrib_ops/cpu/ngram.cc:430-456 | the slot bound of every hit of a stride range holds of each of its stride passes |
| NgramScan.SizeHitsBelow | onnxruntime/contrib_ops/cpu/ngram.cc:412-457 | the slot bound of every hit of the size loop holds of each of its sizes |
| NgramScan.CountNextStride | onnxruntime/contrib_ops/cpu/ngram.cc:430-456 | one pass of the stride loop extends the tally by its stride, or fails so that the whole stride loop fails |
| NgramScan.CountSize | onnxruntime/contrib_ops/cpu/ngram.cc:430-456 | the stride loop of one size fails iff some sample hits a negative slot, else tallies the strides `1..S+1` in order |
| NgramScan.CountSizeProbes | onnxruntime/contrib_ops/cpu/ngram.cc:414-457 | one size of the scan, as `SizeProbes` |
| NgramScan.CountNextSize | onnxruntime/contrib_ops/cpu/ngram.cc:412-457 | one pass of the size loop extends the tally by its size, or fails so that every longer scan fails |
| NgramScan.CountRange | onnxruntime/contrib_ops/cpu/ngram.cc:412-458 | the size loop fails iff some probe hits a negative slot, else tallies every probe of the sizes in order |
| NgramScan.ScanCount | onnxruntime/contrib_ops/cpu/ngram.cc:401-458 | counters as many as the set, zeroed, then the whole scan: failure iff a hit maps to a negative slot, else the tally of `Probes`; only the hits need a slot below the counter count |
| NgramOutput.OutputResult | onnxruntime/contrib_ops/cpu/ngram.cc:353-394 | one value per counter in slot order, per mode: TF the count; IDF the weight (or 1) when the count is positive, else 0; TFIDF the count times the weight (or the count) |
| NgramOutput.WeightedSnoc | onnxruntime/contrib_ops/cpu/ngram.cc:369-383 | writing one more slot appends that slot's value |
| NgramOutput.TFIgnoresWeights | onnxruntime/contrib_ops/cpu/ngram.cc:362-365 | TF outputs the counts whatever the weights |
| NgramOutput.UnweightedTFIDFIsTF | onnxruntime/contrib_ops/cpu/ngram.cc:386-389 | TFIDF without weights is TF |
| NgramOutput.WeightedTFIDFScalesTF | onnxruntime/contrib_ops/cpu/ngram.cc:379-384 | weighted TFIDF is the TF value times the slot's weight |
| NgramOutput.IDFIsTFIDFOfPresence | onnxruntime/contrib_ops/cpu/ngram.cc:366-377 | IDF is TFIDF applied to the 0/1 presence pattern of the counts |
| NgramOutput.UnweightedIDFMarksHits | onnxruntime/contrib_ops/cpu/ngram.cc:373-376 | unweighted IDF is 1.0 exactly at the slots that were hit and 0.0 elsewhere |
| NgramOutput.WeightingExample | onnxruntime/contrib_ops/cpu/ngram.cc:366-389 | counts [3, 0] with weights [0.5, 0.7] give [0.5, 0.0] for IDF and [1.5, 0.0] for TFIDF, and [3.0, 0.0] for TFIDF without weights |
| NgramCompute.Widen | onnxruntime/contrib_ops/cpu/ngram.cc:94-100 | 32-bit tokens keep their values as 64-bit tokens |
| NgramCompute.ComputeImpl | onnxruntime/contrib_ops/cpu/ngram.cc:396-460 | fails iff a hit maps to a negative slot; otherwise one value per set entry, the mode's weighting of the tally of every probe; only the hits need a slot below the set size |
| NgramCompute.Compute | onnxruntime/contrib_ops/cpu/ngram.cc:462-489 | integer tokens of either width scan the integer set, strings the string set, with the result of `ComputeImpl` on that set |
| NgramCompute.UnhitSlotOutOfRangeExample | onnxruntime/contrib_ops/cpu/ngram.cc:214-220 | with the unigram pool [10, 20] mapped to slots [0, 5], the input [10] scans without error to TF [1.0, 0.0]: the slot 5 past the counters is never hit |
| NgramCompute.UnigramCountExample | onnxruntime/contrib_ops/cpu/ngram.cc:413-426 | TF over ["a", "a", "b"] with the unigrams a, b in slots 0 and 1 counts [2.0, 1.0] |

## Left out

- Attribute fetching (`GetAttr`/`GetAttrs`) is not modelled. The attributes arrive as an `Attributes` value, so a missing required attribute (`mode`, `M`, `N`, `S`, `all`, `ngram_counts`, `ngram_indexes`) is not a modelled failure. The optional ones are `Option`s.
- Kernel registration and the `DataTypeImpl` type checks are left out: they are framework plumbing. The three element types are a `Tokens` datatype, so the "invalid type" error of `Compute` cannot arise.
- The scalar-input case and the product of the tensor dimensions are left out. The input is the flattened token sequence. `Compute` also treats a 1-D input of shape [0] as holding one token (ngram.cc:469-470); the model has no shape, so that case is not modelled either.
- Output tensor allocation is replaced by a returned sequence.
- The concrete `std::hash` of a token is implementation-defined. It is a function parameter `hf`, and only the combining fold is modelled.
- Floating point is not modelled. Weights and outputs are reals, so the rounding of the `uint32_t` to `float` conversion and of the TFIDF product is not captured.
- The string set stores `std::cref` references into the pool and the input. The model stores owned copies, so lifetime questions are out of scope.
- `DebugPrint` is console output and is not modelled.
- `onnxruntime/core/providers/cpu/nn/conv_impl.h` is not part of this model.
- Frequencies.IncrementCount: the debug assertions that an id has an `ngram_indexes` entry and that its slot is below the counter count are preconditions. A release build with a slot past the counters writes out of bounds, and that case is not modelled.
- NgramScan.ScanCount, NgramCompute.ComputeImpl and NgramCompute.Compute: the same two assertions become preconditions. Every set entry has an index entry (`IdsInRange`, which a successful setup guarantees). Every hit of the scan maps to a slot below the set size (`HitsBelow`); entries that are never hit may map anywhere. The bound is asked of every hit of the scan, including hits after a hit with a negative slot, which the source never reaches because the fatal error stops it first.
- NgramOutput.OutputResult: the debug assertion that weights and counts have equal length is weakened to "the weights cover every counter". That is what a release build needs, and a string pool can violate the equality.
- The setup's `size_t` arithmetic wraps negative `ngram_counts` entries explicitly. The `int64_t` overflow of `S + 1` at `S = 2^63 - 1` and of `++ni` at `N = 2^63 - 1` is not modelled; the model's `S + 1` and `N + 1` are unbounded.
- `si * (ni - 1)` in the scan is not checked for `int64_t` overflow. It is an exact product in the model.
- The stride counter `si` is an `int` (`auto si = 1`, ngram.cc:430) compared with the `int64_t` bound `S + 1`. For `S >= 2^31 - 1`, `++si` overflows `int`, which is undefined behaviour (in practice an endless loop). The model makes exactly `S + 1` stride passes.
- The `frequencies` vector is an array of `nat` whose updates wrap modulo 2^32. A counter is not a fixed-width machine word in the array.
- The scan's loops are split into one method per loop level (`CountUnigrams`, `CountStride`, `CountSize`, `CountRange`). The single `NGramItem` reused as `sample` is a fresh sequence per probe.
