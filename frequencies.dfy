/**
 * The frequency accumulator of the Ngram kernel (`Impl::IncrementCount` and
 * the hit handling of `ComputeImpl` in ngram.cc): every probe found in the
 * dictionary adds one to the `uint32_t` counter of the output slot its id is
 * mapped to; a probe that is not found changes nothing.
 */
module Frequencies {
  import opened MachineInts
  import opened Vocabulary

  /** The zero-initialized frequency vector. */
  function Zeros(n: nat): (r: seq<nat>)
    ensures |r| == n && forall j :: 0 <= j < n ==> r[j] == 0
  {
    seq(n, _ => 0)
  }

  /** Every id in the dictionary has an entry in `ngram_indexes`. */
  predicate IdsInRange<T(==)>(dict: Dictionary<T>, indexes: seq<int64>)
  {
    forall q :: q in dict ==> dict[q] < |indexes|
  }

  /**
   * Every probe of `probes` that is found in the dictionary maps to a slot
   * below `n`: the debug assertion of `IncrementCount`, which only a hit
   * reaches (negative slots are checked at run time).
   */
  predicate HitsBelow<T(==)>(probes: seq<seq<T>>, dict: Dictionary<T>, indexes: seq<int64>, n: nat)
    requires IdsInRange(dict, indexes)
  {
    forall q :: q in probes && q in dict ==> indexes[dict[q]] as int < n
  }

  /** No probe of `probes` that is in the dictionary maps to a negative slot. */
  predicate SlotsNonNegative<T(==)>(probes: seq<seq<T>>, dict: Dictionary<T>, indexes: seq<int64>)
    requires IdsInRange(dict, indexes)
    decreases |probes|
  {
    probes == [] ||
    (SlotsNonNegative(probes[..|probes| - 1], dict, indexes) && SlotOk(probes[|probes| - 1], dict, indexes))
  }

  /** A probe found in the dictionary maps to a non-negative slot. */
  predicate SlotOk<T(==)>(q: seq<T>, dict: Dictionary<T>, indexes: seq<int64>)
    requires IdsInRange(dict, indexes)
  {
    q in dict ==> indexes[dict[q]] >= 0
  }

  /** The slot check holds of a probe list exactly when it holds of each probe. */
  lemma {:induction false} SlotsNonNegativeAll<T>(probes: seq<seq<T>>, dict: map<seq<T>, nat>, indexes: seq<int64>)
    requires IdsInRange(dict, indexes)
    ensures SlotsNonNegative(probes, dict, indexes) <==> forall q :: q in probes ==> SlotOk(q, dict, indexes)
    decreases |probes|
  {
    if probes != [] {
      var init := probes[..|probes| - 1];
      SlotsNonNegativeAll(init, dict, indexes);
      assert probes == init + [probes[|probes| - 1]];
    }
  }

  /** `++frequencies[slot]` on a `uint32_t` counter: one slot grows by one, modulo 2^32. */
  function Bump(f: seq<nat>, slot: nat): (r: seq<nat>)
    requires slot < |f|
    ensures |r| == |f|
    ensures r[slot] == (f[slot] + 1) % U32Modulus
    ensures forall j :: 0 <= j < |f| && j != slot ==> r[j] == f[j]
  {
    f[slot := (f[slot] + 1) % U32Modulus]
  }

  /** The effect of looking up one probe: a hit bumps the slot of its id, a miss changes nothing. */
  function Record<T(==)>(f: seq<nat>, q: seq<T>, dict: Dictionary<T>, indexes: seq<int64>): seq<nat>
    requires IdsInRange(dict, indexes)
  {
    if q in dict && 0 <= indexes[dict[q]] as int < |f| then Bump(f, indexes[dict[q]] as int) else f
  }

  /** The frequencies after looking up `probes` in order, starting from `f`. */
  function Tally<T(==)>(f: seq<nat>, probes: seq<seq<T>>, dict: Dictionary<T>, indexes: seq<int64>): (r: seq<nat>)
    requires IdsInRange(dict, indexes)
    ensures |r| == |f|
    decreases |probes|
  {
    if probes == [] then f
    else Record(Tally(f, probes[..|probes| - 1], dict, indexes), probes[|probes| - 1], dict, indexes)
  }

  /** Number of probes found in the dictionary. */
  function Hits<T(==)>(probes: seq<seq<T>>, dict: Dictionary<T>): (r: nat)
    ensures r <= |probes|
    decreases |probes|
  {
    if probes == [] then 0
    else Hits(probes[..|probes| - 1], dict) + (if probes[|probes| - 1] in dict then 1 else 0)
  }

  /** Number of probes found in the dictionary whose id is mapped to slot `j`. */
  function SlotHits<T(==)>(probes: seq<seq<T>>, dict: Dictionary<T>, indexes: seq<int64>, j: int): nat
    requires IdsInRange(dict, indexes)
    decreases |probes|
  {
    if probes == [] then 0
    else
      var q := probes[|probes| - 1];
      SlotHits(probes[..|probes| - 1], dict, indexes, j) + (if q in dict && indexes[dict[q]] as int == j then 1 else 0)
  }

  /** Sum of the counters. */
  function Sum(f: seq<nat>): nat
    decreases |f|
  {
    if f == [] then 0 else Sum(f[..|f| - 1]) + f[|f| - 1]
  }

  /* ---- Lemmas ---- */

  lemma TallySnoc<T>(f: seq<nat>, ps: seq<seq<T>>, q: seq<T>, dict: map<seq<T>, nat>, indexes: seq<int64>)
    requires IdsInRange(dict, indexes)
    ensures Tally(f, ps + [q], dict, indexes) == Record(Tally(f, ps, dict, indexes), q, dict, indexes)
  {
    assert (ps + [q])[..|ps|] == ps;
  }

  /** Looking up `a + b` is looking up `a`, then `b`. */
  lemma {:induction false} TallyAppend<T>(f: seq<nat>, a: seq<seq<T>>, b: seq<seq<T>>, dict: map<seq<T>, nat>, indexes: seq<int64>)
    requires IdsInRange(dict, indexes)
    ensures Tally(f, a + b, dict, indexes) == Tally(Tally(f, a, dict, indexes), b, dict, indexes)
    decreases |b|
  {
    if b == [] {
      assert a + b == a;
    } else {
      var b' := b[..|b| - 1];
      assert a + b == (a + b') + [b[|b| - 1]];
      TallySnoc(f, a + b', b[|b| - 1], dict, indexes);
      TallyAppend(f, a, b', dict, indexes);
    }
  }

  /** A scan of `done` followed by a scan of `pass` is a scan of `done + pass`. */
  lemma AppendStep<T>(start: seq<nat>, done: seq<seq<T>>, pass: seq<seq<T>>, mid: seq<nat>, f: seq<nat>,
                      dict: map<seq<T>, nat>, indexes: seq<int64>)
    requires IdsInRange(dict, indexes)
    requires SlotsNonNegative(done, dict, indexes) && mid == Tally(start, done, dict, indexes)
    requires SlotsNonNegative(pass, dict, indexes) && f == Tally(mid, pass, dict, indexes)
    ensures SlotsNonNegative(done + pass, dict, indexes)
    ensures f == Tally(start, done + pass, dict, indexes)
  {
    SlotsNonNegativeAppend(done, pass, dict, indexes);
    TallyAppend(start, done, pass, dict, indexes);
  }

  /** Extending the probe list by one probe adds exactly that probe's check. */
  lemma SlotsNonNegativeSnoc<T>(a: seq<seq<T>>, q: seq<T>, dict: map<seq<T>, nat>, indexes: seq<int64>)
    requires IdsInRange(dict, indexes)
    ensures SlotsNonNegative(a + [q], dict, indexes) <==> SlotsNonNegative(a, dict, indexes) && SlotOk(q, dict, indexes)
  {
    assert (a + [q])[..|a|] == a;
  }

  /** One probe with a negative slot fails the check of any probe list holding it. */
  lemma MemberFailure<T>(probes: seq<seq<T>>, q: seq<T>, dict: map<seq<T>, nat>, indexes: seq<int64>)
    requires IdsInRange(dict, indexes) && q in probes && !SlotOk(q, dict, indexes)
    ensures !SlotsNonNegative(probes, dict, indexes)
  {
    SlotsNonNegativeAll(probes, dict, indexes);
  }

  /** The slot check of `a + b` is the slot check of `a` and of `b`. */
  lemma SlotsNonNegativeAppend<T>(a: seq<seq<T>>, b: seq<seq<T>>, dict: map<seq<T>, nat>, indexes: seq<int64>)
    requires IdsInRange(dict, indexes)
    ensures SlotsNonNegative(a + b, dict, indexes)
            <==> SlotsNonNegative(a, dict, indexes) && SlotsNonNegative(b, dict, indexes)
  {
    SlotsNonNegativeAll(a + b, dict, indexes);
    SlotsNonNegativeAll(a, dict, indexes);
    SlotsNonNegativeAll(b, dict, indexes);
  }

  /** The slot bound of a probe list holds of the list without its last probe, and of that probe. */
  lemma HitsBelowInit<T>(ps: seq<seq<T>>, dict: map<seq<T>, nat>, indexes: seq<int64>, n: nat)
    requires IdsInRange(dict, indexes) && ps != [] && HitsBelow(ps, dict, indexes, n)
    ensures HitsBelow(ps[..|ps| - 1], dict, indexes, n)
    ensures ps[|ps| - 1] in dict ==> indexes[dict[ps[|ps| - 1]]] as int < n
  {
    assert ps[|ps| - 1] in ps;
    forall q | q in ps[..|ps| - 1] ensures q in ps {
    }
  }

  /** A probe that is not in the dictionary leaves the frequencies unchanged. */
  lemma MissChangesNothing<T>(f: seq<nat>, ps: seq<seq<T>>, q: seq<T>, dict: map<seq<T>, nat>, indexes: seq<int64>)
    requires IdsInRange(dict, indexes) && q !in dict
    ensures Tally(f, ps + [q], dict, indexes) == Tally(f, ps, dict, indexes)
  {
    TallySnoc(f, ps, q, dict, indexes);
  }

  /**
   * With every hit mapped to a slot in range, slot `j` ends up at its start
   * value plus the number of hits mapped to it, modulo 2^32.
   */
  lemma {:induction false} TallyPerSlot<T>(f: seq<nat>, ps: seq<seq<T>>, dict: map<seq<T>, nat>, indexes: seq<int64>, j: nat)
    requires IdsInRange(dict, indexes) && HitsBelow(ps, dict, indexes, |f|)
    requires SlotsNonNegative(ps, dict, indexes)
    requires j < |f| && f[j] < U32Modulus
    ensures Tally(f, ps, dict, indexes)[j] == (f[j] + SlotHits(ps, dict, indexes, j)) % U32Modulus
    decreases |ps|
  {
    if ps != [] {
      var ps' := ps[..|ps| - 1];
      var q := ps[|ps| - 1];
      HitsBelowInit(ps, dict, indexes, |f|);
      TallyPerSlot(f, ps', dict, indexes, j);
      if q in dict {
        assert q == ps[|ps| - 1];
      }
    }
  }

  lemma {:induction false} SumUpdate(f: seq<nat>, s: nat, v: nat)
    requires s < |f|
    ensures Sum(f[s := v]) + f[s] == Sum(f) + v
    decreases |f|
  {
    var f' := f[s := v];
    if s < |f| - 1 {
      assert f'[..|f| - 1] == f[..|f| - 1][s := v];
      SumUpdate(f[..|f| - 1], s, v);
    } else {
      assert f'[..|f| - 1] == f[..|f| - 1];
    }
  }

  lemma {:induction false} ElementBelowSum(f: seq<nat>, s: nat)
    requires s < |f|
    ensures f[s] <= Sum(f)
    decreases |f|
  {
    if s < |f| - 1 {
      ElementBelowSum(f[..|f| - 1], s);
    }
  }

  /**
   * Without wrap-around (fewer than 2^32 counts in all), the counters grow in
   * total by exactly the number of hits.
   */
  lemma {:induction false} TallySum<T>(f: seq<nat>, ps: seq<seq<T>>, dict: map<seq<T>, nat>, indexes: seq<int64>)
    requires IdsInRange(dict, indexes) && HitsBelow(ps, dict, indexes, |f|)
    requires SlotsNonNegative(ps, dict, indexes)
    requires Sum(f) + Hits(ps, dict) < U32Modulus
    ensures Sum(Tally(f, ps, dict, indexes)) == Sum(f) + Hits(ps, dict)
    decreases |ps|
  {
    if ps != [] {
      var ps' := ps[..|ps| - 1];
      var q := ps[|ps| - 1];
      HitsBelowInit(ps, dict, indexes, |f|);
      TallySum(f, ps', dict, indexes);
      var g := Tally(f, ps', dict, indexes);
      if q in dict {
        var s := indexes[dict[q]] as int;
        assert q == ps[|ps| - 1];
        ElementBelowSum(g, s);
        SumUpdate(g, s, (g[s] + 1) % U32Modulus);
      }
    }
  }

  /** Sum of the zero vector. */
  lemma {:induction false} SumZeros(n: nat)
    ensures Sum(Zeros(n)) == 0
  {
    if n > 0 {
      assert Zeros(n)[..n - 1] == Zeros(n - 1);
      SumZeros(n - 1);
    }
  }

  /**
   * A scan from zeroed counters: when fewer than 2^32 probes are looked up,
   * the frequencies sum to the number of dictionary hits.
   */
  lemma ScanSumIsHits<T>(n: nat, ps: seq<seq<T>>, dict: map<seq<T>, nat>, indexes: seq<int64>)
    requires IdsInRange(dict, indexes) && HitsBelow(ps, dict, indexes, n)
    requires SlotsNonNegative(ps, dict, indexes)
    requires |ps| < U32Modulus
    ensures Sum(Tally(Zeros(n), ps, dict, indexes)) == Hits(ps, dict)
  {
    SumZeros(n);
    TallySum(Zeros(n), ps, dict, indexes);
  }

  /**
   * `Impl::IncrementCount`: maps the id to its output slot and increments that
   * counter; a negative slot is a fatal error (reported as `ok == false`).
   * The id and the slot being in range are debug assertions of the source.
   */
  method IncrementCount(ngramId: nat, indexes: seq<int64>, frequencies: array<nat>) returns (ok: bool)
    requires ngramId < |indexes|
    requires indexes[ngramId] as int < frequencies.Length
    modifies frequencies
    ensures ok <==> indexes[ngramId] >= 0
    ensures ok ==> frequencies[..] == Bump(old(frequencies[..]), indexes[ngramId] as int)
    ensures !ok ==> frequencies[..] == old(frequencies[..])
  {
    var outputIdx := indexes[ngramId];
    if outputIdx < 0 {
      return false;
    }
    frequencies[outputIdx] := (frequencies[outputIdx] + 1) % U32Modulus;
    return true;
  }
}
