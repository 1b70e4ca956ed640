/**
 * The n-gram value type (NGramItem in ngram.cc): an ordered, fixed-length
 * run of tokens.  Its identity is the token sequence alone; the id it carries
 * in the dictionary is not part of equality or of the hash, so the model
 * keys the dictionary by `seq<T>` and keeps the id as the mapped value.
 */
module NGramItem {

  /** One step of the boost-style `hash_combine` fold, on 64-bit `size_t`. */
  function Combine(h: bv64, e: bv64): bv64
  {
    h ^ (e + 0x9e3779b9 + (h << 6) + (h >> 2))
  }

  /**
   * Hash of an n-gram: 0 when empty, otherwise the element hash of the first
   * token folded with `Combine` over the remaining tokens, left to right.
   * The element hash `hf` (std::hash of the token type) is a parameter.
   */
  function Hash<T>(items: seq<T>, hf: T -> bv64): bv64
  {
    if |items| == 0 then 0
    else if |items| == 1 then hf(items[0])
    else Combine(Hash(items[..|items| - 1], hf), hf(items[|items| - 1]))
  }

  /** The hash loop as the source writes it, proved equal to the fold. */
  method ComputeHash<T>(items: seq<T>, hf: T -> bv64) returns (hash: bv64)
    ensures hash == Hash(items, hf)
  {
    if |items| == 0 {
      return 0;
    }
    hash := hf(items[0]);
    var first := 1;
    while first != |items|
      invariant 1 <= first <= |items|
      invariant hash == Hash(items[..first], hf)
    {
      assert items[..first + 1] == items[..first] + [items[first]];
      HashAppend(items[..first], items[first], hf);
      hash := Combine(hash, hf(items[first]));
      first := first + 1;
    }
    assert items[..first] == items;
  }

  /** Left fold of `Combine` starting from a given seed. */
  function HashFrom<T>(seed: bv64, rest: seq<T>, hf: T -> bv64): bv64
    decreases |rest|
  {
    if |rest| == 0 then seed else HashFrom(Combine(seed, hf(rest[0])), rest[1..], hf)
  }

  /** The hash of a non-empty item is the fold seeded by its first token. */
  lemma {:induction false} HashIsFold<T>(items: seq<T>, hf: T -> bv64)
    requires |items| > 0
    ensures Hash(items, hf) == HashFrom(hf(items[0]), items[1..], hf)
  {
    HashFromSnoc(items, hf, |items|);
    assert items[..|items|] == items;
    assert items[|items|..] == [];
  }

  lemma {:induction false} HashFromSnoc<T>(items: seq<T>, hf: T -> bv64, k: nat)
    requires 1 <= k <= |items|
    ensures HashFrom(Hash(items[..k], hf), items[k..], hf) == HashFrom(hf(items[0]), items[1..], hf)
  {
    if k > 1 {
      HashFromSnoc(items, hf, k - 1);
      assert items[..k][..k - 1] == items[..k - 1];
      assert items[k - 1..][1..] == items[k..];
    }
  }

  /** Appending a token to a non-empty item combines its hash into the old one. */
  lemma HashAppend<T>(items: seq<T>, x: T, hf: T -> bv64)
    requires |items| > 0
    ensures Hash(items + [x], hf) == Combine(Hash(items, hf), hf(x))
  {
    assert (items + [x])[..|items|] == items;
  }

  /** A unigram hashes to the element hash of its token. */
  lemma HashUnigram<T>(x: T, hf: T -> bv64)
    ensures Hash([x], hf) == hf(x)
  {
  }

  /** Equality of items is elementwise and compares lengths. */
  lemma ItemEquality<T>(a: seq<T>, b: seq<T>)
    ensures a == b <==> |a| == |b| && forall i :: 0 <= i < |a| ==> a[i] == b[i]
  {
    if |a| == |b| && forall i :: 0 <= i < |a| ==> a[i] == b[i] {
      assert a == b;
    }
  }

  /** Items of different lengths are never equal: a 1-gram never matches a 2-gram. */
  lemma DifferentSizesNeverEqual<T>(a: seq<T>, b: seq<T>)
    requires |a| != |b|
    ensures a != b
  {
  }

  /** Equality is order-sensitive: (x, y) differs from (y, x) unless x == y. */
  lemma OrderSensitive<T>(x: T, y: T)
    ensures [x, y] == [y, x] <==> x == y
  {
    if [x, y] == [y, x] {
      assert [x, y][0] == [y, x][0];
    }
  }

  /** With the identity element hash, the hash itself tells (1, 2) from (2, 1). */
  lemma HashOrderSensitiveExample()
    ensures Hash([1 as bv64, 2], e => e) != Hash([2 as bv64, 1], e => e)
  {
    assert Hash([1 as bv64, 2], e => e) == Combine(1, 2);
    assert Hash([2 as bv64, 1], e => e) == Combine(2, 1);
  }
}
