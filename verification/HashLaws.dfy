// What the multiplicative hash does to tags: neighbours part, no two tags share a
// word, and the multiplier is the golden-ratio constant of its width.
module HashLaws {
  import opened Bits
  import opened BucketTable

  const WORDS: nat := 0x1_0000_0000_0000_0000
  const QUARTER: nat := 0x4000_0000_0000_0000
  /** The multiplier's inverse modulo the word size. */
  const INVERSE: nat := 17428512612931826493

  lemma {:induction false} WordSize()
    ensures Pow2(HASH_WORD_BITS) == WORDS && Pow2(HASH_WORD_BITS - 2) == QUARTER && Pow2(HASH_INPUT_BITS) == 0x100_0000_0000
  {
    assert Pow2(8) == 256 && Pow2(2) == 4;
    hide Pow2;
    Pow2Add(8, 8);
    Pow2Add(16, 16);
    Pow2Add(32, 32);
    Pow2Add(32, 8);
    Pow2Add(62, 2);
  }

  /** The multiplier solves `x * x + 2^64 * x = 2^128` up to rounding: it is `2^64` over the golden ratio. */
  lemma {:induction false} MultiplierIsGolden()
    ensures -0x4_0000_0000_0000_0000 < MULTIPLIER * MULTIPLIER + WORDS * MULTIPLIER - WORDS * WORDS < 0x4_0000_0000_0000_0000
    ensures QUARTER < MULTIPLIER < WORDS - QUARTER
  {
  }

  /** The bucket is the high bits of the 64-bit product. */
  lemma {:induction false} BucketIsHighBits(tag: nat, bits: nat)
    requires 1 <= bits <= 64
    ensures var word := (tag * 0x9E3779B97F4A7C15) % 0x1_0000_0000_0000_0000;
      Bucket(tag, bits) * Pow2(64 - bits) <= word < (Bucket(tag, bits) + 1) * Pow2(64 - bits)
  {
    WordSize();
    assert HashWord(tag) == (tag * 0x9E3779B97F4A7C15) % 0x1_0000_0000_0000_0000;
    assert Bucket(tag, bits) == Quotient(HashWord(tag), Pow2(64 - bits));
    hide *;
    BlockBounds(HashWord(tag), Pow2(64 - bits));
  }

  lemma {:induction false} BlockBounds(v: nat, d: nat)
    requires d > 0
    ensures Quotient(v, d) * d <= v < (Quotient(v, d) + 1) * d
  {
    DivMod(v, d);
    hide Quotient;
    assert (Quotient(v, d) + 1) * d == Quotient(v, d) * d + d;
  }

  // --- Neighbouring tags ----------------------------------------------------------------------------

  /** The next tag's word is one multiplier further, around the word size. */
  lemma {:induction false} NextWord(tag: nat)
    ensures HashWord(tag + 1) == HashWord(tag) + MULTIPLIER || HashWord(tag + 1) == HashWord(tag) + MULTIPLIER - WORDS
  {
    WordSize();
    MultiplierIsGolden();
    TimesFacts(tag, MULTIPLIER);
    DivMod(Times(tag, MULTIPLIER), WORDS);
    var q, r := Quotient(Times(tag, MULTIPLIER), WORDS), Remainder(Times(tag, MULTIPLIER), WORDS);
    hide Quotient, Remainder, Times, Pow2;
    if r + MULTIPLIER < WORDS {
      DivModUnique(Times(tag + 1, MULTIPLIER), WORDS, q, r + MULTIPLIER);
    } else {
      assert q * WORDS + WORDS == (q + 1) * WORDS;
      DivModUnique(Times(tag + 1, MULTIPLIER), WORDS, q + 1, r + MULTIPLIER - WORDS);
    }
  }

  /** Values in the same block of a division are less than a block apart. */
  lemma {:induction false} SameBlock(v: nat, w: nat, d: nat)
    requires d > 0 && Quotient(v, d) == Quotient(w, d)
    ensures v - w < d && w - v < d
  {
    DivMod(v, d);
    DivMod(w, d);
    hide Quotient;
  }

  /** Neighbouring tags never share a bucket, for four buckets or more. */
  lemma {:induction false} NeighboursPart(tag: nat, bits: nat)
    requires 2 <= bits <= HASH_WORD_BITS
    ensures Bucket(tag, bits) != Bucket(tag + 1, bits)
  {
    var d := Pow2(HASH_WORD_BITS - bits);
    WordSize();
    MultiplierIsGolden();
    NextWord(tag);
    Pow2Monotone(HASH_WORD_BITS - bits, HASH_WORD_BITS - 2);
    hide HashWord, Pow2, Quotient;
    if Bucket(tag, bits) == Bucket(tag + 1, bits) {
      SameBlock(HashWord(tag), HashWord(tag + 1), d);
    }
  }

  // --- No collisions in the word --------------------------------------------------------------------

  lemma {:induction false} InverseIs()
    ensures MULTIPLIER * INVERSE == 10771413168148108919 * WORDS + 1
  {
  }

  /** A tag is its word times the inverse, modulo the word size. */
  lemma {:induction false} WordRecovers(tag: nat)
    requires tag < WORDS
    ensures HashWord(tag) * INVERSE >= 0 && Remainder(HashWord(tag) * INVERSE, WORDS) == tag
  {
    var w, q := HashWord(tag), Quotient(Times(tag, MULTIPLIER), WORDS);
    WordSize();
    DivMod(Times(tag, MULTIPLIER), WORDS);
    assert tag * MULTIPLIER == q * WORDS + w;
    InverseIs();
    hide *;
    ProductIsNat(w, INVERSE);
    var k := tag * 10771413168148108919 - q * INVERSE;
    assert w * INVERSE == k * WORDS + tag by {
      assert (tag * MULTIPLIER) * INVERSE == tag * (MULTIPLIER * INVERSE);
      assert (q * WORDS + w) * INVERSE == q * INVERSE * WORDS + w * INVERSE;
      assert tag * (10771413168148108919 * WORDS + 1) == tag * 10771413168148108919 * WORDS + tag;
    }
    assert k >= 0 by {
      if k < 0 {
        ProductOrder(k, -1, WORDS);
      }
    }
    DivModUnique(w * INVERSE, WORDS, k, tag);
  }

  /** No two tags below the word size share a word; with `2^64` buckets they never share a bucket. */
  lemma {:induction false} WordsDiffer(a: nat, b: nat)
    requires a < WORDS && b < WORDS && a != b
    ensures HashWord(a) != HashWord(b) && Bucket(a, HASH_WORD_BITS) != Bucket(b, HASH_WORD_BITS)
  {
    WordRecovers(a);
    WordRecovers(b);
    hide HashWord, Remainder;
    assert Pow2(0) == 1;
    DivModUnique(HashWord(a), 1, HashWord(a), 0);
    DivModUnique(HashWord(b), 1, HashWord(b), 0);
    hide Quotient, Pow2;
  }

  /** A tag is refused exactly when it is wider than 40 bits and there is more than one bucket. */
  lemma {:induction false} RefusedTags(tag: nat, bits: nat)
    ensures BucketOf(tag, bits).Ok? <==> bits == 0 || tag < 0x100_0000_0000
  {
    WordSize();
    if BitLength(tag) > HASH_INPUT_BITS {
      Pow2Monotone(HASH_INPUT_BITS, BitLength(tag) - 1);
    } else {
      Pow2Monotone(BitLength(tag), HASH_INPUT_BITS);
    }
    hide BitLength, Pow2, Bucket;
  }
}
