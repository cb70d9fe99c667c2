/** The level planning of the benchmark: the per-level capacity schedule of
    leveled merging (`SetupLeveling`) and the per-level filter bits of the
    Monkey allocation (`SetupMonkey`, with its hand-tuned table). */
module LevelPlanner {
  import opened Wrappers
  import opened Arith

  /** A membership filter, known here only by its bits per key
      (what NewBloomFilterPolicy is given). */
  datatype FilterPolicy = BloomFilter(bitsPerKey: int)

  datatype Compression = NoCompression | SnappyCompression

  /** The fields of the engine's options that the benchmark sets or reads.
      The per-level arrays have one entry per level (NUM_LEVELS of them). */
  datatype Options = Options(
    createIfMissing: bool,
    useLeveledMerge: bool,
    maxFileSize: nat,
    sizeRatio: nat,
    leveledFileSizes: seq<nat>,
    monkey: bool,
    monkeyFilterPolicies: seq<Option<FilterPolicy>>,
    filterPolicy: Option<FilterPolicy>,
    compression: Compression)
  {
    /** There is at least one level, and both per-level arrays cover all levels. */
    predicate Valid() {
      1 <= |leveledFileSizes| && |monkeyFilterPolicies| == |leveledFileSizes|
    }

    function NumLevels(): nat {
      |leveledFileSizes|
    }
  }

  /** Capacities are computed in a 64-bit size_t: arithmetic wraps modulo this. */
  const SizeLimit: nat := 0x1_0000_0000_0000_0000

  /** A value as size_t holds it: C converts an integer to size_t by adding
      or taking away whole multiples of 2^64 until it is in range. */
  function Wrap(n: int): (w: nat)
    decreases if n < 0 then SizeLimit - n else n
    ensures w < SizeLimit
  {
    if n < 0 then Wrap(n + SizeLimit)
    else if n < SizeLimit then n
    else Wrap(n - SizeLimit)
  }

  /** Wrap is the (Euclidean) remainder modulo 2^64. */
  lemma {:induction false} WrapIsMod(n: int)
    decreases if n < 0 then SizeLimit - n else n
    ensures Wrap(n) == n % SizeLimit
  {
    if n < 0 {
      WrapIsMod(n + SizeLimit);
      var q, r := (n + SizeLimit) / SizeLimit, (n + SizeLimit) % SizeLimit;
      assert n + SizeLimit == q * SizeLimit + r;
      ModUnique(n, SizeLimit, q - 1, r);
    } else if n < SizeLimit {
      ModUnique(n, SizeLimit, 0, n);
    } else {
      WrapIsMod(n - SizeLimit);
      var q, r := (n - SizeLimit) / SizeLimit, (n - SizeLimit) % SizeLimit;
      assert n - SizeLimit == q * SizeLimit + r;
      ModUnique(n, SizeLimit, q + 1, r);
    }
  }

  /** Wrapping a factor first does not change the wrapped product. */
  lemma WrapMul(a: int, b: int)
    ensures Wrap(Wrap(a) * b) == Wrap(a * b)
  {
    WrapIsMod(a);
    WrapIsMod(Wrap(a) * b);
    WrapIsMod(a * b);
    MulMod(a, b, SizeLimit);
  }

  /** A value size_t can hold is held unchanged. */
  lemma WrapSmall(n: nat)
    requires n < SizeLimit
    ensures Wrap(n) == n
  {
  }

  function Pow(b: nat, e: nat): nat {
    if e == 0 then 1 else b * Pow(b, e - 1)
  }

  /** Starting one level later with ratio times the size lands on the same capacity. */
  lemma PowShift(m: nat, r: nat, i: nat)
    requires 1 <= i
    ensures m * r * Pow(r, i - 1) == m * Pow(r, i)
  {
    var p := Pow(r, i - 1);
    assert Pow(r, i) == r * p;
    assert m * r * p == m * (r * p);
  }

  /** m * r^i: a start value scaled i times by a ratio. */
  function Scaled(m: nat, r: nat, i: nat): nat {
    m * Pow(r, i)
  }

  /** The same, when the product is wrapped into size_t before it is carried on. */
  lemma WrapShift(m: nat, r: nat, i: nat)
    requires 1 <= i
    ensures Wrap(Scaled(Wrap(m * r), r, i - 1)) == Wrap(Scaled(m, r, i))
  {
    WrapMul(m * r, Pow(r, i - 1));
    PowShift(m, r, i);
  }

  /** The capacity level i is meant to get: max_file_size * size_ratio^i. */
  function Capacity(o: Options, i: nat): nat {
    Scaled(o.maxFileSize, o.sizeRatio, i)
  }

  /** No level's capacity overflows size_t. */
  predicate CapacitiesFit(o: Options)
    requires o.Valid()
  {
    forall i :: 1 <= i < o.NumLevels() ==> Capacity(o, i) < SizeLimit
  }

  /** The sizes handed to n consecutive levels when the first gets `size` and
      each later one ratio times the one before, in size_t: a geometric
      sequence modulo 2^64. */
  function LevelSizes(size: nat, ratio: nat, n: nat): (r: seq<nat>)
    requires size < SizeLimit
    decreases n
    ensures |r| == n
    ensures forall i :: 0 <= i < n ==> r[i] == Wrap(Scaled(size, ratio, i))
  {
    if n == 0 then []
    else
      var rest := LevelSizes(Wrap(size * ratio), ratio, n - 1);
      assert forall i :: 1 <= i < n ==> rest[i - 1] == Wrap(Scaled(size, ratio, i)) by {
        forall i | 1 <= i < n
          ensures rest[i - 1] == Wrap(Scaled(size, ratio, i))
        {
          WrapShift(size, ratio, i);
        }
      }
      WrapSmall(size);
      [size] + rest
  }

  /** SetupLeveling: switch on leveled merging and give every level i >= 1 the
      capacity max_file_size * size_ratio^i as size_t computes it (modulo
      2^64); level 0 and every other option are left as they were. */
  function SetupLeveling(o: Options): (r: Options)
    requires o.Valid()
    ensures r.Valid() && r.NumLevels() == o.NumLevels()
    ensures r.useLeveledMerge
    ensures r.leveledFileSizes[0] == o.leveledFileSizes[0]
    ensures forall i :: 1 <= i < r.NumLevels() ==> r.leveledFileSizes[i] == Wrap(Capacity(o, i))
    ensures r == o.(useLeveledMerge := true, leveledFileSizes := r.leveledFileSizes)
  {
    var sizes := LevelSizes(Wrap(o.maxFileSize * o.sizeRatio), o.sizeRatio, o.NumLevels() - 1);
    assert forall i :: 1 <= i < o.NumLevels() ==> sizes[i - 1] == Wrap(Capacity(o, i)) by {
      forall i | 1 <= i < o.NumLevels()
        ensures sizes[i - 1] == Wrap(Capacity(o, i))
      {
        WrapShift(o.maxFileSize, o.sizeRatio, i);
      }
    }
    o.(useLeveledMerge := true, leveledFileSizes := [o.leveledFileSizes[0]] + sizes)
  }

  /** When no capacity overflows, every level i >= 1 gets exactly
      max_file_size * size_ratio^i. */
  lemma LevelingExact(o: Options, i: nat)
    requires o.Valid() && CapacitiesFit(o) && 1 <= i < o.NumLevels()
    ensures SetupLeveling(o).leveledFileSizes[i] == Capacity(o, i)
  {
    WrapSmall(Capacity(o, i));
  }

  /** Each level from 1 on holds size_ratio times the level before it, as
      size_t multiplies; exactly that many times when nothing overflows. */
  lemma LevelingIsGeometric(o: Options, i: nat)
    requires o.Valid()
    requires 1 <= i < o.NumLevels() - 1
    ensures SetupLeveling(o).leveledFileSizes[i + 1] == Wrap(SetupLeveling(o).leveledFileSizes[i] * o.sizeRatio)
    ensures CapacitiesFit(o) ==>
      SetupLeveling(o).leveledFileSizes[i + 1] == SetupLeveling(o).leveledFileSizes[i] * o.sizeRatio
  {
    ScaledStep(o.maxFileSize, o.sizeRatio, i);
    WrapMul(Capacity(o, i), o.sizeRatio);
    if CapacitiesFit(o) {
      LevelingExact(o, i);
      LevelingExact(o, i + 1);
    }
  }

  /** One more factor of the ratio. */
  lemma ScaledStep(m: nat, r: nat, i: nat)
    ensures Scaled(m, r, i + 1) == Scaled(m, r, i) * r
  {
    MulRotate(m, r, Pow(r, i));
  }

  /** With a ratio above 1 and a non-zero start, more factors give more. */
  lemma ScaledIncreases(m: nat, r: nat, i: nat, j: nat)
    requires 0 < m && 1 < r && i < j
    ensures Scaled(m, r, i) < Scaled(m, r, j)
  {
    PowIncreasing(r, i, j);
    var d := Pow(r, j) - Pow(r, i);
    assert m * Pow(r, j) == m * Pow(r, i) + m * d;
    MulMonotone(1, m, d);
  }

  /** A capacity past 2^64 wraps: 4 GiB files and a ratio of 2^32 give level 1
      no room at all. */
  lemma LevelingWraps(o: Options)
    requires o.Valid() && 2 <= o.NumLevels()
    requires o.maxFileSize == 0x1_0000_0000 && o.sizeRatio == 0x1_0000_0000
    ensures SetupLeveling(o).leveledFileSizes[1] == 0
  {
    assert Capacity(o, 1) == SizeLimit;
  }

  lemma {:induction false} PowPositive(b: nat, e: nat)
    requires 1 <= b
    ensures 1 <= Pow(b, e)
  {
    if e > 0 {
      PowPositive(b, e - 1);
      var p := Pow(b, e - 1);
      assert b * p == p + (b - 1) * p;
    }
  }

  /** Powers of a base above 1 strictly increase. */
  lemma {:induction false} PowIncreasing(b: nat, i: nat, j: nat)
    requires 1 < b && i < j
    ensures Pow(b, i) < Pow(b, j)
  {
    if j > i + 1 {
      PowIncreasing(b, i, j - 1);
    }
    var p := Pow(b, j - 1);
    assert Pow(b, j) == p + (b - 1) * p;
    assert p >= 1 by {
      PowPositive(b, j - 1);
    }
    assert (b - 1) * p >= 1;
  }

  /** With a ratio above 1 and non-empty files, deeper levels hold strictly more. */
  lemma LevelingIncreases(o: Options, i: nat, j: nat)
    requires o.Valid() && CapacitiesFit(o)
    requires 1 < o.sizeRatio && 0 < o.maxFileSize
    requires 1 <= i < j < o.NumLevels()
    ensures SetupLeveling(o).leveledFileSizes[i] < SetupLeveling(o).leveledFileSizes[j]
  {
    LevelingExact(o, i);
    LevelingExact(o, j);
    ScaledIncreases(o.maxFileSize, o.sizeRatio, i, j);
  }

  /** Seven levels, 2 MiB files and a ratio of 10: level 1 holds 20 MiB and
      every level after it ten times more. */
  lemma LevelingExample(o: Options)
    requires o.Valid() && o.NumLevels() == 7
    requires o.maxFileSize == 2 * 1048576 && o.sizeRatio == 10
    ensures SetupLeveling(o).leveledFileSizes[1..]
         == [20971520, 209715200, 2097152000, 20971520000, 209715200000, 2097152000000]
  {
    assert Pow(10, 6) == 1000000;
    WrapSmall(Capacity(o, 1));
    WrapSmall(Capacity(o, 2));
    WrapSmall(Capacity(o, 3));
    WrapSmall(Capacity(o, 4));
    WrapSmall(Capacity(o, 5));
    WrapSmall(Capacity(o, 6));
  }

  /** monkey_filter_bits: the bits per key given to each of up to 20 levels. */
  const MonkeyFilterBits: seq<int> :=
    [40, 35, 30, 25,
     20, 15, 14, 13,
     12, 11, 10, 9,
     19, 1, 1, 1,
     1, 1, 1, 1]

  /** Every level gets at least one bit per key; the first twelve levels get
      strictly fewer bits the deeper they are, from 40 down to 9; level 12 then
      jumps back to 19, so the table as a whole is not monotone. */
  lemma MonkeyTableShape()
    ensures |MonkeyFilterBits| == 20
    ensures forall i :: 0 <= i < 20 ==> MonkeyFilterBits[i] >= 1
    ensures forall i, j :: 0 <= i < j < 12 ==> MonkeyFilterBits[i] > MonkeyFilterBits[j]
    ensures MonkeyFilterBits[0] == 40 && MonkeyFilterBits[11] == 9
    ensures MonkeyFilterBits[11] < MonkeyFilterBits[12] == 19
  {
  }

  /** SetupMonkey: level i gets a filter of monkey_filter_bits[i] bits per
      key; nothing else changes. The table has 20 entries, so at most 20 levels. */
  function SetupMonkey(o: Options): (r: Options)
    requires o.Valid() && o.NumLevels() <= |MonkeyFilterBits|
    ensures r.Valid() && r.NumLevels() == o.NumLevels()
    ensures forall i :: 0 <= i < r.NumLevels() ==>
      r.monkeyFilterPolicies[i].Some? && r.monkeyFilterPolicies[i].value.bitsPerKey == MonkeyFilterBits[i]
    ensures forall i :: 0 <= i < r.NumLevels() ==> r.monkeyFilterPolicies[i].value.bitsPerKey >= 1
    ensures forall i, j :: 0 <= i < j < r.NumLevels() && j < 12 ==>
      r.monkeyFilterPolicies[i].value.bitsPerKey > r.monkeyFilterPolicies[j].value.bitsPerKey
    ensures r == o.(monkeyFilterPolicies := r.monkeyFilterPolicies)
  {
    MonkeyTableShape();
    var policies := seq(o.NumLevels(), i requires 0 <= i < o.NumLevels() => Some(BloomFilter(MonkeyFilterBits[i])));
    o.(monkeyFilterPolicies := policies)
  }
}
