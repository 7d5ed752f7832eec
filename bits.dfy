/** Facts about 64-bit masks used by the bitboard engine: the `u64` primitives
    it calls (`leading_zeros`, `count_ones`) and the order in which the `Moves`
    iterator visits the set bits of a mask. Every fact about the bits of a
    word is proved in its own small lemma; the inductive lemmas only pass
    those facts along, which keeps each proof obligation small. */
module Bits {

  /** `m` has exactly one bit set. */
  predicate Single(m: bv64) {
    m != 0 && m & (m - 1) == 0
  }

  /** Every bit of `a` is a bit of `b`. */
  predicate In(a: bv64, b: bv64) {
    a & b == a
  }

  /** Every bit of `a` lies below the single bit `t`. */
  predicate Below(a: bv64, t: bv64) {
    In(a, t - 1)
  }

  /** `r` is the highest set bit of `x`, and 0 exactly when `x` is 0. */
  predicate TopOf(x: bv64, r: bv64) {
    (r == 0 <==> x == 0) && (r != 0 ==> Single(r) && In(r, x) && Below(x ^ r, r))
  }

  // ---------------------------------------------------------------------
  // Small facts about bits
  // ---------------------------------------------------------------------

  lemma InTrans(a: bv64, b: bv64, c: bv64)
    requires In(a, b) && In(b, c)
    ensures In(a, c)
  {}

  /** Below a single bit means smaller. */
  lemma BelowLess(a: bv64, t: bv64)
    requires Below(a, t) && Single(t)
    ensures a < t
  {}

  /** Two different single bits share no bit. */
  lemma SingleApart(m: bv64, t: bv64)
    requires Single(m) && Single(t) && m != t
    ensures m & t == 0
  {}

  /** A single bit inside another single bit is that bit. */
  lemma SingleInSingle(m: bv64, a: bv64)
    requires Single(m) && Single(a) && In(m, a)
    ensures m == a
  {}

  /** A union of two parts of `x` is a part of `x`. */
  lemma OrWithin(a: bv64, b: bv64, x: bv64)
    requires In(a, x) && In(b, x)
    ensures In(a | b, x)
  {}

  /** Removing the bits `t` keeps every bit outside `t`. */
  lemma XorKeeps(x: bv64, t: bv64, m: bv64)
    requires In(m, x) && m & t == 0
    ensures In(m, x ^ t)
  {}

  /** Removing a part of `x` leaves a part of `x`. */
  lemma XorIn(x: bv64, t: bv64)
    requires In(t, x)
    ensures In(x ^ t, x)
  {}

  // ---------------------------------------------------------------------
  // leading_zeros
  // ---------------------------------------------------------------------

  /** Count the thresholds 2^63, 2^62, ... that `x` stays below. */
  function Scan(x: bv64, t: bv64, n: bv64): bv64
    decreases t
  {
    if t == 0 || x >= t then n else Scan(x, t >> 1, n + 1)
  }

  /** The first of those thresholds that `x` reaches, or 0 when there is none. */
  function ScanMask(x: bv64, t: bv64): bv64
    decreases t
  {
    if t == 0 || x >= t then t else ScanMask(x, t >> 1)
  }

  /** `u64::leading_zeros`: the number of zero bits above the highest set bit. */
  function LeadingZeros(x: bv64): bv64 {
    Scan(x, 0x8000_0000_0000_0000, 0)
  }

  /** The highest set bit of `x`, found by the same scan. */
  function HighBit(x: bv64): bv64 {
    ScanMask(x, 0x8000_0000_0000_0000)
  }

  /** `x` lies below 2t and t is a single bit; or the scan ran out and x is 0. */
  predicate Bracket(x: bv64, t: bv64) {
    if t == 0 then x == 0 else Single(t) && x >> 1 < t
  }

  lemma BracketStart(x: bv64)
    ensures Bracket(x, 0x8000_0000_0000_0000)
  {}

  lemma BracketStep(x: bv64, t: bv64)
    requires Bracket(x, t) && t != 0 && x < t
    ensures Bracket(x, t >> 1) && t >> 1 < t
  {}

  lemma BracketFound(x: bv64, t: bv64)
    requires Bracket(x, t) && (t == 0 || x >= t)
    ensures TopOf(x, t)
  {}

  lemma ScanMaskPass(x: bv64, t: bv64)
    requires t != 0 && x < t && TopOf(x, ScanMask(x, t >> 1))
    ensures TopOf(x, ScanMask(x, t))
  {}

  lemma {:induction false} ScanMaskTop(x: bv64, t: bv64)
    requires Bracket(x, t)
    ensures TopOf(x, ScanMask(x, t))
    decreases t
  {
    if t == 0 || x >= t {
      BracketFound(x, t);
    } else {
      BracketStep(x, t);
      ScanMaskTop(x, t >> 1);
      ScanMaskPass(x, t);
    }
  }

  /** The threshold the scan stops at is the bit its count names. */
  predicate Agree(x: bv64, t: bv64, n: bv64) {
    Scan(x, t, n) < 64 && ScanMask(x, t) == (1 as bv64) << (63 - Scan(x, t, n))
  }

  lemma HalfShift(n: bv64)
    requires n < 63
    ensures (1 as bv64) << (63 - (n + 1)) == ((1 as bv64) << (63 - n)) >> 1 && n + 1 < 64
  {}

  lemma AgreeFound(x: bv64, t: bv64, n: bv64)
    requires n < 64 && t == (1 as bv64) << (63 - n) && x >= t
    ensures Agree(x, t, n)
  {}

  lemma AgreePass(x: bv64, t: bv64, n: bv64)
    requires t != 0 && x < t && Agree(x, t >> 1, n + 1)
    ensures Agree(x, t, n)
  {}

  lemma {:induction false} ScanAgrees(x: bv64, t: bv64, n: bv64)
    requires n < 64 && t == (1 as bv64) << (63 - n) && x != 0
    ensures Agree(x, t, n)
    decreases t
  {
    if x >= t {
      AgreeFound(x, t, n);
    } else if n == 63 {
      assert false;
    } else {
      HalfShift(n);
      ScanAgrees(x, t >> 1, n + 1);
      AgreePass(x, t, n);
    }
  }

  /** The scan finds the highest set bit. */
  lemma HighBitTop(x: bv64)
    ensures TopOf(x, HighBit(x))
  {
    ScanNames(x);
    BracketStart(x);
    ScanMaskTop(x, 0x8000_0000_0000_0000);
  }

  /** For a non-zero `x`, `x.leading_zeros()` is below 64 ... */
  lemma LeadingZerosBelow(x: bv64, n: bv64)
    requires x != 0 && n == LeadingZeros(x)
    ensures n < 64
  {
    ScanAgrees(x, 0x8000_0000_0000_0000, 0);
  }

  /** ... and `1 << (63 - x.leading_zeros())` is its highest set bit. */
  lemma LeadingZerosHigh(x: bv64, n: bv64, t: bv64)
    requires x != 0 && n == LeadingZeros(x) && n < 64 && t == HighBit(x)
    ensures (1 as bv64) << (63 - n) == t
  {
    ScanAgrees(x, 0x8000_0000_0000_0000, 0);
  }

  /** The two scans, by name. */
  lemma ScanNames(x: bv64)
    ensures LeadingZeros(x) == Scan(x, 0x8000_0000_0000_0000, 0)
    ensures HighBit(x) == ScanMask(x, 0x8000_0000_0000_0000)
  {}

  /** A single bit is its own highest bit. */
  lemma SingleTop(m: bv64)
    requires Single(m)
    ensures HighBit(m) == m
  {
    HighBitTop(m);
    SingleInSingle(HighBit(m), m);
  }

  // ---------------------------------------------------------------------
  // count_ones
  // ---------------------------------------------------------------------

  /** The lowest bit of `x`, as a number. */
  function Low(x: bv64): nat {
    if x & 1 == 1 then 1 else 0
  }

  /** `u64::count_ones`, one low bit at a time. */
  function CountOnes(x: bv64): nat
    decreases x
  {
    if x == 0 then 0 else Low(x) + CountOnes(x >> 1)
  }

  lemma HalfShrinks(x: bv64)
    requires x != 0
    ensures x >> 1 < x
  {}

  lemma CountStep(x: bv64)
    ensures CountOnes(x) == Low(x) + CountOnes(x >> 1)
  {
    if x == 0 {
      assert x >> 1 == 0 && x & 1 == 0;
    }
  }

  /** Clearing the low bit of `x` keeps the bits above it. */
  lemma ClearLow(x: bv64)
    requires In(1, x)
    ensures Low(x ^ 1) + 1 == Low(x) && (x ^ 1) >> 1 == x >> 1
  {}

  /** Clearing a higher bit `b` of `x` keeps the low bit and clears `b >> 1`
      in the upper bits. */
  lemma ClearHigh(x: bv64, b: bv64)
    requires Single(b) && In(b, x) && b != 1
    ensures Low(x ^ b) == Low(x) && (x ^ b) >> 1 == (x >> 1) ^ (b >> 1)
  {}

  lemma HalfSingle(x: bv64, b: bv64)
    requires Single(b) && In(b, x) && b != 1
    ensures Single(b >> 1) && In(b >> 1, x >> 1) && x != 0
  {}

  lemma CountClearLow(x: bv64)
    requires In(1, x)
    ensures CountOnes(x ^ 1) + 1 == CountOnes(x)
  {
    CountStep(x);
    CountStep(x ^ 1);
    ClearLow(x);
  }

  /** Clearing one set bit lowers the population count by one. */
  lemma {:induction false} CountClear(x: bv64, b: bv64)
    requires Single(b) && In(b, x)
    ensures CountOnes(x ^ b) + 1 == CountOnes(x)
    decreases x
  {
    if b == 1 {
      CountClearLow(x);
    } else {
      CountStep(x);
      CountStep(x ^ b);
      ClearHigh(x, b);
      HalfSingle(x, b);
      HalfShrinks(x);
      CountClear(x >> 1, b >> 1);
    }
  }

  /** `x` has no set bit at or above bit `n`. */
  predicate Fits(x: bv64, n: bv64) {
    n <= 64 && x >> n == 0
  }

  lemma FitStep(x: bv64, n: bv64)
    requires Fits(x, n) && n != 0
    ensures Fits(x >> 1, n - 1) && n - 1 < n
  {}

  lemma FitZero(x: bv64, n: bv64)
    requires Fits(x, n) && n == 0
    ensures CountOnes(x) <= n as int
  {
    assert x == 0;
  }

  lemma CountUp(x: bv64, n: bv64)
    requires 0 < n <= 64 && CountOnes(x >> 1) <= (n - 1) as int
    ensures CountOnes(x) <= n as int
  {
    CountStep(x);
  }

  /** A word with no bit at or above bit `n` has at most `n` bits set. */
  lemma {:induction false} CountFits(x: bv64, n: bv64)
    requires Fits(x, n)
    ensures CountOnes(x) <= n as int
    decreases n
  {
    if n == 0 {
      FitZero(x, n);
    } else {
      FitStep(x, n);
      CountFits(x >> 1, n - 1);
      CountUp(x, n);
    }
  }

  /** Every word has between 0 and 64 bits set. */
  lemma CountBound(x: bv64)
    ensures CountOnes(x) <= 64
  {
    CountFits(x, 64);
  }
  // ---------------------------------------------------------------------
  // The order of the Moves iterator
  // ---------------------------------------------------------------------

  /** Removing the highest set bit removes one set bit. */
  lemma HighBitCount(x: bv64)
    requires x != 0
    ensures CountOnes(x ^ HighBit(x)) < CountOnes(x)
  {
    HighBitTop(x);
    CountClear(x, HighBit(x));
  }

  /** The bits `Moves(x)` yields, in the order of its `next` calls. */
  function Order(x: bv64): seq<bv64>
    decreases CountOnes(x)
  {
    if x == 0 then [] else
      HighBitCount(x);
      [HighBit(x)] + Order(x ^ HighBit(x))
  }

  /** `Moves(x)` yields nothing exactly when `x` is 0. */
  lemma OrderEmpty(x: bv64)
    ensures |Order(x)| == 0 <==> x == 0
  {}

  /** One step of the iterator: the top bit comes first, then the rest. */
  lemma OrderTail(x: bv64, k: nat)
    requires x != 0
    ensures |Order(x)| == |Order(x ^ HighBit(x))| + 1
    ensures Order(x)[0] == HighBit(x)
    ensures 0 < k < |Order(x)| ==> Order(x)[k] == Order(x ^ HighBit(x))[k - 1]
  {}

  /** A bit of `x ^ t`, for the top bit `t` of `x`, is a bit of `x`. */
  lemma UnderTop(x: bv64, t: bv64, e: bv64)
    ensures TopOf(x, t) && x != 0 && In(e, x ^ t) ==> In(e, x)
  {
    if TopOf(x, t) && x != 0 && In(e, x ^ t) {
      XorIn(x, t);
      InTrans(e, x ^ t, x);
    }
  }

  /** A bit of `x ^ t`, for the top bit `t` of `x`, lies below `t`. */
  lemma UnderTopBelow(x: bv64, t: bv64, e: bv64)
    ensures TopOf(x, t) && x != 0 && In(e, x ^ t) ==> Below(e, t)
  {
    if TopOf(x, t) && x != 0 && In(e, x ^ t) {
      InTrans(e, x ^ t, t - 1);
    }
  }

  /** What is left after the first `next` is part of the mask. */
  lemma UnderHigh(x: bv64, t: bv64, e: bv64)
    requires x != 0 && t == HighBit(x) && In(e, x ^ t)
    ensures In(e, x)
  {
    HighBitTop(x);
    UnderTop(x, t, e);
  }

  /** What is left after the first `next` lies below the bit it yielded. */
  lemma UnderHighBelow(x: bv64, t: bv64, e: bv64)
    requires x != 0 && t == HighBit(x) && In(e, x ^ t)
    ensures Below(e, t)
  {
    HighBitTop(x);
    UnderTopBelow(x, t, e);
  }

  /** A single bit of `x` other than its top bit is a bit of `x ^ t`. */
  lemma BelowTop(x: bv64, t: bv64, m: bv64)
    ensures TopOf(x, t) && x != 0 && Single(m) && In(m, x) && m != t ==> In(m, x ^ t)
  {
    if TopOf(x, t) && x != 0 && Single(m) && In(m, x) && m != t {
      SingleApart(m, t);
      XorKeeps(x, t, m);
    }
  }

  /** A single bit of `x` other than the first one yielded is left for later. */
  lemma BelowHigh(x: bv64, t: bv64, m: bv64)
    requires x != 0 && t == HighBit(x) && Single(m) && In(m, x) && m != t
    ensures In(m, x ^ t)
  {
    HighBitTop(x);
    BelowTop(x, t, m);
  }

  /** The first value `Moves(x)` yields is a single set bit of `x`. */
  lemma OrderHead(x: bv64)
    requires x != 0
    ensures Single(Order(x)[0]) && In(Order(x)[0], x)
  {
    HighBitTop(x);
    OrderTail(x, 0);
  }

  /** The highest bit of a nonzero `x` is a single bit of `x`. */
  lemma HighBitSingle(x: bv64, m: bv64)
    requires x != 0 && m == HighBit(x)
    ensures Single(m) && In(m, x)
  {
    HighBitTop(x);
  }

  /** Taking the highest bit `m` off a nonzero `x` leaves `y`, whose order
      is the order of `x` without its head. */
  lemma Pop(x: bv64, m: bv64, y: bv64)
    requires x != 0 && m == HighBit(x) && y == x ^ m
    ensures Order(x) == [m] + Order(y)
  {}

  /** Every value `Moves(x)` yields is a single bit. */
  lemma {:induction false} OrderSingle(x: bv64, k: nat)
    requires k < |Order(x)|
    ensures Single(Order(x)[k])
    decreases CountOnes(x)
  {
    OrderEmpty(x);
    if k == 0 {
      OrderHead(x);
    } else {
      HighBitCount(x);
      OrderTail(x, k);
      OrderSingle(x ^ HighBit(x), k - 1);
    }
  }

  /** Every value `Moves(x)` yields is a bit of `x`. */
  lemma {:induction false} OrderIn(x: bv64, k: nat)
    requires k < |Order(x)|
    ensures In(Order(x)[k], x)
    decreases CountOnes(x)
  {
    OrderEmpty(x);
    if k == 0 {
      OrderHead(x);
    } else {
      HighBitCount(x);
      OrderTail(x, k);
      OrderIn(x ^ HighBit(x), k - 1);
      UnderHigh(x, HighBit(x), Order(x ^ HighBit(x))[k - 1]);
    }
  }

  /** Every value `Moves(x)` yields is a single set bit of `x`. */
  lemma OrderSound(x: bv64, k: nat)
    requires k < |Order(x)|
    ensures Single(Order(x)[k]) && In(Order(x)[k], x)
  {
    OrderSingle(x, k);
    OrderIn(x, k);
  }

  /** Every set bit of `x` is yielded by `Moves(x)`. */
  lemma {:induction false} OrderComplete(x: bv64, m: bv64)
    requires Single(m) && In(m, x)
    ensures m in Order(x)
    decreases CountOnes(x)
  {
    if x == 0 {
      assert false;
    }
    OrderEmpty(x);
    OrderTail(x, 0);
    if m != HighBit(x) {
      HighBitCount(x);
      BelowHigh(x, HighBit(x), m);
      OrderComplete(x ^ HighBit(x), m);
      OrderSkip(x, m);
    }
  }

  /** A value yielded after the first `next` is yielded by `Moves(x)`. */
  lemma OrderSkip(x: bv64, m: bv64)
    requires x != 0 && m in Order(x ^ HighBit(x))
    ensures m in Order(x)
  {
    OrderEmpty(x);
    var k :| 0 <= k < |Order(x ^ HighBit(x))| && Order(x ^ HighBit(x))[k] == m;
    OrderTail(x, k + 1);
  }

  /** Every later value lies below the first one yielded. */
  lemma OrderBelowHead(x: bv64, j: nat)
    requires 0 < j < |Order(x)|
    ensures Below(Order(x)[j], Order(x)[0])
  {
    OrderEmpty(x);
    OrderTail(x, j);
    OrderTail(x, 0);
    OrderIn(x ^ HighBit(x), j - 1);
    UnderHighBelow(x, HighBit(x), Order(x ^ HighBit(x))[j - 1]);
  }

  /** `Moves(x)` yields its bits highest first: a later bit lies below every
      earlier one. */
  lemma {:induction false} OrderDescending(x: bv64, i: nat, j: nat)
    requires i < j < |Order(x)|
    ensures Below(Order(x)[j], Order(x)[i])
    decreases CountOnes(x)
  {
    if i == 0 {
      OrderBelowHead(x, j);
    } else {
      OrderEmpty(x);
      HighBitCount(x);
      OrderTail(x, i);
      OrderTail(x, j);
      OrderDescending(x ^ HighBit(x), i - 1, j - 1);
    }
  }

  /** So the bits come out in strictly decreasing order, and none twice. */
  lemma OrderDecreasing(x: bv64, i: nat, j: nat)
    requires i < j < |Order(x)|
    ensures Order(x)[i] > Order(x)[j]
  {
    OrderDescending(x, i, j);
    OrderSound(x, i);
    BelowLess(Order(x)[j], Order(x)[i]);
  }

  /** The bit that `1 << (63 - n)` selects is bit `63 - n`. */
  lemma ShiftedBit(x: bv64, m: bv64, n: bv64)
    requires n < 64 && m == (1 as bv64) << (63 - n) && In(m, x)
    ensures Bit(x, 63 - n)
  {}

  /** A higher single bit has fewer leading zeros. */
  lemma ShiftedOrder(a: bv64, na: bv64, b: bv64, nb: bv64)
    requires na < 64 && nb < 64
    requires a == (1 as bv64) << (63 - na) && b == (1 as bv64) << (63 - nb)
    requires a > b
    ensures na < nb
  {}

  /** The position at which `Moves(x)` yields a given bit of `x`. */
  lemma OrderIndex(x: bv64, m: bv64) returns (j: nat)
    requires Single(m) && In(m, x)
    ensures j < |Order(x)| && Order(x)[j] == m
  {
    OrderComplete(x, m);
    j :| 0 <= j < |Order(x)| && Order(x)[j] == m;
  }

  /** A higher single bit has fewer leading zeros: it is an earlier square. */
  lemma LeadingZerosOrder(a: bv64, b: bv64)
    requires Single(a) && Single(b) && a > b
    ensures LeadingZeros(a) < LeadingZeros(b)
  {
    var na := LeadingZeros(a);
    var nb := LeadingZeros(b);
    LeadingZerosBelow(a, na);
    LeadingZerosBelow(b, nb);
    SingleTop(a);
    SingleTop(b);
    LeadingZerosHigh(a, na, a);
    LeadingZerosHigh(b, nb, b);
    ShiftedOrder(a, na, b, nb);
  }

  /** A bit yielded earlier is higher than one yielded later. */
  lemma OrderLater(x: bv64, j: nat, i: nat, m: bv64, c: bv64)
    requires j < i < |Order(x)| && Order(x)[j] == m && Order(x)[i] == c
    ensures m > c
  {
    OrderDecreasing(x, j, i);
  }

  /** A mask holding a single bit is not empty. */
  lemma InNonZero(x: bv64, m: bv64)
    requires Single(m) && In(m, x)
    ensures x != 0
  {}

  /** A bit yielded no later than another is no lower. */
  lemma OrderNotLater(x: bv64, j: nat, i: nat, m: bv64, c: bv64)
    requires j <= i < |Order(x)| && Order(x)[j] == m && Order(x)[i] == c
    ensures c <= m
  {
    if j < i {
      OrderLater(x, j, i, m, c);
    }
  }

  /** A bit yielded by `Moves(x)` is a single bit. */
  lemma OrderAt(x: bv64, i: nat, m: bv64)
    requires i < |Order(x)| && Order(x)[i] == m
    ensures Single(m)
  {
    OrderSingle(x, i);
  }

  /** A bit yielded earlier is an earlier square: it has fewer leading zeros. */
  lemma OrderLeadingZeros(x: bv64, j: nat, i: nat, m: bv64, c: bv64)
    requires j < i < |Order(x)| && Order(x)[j] == m && Order(x)[i] == c
    ensures LeadingZeros(m) < LeadingZeros(c)
  {
    OrderLater(x, j, i, m, c);
    OrderAt(x, j, m);
    OrderAt(x, i, c);
    LeadingZerosOrder(m, c);
  }

  /** A single bit no lower than another has no more leading zeros. */
  lemma LeadingZerosAtMost(m: bv64, c: bv64)
    requires Single(m) && Single(c) && c <= m
    ensures LeadingZeros(m) <= LeadingZeros(c)
  {
    if c != m {
      LeadingZerosOrder(m, c);
    }
  }

  /** `Moves(x)` yields exactly `x.count_ones()` values before it returns `None`. */
  lemma {:induction false} OrderLength(x: bv64)
    ensures |Order(x)| == CountOnes(x)
    decreases CountOnes(x)
  {
    if x != 0 {
      HighBitTop(x);
      HighBitCount(x);
      OrderTail(x, 0);
      OrderLength(x ^ HighBit(x));
      CountClear(x, HighBit(x));
    } else {
      assert CountOnes(x) == 0;
    }
  }

  // ---------------------------------------------------------------------
  // Unions: `fold(0, BitOr::bitor)` over a sequence of masks
  // ---------------------------------------------------------------------

  /** The bitwise or of a sequence of masks, folded from the left. */
  function Union(xs: seq<bv64>): bv64 {
    if |xs| == 0 then 0 else Union(xs[..|xs| - 1]) | xs[|xs| - 1]
  }

  lemma UnionSnoc(xs: seq<bv64>)
    requires |xs| > 0
    ensures Union(xs) == Union(xs[..|xs| - 1]) | xs[|xs| - 1]
  {}

  lemma UnionNil(xs: seq<bv64>)
    ensures |xs| == 0 ==> Union(xs) == 0
  {}

  /** `m` shares a bit with `x`. */
  predicate Hits(m: bv64, x: bv64) {
    m & x != 0
  }

  /** Bit `k` of `x`. */
  function BitAt(x: bv64, k: bv64): bv64
    requires k < 64
  {
    (x >> k) & 1
  }

  /** Bit `k` of `x` is set. */
  predicate Bit(x: bv64, k: bv64)
    requires k < 64
  {
    BitAt(x, k) == 1
  }

  lemma AndOverOr(m: bv64, a: bv64, b: bv64)
    ensures m & (a | b) == (m & a) | (m & b)
  {}

  lemma OrZero(x: bv64, y: bv64)
    ensures x | y == 0 <==> x == 0 && y == 0
  {}

  lemma HitsOr(m: bv64, a: bv64, b: bv64)
    ensures Hits(m, a | b) <==> Hits(m, a) || Hits(m, b)
  {
    AndOverOr(m, a, b);
    OrZero(m & a, m & b);
  }

  lemma HitsZero(m: bv64)
    ensures !Hits(m, 0)
  {}

  lemma BitZero(k: bv64)
    requires k < 64
    ensures !Bit(0, k)
  {}

  lemma BitOr(a: bv64, b: bv64, k: bv64)
    requires k < 64
    ensures Bit(a | b, k) <==> Bit(a, k) || Bit(b, k)
  {}

  /** Bit k of `x = a & b` is set exactly when it is set in both. */
  lemma BitAnd(x: bv64, a: bv64, b: bv64, k: bv64)
    requires k < 64 && x == a & b
    ensures Bit(x, k) <==> Bit(a, k) && Bit(b, k)
  {}

  /** Two single bits share a bit exactly when they are the same bit. */
  lemma SingleHits(m: bv64, x: bv64)
    ensures Single(m) && Single(x) ==> (Hits(m, x) <==> m == x)
  {}

  lemma HitsStep(m: bv64, u: bv64, a: bv64, l: bv64)
    requires u == a | l && Hits(m, u) && !Hits(m, l)
    ensures Hits(m, a)
  {
    HitsOr(m, a, l);
  }

  lemma BitStep(u: bv64, a: bv64, l: bv64, k: bv64)
    requires k < 64 && u == a | l && Bit(u, k) && !Bit(l, k)
    ensures Bit(a, k)
  {
    BitOr(a, l, k);
  }

  /** A union of masks inside `x` is inside `x`. */
  lemma {:induction false} UnionWithin(xs: seq<bv64>, x: bv64)
    requires forall i :: 0 <= i < |xs| ==> In(xs[i], x)
    ensures In(Union(xs), x)
  {
    UnionNil(xs);
    if |xs| > 0 {
      UnionSnoc(xs);
      UnionWithin(xs[..|xs| - 1], x);
      OrWithin(Union(xs[..|xs| - 1]), xs[|xs| - 1], x);
    }
  }

  /** When `m` meets a union it meets one of its members ... */
  lemma {:induction false} UnionHitsSome(m: bv64, xs: seq<bv64>) returns (i: nat)
    requires Hits(m, Union(xs))
    ensures i < |xs| && Hits(m, xs[i])
  {
    UnionNil(xs);
    HitsZero(m);
    UnionSnoc(xs);
    if Hits(m, xs[|xs| - 1]) {
      i := |xs| - 1;
    } else {
      HitsStep(m, Union(xs), Union(xs[..|xs| - 1]), xs[|xs| - 1]);
      i := UnionHitsSome(m, xs[..|xs| - 1]);
    }
  }

  /** ... and when it meets a member it meets the union. */
  lemma {:induction false} UnionHitsOne(m: bv64, xs: seq<bv64>, i: nat)
    requires i < |xs| && Hits(m, xs[i])
    ensures Hits(m, Union(xs))
  {
    UnionSnoc(xs);
    var init := xs[..|xs| - 1];
    HitsOr(m, Union(init), xs[|xs| - 1]);
    if i < |xs| - 1 {
      assert init[i] == xs[i];
      UnionHitsOne(m, init, i);
    }
  }

  /** When bit `k` of a union is set it is set in one of its members ... */
  lemma {:induction false} UnionBitSome(xs: seq<bv64>, k: bv64) returns (i: nat)
    requires k < 64 && Bit(Union(xs), k)
    ensures i < |xs| && Bit(xs[i], k)
  {
    UnionNil(xs);
    BitZero(k);
    UnionSnoc(xs);
    if Bit(xs[|xs| - 1], k) {
      i := |xs| - 1;
    } else {
      BitStep(Union(xs), Union(xs[..|xs| - 1]), xs[|xs| - 1], k);
      i := UnionBitSome(xs[..|xs| - 1], k);
    }
  }

  /** ... and a bit set in a member is set in the union. */
  lemma {:induction false} UnionBitOne(xs: seq<bv64>, k: bv64, i: nat)
    requires k < 64 && i < |xs| && Bit(xs[i], k)
    ensures Bit(Union(xs), k)
  {
    UnionSnoc(xs);
    var init := xs[..|xs| - 1];
    BitOr(Union(init), xs[|xs| - 1], k);
    if i < |xs| - 1 {
      assert init[i] == xs[i];
      UnionBitOne(init, k, i);
    }
  }

}
