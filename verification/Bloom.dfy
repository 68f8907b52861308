/** The deduplication Bloom filter: double hashing over a bitmap. */
module Bloom {
  import opened Collections
  import opened NumberTheory

  const BLOOM_M_BITS: nat := 958506
  const BLOOM_K: nat := 7
  const LARGE_FACTOR: nat := 159751

  /** The `k` positions of an item whose two digests are `h1` and `h2`. */
  function BitPositions(h1: nat, h2: nat, m: nat, k: nat): (positions: seq<nat>)
    requires m > 0
    ensures |positions| == k && forall p :: p in positions ==> p < m
  {
    seq(k, i requires 0 <= i < k => (h1 + i * h2) % m)
  }

  /** The first position is the first digest's, and each next one is the second digest
  further on, around the bitmap. */
  lemma PositionsStep(h1: nat, h2: nat, m: nat, k: nat, i: nat)
    requires m > 0 && i < k
    ensures var p := BitPositions(h1, h2, m, k);
      p[i] == if i == 0 then h1 % m else (p[i - 1] + h2) % m
  {
    if i > 0 {
      NextMultiple(h1, h2, i);
      RemainderOfSum(h1 + (i - 1) * h2, h2, m);
    }
  }

  lemma NextMultiple(h1: nat, h2: nat, i: nat)
    requires i > 0
    ensures h1 + i * h2 == h1 + (i - 1) * h2 + h2
  {
  }

  lemma RemainderOfSum(a: nat, b: nat, m: nat)
    requires m > 0
    ensures (a + b) % m == (a % m + b) % m
  {
    var q := a / m;
    assert (a + b) - (a % m + b) == q * m;
    DividesIntro(m, (a + b) - (a % m + b), q);
    SameRemainder(m, a + b, a % m + b);
  }

  /** Two of the positions coincide exactly when their distance is a multiple of the
  period `m / gcd(m, h2)`. */
  lemma PositionsCoincide(h1: nat, h2: nat, m: nat, k: nat, i: nat, j: nat)
    requires m > 0 && i < k && j < k
    ensures BitPositions(h1, h2, m, k)[i] == BitPositions(h1, h2, m, k)[j] <==> Divides(m / Gcd(m, h2), i - j)
  {
    SameRemainder(m, h1 + i * h2, h1 + j * h2);
    assert (h1 + i * h2) - (h1 + j * h2) == (i - j) * h2;
    DividesProduct(m, h2, i - j);
  }

  function Period(m: nat, h2: nat): nat
    requires m > 0
  {
    m / Gcd(m, h2)
  }

  /** A sequence whose entries agree exactly at distances that `p` divides. */
  ghost predicate Periodic(s: seq<nat>, p: nat) {
    forall i, j :: 0 <= i < |s| && 0 <= j < |s| ==> (s[i] == s[j] <==> Divides(p, i - j))
  }

  /** Within a period the last entry is new; past it, it was there before. */
  lemma LastOfPeriodic(s: seq<nat>, p: nat)
    requires p > 0 && s != [] && Periodic(s, p)
    ensures s[|s| - 1] in s[..|s| - 1] <==> |s| > p
  {
    var last := |s| - 1;
    if |s| <= p {
      forall i | 0 <= i < last
        ensures s[i] != s[last]
      {
        if Divides(p, i - last) {
          var q := Quotient(p, i - last);
          NoSmallMultiple(p, i - last, q);
        }
      }
    } else {
      DividesIntro(p, (last - p) - last, -1);
      assert s[..last][last - p] == s[last];
    }
  }

  lemma {:induction false} CountPeriodic(s: seq<nat>, p: nat)
    requires p > 0 && Periodic(s, p)
    ensures |Elements(s)| == if |s| <= p then |s| else p
  {
    if s == [] {
      assert Elements(s) == {};
    } else {
      var front := s[..|s| - 1];
      assert forall i :: 0 <= i < |front| ==> front[i] == s[i];
      CountPeriodic(front, p);
      LastOfPeriodic(s, p);
      ElementsOfLast(s);
    }
  }

  /** The positions take exactly `min(k, m / gcd(m, h2))` different values. */
  lemma DistinctPositions(h1: nat, h2: nat, m: nat, k: nat)
    requires m > 0
    ensures |Elements(BitPositions(h1, h2, m, k))| == if k <= Period(m, h2) then k else Period(m, h2)
  {
    var all := BitPositions(h1, h2, m, k);
    var p := ExactQuotient(m, h2);
    forall i, j | 0 <= i < k && 0 <= j < k
      ensures all[i] == all[j] <==> Divides(p, i - j)
    {
      PositionsCoincide(h1, h2, m, k, i, j);
    }
    CountPeriodic(all, p);
  }

  /** The documentation calls the large factor of `m` a prime; it is not. */
  lemma LargeFactorIsComposite()
    ensures LARGE_FACTOR == 107 * 1493 && BLOOM_M_BITS == 2 * 3 * LARGE_FACTOR
  {
  }

  /** But it shares no factor with 1 .. 6, which is what the claim needs. */
  lemma LargeFactorCoprime(d: int, h2: int)
    requires 1 <= d <= 6 && Divides(LARGE_FACTOR, d * h2)
    ensures Divides(LARGE_FACTOR, h2)
  {
    var q := Quotient(LARGE_FACTOR, d * h2);
    if d == 4 {
      DividesIntro(LARGE_FACTOR, h2, 39938 * q - h2);
    } else {
      var c := LARGE_FACTOR / d;
      assert LARGE_FACTOR == c * d + (if d == 1 then 0 else 1);
      if d == 1 {
        DividesIntro(LARGE_FACTOR, h2, q);
      } else {
        assert c * (d * h2) == (c * q) * LARGE_FACTOR;
        assert h2 == h2 * LARGE_FACTOR - c * (d * h2);
        DividesIntro(LARGE_FACTOR, h2, h2 - c * q);
      }
    }
  }

  /** At the pinned sizing the seven positions of an item are distinct if and only if
  its (odd) second digest is not a multiple of 159751. */
  lemma SevenDistinctIff(h1: nat, h2: nat)
    requires h2 % 2 == 1
    ensures Distinct(BitPositions(h1, h2, BLOOM_M_BITS, BLOOM_K)) <==> !Divides(LARGE_FACTOR, h2)
  {
    var m, k := BLOOM_M_BITS, BLOOM_K;
    var all := BitPositions(h1, h2, m, k);
    if Divides(LARGE_FACTOR, h2) {
      var q := Quotient(LARGE_FACTOR, h2);
      assert 6 * h2 == q * m;
      SameRemainder(m, h1 + 6 * h2, h1 + 0 * h2);
      DividesIntro(m, 6 * h2, q);
      assert all[0] == all[6];
    } else {
      forall i, j | 0 <= i < j < 7
        ensures all[i] != all[j]
      {
        SameRemainder(m, h1 + j * h2, h1 + i * h2);
        if Divides(m, (h1 + j * h2) - (h1 + i * h2)) {
          var q := Quotient(m, (h1 + j * h2) - (h1 + i * h2));
          assert (j - i) * h2 == (6 * q) * LARGE_FACTOR;
          DividesIntro(LARGE_FACTOR, (j - i) * h2, 6 * q);
          LargeFactorCoprime(j - i, h2);
        }
      }
    }
  }

  // ---- the filter -------------------------------------------------------------------

  /** The two digests of an item are arbitrary functions; the second is forced odd. */
  datatype Hashing = Hashing(digest1: string -> nat, digest2: string -> nat, m: nat, k: nat) {
    predicate Valid() {
      m > 0
    }

    /** `n | 1`. */
    function Odd(n: nat): (r: nat)
      ensures r % 2 == 1 && r / 2 == n / 2
    {
      if n % 2 == 0 then n + 1 else n
    }

    function PositionsOf(item: string): (positions: seq<nat>)
      requires Valid()
      ensures forall p :: p in positions ==> p < m
    {
      BitPositions(digest1(item), Odd(digest2(item)), m, k)
    }

    ghost function Positions(item: string): (r: set<nat>)
      requires Valid()
      ensures |r| <= k
    {
      DistinctPositions(digest1(item), Odd(digest2(item)), m, k);
      Elements(PositionsOf(item))
    }
  }

  datatype Op = Add(item: string) | AddIfAbsent(item: string) | Contains(item: string)

  /** The bits set after a sequence of operations: every addition sets its item's. */
  ghost function BitsAfter(h: Hashing, ops: seq<Op>): set<nat>
    requires h.Valid()
  {
    if ops == [] then {}
    else
      var before, last := BitsAfter(h, ops[..|ops| - 1]), ops[|ops| - 1];
      if last.Contains? then before else before + h.Positions(last.item)
  }

  /** The items offered for addition. */
  ghost function Offered(ops: seq<Op>): set<string> {
    if ops == [] then {}
    else Offered(ops[..|ops| - 1]) + (if ops[|ops| - 1].Contains? then {} else {ops[|ops| - 1].item})
  }

  /** They are those that some addition named. */
  lemma {:induction false} OfferedIff(ops: seq<Op>, x: string)
    ensures x in Offered(ops) <==> Op.Add(x) in ops || Op.AddIfAbsent(x) in ops
  {
    if ops != [] {
      OfferedIff(ops[..|ops| - 1], x);
      assert ops == ops[..|ops| - 1] + [ops[|ops| - 1]];
    }
  }

  /** How many calls of `add_if_absent` answered True. */
  ghost function NewAnswers(h: Hashing, ops: seq<Op>): nat
    requires h.Valid()
  {
    if ops == [] then 0
    else
      var before, last := ops[..|ops| - 1], ops[|ops| - 1];
      NewAnswers(h, before) + (if last.AddIfAbsent? && !(h.Positions(last.item) <= BitsAfter(h, before)) then 1 else 0)
  }

  lemma OneMoreOp(h: Hashing, ops: seq<Op>, op: Op)
    requires h.Valid()
    ensures BitsAfter(h, ops + [op]) == BitsAfter(h, ops) + (if op.Contains? then {} else h.Positions(op.item))
    ensures NewAnswers(h, ops + [op]) ==
            NewAnswers(h, ops) + (if op.AddIfAbsent? && !(h.Positions(op.item) <= BitsAfter(h, ops)) then 1 else 0)
  {
    assert (ops + [op])[..|ops|] == ops;
  }

  lemma OfferedIsSet(h: Hashing, ops: seq<Op>, x: string)
    requires h.Valid()
    ensures x in Offered(ops) ==> h.Positions(x) <= BitsAfter(h, ops)
  {
    BitmapRefinesSet(h, ops);
  }

  class BloomFilter {
    const hashing: Hashing
    const bitmap: array<bool>
    ghost var history: seq<Op>

    constructor (hashing: Hashing)
      requires hashing.Valid()
      ensures this.hashing == hashing && Valid() && fresh(bitmap) && history == []
    {
      this.hashing := hashing;
      bitmap := new bool[hashing.m](_ => false);
      history := [];
    }

    /** The bitmap is that of the operations so far. */
    ghost predicate Valid()
      reads this, bitmap
    {
      hashing.Valid() && bitmap.Length == hashing.m && Bits() == BitsAfter(hashing, history)
    }

    ghost function Bits(): set<nat>
      reads bitmap
    {
      set i | 0 <= i < bitmap.Length && bitmap[i]
    }

    method SetBits(item: string)
      requires hashing.Valid() && bitmap.Length == hashing.m
      modifies bitmap
      ensures Bits() == old(Bits()) + hashing.Positions(item)
    {
      var positions := hashing.PositionsOf(item);
      for i := 0 to |positions|
        invariant forall p :: 0 <= p < bitmap.Length ==> (bitmap[p] <==> old(bitmap[p]) || p in positions[..i])
      {
        assert positions[..i + 1] == positions[..i] + [positions[i]];
        bitmap[positions[i]] := true;
      }
      assert positions[..|positions|] == positions;
    }

    method TestBits(item: string) returns (present: bool)
      requires hashing.Valid() && bitmap.Length == hashing.m
      ensures present <==> hashing.Positions(item) <= Bits()
    {
      var positions := hashing.PositionsOf(item);
      for i := 0 to |positions|
        invariant forall j :: 0 <= j < i ==> positions[j] in Bits()
      {
        if !bitmap[positions[i]] {
          assert positions[i] in hashing.Positions(item);
          return false;
        }
      }
      return true;
    }

    method SetIfAbsent(item: string) returns (added: bool)
      requires hashing.Valid() && bitmap.Length == hashing.m
      modifies bitmap
      ensures added <==> !(hashing.Positions(item) <= old(Bits()))
      ensures Bits() == old(Bits()) + hashing.Positions(item)
    {
      var present := TestBits(item);
      added := !present;
      if added {
        SetBits(item);
      }
    }

    method Add(item: string)
      requires Valid()
      modifies this, bitmap
      ensures Valid() && history == old(history) + [Op.Add(item)]
      ensures Bits() == old(Bits()) + hashing.Positions(item)
    {
      OneMoreOp(hashing, history, Op.Add(item));
      SetBits(item);
      history := history + [Op.Add(item)];
    }

    /** Never false for an item that was added. */
    method Contains(item: string) returns (present: bool)
      requires Valid()
      modifies this`history
      ensures Valid() && history == old(history) + [Op.Contains(item)]
      ensures present <==> hashing.Positions(item) <= Bits()
      ensures item in Offered(old(history)) ==> present
    {
      OfferedIsSet(hashing, history, item);
      OneMoreOp(hashing, history, Op.Contains(item));
      present := TestBits(item);
      history := history + [Op.Contains(item)];
    }

    /** True exactly when some bit of the item was still unset, so only for an item never
    added; the item's bits are set afterwards either way. */
    method AddIfAbsent(item: string) returns (added: bool)
      requires Valid()
      modifies this, bitmap
      ensures Valid() && history == old(history) + [Op.AddIfAbsent(item)]
      ensures added <==> !(hashing.Positions(item) <= old(Bits()))
      ensures added ==> item !in Offered(old(history))
      ensures Bits() == old(Bits()) + hashing.Positions(item)
      ensures NewAnswers(hashing, history) == old(NewAnswers(hashing, history)) + (if added then 1 else 0)
    {
      OfferedIsSet(hashing, history, item);
      OneMoreOp(hashing, history, Op.AddIfAbsent(item));
      added := SetIfAbsent(item);
      history := history + [Op.AddIfAbsent(item)];
    }
  }

  // ---- whole runs ---------------------------------------------------------------------

  /** The set bits are exactly the positions of the offered items, so an offered item is
  always found, and `add_if_absent` answers True only for an item never offered. */
  lemma {:induction false} BitmapRefinesSet(h: Hashing, ops: seq<Op>)
    requires h.Valid()
    ensures forall p :: p in BitsAfter(h, ops) <==> exists x :: x in Offered(ops) && p in h.Positions(x)
    ensures forall x :: x in Offered(ops) ==> h.Positions(x) <= BitsAfter(h, ops)
    ensures forall x :: !(h.Positions(x) <= BitsAfter(h, ops)) ==> x !in Offered(ops)
  {
    if ops != [] {
      BitmapRefinesSet(h, ops[..|ops| - 1]);
      var last := ops[|ops| - 1];
      var before := Offered(ops[..|ops| - 1]);
      forall p
        ensures p in BitsAfter(h, ops) <==> exists x :: x in Offered(ops) && p in h.Positions(x)
      {
        if !last.Contains? && p in h.Positions(last.item) {
          assert last.item in Offered(ops);
        }
        if x :| x in before && p in h.Positions(x) {
          assert x in Offered(ops);
        }
      }
    }
  }

  /** Every True sets a bit that was not set, so at most `m` calls ever answer True. */
  lemma {:induction false} NewAnswersBounded(h: Hashing, ops: seq<Op>)
    requires h.Valid()
    ensures NewAnswers(h, ops) <= |BitsAfter(h, ops)| <= h.m
  {
    BitsInRange(h, ops);
    SubsetCardinality(BitsAfter(h, ops), Range(h.m));
    if ops != [] {
      NewAnswersBounded(h, ops[..|ops| - 1]);
      MoreBits(BitsAfter(h, ops[..|ops| - 1]), h.Positions(ops[|ops| - 1].item));
    }
  }

  lemma MoreBits(before: set<nat>, positions: set<nat>)
    ensures |before| <= |before + positions| <= |before| + |positions|
    ensures !(positions <= before) ==> |before| < |before + positions|
    ensures positions <= before ==> before + positions == before
  {
    var added := positions - before;
    assert before + positions == before + added;
    SubsetCardinality(added, positions);
  }

  /** No more than `k` bits are set for each offered item. */
  lemma {:induction false} BitsBounded(h: Hashing, ops: seq<Op>)
    requires h.Valid()
    ensures |BitsAfter(h, ops)| <= h.k * |Offered(ops)|
  {
    if ops != [] {
      var front, last := ops[..|ops| - 1], ops[|ops| - 1];
      BitsBounded(h, front);
      BitmapRefinesSet(h, front);
      MoreBits(BitsAfter(h, front), h.Positions(last.item));
      if !last.Contains? {
        if last.item in Offered(front) {
          assert Offered(ops) == Offered(front);
        } else {
          assert |Offered(ops)| == |Offered(front)| + 1;
          assert h.k * (|Offered(front)| + 1) == h.k * |Offered(front)| + h.k;
        }
      }
    }
  }

  lemma {:induction false} BitsInRange(h: Hashing, ops: seq<Op>)
    requires h.Valid()
    ensures forall p :: p in BitsAfter(h, ops) ==> p in Range(h.m)
  {
    if ops != [] {
      BitsInRange(h, ops[..|ops| - 1]);
    }
  }
}
