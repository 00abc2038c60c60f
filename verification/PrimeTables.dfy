/** Prime tables: trial division, a sieve, and the choice between the two. */
module PrimeTables {

  predicate Divides(d: int, n: int)
    requires d > 0
  {
    n % d == 0
  }

  ghost predicate Prime(n: int) {
    n >= 2 && forall d | 2 <= d < n :: !Divides(d, n)
  }

  /** No divisor from 2 up to and excluding `bound` whose square is within `n`. */
  ghost predicate Survives(n: int, bound: int) {
    n >= 2 && forall d | 2 <= d < bound && d * d <= n :: !Divides(d, n)
  }

  // ----- divisibility

  lemma DividesByFactor(d: int, k: int)
    requires d > 0
    ensures Divides(d, d * k)
  {
    var q, r := (d * k) / d, (d * k) % d;
    assert d * k == d * q + r;
    assert r == d * (k - q);
    OnlyZeroBelow(d, k - q);
  }

  lemma OnlyZeroBelow(d: int, t: int)
    requires d > 0 && 0 <= d * t < d
    ensures t == 0
  {
    assert t >= 1 ==> d * t >= d;
    assert t <= -1 ==> d * t <= -d;
  }

  lemma Cofactor(d: int, n: int) returns (k: int)
    requires d > 0 && Divides(d, n)
    ensures n == d * k
  {
    k := n / d;
  }

  lemma DividesTransitive(a: int, b: int, n: int)
    requires a > 0 && b > 0 && Divides(a, b) && Divides(b, n)
    ensures Divides(a, n)
  {
    var k := Cofactor(a, b);
    var m := Cofactor(b, n);
    assert n == a * (k * m);
    DividesByFactor(a, k * m);
  }

  lemma ProductMonotone(a: int, b: int, c: int)
    requires 0 <= a && b <= c
    ensures a * b <= a * c
  {
    assert a * (c - b) >= 0;
  }

  /** A divisor or its cofactor is small. */
  lemma SmallDivisor(n: int, d: int) returns (e: int)
    requires 2 <= d < n && Divides(d, n)
    ensures 2 <= e && e * e <= n && Divides(e, n)
  {
    var k := Cofactor(d, n);
    if k <= 1 { ProductMonotone(d, k, 1); }
    if d <= k {
      ProductMonotone(d, d, k);
      e := d;
    } else {
      ProductMonotone(k, k, d);
      DividesByFactor(k, d);
      e := k;
    }
  }

  lemma SquareAbove(d: int)
    requires d >= 2
    ensures d * d > d
  {
  }

  lemma SquareMonotone(a: int, b: int)
    requires 0 <= a <= b
    ensures a * a <= b * b
  {
  }

  /** Looking only at divisors whose square is within the number is enough. */
  lemma SurvivorsArePrime(n: int, bound: int)
    requires 0 <= bound && bound * bound > n
    ensures Survives(n, bound) <==> Prime(n)
  {
    if Survives(n, bound) {
      forall d | 2 <= d < n ensures !Divides(d, n) {
        if Divides(d, n) {
          var e := SmallDivisor(n, d);
          if bound <= e { SquareMonotone(bound, e); }
          assert false;
        }
      }
    }
    if Prime(n) {
      forall d | 2 <= d < bound && d * d <= n ensures !Divides(d, n) {
        SquareAbove(d);
      }
    }
  }

  // ----- primes are unbounded

  function Factorial(n: nat): (f: nat)
    ensures f >= 1
  {
    if n == 0 then 1 else n * Factorial(n - 1)
  }

  lemma {:induction false} FactorialHasFactor(n: nat, d: int)
    requires 1 <= d <= n
    ensures Divides(d, Factorial(n))
  {
    if d == n {
      DividesByFactor(d, Factorial(n - 1));
    } else {
      FactorialHasFactor(n - 1, d);
      var k := Cofactor(d, Factorial(n - 1));
      assert Factorial(n) == d * (n * k);
      DividesByFactor(d, n * k);
    }
  }

  lemma {:induction false} PrimeFactor(n: int) returns (q: int)
    requires n >= 2
    ensures Prime(q) && Divides(q, n)
    decreases n
  {
    if Prime(n) {
      q := n;
    } else {
      var d :| 2 <= d < n && Divides(d, n);
      q := PrimeFactor(d);
      DividesTransitive(q, d, n);
    }
  }

  lemma NotBoth(q: int, n: int)
    requires q >= 2 && Divides(q, n)
    ensures !Divides(q, n + 1)
  {
    var k := Cofactor(q, n);
    if Divides(q, n + 1) {
      var m := Cofactor(q, n + 1);
      assert q * (m - k) == 1;
      OnlyZeroBelow(q, m - k);
    }
  }

  lemma PrimeAbove(p: nat) returns (q: int)
    ensures q > p && Prime(q)
  {
    q := PrimeFactor(Factorial(p) + 1);
    if q <= p {
      FactorialHasFactor(p, q);
      NotBoth(q, Factorial(p));
    }
  }

  /** `next` is the smallest prime greater than `p`. */
  ghost predicate IsNextPrime(p: int, next: int) {
    p < next && Prime(next) && forall n | p < n < next :: !Prime(n)
  }

  lemma TwoIsFirst()
    ensures Prime(2) && forall n | n < 2 :: !Prime(n)
  {
  }

  // ----- the sieve

  /** The table after all candidates below `bound` were processed. */
  ghost predicate Sieved(table: seq<bool>, bound: int) {
    forall n | 0 <= n < |table| :: table[n] == Survives(n, bound)
  }

  lemma SurvivesStep(n: int, i: int)
    requires i >= 2
    ensures Survives(n, i + 1) <==> Survives(n, i) && !(i * i <= n && Divides(i, n))
  {
    assert Survives(n, i + 1) ==> Survives(n, i);
  }

  lemma SkippedIsCovered(n: int, i: int, d: int)
    requires 2 <= d && d < i && d * d <= i && Divides(d, i)
    ensures Survives(n, i) ==> !(i * i <= n && Divides(i, n))
  {
    if i * i <= n && Divides(i, n) {
      DividesTransitive(d, i, n);
      SquareAbove(i);
    }
  }

  /** A candidate already crossed out crosses out nothing new. */
  lemma CompositeAddsNothing(table: seq<bool>, i: int)
    requires 2 <= i < |table| && Sieved(table, i) && !table[i]
    ensures Sieved(table, i + 1)
  {
    var d :| 2 <= d < i && d * d <= i && Divides(d, i);
    forall n | 0 <= n < |table| ensures table[n] == Survives(n, i + 1) {
      SurvivesStep(n, i);
      SkippedIsCovered(n, i, d);
    }
  }

  /** Even candidates above 2 may be left out. */
  lemma EvenAddsNothing(table: seq<bool>, i: int)
    requires i > 2 && i % 2 == 0 && Sieved(table, i)
    ensures Sieved(table, i + 1)
  {
    forall n | 0 <= n < |table| ensures table[n] == Survives(n, i + 1) {
      SurvivesStep(n, i);
      SkippedIsCovered(n, i, 2);
    }
  }

  lemma NextCandidate(table: seq<bool>, i: int)
    requires i >= 2 && (i == 2 || i % 2 == 1) && Sieved(table, i + 1)
    ensures Sieved(table, i + (i % 2 + 1)) && (i + (i % 2 + 1)) % 2 == 1
  {
    if i % 2 == 1 { EvenAddsNothing(table, i + 1); }
  }

  /** The table while the multiples of `i` below `upTo` have been crossed out. */
  ghost predicate Crossed(before: seq<bool>, table: seq<bool>, i: int, upTo: int) {
    && i > 0
    && |table| == |before|
    && forall n | 0 <= n < |table| :: table[n] == (before[n] && !(i * i <= n < upTo && Divides(i, n)))
  }

  lemma CrossStep(before: seq<bool>, table: seq<bool>, i: int, j: int)
    requires i >= 2 && i * i <= j < |table| && Divides(i, j) && Crossed(before, table, i, j)
    ensures Crossed(before, table[j := false], i, j + i) && Divides(i, j + i)
  {
    var k := Cofactor(i, j);
    assert j + i == i * (k + 1);
    DividesByFactor(i, k + 1);
    forall n | j < n < j + i ensures !Divides(i, n) {
      if Divides(i, n) {
        var m := Cofactor(i, n);
        assert i * (m - k) == n - j;
        OnlyZeroBelow(i, m - k);
      }
    }
  }

  lemma CrossedIsSieved(before: seq<bool>, table: seq<bool>, i: int, upTo: int)
    requires i >= 2 && Sieved(before, i) && Crossed(before, table, i, upTo) && upTo >= |table|
    ensures Sieved(table, i + 1)
  {
    forall n | 0 <= n < |table| ensures table[n] == Survives(n, i + 1) {
      SurvivesStep(n, i);
    }
  }

  lemma SieveDone(table: seq<bool>, bound: int)
    requires bound >= 0 && bound * bound >= |table| && Sieved(table, bound)
    ensures forall n | 0 <= n < |table| :: table[n] == Prime(n)
  {
    forall n | 0 <= n < |table| ensures table[n] == Prime(n) {
      SurvivorsArePrime(n, bound);
    }
  }

  class OnTheFlyPrimeTable {
    constructor () {}

    method IsPrime(n: int) returns (b: bool)
      ensures b <==> Prime(n)
    {
      if n <= 1 { return false; }
      var i := 2;
      while i * i <= n
        invariant i >= 2 && Survives(n, i)
        decreases n - i
      {
        SurvivesStep(n, i);
        SquareAbove(i);
        if n % i == 0 {
          assert Divides(i, n);
          return false;
        }
        i := i + 1;
      }
      SurvivorsArePrime(n, i);
      return true;
    }

    method GetNextPrime(p: int) returns (next: int)
      ensures if p < 0 then next == -1 else IsNextPrime(p, next)
    {
      if p < 0 { return -1; }
      ghost var bound := PrimeAbove(p);
      next := p + 1;
      while true
        invariant p < next <= bound
        invariant forall n | p < n < next :: !Prime(n)
        decreases bound - next
      {
        var found := IsPrime(next);
        if found { return next; }
        next := next + 1;
      }
    }
  }

  class PreCalculatedPrimeTable {
    const isPrime: array<bool>

    ghost predicate Valid()
      reads this, isPrime
    {
      isPrime.Length >= 2 && forall n | 0 <= n < isPrime.Length :: isPrime[n] == Prime(n)
    }

    constructor (max: int)
      requires max >= 1
      ensures Valid() && isPrime.Length == max + 1 && fresh(isPrime)
    {
      isPrime := new bool[max + 1](_ => true);
      new;
      CalculatePrimesUpTo(max);
    }

    method CalculatePrimesUpTo(max: int)
      requires max >= 1 && isPrime.Length == max + 1
      requires forall n | 0 <= n <= max :: isPrime[n]
      modifies isPrime
      ensures Valid()
    {
      isPrime[0], isPrime[1] := false, false;
      var i := 2;
      while i * i <= max
        invariant i >= 2 && (i == 2 || i % 2 == 1)
        invariant Sieved(isPrime[..], i)
        decreases max - i
      {
        SquareAbove(i);
        assert i < max;
        if isPrime[i] {
          CrossOut(i, max);
        } else {
          CompositeAddsNothing(isPrime[..], i);
        }
        NextCandidate(isPrime[..], i);
        i := i + (i % 2 + 1);
      }
      SieveDone(isPrime[..], i);
    }

    method CrossOut(i: int, max: int)
      requires max >= 1 && isPrime.Length == max + 1 && i >= 2 && Sieved(isPrime[..], i)
      modifies isPrime
      ensures Sieved(isPrime[..], i + 1)
    {
      ghost var before := isPrime[..];
      DividesByFactor(i, i);
      var j := i * i;
      while j <= max
        invariant j >= i * i && Divides(i, j)
        invariant Crossed(before, isPrime[..], i, j)
      {
        ghost var table := isPrime[..];
        CrossStep(before, table, i, j);
        isPrime[j] := false;
        assert isPrime[..] == table[j := false];
        j := j + i;
      }
      CrossedIsSieved(before, isPrime[..], i, j);
    }

    method IsPrime(n: int) returns (b: bool)
      requires Valid()
      ensures b <==> n < isPrime.Length && Prime(n)
    {
      return 0 <= n && n < isPrime.Length && isPrime[n];
    }

    method GetNextPrime(p: int) returns (next: int)
      requires Valid() && p >= -1
      ensures next == -1 ==> forall n | p < n < isPrime.Length :: !Prime(n)
      ensures next != -1 ==> IsNextPrime(p, next) && next < isPrime.Length
    {
      var n := p + 1;
      while n < isPrime.Length
        invariant p < n
        invariant forall k | p < k < n && k < isPrime.Length :: !Prime(k)
      {
        if isPrime[n] { return n; }
        n := n + 1;
      }
      return -1;
    }
  }

  class HybridPrimeTable {
    const onTheFly: OnTheFlyPrimeTable
    const precalc: PreCalculatedPrimeTable?
    const maxPrecalculated: int

    ghost predicate Valid()
      reads this, precalc, if precalc == null then {} else {precalc.isPrime}
    {
      precalc != null ==> precalc.Valid() && precalc.isPrime.Length == maxPrecalculated + 1
    }

    constructor (forceOnTheFly: bool, max: int)
      requires forceOnTheFly || max >= 1
      ensures Valid() && maxPrecalculated == max && (precalc == null <==> forceOnTheFly)
    {
      onTheFly := new OnTheFlyPrimeTable();
      if forceOnTheFly {
        precalc := null;
      } else {
        precalc := new PreCalculatedPrimeTable(max);
      }
      maxPrecalculated := max;
    }

    /** Whichever table answers, the answer is the same. */
    method IsPrime(n: int) returns (b: bool)
      requires Valid()
      ensures b <==> Prime(n)
    {
      if precalc != null && n < maxPrecalculated {
        b := precalc.IsPrime(n);
      } else {
        b := onTheFly.IsPrime(n);
      }
    }

    method GetNextPrime(p: int) returns (next: int)
      requires Valid() && (precalc == null || p >= -1)
      ensures p >= 0 ==> IsNextPrime(p, next)
      ensures p < 0 ==> next == if precalc != null && maxPrecalculated >= 2 then 2 else -1
    {
      TwoIsFirst();
      next := -1;
      if precalc != null && p < maxPrecalculated {
        next := precalc.GetNextPrime(p);
      }
      if next == -1 {
        next := onTheFly.GetNextPrime(p);
      }
    }
  }
}
