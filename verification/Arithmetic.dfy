/** Machine integers of the program, sums over sequences, and the one kind of
    rounding the program uses: dividing a product and dropping the remainder. */
module Arithmetic {

  const U64_MAX: int := 0xFFFF_FFFF_FFFF_FFFF
  const U128_MAX: int := 0xFFFF_FFFF_FFFF_FFFF_FFFF_FFFF_FFFF_FFFF
  const I64_MAX: int := 0x7FFF_FFFF_FFFF_FFFF
  const I64_MIN: int := -0x8000_0000_0000_0000
  const TWO_TO_64: int := 0x1_0000_0000_0000_0000

  type u64 = x: int | 0 <= x <= U64_MAX
  type i64 = x: int | I64_MIN <= x <= I64_MAX

  /** 10 to the power of the wALN decimals. Up to 19 decimals its product with a
      u64 fits u128; nothing below needs it to be a power of ten. */
  type Scale = x: int | 1 <= x <= 10_000_000_000_000_000_000 witness 1

  // ---------- sums ----------

  function SumTo(s: seq<int>, n: nat): int
    requires n <= |s|
  {
    if n == 0 then 0 else SumTo(s, n - 1) + s[n - 1]
  }

  function Sum(s: seq<int>): int {
    SumTo(s, |s|)
  }

  /** 1 where `s` is positive, 0 elsewhere. */
  function Positive(s: seq<int>): (p: seq<int>) {
    seq(|s|, i requires 0 <= i < |s| => if s[i] > 0 then 1 else 0)
  }

  function Count(s: seq<int>): int {
    Sum(Positive(s))
  }

  lemma {:induction false} SumToAgree(s: seq<int>, t: seq<int>, n: nat)
    requires n <= |s| && n <= |t|
    requires forall i :: 0 <= i < n ==> s[i] == t[i]
    ensures SumTo(s, n) == SumTo(t, n)
  {
    if n > 0 {
      SumToAgree(s, t, n - 1);
    }
  }

  lemma {:induction false} SumToMonotone(s: seq<int>, t: seq<int>, n: nat)
    requires n <= |s| && n <= |t|
    requires forall i :: 0 <= i < n ==> s[i] <= t[i]
    ensures SumTo(s, n) <= SumTo(t, n)
  {
    if n > 0 {
      SumToMonotone(s, t, n - 1);
    }
  }

  /** A strict difference somewhere makes the whole sum strictly smaller. */
  lemma {:induction false} SumToStrict(s: seq<int>, t: seq<int>, n: nat, k: nat)
    requires k < n <= |s| && n <= |t|
    requires forall i :: 0 <= i < n ==> s[i] <= t[i]
    requires s[k] < t[k]
    ensures SumTo(s, n) < SumTo(t, n)
  {
    if k == n - 1 {
      SumToMonotone(s, t, n - 1);
    } else {
      SumToStrict(s, t, n - 1, k);
    }
  }

  lemma {:induction false} SumToAdd(s: seq<int>, t: seq<int>, u: seq<int>, n: nat)
    requires n <= |s| && n <= |t| && n <= |u|
    requires forall i :: 0 <= i < n ==> u[i] == s[i] + t[i]
    ensures SumTo(u, n) == SumTo(s, n) + SumTo(t, n)
  {
    if n > 0 {
      SumToAdd(s, t, u, n - 1);
    }
  }

  lemma {:induction false} SumToNonNegative(s: seq<int>, n: nat)
    requires n <= |s|
    requires forall i :: 0 <= i < |s| ==> s[i] >= 0
    ensures 0 <= SumTo(s, n) <= Sum(s)
    ensures forall i :: 0 <= i < n ==> s[i] <= SumTo(s, n)
    decreases |s| - n, n
  {
    SumToPrefix(s, n);
    SumToGrows(s, n, |s|);
  }

  lemma {:induction false} SumToPrefix(s: seq<int>, n: nat)
    requires n <= |s|
    requires forall i :: 0 <= i < |s| ==> s[i] >= 0
    ensures 0 <= SumTo(s, n)
    ensures forall i :: 0 <= i < n ==> s[i] <= SumTo(s, n)
  {
    if n > 0 {
      SumToPrefix(s, n - 1);
    }
  }

  lemma {:induction false} SumToGrows(s: seq<int>, m: nat, n: nat)
    requires m <= n <= |s|
    requires forall i :: m <= i < n ==> s[i] >= 0
    ensures SumTo(s, m) <= SumTo(s, n)
  {
    if m < n {
      SumToGrows(s, m, n - 1);
    }
  }

  lemma {:induction false} SumToUpdate(s: seq<int>, k: nat, x: int, n: nat)
    requires k < |s| && n <= |s|
    ensures SumTo(s[k := x], n) == SumTo(s, n) + (if k < n then x - s[k] else 0)
  {
    if n > 0 {
      SumToUpdate(s, k, x, n - 1);
    }
  }

  lemma SumAppend(s: seq<int>, x: int)
    ensures Sum(s + [x]) == Sum(s) + x
  {
    SumToAgree(s, s + [x], |s|);
  }

  lemma SumDropLast(s: seq<int>)
    requires |s| > 0
    ensures Sum(s) == Sum(s[..|s| - 1]) + s[|s| - 1]
  {
    SumToAgree(s, s[..|s| - 1], |s| - 1);
  }

  lemma {:induction false} SumConstant(s: seq<int>, c: int, n: nat)
    requires n <= |s|
    requires forall i :: 0 <= i < n ==> s[i] == c
    ensures SumTo(s, n) == n * c
  {
    if n > 0 {
      SumConstant(s, c, n - 1);
      assert n * c == (n - 1) * c + c;
    }
  }

  lemma {:induction false} SumToZero(s: seq<int>, n: nat)
    requires n <= |s|
    requires forall i :: 0 <= i < n ==> s[i] == 0
    ensures SumTo(s, n) == 0
  {
    SumConstant(s, 0, n);
  }

  /** Overwriting slot `k` with the last element and dropping the last. */
  lemma SumSwapRemove(s: seq<int>, k: nat)
    requires k < |s|
    ensures Sum(s[k := s[|s| - 1]][..|s| - 1]) == Sum(s) - s[k]
  {
    SumToUpdate(s, k, s[|s| - 1], |s|);
    SumDropLast(s[k := s[|s| - 1]]);
  }

  // ---------- floor division ----------

  /** Each element multiplied by `a`, divided by `b`, rounded down. Every rounding
      step of the program has this form. */
  function Scaled(xs: seq<int>, a: int, b: int): (r: seq<int>)
    requires b > 0
  {
    seq(|xs|, i requires 0 <= i < |xs| => a * xs[i] / b)
  }

  lemma FloorBounds(p: int, b: int)
    requires b > 0
    ensures b * (p / b) <= p <= b * (p / b) + b - 1
  {
  }

  lemma MulMonotone(x: int, y: int, c: int)
    requires x <= y && c >= 0
    ensures x * c <= y * c && c * x <= c * y
  {
  }

  lemma Cancel(c: int, x: int, y: int)
    requires c > 0 && c * x < c * y + c
    ensures x <= y
  {
    if x > y {
      MulMonotone(y + 1, x, c);
    }
  }

  lemma FloorAtLeast(p: int, b: int, q: int)
    requires b > 0 && p >= b * q
    ensures p / b >= q
  {
    FloorBounds(p, b);
    Cancel(b, q, p / b);
  }

  lemma FloorAtMost(p: int, b: int, q: int)
    requires b > 0 && p < b * q + b
    ensures p / b <= q
  {
    FloorBounds(p, b);
    Cancel(b, p / b, q);
  }

  lemma NoWrap(x: int, u: nat, modulus: int)
    requires modulus > 0 && x % modulus + u < modulus
    ensures (x + u) % modulus == x % modulus + u
  {
    var q := x / modulus;
    assert x + u == q * modulus + (x % modulus + u);
    QuotientRemainder(q, x % modulus + u, modulus);
  }

  lemma QuotientRemainder(q: int, r: int, modulus: int)
    requires 0 <= r < modulus
    ensures (q * modulus + r) % modulus == r
  {
    var p := q * modulus + r;
    FloorBounds(p, modulus);
    Cancel(modulus, q, p / modulus);
    Cancel(modulus, p / modulus, q);
  }

  lemma Residue(base: int, k: int, n: int, t: int)
    requires 0 <= k < n && t == (k - base) % n
    ensures (base + t) % n == k
  {
    var q := (k - base) / n;
    assert base + t == (-q) * n + k;
    QuotientRemainder(-q, k, n);
  }

  lemma ResidueUnique(base: int, n: int, t: int, u: int)
    requires 0 <= t < n && 0 <= u < n && (base + t) % n == (base + u) % n
    ensures t == u
  {
    var p, q := (base + t) / n, (base + u) / n;
    assert t - u == n * (p - q);
    if p - q >= 1 {
      MulMonotone(1, p - q, n);
    } else if p - q <= -1 {
      MulMonotone(p - q, -1, n);
    }
  }

  /** Rounding two parts down never gives more than rounding the whole down. */
  lemma FloorSuperadditive(p: int, q: int, b: int)
    requires b > 0
    ensures p / b + q / b <= (p + q) / b
  {
    FloorBounds(p, b);
    FloorBounds(q, b);
    assert b * (p / b + q / b) == b * (p / b) + b * (q / b);
    FloorAtLeast(p + q, b, p / b + q / b);
  }

  lemma Distribute(c: int, x: int, y: int)
    ensures c * (x + y) == c * x + c * y
  {
  }

  lemma {:induction false} ScaledBounds(xs: seq<int>, a: int, b: int, n: nat)
    requires a >= 0 && b > 0 && n <= |xs|
    requires forall i :: 0 <= i < |xs| ==> xs[i] >= 0
    ensures b * SumTo(Scaled(xs, a, b), n) <= a * SumTo(xs, n)
    ensures a * SumTo(xs, n) <= b * SumTo(Scaled(xs, a, b), n) + (b - 1) * SumTo(Positive(xs), n)
  {
    if n == 0 {
      assert b * 0 == a * 0 == (b - 1) * 0 == 0;
    } else {
      ScaledBounds(xs, a, b, n - 1);
      var x := xs[n - 1];
      ScaledStep(a, b, x);
      Distribute(b, SumTo(Scaled(xs, a, b), n - 1), a * x / b);
      Distribute(a, SumTo(xs, n - 1), x);
      Distribute(b - 1, SumTo(Positive(xs), n - 1), Positive(xs)[n - 1]);
    }
  }

  lemma ScaledStep(a: int, b: int, x: int)
    requires a >= 0 && b > 0 && x >= 0
    ensures b * (a * x / b) <= a * x <= b * (a * x / b) + (b - 1) * (if x > 0 then 1 else 0)
  {
    FloorBounds(a * x, b);
    if x == 0 {
      assert a * x == 0;
    }
  }

  /** Splitting `amount` in proportion to non-negative weights and rounding each part
      down hands out at most `amount` and misses less than one unit per positive weight. */
  lemma SplitBounds(weights: seq<int>, amount: int)
    requires amount >= 0
    requires forall i :: 0 <= i < |weights| ==> weights[i] >= 0
    requires Sum(weights) > 0
    ensures amount - Count(weights) < Sum(Scaled(weights, amount, Sum(weights))) <= amount
  {
    var total := Sum(weights);
    ScaledBounds(weights, amount, total, |weights|);
    CountPositiveSum(weights);
    SplitArithmetic(total, Sum(Scaled(weights, amount, total)), amount, Count(weights));
  }

  lemma SplitArithmetic(total: int, parts: int, amount: int, n: int)
    requires total > 0 && n > 0
    requires total * parts <= amount * total <= total * parts + (total - 1) * n
    ensures amount - n < parts <= amount
  {
    Cancel(total, parts, amount);
    Distribute(total, parts, n - 1);
    Distribute(total, n, -1);
    Distribute(n, total, -1);
    Cancel(total, amount, parts + n - 1);
  }

  lemma CountPositiveSum(s: seq<int>)
    requires forall i :: 0 <= i < |s| ==> s[i] >= 0
    requires Sum(s) > 0
    ensures 0 < Count(s) <= |s|
    ensures exists i :: 0 <= i < |s| && s[i] > 0
  {
    if forall i :: 0 <= i < |s| ==> s[i] == 0 {
      SumToZero(s, |s|);
    }
    var k :| 0 <= k < |s| && s[k] > 0;
    SumToNonNegative(Positive(s), |s|);
    assert Positive(s)[k] == 1;
    CountAtMostLength(s, |s|);
  }

  lemma {:induction false} CountAtMostLength(s: seq<int>, n: nat)
    requires n <= |s|
    ensures 0 <= SumTo(Positive(s), n) <= n
  {
    if n > 0 {
      CountAtMostLength(s, n - 1);
    }
  }
}
