/**
  Fixed-width positional numbers, most significant digit first. Base32 groups (five digits of
  256 against eight digits of 32) and the sixteen hexadecimal digits of a journal key are both
  instances.
 */
module Radix {
  function Pow(base: nat, width: nat): nat {
    if width == 0 then 1 else Pow(base, width - 1) * base
  }

  predicate IsDigits(d: seq<nat>, base: nat) {
    forall i | 0 <= i < |d| :: d[i] < base
  }

  function ToDigits(n: nat, width: nat, base: nat): (d: seq<nat>)
    requires base >= 2
    ensures |d| == width && IsDigits(d, base)
    decreases width
  {
    if width == 0 then [] else ToDigits(n / base, width - 1, base) + [n % base]
  }

  function FromDigits(d: seq<nat>, base: nat): nat {
    if d == [] then 0 else FromDigits(d[..|d| - 1], base) * base + d[|d| - 1]
  }

  lemma {:induction false} StepUp(a: nat, b: nat, k: nat)
    requires a < b
    ensures a * k + k <= b * k
    decreases b - a
  {
    assert a * k + k == (a + 1) * k;
    if a + 1 < b {
      StepUp(a + 1, b, k);
    }
  }

  lemma DivIsUnique(n: nat, hi: nat, lo: nat, base: nat)
    requires n == hi * base + lo && lo < base
    ensures n / base == hi && n % base == lo
  {
    var q, r := n / base, n % base;
    assert n == q * base + r;
    if q < hi {
      StepUp(q, hi, base);
    } else if hi < q {
      StepUp(hi, q, base);
    }
  }

  lemma CutMonotone(n: nat, m: nat, base: nat)
    requires base >= 2 && n < m
    ensures n / base < m / base || (n / base == m / base && n % base < m % base)
  {
    assert n == n / base * base + n % base && m == m / base * base + m % base;
    if m / base < n / base {
      StepUp(m / base, n / base, base);
    }
  }

  lemma {:induction false} FromDigitsBound(d: seq<nat>, base: nat)
    requires base >= 2 && IsDigits(d, base)
    ensures FromDigits(d, base) < Pow(base, |d|)
  {
    if d != [] {
      var hi := FromDigits(d[..|d| - 1], base);
      FromDigitsBound(d[..|d| - 1], base);
      StepUp(hi, Pow(base, |d| - 1), base);
    }
  }

  lemma {:induction false} ToDigitsOfFromDigits(d: seq<nat>, base: nat)
    requires base >= 2 && IsDigits(d, base)
    ensures ToDigits(FromDigits(d, base), |d|, base) == d
  {
    if d != [] {
      DivIsUnique(FromDigits(d, base), FromDigits(d[..|d| - 1], base), d[|d| - 1], base);
      ToDigitsOfFromDigits(d[..|d| - 1], base);
    }
  }

  lemma PowCut(n: nat, width: nat, base: nat)
    requires base >= 2 && width > 0 && n < Pow(base, width)
    ensures n / base < Pow(base, width - 1)
  {
    var q := n / base;
    assert n == q * base + n % base;
    if Pow(base, width - 1) < q {
      StepUp(Pow(base, width - 1), q, base);
    }
  }

  lemma Recompose(d: seq<nat>, n: nat, base: nat)
    requires base >= 2 && FromDigits(d, base) == n / base
    ensures FromDigits(d + [n % base], base) == n
  {
    assert (d + [n % base])[..|d|] == d;
    assert n == n / base * base + n % base;
  }

  lemma {:induction false} FromDigitsOfToDigits(n: nat, width: nat, base: nat)
    requires base >= 2 && n < Pow(base, width)
    ensures FromDigits(ToDigits(n, width, base), base) == n
    decreases width
  {
    if width > 0 {
      PowCut(n, width, base);
      FromDigitsOfToDigits(n / base, width - 1, base);
      Recompose(ToDigits(n / base, width - 1, base), n, base);
    }
  }

  lemma {:induction false} PowMonotone(base: nat, k: nat, width: nat)
    requires base >= 1 && k <= width
    ensures 1 <= Pow(base, k) <= Pow(base, width)
  {
    if k < width {
      PowMonotone(base, k, width - 1);
      assert Pow(base, width - 1) * 1 <= Pow(base, width - 1) * base;
    } else if k > 0 {
      PowMonotone(base, k - 1, k - 1);
    }
  }

  lemma {:induction false} PowSum(base: nat, m: nat, n: nat)
    ensures Pow(base, m + n) == Pow(base, m) * Pow(base, n)
    decreases n
  {
    if n > 0 {
      PowSum(base, m, n - 1);
      Regroup(Pow(base, m), Pow(base, n - 1), base);
    }
  }

  lemma Regroup(a: nat, b: nat, c: nat)
    ensures c * (a * b) == a * (c * b) && (a * b) * c == a * (b * c)
  {
  }

  /** Digits written one after the other. */
  lemma {:induction false} FromDigitsConcat(a: seq<nat>, b: seq<nat>, base: nat)
    ensures FromDigits(a + b, base) == FromDigits(a, base) * Pow(base, |b|) + FromDigits(b, base)
    decreases |b|
  {
    if b == [] {
      assert a + b == a;
    } else {
      var init := b[..|b| - 1];
      FromDigitsConcat(a, init, base);
      assert (a + b)[..|a + b| - 1] == a + init;
      Distribute(FromDigits(a, base), Pow(base, |init|), FromDigits(init, base), base);
    }
  }

  lemma Distribute(a: nat, p: nat, b: nat, base: nat)
    ensures (a * p + b) * base == a * (base * p) + b * base && a * (base * p) == a * (p * base)
  {
    Regroup(a, p, base);
  }

  /** Eight digits in base 32 carry as much as five bytes. */
  lemma {:induction false} PowGroups(groups: nat)
    ensures Pow(32, 8 * groups) == Pow(256, 5 * groups)
  {
    if groups > 0 {
      PowGroups(groups - 1);
      PowSum(32, 8 * (groups - 1), 8);
      PowSum(256, 5 * (groups - 1), 5);
      Pow40();
    }
  }

  lemma Pow40()
    ensures Pow(256, 5) == Pow(32, 8) == 0x100_0000_0000
  {
    assert Pow(256, 1) == 256 && Pow(256, 3) == 256 * 256 * 256;
    assert Pow(32, 2) == 1024 && Pow(32, 4) == 1024 * 1024 && Pow(32, 6) == 1024 * 1024 * 1024;
  }

  lemma Pow64()
    ensures Pow(16, 16) == 0x1_0000_0000_0000_0000
  {
    assert Pow(16, 2) == 0x100 && Pow(16, 4) == 0x1_0000 && Pow(16, 6) == 0x100_0000;
    assert Pow(16, 8) == 0x1_0000_0000 && Pow(16, 10) == 0x100_0000_0000;
    assert Pow(16, 12) == 0x1_0000_0000_0000 && Pow(16, 14) == 0x100_0000_0000_0000;
  }
}
