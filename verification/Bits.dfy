/** Bytes, and the bit operations the reorder shim does on natural numbers. */
module Bits {

  /** An unsigned octet. */
  type Byte = x: int | 0 <= x < 0x100

  function Min(a: nat, b: nat): nat {
    if a <= b then a else b
  }

  /** Bitwise AND of two non-negative integers, digit by digit. */
  function And(a: nat, b: nat): (r: nat)
    ensures r <= a && r <= b
  {
    if a == 0 || b == 0 then 0 else 2 * And(a / 2, b / 2) + (if a % 2 == 1 && b % 2 == 1 then 1 else 0)
  }

  function Pow2(k: nat): (r: nat)
    ensures r >= 1
  {
    if k == 0 then 1 else 2 * Pow2(k - 1)
  }

  ghost predicate IsPow2(n: nat) {
    exists k: nat :: n == Pow2(k)
  }

  lemma Pow2Positive(n: nat)
    requires IsPow2(n)
    ensures n > 0
  {
  }

  /** Both numbers, a digit at a time. */
  lemma AndMask(s: nat, p: nat)
    requires p > 0
    ensures And(s, 2 * p - 1) == 2 * And(s / 2, p - 1) + s % 2
  {
    assert (2 * p - 1) / 2 == p - 1 && (2 * p - 1) % 2 == 1;
    if s == 0 {
      assert And(0, p - 1) == 0;
    }
  }

  /** Masking with 2^k - 1 is reduction modulo 2^k. */
  lemma {:induction false} MaskIsMod(s: nat, k: nat)
    ensures And(s, Pow2(k) - 1) == s % Pow2(k)
  {
    if k == 0 {
      assert And(s, 0) == 0;
    } else {
      MaskIsMod(s / 2, k - 1);
      hide And;
      AndMask(s, Pow2(k - 1));
      DivModTwice(s, Pow2(k - 1));
    }
  }

  lemma DivModTwice(s: nat, p: nat)
    requires p > 0
    ensures s % (2 * p) == 2 * ((s / 2) % p) + s % 2
  {
    var q, r := (s / 2) / p, (s / 2) % p;
    assert s == (2 * p) * q + (2 * r + s % 2) by {
      assert s / 2 == p * q + r;
      assert (2 * p) * q == 2 * (p * q);
    }
    ModUnique(s, 2 * p, q, 2 * r + s % 2);
  }

  lemma ModUnique(s: nat, d: nat, q: int, r: nat)
    requires r < d && s == d * q + r
    ensures s % d == r && s / d == q
  {
    var q', r' := s / d, s % d;
    assert d * (q - q') == r' - r by {
      assert s == d * q' + r';
      assert d * (q - q') == d * q - d * q';
    }
    SmallMultiple(d, q - q');
  }

  lemma SmallMultiple(d: int, x: int)
    requires d > 0 && -d < d * x < d
    ensures x == 0
  {
  }

  /** `cap_is_valid`: a non-zero value shares no bit with its predecessor exactly when it is a power of two. */
  predicate CapIsValid(cap: nat) {
    cap != 0 && And(cap, cap - 1) == 0
  }

  lemma {:induction false} CapIsValidIffPow2(n: nat)
    ensures CapIsValid(n) <==> IsPow2(n)
  {
    if n == 0 {
    } else if n == 1 {
      assert n == Pow2(0);
    } else if n % 2 == 1 {
      assert (n - 1) / 2 == n / 2;
      AndSelf(n / 2);
      assert And(n, n - 1) == 2 * And(n / 2, n / 2);
    } else {
      var h := n / 2;
      CapIsValidIffPow2(h);
      assert (n - 1) / 2 == h - 1;
      assert And(n, n - 1) == 2 * And(h, h - 1);
      if IsPow2(h) {
        var k: nat :| h == Pow2(k);
        assert n == Pow2(k + 1);
      }
      if IsPow2(n) {
        var k: nat :| n == Pow2(k);
        assert h == Pow2(k - 1);
      }
    }
  }

  lemma {:induction false} AndSelf(n: nat)
    ensures And(n, n) == n
  {
    if n > 0 {
      AndSelf(n / 2);
    }
  }

  /** Doubling a power of two below another one does not pass it. */
  lemma DoubleWithin(a: nat, b: nat)
    requires IsPow2(a) && IsPow2(b) && a < b
    ensures IsPow2(2 * a) && 2 * a <= b
  {
    var i: nat :| a == Pow2(i);
    var j: nat :| b == Pow2(j);
    assert 2 * a == Pow2(i + 1);
    if j <= i {
      Pow2Monotone(j, i);
    } else {
      Pow2Monotone(i + 1, j);
    }
  }

  lemma {:induction false} Pow2Monotone(i: nat, j: nat)
    requires i <= j
    ensures Pow2(i) <= Pow2(j)
  {
    if i < j {
      Pow2Monotone(i, j - 1);
    }
  }
}
