/** Internet checksums: the one-fold update on TTL decrement, and the checksums of generated ICMP errors. */
module Checksum {
  import opened Bits
  import opened Wire

  const ALL_ONES: nat := 0xffff

  /** Sum of the big-endian 16-bit words; an odd last octet is the high half of a word. */
  function WordSum(s: seq<Byte>): nat {
    if |s| == 0 then 0
    else if |s| == 1 then s[0] as int * 0x100
    else Word(s, 0) + WordSum(s[2..])
  }

  /** Add the carries back in until the sum fits 16 bits. */
  function Fold(n: nat): (r: nat)
    ensures r <= ALL_ONES
    decreases n
  {
    if n <= ALL_ONES then n else Fold(n % 0x1_0000 + n / 0x1_0000)
  }

  /** A checksum verifies when the words, the checksum among them, add up to all ones. */
  predicate Verifies(s: seq<Byte>) {
    Fold(WordSum(s)) == ALL_ONES
  }

  // ----- arithmetic of the fold -----

  /** Folding keeps the sum modulo 65535, and only zero folds to zero. */
  lemma {:induction false} FoldIsMod(n: nat)
    ensures Fold(n) % ALL_ONES == n % ALL_ONES
    ensures Fold(n) == 0 <==> n == 0
    decreases n
  {
    if n > ALL_ONES {
      var q, r := n / 0x1_0000, n % 0x1_0000;
      FoldIsMod(r + q);
      assert n == (r + q) + q * ALL_ONES;
      ModPlusMultiple(r + q, q, ALL_ONES);
    }
  }

  lemma ModPlusMultiple(a: nat, q: nat, d: nat)
    requires d > 0
    ensures (a + q * d) % d == a % d
  {
    var k, r := a / d, a % d;
    assert a + q * d == d * (k + q) + r by {
      assert a == d * k + r;
      assert d * (k + q) == d * k + d * q;
    }
    ModUnique(a + q * d, d, k + q, r);
  }

  lemma VerifiesIff(s: seq<Byte>)
    ensures Verifies(s) <==> WordSum(s) > 0 && WordSum(s) % ALL_ONES == 0
  {
    FoldIsMod(WordSum(s));
  }

  // ----- sums of pieces -----

  lemma {:induction false} WordSumConcat(a: seq<Byte>, b: seq<Byte>)
    requires |a| % 2 == 0
    ensures WordSum(a + b) == WordSum(a) + WordSum(b)
    decreases |a|
  {
    if |a| == 0 {
      assert a + b == b;
    } else {
      assert (a + b)[2..] == a[2..] + b;
      WordSumConcat(a[2..], b);
    }
  }

  lemma WordSumPair(a: Byte, b: Byte)
    ensures WordSum([a, b]) == a as int * 0x100 + b
  {
    assert [a, b][2..] == [];
  }

  /** Replacing one word changes the sum by the difference of the words. */
  lemma WordSumUpdate(s: seq<Byte>, i: nat, hi: Byte, lo: Byte)
    requires i % 2 == 0 && i + 2 <= |s|
    ensures WordSum(s[i := hi][i + 1 := lo]) + Word(s, i) == WordSum(s) + hi as int * 0x100 + lo
  {
    var t := s[i := hi][i + 1 := lo];
    assert s == s[..i] + ([s[i], s[i + 1]] + s[i + 2..]);
    assert t == s[..i] + ([hi, lo] + s[i + 2..]);
    WordSumConcat(s[..i], [s[i], s[i + 1]] + s[i + 2..]);
    WordSumConcat([s[i], s[i + 1]], s[i + 2..]);
    WordSumConcat(s[..i], [hi, lo] + s[i + 2..]);
    WordSumConcat([hi, lo], s[i + 2..]);
    WordSumPair(s[i], s[i + 1]);
    WordSumPair(hi, lo);
  }

  lemma {:induction false} WordSumBound(s: seq<Byte>)
    ensures WordSum(s) <= ALL_ONES * ((|s| + 1) / 2)
  {
    if |s| >= 2 {
      WordSumBound(s[2..]);
    }
  }

  lemma WordSumPositive(s: seq<Byte>)
    requires |s| > 0 && s[0] > 0
    ensures WordSum(s) > 0
  {
  }

  // ----- TTL decrement -----

  /** `fwd_pkt[8]--` and the one-fold checksum update, or the hop limit alone; false when the TTL has run out. */
  method ForwardInPlace(pkt: array<Byte>) returns (ok: bool)
    requires pkt.Length >= 1 && (if pkt[0] / 16 == 4 then pkt.Length >= 20 else pkt.Length >= 40)
    modifies pkt
    ensures ok <==> Forwarded(old(pkt[..])).Some?
    ensures pkt[..] == if ok then Forwarded(old(pkt[..])).value else old(pkt[..])
  {
    if pkt[0] / 16 == 4 {
      if pkt[8] <= 1 {
        return false;
      }
      pkt[8] := pkt[8] - 1;
      var sum := pkt[10] as int * 0x100 + pkt[11] + 0x0100;
      sum := sum % 0x1_0000 + sum / 0x1_0000;
      pkt[10] := (sum / 0x100) % 0x100;
      pkt[11] := sum % 0x100;
    } else {
      if pkt[7] <= 1 {
        return false;
      }
      pkt[7] := pkt[7] - 1;
    }
    return true;
  }

  /** The checksum word after the one-fold update. */
  function OneFold(c: nat): nat {
    (c + 0x0100) % 0x1_0000 + (c + 0x0100) / 0x1_0000
  }

  lemma OneFoldValue(c: nat)
    requires c <= ALL_ONES
    ensures OneFold(c) == if c <= 0xfeff then c + 0x100 else c + 0x100 - ALL_ONES
  {
  }

  predicate IsV4Header(pkt: seq<Byte>, hl: nat) {
    20 <= hl <= |pkt| && hl % 2 == 0 && pkt[0] / 16 == 4
  }

  /** How forwarding changes the sum of the header words. */
  lemma ForwardedSum(pkt: seq<Byte>, hl: nat)
    requires IsV4Header(pkt, hl) && Forwarded(pkt).Some?
    ensures var c := Word(pkt, 10); var fwd := Forwarded(pkt).value;
      && |fwd| == |pkt| && Word(fwd, 10) == OneFold(c)
      && WordSum(fwd[..hl]) == WordSum(pkt[..hl]) - 0x100 - c + OneFold(c)
      && fwd[0] == pkt[0]
  {
    var c, fwd := Word(pkt, 10), Forwarded(pkt).value;
    OneFoldValue(c);
    var h := pkt[..hl];
    var hi: Byte, lo: Byte, ttl: Byte := (OneFold(c) / 0x100) % 0x100, OneFold(c) % 0x100, h[8] - 1;
    var dec: seq<Byte> := h[8 := ttl][9 := h[9]];
    assert fwd[..hl] == dec[10 := hi][11 := lo];
    hide WordSum;
    WordSumUpdate(h, 8, ttl, h[9]);
    WordSumUpdate(dec, 10, hi, lo);
  }

  /** Forwarding neither breaks nor repairs an IPv4 header checksum, whatever the header length. */
  lemma ForwardingKeepsValidity(pkt: seq<Byte>, hl: nat)
    requires IsV4Header(pkt, hl) && Forwarded(pkt).Some?
    ensures |Forwarded(pkt).value| == |pkt|
    ensures Verifies(Forwarded(pkt).value[..hl]) <==> Verifies(pkt[..hl])
  {
    hide Forwarded, WordSum, Fold;
    ForwardedSum(pkt, hl);
    var c, h, g := Word(pkt, 10), pkt[..hl], Forwarded(pkt).value[..hl];
    OneFoldValue(c);
    VerifiesIff(h);
    VerifiesIff(g);
    WordSumPositive(h);
    WordSumPositive(g);
    assert WordSum(g) == WordSum(h) || WordSum(g) == WordSum(h) - ALL_ONES;
    if WordSum(g) != WordSum(h) {
      ModPlusMultiple(WordSum(g), 1, ALL_ONES);
    }
  }

  /** The checksum a sender would compute for this header from scratch. */
  function Recomputed(h: seq<Byte>): nat
    requires |h| >= 12
  {
    ALL_ONES - Fold(WordSum(h[10 := 0][11 := 0]))
  }

  /** The incremental update gives what a full recomputation gives, except when the old checksum was 0xFEFF:
      then it leaves 0xFFFF where a recomputation gives zero. */
  lemma IncrementalIsRecomputedIff(pkt: seq<Byte>, hl: nat)
    requires IsV4Header(pkt, hl) && Forwarded(pkt).Some? && Verifies(pkt[..hl])
    ensures |Forwarded(pkt).value| == |pkt|
    ensures var g := Forwarded(pkt).value[..hl];
      && (Word(g, 10) == Recomputed(g) <==> Word(pkt, 10) != 0xfeff)
      && (Word(pkt, 10) == 0xfeff ==> Word(g, 10) == 0xffff && Recomputed(g) == 0)
  {
    hide Forwarded, WordSum, Fold;
    ForwardedSum(pkt, hl);
    ForwardingKeepsValidity(pkt, hl);
    var c, g := Word(pkt, 10), Forwarded(pkt).value[..hl];
    OneFoldValue(c);
    VerifiesIff(g);
    WordSumUpdate(g, 10, 0, 0);
    var cleared := g[10 := 0][11 := 0];
    WordSumPositive(cleared);
    FoldIsMod(WordSum(cleared));
    assert Word(g, 10) == OneFold(c);
    AddUpToOnes(WordSum(cleared), Fold(WordSum(cleared)), OneFold(c));
  }

  /** An instance: a header with TTL 2 and checksum 0xFEFF. */
  lemma IncrementalDiffers()
    ensures var h: seq<Byte> := [0x45, 0, 0, 0, 0, 0, 0, 0, 2, 0x11, 0xfe, 0xff, 0xb9, 0xee, 0, 0, 0, 0, 0, 0];
      && IsV4Header(h, 20) && Verifies(h) && Forwarded(h).Some? && |Forwarded(h).value| == 20
      && Word(Forwarded(h).value, 10) == 0xffff && Recomputed(Forwarded(h).value) == 0
  {
    hide WordSum, Fold, Forwarded;
    var h: seq<Byte> := [0x45, 0, 0, 0, 0, 0, 0, 0, 2, 0x11, 0xfe, 0xff, 0xb9, 0xee, 0, 0, 0, 0, 0, 0];
    FiveWords(h[..10]);
    FiveWords(h[10..]);
    WordSumConcat(h[..10], h[10..]);
    assert h == h[..10] + h[10..] && h[..20] == h;
    VerifiesIff(h);
    Alive(h);
    IncrementalIsRecomputedIff(h, 20);
    assert Forwarded(h).value[..20] == Forwarded(h).value;
  }

  lemma FiveWords(s: seq<Byte>)
    requires |s| == 10
    ensures WordSum(s) == Word(s, 0) + Word(s, 2) + Word(s, 4) + Word(s, 6) + Word(s, 8)
  {
    assert s[2..][2..] == s[4..] && s[4..][2..] == s[6..] && s[6..][2..] == s[8..] && s[8..][2..] == [];
    assert WordSum(s[8..]) == Word(s, 8);
    assert WordSum(s[6..]) == Word(s, 6) + Word(s, 8);
    assert WordSum(s[4..]) == Word(s, 4) + Word(s, 6) + Word(s, 8);
  }

  lemma Alive(pkt: seq<Byte>)
    requires |pkt| >= 20 && pkt[0] / 16 == 4 && pkt[8] > 1
    ensures Forwarded(pkt).Some? && |Forwarded(pkt).value| == |pkt|
  {
  }

  /** If s and f are the same number modulo 65535 and s + c is none, then f and c add up to 65535, or to twice that. */
  lemma AddUpToOnes(s: nat, f: nat, c: nat)
    requires 0 < f <= ALL_ONES && f % ALL_ONES == s % ALL_ONES && c <= ALL_ONES && (s + c) % ALL_ONES == 0
    ensures f + c == ALL_ONES || f + c == 2 * ALL_ONES
  {
    var k, q := s / ALL_ONES, (s + c) / ALL_ONES;
    assert s == k * ALL_ONES + s % ALL_ONES;
    assert s + c == q * ALL_ONES;
  }

  // ----- computing a checksum -----

  lemma WordSumNext(s: seq<Byte>, i: nat)
    requires i % 2 == 0 && i + 1 < |s|
    ensures WordSum(s[..i + 2]) == WordSum(s[..i]) + Word(s, i)
  {
    hide WordSum;
    assert s[..i + 2] == s[..i] + [s[i], s[i + 1]];
    WordSumConcat(s[..i], [s[i], s[i + 1]]);
    WordSumPair(s[i], s[i + 1]);
  }

  lemma WordSumLast(s: seq<Byte>, i: nat)
    requires i % 2 == 0 && i + 1 == |s|
    ensures WordSum(s) == WordSum(s[..i]) + s[i] as int * 0x100
  {
    assert s == s[..i] + [s[i]];
    WordSumConcat(s[..i], [s[i]]);
  }

  /** Add the words of a range to a running 32-bit sum, which does not overflow. */
  method SumRange(a: array<Byte>, lo: nat, hi: nat, start: nat) returns (sum: nat)
    requires lo <= hi <= a.Length && hi - lo <= 0xffff && start <= 0x20_0000
    ensures sum == start + WordSum(a[lo..hi]) && sum < 0x1_0000_0000
  {
    WordSumBound(a[lo..hi]);
    hide WordSum;
    ghost var s := a[lo..hi];
    sum := start;
    var i := 0;
    SumNothing();
    while i < hi - lo
      invariant i <= |s| + 1 && i % 2 == 0
      invariant sum == start + WordSum(if i <= |s| then s[..i] else s)
    {
      if i + 1 < |s| {
        WordSumNext(s, i);
      } else {
        WordSumLast(s, i);
      }
      sum := sum + a[lo + i] as int * 0x100;
      if i + 1 < hi - lo {
        sum := sum + a[lo + i + 1];
      }
      i := i + 2;
    }
    assert i <= |s| ==> s[..i] == s;
  }

  lemma SumNothing()
    ensures WordSum([]) == 0
  {
  }

  method FoldAndComplement(sum: nat) returns (c: nat)
    ensures c == ALL_ONES - Fold(sum)
  {
    var s := sum;
    while s / 0x1_0000 != 0
      invariant Fold(s) == Fold(sum)
      decreases s
    {
      s := s % 0x1_0000 + s / 0x1_0000;
    }
    c := ALL_ONES - s;
  }

  /** Writing the complement of the folded sum into a cleared word makes the whole verify. */
  lemma FilledVerifies(s: seq<Byte>, i: nat, extra: nat, c: nat)
    requires i % 2 == 0 && i + 2 <= |s| && s[i] == 0 && s[i + 1] == 0
    requires c == ALL_ONES - Fold(extra + WordSum(s))
    ensures var t := s[i := (c / 0x100) % 0x100][i + 1 := c % 0x100];
      Fold(extra + WordSum(t)) == ALL_ONES
  {
    hide Fold, WordSum;
    var sum := extra + WordSum(s);
    WordSumUpdate(s, i, (c / 0x100) % 0x100, c % 0x100);
    FoldIsMod(sum);
    FoldIsMod(sum + c);
    Complement(sum, Fold(sum), c);
  }

  lemma Complement(s: nat, f: nat, c: nat)
    requires f % ALL_ONES == s % ALL_ONES && f + c == ALL_ONES && (f == 0 <==> s == 0)
    ensures s + c > 0 && (s + c) % ALL_ONES == 0
  {
    var k := s / ALL_ONES;
    assert s == k * ALL_ONES + s % ALL_ONES;
    if f == ALL_ONES {
      ModPlusMultiple(0, k, ALL_ONES);
    } else {
      assert s + c == ALL_ONES + k * ALL_ONES;
      ModPlusMultiple(ALL_ONES, k, ALL_ONES);
    }
  }
}
