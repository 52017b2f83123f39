/** JavaScript's bit operators on integral numbers, and the 32-bit words they compute on. */
module JsWords {
  import opened Prelude

  const TWO31 := 0x8000_0000
  const TWO32 := 0x1_0000_0000

  type Word = w: int | 0 <= w < TWO32

  /** The bit pattern of a number. */
  function U(n: int): Word {
    n % TWO32
  }

  /** The signed number with a given bit pattern. */
  function Signed(w: Word): int {
    if w >= TWO31 then w - TWO32 else w
  }

  /** A bitwise operator on the lowest `n` bits. */
  function Bitwise(f: (bool, bool) -> bool, x: nat, y: nat, n: nat): (r: nat)
    ensures r < Pow2(n)
  {
    if n == 0 then 0
    else 2 * Bitwise(f, x / 2, y / 2, n - 1) + if f(x % 2 == 1, y % 2 == 1) then 1 else 0
  }

  const BOTH := (p: bool, q: bool) => p && q
  const EITHER := (p: bool, q: bool) => p || q
  const DIFFER := (p: bool, q: bool) => p != q

  lemma Pow32()
    ensures Pow2(32) == TWO32 && Pow2(31) == TWO31
  {
    assert Pow2(8) == 256;
    PowSum(8, 8);
    PowSum(16, 16);
  }

  lemma {:induction false} PowSum(m: nat, n: nat)
    ensures Pow2(m + n) == Pow2(m) * Pow2(n)
  {
    if m > 0 {
      PowSum(m - 1, n);
      assert Pow2(m + n) == 2 * (Pow2(m - 1) * Pow2(n));
    }
  }

  function AndBits(x: Word, y: Word): Word { Pow32(); Bitwise(BOTH, x, y, 32) }
  function OrBits(x: Word, y: Word): Word { Pow32(); Bitwise(EITHER, x, y, 32) }
  function XorBits(x: Word, y: Word): Word { Pow32(); Bitwise(DIFFER, x, y, 32) }
  function NotBits(x: Word): Word { TWO32 - 1 - x }

  /** The JavaScript operators. All but `>>>` give a signed number. */
  function And(x: int, y: int): int { Signed(AndBits(U(x), U(y))) }
  function Or(x: int, y: int): int { Signed(OrBits(U(x), U(y))) }
  function Xor(x: int, y: int): int { Signed(XorBits(U(x), U(y))) }
  function Not(x: int): int { -x - 1 }
  function Shl(x: int, k: nat): int { Signed(U(x * Pow2(k))) }
  function Sar(x: int, k: nat): int { Signed(U(x)) / Pow2(k) }
  function Shr(x: int, k: nat): int { U(x) / Pow2(k) }

  lemma SignedPattern(w: Word)
    ensures U(Signed(w)) == w
  {
  }

  /** `~` complements the pattern. */
  lemma NotPattern(x: int)
    ensures U(Signed(U(x))) == U(x)
    ensures U(Not(x)) == NotBits(U(x))
  {
    assert x == TWO32 * (x / TWO32) + U(x);
    assert Not(x) == TWO32 * (-(x / TWO32) - 1) + NotBits(U(x));
    ModUnique(Not(x), -(x / TWO32) - 1, NotBits(U(x)));
  }

  lemma ModUnique(n: int, q: int, r: Word)
    requires n == TWO32 * q + r
    ensures U(n) == r
  {
  }

  lemma PatternOfSum(x: int, y: int)
    ensures U(U(x) + U(y)) == U(x + y)
  {
    ModUnique(x + y, x / TWO32 + y / TWO32 + (U(x) + U(y)) / TWO32, U(U(x) + U(y)));
  }

  lemma OddMask(x: nat, p: nat, n: nat)
    requires p >= 1 && n >= 1
    ensures Bitwise(BOTH, x, 2 * p - 1, n) == 2 * Bitwise(BOTH, x / 2, p - 1, n - 1) + x % 2
  {
    assert (2 * p - 1) / 2 == p - 1;
    assert (2 * p - 1) % 2 == 1;
  }

  lemma MaskStep(x: nat, p: nat, n: nat)
    requires p >= 1 && n >= 1
    requires Bitwise(BOTH, x / 2, p - 1, n - 1) == (x / 2) % p
    ensures Bitwise(BOTH, x, 2 * p - 1, n) == x % (2 * p)
  {
    HalfMod(x, p);
    OddMask(x, p, n);
  }

  lemma PowStep(n: nat)
    ensures Pow2(0) == 1 && Pow2(n + 1) == 2 * Pow2(n)
  {
  }

  /** A mask of low ones is a remainder. */
  lemma {:induction false} MaskBits(x: nat, k: nat, n: nat)
    requires k <= n
    ensures Bitwise(BOTH, x, Pow2(k) - 1, n) == x % Pow2(k)
    decreases n
  {
    hide *;
    if k == 0 {
      PowStep(0);
      NoneBits(x, n);
    } else {
      MaskBits(x / 2, k - 1, n - 1);
      PowStep(k - 1);
      MaskStep(x, Pow2(k - 1), n);
      assert 2 * Pow2(k - 1) == Pow2(k);
    }
  }

  lemma {:induction false} NoneBits(x: nat, n: nat)
    ensures Bitwise(BOTH, x, 0, n) == 0
  {
    if n > 0 {
      NoneBits(x / 2, n - 1);
    }
  }

  lemma HalfMod(x: nat, p: nat)
    requires p >= 1
    ensures x % (2 * p) == 2 * ((x / 2) % p) + x % 2
  {
    var h := x / 2;
    var q := h / p;
    assert x == (2 * p) * q + (2 * (h % p) + x % 2) by {
      assert h == p * q + h % p;
    }
    DivModUnique(x, 2 * p, q, 2 * (h % p) + x % 2);
  }

  lemma DivModUnique(x: int, p: nat, q: int, r: nat)
    requires r < p
    requires x == p * q + r
    ensures x / p == q && x % p == r
  {
    MultipleIsFar(p, x / p - q);
    assert p * (x / p - q) == r - x % p;
  }

  lemma MultipleIsFar(p: nat, d: int)
    ensures d == 0 || p * d >= p || p * d + p <= 0
  {
    if d > 0 {
      ProductIsNat(p, d - 1);
      assert p * (d - 1) == p * d - p;
    } else if d < 0 {
      ProductIsNat(p, -d - 1);
      assert p * (-d - 1) + p * d + p == 0;
    }
  }

  lemma ProductIsNat(p: nat, d: nat)
    ensures p * d >= 0
  {
  }

  /** Bits that do not overlap are added. */
  lemma {:induction false} DisjointBits(high: nat, low: nat, k: nat, n: nat)
    requires k <= n
    requires low < Pow2(k) && high * Pow2(k) < Pow2(n)
    ensures Bitwise(EITHER, high * Pow2(k), low, n) == high * Pow2(k) + low
    ensures Bitwise(EITHER, low, high * Pow2(k), n) == high * Pow2(k) + low
    decreases n
  {
    if k == 0 {
      SameBits(high, n);
    } else {
      var p := Pow2(k - 1);
      assert high * Pow2(k) == 2 * (high * p);
      DisjointBits(high, low / 2, k - 1, n - 1);
    }
  }

  lemma {:induction false} SameBits(x: nat, n: nat)
    requires x < Pow2(n)
    ensures Bitwise(EITHER, x, 0, n) == x
    ensures Bitwise(EITHER, 0, x, n) == x
  {
    if n > 0 {
      SameBits(x / 2, n - 1);
    }
  }

  /** `x & (2^k - 1)`, for the masks below the sign bit. */
  lemma AndMask(x: int, k: nat)
    requires k < 32
    ensures Pow2(k) - 1 < TWO31
    ensures And(x, Pow2(k) - 1) == U(x) % Pow2(k)
  {
    hide Bitwise, Pow2;
    Pow32();
    PowMonotone(k, 31);
    MaskBits(U(x), k, 32);
    ModBelow(U(x), Pow2(k));
  }

  lemma ModBelow(n: int, p: nat)
    requires p >= 1
    ensures 0 <= n % p < p
  {
  }

  lemma {:induction false} PowMonotone(m: nat, n: nat)
    requires m <= n
    ensures Pow2(m) <= Pow2(n)
  {
    if m < n {
      PowMonotone(m, n - 1);
    }
  }

  lemma Pow16()
    ensures Pow2(4) == 16 && Pow2(8) == 256 && Pow2(16) == 0x1_0000 && Pow2(24) == 0x100_0000
  {
    assert Pow2(4) == 16;
    PowSum(4, 4);
    PowSum(8, 8);
    PowSum(8, 16);
  }

  /** `|` of a number whose low `k` bits are clear with one that only has those adds them. */
  lemma OrDisjoint(x: int, y: int, high: nat, low: nat, k: nat)
    requires k <= 32
    requires U(x) == high * Pow2(k) && U(y) == low && low < Pow2(k)
    ensures U(Or(x, y)) == high * Pow2(k) + low
    ensures U(Or(y, x)) == high * Pow2(k) + low
  {
    hide Bitwise, Pow2;
    Pow32();
    DisjointBits(high, low, k, 32);
  }
}
