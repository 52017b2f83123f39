/** The helper functions of the MD5 script and the word operations of RFC 1321 that they implement. */
module Md5Ops {
  import opened Prelude
  import opened JsWords

  /** Addition in two halves, to stay clear of interpreters that mishandle 32 bits. */
  function SafeAdd(x: int, y: int): int {
    var lsw := And(x, 0xFFFF) + And(y, 0xFFFF);
    var msw := Sar(x, 16) + Sar(y, 16) + Sar(lsw, 16);
    Or(Shl(msw, 16), And(lsw, 0xFFFF))
  }

  function Rol(num: int, cnt: nat): int
    requires cnt <= 32
  {
    Or(Shl(num, cnt), Shr(num, 32 - cnt))
  }

  function Cmn(q: int, a: int, b: int, x: int, s: nat, t: int): int
    requires s <= 32
  {
    SafeAdd(Rol(SafeAdd(SafeAdd(a, q), SafeAdd(x, t)), s), b)
  }

  function FF(a: int, b: int, c: int, d: int, x: int, s: nat, t: int): int
    requires s <= 32
  {
    Cmn(Or(And(b, c), And(Not(b), d)), a, b, x, s, t)
  }

  function GG(a: int, b: int, c: int, d: int, x: int, s: nat, t: int): int
    requires s <= 32
  {
    Cmn(Or(And(b, d), And(c, Not(d))), a, b, x, s, t)
  }

  function HH(a: int, b: int, c: int, d: int, x: int, s: nat, t: int): int
    requires s <= 32
  {
    Cmn(Xor(Xor(b, c), d), a, b, x, s, t)
  }

  function II(a: int, b: int, c: int, d: int, x: int, s: nat, t: int): int
    requires s <= 32
  {
    Cmn(Xor(c, Or(b, Not(d))), a, b, x, s, t)
  }

  /** RFC 1321, section 2: addition of words and the circular shift. */
  function Plus(x: Word, y: Word): Word {
    (x + y) % TWO32
  }

  /** The top `s` bits move to the bottom, the others up. */
  function RotL(w: Word, s: nat): int
    requires s <= 32
  {
    (w % Pow2(32 - s)) * Pow2(s) + w / Pow2(32 - s)
  }

  /** RFC 1321, section 3.4: the four auxiliary functions, by round. */
  function Aux(round: nat, x: Word, y: Word, z: Word): Word {
    match round
    case 0 => OrBits(AndBits(x, y), AndBits(NotBits(x), z))
    case 1 => OrBits(AndBits(x, z), AndBits(y, NotBits(z)))
    case 2 => XorBits(XorBits(x, y), z)
    case _ => XorBits(y, OrBits(x, NotBits(z)))
  }

  /** `a = b + ((a + F(b,c,d) + X[k] + T[i]) <<< s)` */
  function Operation(round: nat, a: Word, b: Word, c: Word, d: Word, x: Word, s: nat, t: Word): Word
    requires s <= 32
  {
    RotLIsWord(Plus(Plus(Plus(a, Aux(round, b, c, d)), x), t), s);
    Plus(b, RotL(Plus(Plus(Plus(a, Aux(round, b, c, d)), x), t), s))
  }

  lemma SplitWord(w: Word, s: nat)
    requires s <= 32
    ensures Pow2(32 - s) * Pow2(s) == TWO32
    ensures w / Pow2(32 - s) < Pow2(s)
  {
    Pow32();
    PowSum(32 - s, s);
    QuotientBelow(w, Pow2(32 - s), Pow2(s));
  }

  lemma QuotientBelow(w: nat, p: nat, q: nat)
    requires p >= 1 && w < p * q
    ensures w / p < q
  {
    if w / p >= q {
      ProductIsNat(p, w / p - q);
      assert false;
    }
  }

  lemma RotLIsWord(w: Word, s: nat)
    requires s <= 32
    ensures 0 <= RotL(w, s) < TWO32
  {
    hide *;
    var p, q := Pow2(32 - s), Pow2(s);
    SplitWord(w, s);
    ModBelow(w, p);
    DigitsBelow(w % p, w / p, p, q);
    RotLParts(w, s);
  }

  lemma RotLParts(w: Word, s: nat)
    requires s <= 32
    ensures RotL(w, s) == (w % Pow2(32 - s)) * Pow2(s) + w / Pow2(32 - s)
  {
    hide Pow2;
  }

  lemma DigitsBelow(high: nat, low: nat, p: nat, q: nat)
    requires high < p && low < q
    ensures 0 <= high * q + low < p * q
  {
    ProductIsNat(high, q);
    ProductIsNat(p - 1 - high, q);
    assert (p - 1 - high) * q == p * q - q - high * q;
  }

  /** `safe_add` is addition modulo 2^32, for all numbers. */
  lemma SafeAddIsPlus(x: int, y: int)
    ensures U(SafeAdd(x, y)) == Plus(U(x), U(y)) == U(x + y)
  {
    hide And, Or, Pow2;
    Pow16();
    AndMask(x, 16);
    AndMask(y, 16);
    var lsw := And(x, 0xFFFF) + And(y, 0xFFFF);
    var msw := Sar(x, 16) + Sar(y, 16) + Sar(lsw, 16);
    AndMask(lsw, 16);
    HalvesAdd(U(x), U(y), lsw, msw);
    SignedPattern(U(msw * 0x1_0000));
    OrDisjoint(Shl(msw, 16), And(lsw, 0xFFFF), msw % 0x1_0000, lsw % 0x1_0000, 16);
    PatternOfSum(x, y);
  }

  lemma HalvesAdd(x: Word, y: Word, lsw: int, msw: int)
    requires lsw == x % 0x1_0000 + y % 0x1_0000
    requires msw == Signed(x) / 0x1_0000 + Signed(y) / 0x1_0000 + lsw / 0x1_0000
    ensures U(msw * 0x1_0000) == (msw % 0x1_0000) * 0x1_0000
    ensures (msw % 0x1_0000) * 0x1_0000 + lsw % 0x1_0000 == U(x + y)
  {
    var high := msw / 0x1_0000;
    SignedHalf(x);
    SignedHalf(y);
    var k := (if x >= TWO31 then 1 else 0) + (if y >= TWO31 then 1 else 0);
    hide Signed, U;
    assert msw * 0x1_0000 + lsw % 0x1_0000 == x + y - k * TWO32;
    ModUnique(msw * 0x1_0000, high, (msw % 0x1_0000) * 0x1_0000);
    ModUnique(x + y, high + k, (msw % 0x1_0000) * 0x1_0000 + lsw % 0x1_0000);
  }

  lemma SignedHalf(x: Word)
    ensures Signed(x) / 0x1_0000 == x / 0x1_0000 - if x >= TWO31 then 0x1_0000 else 0
  {
  }

  /** `rol` is the circular shift, for all numbers and shifts. */
  lemma RolIsRotL(num: int, s: nat)
    requires s <= 32
    ensures U(Rol(num, s)) == RotL(U(num), s)
  {
    var w, p, q := U(num), Pow2(32 - s), Pow2(s);
    hide Or, Pow2;
    SplitWord(w, s);
    RotLIsWord(w, s);
    ShiftedPattern(num, p, q);
    SignedPattern(U(num * q));
    ModBelow(w, p);
    QuotientIsWord(w, p);
    OrDisjoint(Shl(num, s), Shr(num, 32 - s), w % p, w / p, s);
  }

  lemma QuotientIsWord(w: Word, p: nat)
    requires p >= 1
    ensures 0 <= w / p < TWO32 && U(w / p) == w / p
  {
  }

  /** Shifting left drops what passes the 32nd bit. */
  lemma ShiftedPattern(num: int, p: nat, q: nat)
    requires p * q == TWO32 && p >= 1
    ensures U(num * q) == (U(num) % p) * q
  {
    var w := U(num);
    var high := num / TWO32;
    assert num == p * (q * high + w / p) + w % p by {
      assert num == p * q * high + w;
      assert w == p * (w / p) + w % p;
    }
    ModBelow(w, p);
    ProductIsNat(q, w % p);
    ProductIsNat(q, p - 1 - w % p);
    assert num * q == TWO32 * (q * high + w / p) + (w % p) * q;
    ModUnique(num * q, q * high + w / p, (w % p) * q);
  }

  lemma CmnIsOperation(q: int, a: int, b: int, x: int, s: nat, t: int)
    requires s <= 32
    ensures U(Cmn(q, a, b, x, s, t))
            == Plus(U(b), U(Rol(SafeAdd(SafeAdd(a, q), SafeAdd(x, t)), s)))
    ensures U(SafeAdd(SafeAdd(a, q), SafeAdd(x, t))) == Plus(Plus(Plus(U(a), U(q)), U(x)), U(t))
  {
    hide SafeAdd, Rol;
    SafeAddIsPlus(a, q);
    SafeAddIsPlus(x, t);
    SafeAddIsPlus(SafeAdd(a, q), SafeAdd(x, t));
    SafeAddIsPlus(Rol(SafeAdd(SafeAdd(a, q), SafeAdd(x, t)), s), b);
    PlusAssociates(U(a), U(q), U(x), U(t));
  }

  lemma PlusAssociates(a: Word, q: Word, x: Word, t: Word)
    ensures Plus(Plus(a, q), Plus(x, t)) == Plus(Plus(Plus(a, q), x), t)
  {
    hide Plus, U;
    WordPattern(a);
    WordPattern(q);
    WordPattern(x);
    WordPattern(t);
    PlusPattern(a, q);
    PlusPattern(x, t);
    PlusPattern(a + q, x + t);
    PlusPattern(a + q, x);
    PlusPattern(a + q + x, t);
    assert (a + q) + (x + t) == a + q + x + t;
  }

  lemma WordPattern(w: Word)
    ensures U(w) == w
  {
  }

  lemma PlusPattern(x: int, y: int)
    ensures Plus(U(x), U(y)) == U(x + y)
  {
    PatternOfSum(x, y);
  }

  /** The script's four round functions, by round. */
  function Code(round: nat, a: int, b: int, c: int, d: int, x: int, s: nat, t: int): int
    requires s <= 32
  {
    match round
    case 0 => FF(a, b, c, d, x, s, t)
    case 1 => GG(a, b, c, d, x, s, t)
    case 2 => HH(a, b, c, d, x, s, t)
    case _ => II(a, b, c, d, x, s, t)
  }

  function Mix(round: nat, b: int, c: int, d: int): int {
    match round
    case 0 => Or(And(b, c), And(Not(b), d))
    case 1 => Or(And(b, d), And(c, Not(d)))
    case 2 => Xor(Xor(b, c), d)
    case _ => Xor(c, Or(b, Not(d)))
  }

  lemma MixIsAux(round: nat, b: int, c: int, d: int)
    ensures U(Mix(round, b, c, d)) == Aux(round, U(b), U(c), U(d))
  {
    hide AndBits, OrBits, XorBits, Not, NotBits;
    NotPattern(b);
    NotPattern(d);
  }

  /** Each of the four round functions of the script is one operation of section 3.4. */
  lemma CodeIsOperation(round: nat, a: int, b: int, c: int, d: int, x: int, s: nat, t: int)
    requires s <= 32
    ensures U(Code(round, a, b, c, d, x, s, t)) == Operation(round, U(a), U(b), U(c), U(d), U(x), s, U(t))
  {
    var q := Mix(round, b, c, d);
    assert Code(round, a, b, c, d, x, s, t) == Cmn(q, a, b, x, s, t) by {
      hide Cmn, Or, And, Xor, Not;
    }
    hide Code, Cmn, Mix, Aux, RotL, Rol, SafeAdd, Plus;
    MixIsAux(round, b, c, d);
    CmnIsOperation(q, a, b, x, s, t);
    RolIsRotL(SafeAdd(SafeAdd(a, q), SafeAdd(x, t)), s);
  }
}
