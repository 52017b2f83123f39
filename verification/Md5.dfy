/** The message digest loop of the MD5 script, against the table-driven description in RFC 1321, section 3.4. */
module Md5 {
  import opened JsWords
  import opened Md5Ops

  datatype State = State(a: Word, b: Word, c: Word, d: Word)

  /** RFC 1321, section 3.3. */
  const INITIAL := State(0x67452301, 0xefcdab89, 0x98badcfe, 0x10325476)

  /** The sine table of section 3.4, counted from 0. */
  function T(i: nat): Word {
    if i < 16 then T1(i) else if i < 32 then T2(i) else if i < 48 then T3(i) else T4(i)
  }

  function T1(i: nat): Word {
    match i
    case 0 => 0xd76aa478  case 1 => 0xe8c7b756  case 2 => 0x242070db  case 3 => 0xc1bdceee
    case 4 => 0xf57c0faf  case 5 => 0x4787c62a  case 6 => 0xa8304613  case 7 => 0xfd469501
    case 8 => 0x698098d8  case 9 => 0x8b44f7af  case 10 => 0xffff5bb1  case 11 => 0x895cd7be
    case 12 => 0x6b901122  case 13 => 0xfd987193  case 14 => 0xa679438e  case 15 => 0x49b40821
    case _ => 0
  }

  function T2(i: nat): Word {
    match i
    case 16 => 0xf61e2562  case 17 => 0xc040b340  case 18 => 0x265e5a51  case 19 => 0xe9b6c7aa
    case 20 => 0xd62f105d  case 21 => 0x02441453  case 22 => 0xd8a1e681  case 23 => 0xe7d3fbc8
    case 24 => 0x21e1cde6  case 25 => 0xc33707d6  case 26 => 0xf4d50d87  case 27 => 0x455a14ed
    case 28 => 0xa9e3e905  case 29 => 0xfcefa3f8  case 30 => 0x676f02d9  case 31 => 0x8d2a4c8a
    case _ => 0
  }

  function T3(i: nat): Word {
    match i
    case 32 => 0xfffa3942  case 33 => 0x8771f681  case 34 => 0x6d9d6122  case 35 => 0xfde5380c
    case 36 => 0xa4beea44  case 37 => 0x4bdecfa9  case 38 => 0xf6bb4b60  case 39 => 0xbebfbc70
    case 40 => 0x289b7ec6  case 41 => 0xeaa127fa  case 42 => 0xd4ef3085  case 43 => 0x04881d05
    case 44 => 0xd9d4d039  case 45 => 0xe6db99e5  case 46 => 0x1fa27cf8  case 47 => 0xc4ac5665
    case _ => 0
  }

  function T4(i: nat): Word {
    match i
    case 48 => 0xf4292244  case 49 => 0x432aff97  case 50 => 0xab9423a7  case 51 => 0xfc93a039
    case 52 => 0x655b59c3  case 53 => 0x8f0ccc92  case 54 => 0xffeff47d  case 55 => 0x85845dd1
    case 56 => 0x6fa87e4f  case 57 => 0xfe2ce6e0  case 58 => 0xa3014314  case 59 => 0x4e0811a1
    case 60 => 0xf7537e82  case 61 => 0xbd3af235  case 62 => 0x2ad7d2bb  case 63 => 0xeb86d391
    case _ => 0
  }

  /** Which word of the block an operation reads. */
  function K(i: nat): nat {
    if i < 16 then i
    else if i < 32 then (5 * i + 1) % 16
    else if i < 48 then (3 * i + 5) % 16
    else (7 * i) % 16
  }

  /** By how much it rotates. */
  function S(i: nat): (s: nat)
    ensures s <= 32
  {
    match (i / 16, i % 4)
    case (0, 0) => 7   case (0, 1) => 12  case (0, 2) => 17  case (0, 3) => 22
    case (1, 0) => 5   case (1, 1) => 9   case (1, 2) => 14  case (1, 3) => 20
    case (2, 0) => 4   case (2, 1) => 11  case (2, 2) => 16  case (2, 3) => 23
    case (3, 0) => 6   case (3, 1) => 10  case (3, 2) => 15  case (3, 3) => 21
    case _ => 0
  }

  /** Operation `i`; afterwards the four registers change roles, [ABCD] becoming [DABC]. */
  function Step(m: seq<Word>, s: State, i: nat): State
    requires |m| == 16
  {
    State(s.d, Operation(i / 16, s.a, s.b, s.c, s.d, m[K(i) % 16], S(i), T(i)), s.b, s.c)
  }

  function Steps(m: seq<Word>, s: State, n: nat): State
    requires |m| == 16
  {
    if n == 0 then s else Step(m, Steps(m, s, n - 1), n - 1)
  }

  function Compress(s: State, m: seq<Word>): State
    requires |m| == 16
  {
    var t := Steps(m, s, 64);
    State(Plus(t.a, s.a), Plus(t.b, s.b), Plus(t.c, s.c), Plus(t.d, s.d))
  }

  /** Section 3.4 over the first `n` blocks. */
  function Digest(x: seq<int>, n: nat): State {
    if n == 0 then INITIAL else Compress(Digest(x, n - 1), Block(x, 16 * (n - 1)))
  }

  /** Reading past the end gives `undefined`, which every bit operator takes for 0. */
  function At(x: seq<int>, i: nat): int {
    if i < |x| then x[i] else 0
  }

  function Block(x: seq<int>, i: nat): (m: seq<Word>)
    ensures |m| == 16
    ensures forall k :: 0 <= k < 16 ==> m[k] == U(At(x, i + k))
  {
    seq<Word>(16, k requires 0 <= k < 16 => U(At(x, i + k)))
  }

  function StateOf(a: int, b: int, c: int, d: int): State {
    State(U(a), U(b), U(c), U(d))
  }

  /** Operation `n` of the table reads word `k`, rotates by `s` and adds the constant with the pattern of `t`. */
  ghost predicate IsOp(n: nat, k: nat, s: nat, t: int) {
    K(n) == k < 16 && S(n) == s && T(n) == U(t)
  }

  /** One operation of the script, with the registers in the roles it gives them. */
  lemma OneStep(x: seq<int>, i: nat, start: State, n: nat, round: nat, a: int, b: int, c: int, d: int,
                k: nat, s: nat, t: int)
    requires StateOf(a, b, c, d) == Steps(Block(x, i), start, n)
    requires round == n / 16 && s <= 32 && IsOp(n, k, s, t)
    ensures StateOf(d, Code(round, a, b, c, d, At(x, i + k), s, t), b, c) == Steps(Block(x, i), start, n + 1)
    ensures round == 0 ==> Code(round, a, b, c, d, At(x, i + k), s, t) == FF(a, b, c, d, At(x, i + k), s, t)
    ensures round == 1 ==> Code(round, a, b, c, d, At(x, i + k), s, t) == GG(a, b, c, d, At(x, i + k), s, t)
    ensures round == 2 ==> Code(round, a, b, c, d, At(x, i + k), s, t) == HH(a, b, c, d, At(x, i + k), s, t)
    ensures round == 3 ==> Code(round, a, b, c, d, At(x, i + k), s, t) == II(a, b, c, d, At(x, i + k), s, t)
  {
    hide Operation, S, T, K, FF, GG, HH, II;
    CodeIsOperation(round, a, b, c, d, At(x, i + k), s, t);
  }

  /** Four of them bring every register back to its role. */
  lemma FirstQuad(x: seq<int>, i: nat, start: State, n: nat, a: int, b: int, c: int, d: int,
                  k0: nat, k1: nat, k2: nat, k3: nat, t0: int, t1: int, t2: int, t3: int)
    requires StateOf(a, b, c, d) == Steps(Block(x, i), start, n)
    requires 0 <= n <= 12
    requires IsOp(n, k0, 7, t0) && IsOp(n + 1, k1, 12, t1) && IsOp(n + 2, k2, 17, t2) && IsOp(n + 3, k3, 22, t3)
    ensures var a1 := FF(a, b, c, d, At(x, i + k0), 7, t0);
            var d1 := FF(d, a1, b, c, At(x, i + k1), 12, t1);
            var c1 := FF(c, d1, a1, b, At(x, i + k2), 17, t2);
            var b1 := FF(b, c1, d1, a1, At(x, i + k3), 22, t3);
            StateOf(a1, b1, c1, d1) == Steps(Block(x, i), start, n + 4)
  {
    hide *;
    OneStep(x, i, start, n, 0, a, b, c, d, k0, 7, t0);
    var a1 := FF(a, b, c, d, At(x, i + k0), 7, t0);
    OneStep(x, i, start, n + 1, 0, d, a1, b, c, k1, 12, t1);
    var d1 := FF(d, a1, b, c, At(x, i + k1), 12, t1);
    OneStep(x, i, start, n + 2, 0, c, d1, a1, b, k2, 17, t2);
    var c1 := FF(c, d1, a1, b, At(x, i + k2), 17, t2);
    OneStep(x, i, start, n + 3, 0, b, c1, d1, a1, k3, 22, t3);
  }

  /** Four of them bring every register back to its role. */
  lemma SecondQuad(x: seq<int>, i: nat, start: State, n: nat, a: int, b: int, c: int, d: int,
                  k0: nat, k1: nat, k2: nat, k3: nat, t0: int, t1: int, t2: int, t3: int)
    requires StateOf(a, b, c, d) == Steps(Block(x, i), start, n)
    requires 16 <= n <= 28
    requires IsOp(n, k0, 5, t0) && IsOp(n + 1, k1, 9, t1) && IsOp(n + 2, k2, 14, t2) && IsOp(n + 3, k3, 20, t3)
    ensures var a1 := GG(a, b, c, d, At(x, i + k0), 5, t0);
            var d1 := GG(d, a1, b, c, At(x, i + k1), 9, t1);
            var c1 := GG(c, d1, a1, b, At(x, i + k2), 14, t2);
            var b1 := GG(b, c1, d1, a1, At(x, i + k3), 20, t3);
            StateOf(a1, b1, c1, d1) == Steps(Block(x, i), start, n + 4)
  {
    hide *;
    OneStep(x, i, start, n, 1, a, b, c, d, k0, 5, t0);
    var a1 := GG(a, b, c, d, At(x, i + k0), 5, t0);
    OneStep(x, i, start, n + 1, 1, d, a1, b, c, k1, 9, t1);
    var d1 := GG(d, a1, b, c, At(x, i + k1), 9, t1);
    OneStep(x, i, start, n + 2, 1, c, d1, a1, b, k2, 14, t2);
    var c1 := GG(c, d1, a1, b, At(x, i + k2), 14, t2);
    OneStep(x, i, start, n + 3, 1, b, c1, d1, a1, k3, 20, t3);
  }

  /** Four of them bring every register back to its role. */
  lemma ThirdQuad(x: seq<int>, i: nat, start: State, n: nat, a: int, b: int, c: int, d: int,
                  k0: nat, k1: nat, k2: nat, k3: nat, t0: int, t1: int, t2: int, t3: int)
    requires StateOf(a, b, c, d) == Steps(Block(x, i), start, n)
    requires 32 <= n <= 44
    requires IsOp(n, k0, 4, t0) && IsOp(n + 1, k1, 11, t1) && IsOp(n + 2, k2, 16, t2) && IsOp(n + 3, k3, 23, t3)
    ensures var a1 := HH(a, b, c, d, At(x, i + k0), 4, t0);
            var d1 := HH(d, a1, b, c, At(x, i + k1), 11, t1);
            var c1 := HH(c, d1, a1, b, At(x, i + k2), 16, t2);
            var b1 := HH(b, c1, d1, a1, At(x, i + k3), 23, t3);
            StateOf(a1, b1, c1, d1) == Steps(Block(x, i), start, n + 4)
  {
    hide *;
    OneStep(x, i, start, n, 2, a, b, c, d, k0, 4, t0);
    var a1 := HH(a, b, c, d, At(x, i + k0), 4, t0);
    OneStep(x, i, start, n + 1, 2, d, a1, b, c, k1, 11, t1);
    var d1 := HH(d, a1, b, c, At(x, i + k1), 11, t1);
    OneStep(x, i, start, n + 2, 2, c, d1, a1, b, k2, 16, t2);
    var c1 := HH(c, d1, a1, b, At(x, i + k2), 16, t2);
    OneStep(x, i, start, n + 3, 2, b, c1, d1, a1, k3, 23, t3);
  }

  /** Four of them bring every register back to its role. */
  lemma FourthQuad(x: seq<int>, i: nat, start: State, n: nat, a: int, b: int, c: int, d: int,
                  k0: nat, k1: nat, k2: nat, k3: nat, t0: int, t1: int, t2: int, t3: int)
    requires StateOf(a, b, c, d) == Steps(Block(x, i), start, n)
    requires 48 <= n <= 60
    requires IsOp(n, k0, 6, t0) && IsOp(n + 1, k1, 10, t1) && IsOp(n + 2, k2, 15, t2) && IsOp(n + 3, k3, 21, t3)
    ensures var a1 := II(a, b, c, d, At(x, i + k0), 6, t0);
            var d1 := II(d, a1, b, c, At(x, i + k1), 10, t1);
            var c1 := II(c, d1, a1, b, At(x, i + k2), 15, t2);
            var b1 := II(b, c1, d1, a1, At(x, i + k3), 21, t3);
            StateOf(a1, b1, c1, d1) == Steps(Block(x, i), start, n + 4)
  {
    hide *;
    OneStep(x, i, start, n, 3, a, b, c, d, k0, 6, t0);
    var a1 := II(a, b, c, d, At(x, i + k0), 6, t0);
    OneStep(x, i, start, n + 1, 3, d, a1, b, c, k1, 10, t1);
    var d1 := II(d, a1, b, c, At(x, i + k1), 10, t1);
    OneStep(x, i, start, n + 2, 3, c, d1, a1, b, k2, 15, t2);
    var c1 := II(c, d1, a1, b, At(x, i + k2), 15, t2);
    OneStep(x, i, start, n + 3, 3, b, c1, d1, a1, k3, 21, t3);
  }

  /** The operands and constants of the first sixteen operations are those of the table. */
  lemma FirstConstants()
    ensures IsOp(0, 0, 7, -680876936) && IsOp(1, 1, 12, -389564586)
    ensures IsOp(2, 2, 17, 606105819) && IsOp(3, 3, 22, -1044525330)
    ensures IsOp(4, 4, 7, -176418897) && IsOp(5, 5, 12, 1200080426)
    ensures IsOp(6, 6, 17, -1473231341) && IsOp(7, 7, 22, -45705983)
    ensures IsOp(8, 8, 7, 1770035416) && IsOp(9, 9, 12, -1958414417)
    ensures IsOp(10, 10, 17, -42063) && IsOp(11, 11, 22, -1990404162)
    ensures IsOp(12, 12, 7, 1804603682) && IsOp(13, 13, 12, -40341101)
    ensures IsOp(14, 14, 17, -1502002290) && IsOp(15, 15, 22, 1236535329)
  {
    assert U(-680876936) == 0xd76aa478;
  }

  /** The first sixteen unrolled operations. */
  method FirstRound(x: seq<int>, i: nat, a0: int, b0: int, c0: int, d0: int, ghost start: State)
    returns (a: int, b: int, c: int, d: int)
    requires StateOf(a0, b0, c0, d0) == Steps(Block(x, i), start, 0)
    ensures StateOf(a, b, c, d) == Steps(Block(x, i), start, 16)
  {
    hide *;
    FirstConstants();
    a, b, c, d := a0, b0, c0, d0;
    FirstQuad(x, i, start, 0, a, b, c, d, 0, 1, 2, 3, -680876936, -389564586, 606105819, -1044525330);
    a := FF(a, b, c, d, At(x, i + 0), 7, -680876936);
    d := FF(d, a, b, c, At(x, i + 1), 12, -389564586);
    c := FF(c, d, a, b, At(x, i + 2), 17, 606105819);
    b := FF(b, c, d, a, At(x, i + 3), 22, -1044525330);
    FirstQuad(x, i, start, 4, a, b, c, d, 4, 5, 6, 7, -176418897, 1200080426, -1473231341, -45705983);
    a := FF(a, b, c, d, At(x, i + 4), 7, -176418897);
    d := FF(d, a, b, c, At(x, i + 5), 12, 1200080426);
    c := FF(c, d, a, b, At(x, i + 6), 17, -1473231341);
    b := FF(b, c, d, a, At(x, i + 7), 22, -45705983);
    FirstQuad(x, i, start, 8, a, b, c, d, 8, 9, 10, 11, 1770035416, -1958414417, -42063, -1990404162);
    a := FF(a, b, c, d, At(x, i + 8), 7, 1770035416);
    d := FF(d, a, b, c, At(x, i + 9), 12, -1958414417);
    c := FF(c, d, a, b, At(x, i + 10), 17, -42063);
    b := FF(b, c, d, a, At(x, i + 11), 22, -1990404162);
    FirstQuad(x, i, start, 12, a, b, c, d, 12, 13, 14, 15, 1804603682, -40341101, -1502002290, 1236535329);
    a := FF(a, b, c, d, At(x, i + 12), 7, 1804603682);
    d := FF(d, a, b, c, At(x, i + 13), 12, -40341101);
    c := FF(c, d, a, b, At(x, i + 14), 17, -1502002290);
    b := FF(b, c, d, a, At(x, i + 15), 22, 1236535329);
  }

  /** The operands and constants of the second sixteen operations are those of the table. */
  lemma SecondConstants()
    ensures IsOp(16, 1, 5, -165796510) && IsOp(17, 6, 9, -1069501632)
    ensures IsOp(18, 11, 14, 643717713) && IsOp(19, 0, 20, -373897302)
    ensures IsOp(20, 5, 5, -701558691) && IsOp(21, 10, 9, 38016083)
    ensures IsOp(22, 15, 14, -660478335) && IsOp(23, 4, 20, -405537848)
    ensures IsOp(24, 9, 5, 568446438) && IsOp(25, 14, 9, -1019803690)
    ensures IsOp(26, 3, 14, -187363961) && IsOp(27, 8, 20, 1163531501)
    ensures IsOp(28, 13, 5, -1444681467) && IsOp(29, 2, 9, -51403784)
    ensures IsOp(30, 7, 14, 1735328473) && IsOp(31, 12, 20, -1926607734)
  {
    assert U(-165796510) == 0xf61e2562;
  }

  /** The second sixteen unrolled operations. */
  method SecondRound(x: seq<int>, i: nat, a0: int, b0: int, c0: int, d0: int, ghost start: State)
    returns (a: int, b: int, c: int, d: int)
    requires StateOf(a0, b0, c0, d0) == Steps(Block(x, i), start, 16)
    ensures StateOf(a, b, c, d) == Steps(Block(x, i), start, 32)
  {
    hide *;
    SecondConstants();
    a, b, c, d := a0, b0, c0, d0;
    SecondQuad(x, i, start, 16, a, b, c, d, 1, 6, 11, 0, -165796510, -1069501632, 643717713, -373897302);
    a := GG(a, b, c, d, At(x, i + 1), 5, -165796510);
    d := GG(d, a, b, c, At(x, i + 6), 9, -1069501632);
    c := GG(c, d, a, b, At(x, i + 11), 14, 643717713);
    b := GG(b, c, d, a, At(x, i + 0), 20, -373897302);
    SecondQuad(x, i, start, 20, a, b, c, d, 5, 10, 15, 4, -701558691, 38016083, -660478335, -405537848);
    a := GG(a, b, c, d, At(x, i + 5), 5, -701558691);
    d := GG(d, a, b, c, At(x, i + 10), 9, 38016083);
    c := GG(c, d, a, b, At(x, i + 15), 14, -660478335);
    b := GG(b, c, d, a, At(x, i + 4), 20, -405537848);
    SecondQuad(x, i, start, 24, a, b, c, d, 9, 14, 3, 8, 568446438, -1019803690, -187363961, 1163531501);
    a := GG(a, b, c, d, At(x, i + 9), 5, 568446438);
    d := GG(d, a, b, c, At(x, i + 14), 9, -1019803690);
    c := GG(c, d, a, b, At(x, i + 3), 14, -187363961);
    b := GG(b, c, d, a, At(x, i + 8), 20, 1163531501);
    SecondQuad(x, i, start, 28, a, b, c, d, 13, 2, 7, 12, -1444681467, -51403784, 1735328473, -1926607734);
    a := GG(a, b, c, d, At(x, i + 13), 5, -1444681467);
    d := GG(d, a, b, c, At(x, i + 2), 9, -51403784);
    c := GG(c, d, a, b, At(x, i + 7), 14, 1735328473);
    b := GG(b, c, d, a, At(x, i + 12), 20, -1926607734);
  }

  /** The operands and constants of the third sixteen operations are those of the table. */
  lemma ThirdConstants()
    ensures IsOp(32, 5, 4, -378558) && IsOp(33, 8, 11, -2022574463)
    ensures IsOp(34, 11, 16, 1839030562) && IsOp(35, 14, 23, -35309556)
    ensures IsOp(36, 1, 4, -1530992060) && IsOp(37, 4, 11, 1272893353)
    ensures IsOp(38, 7, 16, -155497632) && IsOp(39, 10, 23, -1094730640)
    ensures IsOp(40, 13, 4, 681279174) && IsOp(41, 0, 11, -358537222)
    ensures IsOp(42, 3, 16, -722521979) && IsOp(43, 6, 23, 76029189)
    ensures IsOp(44, 9, 4, -640364487) && IsOp(45, 12, 11, -421815835)
    ensures IsOp(46, 15, 16, 530742520) && IsOp(47, 2, 23, -995338651)
  {
    assert U(-378558) == 0xfffa3942;
  }

  /** The third sixteen unrolled operations. */
  method ThirdRound(x: seq<int>, i: nat, a0: int, b0: int, c0: int, d0: int, ghost start: State)
    returns (a: int, b: int, c: int, d: int)
    requires StateOf(a0, b0, c0, d0) == Steps(Block(x, i), start, 32)
    ensures StateOf(a, b, c, d) == Steps(Block(x, i), start, 48)
  {
    hide *;
    ThirdConstants();
    a, b, c, d := a0, b0, c0, d0;
    ThirdQuad(x, i, start, 32, a, b, c, d, 5, 8, 11, 14, -378558, -2022574463, 1839030562, -35309556);
    a := HH(a, b, c, d, At(x, i + 5), 4, -378558);
    d := HH(d, a, b, c, At(x, i + 8), 11, -2022574463);
    c := HH(c, d, a, b, At(x, i + 11), 16, 1839030562);
    b := HH(b, c, d, a, At(x, i + 14), 23, -35309556);
    ThirdQuad(x, i, start, 36, a, b, c, d, 1, 4, 7, 10, -1530992060, 1272893353, -155497632, -1094730640);
    a := HH(a, b, c, d, At(x, i + 1), 4, -1530992060);
    d := HH(d, a, b, c, At(x, i + 4), 11, 1272893353);
    c := HH(c, d, a, b, At(x, i + 7), 16, -155497632);
    b := HH(b, c, d, a, At(x, i + 10), 23, -1094730640);
    ThirdQuad(x, i, start, 40, a, b, c, d, 13, 0, 3, 6, 681279174, -358537222, -722521979, 76029189);
    a := HH(a, b, c, d, At(x, i + 13), 4, 681279174);
    d := HH(d, a, b, c, At(x, i + 0), 11, -358537222);
    c := HH(c, d, a, b, At(x, i + 3), 16, -722521979);
    b := HH(b, c, d, a, At(x, i + 6), 23, 76029189);
    ThirdQuad(x, i, start, 44, a, b, c, d, 9, 12, 15, 2, -640364487, -421815835, 530742520, -995338651);
    a := HH(a, b, c, d, At(x, i + 9), 4, -640364487);
    d := HH(d, a, b, c, At(x, i + 12), 11, -421815835);
    c := HH(c, d, a, b, At(x, i + 15), 16, 530742520);
    b := HH(b, c, d, a, At(x, i + 2), 23, -995338651);
  }

  /** The operands and constants of the fourth sixteen operations are those of the table. */
  lemma FourthConstants()
    ensures IsOp(48, 0, 6, -198630844) && IsOp(49, 7, 10, 1126891415)
    ensures IsOp(50, 14, 15, -1416354905) && IsOp(51, 5, 21, -57434055)
    ensures IsOp(52, 12, 6, 1700485571) && IsOp(53, 3, 10, -1894986606)
    ensures IsOp(54, 10, 15, -1051523) && IsOp(55, 1, 21, -2054922799)
    ensures IsOp(56, 8, 6, 1873313359) && IsOp(57, 15, 10, -30611744)
    ensures IsOp(58, 6, 15, -1560198380) && IsOp(59, 13, 21, 1309151649)
    ensures IsOp(60, 4, 6, -145523070) && IsOp(61, 11, 10, -1120210379)
    ensures IsOp(62, 2, 15, 718787259) && IsOp(63, 9, 21, -343485551)
  {
    assert U(-198630844) == 0xf4292244;
  }

  /** The fourth sixteen unrolled operations. */
  method FourthRound(x: seq<int>, i: nat, a0: int, b0: int, c0: int, d0: int, ghost start: State)
    returns (a: int, b: int, c: int, d: int)
    requires StateOf(a0, b0, c0, d0) == Steps(Block(x, i), start, 48)
    ensures StateOf(a, b, c, d) == Steps(Block(x, i), start, 64)
  {
    hide *;
    FourthConstants();
    a, b, c, d := a0, b0, c0, d0;
    FourthQuad(x, i, start, 48, a, b, c, d, 0, 7, 14, 5, -198630844, 1126891415, -1416354905, -57434055);
    a := II(a, b, c, d, At(x, i + 0), 6, -198630844);
    d := II(d, a, b, c, At(x, i + 7), 10, 1126891415);
    c := II(c, d, a, b, At(x, i + 14), 15, -1416354905);
    b := II(b, c, d, a, At(x, i + 5), 21, -57434055);
    FourthQuad(x, i, start, 52, a, b, c, d, 12, 3, 10, 1, 1700485571, -1894986606, -1051523, -2054922799);
    a := II(a, b, c, d, At(x, i + 12), 6, 1700485571);
    d := II(d, a, b, c, At(x, i + 3), 10, -1894986606);
    c := II(c, d, a, b, At(x, i + 10), 15, -1051523);
    b := II(b, c, d, a, At(x, i + 1), 21, -2054922799);
    FourthQuad(x, i, start, 56, a, b, c, d, 8, 15, 6, 13, 1873313359, -30611744, -1560198380, 1309151649);
    a := II(a, b, c, d, At(x, i + 8), 6, 1873313359);
    d := II(d, a, b, c, At(x, i + 15), 10, -30611744);
    c := II(c, d, a, b, At(x, i + 6), 15, -1560198380);
    b := II(b, c, d, a, At(x, i + 13), 21, 1309151649);
    FourthQuad(x, i, start, 60, a, b, c, d, 4, 11, 2, 9, -145523070, -1120210379, 718787259, -343485551);
    a := II(a, b, c, d, At(x, i + 4), 6, -145523070);
    d := II(d, a, b, c, At(x, i + 11), 10, -1120210379);
    c := II(c, d, a, b, At(x, i + 2), 15, 718787259);
    b := II(b, c, d, a, At(x, i + 9), 21, -343485551);
  }

  lemma SumOfStates(a: int, b: int, c: int, d: int, olda: int, oldb: int, oldc: int, oldd: int,
                    m: seq<Word>)
    requires |m| == 16
    requires StateOf(a, b, c, d) == Steps(m, StateOf(olda, oldb, oldc, oldd), 64)
    ensures StateOf(SafeAdd(a, olda), SafeAdd(b, oldb), SafeAdd(c, oldc), SafeAdd(d, oldd))
            == Compress(StateOf(olda, oldb, oldc, oldd), m)
  {
    hide SafeAdd, Plus, Steps;
    SafeAddIsPlus(a, olda);
    SafeAddIsPlus(b, oldb);
    SafeAddIsPlus(c, oldc);
    SafeAddIsPlus(d, oldd);
  }

  /** `coreMD5`: the words it returns are the digest of section 3.4 over all blocks. */
  method CoreMD5(x: seq<int>) returns (a: int, b: int, c: int, d: int)
    ensures StateOf(a, b, c, d) == Digest(x, (|x| + 15) / 16)
  {
    hide Steps, Compress, SafeAdd;
    a, b, c, d := 1732584193, -271733879, -1732584194, 271733878;
    var i := 0;
    ghost var n := 0;
    while i < |x|
      invariant i == 16 * n && n <= (|x| + 15) / 16
      invariant StateOf(a, b, c, d) == Digest(x, n)
    {
      var olda, oldb, oldc, oldd := a, b, c, d;
      ghost var start := StateOf(a, b, c, d);
      NoSteps(Block(x, i), start);
      a, b, c, d := FirstRound(x, i, a, b, c, d, start);
      a, b, c, d := SecondRound(x, i, a, b, c, d, start);
      a, b, c, d := ThirdRound(x, i, a, b, c, d, start);
      a, b, c, d := FourthRound(x, i, a, b, c, d, start);
      SumOfStates(a, b, c, d, olda, oldb, oldc, oldd, Block(x, i));
      a := SafeAdd(a, olda);
      b := SafeAdd(b, oldb);
      c := SafeAdd(c, oldc);
      d := SafeAdd(d, oldd);
      i := i + 16;
      n := n + 1;
    }
  }

  lemma NoSteps(m: seq<Word>, s: State)
    requires |m| == 16
    ensures Steps(m, s, 0) == s
  {
  }
}
