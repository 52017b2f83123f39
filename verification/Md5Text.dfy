/** From strings to padded blocks and from words to hexadecimal: the two ends of the MD5 script. */
module Md5Text {
  import opened Prelude
  import opened JsWords
  import opened Md5

  type Byte = b: int | 0 <= b < 256

  /** The character codes with the high part ignored. */
  function Bytes(str: seq<nat>): (bytes: seq<Byte>)
    ensures |bytes| == |str|
  {
    seq<Byte>(|str|, i requires 0 <= i < |str| => str[i] % 256)
  }

  function ByteAt(bytes: seq<Byte>, i: nat): Byte {
    if i < |bytes| then bytes[i] else 0
  }

  /** RFC 1321, section 2: a word is four bytes, the low-order byte first. */
  function LeWord(bytes: seq<Byte>, k: nat): Word {
    ByteAt(bytes, 4 * k) + 0x100 * ByteAt(bytes, 4 * k + 1) + 0x1_0000 * ByteAt(bytes, 4 * k + 2)
    + 0x100_0000 * ByteAt(bytes, 4 * k + 3)
  }

  function ByteOf(w: Word, j: nat): Byte {
    match j
    case 0 => w % 0x100
    case 1 => w / 0x100 % 0x100
    case 2 => w / 0x1_0000 % 0x100
    case _ => w / 0x100_0000
  }

  /** Section 3.1: a one bit, then as few zeros as make the length 56 modulo 64. */
  function Zeros(n: nat): (z: nat)
    ensures (n + 1 + z) % 64 == 56 && z < 64
  {
    (55 - n) % 64
  }

  /** Section 3.2: then the bit length as two words, the low-order word first. */
  function RfcWords(bytes: seq<Byte>): seq<Word> {
    var padded: seq<Byte> := bytes + [0x80] + seq<Byte>(Zeros(|bytes|), _ => 0);
    var bits := 8 * |bytes|;
    seq<Word>(|padded| / 4, k requires 0 <= k < |padded| / 4 => LeWord(padded, k)) + [U(bits), U(bits / TWO32)]
  }

  /** The whole digest of section 3, as the hexadecimal string of section 3.5. */
  function RfcMd5(bytes: seq<Byte>): string {
    var m := RfcWords(bytes);
    var s := Digest(m, |m| / 16);
    Hex(BytesOf([s.a, s.b, s.c, s.d]))
  }

  function BytesOf(words: seq<Word>): (bytes: seq<Byte>)
    ensures |bytes| == 4 * |words|
  {
    if words == [] then []
    else
      var last := words[|words| - 1];
      BytesOf(words[..|words| - 1]) + [ByteOf(last, 0), ByteOf(last, 1), ByteOf(last, 2), ByteOf(last, 3)]
  }

  const HEX_TAB := "0123456789abcdef"

  function Hex(bytes: seq<Byte>): (s: string)
    ensures |s| == 2 * |bytes|
  {
    if bytes == [] then ""
    else
      var last := bytes[|bytes| - 1];
      Hex(bytes[..|bytes| - 1]) + [HEX_TAB[last / 16], HEX_TAB[last % 16]]
  }

  /** What the script's padding comes to, for a string of any length. */
  function BlockCount(n: nat): nat {
    (n + 8) / 64 + 1
  }

  function PadWords(bytes: seq<Byte>): (words: seq<Word>)
    ensures |words| == 16 * BlockCount(|bytes|)
    ensures forall k :: 0 <= k < |words| ==> words[k] == PadWord(bytes, k)
  {
    seq<Word>(16 * BlockCount(|bytes|), k requires 0 <= k < 16 * BlockCount(|bytes|) => PadWord(bytes, k))
  }

  function PadWord(bytes: seq<Byte>, k: nat): Word {
    if k == 16 * BlockCount(|bytes|) - 2 then U(8 * |bytes|) else LeWord(bytes + [0x80], k)
  }

  lemma ByteShift(j: nat)
    requires j < 4
    ensures Pow2(8 * j) == [1, 0x100, 0x1_0000, 0x100_0000][j]
  {
    Pow16();
    assert Pow2(0) == 1;
  }

  /** `|=` of a shifted byte puts it into its place in the word. */
  lemma PutByte(bytes: seq<Byte>, byte: Byte, blk: int)
    requires U(blk) == LeWord(bytes, |bytes| / 4)
    ensures U(Or(blk, Shl(byte, 8 * (|bytes| % 4)))) == LeWord(bytes + [byte], |bytes| / 4)
  {
    hide Pow2, Or;
    var j := |bytes| % 4;
    ByteShift(j);
    var low := U(blk);
    assert low < Pow2(8 * j) && low + byte * Pow2(8 * j) == LeWord(bytes + [byte], |bytes| / 4) by {
      NextByte(bytes, byte);
    }
    assert byte * Pow2(8 * j) < TWO32;
    SignedPattern(U(byte * Pow2(8 * j)));
    OrDisjoint(Shl(byte, 8 * j), blk, byte, low, 8 * j);
  }

  lemma NextByte(bytes: seq<Byte>, byte: Byte)
    ensures var unit := [1, 0x100, 0x1_0000, 0x100_0000][|bytes| % 4];
            && LeWord(bytes, |bytes| / 4) < unit
            && LeWord(bytes, |bytes| / 4) + byte * unit == LeWord(bytes + [byte], |bytes| / 4)
    ensures forall k: nat :: k != |bytes| / 4 ==> LeWord(bytes + [byte], k) == LeWord(bytes, k)
  {
    var k := |bytes| / 4;
    assert forall i: nat :: i != |bytes| ==> ByteAt(bytes + [byte], i) == ByteAt(bytes, i);
  }

  /**
   * `str2binl`: the block array filled in place. A string of 2^31 - 8 characters cannot exist;
   * the script would ask for an array of negative length.
   */
  method Str2binl(str: seq<nat>) returns (blks: array<int>)
    requires |str| + 8 < TWO31
    ensures fresh(blks)
    ensures blks.Length == 16 * BlockCount(|str|)
    ensures forall k :: 0 <= k < blks.Length ==> U(blks[k]) == PadWords(Bytes(str))[k]
  {
    hide Or, Shl, And, U, LeWord;
    ghost var bytes := Bytes(str);
    BlocksOf(|str|);
    var nblk := Sar(|str| + 8, 6) + 1;
    blks := new int[nblk * 16];
    var i := 0;
    while i < nblk * 16
      invariant 0 <= i <= nblk * 16
      invariant forall k :: 0 <= k < i ==> blks[k] == 0
    {
      blks[i] := 0;
      i := i + 1;
    }
    Blank(bytes);
    i := 0;
    while i < |str|
      invariant 0 <= i <= |str|
      invariant forall k :: 0 <= k < blks.Length ==> U(blks[k]) == LeWord(bytes[..i], k)
    {
      LowByte(str[i]);
      assert bytes[..i + 1] == bytes[..i] + [bytes[i]];
      PutByte(bytes[..i], bytes[i], blks[i / 4]);
      NextByte(bytes[..i], bytes[i]);
      blks[i / 4] := Or(blks[i / 4], Shl(And(str[i], 0xFF), (i % 4) * 8));
      i := i + 1;
    }
    assert bytes[..|str|] == bytes;
    PutByte(bytes, 0x80, blks[i / 4]);
    NextByte(bytes, 0x80);
    blks[i / 4] := Or(blks[i / 4], Shl(0x80, (i % 4) * 8));
    blks[nblk * 16 - 2] := |str| * 8;
  }

  lemma BlocksOf(n: nat)
    requires n + 8 < TWO31
    ensures Sar(n + 8, 6) + 1 == BlockCount(n)
  {
    assert Pow2(6) == 64 by {
      PowSum(2, 4);
      Pow16();
      assert Pow2(2) == 4;
    }
  }

  lemma Blank(bytes: seq<Byte>)
    ensures U(0) == 0
    ensures forall k: nat :: LeWord(bytes[..0], k) == 0
  {
  }

  lemma LowByte(code: nat)
    ensures And(code, 0xFF) == code % 256
  {
    hide And, Pow2;
    Pow16();
    AndMask(code, 8);
  }

  /** The script's padding is that of sections 3.1 and 3.2 exactly for strings below 2^29 characters. */
  lemma PaddingIsRfcIff(bytes: seq<Byte>)
    requires |bytes| + 8 < TWO31
    ensures PadWords(bytes) == RfcWords(bytes) <==> |bytes| < 0x2000_0000
  {
    hide LeWord;
    var n := |bytes|;
    var padded: seq<Byte> := bytes + [0x80] + seq<Byte>(Zeros(n), _ => 0);
    PaddedLength(n);
    ZerosChangeNothing(bytes);
    var ours, rfc := PadWords(bytes), RfcWords(bytes);
    assert |ours| == |rfc|;
    forall k | 0 <= k < |ours| - 1 ensures ours[k] == rfc[k] {
    }
    BeyondIsBlank(bytes + [0x80], |ours| - 1);
    assert ours[|ours| - 1] == 0;
    assert rfc[|ours| - 1] == U(8 * n / TWO32);
    HighWord(n);
    assert n < 0x2000_0000 ==> ours == rfc;
  }

  lemma HighWord(n: nat)
    requires n + 8 < TWO31
    ensures U(8 * n / TWO32) == 0 <==> n < 0x2000_0000
  {
  }

  lemma PaddedLength(n: nat)
    ensures n + 1 + Zeros(n) == 64 * BlockCount(n) - 8
  {
  }

  lemma ZerosChangeNothing(bytes: seq<Byte>)
    ensures forall k: nat :: LeWord(bytes + [0x80] + seq<Byte>(Zeros(|bytes|), _ => 0), k) == LeWord(bytes + [0x80], k)
  {
    var longer: seq<Byte> := bytes + [0x80] + seq<Byte>(Zeros(|bytes|), _ => 0);
    assert forall i: nat :: ByteAt(longer, i) == ByteAt(bytes + [0x80], i);
  }

  lemma BeyondIsBlank(bytes: seq<Byte>, k: nat)
    requires |bytes| <= 4 * k
    ensures LeWord(bytes, k) == 0
  {
  }

  lemma ByteBack(bytes: seq<Byte>, i: nat)
    ensures ByteOf(LeWord(bytes, i / 4), i % 4) == ByteAt(bytes, i)
  {
    var k := i / 4;
    FourBytes(ByteAt(bytes, 4 * k), ByteAt(bytes, 4 * k + 1), ByteAt(bytes, 4 * k + 2), ByteAt(bytes, 4 * k + 3));
    assert i == 4 * k + i % 4;
  }

  lemma FourBytes(b0: Byte, b1: Byte, b2: Byte, b3: Byte)
    ensures var w := b0 + 0x100 * b1 + 0x1_0000 * b2 + 0x100_0000 * b3;
            ByteOf(w, 0) == b0 && ByteOf(w, 1) == b1 && ByteOf(w, 2) == b2 && ByteOf(w, 3) == b3
  {
    var w := b0 + 0x100 * b1 + 0x1_0000 * b2 + 0x100_0000 * b3;
    assert w / 0x100 == b1 + 0x100 * b2 + 0x1_0000 * b3;
    assert w / 0x1_0000 == b2 + 0x100 * b3;
  }

  lemma LongerDiffers(a: seq<Byte>, b: seq<Byte>)
    requires |a| < |b|
    ensures ByteAt(a + [0x80], |b|) != ByteAt(b + [0x80], |b|)
  {
  }

  /** No two byte strings are padded to the same blocks. */
  lemma PaddingIsInjective(a: seq<Byte>, b: seq<Byte>)
    requires PadWords(a) == PadWords(b)
    ensures a == b
  {
    hide PadWords;
    if |a| < |b| {
      LongerDiffers(a, b);
    } else if |b| < |a| {
      LongerDiffers(b, a);
    }
    PaddedBytesAgree(a, b);
    forall i | 0 <= i < |a| ensures a[i] == b[i] {
      assert ByteAt(a + [0x80], i) == ByteAt(b + [0x80], i);
    }
  }

  lemma PaddedBytesAgree(a: seq<Byte>, b: seq<Byte>)
    requires PadWords(a) == PadWords(b)
    ensures forall i :: 0 <= i <= |a| || 0 <= i <= |b| ==> ByteAt(a + [0x80], i) == ByteAt(b + [0x80], i)
  {
    hide LeWord, ByteAt, ByteOf;
    assert |PadWords(a)| == |PadWords(b)|;
    assert BlockCount(|a|) == BlockCount(|b|);
    forall i | 0 <= i <= |a| || 0 <= i <= |b| ensures ByteAt(a + [0x80], i) == ByteAt(b + [0x80], i) {
      var k := i / 4;
      assert k < 16 * BlockCount(|a|) - 2;
      assert PadWords(a)[k] == LeWord(a + [0x80], k);
      assert PadWords(b)[k] == LeWord(b + [0x80], k);
      ByteBack(a + [0x80], i);
      ByteBack(b + [0x80], i);
    }
  }

  lemma Nibbles(x: int, j: nat)
    requires j < 4
    ensures And(Sar(x, j * 8 + 4), 0xF) == ByteOf(U(x), j) / 16
    ensures And(Sar(x, j * 8), 0xF) == ByteOf(U(x), j) % 16
  {
    hide And, Pow2, Sar;
    Pow16();
    AndMask(Sar(x, j * 8 + 4), 4);
    AndMask(Sar(x, j * 8), 4);
    ShiftedNibble(x, j);
  }

  lemma ShiftedNibble(x: int, j: nat)
    requires j < 4
    ensures U(Sar(x, j * 8 + 4)) % 16 == ByteOf(U(x), j) / 16
    ensures U(Sar(x, j * 8)) % 16 == ByteOf(U(x), j) % 16
  {
    hide Pow2;
    NibbleShift(j);
    ByteShift(j);
    var w := U(x);
    var p, m := [0x10, 0x1000, 0x10_0000, 0x1000_0000][j], [0x1000_0000, 0x10_0000, 0x1000, 0x10][j];
    SarNibble(w, p, m);
    SarNibble(w, [1, 0x100, 0x1_0000, 0x100_0000][j], m * 16);
    NibblesOfByte(w, j);
  }

  /** Below the 28th bit, the arithmetic shift and the plain quotient have the same last digit. */
  lemma SarNibble(w: Word, p: nat, m: nat)
    requires p * m == TWO32 && m % 16 == 0
    ensures U(Signed(w) / p) % 16 == (w / p) % 16
  {
    hide U;
    LastDigit(Signed(w) / p);
    if w >= TWO31 {
      SarQuotient(w, p, m);
      SubtractSixteens(w / p, m / 16);
    }
  }

  lemma SarQuotient(w: Word, p: nat, m: nat)
    requires p * m == TWO32
    ensures (w - TWO32) / p == w / p - m
  {
    var q, r := w / p, w % p;
    assert w == p * q + r;
    assert p * (q - m) == p * q - p * m;
    ModBelow(w, p);
    DivModUnique(w - TWO32, p, q - m, r);
  }

  lemma SubtractSixteens(n: int, k: int)
    ensures (n - 16 * k) % 16 == n % 16
  {
  }

  lemma LastDigit(n: int)
    ensures U(n) % 16 == n % 16
  {
  }

  lemma NibblesOfByte(w: Word, j: nat)
    requires j < 4
    ensures ByteOf(w, j) / 16 == w / [0x10, 0x1000, 0x10_0000, 0x1000_0000][j] % 16
    ensures ByteOf(w, j) % 16 == w / [1, 0x100, 0x1_0000, 0x100_0000][j] % 16
  {
    var p := [1, 0x100, 0x1_0000, 0x100_0000][j];
    SplitByte(w / p);
    TwoQuotients(w, p);
    assert ByteOf(w, j) == w / p % 0x100;
  }

  lemma SplitByte(v: nat)
    ensures v % 0x100 / 16 == v / 16 % 16 && v % 0x100 % 16 == v % 16
  {
    var q, r := v / 0x100, v % 0x100;
    DivModUnique(v, 16, 16 * q + r / 16, r % 16);
    DivModUnique(v / 16, 16, q, r / 16);
  }

  lemma TwoQuotients(w: nat, p: nat)
    requires p >= 1
    ensures w / p / 16 == w / (p * 16)
  {
    var v := w / p;
    var rest := p * (v % 16) + w % p;
    assert w == p * v + w % p;
    assert w == (p * 16) * (v / 16) + rest by {
      assert v == 16 * (v / 16) + v % 16;
    }
    ModBelow(w, p);
    ProductIsNat(p, v % 16);
    ProductIsNat(p, 15 - v % 16);
    assert p * (15 - v % 16) == p * 15 - p * (v % 16);
    DivModUnique(w, p * 16, v / 16, rest);
  }

  lemma NibbleShift(j: nat)
    requires j < 4
    ensures Pow2(j * 8 + 4) == [0x10, 0x1000, 0x10_0000, 0x1000_0000][j]
  {
    Pow16();
    PowSum(8, 4);
    PowSum(16, 4);
    PowSum(24, 4);
  }

  /** `binl2hex`: each word's bytes from the low end, each byte high digit first. */
  method Binl2hex(binarray: seq<int>) returns (str: string)
    ensures str == Hex(BytesOf(Patterns(binarray)))
  {
    hide And, Sar, ByteOf, BytesOf, U, Hex;
    str := "";
    NoHex();
    var i := 0;
    ghost var bytes := BytesOf(Patterns(binarray));
    while i < |binarray| * 4
      invariant 0 <= i <= |binarray| * 4
      invariant str == Hex(bytes[..i])
    {
      Nibbles(binarray[i / 4], i % 4);
      ByteInWords(Patterns(binarray), i);
      HexOneMore(bytes[..i], bytes[i]);
      assert bytes[..i + 1] == bytes[..i] + [bytes[i]];
      str := str + [HEX_TAB[And(Sar(binarray[i / 4], (i % 4) * 8 + 4), 0xF)]]
                 + [HEX_TAB[And(Sar(binarray[i / 4], (i % 4) * 8), 0xF)]];
      i := i + 1;
    }
    assert bytes[..|bytes|] == bytes;
  }

  function Patterns(numbers: seq<int>): (words: seq<Word>)
    ensures |words| == |numbers|
    ensures forall i :: 0 <= i < |numbers| ==> words[i] == U(numbers[i])
  {
    seq<Word>(|numbers|, i requires 0 <= i < |numbers| => U(numbers[i]))
  }

  lemma NoHex()
    ensures Hex([]) == ""
  {
  }

  lemma HexOneMore(bytes: seq<Byte>, byte: Byte)
    ensures Hex(bytes + [byte]) == Hex(bytes) + [HEX_TAB[byte / 16], HEX_TAB[byte % 16]]
  {
    assert (bytes + [byte])[..|bytes|] == bytes;
  }

  lemma {:induction false} ByteInWords(words: seq<Word>, i: nat)
    requires i < 4 * |words|
    ensures BytesOf(words)[i] == ByteOf(words[i / 4], i % 4)
  {
    var n := |words| - 1;
    if i / 4 < n {
      ByteInWords(words[..n], i);
    } else {
      assert i == 4 * n + i % 4;
    }
  }

  /** Reading the digits back. */
  function Digit(c: char): nat {
    if '0' <= c <= '9' then c as int - '0' as int else if 'a' <= c <= 'f' then c as int - 'a' as int + 10 else 0
  }

  function Unhex(s: string): (bytes: seq<nat>)
  {
    if |s| < 2 then []
    else Unhex(s[..|s| - 2]) + [16 * Digit(s[|s| - 2]) + Digit(s[|s| - 1])]
  }

  lemma DigitBack(d: nat)
    requires d < 16
    ensures Digit(HEX_TAB[d]) == d
  {
  }

  lemma {:induction false} UnhexHex(bytes: seq<Byte>)
    ensures Unhex(Hex(bytes)) == bytes
  {
    hide Digit;
    if bytes != [] {
      var n := |bytes| - 1;
      UnhexHex(bytes[..n]);
      DigitBack(bytes[n] / 16);
      DigitBack(bytes[n] % 16);
      assert Hex(bytes)[..|Hex(bytes)| - 2] == Hex(bytes[..n]);
    }
  }

  lemma WordBack(w: Word)
    ensures LeWord([ByteOf(w, 0), ByteOf(w, 1), ByteOf(w, 2), ByteOf(w, 3)], 0) == w
  {
    assert w / 0x1_0000 == w / 0x100 / 0x100;
    assert w / 0x100_0000 == w / 0x100 / 0x100 / 0x100;
    Recombine(w, w / 0x100, w / 0x100 / 0x100, w / 0x100 / 0x100 / 0x100);
  }

  lemma Recombine(w: nat, w1: nat, w2: nat, w3: nat)
    requires w1 == w / 0x100 && w2 == w1 / 0x100 && w3 == w2 / 0x100
    ensures w == w % 0x100 + 0x100 * (w1 % 0x100) + 0x1_0000 * (w2 % 0x100) + 0x100_0000 * w3
  {
  }

  /** The hexadecimal form of some words determines them: decoding gives every word back. */
  lemma HexDecodes(words: seq<Word>, k: nat)
    requires k < |words|
    ensures Unhex(Hex(BytesOf(words))) == BytesOf(words)
    ensures LeWord(BytesOf(words), k) == words[k]
  {
    UnhexHex(BytesOf(words));
    WordDecodes(words, k);
  }

  lemma WordDecodes(words: seq<Word>, k: nat)
    requires k < |words|
    ensures LeWord(BytesOf(words), k) == words[k]
  {
    hide BytesOf, ByteOf;
    var w := words[k];
    forall j: nat | j < 4 ensures ByteAt(BytesOf(words), 4 * k + j) == ByteOf(w, j) {
      ByteInWords(words, 4 * k + j);
      assert (4 * k + j) / 4 == k && (4 * k + j) % 4 == j;
    }
    assert ByteAt(BytesOf(words), 4 * k + 0) == ByteOf(w, 0);
    WordBack(w);
  }

  lemma {:induction false} DigestOfPatterns(x: seq<int>, y: seq<int>, n: nat)
    requires |x| == |y| && forall k :: 0 <= k < |x| ==> U(x[k]) == U(y[k])
    ensures Digest(x, n) == Digest(y, n)
  {
    hide Compress, U;
    if n > 0 {
      DigestOfPatterns(x, y, n - 1);
      assert Block(x, 16 * (n - 1)) == Block(y, 16 * (n - 1));
    }
  }

  /** `hexMD5`: for every string below 2^29 characters, the MD5 digest of its bytes. */
  method HexMd5(str: seq<nat>) returns (hex: string)
    requires |str| + 8 < TWO31
    ensures |str| < 0x2000_0000 ==> hex == RfcMd5(Bytes(str))
  {
    hide Digest, Hex, BytesOf, U, LeWord;
    var blks := Str2binl(str);
    var a, b, c, d := CoreMD5(blks[..]);
    hex := Binl2hex([a, b, c, d]);
    ghost var m := PadWords(Bytes(str));
    WordsAreTheirPatterns(m);
    DigestOfPatterns(blks[..], m, |m| / 16);
    PaddingIsRfcIff(Bytes(str));
    assert Patterns([a, b, c, d]) == [U(a), U(b), U(c), U(d)];
  }

  lemma WordsAreTheirPatterns(words: seq<Word>)
    ensures forall k :: 0 <= k < |words| ==> U(words[k]) == words[k]
  {
  }
}
