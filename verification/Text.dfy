/** The string operations of Python that the gateway's wire format is built from. */
module Text {

  /** The position of the first `c`, or the length when there is none. */
  function Find(s: string, c: char): (i: nat)
    ensures i <= |s|
    ensures c !in s[..i]
    ensures i < |s| ==> s[i] == c
    ensures c in s <==> i < |s|
  {
    if s == "" || s[0] == c then 0 else 1 + Find(s[1..], c)
  }

  /** `s.split(c)` */
  function Split(s: string, c: char): (parts: seq<string>)
    ensures |parts| >= 1
  {
    if s == "" then [""]
    else
      var more := Split(s[1..], c);
      if s[0] == c then [""] + more else [[s[0]] + more[0]] + more[1..]
  }

  /** `s.split(c, most)` */
  function SplitAtMost(s: string, c: char, most: nat): (parts: seq<string>)
    ensures 1 <= |parts| <= most + 1
  {
    if most == 0 || s == "" then [s]
    else if s[0] == c then [""] + SplitAtMost(s[1..], c, most - 1)
    else
      var more := SplitAtMost(s[1..], c, most);
      [[s[0]] + more[0]] + more[1..]
  }

  /** `c.join(parts)` */
  function Join(parts: seq<string>, c: char): string
    requires |parts| >= 1
  {
    if |parts| == 1 then parts[0] else parts[0] + [c] + Join(parts[1..], c)
  }

  lemma {:induction false} JoinSplit(s: string, c: char)
    ensures Join(Split(s, c), c) == s
  {
    if s != "" {
      JoinSplit(s[1..], c);
      var more := Split(s[1..], c);
      if s[0] == c {
        assert Split(s, c)[1..] == more;
      } else {
        assert Split(s, c)[1..] == more[1..];
      }
    }
  }

  function Fields(a: string, c: char, b: string): string {
    a + [c] + b
  }

  lemma {:induction false} SplitHead(a: string, c: char, b: string)
    requires c !in a
    ensures Split(Fields(a, c, b), c) == [a] + Split(b, c)
  {
    if a == "" {
      assert Fields(a, c, b)[1..] == b;
    } else {
      assert Fields(a, c, b)[1..] == Fields(a[1..], c, b);
      SplitHead(a[1..], c, b);
      assert ([a[1..]] + Split(b, c))[1..] == Split(b, c);
      assert [a[0]] + a[1..] == a;
      assert Fields(a, c, b)[0] == a[0];
    }
  }

  lemma {:induction false} SplitHeadAtMost(a: string, c: char, b: string, most: nat)
    requires c !in a
    ensures SplitAtMost(Fields(a, c, b), c, most + 1) == [a] + SplitAtMost(b, c, most)
  {
    if a == "" {
      assert Fields(a, c, b)[1..] == b;
    } else {
      assert Fields(a, c, b)[1..] == Fields(a[1..], c, b);
      SplitHeadAtMost(a[1..], c, b, most);
      assert ([a[1..]] + SplitAtMost(b, c, most))[1..] == SplitAtMost(b, c, most);
      assert [a[0]] + a[1..] == a;
      assert Fields(a, c, b)[0] == a[0];
    }
  }

  lemma {:induction false} SplitNone(a: string, c: char)
    requires c !in a
    ensures Split(a, c) == [a]
  {
    if a != "" {
      SplitNone(a[1..], c);
      assert [a[0]] + a[1..] == a;
    }
  }

  /** The first two fields of a line come off whole ... */
  lemma SplitThree(x: string, y: string, z: string, c: char)
    requires c !in x && c !in y
    ensures Split(Fields(x, c, Fields(y, c, z)), c) == [x, y] + Split(z, c)
  {
    SplitHead(x, c, Fields(y, c, z));
    SplitHead(y, c, z);
  }

  /** ... and with at most two cuts a separator in the third is not special. */
  lemma SplitThreeAtMost(x: string, y: string, z: string, c: char)
    requires c !in x && c !in y
    ensures SplitAtMost(Fields(x, c, Fields(y, c, z)), c, 2) == [x, y, z]
  {
    SplitHeadAtMost(x, c, Fields(y, c, z), 1);
    SplitHeadAtMost(y, c, z, 0);
  }

  /** `s.replace(a, b)` for single characters. */
  function Replace(s: string, a: char, b: char): (r: string)
    ensures |r| == |s|
    ensures forall i | 0 <= i < |s| :: r[i] == if s[i] == a then b else s[i]
  {
    seq(|s|, i requires 0 <= i < |s| => if s[i] == a then b else s[i])
  }

  /** The characters `str.strip` removes. */
  predicate IsSpace(c: char) {
    var u := c as int;
    0x09 <= u <= 0x0D || 0x1C <= u <= 0x20 || u == 0x85 || u == 0xA0 || u == 0x1680
    || 0x2000 <= u <= 0x200A || u == 0x2028 || u == 0x2029 || u == 0x202F || u == 0x205F || u == 0x3000
  }

  function StripLeft(s: string): string {
    if s != "" && IsSpace(s[0]) then StripLeft(s[1..]) else s
  }

  function StripRight(s: string): string {
    if s != "" && IsSpace(s[|s| - 1]) then StripRight(s[..|s| - 1]) else s
  }

  function Strip(s: string): string {
    StripRight(StripLeft(s))
  }

  predicate Blank(s: string) {
    forall i | 0 <= i < |s| :: IsSpace(s[i])
  }

  lemma {:induction false} StripRightBlank(s: string)
    ensures StripRight(s) == "" <==> Blank(s)
    ensures StripRight(StripRight(s)) == StripRight(s)
  {
    if s != "" && IsSpace(s[|s| - 1]) {
      StripRightBlank(s[..|s| - 1]);
    }
  }

  /** A prefix that ends in a visible character is not touched by stripping on the right. */
  lemma {:induction false} StripRightKeepsPrefix(a: string, b: string)
    requires a != "" && !IsSpace(a[|a| - 1])
    ensures StripRight(a + b) == a + StripRight(b)
  {
    var s := a + b;
    if b != "" && IsSpace(b[|b| - 1]) {
      assert s[..|s| - 1] == a + b[..|b| - 1];
      StripRightKeepsPrefix(a, b[..|b| - 1]);
    } else if b == "" {
      assert s == a;
    }
  }

  /** A visible first and last character protect a line from `strip`. */
  lemma StripPrefixed(a: string, b: string)
    requires a != "" && !IsSpace(a[0]) && !IsSpace(a[|a| - 1])
    ensures Strip(a + b) == a + StripRight(b)
  {
    StripRightKeepsPrefix(a, b);
    assert (a + b)[0] == a[0];
  }

  lemma {:induction false} StripLeftBlank(s: string)
    ensures StripLeft(s) == "" <==> Blank(s)
    ensures StripLeft(s) != "" ==> !IsSpace(StripLeft(s)[0])
    ensures !Blank(s) ==> !Blank(StripLeft(s))
  {
    if s != "" && IsSpace(s[0]) {
      StripLeftBlank(s[1..]);
      assert Blank(s) <==> Blank(s[1..]) by {
        if Blank(s[1..]) {
          forall i | 0 <= i < |s| ensures IsSpace(s[i]) {
            assert i > 0 ==> s[i] == s[1..][i - 1];
          }
        }
      }
    }
  }

  lemma StripBlank(s: string)
    ensures Strip(s) == "" <==> Blank(s)
  {
    StripLeftBlank(s);
    StripRightBlank(StripLeft(s));
  }

  lemma {:induction false} StripRightShortens(s: string)
    ensures |StripRight(s)| <= |s|
    ensures |StripRight(s)| == |s| ==> StripRight(s) == s
  {
    if s != "" && IsSpace(s[|s| - 1]) {
      StripRightShortens(s[..|s| - 1]);
    }
  }

  lemma StripTwice(s: string)
    ensures Strip(Strip(s)) == Strip(s)
  {
    var t := StripLeft(s);
    StripLeftBlank(s);
    StripRightBlank(t);
    if t != "" {
      StripRightKeepsPrefix([t[0]], t[1..]);
      assert [t[0]] + t[1..] == t;
    }
  }

  lemma {:induction false} StripLeftCuts(s: string) returns (i: nat)
    ensures i <= |s| && StripLeft(s) == s[i..] && Blank(s[..i])
  {
    i := 0;
    if s != "" && IsSpace(s[0]) {
      var j := StripLeftCuts(s[1..]);
      i := j + 1;
      assert s[1..][j..] == s[i..];
      assert s[..i] == [s[0]] + s[1..][..j];
    }
  }

  lemma {:induction false} StripRightCuts(s: string) returns (j: nat)
    ensures j <= |s| && StripRight(s) == s[..j] && Blank(s[j..])
    ensures j > 0 ==> !IsSpace(s[j - 1])
  {
    j := |s|;
    if s != "" && IsSpace(s[|s| - 1]) {
      var init := s[..|s| - 1];
      j := StripRightCuts(init);
      assert init[..j] == s[..j];
      assert s[j..] == init[j..] + [s[|s| - 1]];
    }
  }

  /** The text begins and ends visibly, or is empty. */
  predicate IsTrimmed(s: string) {
    s != "" ==> !IsSpace(s[0]) && !IsSpace(s[|s| - 1])
  }

  lemma StripCuts(s: string) returns (a: string, b: string)
    ensures s == a + Strip(s) + b && Blank(a) && Blank(b) && IsTrimmed(Strip(s))
  {
    hide StripLeft, StripRight, Blank, IsSpace;
    var i := StripLeftCuts(s);
    var left := s[i..];
    var j := StripRightCuts(left);
    a, b := s[..i], left[j..];
    assert left == left[..j] + b && s == a + left;
    StripLeftBlank(s);
  }

  /** Stripping removes exactly the white space around a text. */
  lemma StripIff(s: string, t: string)
    ensures Strip(s) == t <==> IsTrimmed(t) && exists a, b :: Blank(a) && Blank(b) && s == a + t + b
  {
    hide Strip, Blank, IsTrimmed;
    var _, _ := StripCuts(s);
    if IsTrimmed(t) && exists a, b :: Blank(a) && Blank(b) && s == a + t + b {
      var a, b :| Blank(a) && Blank(b) && s == a + t + b;
      Surrounded(a, t, b);
    }
  }

  lemma Surrounded(a: string, t: string, b: string)
    requires Blank(a) && Blank(b) && IsTrimmed(t)
    ensures Strip(a + t + b) == t
  {
    if t == "" {
      StripBlank(a + t + b);
    } else {
      SkipBlank(a, t + b);
      assert a + (t + b) == a + t + b;
      assert (t + b)[0] == t[0];
      StripRightKeepsPrefix(t, b);
      StripRightBlank(b);
    }
  }

  lemma {:induction false} SkipBlank(a: string, b: string)
    requires Blank(a) && b != "" && !IsSpace(b[0])
    ensures StripLeft(a + b) == b
  {
    if a == "" {
      assert a + b == b;
    } else {
      assert (a + b)[1..] == a[1..] + b;
      SkipBlank(a[1..], b);
    }
  }

  /** The first part of a split is everything before the first separator. */
  lemma {:induction false} SplitFirst(s: string, c: char)
    ensures Split(s, c)[0] == s[..Find(s, c)]
  {
    if s != "" && s[0] != c {
      SplitFirst(s[1..], c);
      assert s[..1 + Find(s[1..], c)] == [s[0]] + s[1..][..Find(s[1..], c)];
    }
  }
}
