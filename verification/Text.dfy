/** Characters, lines and the scans of src/ui.c over multibyte text. */
module Text {
  import opened Bytes

  // ----- Characters

  predicate Continues(b: byte) {
    0x80 <= b <= 0xBF
  }

  /** `mblen` in a UTF-8 locale, by the table of section 4 of RFC 3629: the length of the character
      at the front of `s`, or 0 where `mblen` gives 0 (a null) or -1 (nothing valid or complete). */
  function CharLength(s: seq<byte>): (n: nat)
    ensures n <= |s| && n <= 4
  {
    if |s| == 0 then 0
    else if 0x01 <= s[0] <= 0x7F then 1
    else if |s| < 2 then 0
    else if 0xC2 <= s[0] <= 0xDF then if Continues(s[1]) then 2 else 0
    else if |s| < 3 || !Continues(s[2]) then 0
    else if s[0] == 0xE0 then if 0xA0 <= s[1] <= 0xBF then 3 else 0
    else if s[0] == 0xED then if 0x80 <= s[1] <= 0x9F then 3 else 0
    else if 0xE1 <= s[0] <= 0xEF then if Continues(s[1]) then 3 else 0
    else if |s| < 4 || !Continues(s[3]) then 0
    else if s[0] == 0xF0 then if 0x90 <= s[1] <= 0xBF then 4 else 0
    else if 0xF1 <= s[0] <= 0xF3 then if Continues(s[1]) then 4 else 0
    else if s[0] == 0xF4 then if 0x80 <= s[1] <= 0x8F then 4 else 0
    else 0
  }

  /** A character's length depends on its own bytes only. */
  lemma OwnBytesDecide(s: seq<byte>, t: seq<byte>)
    requires CharLength(s) > 0
    ensures CharLength(s[..CharLength(s)] + t) == CharLength(s)
  {
  }

  predicate IsChar(c: seq<byte>) {
    c != [] && CharLength(c) == |c|
  }

  /** The code points that have an encoding; a null byte is no character. */
  predicate IsScalar(v: nat) {
    0 < v < 0xD800 || 0xDFFF < v <= 0x10FFFF
  }

  /** The encoding of a code point, by section 3 of RFC 3629. */
  function Encode(v: nat): seq<byte>
    requires IsScalar(v)
  {
    if v < 0x80 then [v]
    else if v < 0x800 then [0xC0 + v / 64, 0x80 + v % 64]
    else if v < 0x1_0000 then [0xE0 + v / 4096, 0x80 + v / 64 % 64, 0x80 + v % 64]
    else [0xF0 + v / 0x4_0000, 0x80 + v / 4096 % 64, 0x80 + v / 64 % 64, 0x80 + v % 64]
  }

  /** The digit that a byte holds above its lowest value. */
  function Digit(b: byte, lowest: int): int {
    b - lowest
  }

  /** The code point whose digits the bytes of a character hold. */
  function CodePoint(c: seq<byte>): (v: nat)
    requires IsChar(c)
    ensures IsScalar(v)
  {
    if |c| == 1 then c[0]
    else if |c| == 2 then Digit(c[0], 0xC0) * 64 + Digit(c[1], 0x80)
    else if |c| == 3 then (Digit(c[0], 0xE0) * 64 + Digit(c[1], 0x80)) * 64 + Digit(c[2], 0x80)
    else ((Digit(c[0], 0xF0) * 64 + Digit(c[1], 0x80)) * 64 + Digit(c[2], 0x80)) * 64 + Digit(c[3], 0x80)
  }

  /** Dividing takes the last digits off, one by one. */
  lemma LastDigits(x: nat, a: nat, b: nat, d: nat)
    requires a < 64 && b < 64 && d < 64
    ensures (x * 64 + a) / 64 == x && (x * 64 + a) % 64 == a
    ensures var v := (x * 64 + a) * 64 + b;
      v / 4096 == x && v / 64 % 64 == a && v % 64 == b
    ensures var v := ((x * 64 + a) * 64 + b) * 64 + d;
      v / 0x4_0000 == x && v / 4096 % 64 == a && v / 64 % 64 == b && v % 64 == d
  {
  }

  /** A character is the encoding of its code point. */
  lemma CharIsEncoded(c: seq<byte>)
    requires IsChar(c)
    ensures Encode(CodePoint(c)) == c
  {
    if |c| == 2 {
      LastDigits(Digit(c[0], 0xC0), Digit(c[1], 0x80), 0, 0);
    } else if |c| == 3 {
      ThreeBytes(c);
    } else if |c| == 4 {
      FourBytes(c);
    }
  }

  lemma ThreeBytes(c: seq<byte>)
    requires IsChar(c) && |c| == 3
    ensures 0x800 <= CodePoint(c) < 0x1_0000 && Encode(CodePoint(c)) == c
  {
    var x, a, b := Digit(c[0], 0xE0), Digit(c[1], 0x80), Digit(c[2], 0x80);
    assert CodePoint(c) == (x * 64 + a) * 64 + b && x < 16 && (x == 0 ==> a >= 32);
    LastDigits(x, a, b, 0);
    assert c == [0xE0 + x, 0x80 + a, 0x80 + b];
  }

  lemma FourBytes(c: seq<byte>)
    requires IsChar(c) && |c| == 4
    ensures 0x1_0000 <= CodePoint(c) && Encode(CodePoint(c)) == c
  {
    var x, a, b, d := Digit(c[0], 0xF0), Digit(c[1], 0x80), Digit(c[2], 0x80), Digit(c[3], 0x80);
    assert CodePoint(c) == ((x * 64 + a) * 64 + b) * 64 + d && (x == 0 ==> a >= 16);
    LastDigits(x, a, b, d);
    assert c == [0xF0 + x, 0x80 + a, 0x80 + b, 0x80 + d];
  }

  /** The digits of a number. */
  lemma Digits(v: nat)
    ensures v == v / 64 * 64 + v % 64 && v / 64 == v / 4096 * 64 + v / 64 % 64
    ensures v / 4096 == v / 0x4_0000 * 64 + v / 4096 % 64
  {
  }

  /** Every encoding is a character, that of its code point. */
  lemma EncodedIsChar(v: nat)
    requires IsScalar(v)
    ensures IsChar(Encode(v)) && CodePoint(Encode(v)) == v
  {
    var c := Encode(v);
    Digits(v);
    if 0x800 <= v < 0x1_0000 {
      var x, a := v / 4096, v / 64 % 64;
      assert (x == 0 ==> a >= 32) && (x == 13 ==> a < 32) && x < 16;
    } else if 0x1_0000 <= v {
      var x, a := v / 0x4_0000, v / 4096 % 64;
      assert (x == 0 ==> a >= 16) && (x == 4 ==> a < 16) && x <= 4;
    }
  }

  /** The front of a text is a character exactly when the text starts with one. */
  lemma FrontIs(s: seq<byte>, c: seq<byte>)
    requires IsChar(c)
    ensures c <= s <==> CharLength(s) > 0 && s[..CharLength(s)] == c
  {
    if c <= s {
      OwnBytesDecide(c, s[|c|..]);
      assert c[..|c|] == c && s == c + s[|c|..];
    }
  }

  /** The front of a text is a character exactly when it is the encoding of a code point, and then
      it is that one: so overlong forms, surrogates and numbers beyond 0x10FFFF are none. */
  lemma CharLengthIff(s: seq<byte>, v: nat)
    requires IsScalar(v)
    ensures Encode(v) <= s <==> CharLength(s) > 0 && CodePoint(s[..CharLength(s)]) == v
  {
    var c, n := Encode(v), CharLength(s);
    EncodedIsChar(v);
    FrontIs(s, c);
    if n > 0 && CodePoint(s[..n]) == v {
      CharIsEncoded(s[..n]);
    }
  }

  /** The characters of the decodable prefix of `s`, where every scan of the program stops. */
  function Chars(s: seq<byte>): (cs: seq<seq<byte>>)
    decreases |s|
  {
    var n := CharLength(s);
    if n == 0 then [] else [s[..n]] + Chars(s[n..])
  }

  /** The byte offset of character `k`. */
  function Offset(cs: seq<seq<byte>>, k: nat): nat
    requires k <= |cs|
  {
    if k == 0 then 0 else Offset(cs, k - 1) + |cs[k - 1]|
  }

  lemma {:induction false} OffsetIs(cs: seq<seq<byte>>, k: nat)
    requires k <= |cs|
    ensures Offset(cs, k) == |Concat(cs[..k])|
  {
    if k > 0 {
      OffsetIs(cs, k - 1);
      assert cs[..k] == cs[..k - 1] + [cs[k - 1]];
      ConcatAppend(cs[..k - 1], [cs[k - 1]]);
      assert Concat([cs[k - 1]]) == cs[k - 1] + [];
    }
  }

  predicate AllChars(cs: seq<seq<byte>>) {
    cs == [] || (IsChar(cs[0]) && AllChars(cs[1..]))
  }

  lemma CharsCons(c: seq<byte>, rest: seq<byte>)
    requires IsChar(c)
    ensures Chars(c + rest) == [c] + Chars(rest)
  {
    assert c[..|c|] == c;
    OwnBytesDecide(c, rest);
    assert (c + rest)[..|c|] == c && (c + rest)[|c|..] == rest;
  }

  /** Characters put end to end decode to themselves. */
  lemma {:induction false} CharsOf(cs: seq<seq<byte>>, t: seq<byte>)
    requires AllChars(cs)
    ensures Chars(Concat(cs) + t) == cs + Chars(t)
  {
    if cs == [] {
      assert [] + t == t;
    } else {
      CharsOf(cs[1..], t);
      CharsCons(cs[0], Concat(cs[1..]) + t);
      Assoc(cs[0], Concat(cs[1..]), t);
      SplitFirst(cs, Chars(t));
    }
  }

  lemma SplitFirst(cs: seq<seq<byte>>, t: seq<seq<byte>>)
    requires cs != []
    ensures [cs[0]] + (cs[1..] + t) == cs + t
  {
  }

  lemma CharsRest(s: seq<byte>)
    requires Chars(s) != []
    ensures var n := |Chars(s)[0]|;
      0 < n <= |s| && Chars(s)[0] == s[..n] && Chars(s)[1..] == Chars(s[n..]) && IsChar(s[..n])
  {
    OwnBytesDecide(s, []);
    assert s[..CharLength(s)] + [] == s[..CharLength(s)];
  }

  lemma {:induction false} CharsAreChars(s: seq<byte>)
    ensures AllChars(Chars(s))
    decreases |s|
  {
    if Chars(s) != [] {
      CharsRest(s);
      CharsAreChars(s[|Chars(s)[0]|..]);
    }
  }

  /** The characters found make up a prefix of the text, and behind them there is no other one. */
  lemma {:induction false} CharsArePrefix(s: seq<byte>)
    ensures var n := |Concat(Chars(s))|; n <= |s| && s[..n] == Concat(Chars(s)) && Chars(s[n..]) == []
    decreases |s|
  {
    var cs := Chars(s);
    if cs == [] {
      assert s[0..] == s;
    } else {
      CharsRest(s);
      CharsArePrefix(s[|cs[0]|..]);
      assert Concat(cs) == cs[0] + Concat(cs[1..]);
      JoinFront(s, cs[0], Concat(cs[1..]));
    }
  }

  lemma JoinFront(s: seq<byte>, a: seq<byte>, b: seq<byte>)
    requires |a| + |b| <= |s| && s[..|a|] == a && s[|a|..][..|b|] == b
    ensures s[..|a + b|] == a + b && s[|a + b|..] == s[|a|..][|b|..]
  {
  }

  lemma {:induction false} CharsFromHere(cs: seq<seq<byte>>, k: nat)
    requires AllChars(cs) && k <= |cs|
    ensures AllChars(cs[k..])
  {
    if k == 0 {
      assert cs[0..] == cs;
    } else {
      CharsFromHere(cs[1..], k - 1);
      assert cs[1..][k - 1..] == cs[k..];
    }
  }

  lemma SplitFront(s: seq<byte>, a: seq<byte>, b: seq<byte>)
    requires |a + b| <= |s| && s[..|a + b|] == a + b
    ensures s[..|a|] == a && s[|a|..] == b + s[|a + b|..] && s[|a|..|a + b|] == b
  {
    assert s[..|a|] == (a + b)[..|a|];
    assert s == s[..|a + b|] + s[|a + b|..];
  }

  lemma ConcatSplit(cs: seq<seq<byte>>, k: nat)
    requires k <= |cs|
    ensures Concat(cs) == Concat(cs[..k]) + Concat(cs[k..])
  {
    ConcatAppend(cs[..k], cs[k..]);
    assert cs == cs[..k] + cs[k..];
  }

  /** Decoding from the offset of character `k` gives the characters from `k` on. */
  lemma CharsFrom(s: seq<byte>, k: nat)
    requires k <= |Chars(s)|
    ensures Offset(Chars(s), k) <= |s|
    ensures Chars(s[Offset(Chars(s), k)..]) == Chars(s)[k..]
  {
    var cs := Chars(s);
    CharsArePrefix(s);
    CharsAreChars(s);
    CharsFromHere(cs, k);
    ConcatSplit(cs, k);
    OffsetIs(cs, k);
    SplitFront(s, Concat(cs[..k]), Concat(cs[k..]));
    CharsOf(cs[k..], s[|Concat(cs)|..]);
  }

  /** One step of a scan standing at the offset of character `k`: it goes on to the next one exactly
      when there is one. */
  lemma ScanStep(s: seq<byte>, k: nat)
    requires k <= |Chars(s)|
    ensures var cs, i := Chars(s), Offset(Chars(s), k);
      && i <= |s|
      && (CharLength(s[i..]) > 0 <==> k < |cs|)
      && (i == |s| ==> k == |cs|)
      && (k < |cs| ==> |cs[k]| == CharLength(s[i..]) && Offset(cs, k + 1) == i + CharLength(s[i..]))
  {
    CharsFrom(s, k);
  }

  // ----- The scans

  /** Character `k` is the first to start behind `cursor`, or `k` is the end of the characters. */
  predicate IsNext(cs: seq<seq<byte>>, cursor: nat, k: nat) {
    && k <= |cs|
    && (k < |cs| ==> Offset(cs, k) > cursor)
    && (k > 0 ==> Offset(cs, k - 1) <= cursor)
  }

  /** Character `k` is the last to start before `cursor`, or `k` is 0. */
  predicate IsPrev(cs: seq<seq<byte>>, cursor: nat, k: nat) {
    && k <= |cs|
    && (k > 0 ==> k < |cs| && Offset(cs, k) < cursor)
    && (k + 1 < |cs| ==> Offset(cs, k + 1) >= cursor)
  }

  method NextChar(s: seq<byte>, cursor: nat) returns (offset: int)
    ensures 0 <= cursor + offset <= |s|
    ensures exists k :: IsNext(Chars(s), cursor, k) && cursor + offset == Offset(Chars(s), k)
  {
    var i := 0;
    ghost var k := 0;
    while i <= cursor && i < |s|
      invariant k <= |Chars(s)| && i == Offset(Chars(s), k) && i <= |s|
      invariant k > 0 ==> Offset(Chars(s), k - 1) <= cursor
    {
      ScanStep(s, k);
      var len := CharLength(s[i..]);
      if len < 1 {
        break;
      }
      i := i + len;
      k := k + 1;
    }
    ScanStep(s, k);
    offset := i - cursor;
    assert IsNext(Chars(s), cursor, k);
  }

  /** Where the scan for the previous character ends: `next` characters passed. */
  lemma PrevFound(cs: seq<seq<byte>>, cursor: nat, next: nat)
    requires next <= |cs| && (next > 1 ==> Offset(cs, next - 1) < cursor)
    requires next == |cs| || Offset(cs, next) >= cursor
    ensures IsPrev(cs, cursor, if next == 0 then 0 else next - 1)
  {
  }

  method PrevChar(s: seq<byte>, cursor: nat) returns (offset: int)
    ensures 0 <= cursor + offset <= |s|
    ensures exists k :: IsPrev(Chars(s), cursor, k) && cursor + offset == Offset(Chars(s), k)
  {
    var prev, i := 0, 0;
    ghost var k := 0;
    ghost var next := 0;
    while i < cursor && i < |s|
      invariant next <= |Chars(s)| && i == Offset(Chars(s), next) && i <= |s|
      invariant k == (if next == 0 then 0 else next - 1) && prev == Offset(Chars(s), k)
      invariant next > 1 ==> prev < cursor
    {
      ScanStep(s, next);
      var len := CharLength(s[i..]);
      if len < 1 {
        break;
      }
      prev := i;
      i := i + len;
      k := next;
      next := next + 1;
    }
    ScanStep(s, next);
    ScanStep(s, k);
    PrevFound(Chars(s), cursor, next);
    offset := prev - cursor;
  }

  method CountChars(s: seq<byte>) returns (chars: nat)
    ensures chars == |Chars(s)|
  {
    var i := 0;
    chars := 0;
    while i < |s|
      invariant chars <= |Chars(s)| && i == Offset(Chars(s), chars) && i <= |s|
    {
      ScanStep(s, chars);
      var len := CharLength(s[i..]);
      if len < 1 {
        break;
      }
      i := i + len;
      chars := chars + 1;
    }
    ScanStep(s, chars);
  }

  lemma {:induction false} OffsetsAscend(cs: seq<seq<byte>>, j: nat, k: nat)
    requires j <= k <= |cs|
    ensures Offset(cs, j) <= Offset(cs, k)
  {
    if j < k {
      OffsetsAscend(cs, j, k - 1);
    }
  }

  lemma {:induction false} CharAt(cs: seq<seq<byte>>, k: nat)
    requires AllChars(cs) && k < |cs|
    ensures IsChar(cs[k])
  {
    if k > 0 {
      CharAt(cs[1..], k - 1);
    }
  }

  lemma {:induction false} OffsetsRise(cs: seq<seq<byte>>, j: nat, k: nat)
    requires AllChars(cs) && j < k <= |cs|
    ensures Offset(cs, j) < Offset(cs, k)
  {
    CharAt(cs, k - 1);
    if j < k - 1 {
      OffsetsRise(cs, j, k - 1);
    }
  }

  /** The first of the first `n` characters that starts at `begin` or behind it, or `n`. */
  function IndexFrom(cs: seq<seq<byte>>, begin: nat, n: nat): (k: nat)
    requires n <= |cs|
    ensures k <= n
  {
    if n == 0 then 0 else if Offset(cs, n - 1) < begin then n else IndexFrom(cs, begin, n - 1)
  }

  lemma {:induction false} IndexFromIs(cs: seq<seq<byte>>, begin: nat, n: nat, k: nat)
    requires k < n <= |cs|
    ensures k < IndexFrom(cs, begin, n) <==> Offset(cs, k) < begin
  {
    if Offset(cs, n - 1) < begin {
      OffsetsAscend(cs, k, n - 1);
    } else if k < n - 1 {
      IndexFromIs(cs, begin, n - 1, k);
    }
  }

  /** The bytes from `begin` up to the end of the next `chars` characters that start there or behind. */
  function BytesFrom(cs: seq<seq<byte>>, begin: nat, chars: nat): int {
    (if chars == 0 then 0 else Offset(cs, Min(IndexFrom(cs, begin, |cs|) + chars, |cs|))) - begin
  }

  /** Where the count ends: `k` characters passed, `j` of them counted. */
  lemma Counted(cs: seq<seq<byte>>, begin: nat, chars: nat, k: nat, j: nat)
    requires k <= |cs| && j <= chars && (k == |cs| || j == chars) && (chars == 0 ==> k == 0)
    requires var b := IndexFrom(cs, begin, |cs|); j == if k < b then 0 else k - b
    ensures Offset(cs, k) - begin == BytesFrom(cs, begin, chars)
  {
  }

  /** A negative result stands for the huge one that it wraps to. */
  method CountBytes(s: seq<byte>, begin: nat, chars: nat) returns (bytes: int)
    ensures bytes == BytesFrom(Chars(s), begin, chars)
  {
    var i, j := 0, 0;
    ghost var k := 0;
    ghost var cs := Chars(s);
    ghost var b := IndexFrom(cs, begin, |cs|);
    while i < |s| && j < chars
      invariant k <= |cs| && i == Offset(cs, k) && i <= |s|
      invariant j <= chars && j == if k < b then 0 else k - b
      invariant chars == 0 ==> k == 0
    {
      ScanStep(s, k);
      var len := CharLength(s[i..]);
      if len < 1 {
        break;
      }
      IndexFromIs(cs, begin, |cs|, k);
      if i >= begin {
        j := j + 1;
      }
      i := i + len;
      k := k + 1;
    }
    ScanStep(s, k);
    Counted(cs, begin, chars, k, j);
    bytes := i - begin;
  }

  /** From the start of a character, that character is the first. */
  lemma IndexFromStart(cs: seq<seq<byte>>, k: nat)
    requires AllChars(cs) && k <= |cs|
    ensures IndexFrom(cs, Offset(cs, k), |cs|) == k
  {
    var i := IndexFrom(cs, Offset(cs, k), |cs|);
    if i < k {
      OffsetsRise(cs, i, k);
      IndexFromIs(cs, Offset(cs, k), |cs|, i);
    } else if i > k {
      IndexFromIs(cs, Offset(cs, k), |cs|, k);
    }
  }

  // ----- Lines

  /** `string_lines` for a text of `chars` characters. */
  function Lines(chars: nat, width: nat): nat
    requires width > 0
  {
    if chars == 0 then 0 else (chars - 1) / width + 1
  }

  method StringLines(s: seq<byte>, width: nat) returns (lines: nat)
    requires width > 0
    ensures lines == Lines(|Chars(s)|, width)
  {
    var chars := CountChars(s);
    lines := if chars == 0 then 0 else (chars - 1) / width + 1;
  }

  /** The character line `l` starts with: each line takes up to `width` characters. */
  function LineStart(chars: nat, width: nat, l: nat): (c: nat)
    ensures c <= chars
  {
    if l == 0 then 0 else Min(LineStart(chars, width, l - 1) + width, chars)
  }

  function Line(cs: seq<seq<byte>>, width: nat, l: nat): seq<seq<byte>> {
    cs[LineStart(|cs|, width, l)..LineStart(|cs|, width, l + 1)]
  }

  lemma {:induction false} LineStartIs(chars: nat, width: nat, l: nat)
    ensures LineStart(chars, width, l) == Min(l * width, chars)
  {
    if l > 0 {
      LineStartIs(chars, width, l - 1);
      assert l * width == (l - 1) * width + width;
    }
  }

  lemma {:induction false} ProductOrder(a: nat, b: nat, width: nat)
    requires a <= b
    ensures a * width <= b * width
  {
    if a < b {
      ProductOrder(a, b - 1, width);
      assert b * width == (b - 1) * width + width;
    }
  }

  lemma AtMostQuotient(l: nat, x: nat, width: nat)
    requires width > 0
    ensures l <= x / width <==> l * width <= x
  {
    var q := x / width;
    assert x == q * width + x % width;
    if l <= q {
      ProductOrder(l, q, width);
    } else {
      ProductOrder(q + 1, l, width);
      assert (q + 1) * width == q * width + width;
    }
  }

  /** A line starts before the end of the text exactly when it is one of its lines. */
  lemma LineStarts(chars: nat, width: nat, l: nat)
    requires width > 0
    ensures l < Lines(chars, width) <==> LineStart(chars, width, l) < chars
  {
    LineStartIs(chars, width, l);
    if chars > 0 {
      AtMostQuotient(l, chars - 1, width);
    }
  }

  /** The bytes between the offsets of two characters are the characters between them. */
  lemma SliceBytes(s: seq<byte>, cs: seq<seq<byte>>, from: nat, to: nat)
    requires from <= to <= |cs| && Concat(cs) <= s
    ensures Offset(cs, from) <= Offset(cs, to) <= |s|
    ensures s[Offset(cs, from)..Offset(cs, to)] == Concat(cs[from..to])
  {
    ConcatSplit(cs, to);
    OffsetIs(cs, to);
    SplitFront(s, Concat(cs[..to]), Concat(cs[to..]));
    OffsetIs(cs, from);
    assert cs[..to] == cs[..from] + cs[from..to];
    ConcatAppend(cs[..from], cs[from..to]);
    SplitFront(s, Concat(cs[..from]), Concat(cs[from..to]));
  }

  /** One row of text as `draw_text_rect` prints it: `len` bytes from `offset`. */
  datatype Row = Row(y: int, offset: nat, len: int)

  /** The row of line `l` of a text drawn from row `y` on. */
  function LineRow(cs: seq<seq<byte>>, y: int, width: nat, l: nat): Row {
    var from, to := LineStart(|cs|, width, l), LineStart(|cs|, width, l + 1);
    Row(y + l, Offset(cs, from), Offset(cs, to) - Offset(cs, from))
  }

  /** The line of a text drawn from row `y` on that is the first on the screen. */
  function FirstLine(y: int): nat {
    if y < 0 then -y else 0
  }

  /** The first `n` lines of a text drawn from row `y` on, without those above the screen. */
  function Rows(cs: seq<seq<byte>>, y: int, width: nat, n: nat): seq<Row> {
    if n == 0 then []
    else if y + n - 1 >= 0 then Rows(cs, y, width, n - 1) + [LineRow(cs, y, width, n - 1)]
    else Rows(cs, y, width, n - 1)
  }

  lemma {:induction false} RowCount(cs: seq<seq<byte>>, y: int, width: nat, n: nat)
    ensures |Rows(cs, y, width, n)| == n - Min(n, FirstLine(y))
  {
    if n > 0 {
      RowCount(cs, y, width, n - 1);
    }
  }

  /** Each line on or below row 0 is drawn once, in its place. */
  lemma {:induction false} RowsAt(cs: seq<seq<byte>>, y: int, width: nat, n: nat, l: nat)
    requires l < n && y + l >= 0
    ensures var rows, first := Rows(cs, y, width, n), FirstLine(y);
      |rows| == n - first && rows[l - first] == LineRow(cs, y, width, l)
  {
    RowCount(cs, y, width, n);
    RowCount(cs, y, width, n - 1);
    if l < n - 1 {
      RowsAt(cs, y, width, n - 1, l);
    }
  }

  /** From the start of a line, `width` characters are that line. */
  lemma LineCounts(cs: seq<seq<byte>>, y: int, width: nat, l: nat)
    requires AllChars(cs) && width > 0
    ensures var offset := Offset(cs, LineStart(|cs|, width, l));
      && LineRow(cs, y, width, l) == Row(y + l, offset, BytesFrom(cs, offset, width))
      && offset + BytesFrom(cs, offset, width) == Offset(cs, LineStart(|cs|, width, l + 1))
  {
    IndexFromStart(cs, LineStart(|cs|, width, l));
  }

  /** The line loop of `draw_text_rect`: the rows it prints. */
  method DrawText(s: seq<byte>, y: int, width: nat) returns (rows: seq<Row>)
    requires width > 0
    ensures rows == Rows(Chars(s), y, width, Lines(|Chars(s)|, width))
  {
    rows := [];
    var lines := StringLines(s, width);
    var offset := 0;
    ghost var cs := Chars(s);
    CharsAreChars(s);
    for line := 0 to lines
      invariant offset == Offset(cs, LineStart(|cs|, width, line))
      invariant rows == Rows(cs, y, width, line)
    {
      var len := CountBytes(s, offset, width);
      LineCounts(cs, y, width, line);
      if y + line >= 0 {
        rows := rows + [Row(y + line, offset, len)];
      }
      offset := offset + len;
    }
  }

  /** The bytes a row prints. */
  function RowText(s: seq<byte>, row: Row): seq<byte> {
    if row.offset <= row.offset + row.len <= |s| then s[row.offset..row.offset + row.len] else []
  }

  lemma SpanShows(s: seq<byte>, row: Row, from: nat, to: nat)
    requires from <= to <= |Chars(s)|
    requires row.offset == Offset(Chars(s), from) && row.len == Offset(Chars(s), to) - Offset(Chars(s), from)
    ensures row.offset <= row.offset + row.len <= |s|
    ensures RowText(s, row) == Concat(Chars(s)[from..to])
  {
    CharsArePrefix(s);
    SliceBytes(s, Chars(s), from, to);
  }

  /** A row lies within the text, and the bytes it prints are the characters of its line. */
  lemma RowShows(s: seq<byte>, y: int, width: nat, l: nat)
    ensures var row := LineRow(Chars(s), y, width, l);
      && row.offset <= row.offset + row.len <= |s|
      && RowText(s, row) == Concat(Line(Chars(s), width, l))
  {
    SpanShows(s, LineRow(Chars(s), y, width, l), LineStart(|Chars(s)|, width, l), LineStart(|Chars(s)|, width, l + 1));
  }

  /** All that rows print, put end to end. */
  function Printed(s: seq<byte>, rows: seq<Row>): seq<byte> {
    if rows == [] then [] else Printed(s, rows[..|rows| - 1]) + RowText(s, rows[|rows| - 1])
  }

  lemma PrintedPush(s: seq<byte>, rows: seq<Row>, row: Row)
    ensures Printed(s, rows + [row]) == Printed(s, rows) + RowText(s, row)
  {
    assert (rows + [row])[..|rows|] == rows;
  }

  lemma ConcatAdjacent(cs: seq<seq<byte>>, a: nat, b: nat, c: nat)
    requires a <= b <= c <= |cs|
    ensures Concat(cs[a..b]) + Concat(cs[b..c]) == Concat(cs[a..c])
  {
    ConcatAppend(cs[a..b], cs[b..c]);
    assert cs[a..b] + cs[b..c] == cs[a..c];
  }

  lemma {:induction false} LineStartsAscend(chars: nat, width: nat, j: nat, l: nat)
    requires j <= l
    ensures LineStart(chars, width, j) <= LineStart(chars, width, l)
  {
    if j < l {
      LineStartsAscend(chars, width, j, l - 1);
    }
  }

  /** One more row prints the characters of one more line. */
  lemma RowPrints(s: seq<byte>, rows: seq<Row>, row: Row, from: nat, mid: nat, to: nat)
    requires from <= mid <= to <= |Chars(s)|
    requires Printed(s, rows) == Concat(Chars(s)[from..mid])
    requires RowText(s, row) == Concat(Chars(s)[mid..to])
    ensures Printed(s, rows + [row]) == Concat(Chars(s)[from..to])
  {
    PrintedPush(s, rows, row);
    ConcatAdjacent(Chars(s), from, mid, to);
  }

  lemma NoRows(s: seq<byte>, y: int, width: nat, n: nat, k: nat)
    requires n <= FirstLine(y) && k <= |Chars(s)|
    ensures Printed(s, Rows(Chars(s), y, width, n)) == Concat(Chars(s)[k..k]) == []
  {
    RowCount(Chars(s), y, width, n);
  }

  /** The first `n` lines print what they are made of, from the first line on the screen on. */
  lemma {:induction false} RowsPrint(s: seq<byte>, y: int, width: nat, n: nat)
    requires n >= FirstLine(y)
    ensures var cs, from := Chars(s), LineStart(|Chars(s)|, width, FirstLine(y));
      from <= LineStart(|cs|, width, n)
      && Printed(s, Rows(cs, y, width, n)) == Concat(cs[from..LineStart(|cs|, width, n)])
  {
    var cs, from := Chars(s), LineStart(|Chars(s)|, width, FirstLine(y));
    if n == FirstLine(y) {
      NoRows(s, y, width, n, from);
    } else {
      var rows, row := Rows(cs, y, width, n - 1), LineRow(cs, y, width, n - 1);
      var mid, to := LineStart(|cs|, width, n - 1), LineStart(|cs|, width, n);
      assert Rows(cs, y, width, n) == rows + [row];
      RowsPrint(s, y, width, n - 1);
      SpanShows(s, row, mid, to);
      RowPrints(s, rows, row, from, mid, to);
    }
  }

  /** The rows tile the text: what they print, put end to end, is the decodable prefix of the text
      and nothing else, from the first line on the screen on. */
  lemma RowsTile(s: seq<byte>, y: int, width: nat)
    requires width > 0
    ensures var cs := Chars(s);
      && Printed(s, Rows(cs, y, width, Lines(|cs|, width))) == Concat(cs[LineStart(|cs|, width, FirstLine(y))..])
      && Concat(cs) <= s && Chars(s[|Concat(cs)|..]) == []
      && (y >= 0 ==> Concat(cs[LineStart(|cs|, width, FirstLine(y))..]) == Concat(cs))
  {
    var cs := Chars(s);
    var lines := Lines(|cs|, width);
    CharsArePrefix(s);
    LineStarts(|cs|, width, lines);
    assert cs[0..] == cs;
    var from := LineStart(|cs|, width, FirstLine(y));
    if FirstLine(y) <= lines {
      RowsPrint(s, y, width, lines);
      assert cs[from..LineStart(|cs|, width, lines)] == cs[from..];
    } else {
      NoRows(s, y, width, lines, |cs|);
      LineStarts(|cs|, width, FirstLine(y));
      assert cs[from..] == [];
    }
  }

  /** Every line but the last has exactly `width` characters, and the last one at least one. */
  lemma LineLengths(cs: seq<seq<byte>>, width: nat, l: nat)
    requires width > 0 && l < Lines(|cs|, width)
    ensures 0 < |Line(cs, width, l)| <= width
    ensures l + 1 < Lines(|cs|, width) ==> |Line(cs, width, l)| == width
  {
    LineStarts(|cs|, width, l);
    LineStarts(|cs|, width, l + 1);
  }

  /** Character `c` is character `c % width` of line `c / width`. */
  lemma CharPlace(cs: seq<seq<byte>>, width: nat, c: nat)
    requires width > 0 && c < |cs|
    ensures c / width < Lines(|cs|, width) && c % width < |Line(cs, width, c / width)|
    ensures Line(cs, width, c / width)[c % width] == cs[c]
  {
    var l := c / width;
    assert c == l * width + c % width;
    LineStartIs(|cs|, width, l);
    LineStarts(|cs|, width, l);
  }

  /** `ui_update` counts the characters before the cursor to place it: with the cursor at the offset
      of character `c`, it counts `c`. */
  lemma CursorCounts(s: seq<byte>, c: nat)
    requires c <= |Chars(s)|
    ensures Offset(Chars(s), c) <= |s|
    ensures Chars(s[..Offset(Chars(s), c)]) == Chars(s)[..c]
  {
    var cs := Chars(s);
    CharsArePrefix(s);
    CharsAreChars(s);
    ConcatSplit(cs, c);
    OffsetIs(cs, c);
    SplitFront(s, Concat(cs[..c]), Concat(cs[c..]));
    CharsUpTo(cs, c);
    CharsOf(cs[..c], []);
    assert Concat(cs[..c]) + [] == Concat(cs[..c]);
  }

  lemma {:induction false} CharsUpTo(cs: seq<seq<byte>>, k: nat)
    requires AllChars(cs) && k <= |cs|
    ensures AllChars(cs[..k])
  {
    if k > 0 {
      CharsUpTo(cs[1..], k - 1);
      assert cs[..k][1..] == cs[1..][..k - 1];
    }
  }

  /** The row of a cursor before character `c` lies in the text's box of `max(1, lines)` rows unless
      the cursor stands behind a last line that is full; then it is the row below the box. */
  lemma CursorRow(chars: nat, width: nat, c: nat)
    requires width > 0 && c <= chars
    ensures var rows := if chars == 0 then 1 else Lines(chars, width);
      if c == chars && chars > 0 && chars % width == 0 then c / width == rows else c / width < rows
  {
    var l := c / width;
    assert c == l * width + c % width;
    if chars > 0 {
      AtMostQuotient(l, chars - 1, width);
      if c == chars && chars % width == 0 {
        assert l * width == (l - 1) * width + width;
        AtMostQuotient(l - 1, chars - 1, width);
      }
    }
  }
}
