/** Bytes, the one-time-pad XOR, and the integer encodings used on disk and on the wire. */
module Bytes {
  type byte = b: int | 0 <= b < 256

  datatype Option<+T> = None | Some(value: T)

  const TWO32: nat := 0x1_0000_0000
  const TWO63: nat := 0x8000_0000_0000_0000
  const TWO64: nat := 0x1_0000_0000_0000_0000

  type uint64 = x: nat | x < TWO64

  function Min(a: int, b: int): (m: int)
    ensures m <= a && m <= b && (m == a || m == b)
  {
    if a < b then a else b
  }

  lemma Assoc<T>(a: seq<T>, b: seq<T>, c: seq<T>)
    ensures a + (b + c) == a + b + c
  {
  }

  function Concat(parts: seq<seq<byte>>): seq<byte> {
    if parts == [] then [] else parts[0] + Concat(parts[1..])
  }

  lemma {:induction false} ConcatAppend(a: seq<seq<byte>>, b: seq<seq<byte>>)
    ensures Concat(a + b) == Concat(a) + Concat(b)
  {
    if a == [] {
      assert a + b == b;
    } else {
      assert (a + b)[1..] == a[1..] + b;
      ConcatAppend(a[1..], b);
    }
  }

  /** The bytes of an ASCII literal. */
  function Ascii(s: string): (r: seq<byte>)
    ensures |r| == |s|
    ensures forall i :: 0 <= i < |s| ==> r[i] == s[i] as int % 256
  {
    seq(|s|, i requires 0 <= i < |s| => s[i] as int % 256)
  }

  // ----- XOR with the pad

  function Pow2(n: nat): (p: nat)
    ensures p > 0
  {
    if n == 0 then 1 else 2 * Pow2(n - 1)
  }

  /** Exclusive or of the `n` low bits, bit by bit. */
  function XorBits(n: nat, a: nat, b: nat): (r: nat)
    ensures r < Pow2(n)
  {
    if n == 0 then 0
    else 2 * XorBits(n - 1, a / 2, b / 2) + if a % 2 == b % 2 then 0 else 1
  }

  function Xor(a: byte, b: byte): byte {
    assert Pow2(4) == 16 && Pow2(8) == 2 * (2 * (2 * (2 * Pow2(4))));
    XorBits(8, a, b)
  }

  /** Bit `i` of `x`. */
  function Bit(x: nat, i: nat): (b: nat)
    ensures b < 2
  {
    x / Pow2(i) % 2
  }

  lemma Divided(x: nat, m: nat)
    requires m > 0
    ensures x == m * (x / m) + x % m && x % m < m
  {
  }

  lemma Distribute(a: nat, b: nat, q: nat, s: nat, t: nat)
    requires s < b && t < a
    ensures a * (b * q + s) + t == (a * b) * q + (a * s + t) && a * s + t < a * b
  {
    assert a * (s + 1) <= a * b;
  }

  lemma Positive(a: nat, b: nat)
    requires a > 0 && b > 0
    ensures a * b > 0
  {
  }

  lemma QuotientTwice(x: nat, a: nat, b: nat)
    requires a > 0 && b > 0
    ensures a * b > 0 && x / (a * b) == x / a / b
  {
    Positive(a, b);
    var y, t := x / a, x % a;
    var q, s := y / b, y % b;
    Divided(x, a);
    Divided(y, b);
    QuotientByParts(x, a, b, y, t, q, s);
  }

  lemma QuotientByParts(x: nat, a: nat, b: nat, y: nat, t: nat, q: nat, s: nat)
    requires a * b > 0 && t < a && s < b && x == a * y + t && y == b * q + s
    ensures x / (a * b) == q
  {
    Distribute(a, b, q, s, t);
    QuotientUnique(x, a * b, q, a * s + t);
  }

  lemma QuotientUnique(x: nat, m: nat, q: nat, r: nat)
    requires m > 0 && x == m * q + r && r < m
    ensures x / m == q
  {
    var d := x / m - q;
    assert x == m * (x / m) + x % m;
    assert m * d == r - x % m;
    assert d >= 1 ==> m * d >= m;
    assert d <= -1 ==> m * d <= -1 * m;
  }

  lemma BitNext(x: nat, i: nat)
    ensures Bit(x, i + 1) == Bit(x / 2, i)
  {
    QuotientTwice(x, 2, Pow2(i));
  }

  lemma BitLow(x: nat)
    ensures Bit(x, 0) == x % 2
  {
  }

  lemma XorHalf(n: nat, a: nat, b: nat)
    requires n > 0
    ensures XorBits(n, a, b) / 2 == XorBits(n - 1, a / 2, b / 2)
    ensures XorBits(n, a, b) % 2 == 1 <==> a % 2 != b % 2
  {
  }

  /** Each bit of the result is set exactly when the two bits differ. */
  lemma {:induction false} XorBitsAt(n: nat, a: nat, b: nat, i: nat)
    requires i < n
    ensures Bit(XorBits(n, a, b), i) == 1 <==> Bit(a, i) != Bit(b, i)
  {
    XorHalf(n, a, b);
    if i == 0 {
      BitLow(a);
      BitLow(b);
      BitLow(XorBits(n, a, b));
    } else {
      BitNext(a, i - 1);
      BitNext(b, i - 1);
      BitNext(XorBits(n, a, b), i - 1);
      XorBitsAt(n - 1, a / 2, b / 2, i - 1);
    }
  }

  lemma XorAt(a: byte, b: byte, i: nat)
    requires i < 8
    ensures Bit(Xor(a, b), i) == 1 <==> Bit(a, i) != Bit(b, i)
  {
    XorBitsAt(8, a, b, i);
  }

  lemma {:induction false} XorBitsCancels(n: nat, a: nat, b: nat)
    requires b < Pow2(n)
    ensures XorBits(n, a, XorBits(n, a, b)) == b
  {
    if n > 0 {
      XorBitsCancels(n - 1, a / 2, b / 2);
    }
  }

  lemma XorCancels(a: byte, b: byte)
    ensures Xor(a, Xor(a, b)) == b
  {
    assert Pow2(4) == 16 && Pow2(8) == 2 * (2 * (2 * (2 * Pow2(4))));
    XorBitsCancels(8, a, b);
  }

  /** Byte `i` of the result is `pad[i] ^ text[i]`. */
  function Mask(pad: seq<byte>, text: seq<byte>): (r: seq<byte>)
    requires |pad| == |text|
    ensures |r| == |text|
    ensures forall i :: 0 <= i < |r| ==> r[i] == Xor(pad[i], text[i])
  {
    seq(|text|, i requires 0 <= i < |text| => Xor(pad[i], text[i]))
  }

  /** Masking twice with the same pad bytes gives the text back. */
  lemma MaskCancels(pad: seq<byte>, text: seq<byte>)
    requires |pad| == |text|
    ensures Mask(pad, Mask(pad, text)) == text
  {
    forall i | 0 <= i < |text|
      ensures Mask(pad, Mask(pad, text))[i] == text[i]
    {
      XorCancels(pad[i], text[i]);
    }
  }

  // ----- Fixed-width integers as bytes

  function Pow256(n: nat): (p: nat)
    ensures p > 0
  {
    if n == 0 then 1 else 256 * Pow256(n - 1)
  }

  /** The `n` low bytes of `x`, most significant first. */
  function BigEndian(n: nat, x: nat): (r: seq<byte>)
    ensures |r| == n
  {
    if n == 0 then [] else BigEndian(n - 1, x / 256) + [x % 256]
  }

  function FromBigEndian(s: seq<byte>): nat {
    if s == [] then 0 else 256 * FromBigEndian(s[..|s| - 1]) + s[|s| - 1]
  }

  /** The `n` low bytes of `x`, least significant first. */
  function LittleEndian(n: nat, x: nat): (r: seq<byte>)
    ensures |r| == n
  {
    if n == 0 then [] else [x % 256] + LittleEndian(n - 1, x / 256)
  }

  function FromLittleEndian(s: seq<byte>): nat {
    if s == [] then 0 else s[0] + 256 * FromLittleEndian(s[1..])
  }

  lemma ModByDigits(n: nat, x: nat)
    requires n > 0
    ensures x % Pow256(n) == 256 * ((x / 256) % Pow256(n - 1)) + x % 256
  {
    var p := Pow256(n - 1);
    var q, r := (x / 256) / p, (x / 256) % p;
    assert x / 256 == q * p + r;
    assert x == 256 * (q * p + r) + x % 256;
    var y := 256 * r + x % 256;
    assert x == q * (256 * p) + y;
    ModUnique(x, 256 * p, q, y);
  }

  lemma ModUnique(x: nat, m: nat, q: nat, y: nat)
    requires m > 0 && x == q * m + y && y < m
    ensures x % m == y
  {
    var d := x / m - q;
    assert x == x / m * m + x % m;
    assert d * m == y - x % m by {
      assert (x / m - q) * m == x / m * m - q * m;
    }
    assert d >= 1 ==> d * m >= m;
    assert d <= -1 ==> d * m <= -1 * m;
  }

  lemma {:induction false} BigEndianRoundTrip(n: nat, x: nat)
    ensures FromBigEndian(BigEndian(n, x)) == x % Pow256(n)
  {
    if n == 0 {
    } else {
      var s := BigEndian(n, x);
      assert s[..n - 1] == BigEndian(n - 1, x / 256);
      BigEndianRoundTrip(n - 1, x / 256);
      ModByDigits(n, x);
    }
  }

  lemma {:induction false} LittleEndianRoundTrip(n: nat, x: nat)
    ensures FromLittleEndian(LittleEndian(n, x)) == x % Pow256(n)
  {
    if n == 0 {
    } else {
      LittleEndianRoundTrip(n - 1, x / 256);
      ModByDigits(n, x);
    }
  }

  lemma TwoDigits(low: byte, high: nat)
    ensures (low + 256 * high) / 256 == high && (low + 256 * high) % 256 == low
  {
  }

  /** Every byte string is the encoding of the number it decodes to, which fits its width. */
  lemma {:induction false} LittleEndianOnto(s: seq<byte>)
    ensures FromLittleEndian(s) < Pow256(|s|)
    ensures LittleEndian(|s|, FromLittleEndian(s)) == s
  {
    if s == [] {
    } else {
      LittleEndianOnto(s[1..]);
      TwoDigits(s[0], FromLittleEndian(s[1..]));
    }
  }

  lemma {:induction false} BigEndianOnto(s: seq<byte>)
    ensures FromBigEndian(s) < Pow256(|s|)
    ensures BigEndian(|s|, FromBigEndian(s)) == s
  {
    if s == [] {
    } else {
      BigEndianOnto(s[..|s| - 1]);
      TwoDigits(s[|s| - 1], FromBigEndian(s[..|s| - 1]));
    }
  }

  /** Byte `i` of a big-endian number counts for the power of 256 of its distance from the end. */
  lemma {:induction false} BigEndianAt(n: nat, x: nat, i: nat)
    requires i < n
    ensures BigEndian(n, x)[i] == x / Pow256(n - 1 - i) % 256
  {
    if i < n - 1 {
      BigEndianAt(n - 1, x / 256, i);
      QuotientTwice(x, 256, Pow256(n - 2 - i));
    }
  }

  lemma {:induction false} LittleEndianAt(n: nat, x: nat, i: nat)
    requires i < n
    ensures LittleEndian(n, x)[i] == x / Pow256(i) % 256
  {
    if i > 0 {
      LittleEndianAt(n - 1, x / 256, i - 1);
      QuotientTwice(x, 256, Pow256(i - 1));
    }
  }

  lemma Widths()
    ensures Pow256(4) == TWO32 && Pow256(8) == TWO64
  {
    assert Pow256(2) == 0x1_0000;
    assert Pow256(4) == 256 * (256 * Pow256(2));
    assert Pow256(6) == 256 * (256 * Pow256(4));
    assert Pow256(8) == 256 * (256 * Pow256(6));
  }
}
