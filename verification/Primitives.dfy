/** Byte strings, the number formats written into frames and keys, and the two
    wrappers used for absent values and for errors. */
module Primitives {

  type byte = b: int | 0 <= b < 256
  type Bytes = seq<byte>

  datatype Option<+T> = None | Some(value: T)
  datatype Result<+T, +E> = Ok(value: T) | Err(error: E)

  // ---------------------------------------------------------------- hexadecimal

  function HexDigit(n: int): (d: byte)
    requires 0 <= n < 16
    ensures IsLowerHex(d)
  {
    if n < 10 then 48 + n else 87 + n
  }

  predicate IsLowerHex(b: byte) {
    48 <= b <= 57 || 97 <= b <= 102
  }

  /** Lowercase hexadecimal text of a byte string, two digits a byte. */
  function HexText(b: Bytes): (r: Bytes)
    ensures |r| == 2 * |b|
    ensures forall i :: 0 <= i < |r| ==> IsLowerHex(r[i])
  {
    seq(2 * |b|, i requires 0 <= i < 2 * |b| =>
      if i % 2 == 0 then HexDigit(b[i / 2] / 16) else HexDigit(b[i / 2] % 16))
  }

  lemma HexTextInjective(a: Bytes, b: Bytes)
    requires HexText(a) == HexText(b)
    ensures a == b
  {
    assert |a| == |b| by { assert |HexText(a)| == |HexText(b)|; }
    forall k | 0 <= k < |a| ensures a[k] == b[k] {
      assert HexText(a)[2 * k] == HexDigit(a[k] / 16) && HexText(b)[2 * k] == HexDigit(b[k] / 16);
      assert HexText(a)[2 * k + 1] == HexDigit(a[k] % 16) && HexText(b)[2 * k + 1] == HexDigit(b[k] % 16);
    }
  }

  function Nibble(b: byte): byte {
    if 48 <= b <= 57 then b - 48 else if 97 <= b <= 102 then b - 87 else 0
  }

  /** The bytes a hexadecimal text spells. */
  function Unhex(s: Bytes): (r: Bytes)
    requires |s| % 2 == 0 && forall i :: 0 <= i < |s| ==> IsLowerHex(s[i])
    ensures |r| == |s| / 2
  {
    seq(|s| / 2, i requires 0 <= i < |s| / 2 => 16 * Nibble(s[2 * i]) + Nibble(s[2 * i + 1]))
  }

  lemma UnhexText(s: Bytes)
    requires |s| % 2 == 0 && forall i :: 0 <= i < |s| ==> IsLowerHex(s[i])
    ensures HexText(Unhex(s)) == s
  {
    var d := Unhex(s);
    forall i | 0 <= i < |s| ensures HexText(d)[i] == s[i] {
      var k := i / 2;
      assert d[k] / 16 == Nibble(s[2 * k]) && d[k] % 16 == Nibble(s[2 * k + 1]);
    }
  }

  function Pow16(k: nat): (p: nat)
    ensures p >= 1
  {
    if k == 0 then 1 else 16 * Pow16(k - 1)
  }

  lemma QuotientBelow(n: nat, p: nat, c: nat)
    requires p > 0 && n < c * p
    ensures n / p < c
  {
    var q := n / p;
    assert q * p <= n;
    if q >= c { MulMonotone(c, q, p); }
  }

  lemma SmallQuotient(n: nat, p: nat)
    requires n < p
    ensures n / p == 0 && n % p == n
  {
  }

  /** The number `n` in exactly `k` lowercase hexadecimal digits. */
  function HexPad(n: nat, k: nat): (r: Bytes)
    requires n < Pow16(k)
    ensures |r| == k
    ensures forall i :: 0 <= i < |r| ==> IsLowerHex(r[i])
    decreases k
  {
    if k == 0 then []
    else
      QuotientBelow(n, Pow16(k - 1), 16);
      [HexDigit(n / Pow16(k - 1))] + HexPad(n % Pow16(k - 1), k - 1)
  }

  function HexDigitValue(b: byte): (v: Option<int>)
    ensures v.Some? ==> 0 <= v.value < 16
  {
    if 48 <= b <= 57 then Some(b - 48)
    else if 97 <= b <= 102 then Some(b - 87)
    else if 65 <= b <= 70 then Some(b - 55)
    else None
  }

  /** Hexadecimal digits with single underscores between them; `digitBefore`
      says whether the previous character was a digit. */
  function HexDigits(s: Bytes, acc: nat, digitBefore: bool): Option<nat>
    decreases |s|
  {
    if s == [] then (if digitBefore then Some(acc) else None)
    else if s[0] == 95 then (if digitBefore then HexDigits(s[1..], acc, false) else None)
    else
      match HexDigitValue(s[0])
      case Some(d) => HexDigits(s[1..], 16 * acc + d, true)
      case None => None
  }

  predicate IsSpace(b: byte) {
    9 <= b <= 13 || b == 32
  }

  function StripLeft(s: Bytes): (r: Bytes)
    ensures |r| <= |s|
    decreases |s|
  {
    if s != [] && IsSpace(s[0]) then StripLeft(s[1..]) else s
  }

  function StripRight(s: Bytes): (r: Bytes)
    ensures |r| <= |s|
    decreases |s|
  {
    if s != [] && IsSpace(s[|s| - 1]) then StripRight(s[..|s| - 1]) else s
  }

  /** Python's `int(text, 16)` on ASCII text: surrounding white space, a sign, a
      `0x` prefix and single underscores are all accepted. */
  function PythonHexInt(s: Bytes): Option<int> {
    var t := StripRight(StripLeft(s));
    var signed := t != [] && (t[0] == 43 || t[0] == 45);
    var u := if signed then t[1..] else t;
    var v := if |u| >= 2 && u[0] == 48 && (u[1] == 120 || u[1] == 88)
             then (if |u| >= 3 && u[2] == 95 then u[3..] else u[2..])
             else u;
    match HexDigits(v, 0, false)
    case Some(n) => (var value: int := if signed && t[0] == 45 then 0 - n else n; Some(value))
    case None => None
  }

  lemma {:induction false} HexDigitsBound(s: Bytes, acc: nat, digitBefore: bool)
    requires HexDigits(s, acc, digitBefore).Some?
    ensures HexDigits(s, acc, digitBefore).value < (acc + 1) * Pow16(|s|)
    decreases |s|
  {
    if s == [] {
    } else {
      var p := Pow16(|s| - 1);
      assert Pow16(|s|) == 16 * p;
      if s[0] == 95 {
        HexDigitsBound(s[1..], acc, false);
        ShiftBound(acc, 0, p);
      } else {
        var d := HexDigitValue(s[0]).value;
        HexDigitsBound(s[1..], 16 * acc + d, true);
        ShiftBound(acc, d, p);
      }
    }
  }

  lemma ShiftBound(acc: nat, d: nat, p: nat)
    requires d < 16
    ensures (16 * acc + d + 1) * p <= (acc + 1) * (16 * p)
    ensures (acc + 1) * p <= (acc + 1) * (16 * p)
  {
    MulMonotone(16 * acc + d + 1, 16 * (acc + 1), p);
    MulMonotone(acc + 1, 16 * (acc + 1), p);
    assert 16 * (acc + 1) * p == (acc + 1) * (16 * p);
  }

  lemma MulMonotone(a: nat, b: nat, c: nat)
    requires a <= b
    ensures a * c <= b * c
  {
  }

  lemma Pow16Monotone(a: nat, b: nat)
    requires a <= b
    ensures Pow16(a) <= Pow16(b)
  {
    if a < b { Pow16Monotone(a, b - 1); }
  }

  /** Whatever spelling Python accepts, eight characters never denote 2^32 or more. */
  lemma PythonHexIntBound(s: Bytes)
    requires |s| == 8 && PythonHexInt(s).Some?
    ensures PythonHexInt(s).value < 0x1_0000_0000
  {
    var t := StripRight(StripLeft(s));
    var signed := t != [] && (t[0] == 43 || t[0] == 45);
    var u := if signed then t[1..] else t;
    var v := if |u| >= 2 && u[0] == 48 && (u[1] == 120 || u[1] == 88)
             then (if |u| >= 3 && u[2] == 95 then u[3..] else u[2..])
             else u;
    HexDigitsBound(v, 0, false);
    Pow16Monotone(|v|, 8);
    Pow16Eight();
  }

  lemma Pow16Eight()
    ensures Pow16(8) == 0x1_0000_0000 && Pow16(7) == 0x1000_0000
  {
    assert Pow16(2) == 256;
    assert Pow16(4) == 65536;
    assert Pow16(6) == 0x100_0000;
  }

  lemma {:induction false} HexDigitsOfPad(n: nat, k: nat, acc: nat, digitBefore: bool)
    requires n < Pow16(k)
    requires k > 0 || digitBefore
    ensures HexDigits(HexPad(n, k), acc, digitBefore) == Some(acc * Pow16(k) + n)
    decreases k
  {
    if k > 0 {
      var p := Pow16(k - 1);
      var d := n / p;
      QuotientBelow(n, p, 16);
      assert HexPad(n, k)[1..] == HexPad(n % p, k - 1);
      assert HexDigitValue(HexPad(n, k)[0]) == Some(d);
      HexDigitsOfPad(n % p, k - 1, 16 * acc + d, true);
      ShiftValue(n, acc, p);
    }
  }

  lemma ShiftValue(n: nat, acc: nat, p: nat)
    requires p > 0
    ensures (16 * acc + n / p) * p + n % p == acc * (16 * p) + n
  {
    assert (n / p) * p + n % p == n;
    assert (16 * acc + n / p) * p == 16 * acc * p + (n / p) * p;
  }

  /** Reading back a padded length, bare or with a plus sign in front. */
  lemma PythonHexIntOfPad(n: nat, k: nat)
    requires 2 <= k && n < Pow16(k)
    ensures PythonHexInt(HexPad(n, k)) == Some(n)
    ensures PythonHexInt([43] + HexPad(n, k)) == Some(n)
  {
    hide HexPad, HexDigits, Pow16;
    HexDigitsOfPad(n, k, 0, false);
    PlainSpelling(HexPad(n, k));
    PlusSpelling(HexPad(n, k));
  }

  predicate LowerHexText(s: Bytes) {
    forall i :: 0 <= i < |s| ==> IsLowerHex(s[i])
  }

  /** Digits need no stripping and have no prefix. */
  lemma PlainSpelling(s: Bytes)
    requires |s| >= 2 && LowerHexText(s)
    ensures PythonHexInt(s) == HexDigits(s, 0, false)
  {
    hide HexDigits;
    assert !IsSpace(s[0]) && !IsSpace(s[|s| - 1]) && IsLowerHex(s[1]);
    assert StripLeft(s) == s && StripRight(s) == s;
  }

  lemma PlusSpelling(s: Bytes)
    requires |s| >= 2 && LowerHexText(s)
    ensures PythonHexInt([43] + s) == HexDigits(s, 0, false)
  {
    hide HexDigits;
    assert !IsSpace(s[|s| - 1]) && IsLowerHex(s[1]);
    var p := [43] + s;
    assert p[0] == 43 && p[|p| - 1] == s[|s| - 1] && p[1..] == s;
    assert StripLeft(p) == p && StripRight(p) == p;
  }

  /** The other spellings Python accepts: white space around anything, a minus sign, a
      prefix, and single underscores between digits. */
  lemma HexSpellings(s: Bytes, u: Bytes, b: byte)
    requires |s| >= 2 && LowerHexText(s) && |u| >= 1 && LowerHexText(u) && (9 <= b <= 13 || b == 32)
    ensures PythonHexInt([b] + s) == PythonHexInt(s) && PythonHexInt(s + [b]) == PythonHexInt(s)
    ensures PythonHexInt(s).Some? && PythonHexInt([45] + s) == Some(0 - PythonHexInt(s).value)
    ensures PythonHexInt([48, 120] + s) == PythonHexInt(s) && PythonHexInt([48, 88] + s) == PythonHexInt(s)
    ensures PythonHexInt(s + [95] + u) == PythonHexInt(s + u)
  {
    hide PythonHexInt;
    SpacedSpelling(s, b);
    MinusSpelling(s);
    PrefixSpelling(s, 120);
    PrefixSpelling(s, 88);
    UnderscoreSpelling(s, u);
  }

  lemma SpacedSpelling(s: Bytes, b: byte)
    requires |s| >= 2 && LowerHexText(s) && IsSpace(b)
    ensures PythonHexInt([b] + s) == PythonHexInt(s) && PythonHexInt(s + [b]) == PythonHexInt(s)
  {
    hide HexDigits;
    var l, r := [b] + s, s + [b];
    assert l[1..] == s && !IsSpace(s[0]) && !IsSpace(s[|s| - 1]);
    assert StripLeft(l) == StripLeft(s) == s;
    assert r[..|s|] == s && StripLeft(r) == r && StripRight(r) == StripRight(s) == s;
  }

  lemma MinusSpelling(s: Bytes)
    requires |s| >= 2 && LowerHexText(s)
    ensures PythonHexInt(s).Some? && PythonHexInt([45] + s) == Some(0 - PythonHexInt(s).value)
  {
    hide HexDigits;
    PlainSpelling(s);
    DigitsRead(s, 0, false);
    assert !IsSpace(s[|s| - 1]) && IsLowerHex(s[1]);
    var p := [45] + s;
    assert p[0] == 45 && p[|p| - 1] == s[|s| - 1] && p[1..] == s;
    assert StripLeft(p) == p && StripRight(p) == p;
  }

  lemma PrefixSpelling(s: Bytes, x: byte)
    requires |s| >= 2 && LowerHexText(s) && (x == 120 || x == 88)
    ensures PythonHexInt([48, x] + s) == PythonHexInt(s)
  {
    hide HexDigits;
    PlainSpelling(s);
    assert !IsSpace(s[|s| - 1]) && IsLowerHex(s[0]);
    var p := [48, x] + s;
    assert p[|p| - 1] == s[|s| - 1] && p[2..] == s && p[2] == s[0];
    assert StripLeft(p) == p && StripRight(p) == p;
  }

  lemma UnderscoreSpelling(s: Bytes, u: Bytes)
    requires |s| >= 2 && LowerHexText(s) && |u| >= 1 && LowerHexText(u)
    ensures PythonHexInt(s + [95] + u) == PythonHexInt(s + u)
  {
    hide HexDigits;
    var a, b := s + [95] + u, s + u;
    assert a[0] == b[0] == s[0] && a[1] == b[1] == s[1] && a[|a| - 1] == b[|b| - 1] == u[|u| - 1];
    assert IsLowerHex(s[0]) && IsLowerHex(s[1]) && IsLowerHex(u[|u| - 1]);
    assert StripLeft(a) == a && StripRight(a) == a && StripLeft(b) == b && StripRight(b) == b;
    UnderscoreSkipped(s, u, 0, false);
  }

  lemma {:induction false} DigitsRead(s: Bytes, acc: nat, digitBefore: bool)
    requires LowerHexText(s) && (|s| > 0 || digitBefore)
    ensures HexDigits(s, acc, digitBefore).Some?
    decreases |s|
  {
    if |s| > 0 {
      assert IsLowerHex(s[0]);
      assert LowerHexText(s[1..]);
      DigitsRead(s[1..], 16 * acc + HexDigitValue(s[0]).value, true);
    }
  }

  lemma {:induction false} UnderscoreSkipped(s: Bytes, u: Bytes, acc: nat, digitBefore: bool)
    requires LowerHexText(s) && LowerHexText(u) && |u| >= 1 && (|s| > 0 || digitBefore)
    ensures HexDigits(s + [95] + u, acc, digitBefore) == HexDigits(s + u, acc, digitBefore)
    decreases |s|
  {
    var a, b := s + [95] + u, s + u;
    if s == [] {
      assert a == [95] + u && a[1..] == u && b == u;
      assert IsLowerHex(u[0]);
    } else {
      assert IsLowerHex(s[0]) && a[0] == b[0] == s[0];
      assert a[1..] == s[1..] + [95] + u && b[1..] == s[1..] + u;
      UnderscoreSkipped(s[1..], u, 16 * acc + HexDigitValue(s[0]).value, true);
    }
  }

  // -------------------------------------------------------------------- decimal

  function Decimal(n: nat): (r: Bytes)
    ensures |r| >= 1
    ensures forall i :: 0 <= i < |r| ==> 48 <= r[i] <= 57
  {
    if n < 10 then [48 + n] else Decimal(n / 10) + [48 + n % 10]
  }

  function DecimalValue(s: Bytes): int {
    if s == [] then 0 else 10 * DecimalValue(s[..|s| - 1]) + s[|s| - 1] - 48
  }

  lemma {:induction false} DecimalRoundTrip(n: nat)
    ensures DecimalValue(Decimal(n)) == n
  {
    if n < 10 {
      assert Decimal(n)[..0] == [];
      assert DecimalValue(Decimal(n)[..0]) == 0;
    } else {
      DecimalRoundTrip(n / 10);
      assert Decimal(n)[..|Decimal(n)| - 1] == Decimal(n / 10);
    }
  }

  function Pow10(k: nat): nat {
    if k == 0 then 1 else 10 * Pow10(k - 1)
  }

  lemma {:induction false} DecimalLength(n: nat, k: nat)
    requires 1 <= k && n < Pow10(k)
    ensures |Decimal(n)| <= k
  {
    if n >= 10 {
      assert k >= 2;
      DecimalLength(n / 10, k - 1);
    }
  }

  // --------------------------------------------------------------------- search

  /** Position of the first `b` at or after `from`, or -1. */
  function Find(s: Bytes, b: byte, from: nat): (r: int)
    ensures r == -1 || (from <= r < |s| && s[r] == b)
    ensures forall i :: from <= i < |s| && (r == -1 || i < r) ==> s[i] != b
    decreases if from <= |s| then |s| - from else 0
  {
    if from >= |s| then -1
    else if s[from] == b then from
    else Find(s, b, from + 1)
  }
}
