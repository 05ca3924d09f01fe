/** Unpadded base64url (sections 3.2, 3.5 and 5 of RFC 4648), the form in which
    raw-byte values travel through serialized Operations and in which digests
    are written into physical keys. */
module Base64Url {
  import opened Primitives

  const PAD: byte := 61

  /** The URL-safe alphabet. */
  function Letter(n: int): (c: byte)
    requires 0 <= n < 64
  {
    if n < 26 then 65 + n
    else if n < 52 then 71 + n
    else if n < 62 then n - 4
    else if n == 62 then 45
    else 95
  }

  predicate IsUrlLetter(c: byte) {
    65 <= c <= 90 || 97 <= c <= 122 || 48 <= c <= 57 || c == 45 || c == 95
  }

  /** The decoder's table.  `b64decode(altchars=b"-_")` maps the two URL-safe
      characters onto `+` and `/`, so the ordinary spellings are understood too. */
  function Sextet(c: byte): (r: Option<int>)
    ensures r.Some? ==> 0 <= r.value < 64
  {
    if 65 <= c <= 90 then Some(c - 65)
    else if 97 <= c <= 122 then Some(c - 71)
    else if 48 <= c <= 57 then Some(c + 4)
    else if c == 45 || c == 43 then Some(62)
    else if c == 95 || c == 47 then Some(63)
    else None
  }

  lemma LetterSextet(n: int)
    requires 0 <= n < 64
    ensures Sextet(Letter(n)) == Some(n) && IsUrlLetter(Letter(n))
  {
  }

  lemma SextetLetter(c: byte)
    requires IsUrlLetter(c)
    ensures Sextet(c).Some? && Letter(Sextet(c).value) == c
  {
  }

  // The six-bit groups of three bytes, and the bytes of four six-bit groups.

  function First(a: byte): (x: int) ensures 0 <= x < 64 { a / 4 }
  function Second(a: byte, b: byte): (y: int) ensures 0 <= y < 64 { a % 4 * 16 + b / 16 }
  function Third(b: byte, c: byte): (z: int) ensures 0 <= z < 64 { b % 16 * 4 + c / 64 }
  function Fourth(c: byte): (w: int) ensures 0 <= w < 64 { c % 64 }

  type sextet = n: int | 0 <= n < 64

  function High(x: sextet, y: sextet): (a: byte) { x * 4 + y / 16 }
  function Middle(y: sextet, z: sextet): (b: byte) { y % 16 * 16 + z / 4 }
  function Low(z: sextet, w: sextet): (c: byte) { z % 4 * 64 + w }

  lemma BytesOfGroups(a: byte, b: byte, c: byte)
    ensures High(First(a), Second(a, b)) == a
    ensures Middle(Second(a, b), Third(b, c)) == b
    ensures Low(Third(b, c), Fourth(c)) == c
  {
  }

  lemma GroupsOfBytes(x: sextet, y: sextet, z: sextet, w: sextet)
    ensures First(High(x, y)) == x
    ensures Second(High(x, y), Middle(y, z)) == y
    ensures Third(Middle(y, z), Low(z, w)) == z
    ensures Fourth(Low(z, w)) == w
  {
  }

  function EncodedLength(n: nat): nat {
    (4 * n + 2) / 3
  }

  function Block(a: byte, b: byte, c: byte): (q: Bytes)
    ensures |q| == 4 && (forall i :: 0 <= i < 4 ==> IsUrlLetter(q[i]))
  {
    [Letter(First(a)), Letter(Second(a, b)), Letter(Third(b, c)), Letter(Fourth(c))]
  }

  /** `urlsafe_b64encode(b).rstrip(b"=")`: the last one or two bytes are completed
      with zero bits and only the characters they reach are written. */
  function Encode(b: Bytes): (s: Bytes)
    ensures |s| == EncodedLength(|b|)
    ensures forall i :: 0 <= i < |s| ==> IsUrlLetter(s[i])
    decreases |b|
  {
    if |b| == 0 then []
    else if |b| == 1 then Block(b[0], 0, 0)[..2]
    else if |b| == 2 then Block(b[0], b[1], 0)[..3]
    else Block(b[0], b[1], b[2]) + Encode(b[3..])
  }

  /** Strict decoding of padded text: whole quads, padding only in the last one,
      every other character in the table.  Bits left over before the padding are
      dropped, as the library drops them. */
  function DecodePadded(t: Bytes): Option<Bytes>
    decreases |t|
  {
    if t == [] then Some([])
    else if |t| < 4 || Sextet(t[0]).None? || Sextet(t[1]).None? then None
    else
      var x, y := Sextet(t[0]).value, Sextet(t[1]).value;
      if |t| == 4 && t[2] == PAD && t[3] == PAD then Some([High(x, y)])
      else if Sextet(t[2]).None? then None
      else
        var z := Sextet(t[2]).value;
        if |t| == 4 && t[3] == PAD then Some([High(x, y), Middle(y, z)])
        else if Sextet(t[3]).None? then None
        else
          match DecodePadded(t[4..])
          case None => None
          case Some(rest) => Some([High(x, y), Middle(y, z), Low(z, Sextet(t[3]).value)] + rest)
  }

  function Padding(n: nat): Bytes {
    seq((4 - n % 4) % 4, i => PAD)
  }

  lemma PaddingCases(n: nat)
    ensures n % 4 == 0 ==> Padding(n) == []
    ensures n % 4 == 2 ==> Padding(n) == [PAD, PAD]
    ensures n % 4 == 3 ==> Padding(n) == [PAD]
    ensures Padding(n + 4) == Padding(n)
  {
  }

  /** The text of a raw-byte Operation value, or None where the runtime raises. */
  function OperationBytes(s: Bytes): Option<Bytes> {
    match DecodePadded(s + Padding(|s|))
    case None => None
    case Some(b) => if Encode(b) == s then Some(b) else None
  }

  /** Section 3.5 of RFC 4648, written without reference to either coder: only
      URL-safe characters, no length of 1 modulo 4, and unused bits all zero. */
  predicate Canonical(s: Bytes) {
    && |s| % 4 != 1
    && (forall i :: 0 <= i < |s| ==> IsUrlLetter(s[i]))
    && (|s| % 4 == 2 ==> Sextet(s[|s| - 1]).Some? && Sextet(s[|s| - 1]).value % 16 == 0)
    && (|s| % 4 == 3 ==> Sextet(s[|s| - 1]).Some? && Sextet(s[|s| - 1]).value % 4 == 0)
  }

  lemma BlockSextets(a: byte, b: byte, c: byte)
    ensures var q := Block(a, b, c);
            && Sextet(q[0]) == Some(First(a)) && Sextet(q[1]) == Some(Second(a, b))
            && Sextet(q[2]) == Some(Third(b, c)) && Sextet(q[3]) == Some(Fourth(c))
  {
    LetterSextet(First(a));
    LetterSextet(Second(a, b));
    LetterSextet(Third(b, c));
    LetterSextet(Fourth(c));
  }

  lemma {:induction false} DecodeEncode(b: Bytes)
    ensures DecodePadded(Encode(b) + Padding(|Encode(b)|)) == Some(b)
    decreases |b|
  {
    hide First, Second, Third, Fourth, High, Middle, Low, Letter, Sextet, Padding, EncodedLength, DecodePadded, Block;
    var s := Encode(b);
    PaddingCases(0);
    PaddingCases(2);
    PaddingCases(3);
    if |b| == 0 {
      DecodeEmpty();
      assert s + Padding(0) == [];
    } else if |b| == 1 {
      DecodeEncodeOne(b[0]);
      assert b == [b[0]];
    } else if |b| == 2 {
      DecodeEncodeTwo(b[0], b[1]);
      assert |s| == 3 && b == [b[0], b[1]];
    } else {
      var rest := Encode(b[3..]);
      DecodeEncode(b[3..]);
      PaddingCases(|rest|);
      assert s == Block(b[0], b[1], b[2]) + rest;
      assert s + Padding(|s|) == Block(b[0], b[1], b[2]) + (rest + Padding(|rest|));
      DecodeBlock(b[0], b[1], b[2], rest + Padding(|rest|));
      assert b == [b[0], b[1], b[2]] + b[3..];
    }
  }

  lemma DecodeEmpty()
    ensures DecodePadded([]) == Some([])
  {
  }

  lemma DecodeEncodeOne(a: byte)
    ensures DecodePadded(Block(a, 0, 0)[..2] + [PAD, PAD]) == Some([a])
  {
    hide First, Second, Third, Fourth, High, Middle, Low, Letter, Sextet;
    BlockSextets(a, 0, 0);
    BytesOfGroups(a, 0, 0);
  }

  lemma DecodeEncodeTwo(a: byte, b: byte)
    ensures DecodePadded(Block(a, b, 0)[..3] + [PAD]) == Some([a, b])
  {
    hide First, Second, Third, Fourth, High, Middle, Low, Letter, Sextet;
    BlockSextets(a, b, 0);
    BytesOfGroups(a, b, 0);
  }

  lemma DecodeBlock(a: byte, b: byte, c: byte, rest: Bytes)
    ensures DecodePadded(Block(a, b, c) + rest) ==
            if DecodePadded(rest).Some? then Some([a, b, c] + DecodePadded(rest).value) else None
  {
    hide First, Second, Third, Fourth, High, Middle, Low, Letter, Sextet;
    BlockSextets(a, b, c);
    BytesOfGroups(a, b, c);
    assert (Block(a, b, c) + rest)[4..] == rest;
  }

  lemma {:induction false} EncodeIsCanonical(b: Bytes)
    ensures Canonical(Encode(b))
    decreases |b|
  {
    hide First, Second, Third, Fourth, Letter, Sextet, EncodedLength;
    if |b| == 1 {
      BlockSextets(b[0], 0, 0);
      UnusedBits(b[0], 0);
    } else if |b| == 2 {
      BlockSextets(b[0], b[1], 0);
      UnusedBits(b[0], b[1]);
      assert Encode(b)[2] == Block(b[0], b[1], 0)[2];
    } else if |b| >= 3 {
      EncodeIsCanonical(b[3..]);
      CanonicalTail(Block(b[0], b[1], b[2]), Encode(b[3..]));
    }
  }

  lemma UnusedBits(a: byte, b: byte)
    ensures Second(a, 0) % 16 == 0 && Third(b, 0) % 4 == 0
  {
  }

  /** A quad of URL-safe characters in front changes nothing. */
  lemma CanonicalTail(q: Bytes, r: Bytes)
    requires |q| == 4 && forall i :: 0 <= i < 4 ==> IsUrlLetter(q[i])
    ensures Canonical(q + r) <==> Canonical(r)
  {
    hide First, Second, Third, Fourth, High, Middle, Low, Letter, Sextet;
    var s := q + r;
    assert forall i :: 0 <= i < |r| ==> s[i + 4] == r[i];
    assert r != [] ==> s[|s| - 1] == r[|r| - 1];
    if Canonical(s) {
      forall i | 0 <= i < |r| ensures IsUrlLetter(r[i]) { assert IsUrlLetter(s[i + 4]); }
    }
  }

  /** Every canonical text decodes, and encoding the bytes gives the text back. */
  lemma {:induction false} EncodeDecode(s: Bytes)
    requires Canonical(s)
    ensures DecodePadded(s + Padding(|s|)).Some?
    ensures Encode(DecodePadded(s + Padding(|s|)).value) == s
    decreases |s|
  {
    hide Sextet, Padding, EncodedLength, DecodePadded, Encode;
    PaddingCases(|s|);
    if |s| == 0 {
      DecodeEmpty();
      EncodeEmpty();
      assert s + Padding(|s|) == [];
    } else if |s| == 2 {
      EncodeDecodeTwo(s[0], s[1]);
      assert s + Padding(|s|) == [s[0], s[1], PAD, PAD];
      assert s == [s[0], s[1]];
    } else if |s| == 3 {
      EncodeDecodeThree(s[0], s[1], s[2]);
      assert s + Padding(|s|) == [s[0], s[1], s[2], PAD];
      assert s == [s[0], s[1], s[2]];
    } else {
      var q, r := s[..4], s[4..];
      assert s == q + r;
      CanonicalTail(q, r);
      EncodeDecode(r);
      PaddingCases(|r|);
      assert s + Padding(|s|) == q + (r + Padding(|r|));
      EncodeDecodeFour(q, r + Padding(|r|));
    }
  }

  lemma EncodeEmpty()
    ensures Encode([]) == []
  {
  }

  lemma EncodeDecodeTwo(p: byte, q: byte)
    requires IsUrlLetter(p) && IsUrlLetter(q) && Sextet(q).Some? && Sextet(q).value % 16 == 0
    ensures DecodePadded([p, q, PAD, PAD]).Some?
    ensures Encode(DecodePadded([p, q, PAD, PAD]).value) == [p, q]
  {
    hide DecodePadded, Encode, Block, EncodedLength, Sextet, Letter, First, Second, High, Low, Third, Fourth;
    SextetLetter(p);
    SextetLetter(q);
    var x, y := Sextet(p).value, Sextet(q).value;
    GroupsOfBytes(x, y, 0, 0);
    assert Middle(y, 0) == 0;
    TwoLetters(p, q, x, y);
  }

  lemma EncodeDecodeThree(p: byte, q: byte, r: byte)
    requires IsUrlLetter(p) && IsUrlLetter(q) && IsUrlLetter(r) && Sextet(r).Some? && Sextet(r).value % 4 == 0
    ensures DecodePadded([p, q, r, PAD]).Some?
    ensures Encode(DecodePadded([p, q, r, PAD]).value) == [p, q, r]
  {
    hide DecodePadded, Encode, Block, EncodedLength, Sextet, Letter, First, Second, High, Middle, Third, Fourth;
    SextetLetter(p);
    SextetLetter(q);
    SextetLetter(r);
    var x, y, z := Sextet(p).value, Sextet(q).value, Sextet(r).value;
    GroupsOfBytes(x, y, z, 0);
    assert Low(z, 0) == 0;
    ThreeLetters(p, q, r, x, y, z);
  }

  lemma TwoLetters(p: byte, q: byte, x: sextet, y: sextet)
    requires Sextet(p) == Some(x) && Letter(x) == p && Sextet(q) == Some(y) && Letter(y) == q
    requires First(High(x, y)) == x && Second(High(x, y), 0) == y
    ensures DecodePadded([p, q, PAD, PAD]) == Some([High(x, y)])
    ensures Encode([High(x, y)]) == [p, q]
  {
    hide First, Second, Third, Fourth, High, Middle, Low, Letter, Sextet;
  }

  lemma ThreeLetters(p: byte, q: byte, r: byte, x: sextet, y: sextet, z: sextet)
    requires Sextet(p) == Some(x) && Letter(x) == p && Sextet(q) == Some(y) && Letter(y) == q
    requires Sextet(r) == Some(z) && Letter(z) == r && r != PAD
    requires First(High(x, y)) == x && Second(High(x, y), Middle(y, z)) == y && Third(Middle(y, z), 0) == z
    ensures DecodePadded([p, q, r, PAD]) == Some([High(x, y), Middle(y, z)])
    ensures Encode([High(x, y), Middle(y, z)]) == [p, q, r]
  {
    hide First, Second, Third, Fourth, High, Middle, Low, Letter, Sextet;
  }

  lemma EncodeDecodeFour(q: Bytes, t: Bytes)
    requires |q| == 4 && forall i :: 0 <= i < 4 ==> IsUrlLetter(q[i])
    requires DecodePadded(t).Some?
    ensures DecodePadded(q + t).Some?
    ensures Encode(DecodePadded(q + t).value) == q + Encode(DecodePadded(t).value)
  {
    hide First, Second, Third, Fourth, High, Middle, Low, Letter, Sextet;
    SextetLetter(q[0]);
    SextetLetter(q[1]);
    SextetLetter(q[2]);
    SextetLetter(q[3]);
    var x, y, z, w := Sextet(q[0]).value, Sextet(q[1]).value, Sextet(q[2]).value, Sextet(q[3]).value;
    GroupsOfBytes(x, y, z, w);
    var head, tail := [High(x, y), Middle(y, z), Low(z, w)], DecodePadded(t).value;
    assert (q + t)[4..] == t;
    assert DecodePadded(q + t) == Some(head + tail);
    assert (head + tail)[3..] == tail;
    assert Block(head[0], head[1], head[2]) == q;
  }

  /** The runtime's raw-byte transport: a text is accepted exactly when it is
      canonical, and accepting is the inverse of encoding in both directions. */
  lemma OperationBytesExact(s: Bytes)
    ensures OperationBytes(s).Some? <==> Canonical(s)
    ensures forall b: Bytes :: OperationBytes(s) == Some(b) <==> Encode(b) == s
  {
    if Canonical(s) { EncodeDecode(s); }
    match OperationBytes(s) {
      case Some(b) => EncodeIsCanonical(b);
      case None =>
    }
    forall b: Bytes ensures OperationBytes(s) == Some(b) <==> Encode(b) == s {
      DecodeEncode(b);
    }
  }

  /** The four spellings the canonical check exists to reject. */
  lemma NonCanonicalSpellingsRejected(s: Bytes, i: nat)
    requires i < |s|
    ensures s[i] == PAD || s[i] == 43 || s[i] == 47 ==> OperationBytes(s) == None
    ensures |s| % 4 == 1 ==> OperationBytes(s) == None
    ensures |s| % 4 == 2 && Sextet(s[|s| - 1]).Some? && Sextet(s[|s| - 1]).value % 16 != 0
            ==> OperationBytes(s) == None
    ensures |s| % 4 == 3 && Sextet(s[|s| - 1]).Some? && Sextet(s[|s| - 1]).value % 4 != 0
            ==> OperationBytes(s) == None
  {
    OperationBytesExact(s);
  }

  lemma EncodeInjective(a: Bytes, b: Bytes)
    requires Encode(a) == Encode(b)
    ensures a == b
  {
    DecodeEncode(a);
    DecodeEncode(b);
  }
}
