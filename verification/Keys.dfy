/** Physical key layout.

      plain    mrvk:v1:<16>:g<generation>:d:<43>
      grouped  mrvk:v1:<16>:g<generation>:{<22>}:d:<43>

    and the same with `l` in place of `d` for single-flight leases. */
module Keys {
  import opened Primitives
  import opened Json
  import Base64Url

  const PREFIX: Bytes := [109, 114, 118, 107, 58, 118, 49, 58]   // mrvk:v1:
  const COLON: byte := 58
  const OPEN: byte := 123
  const CLOSE: byte := 125
  const GEN: byte := 103
  const KEY_FORMAT: Bytes :=                                     // meridian-valkey-key.v1
    [109, 101, 114, 105, 100, 105, 97, 110, 45, 118, 97, 108, 107, 101, 121, 45,
     107, 101, 121, 46, 118, 49]

  datatype Kind = Data | Lease

  function KindByte(k: Kind): byte {
    if k == Data then 100 else 108
  }

  datatype Shape = Shape(namespace: Bytes, generation: nat, tag: Option<Bytes>, kind: Kind, digest: Bytes)

  predicate UrlText(s: Bytes, n: nat) {
    |s| == n && forall i :: 0 <= i < |s| ==> Base64Url.IsUrlLetter(s[i])
  }

  /** What the encoder puts into a key. */
  predicate WellFormed(s: Shape) {
    && UrlText(s.namespace, 16)
    && UrlText(s.digest, 43)
    && (s.tag.Some? ==> UrlText(s.tag.value, 22))
  }

  function Head(namespace: Bytes, generation: nat): Bytes {
    PREFIX + namespace + [COLON, GEN] + Decimal(generation)
  }

  function TagPart(tag: Option<Bytes>): Bytes {
    match tag
    case None => []
    case Some(t) => [COLON, OPEN] + t + [CLOSE]
  }

  function Tail(tag: Option<Bytes>, kind: Kind, digest: Bytes): Bytes {
    TagPart(tag) + [COLON, KindByte(kind), COLON] + digest
  }

  function Render(s: Shape): Bytes {
    Head(s.namespace, s.generation) + Tail(s.tag, s.kind, s.digest)
  }

  // -------------------------------------------------------------------- encoder

  datatype Encoder = Encoder(namespace: Bytes, generation: nat, maxKeyBytes: nat)

  function Base64Digest(p: Platform, b: Bytes): (d: Bytes)
    ensures UrlText(d, 43)
  {
    Base64Url.Encode(p.sha256(b))
  }

  function NewEncoder(p: Platform, namespace: Bytes, generation: int, maxKeyBytes: nat): Option<Encoder> {
    if namespace == [] || |namespace| > 512 || generation < 1 then None
    else Some(Encoder(Base64Digest(p, namespace)[..16], generation, maxKeyBytes))
  }

  predicate ValidEncoder(e: Encoder) {
    UrlText(e.namespace, 16) && e.generation >= 1
  }

  /** The constructor accepts exactly bounded namespaces and positive generations, and
      what it builds is an encoder all the results below apply to. */
  lemma NewEncoderIsValid(p: Platform, namespace: Bytes, generation: int, maxKeyBytes: nat)
    ensures NewEncoder(p, namespace, generation, maxKeyBytes).Some? <==> 1 <= |namespace| <= 512 && generation >= 1
    ensures var e := NewEncoder(p, namespace, generation, maxKeyBytes);
            e.Some? ==> ValidEncoder(e.value) && e.value.generation == generation && e.value.maxKeyBytes == maxKeyBytes
  {
    hide Base64Url.IsUrlLetter;
  }

  datatype Material = Material(scope: Json, resource: Json, logicalKey: Json, schema: Bytes, group: Option<Json>)

  function Body(e: Encoder, m: Material): map<Name, Json> {
    map[
      FormatVersion := Str(KEY_FORMAT),
      Scope := m.scope,
      Resource := m.resource,
      LogicalKey := m.logicalKey,
      SchemaFingerprint := Str(m.schema),
      NamespaceGeneration := Int(e.generation)]
  }

  function TagBody(e: Encoder, m: Material, group: Json): map<Name, Json> {
    map[
      FormatVersion := Str(KEY_FORMAT),
      Scope := m.scope,
      Resource := m.resource,
      AtomicGroup := group,
      NamespaceGeneration := Int(e.generation)]
  }

  /** The hash tag of the material's atomic group; None where printing raises. */
  function GroupTag(p: Platform, e: Encoder, m: Material): (r: Option<Option<Bytes>>)
    ensures r.Some? && r.value.Some? ==> UrlText(r.value.value, 22)
    ensures r.Some? ==> (r.value.Some? <==> m.group.Some?)
  {
    match m.group
    case None => Some(None)
    case Some(g) =>
      match p.canonical(Obj(TagBody(e, m, g)))
      case None => None
      case Some(text) => Some(Some(Base64Digest(p, text)[..22]))
  }

  function Bounded(e: Encoder, key: Bytes): Option<Bytes> {
    if |key| > e.maxKeyBytes then None else Some(key)
  }

  /** `KeyEncoder.encode`; None where it raises. */
  function Encode(p: Platform, e: Encoder, m: Material): Option<Bytes> {
    match (p.canonical(Obj(Body(e, m))), GroupTag(p, e, m))
    case (Some(text), Some(tag)) =>
      Bounded(e, Render(Shape(e.namespace, e.generation, tag, Data, Base64Digest(p, text))))
    case _ => None
  }

  /** The text between the first `{` and the next `}` when it is not empty. */
  function HashTag(key: Bytes): Option<Bytes> {
    var start := Find(key, OPEN, 0);
    if start < 0 then None
    else
      var end := Find(key, CLOSE, start + 1);
      if end <= start + 1 then None else Some(key[start + 1..end])
  }

  /** `KeyEncoder.lease_key`, which accepts any key; None where it raises. */
  function LeaseKey(p: Platform, e: Encoder, key: Bytes): Option<Bytes> {
    var tag := HashTag(key);
    if tag.Some? && (exists i :: 0 <= i < |tag.value| && tag.value[i] >= 128) then None
    else Bounded(e, Render(Shape(e.namespace, e.generation, tag, Lease, Base64Digest(p, key))))
  }

  function HashSlot(p: Platform, key: Bytes): nat {
    p.crc16(if HashTag(key).Some? then HashTag(key).value else key) % 16384
  }

  // -------------------------------------------------------------------- reading

  function DigitRun(s: Bytes): (n: nat)
    ensures n <= |s|
  {
    if s != [] && 48 <= s[0] <= 57 then 1 + DigitRun(s[1..]) else 0
  }

  function KindOf(b: byte): Option<Kind> {
    if b == 100 then Some(Data) else if b == 108 then Some(Lease) else None
  }

  /** What follows the generation. */
  function ReadTail(t: Bytes): Option<(Option<Bytes>, Kind, Bytes)> {
    if |t| == 46 && t[0] == COLON && KindOf(t[1]).Some? && t[2] == COLON then
      Some((None, KindOf(t[1]).value, t[3..]))
    else if |t| == 71 && t[0] == COLON && t[1] == OPEN && t[24] == CLOSE && t[25] == COLON
            && KindOf(t[26]).Some? && t[27] == COLON then
      Some((Some(t[2..24]), KindOf(t[26]).value, t[28..]))
    else None
  }

  /** A reader for the layout, independent of the encoder. */
  function Read(key: Bytes): Option<Shape> {
    if |key| < 26 || key[..8] != PREFIX || key[24] != COLON || key[25] != GEN then None
    else
      var rest := key[26..];
      var d := DigitRun(rest);
      match ReadTail(rest[d..])
      case None => None
      case Some((tag, kind, digest)) =>
        if d == 0 || DecimalValue(rest[..d]) < 0 then None
        else Some(Shape(key[8..24], DecimalValue(rest[..d]), tag, kind, digest))
  }

  /** The key reads as a shape, and is that shape written out. */
  predicate IsKey(key: Bytes, kind: Kind) {
    && Read(key).Some? && Read(key).value.kind == kind
    && WellFormed(Read(key).value) && Render(Read(key).value) == key
  }

  predicate IsData(key: Bytes) {
    IsKey(key, Data)
  }

  predicate IsLease(key: Bytes) {
    IsKey(key, Lease)
  }

  lemma {:induction false} DigitRunOf(a: Bytes, b: Bytes)
    requires forall i :: 0 <= i < |a| ==> 48 <= a[i] <= 57
    requires b != [] && !(48 <= b[0] <= 57)
    ensures DigitRun(a + b) == |a|
    decreases |a|
  {
    if a == [] {
      assert a + b == b;
    } else {
      DigitRunOf(a[1..], b);
      assert (a + b)[1..] == a[1..] + b;
    }
  }

  lemma ReadTailOf(tag: Option<Bytes>, kind: Kind, digest: Bytes)
    requires UrlText(digest, 43) && (tag.Some? ==> UrlText(tag.value, 22))
    ensures ReadTail(Tail(tag, kind, digest)) == Some((tag, kind, digest))
    ensures |Tail(tag, kind, digest)| == (if tag.Some? then 71 else 46) && Tail(tag, kind, digest)[0] == COLON
  {
    var t := Tail(tag, kind, digest);
    match tag {
      case None =>
        assert t == [COLON, KindByte(kind), COLON] + digest;
      case Some(g) =>
        assert t == [COLON, OPEN] + g + [CLOSE, COLON, KindByte(kind), COLON] + digest;
        assert t[2..24] == g;
        assert t[28..] == digest;
    }
  }

  /** Reading a rendered key gives all five parts back, so nothing about two
      different shapes can coincide, whatever the digests are. */
  lemma ReadRender(s: Shape)
    requires WellFormed(s)
    ensures Read(Render(s)) == Some(s)
  {
    hide ReadTail, Tail, DigitRun, Decimal, DecimalValue, UrlText;
    var key := Render(s);
    var digits, tail := Decimal(s.generation), Tail(s.tag, s.kind, s.digest);
    UrlLengths(s);
    ReadTailOf(s.tag, s.kind, s.digest);
    assert key == PREFIX + (s.namespace + [COLON, GEN] + digits + tail);
    assert key == (PREFIX + s.namespace) + ([COLON, GEN] + digits + tail);
    assert key == (PREFIX + s.namespace + [COLON, GEN]) + (digits + tail);
    assert key[26..] == digits + tail;
    assert key[8..24] == s.namespace;
    DigitRunOf(digits, tail);
    assert (digits + tail)[..|digits|] == digits && (digits + tail)[|digits|..] == tail;
    DecimalRoundTrip(s.generation);
  }

  lemma UrlLengths(s: Shape)
    requires WellFormed(s)
    ensures |s.namespace| == 16 && |s.digest| == 43 && (s.tag.Some? ==> |s.tag.value| == 22)
  {
  }

  // ---------------------------------------------------------------- consequences

  /** Every key the encoder builds reads back as the data key of its namespace and
      generation. */
  lemma EncodedShape(p: Platform, e: Encoder, m: Material)
    requires ValidEncoder(e) && Encode(p, e, m).Some?
    ensures var key := Encode(p, e, m).value;
            && IsData(key)
            && Read(key).value.namespace == e.namespace
            && Read(key).value.generation == e.generation
            && (Read(key).value.tag.Some? <==> m.group.Some?)
            && |key| <= e.maxKeyBytes
  {
    hide Render, Read;
    var text := p.canonical(Obj(Body(e, m))).value;
    ReadRender(Shape(e.namespace, e.generation, GroupTag(p, e, m).value, Data, Base64Digest(p, text)));
  }

  lemma LengthOf(s: Shape)
    requires WellFormed(s)
    ensures |Render(s)| == (if s.tag.Some? then 97 else 72) + |Decimal(s.generation)|
  {
  }

  /** The first brace of a rendered key is the one that opens its tag. */
  lemma HashTagOf(s: Shape)
    requires WellFormed(s)
    ensures HashTag(Render(s)) == s.tag
  {
    if s.tag.Some? { GroupedTag(s); } else { PlainTag(s); }
  }

  lemma PlainTag(s: Shape)
    requires WellFormed(s) && s.tag == None
    ensures HashTag(Render(s)) == None
  {
    hide Decimal;
    var head, tail := Head(s.namespace, s.generation), [COLON, KindByte(s.kind), COLON] + s.digest;
    assert Render(s) == head + tail;
    assert OPEN !in head && OPEN !in tail;
  }

  lemma GroupedTag(s: Shape)
    requires WellFormed(s) && s.tag.Some?
    ensures HashTag(Render(s)) == s.tag
  {
    hide Decimal;
    var head, t := Head(s.namespace, s.generation), s.tag.value;
    var key, k := Render(s), |head| + 1;
    assert key == head + [COLON, OPEN] + t + ([CLOSE, COLON, KindByte(s.kind), COLON] + s.digest);
    assert OPEN !in head;
    assert key[k] == OPEN && (forall i :: 0 <= i < k ==> key[i] != OPEN);
    assert key[k + 1..k + 23] == t;
    assert forall i :: k < i < k + 23 ==> key[i] == t[i - k - 1];
    assert key[k + 23] == CLOSE;
  }

  /** The lease key of a rendered data key: same tag, same length, and a lease. */
  lemma LeaseKeyOf(p: Platform, e: Encoder, s: Shape)
    requires ValidEncoder(e) && WellFormed(s)
    ensures var shape := Shape(e.namespace, e.generation, s.tag, Lease, Base64Digest(p, Render(s)));
            && WellFormed(shape) && (s.generation == e.generation ==> |Render(shape)| == |Render(s)|)
            && LeaseKey(p, e, Render(s)) == Bounded(e, Render(shape))
  {
    hide Render, HashTag;
    HashTagOf(s);
    LengthOf(s);
    LengthOf(Shape(e.namespace, e.generation, s.tag, Lease, Base64Digest(p, Render(s))));
  }

  /** Whatever data key it is asked for, the encoder answers with a lease key. */
  lemma LeaseOfData(p: Platform, e: Encoder, key: Bytes)
    requires ValidEncoder(e) && IsData(key) && LeaseKey(p, e, key).Some?
    ensures IsLease(LeaseKey(p, e, key).value) && !IsData(LeaseKey(p, e, key).value)
  {
    hide Render, Read, LeaseKey;
    var s := Read(key).value;
    LeaseKeyOf(p, e, s);
    ReadRender(Shape(e.namespace, e.generation, s.tag, Lease, Base64Digest(p, key)));
  }

  lemma ShapeOfEncoded(p: Platform, e: Encoder, m: Material) returns (s: Shape)
    requires ValidEncoder(e) && Encode(p, e, m).Some?
    ensures WellFormed(s) && Encode(p, e, m) == Some(Render(s)) && s.kind == Data
    ensures s.namespace == e.namespace && s.generation == e.generation
    ensures GroupTag(p, e, m) == Some(s.tag)
  {
    s := Shape(e.namespace, e.generation, GroupTag(p, e, m).value, Data,
      Base64Digest(p, p.canonical(Obj(Body(e, m))).value));
  }

  /** A key that was within the limit always has a lease key, which is a lease key
      of the same length, tag and slot and never a data key. */
  lemma LeaseKeyAlwaysFits(p: Platform, e: Encoder, m: Material)
    requires ValidEncoder(e) && Encode(p, e, m).Some?
    ensures var key, lease := Encode(p, e, m).value, LeaseKey(p, e, Encode(p, e, m).value);
            && lease.Some? && |lease.value| == |key|
            && IsData(key) && IsLease(lease.value)
            && HashTag(lease.value) == HashTag(key)
            && (m.group.Some? ==> HashSlot(p, lease.value) == HashSlot(p, key))
  {
    hide Encode, Render, Read, LeaseKey, HashTag, GroupTag;
    var s := ShapeOfEncoded(p, e, m);
    EncodedShape(p, e, m);
    LeaseKeyOf(p, e, s);
    var shape := Shape(e.namespace, e.generation, s.tag, Lease, Base64Digest(p, Render(s)));
    ReadRender(shape);
    HashTagOf(s);
    HashTagOf(shape);
  }

  /** Generations and kinds never meet, whatever SHA-256 does and whichever
      namespaces the two encoders serve. */
  lemma LayoutDisjoint(p: Platform, e: Encoder, f: Encoder, m: Material, k: Material)
    requires ValidEncoder(e) && ValidEncoder(f)
    requires Encode(p, e, m).Some? && Encode(p, f, k).Some?
    ensures e.generation != f.generation || e.namespace != f.namespace ==> Encode(p, e, m) != Encode(p, f, k)
    ensures LeaseKey(p, e, Encode(p, e, m).value) != Encode(p, f, k)
    ensures e.generation != f.generation || e.namespace != f.namespace ==>
              LeaseKey(p, e, Encode(p, e, m).value) != LeaseKey(p, f, Encode(p, f, k).value)
  {
    hide Encode, Render, Read, LeaseKey;
    EncodedShape(p, e, m);
    EncodedShape(p, f, k);
    LeaseKeyAlwaysFits(p, e, m);
    LeaseKeyAlwaysFits(p, f, k);
    var s := ShapeOfEncoded(p, e, m);
    var t := ShapeOfEncoded(p, f, k);
    LeaseKeyOf(p, e, s);
    LeaseKeyOf(p, f, t);
    ReadRender(Shape(e.namespace, e.generation, s.tag, Lease, Base64Digest(p, Render(s))));
    ReadRender(Shape(f.namespace, f.generation, t.tag, Lease, Base64Digest(p, Render(t))));
  }

  /** Within one encoder, and barring a SHA-256 collision on the two bodies, equal
      keys come from equal scope, Resource, logical key and schema. */
  lemma KeyDeterminesMaterial(p: Platform, e: Encoder, m: Material, k: Material)
    requires Lawful(p) && ValidEncoder(e)
    requires Encode(p, e, m).Some? && Encode(p, e, m) == Encode(p, e, k)
    requires var a, b := p.canonical(Obj(Body(e, m))).value, p.canonical(Obj(Body(e, k))).value;
             p.sha256(a) == p.sha256(b) ==> a == b
    ensures m.scope == k.scope && m.resource == k.resource && m.logicalKey == k.logicalKey && m.schema == k.schema
  {
    hide Render, Read;
    var a, b := p.canonical(Obj(Body(e, m))).value, p.canonical(Obj(Body(e, k))).value;
    ReadRender(Shape(e.namespace, e.generation, GroupTag(p, e, m).value, Data, Base64Digest(p, a)));
    ReadRender(Shape(e.namespace, e.generation, GroupTag(p, e, k).value, Data, Base64Digest(p, b)));
    Base64Url.EncodeInjective(p.sha256(a), p.sha256(b));
    PrintInjective(p, Obj(Body(e, m)), Obj(Body(e, k)));
    var x, y := Body(e, m), Body(e, k);
    assert x[Scope] == y[Scope] && x[Resource] == y[Resource];
    assert x[LogicalKey] == y[LogicalKey] && x[SchemaFingerprint] == y[SchemaFingerprint];
  }

  /** Keys of one atomic group, and all their lease keys, share tag and slot. */
  lemma GroupSharesSlot(p: Platform, e: Encoder, m: Material, k: Material)
    requires ValidEncoder(e) && Encode(p, e, m).Some? && Encode(p, e, k).Some?
    requires m.group.Some? && m.scope == k.scope && m.resource == k.resource && m.group == k.group
    ensures var a, b := Encode(p, e, m).value, Encode(p, e, k).value;
            && HashTag(a).Some? && HashTag(a) == HashTag(b) && HashSlot(p, a) == HashSlot(p, b)
            && LeaseKey(p, e, b).Some? && HashSlot(p, LeaseKey(p, e, b).value) == HashSlot(p, a)
  {
    hide Encode, Render, Read, LeaseKey, HashTag;
    var s := ShapeOfEncoded(p, e, m);
    var t := ShapeOfEncoded(p, e, k);
    HashTagOf(s);
    HashTagOf(t);
    LeaseKeyAlwaysFits(p, e, k);
  }

  /** Exact lengths, so exactly which limits a key fits. */
  lemma KeyFitsExactly(p: Platform, e: Encoder, m: Material)
    requires ValidEncoder(e) && e.generation <= 2_147_483_647
    requires p.canonical(Obj(Body(e, m))).Some? && GroupTag(p, e, m).Some?
    ensures Encode(p, e, m).Some? <==>
            (if m.group.Some? then 97 else 72) + |Decimal(e.generation)| <= e.maxKeyBytes
    ensures 1 <= |Decimal(e.generation)| <= 10
    ensures m.group.None? && e.maxKeyBytes >= 96 ==> Encode(p, e, m).Some?
    ensures m.group.Some? && e.maxKeyBytes < 98 ==> Encode(p, e, m).None?
  {
    hide Render, Decimal;
    LengthOf(Shape(e.namespace, e.generation, GroupTag(p, e, m).value, Data,
      Base64Digest(p, p.canonical(Obj(Body(e, m))).value)));
    assert e.generation < Pow10(10) by { assert Pow10(5) == 100000; assert Pow10(10) == 100000 * Pow10(5); }
    DecimalLength(e.generation, 10);
  }

  /** The text of a key, written out: the encoder's prefix, the tag in braces if there is
      a group, `d` for data, and the digest. */
  lemma KeyTextExactly(p: Platform, e: Encoder, m: Material)
    requires Encode(p, e, m).Some?
    ensures var prefix := [109, 114, 118, 107, 58, 118, 49, 58] + e.namespace + [58, 103] + Decimal(e.generation);
            var digest := Base64Digest(p, p.canonical(Obj(Body(e, m))).value);
            && |Encode(p, e, m).value| <= e.maxKeyBytes
            && (m.group.None? ==> Encode(p, e, m).value == prefix + [58, 100, 58] + digest)
            && (m.group.Some? ==>
                  GroupTag(p, e, m).Some? && GroupTag(p, e, m).value.Some?
                  && Encode(p, e, m).value == prefix + [58, 123] + GroupTag(p, e, m).value.value + [125, 58, 100, 58] + digest)
  {
    hide Decimal, GroupTag;
    var prefix := [109, 114, 118, 107, 58, 118, 49, 58] + e.namespace + [58, 103] + Decimal(e.generation);
    var digest := Base64Digest(p, p.canonical(Obj(Body(e, m))).value);
    match GroupTag(p, e, m).value {
      case None =>
        assert [] + [58, 100, 58] + digest == [58, 100, 58] + digest;
        assert prefix + ([58, 100, 58] + digest) == prefix + [58, 100, 58] + digest;
      case Some(t) =>
        assert prefix + ([58, 123] + t + [125] + [58, 100, 58] + digest)
            == prefix + [58, 123] + t + [125, 58, 100, 58] + digest;
    }
  }

  /** The text of the lease key of an untagged key, written out. */
  lemma LeaseTextExactly(p: Platform, e: Encoder, key: Bytes)
    requires LeaseKey(p, e, key).Some? && HashTag(key) == None
    ensures LeaseKey(p, e, key).value == [109, 114, 118, 107, 58, 118, 49, 58] + e.namespace + [58, 103] + Decimal(e.generation)
              + [58, 108, 58] + Base64Digest(p, key)
  {
    hide Decimal, HashTag;
    var prefix := [109, 114, 118, 107, 58, 118, 49, 58] + e.namespace + [58, 103] + Decimal(e.generation);
    var digest := Base64Digest(p, key);
    assert [] + [58, 108, 58] + digest == [58, 108, 58] + digest;
    assert prefix + ([58, 108, 58] + digest) == prefix + [58, 108, 58] + digest;
  }

  /** Different namespaces get different prefixes, barring a collision on the sixteen
      characters kept of their digests. */
  lemma NamespacesSeparate(p: Platform, a: Bytes, b: Bytes, g: int, h: int, x: nat, y: nat)
    requires NewEncoder(p, a, g, x).Some? && NewEncoder(p, b, h, y).Some?
    requires Base64Digest(p, a)[..16] == Base64Digest(p, b)[..16] ==> a == b
    ensures NewEncoder(p, a, g, x).value.namespace == NewEncoder(p, b, h, y).value.namespace <==> a == b
  {
  }

  /** Different groups get different tags, barring a collision on the twenty-two
      characters kept of the digests of the two hashed texts. */
  lemma GroupsSeparate(p: Platform, e: Encoder, m: Material, k: Material)
    requires Lawful(p) && m.group.Some? && k.group.Some? && GroupTag(p, e, m).Some? && GroupTag(p, e, k).Some?
    requires var a, b := p.canonical(Obj(TagBody(e, m, m.group.value))).value, p.canonical(Obj(TagBody(e, k, k.group.value))).value;
             Base64Digest(p, a)[..22] == Base64Digest(p, b)[..22] ==> a == b
    ensures GroupTag(p, e, m) == GroupTag(p, e, k) <==> m.scope == k.scope && m.resource == k.resource && m.group == k.group
  {
    var x, y := TagBody(e, m, m.group.value), TagBody(e, k, k.group.value);
    if GroupTag(p, e, m) == GroupTag(p, e, k) {
      PrintInjective(p, Obj(x), Obj(y));
      assert x[Scope] == y[Scope] && x[Resource] == y[Resource] && x[AtomicGroup] == y[AtomicGroup];
    }
  }

  /** The first opening brace stands at `i` and the next closing one at `j`, not right
      behind it. */
  predicate Braces(key: Bytes, i: int, j: int) {
    && 0 <= i < j - 1 < |key| - 1 && key[i] == 123 && key[j] == 125
    && (forall m :: 0 <= m < i ==> key[m] != 123) && (forall m :: i < m < j ==> key[m] != 125)
  }

  /** The hash tag of any key is what stands between those two. */
  lemma HashTagExactly(key: Bytes, t: Bytes)
    ensures HashTag(key) == Some(t) <==> exists i, j :: Braces(key, i, j) && t == key[i + 1..j]
  {
    if i, j :| Braces(key, i, j) && t == key[i + 1..j] {
      assert Find(key, OPEN, 0) == i;
      assert Find(key, CLOSE, i + 1) == j;
    }
    if HashTag(key) == Some(t) {
      var i := Find(key, OPEN, 0);
      assert Braces(key, i, Find(key, CLOSE, i + 1));
    }
  }

  /** The slot is the CRC modulo 16384 of the tag, or of the whole key without one. */
  lemma HashSlotExactly(p: Platform, key: Bytes)
    ensures 0 <= HashSlot(p, key) < 16384
    ensures HashTag(key) == None ==> (p.crc16(key) - HashSlot(p, key)) % 16384 == 0
    ensures HashTag(key).Some? ==> (p.crc16(HashTag(key).value) - HashSlot(p, key)) % 16384 == 0
  {
    hide HashTag;
  }

  // -------------------------------------------------------------- shared slots

  /** `require_shared_hash_slot`: the common slot, or None where it raises. */
  method RequireSharedHashSlot(p: Platform, keys: seq<Bytes>) returns (r: Option<nat>)
    ensures r.Some? <==> keys != [] && forall i, j :: 0 <= i < |keys| && 0 <= j < |keys| ==>
              HashSlot(p, keys[i]) == HashSlot(p, keys[j])
    ensures r.Some? ==> forall i :: 0 <= i < |keys| ==> HashSlot(p, keys[i]) == r.value
  {
    hide HashSlot;
    if keys == [] { return None; }
    var slots: set<nat> := {};
    for n := 0 to |keys|
      invariant slots == set i | 0 <= i < n :: HashSlot(p, keys[i])
    {
      slots := slots + {HashSlot(p, keys[n])};
    }
    OneSlot(p, keys, slots);
    if |slots| != 1 { return None; }
    return Some(HashSlot(p, keys[0]));
  }

  lemma OneSlot(p: Platform, keys: seq<Bytes>, slots: set<nat>)
    requires keys != [] && slots == set i | 0 <= i < |keys| :: HashSlot(p, keys[i])
    ensures |slots| == 1 <==>
            forall i, j :: 0 <= i < |keys| && 0 <= j < |keys| ==> HashSlot(p, keys[i]) == HashSlot(p, keys[j])
  {
    hide HashSlot;
    var first := HashSlot(p, keys[0]);
    assert first in slots;
    if |slots| == 1 {
      assert slots == {first} by { assert |slots - {first}| == 0; }
      forall i | 0 <= i < |keys| ensures HashSlot(p, keys[i]) == first {
        assert HashSlot(p, keys[i]) in slots;
      }
    }
    if forall i :: 0 <= i < |keys| ==> HashSlot(p, keys[i]) == first {
      assert slots == {first};
    }
  }
}
