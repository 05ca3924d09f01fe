/** Round trip, inverse and version theorems of the envelope codec. */
module CodecTheorems {
  import opened Primitives
  import opened Json
  import opened Codec

  lemma FingerprintShape(p: Platform, b: Bytes)
    ensures IsFingerprint(Fingerprint(p, b))
  {
    var f := Fingerprint(p, b);
    assert f[..7] == SHA_PREFIX;
    assert forall i :: 7 <= i < 71 ==> f[i] == HexText(p.sha256(b))[i - 7];
  }

  /** A fingerprint is exactly the text of some digest. */
  lemma FingerprintExactly(b: Bytes)
    ensures IsFingerprint(b) <==> exists d: Digest :: b == SHA_PREFIX + HexText(d)
  {
    if IsFingerprint(b) {
      var d: Digest := Unhex(b[7..]);
      UnhexText(b[7..]);
      assert b == b[..7] + b[7..];
    }
    if d: Digest :| b == SHA_PREFIX + HexText(d) {
      assert b[..7] == SHA_PREFIX;
      assert forall i :: 7 <= i < 71 ==> b[i] == HexText(d)[i - 7];
    }
  }

  /** Exactly which byte strings carry a version, and which. */
  lemma ExtractVersionExactly(raw: Bytes, version: Bytes)
    ensures ExtractVersion(raw) == Some(version) <==>
            |raw| >= 78 && raw[..6] == MAGIC && raw[6..77] == version && raw[77] == PIPE && IsFingerprint(version)
  {
    hide IsFingerprint;
  }

  lemma FrameSlices(version: Bytes, headerText: Bytes, payload: Bytes)
    requires |version| == 71 && |headerText| < 0x1_0000_0000
    ensures var f, n := Framed(version, headerText, payload), |headerText|;
            && f[..6] == MAGIC && f[6..77] == version && f[77] == PIPE
            && n < Pow16(8) && f[78..86] == HexPad(n, 8) && f[86] == PIPE
            && f[87..87 + n] == headerText && f[87 + n..] == payload
  {
    hide HexPad, Pow16, IsLowerHex;
    Pow16Eight();
    var f, n := Framed(version, headerText, payload), |headerText|;
    var hex := HexPad(n, 8);
    assert f == MAGIC + (version + [PIPE] + hex + [PIPE] + headerText + payload);
    assert f == (MAGIC + version) + ([PIPE] + hex + [PIPE] + headerText + payload);
    assert f == (MAGIC + version + [PIPE] + hex) + ([PIPE] + headerText + payload);
    assert f == (MAGIC + version + [PIPE] + hex + [PIPE] + headerText) + payload;
    assert f[78..86] == (MAGIC + version + [PIPE] + hex)[78..];
    assert f[87..87 + n] == (MAGIC + version + [PIPE] + hex + [PIPE] + headerText)[87..];
  }

  // ------------------------------------------------------ what an encoder wrote

  /** The pieces of a frame that `encode` produced for `s`. */
  ghost predicate Made(p: Platform, s: Spec, baseText: Bytes, headerText: Bytes, payload: Bytes) {
    && IsFingerprint(s.schema) && s.ttl > 0 && s.created >= 0
    && PayloadOf(p, s.value, s.serializer) == Some(payload)
    && p.canonical(Obj(BaseFields(p, s, payload))) == Some(baseText)
    && p.canonical(Obj(BaseFields(p, s, payload)[EnvelopeVersion := Str(VersionOf(p, baseText, payload))]))
       == Some(headerText)
    && |headerText| < 0x1_0000_0000
  }

  function VersionOf(p: Platform, baseText: Bytes, payload: Bytes): Bytes {
    Fingerprint(p, Preimage(baseText, payload))
  }

  lemma EncodePieces(p: Platform, maxBytes: nat, s: Spec) returns (baseText: Bytes, headerText: Bytes, payload: Bytes)
    requires Encode(p, maxBytes, s).Ok?
    ensures Made(p, s, baseText, headerText, payload)
    ensures Encode(p, maxBytes, s) == Ok(Framed(VersionOf(p, baseText, payload), headerText, payload))
    ensures |Encode(p, maxBytes, s).value| <= maxBytes
  {
    payload := PayloadOf(p, s.value, s.serializer).value;
    var base := BaseFields(p, s, payload);
    baseText := p.canonical(Obj(base)).value;
    headerText := p.canonical(Obj(base[EnvelopeVersion := Str(VersionOf(p, baseText, payload))])).value;
  }

  function HeaderOf(p: Platform, s: Spec, payload: Bytes, version: Bytes): Header
    requires s.created >= 0 && s.ttl > 0
  {
    Header(s.serializer, s.schema, SourceJson(s.source), s.created, s.created + s.ttl,
      Fingerprint(p, payload), |payload|, version)
  }

  lemma ReadWrittenHeader(p: Platform, s: Spec, payload: Bytes, version: Bytes)
    requires IsFingerprint(s.schema) && s.ttl > 0 && s.created >= 0 && IsFingerprint(version)
    ensures var fields := BaseFields(p, s, payload)[EnvelopeVersion := Str(version)];
            && ReadHeader(fields) == Some(HeaderOf(p, s, payload, version))
            && fields - {EnvelopeVersion} == BaseFields(p, s, payload)
  {
    hide IsFingerprint;
    FingerprintShape(p, payload);
    var fields := BaseFields(p, s, payload)[EnvelopeVersion := Str(version)];
    assert fields.Keys == REQUIRED;
    assert SerializerOf(Str(SerializerName(s.serializer))) == Some(s.serializer) by {
      assert |SerializerName(CanonicalJson)| != |SerializerName(RawBytes)|;
    }
  }

  lemma ParseBodyOfMade(p: Platform, s: Spec, baseText: Bytes, headerText: Bytes, payload: Bytes)
    requires Lawful(p) && Made(p, s, baseText, headerText, payload)
    ensures var v := VersionOf(p, baseText, payload);
            ParseBody(p, v, headerText, payload) == Ok(Frame(HeaderOf(p, s, payload, v), s.source, payload))
  {
    hide IsFingerprint, ReadHeader, BaseFields, Fingerprint;
    var v := VersionOf(p, baseText, payload);
    var fields := BaseFields(p, s, payload)[EnvelopeVersion := Str(v)];
    FingerprintShape(p, Preimage(baseText, payload));
    ReadWrittenHeader(p, s, payload, v);
    assert p.loads(headerText) == Parses(Obj(fields));
    assert SourceOf(SourceJson(s.source)) == Some(s.source);
  }

  /** Any spelling of the right length in the length field parses to the same frame. */
  lemma ParseMade(p: Platform, s: Spec, baseText: Bytes, headerText: Bytes, payload: Bytes, raw: Bytes)
    requires Lawful(p) && Made(p, s, baseText, headerText, payload)
    requires var v, n := VersionOf(p, baseText, payload), |headerText|;
             && |raw| == 87 + n + |payload|
             && raw[..6] == MAGIC && raw[6..77] == v && raw[77] == PIPE && raw[86] == PIPE
             && PythonHexInt(raw[78..86]) == Some(n)
             && raw[87..87 + n] == headerText && raw[87 + n..] == payload
    ensures var v := VersionOf(p, baseText, payload);
            Parse(p, raw) == Ok(Frame(HeaderOf(p, s, payload, v), s.source, payload))
  {
    hide ParseBody, PythonHexInt, IsFingerprint, Fingerprint;
    FingerprintShape(p, Preimage(baseText, payload));
    ParseBodyOfMade(p, s, baseText, headerText, payload);
  }

  lemma ValueOfPayload(p: Platform, s: Spec, payload: Bytes)
    requires Lawful(p) && PayloadOf(p, s.value, s.serializer) == Some(payload)
    ensures ValueOf(p, s.serializer, payload) == Ok(s.value)
  {
  }

  /** The envelope `decode` returns for what `encode` was given. */
  function EnvelopeOf(p: Platform, s: Spec, payload: Bytes, version: Bytes): Envelope {
    Envelope(s.value, s.serializer, s.schema, s.source, s.created, s.created + s.ttl,
      Fingerprint(p, payload), version)
  }

  /** What decoding does with an encoder-made frame, at every time and under every
      schema and staleness bound. */
  function DecodedSpec(
    p: Platform, s: Spec, payload: Bytes, version: Bytes, schema: Bytes, staleness: Option<int>, now: int
  ): Result<Envelope, CodecError> {
    if !IsFingerprint(schema) then Err(BadArgument)
    else if schema != s.schema then Err(SchemaMismatch)
    else if s.created + s.ttl <= now then Err(Expired)
    else if staleness.Some? && staleness.value <= 0 then Err(BadArgument)
    else if staleness.Some? && s.created + staleness.value <= now then Err(Expired)
    else Ok(EnvelopeOf(p, s, payload, version))
  }

  lemma DecodeMade(
    p: Platform, maxBytes: nat, s: Spec, baseText: Bytes, headerText: Bytes, payload: Bytes, raw: Bytes,
    schema: Bytes, staleness: Option<int>, now: int)
    requires Lawful(p) && Made(p, s, baseText, headerText, payload) && 0 < |raw| <= maxBytes
    requires var v := VersionOf(p, baseText, payload);
             Parse(p, raw) == Ok(Frame(HeaderOf(p, s, payload, v), s.source, payload))
    ensures Decode(p, maxBytes, raw, schema, staleness, now)
         == DecodedSpec(p, s, payload, VersionOf(p, baseText, payload), schema, staleness, now)
  {
    hide Parse, IsFingerprint, Fingerprint, ValueOf;
    ValueOfPayload(p, s, payload);
  }

  lemma MadeFrameParses(p: Platform, s: Spec, baseText: Bytes, headerText: Bytes, payload: Bytes)
    requires Lawful(p) && Made(p, s, baseText, headerText, payload)
    ensures var v := VersionOf(p, baseText, payload);
            Parse(p, Framed(v, headerText, payload)) == Ok(Frame(HeaderOf(p, s, payload, v), s.source, payload))
  {
    hide Framed, PythonHexInt, Parse;
    var v := VersionOf(p, baseText, payload);
    FrameSlices(v, headerText, payload);
    PythonHexIntOfPad(|headerText|, 8);
    ParseMade(p, s, baseText, headerText, payload, Framed(v, headerText, payload));
  }

  /** The frame never exceeds the limit, and decoding it gives the value and every
      header field back exactly until the earlier of the two expiry bounds. */
  lemma RoundTrip(p: Platform, maxBytes: nat, s: Spec, schema: Bytes, staleness: Option<int>, now: int)
    returns (payload: Bytes, version: Bytes)
    requires Lawful(p) && Encode(p, maxBytes, s).Ok?
    ensures |Encode(p, maxBytes, s).value| <= maxBytes
    ensures PayloadOf(p, s.value, s.serializer) == Some(payload)
    ensures ExtractVersion(Encode(p, maxBytes, s).value) == Some(version)
    ensures Decode(p, maxBytes, Encode(p, maxBytes, s).value, schema, staleness, now)
         == DecodedSpec(p, s, payload, version, schema, staleness, now)
  {
    hide Framed, Parse, Decode, Encode;
    var baseText, headerText;
    baseText, headerText, payload := EncodePieces(p, maxBytes, s);
    version := VersionOf(p, baseText, payload);
    FrameSlices(version, headerText, payload);
    FingerprintShape(p, Preimage(baseText, payload));
    MadeFrameParses(p, s, baseText, headerText, payload);
    DecodeMade(p, maxBytes, s, baseText, headerText, payload, Framed(version, headerText, payload), schema, staleness, now);
  }

  lemma EncodedSchema(p: Platform, maxBytes: nat, s: Spec)
    requires Encode(p, maxBytes, s).Ok?
    ensures IsFingerprint(s.schema) && s.ttl > 0 && s.created >= 0
  {
    hide PayloadOf, BaseFields, Framed, IsFingerprint;
  }

  /** The header of this payload prints, with and without the version, and the frame
      fits the limit. */
  predicate Fits(p: Platform, maxBytes: nat, s: Spec, name: Bytes, payload: Bytes) {
    var base := map[
      FormatVersion := Str(FORMAT),
      SerializerId := Str(name),
      SchemaFingerprint := Str(s.schema),
      SourceVersionField := (match s.source case NoVersion => Null case TextVersion(t) => Str(t) case NumberVersion(n) => Int(n)),
      CreatedAtMs := Int(s.created),
      ExpiresAtMs := Int(s.created + s.ttl),
      PayloadDigest := Str(Fingerprint(p, payload)),
      PayloadLength := Int(|payload|)];
    match p.canonical(Obj(base))
    case None => false
    case Some(text) =>
      match p.canonical(Obj(base[EnvelopeVersion := Str(Fingerprint(p, text + [0] + payload))]))
      case None => false
      case Some(header) => |header| < 0x1_0000_0000 && 87 + |header| + |payload| <= maxBytes
  }

  /** Exactly what can be encoded: a value of the serializer's kind that prints, under a
      fingerprint, a positive TTL and a time that is not negative, whose header prints
      and whose frame fits the limit. */
  lemma EncodeExactly(p: Platform, maxBytes: nat, s: Spec)
    ensures Encode(p, maxBytes, s).Ok? <==>
            && IsFingerprint(s.schema) && s.ttl > 0 && s.created >= 0
            && match (s.serializer, s.value)
               case (RawBytes, ByteValue(b)) => Fits(p, maxBytes, s, SerializerName(RawBytes), b)
               case (CanonicalJson, JsonValue(j)) =>
                 p.canonical(j).Some? && Fits(p, maxBytes, s, SerializerName(CanonicalJson), p.canonical(j).value)
               case _ => false
  {
    hide IsFingerprint, Fingerprint;
  }

  // --------------------------------------------------------- the other direction

  /** The object whose canonical text a checked header came from. */
  function FieldsOf(h: Header): map<Name, Json> {
    map[
      FormatVersion := Str(FORMAT),
      SerializerId := Str(SerializerName(h.serializer)),
      SchemaFingerprint := Str(h.schema),
      SourceVersionField := h.source,
      CreatedAtMs := Int(h.created),
      ExpiresAtMs := Int(h.expires),
      PayloadDigest := Str(h.payloadDigest),
      PayloadLength := Int(h.payloadLength),
      EnvelopeVersion := Str(h.version)]
  }

  lemma ReadHeaderInverse(fields: map<Name, Json>)
    requires ReadHeader(fields).Some?
    ensures FieldsOf(ReadHeader(fields).value) == fields
  {
    hide IsFingerprint;
    var f := FieldsOf(ReadHeader(fields).value);
    assert f.Keys == REQUIRED;
    forall k | k in fields ensures f[k] == fields[k] {
    }
  }

  /** Every frame the parser accepts is, outside the eight length characters, the
      framing of its own header and payload. */
  lemma ParsedPieces(p: Platform, raw: Bytes) returns (n: nat, baseText: Bytes)
    requires Parse(p, raw).Ok?
    ensures var f := Parse(p, raw).value;
            && |raw| >= 87 && PythonHexInt(raw[78..86]) == Some(n) && n < 0x1_0000_0000 && 87 + n <= |raw|
            && raw[..6] == MAGIC && raw[6..77] == f.header.version && raw[77] == PIPE && raw[86] == PIPE
            && f.payload == raw[87 + n..]
            && p.canonical(Obj(FieldsOf(f.header) - {EnvelopeVersion})) == Some(baseText)
            && p.canonical(Obj(FieldsOf(f.header))) == Some(raw[87..87 + n])
            && f.header.version == VersionOf(p, baseText, f.payload)
            && f.header.payloadDigest == Fingerprint(p, f.payload)
            && f.header.payloadLength == |f.payload|
            && IsFingerprint(f.header.schema) && f.header.created < f.header.expires
            && SourceOf(f.header.source) == Some(f.source)
  {
    hide PythonHexInt, Fingerprint, FieldsOf, IsFingerprint;
    n := PythonHexInt(raw[78..86]).value;
    PythonHexIntBound(raw[78..86]);
    var fields := p.loads(HeaderText(raw, n)).json.fields;
    ReadHeaderInverse(fields);
    CheckedHeader(fields);
    baseText := p.canonical(Obj(fields - {EnvelopeVersion})).value;
  }

  lemma CheckedHeader(fields: map<Name, Json>)
    requires ReadHeader(fields).Some?
    ensures var h := ReadHeader(fields).value; IsFingerprint(h.schema) && h.created < h.expires
  {
  }

  /** The encode call that would have produced a decoded envelope. */
  function SpecOf(e: Envelope): Spec {
    Spec(e.value, e.serializer, e.schema, e.expires - e.created, e.source, e.created)
  }

  lemma SpecFields(p: Platform, f: Frame, s: Spec)
    requires SourceOf(f.header.source) == Some(f.source)
    requires f.header.payloadDigest == Fingerprint(p, f.payload) && f.header.payloadLength == |f.payload|
    requires s.serializer == f.header.serializer && s.schema == f.header.schema && s.source == f.source
    requires s.created == f.header.created && s.created + s.ttl == f.header.expires
    ensures BaseFields(p, s, f.payload) == FieldsOf(f.header) - {EnvelopeVersion}
    ensures BaseFields(p, s, f.payload)[EnvelopeVersion := Str(f.header.version)] == FieldsOf(f.header)
  {
  }

  /** The accepted frame with its length field in `%08x` form. */
  function Normalised(raw: Bytes, n: nat): Bytes
    requires |raw| >= 87 && n < Pow16(8)
  {
    raw[..78] + HexPad(n, 8) + raw[86..]
  }

  lemma NormalisedIsFramed(raw: Bytes, n: nat, version: Bytes)
    requires |raw| >= 87 + n && n < 0x1_0000_0000 && n < Pow16(8) && |version| == 71
    requires raw[..6] == MAGIC && raw[6..77] == version && raw[77] == PIPE && raw[86] == PIPE
    ensures Normalised(raw, n) == Framed(version, raw[87..87 + n], raw[87 + n..])
    ensures |Normalised(raw, n)| == |raw|
    ensures Normalised(raw, n) == raw <==> raw[78..86] == HexPad(n, 8)
  {
    hide HexPad;
    var hex := HexPad(n, 8);
    assert raw[..78] == MAGIC + version + [PIPE] by {
      assert raw[..78] == raw[..6] + raw[6..77] + raw[77..78];
    }
    assert raw[86..] == [PIPE] + raw[87..87 + n] + raw[87 + n..] by {
      assert raw[86..] == raw[86..87] + raw[87..87 + n] + raw[87 + n..];
    }
    assert raw == raw[..78] + raw[78..86] + raw[86..];
    var m := Normalised(raw, n);
    assert m[78..86] == hex;
    assert m == Framed(version, raw[87..87 + n], raw[87 + n..]) by {
      assert m == MAGIC + version + [PIPE] + hex + ([PIPE] + raw[87..87 + n] + raw[87 + n..]);
    }
  }

  lemma EncodeOfMade(p: Platform, maxBytes: nat, s: Spec, baseText: Bytes, headerText: Bytes, payload: Bytes)
    requires Made(p, s, baseText, headerText, payload)
    requires |Framed(VersionOf(p, baseText, payload), headerText, payload)| <= maxBytes
    ensures Encode(p, maxBytes, s) == Ok(Framed(VersionOf(p, baseText, payload), headerText, payload))
  {
    hide IsFingerprint, Fingerprint, BaseFields, PayloadOf;
  }

  /** Every byte string `decode` accepts is, outside the eight length characters,
      the encoding of what it decoded to; it is that encoding itself exactly when
      those characters are the `%08x` form. */
  lemma Reencode(p: Platform, maxBytes: nat, raw: Bytes, schema: Bytes, staleness: Option<int>, now: int)
    returns (n: nat)
    requires Decode(p, maxBytes, raw, schema, staleness, now).Ok?
    ensures |raw| >= 87 && PythonHexInt(raw[78..86]) == Some(n) && n < Pow16(8)
    ensures var e := Decode(p, maxBytes, raw, schema, staleness, now).value;
            && Encode(p, maxBytes, SpecOf(e)) == Ok(Normalised(raw, n))
            && (Encode(p, maxBytes, SpecOf(e)) == Ok(raw) <==> raw[78..86] == HexPad(n, 8))
  {
    hide Parse, PythonHexInt, Encode, HexPad, Framed, IsFingerprint, Fingerprint, BaseFields, FieldsOf, Normalised;
    var e := Decode(p, maxBytes, raw, schema, staleness, now).value;
    var f := Parse(p, raw).value;
    var baseText;
    n, baseText := ParsedPieces(p, raw);
    Pow16Eight();
    SpecFields(p, f, SpecOf(e));
    FingerprintShape(p, Preimage(baseText, f.payload));
    NormalisedIsFramed(raw, n, f.header.version);
    assert Made(p, SpecOf(e), baseText, raw[87..87 + n], f.payload);
    EncodeOfMade(p, maxBytes, SpecOf(e), baseText, raw[87..87 + n], f.payload);
  }

  /** Two accepted frames with the same header and payload differ at most in the
      length characters. */
  lemma SameFrameSameBytes(p: Platform, a: Bytes, b: Bytes)
    requires Parse(p, a).Ok? && Parse(p, a) == Parse(p, b)
    ensures |a| == |b| && |a| >= 87 && a[..78] == b[..78] && a[86..] == b[86..]
  {
    hide Parse, PythonHexInt, Fingerprint, FieldsOf;
    var n, ta := ParsedPieces(p, a);
    var m, tb := ParsedPieces(p, b);
    assert a[87..87 + n] == b[87..87 + m];
    assert a[..78] == a[..6] + a[6..77] + a[77..78];
    assert b[..78] == b[..6] + b[6..77] + b[77..78];
    assert a[86..] == [PIPE] + a[87..87 + n] + a[87 + n..];
    assert b[86..] == [PIPE] + b[87..87 + m] + b[87 + m..];
  }

  /** A frame with `+` instead of the leading zero of its length field. */
  function PlusSpelled(frame: Bytes): Bytes {
    if |frame| > 78 then frame[78 := 43] else frame
  }

  /** The length field really is not canonical: every encoded frame under 256 MiB
      has another spelling that carries the same version and decodes alike under every
      schema, bound and time, although it is not what re-encoding produces. */
  lemma LengthFieldAlias(p: Platform, maxBytes: nat, s: Spec)
    requires Lawful(p) && Encode(p, maxBytes, s).Ok? && |Encode(p, maxBytes, s).value| < 0x1000_0000
    ensures var frame := Encode(p, maxBytes, s).value;
            && PlusSpelled(frame) != frame
            && ExtractVersion(PlusSpelled(frame)) == ExtractVersion(frame)
            && (forall schema: Bytes, staleness: Option<int>, now: int ::
                  Decode(p, maxBytes, PlusSpelled(frame), schema, staleness, now)
                  == Decode(p, maxBytes, frame, schema, staleness, now))
  {
    hide Parse, PythonHexInt, Encode, Framed, Fingerprint, Decode, IsFingerprint, HexPad, Pow16, Lawful, PayloadOf, BaseFields,
      PlusSpelled;
    var baseText, headerText, payload := EncodePieces(p, maxBytes, s);
    var v, n := VersionOf(p, baseText, payload), |headerText|;
    var frame := Framed(v, headerText, payload);
    FrameSlices(v, headerText, payload);
    Pow16Eight();
    SpelledWithPlus(frame, n);
    var alias := PlusSpelled(frame);
    ParseMade(p, s, baseText, headerText, payload, alias);
    MadeFrameParses(p, s, baseText, headerText, payload);
    forall schema: Bytes, staleness: Option<int>, now: int
      ensures Decode(p, maxBytes, alias, schema, staleness, now) == Decode(p, maxBytes, frame, schema, staleness, now)
    {
      DecodeMade(p, maxBytes, s, baseText, headerText, payload, alias, schema, staleness, now);
      DecodeMade(p, maxBytes, s, baseText, headerText, payload, frame, schema, staleness, now);
    }
  }

  lemma SpelledWithPlus(frame: Bytes, n: nat)
    requires n < Pow16(7) && n < Pow16(8) && 87 + n <= |frame| && frame[78..86] == HexPad(n, 8)
    ensures var alias := PlusSpelled(frame);
            && |alias| == |frame| && alias != frame && PythonHexInt(alias[78..86]) == Some(n)
            && alias[..6] == frame[..6] && alias[6..77] == frame[6..77] && alias[77] == frame[77] && alias[86] == frame[86]
            && alias[87..87 + n] == frame[87..87 + n] && alias[87 + n..] == frame[87 + n..]
  {
    hide PythonHexInt, HexPad, Pow16;
    LeadingZero(n);
    PythonHexIntOfPad(n, 7);
    var alias := PlusSpelled(frame);
    assert frame[78] == frame[78..86][0];
    assert alias[78..86] == [43] + HexPad(n, 7) by {
      assert alias[79..86] == frame[78..86][1..];
    }
  }

  lemma LeadingZero(n: nat)
    requires n < Pow16(7) && n < Pow16(8)
    ensures HexPad(n, 8)[0] == 48 && HexPad(n, 8)[1..] == HexPad(n, 7)
  {
    hide Pow16;
    SmallQuotient(n, Pow16(7));
  }

  // ------------------------------------------------------------------- versions

  /** Header text and payload can be told apart in the hashed bytes. */
  lemma PreimageSplits(h1: Bytes, p1: Bytes, h2: Bytes, p2: Bytes)
    requires 0 !in h1 && 0 !in h2
    requires Preimage(h1, p1) == Preimage(h2, p2)
    ensures h1 == h2 && p1 == p2
  {
    var a, b := Preimage(h1, p1), Preimage(h2, p2);
    FirstZero(h1, p1);
    FirstZero(h2, p2);
    assert a[..|h1|] == h1 && b[..|h2|] == h2;
    assert a[|h1| + 1..] == p1 && b[|h2| + 1..] == p2;
  }

  lemma FirstZero(h: Bytes, payload: Bytes)
    requires 0 !in h
    ensures Find(Preimage(h, payload), 0, 0) == |h|
  {
    var a, k := Preimage(h, payload), Find(Preimage(h, payload), 0, 0);
    assert a[|h|] == 0;
    assert forall i :: 0 <= i < |h| ==> a[i] == h[i];
  }

  /** The bytes whose digest is the version of an encode call. */
  function PreimageOf(p: Platform, s: Spec): Bytes {
    match PayloadOf(p, s.value, s.serializer)
    case None => []
    case Some(payload) =>
      match p.canonical(Obj(BaseFields(p, s, payload)))
      case None => []
      case Some(baseText) => Preimage(baseText, payload)
  }

  predicate Collide(p: Platform, s: Spec, t: Spec) {
    p.sha256(PreimageOf(p, s)) == p.sha256(PreimageOf(p, t)) && PreimageOf(p, s) != PreimageOf(p, t)
  }

  lemma FingerprintInjective(p: Platform, a: Bytes, b: Bytes)
    requires Fingerprint(p, a) == Fingerprint(p, b)
    ensures p.sha256(a) == p.sha256(b)
  {
    assert Fingerprint(p, a)[7..] == HexText(p.sha256(a));
    assert Fingerprint(p, b)[7..] == HexText(p.sha256(b));
    HexTextInjective(p.sha256(a), p.sha256(b));
  }

  /** Unless SHA-256 collides on the two hashed texts, encodings with the same
      version are the same bytes of the same call. */
  lemma SameVersionSameFrame(p: Platform, maxBytes: nat, s: Spec, t: Spec)
    requires Lawful(p) && Encode(p, maxBytes, s).Ok? && Encode(p, maxBytes, t).Ok?
    requires ExtractVersion(Encode(p, maxBytes, s).value) == ExtractVersion(Encode(p, maxBytes, t).value)
    requires !Collide(p, s, t)
    ensures s == t
  {
    hide Parse, Encode, Framed, Fingerprint, IsFingerprint, BaseFields;
    var bs, hs, ps := EncodePieces(p, maxBytes, s);
    var bt, ht, pt := EncodePieces(p, maxBytes, t);
    FrameSlices(VersionOf(p, bs, ps), hs, ps);
    FrameSlices(VersionOf(p, bt, pt), ht, pt);
    FingerprintShape(p, Preimage(bs, ps));
    FingerprintShape(p, Preimage(bt, pt));
    FingerprintInjective(p, Preimage(bs, ps), Preimage(bt, pt));
    PreimageSplits(bs, ps, bt, pt);
    PrintInjective(p, Obj(BaseFields(p, s, ps)), Obj(BaseFields(p, t, pt)));
    SameFieldsSameSpec(p, s, t, ps);
  }

  lemma SameFieldsSameSpec(p: Platform, s: Spec, t: Spec, payload: Bytes)
    requires Lawful(p)
    requires PayloadOf(p, s.value, s.serializer) == Some(payload)
    requires PayloadOf(p, t.value, t.serializer) == Some(payload)
    requires BaseFields(p, s, payload) == BaseFields(p, t, payload)
    ensures s == t
  {
    hide Fingerprint;
    var f, g := BaseFields(p, s, payload), BaseFields(p, t, payload);
    assert f[SerializerId] == g[SerializerId] && f[SchemaFingerprint] == g[SchemaFingerprint];
    assert f[SourceVersionField] == g[SourceVersionField];
    assert f[CreatedAtMs] == g[CreatedAtMs] && f[ExpiresAtMs] == g[ExpiresAtMs];
    assert |SerializerName(CanonicalJson)| != |SerializerName(RawBytes)|;
    ValueOfPayload(p, s, payload);
    ValueOfPayload(p, t, payload);
  }

  /** The script's one-based slices 1..6 and 7..77 are the magic and the version. */
  lemma LuaSliceIsVersion(raw: Bytes)
    requires ExtractVersion(raw).Some?
    ensures LuaSub(raw, 1, 6) == MAGIC && ExtractVersion(raw) == Some(LuaSub(raw, 7, 77))
  {
  }

  /** On encoder-made values the script's prefix comparison says what a full decode
      and comparison of versions would say. */
  lemma ScriptAgreesWithDecode(
    p: Platform, maxBytes: nat, s: Spec, expected: Bytes, staleness: Option<int>, now: int)
    requires Lawful(p) && Encode(p, maxBytes, s).Ok?
    requires Decode(p, maxBytes, Encode(p, maxBytes, s).value, s.schema, staleness, now).Ok?
    ensures var raw := Encode(p, maxBytes, s).value;
            (LuaSub(raw, 1, 6) == MAGIC && LuaSub(raw, 7, 77) == expected)
            <==> Decode(p, maxBytes, raw, s.schema, staleness, now).value.version == expected
  {
    hide Encode, Decode, LuaSub, ExtractVersion;
    var payload, version := RoundTrip(p, maxBytes, s, s.schema, staleness, now);
    LuaSliceIsVersion(Encode(p, maxBytes, s).value);
  }

  // --------------------------------------------------------- unconverted errors

  predicate Ascii(b: Bytes) {
    forall i :: 0 <= i < |b| ==> b[i] < 128
  }

  /** The checks in front of the canonical print. */
  predicate ReachesPrint(p: Platform, version: Bytes, headerText: Bytes, payload: Bytes) {
    && p.loads(headerText).Parses? && p.loads(headerText).json.Obj?
    && ReadHeader(p.loads(headerText).json.fields).Some?
    && (var h := ReadHeader(p.loads(headerText).json.fields).value;
        h.payloadLength == |payload| && h.payloadDigest == Fingerprint(p, payload) && h.version == version)
  }

  /** A header that makes the parser raise something of its own. */
  predicate LoudHeader(p: Platform, version: Bytes, headerText: Bytes, payload: Bytes) {
    || p.loads(headerText).BadNumber?
    || p.loads(headerText).TooDeep?
    || (ReachesPrint(p, version, headerText, payload)
        && PrintRefused(p, version, p.loads(headerText).json.fields, payload))
  }

  /** Canonical printing refuses the header, either without its version or, once the
      version has been confirmed, with it. */
  predicate PrintRefused(p: Platform, version: Bytes, fields: map<Name, Json>, payload: Bytes) {
    match p.canonical(Obj(fields - {EnvelopeVersion}))
    case None => true
    case Some(text) => VersionOf(p, text, payload) == version && p.canonical(Obj(fields)).None?
  }

  /** A JSON payload nested too deep to be parsed or printed. */
  predicate LoudPayload(p: Platform, payload: Bytes) {
    || p.loads(payload).TooDeep?
    || (p.loads(payload).Parses? && p.canonical(p.loads(payload).json).None? && p.deep(p.loads(payload).json))
  }

  /** The length of the header, if magic, version, separators and length are in order. */
  function FramedLength(raw: Bytes): Option<nat> {
    if ExtractVersion(raw).None? || |raw| <= 86 || raw[86] != PIPE then None
    else
      match PythonHexInt(raw[78..86])
      case None => None
      case Some(n) => if n < 2 || 87 + n > |raw| then None else Some(n)
  }

  /** Schema and time let the frame through to its payload. */
  predicate Admits(f: Frame, schema: Bytes, staleness: Option<int>, now: int) {
    && IsFingerprint(schema) && f.header.schema == schema && now < f.header.expires
    && (staleness.Some? ==> 0 < staleness.value && now < f.header.created + staleness.value)
  }

  /** The bytes fit and are framed, and either the header makes the JSON parser raise
      something other than a decode error, or it passes the field checks and canonical
      printing refuses it, or the frame is accepted and its JSON payload is nested too
      deep. */
  predicate Leaks(p: Platform, maxBytes: nat, raw: Bytes, schema: Bytes, staleness: Option<int>, now: int) {
    && |raw| <= maxBytes && FramedLength(raw).Some?
    && var n := FramedLength(raw).value;
       || LoudHeader(p, raw[6..77], raw[87..87 + n], raw[87 + n..])
       || (Parse(p, raw).Ok? && Admits(Parse(p, raw).value, schema, staleness, now)
           && Parse(p, raw).value.header.serializer == CanonicalJson && LoudPayload(p, raw[87 + n..]))
  }

  /** Exactly when `decode` leaks a library exception instead of reporting corruption,
      over all byte strings. */
  lemma CrashExactly(p: Platform, maxBytes: nat, raw: Bytes, schema: Bytes, staleness: Option<int>, now: int)
    ensures Decode(p, maxBytes, raw, schema, staleness, now) == Err(Crash) <==> Leaks(p, maxBytes, raw, schema, staleness, now)
  {
    hide Fingerprint, IsFingerprint, PythonHexInt, ParseBody, LoudHeader;
    if FramedLength(raw).Some? {
      var n := FramedLength(raw).value;
      HeaderCrashes(p, raw[6..77], raw[87..87 + n], raw[87 + n..]);
      BodyErrors(p, raw[6..77], raw[87..87 + n], raw[87 + n..]);
    }
  }

  /** Under a fingerprint and a positive staleness bound, decoding answers an envelope,
      leaks, or reports one of three errors. */
  lemma DecodeErrors(p: Platform, maxBytes: nat, raw: Bytes, schema: Bytes, staleness: Option<int>, now: int)
    requires IsFingerprint(schema) && (staleness.Some? ==> staleness.value > 0)
    ensures var d := Decode(p, maxBytes, raw, schema, staleness, now);
            d.Err? ==> d.error in {Corruption, Expired, SchemaMismatch, Crash}
  {
    hide Fingerprint, IsFingerprint, PythonHexInt, ReadHeader;
  }

  /** The parser's own exceptions. */
  lemma HeaderCrashes(p: Platform, version: Bytes, headerText: Bytes, payload: Bytes)
    ensures ParseBody(p, version, headerText, payload) == Err(Crash) <==> LoudHeader(p, version, headerText, payload)
  {
    hide Fingerprint, ReadHeader;
  }

  lemma BodyErrors(p: Platform, version: Bytes, headerText: Bytes, payload: Bytes)
    ensures ParseBody(p, version, headerText, payload).Ok? ==> ParseBody(p, version, headerText, payload).value.payload == payload
  {
    hide Fingerprint, ReadHeader;
  }

  predicate HoldsInteger(t: Text, k: Name) {
    t.Parses? && t.json.Obj? && k in t.json.fields && t.json.fields[k].Int?
  }

  /** An object prints exactly when its members do and it is not nested too deep, and ASCII text and the integers of
      a parsed object always do. */
  ghost predicate PrintsByMembers(p: Platform) {
    && (forall b :: Ascii(b) ==> p.canonical(Str(b)).Some?)
    && (forall text, k :: HoldsInteger(p.loads(text), k) ==> p.canonical(p.loads(text).json.fields[k]).Some?)
    && (forall fields: map<Name, Json> ::
          p.canonical(Obj(fields)).Some? <==>
          !p.deep(Obj(fields)) && forall k :: k in fields ==> p.canonical(fields[k]).Some?)
  }

  /** The source version prints alone but not inside the header: it is nested just too
      deep. */
  predicate JustTooDeep(p: Platform, version: Bytes, fields: map<Name, Json>, payload: Bytes) {
    || p.deep(Obj(fields - {EnvelopeVersion}))
    || (var text := p.canonical(Obj(fields - {EnvelopeVersion}));
        text.Some? && VersionOf(p, text.value, payload) == version && p.deep(Obj(fields)))
  }

  /** Of a header that passed the field checks, printing can refuse only the source
      version, or the header for its depth: any JSON value may stand there until line
      272. */
  lemma OnlySourceRefused(p: Platform, version: Bytes, headerText: Bytes, payload: Bytes)
    requires PrintsByMembers(p) && ReachesPrint(p, version, headerText, payload)
    ensures var fields := p.loads(headerText).json.fields;
            && SourceVersionField in fields
            && (PrintRefused(p, version, fields, payload) <==>
                p.canonical(fields[SourceVersionField]).None? || JustTooDeep(p, version, fields, payload))
  {
    hide Fingerprint;
    var fields := p.loads(headerText).json.fields;
    forall k | k in fields && k != SourceVersionField ensures p.canonical(fields[k]).Some? {
      MemberPrints(p, headerText, k);
    }
    var base := fields - {EnvelopeVersion};
    assert forall k :: k in base ==> base[k] == fields[k];
    assert SourceVersionField in base;
  }

  lemma MemberPrints(p: Platform, headerText: Bytes, k: Name)
    requires PrintsByMembers(p) && p.loads(headerText).Parses? && p.loads(headerText).json.Obj?
    requires var fields := p.loads(headerText).json.fields;
             ReadHeader(fields).Some? && k in fields && k != SourceVersionField
    ensures p.canonical(p.loads(headerText).json.fields[k]).Some?
  {
    hide IsFingerprint, Ascii;
    var fields := p.loads(headerText).json.fields;
    if IsFingerprintJson(fields[k]) { FingerprintIsAscii(fields[k].utf8); }
    if fields[k].Int? { assert HoldsInteger(p.loads(headerText), k); }
    NamesAreAscii();
    assert k in REQUIRED;
  }

  lemma FingerprintIsAscii(b: Bytes)
    requires IsFingerprint(b)
    ensures Ascii(b)
  {
    assert forall i :: 0 <= i < 7 ==> b[i] == b[..7][i];
  }

  lemma NamesAreAscii()
    ensures Ascii(FORMAT) && Ascii(SerializerName(CanonicalJson)) && Ascii(SerializerName(RawBytes))
  {
  }

  /** So any such header text makes a frame that leaks under every schema, bound and
      time; where it is the JSON parser that raises, no digest has to match. */
  lemma LoudHeaderCrashes(p: Platform, maxBytes: nat, version: Bytes, headerText: Bytes, payload: Bytes,
                          schema: Bytes, staleness: Option<int>, now: int)
    requires LoudHeader(p, version, headerText, payload)
    requires IsFingerprint(version) && 2 <= |headerText| < 0x1_0000_0000
    requires 87 + |headerText| + |payload| <= maxBytes
    ensures Decode(p, maxBytes, Framed(version, headerText, payload), schema, staleness, now) == Err(Crash)
  {
    hide Framed, Parse, IsFingerprint, LoudHeader, ParseBody;
    FingerprintLength(version);
    ParseFramed(p, version, headerText, payload);
    HeaderCrashes(p, version, headerText, payload);
  }

  lemma ParseFramed(p: Platform, version: Bytes, headerText: Bytes, payload: Bytes)
    requires IsFingerprint(version) && 2 <= |headerText| < 0x1_0000_0000
    ensures Parse(p, Framed(version, headerText, payload)) == ParseBody(p, version, headerText, payload)
  {
    hide Framed, PythonHexInt, ParseBody, IsFingerprint, HexPad;
    FingerprintLength(version);
    FrameSlices(version, headerText, payload);
    Pow16Eight();
    PythonHexIntOfPad(|headerText|, 8);
  }

  lemma FingerprintLength(b: Bytes)
    requires IsFingerprint(b)
    ensures |b| == 71
  {
  }
}
