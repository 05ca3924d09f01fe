/** The self-validating value envelope:

      MRVK1| <71-byte version> | <8 hex digits> | <canonical JSON header> <payload>
*/
module Codec {
  import opened Primitives
  import opened Json

  const MAGIC: Bytes := [77, 82, 86, 75, 49, 124]                  // MRVK1|
  const SHA_PREFIX: Bytes := [115, 104, 97, 50, 53, 54, 58]        // sha256:
  const PIPE: byte := 124
  const FORMAT: Bytes :=                                           // meridian-valkey-envelope.v1
    [109, 101, 114, 105, 100, 105, 97, 110, 45, 118, 97, 108, 107, 101, 121, 45,
     101, 110, 118, 101, 108, 111, 112, 101, 46, 118, 49]

  datatype Serializer = CanonicalJson | RawBytes

  function SerializerName(s: Serializer): Bytes
  {
    match s
    case CanonicalJson => [99, 97, 110, 111, 110, 105, 99, 97, 108, 45, 106, 115, 111, 110]
    case RawBytes => [114, 97, 119, 45, 98, 121, 116, 101, 115]
  }

  datatype SourceVersion = NoVersion | TextVersion(utf8: Bytes) | NumberVersion(n: int)

  function SourceJson(s: SourceVersion): Json {
    match s
    case NoVersion => Null
    case TextVersion(t) => Str(t)
    case NumberVersion(n) => Int(n)
  }

  datatype CacheValue = JsonValue(json: Json) | ByteValue(bytes: Bytes)

  /** The arguments of one `encode` call, with the creation time it used. */
  datatype Spec = Spec(
    value: CacheValue,
    serializer: Serializer,
    schema: Bytes,
    ttl: int,
    source: SourceVersion,
    created: int)

  datatype Envelope = Envelope(
    value: CacheValue,
    serializer: Serializer,
    schema: Bytes,
    source: SourceVersion,
    created: int,
    expires: int,
    payloadDigest: Bytes,
    version: Bytes)

  /** Crash is a library exception that the codec does not convert. */
  datatype CodecError = BadArgument | TooLarge | Corruption | Expired | SchemaMismatch | Crash

  predicate IsFingerprint(b: Bytes) {
    && |b| == 71
    && b[..7] == SHA_PREFIX
    && (forall i :: 7 <= i < 71 ==> IsLowerHex(b[i]))
  }

  function Fingerprint(p: Platform, b: Bytes): (f: Bytes)
    ensures |f| == 71 && f == SHA_PREFIX + HexText(p.sha256(b))
  {
    SHA_PREFIX + HexText(p.sha256(b))
  }

  // ------------------------------------------------------------------- encoding

  function PayloadOf(p: Platform, value: CacheValue, serializer: Serializer): Option<Bytes> {
    match (serializer, value)
    case (CanonicalJson, JsonValue(j)) => p.canonical(j)
    case (RawBytes, ByteValue(b)) => Some(b)
    case _ => None
  }

  function BaseFields(p: Platform, s: Spec, payload: Bytes): map<Name, Json> {
    map[
      FormatVersion := Str(FORMAT),
      SerializerId := Str(SerializerName(s.serializer)),
      SchemaFingerprint := Str(s.schema),
      SourceVersionField := SourceJson(s.source),
      CreatedAtMs := Int(s.created),
      ExpiresAtMs := Int(s.created + s.ttl),
      PayloadDigest := Str(Fingerprint(p, payload)),
      PayloadLength := Int(|payload|)]
  }

  /** The bytes hashed for the envelope version. */
  function Preimage(baseText: Bytes, payload: Bytes): Bytes {
    baseText + [0] + payload
  }

  function Framed(version: Bytes, headerText: Bytes, payload: Bytes): (f: Bytes)
    requires |headerText| < 0x1_0000_0000
    ensures |f| == |version| + 16 + |headerText| + |payload|
  {
    Pow16Eight();
    MAGIC + version + [PIPE] + HexPad(|headerText|, 8) + [PIPE] + headerText + payload
  }

  function Encode(p: Platform, maxBytes: nat, s: Spec): Result<Bytes, CodecError> {
    if !IsFingerprint(s.schema) || s.ttl <= 0 || s.created < 0 then Err(BadArgument)
    else
      match PayloadOf(p, s.value, s.serializer)
      case None => Err(if s.value.JsonValue? && s.serializer == CanonicalJson && p.deep(s.value.json) then Crash else BadArgument)
      case Some(payload) =>
        if |payload| > maxBytes then Err(TooLarge)
        else
          var base := BaseFields(p, s, payload);
          match p.canonical(Obj(base))
          case None => Err(Crash)
          case Some(baseText) =>
            var version := Fingerprint(p, Preimage(baseText, payload));
            match p.canonical(Obj(base[EnvelopeVersion := Str(version)]))
            case None => Err(Crash)
            case Some(headerText) =>
              if |headerText| > 0xFFFF_FFFF then Err(TooLarge)
              else
                var frame := Framed(version, headerText, payload);
                if |frame| > maxBytes then Err(TooLarge) else Ok(frame)
  }

  // ------------------------------------------------------------------- decoding

  function ExtractVersion(raw: Bytes): Option<Bytes> {
    if |raw| < 78 || raw[..6] != MAGIC || raw[77] != PIPE then None
    else if IsFingerprint(raw[6..77]) then Some(raw[6..77])
    else None
  }

  /** The header after its fields have been checked one by one; `source` is still
      whatever JSON the field held. */
  datatype Header = Header(
    serializer: Serializer,
    schema: Bytes,
    source: Json,
    created: nat,
    expires: nat,
    payloadDigest: Bytes,
    payloadLength: nat,
    version: Bytes)

  const REQUIRED: set<Name> := {FormatVersion, SerializerId, SchemaFingerprint, SourceVersionField,
    CreatedAtMs, ExpiresAtMs, PayloadDigest, PayloadLength, EnvelopeVersion}

  function SerializerOf(j: Json): Option<Serializer> {
    if j == Str(SerializerName(CanonicalJson)) then Some(CanonicalJson)
    else if j == Str(SerializerName(RawBytes)) then Some(RawBytes)
    else None
  }

  predicate IsFingerprintJson(j: Json) {
    j.Str? && IsFingerprint(j.utf8)
  }

  predicate IsInstant(j: Json) {
    j.Int? && j.n >= 0
  }

  /** The V1 field checks, up to the ordering of creation and expiry. */
  function ReadHeader(fields: map<Name, Json>): Option<Header> {
    if fields.Keys != REQUIRED then None
    else if fields[FormatVersion] != Str(FORMAT) then None
    else if SerializerOf(fields[SerializerId]).None? then None
    else if !IsFingerprintJson(fields[SchemaFingerprint])
         || !IsFingerprintJson(fields[PayloadDigest])
         || !IsFingerprintJson(fields[EnvelopeVersion]) then None
    else if !IsInstant(fields[CreatedAtMs]) || !IsInstant(fields[ExpiresAtMs])
         || !IsInstant(fields[PayloadLength]) then None
    else if fields[ExpiresAtMs].n <= fields[CreatedAtMs].n then None
    else Some(Header(
      SerializerOf(fields[SerializerId]).value,
      fields[SchemaFingerprint].utf8,
      fields[SourceVersionField],
      fields[CreatedAtMs].n,
      fields[ExpiresAtMs].n,
      fields[PayloadDigest].utf8,
      fields[PayloadLength].n,
      fields[EnvelopeVersion].utf8))
  }

  function SourceOf(j: Json): Option<SourceVersion> {
    match j
    case Null => Some(NoVersion)
    case Str(t) => Some(TextVersion(t))
    case Int(n) => Some(NumberVersion(n))
    case _ => None
  }

  datatype Frame = Frame(header: Header, source: SourceVersion, payload: Bytes)

  /** The slices of a frame whose length field reads as `n`. */
  function HeaderText(raw: Bytes, n: int): Bytes
    requires 0 <= n && 87 + n <= |raw|
  {
    raw[87..87 + n]
  }

  function Parse(p: Platform, raw: Bytes): Result<Frame, CodecError> {
    match ExtractVersion(raw)
    case None => Err(Corruption)
    case Some(version) =>
      if |raw| <= 86 || raw[86] != PIPE then Err(Corruption)
      else
        match PythonHexInt(raw[78..86])
        case None => Err(Corruption)
        case Some(n) =>
          if n < 2 || 87 + n > |raw| then Err(Corruption)
          else ParseBody(p, version, HeaderText(raw, n), raw[87 + n..])
  }

  function ParseBody(p: Platform, version: Bytes, headerText: Bytes, payload: Bytes): Result<Frame, CodecError> {
    match p.loads(headerText)
    case BadNumber => Err(Crash)
    case TooDeep => Err(Crash)
    case Parses(Obj(fields)) => (
      match ReadHeader(fields)
      case None => Err(Corruption)
      case Some(h) =>
        if h.payloadLength != |payload| || h.payloadDigest != Fingerprint(p, payload) || h.version != version
        then Err(Corruption)
        else
          match p.canonical(Obj(fields - {EnvelopeVersion}))
          case None => Err(Crash)
          case Some(baseText) =>
            if Fingerprint(p, Preimage(baseText, payload)) != version then Err(Corruption)
            else
              match p.canonical(Obj(fields))
              case None => Err(Crash)
              case Some(text) =>
                if text != headerText then Err(Corruption)
                else
                  match SourceOf(h.source)
                  case None => Err(Corruption)
                  case Some(source) => Ok(Frame(h, source, payload))
      )
    case _ => Err(Corruption)
  }

  /** Only TypeError and ValueError are converted here, so a RecursionError escapes. */
  function ValueOf(p: Platform, serializer: Serializer, payload: Bytes): Result<CacheValue, CodecError> {
    match serializer
    case RawBytes => Ok(ByteValue(payload))
    case CanonicalJson =>
      match p.loads(payload)
      case NotJson => Err(Corruption)
      case BadNumber => Err(Corruption)
      case TooDeep => Err(Crash)
      case Parses(j) =>
        match p.canonical(j)
        case None => Err(if p.deep(j) then Crash else Corruption)
        case Some(text) => if text == payload then Ok(JsonValue(j)) else Err(Corruption)
  }

  function Decode(
    p: Platform, maxBytes: nat, raw: Bytes, schema: Bytes, staleness: Option<int>, now: int
  ): Result<Envelope, CodecError> {
    if raw == [] || |raw| > maxBytes then Err(Corruption)
    else
      match Parse(p, raw)
      case Err(e) => Err(e)
      case Ok(f) =>
        if !IsFingerprint(schema) then Err(BadArgument)
        else if f.header.schema != schema then Err(SchemaMismatch)
        else if f.header.expires <= now then Err(Expired)
        else if staleness.Some? && staleness.value <= 0 then Err(BadArgument)
        else if staleness.Some? && f.header.created + staleness.value <= now then Err(Expired)
        else
          match ValueOf(p, f.header.serializer, f.payload)
          case Err(error) => Err(error)
          case Ok(v) => Ok(Envelope(v, f.header.serializer, f.header.schema, f.source,
            f.header.created, f.header.expires, f.header.payloadDigest, f.header.version))
  }

  /** Lua's `string.sub(s, i, j)` for positive 1-based bounds. */
  function LuaSub(s: Bytes, i: nat, j: nat): Bytes
    requires 1 <= i
  {
    var hi := if j < |s| then j else |s|;
    if i - 1 < hi then s[i - 1..hi] else []
  }
}
