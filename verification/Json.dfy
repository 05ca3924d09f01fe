/** JSON values and the library functions the adapter calls but does not own. */
module Json {
  import opened Primitives

  /** Member names of the objects the adapter writes; any other name is
      OtherName.  Text is held as its UTF-8 bytes. */
  datatype Name =
    | FormatVersion | SerializerId | SchemaFingerprint | SourceVersionField
    | CreatedAtMs | ExpiresAtMs | PayloadDigest | PayloadLength | EnvelopeVersion
    | Scope | Resource | LogicalKey | AtomicGroup | NamespaceGeneration
    | OtherName(utf8: Bytes)

  /** NonFinite stands for NaN and the infinities, which `json.loads` produces
      and canonical printing refuses. */
  datatype Json =
    | Null
    | Bool(flag: bool)
    | Int(n: int)
    | Real(r: real)
    | NonFinite
    | Str(utf8: Bytes)
    | Arr(items: seq<Json>)
    | Obj(fields: map<Name, Json>)

  type Digest = d: Bytes | |d| == 32 witness seq(32, i => 0)

  /** What `json.loads` makes of UTF-8 text.  NotJson is a JSONDecodeError or a
      UnicodeDecodeError; BadNumber a plain ValueError, as for an integer of more
      digits than the interpreter converts; TooDeep a RecursionError. */
  datatype Text = Parses(json: Json) | NotJson | BadNumber | TooDeep

  /** SHA-256, CRC-16, `canonical_json_bytes` (None where it raises), whether that
      exception is a RecursionError rather than a TypeError or ValueError, and
      `json.loads` after UTF-8 decoding. */
  datatype Platform = Platform(
    sha256: Bytes -> Digest,
    crc16: Bytes -> nat,
    canonical: Json -> Option<Bytes>,
    deep: Json -> bool,
    loads: Bytes -> Text)

  /** What the adapter relies on: parsing undoes canonical printing, and the text
      of an object has its two braces and never the byte 0. */
  ghost predicate Lawful(p: Platform) {
    && (forall j: Json :: p.canonical(j).Some? ==> p.loads(p.canonical(j).value) == Parses(j))
    && (forall fields: map<Name, Json> :: p.canonical(Obj(fields)).Some? ==>
          |p.canonical(Obj(fields)).value| >= 2 && 0 !in p.canonical(Obj(fields)).value)
  }

  lemma PrintInjective(p: Platform, a: Json, b: Json)
    requires Lawful(p)
    requires p.canonical(a).Some? && p.canonical(a) == p.canonical(b)
    ensures a == b
  {
    assert p.loads(p.canonical(a).value) == Parses(a);
    assert p.loads(p.canonical(b).value) == Parses(b);
  }
}
