/** What the adapter's operations promise about each command they send.  The
    classes prove that every step of every operation is Disciplined, whatever the
    other actors do; the run theorems start from there. */
module Protocol {
  import opened Primitives
  import opened Json
  import opened Codec
  import opened Server
  import opened Runs
  import CodecTheorems
  import Keys
  import Settings

  /** One deployment: library functions, limits, and the policy of each key's Resource. */
  datatype Context = Context(
    platform: Platform,
    ttl: Settings.TtlPolicy,
    limits: Settings.Limits,
    flight: Settings.SingleFlight,
    policyOf: Key -> Settings.Policy)

  ghost predicate ValidContext(cx: Context) {
    && Settings.ValidTtl(cx.ttl) && Settings.ValidLimits(cx.limits) && Settings.ValidSingleFlight(cx.flight)
    && (forall k: Key :: Settings.ValidPolicy(cx.policyOf(k)))
  }

  function EncodeIn(cx: Context, s: Spec): Result<Bytes, CodecError> {
    Codec.Encode(cx.platform, cx.limits.maxValueBytes, s)
  }

  /** Decoding under the policy of key `k`. */
  function DecodeAt(cx: Context, k: Key, raw: Bytes, now: int): Result<Envelope, CodecError> {
    Codec.Decode(cx.platform, cx.limits.maxValueBytes, raw, cx.policyOf(k).schema, cx.policyOf(k).stalenessMs, now)
  }

  predicate IsNull(v: CacheValue) {
    v == JsonValue(Null)
  }

  // --------------------------------------------------------------------- numbers

  function NumberOf(v: CacheValue): Option<real> {
    match v
    case JsonValue(Int(n)) => Some(n as real)
    case JsonValue(Real(r)) => Some(r)
    case _ => None
  }

  predicate IsNumber(j: Json) {
    j.Int? || j.Real?
  }

  /** Python's `+` on JSON numbers, without rounding. */
  function Plus(a: Json, b: Json): (c: Json)
    requires IsNumber(a) && IsNumber(b)
    ensures IsNumber(c)
  {
    match (a, b)
    case (Int(m), Int(n)) => Int(m + n)
    case (Int(m), Real(n)) => Real(m as real + n)
    case (Real(m), Int(n)) => Real(m + n as real)
    case (Real(m), Real(n)) => Real(m + n)
  }

  lemma PlusAdds(a: Json, b: Json)
    requires IsNumber(a) && IsNumber(b)
    ensures NumberOf(JsonValue(Plus(a, b))) == Some(NumberOf(JsonValue(a)).value + NumberOf(JsonValue(b)).value)
  {
  }

  // ---------------------------------------------------------------------- claims

  /** The encode call behind a written value. */
  datatype Claim = Claim(spec: Spec, requested: Option<int>)

  /** The clock reading at which some stored bytes were decoded. */
  datatype Reading = Reading(raw: Bytes, at: int)

  /** The value was encoded for this key under its policy, no later than now, with
      an effective TTL that is also the server's. */
  ghost predicate WriteClaim(cx: Context, k: Key, bytes: Bytes, px: int, now: int, negative: bool, c: Claim) {
    var policy := cx.policyOf(k);
    && Keys.IsData(k)
    && EncodeIn(cx, c.spec) == Ok(bytes)
    && c.spec.schema == policy.schema && c.spec.serializer == policy.serializer
    && c.spec.ttl == px && c.spec.created <= now
    && Settings.EffectiveTtl(cx.ttl, policy, c.requested, negative) == Some(px)
  }

  ghost predicate PutClaim(cx: Context, k: Key, bytes: Bytes, px: int, now: int, c: Claim) {
    WriteClaim(cx, k, bytes, px, now, c.spec.value == JsonValue(Null) && cx.policyOf(k).negativeCaching, c)
  }

  lemma ClaimIsPositive(cx: Context, k: Key, value: Bytes, px: int, now: int, c: Claim)
    requires ValidContext(cx) && PutClaim(cx, k, value, px, now, c)
    ensures px > 0 && cx.flight.leaseMs > 0
  {
    hide EncodeIn, Keys.IsKey;
  }

  /** A swap names the version of a value its own caller read and validated, and
      passes that value's source version on. */
  ghost predicate CasClaim(cx: Context, read: Step, st: Step, c: Claim, r: Reading) {
    && st.cmd.EvalCas?
    && read.actor == st.actor && read.cmd == Get(st.cmd.key) && ReplyTo(read) == Found(Raw(r.raw))
    && DecodeAt(cx, st.cmd.key, r.raw, r.at).Ok?
    && (var e := DecodeAt(cx, st.cmd.key, r.raw, r.at).value;
        st.cmd.expected == e.version && c.spec.source == e.source)
    && WriteClaim(cx, st.cmd.key, st.cmd.value, st.cmd.px, st.pre.now, false, c)
  }

  /** An increment commits against the revision it watched before it read, and
      writes the number it read plus its amount, with the source version it read. */
  ghost predicate ExecClaim(cx: Context, watch: Step, read: Step, st: Step, c: Claim, r: Reading) {
    && st.cmd.Exec? && Keys.IsData(st.cmd.key)
    && watch.actor == read.actor == st.actor
    && watch.cmd == Watch(st.cmd.key) && ReplyTo(watch) == Revision(st.cmd.revision)
    && read.cmd == Get(st.cmd.key) && ReplyTo(read) == Found(Raw(r.raw))
    && NumberIn(cx, Raw(r.raw)).Some?
    && EncodeIn(cx, c.spec) == Ok(st.cmd.value) && c.spec.serializer == CanonicalJson
    && c.spec.ttl == st.cmd.px && c.spec.created <= st.pre.now
    && SourceIn(cx, Raw(r.raw)) == Some(c.spec.source)
    && NumberOf(c.spec.value) == Some(NumberIn(cx, Raw(r.raw)).value + st.cmd.amount)
  }

  /** The number a stored value holds, if it is a well-formed JSON-number envelope. */
  function NumberIn(cx: Context, v: Value): Option<real> {
    if v.Raw? && Parse(cx.platform, v.bytes).Ok? then
      var f := Parse(cx.platform, v.bytes).value;
      if f.header.serializer != CanonicalJson then None
      else
        match ValueOf(cx.platform, CanonicalJson, f.payload)
        case Err(_) => None
        case Ok(value) => NumberOf(value)
    else None
  }

  /** The source version inside a well-formed frame. */
  function SourceIn(cx: Context, v: Value): Option<SourceVersion> {
    if v.Raw? && Parse(cx.platform, v.bytes).Ok? then Some(Parse(cx.platform, v.bytes).value.source) else None
  }

  /** The lease a release names was granted earlier to the same actor. */
  predicate GrantOf(cx: Context, grant: Step, st: Step) {
    && st.cmd.EvalRelease?
    && grant.actor == st.actor
    && grant.cmd == SetNx(st.cmd.key, st.cmd.token, cx.flight.leaseMs)
    && ReplyTo(grant) == Done
  }

  ghost predicate Disciplined(cx: Context, run: seq<Step>, i: int)
    requires 0 <= i < |run|
  {
    var st := run[i];
    match st.cmd
    case Set(k, v, px) => exists c :: PutClaim(cx, k, v, px, st.pre.now, c)
    case SetNx(k, v, px) =>
      (Keys.IsLease(k) && px == cx.flight.leaseMs) || (exists c :: PutClaim(cx, k, v, px, st.pre.now, c))
    case EvalCas(_, _, _, _) =>
      exists g, c, r :: 0 <= g < i && CasClaim(cx, run[g], st, c, r)
    case Exec(_, _, _, _, _) =>
      exists w, g, c, r :: 0 <= w < g < i && ExecClaim(cx, run[w], run[g], st, c, r)
    case EvalRelease(k, _) =>
      Keys.IsLease(k) && exists g :: 0 <= g < i && GrantOf(cx, run[g], st)
    case Del(k) => Keys.IsData(k)
    case _ => true
  }

  /** A run of the adapter's own operations and of the environment. */
  ghost predicate AdapterRun(cx: Context, run: seq<Step>) {
    && FromEmpty(run)
    && (forall i :: 0 <= i < |run| ==> Disciplined(cx, run, i))
  }

  /** Discipline looks only backwards, so it survives whatever happens next. */
  lemma DisciplinedPrefix(cx: Context, before: seq<Step>, after: seq<Step>, i: int)
    requires 0 <= i < |before| && before <= after && Disciplined(cx, before, i)
    ensures Disciplined(cx, after, i)
  {
    hide CasClaim, ExecClaim, PutClaim, GrantOf;
    match before[i].cmd {
      case EvalCas(_, _, _, _) =>
        var g, c, r :| 0 <= g < i && CasClaim(cx, before[g], before[i], c, r);
        assert CasClaim(cx, after[g], after[i], c, r);
      case Exec(_, _, _, _, _) =>
        var w, g, c, r :| 0 <= w < g < i && ExecClaim(cx, before[w], before[g], before[i], c, r);
        assert ExecClaim(cx, after[w], after[g], after[i], c, r);
      case EvalRelease(_, _) =>
        var g :| 0 <= g < i && GrantOf(cx, before[g], before[i]);
        assert GrantOf(cx, after[g], after[i]);
      case _ =>
    }
  }

  /** From `from` on, every step of actor `me` is disciplined. */
  ghost predicate OwnDisciplined(cx: Context, run: seq<Step>, from: int, me: nat) {
    0 <= from <= |run| && forall i :: from <= i < |run| && run[i].actor == me ==> Disciplined(cx, run, i)
  }

  /** When every actor keeps the discipline from an empty server on, the whole run is
      one the run theorems speak about. */
  lemma EveryActorDisciplined(cx: Context, run: seq<Step>)
    requires FromEmpty(run) && forall a: nat :: OwnDisciplined(cx, run, 0, a)
    ensures AdapterRun(cx, run)
  {
    hide Disciplined;
    forall i | 0 <= i < |run| ensures Disciplined(cx, run, i) {
      assert OwnDisciplined(cx, run, 0, run[i].actor);
    }
  }

  lemma OwnDisciplinedJoins(cx: Context, before: seq<Step>, after: seq<Step>, from: int, me: nat)
    requires before <= after && OwnDisciplined(cx, before, from, me) && OwnDisciplined(cx, after, |before|, me)
    ensures OwnDisciplined(cx, after, from, me)
  {
    hide Disciplined;
    forall i | from <= i < |after| && after[i].actor == me ensures Disciplined(cx, after, i) {
      if i < |before| { DisciplinedPrefix(cx, before, after, i); }
    }
  }

  /** Reads, script loads and deletions of data keys need no claim. */
  lemma PlainIsDisciplined(cx: Context, run: seq<Step>, from: int, me: nat)
    requires 0 <= from <= |run|
    requires forall i :: from <= i < |run| && run[i].actor == me ==>
               Harmless(run[i].cmd) || (run[i].cmd.Del? && Keys.IsData(run[i].cmd.key))
    ensures OwnDisciplined(cx, run, from, me)
  {
    hide Keys.IsKey;
  }

  predicate Harmless(c: Command) {
    c.Get? || c.MGet? || c.Watch? || c.ScriptLoad?
  }

  lemma HarmlessIsDisciplined(cx: Context, run: seq<Step>, i: int)
    requires 0 <= i < |run| && Harmless(run[i].cmd)
    ensures Disciplined(cx, run, i)
  {
  }

  // --------------------------------------------------- what the discipline stores

  predicate ByAdapter(c: Command) {
    c.Set? || c.SetNx? || c.EvalCas? || c.Exec?
  }

  /** Everything an operation stores under a data key came out of the encoder. */
  lemma StoredIsEncoded(cx: Context, run: seq<Step>, w: int, k: Key) returns (spec: Spec)
    requires 0 <= w < |run| && Disciplined(cx, run, w)
    requires StoresUnder(run[w], k) && ByAdapter(run[w].cmd) && Keys.IsData(k)
    ensures Stores(run[w].pre, run[w].cmd) == Some((k, Raw(run[w].cmd.value)))
    ensures EncodeIn(cx, spec) == Ok(run[w].cmd.value)
    ensures spec.ttl == run[w].cmd.px && spec.created <= run[w].pre.now
  {
    hide DecodeAt, EncodeIn, NumberIn, SourceIn, Keys.Read, Keys.Render, Keys.WellFormed, ReplyTo, Swept;
    var st := run[w];
    match st.cmd {
      case Set(_, _, _) =>
        var c :| PutClaim(cx, k, st.cmd.value, st.cmd.px, st.pre.now, c);
        spec := c.spec;
      case SetNx(_, _, _) =>
        var c :| PutClaim(cx, k, st.cmd.value, st.cmd.px, st.pre.now, c);
        spec := c.spec;
      case EvalCas(_, _, _, _) =>
        var g, c, r :| 0 <= g < w && CasClaim(cx, run[g], st, c, r);
        spec := c.spec;
      case Exec(_, _, _, _, _) =>
        var x, g, c, r :| 0 <= x < g < w && ExecClaim(cx, run[x], run[g], st, c, r);
        spec := c.spec;
      case _ =>
    }
  }

  lemma NumberOfEncoded(cx: Context, spec: Spec)
    requires Lawful(cx.platform) && EncodeIn(cx, spec).Ok? && spec.serializer == CanonicalJson
    ensures NumberIn(cx, Raw(EncodeIn(cx, spec).value)) == NumberOf(spec.value)
  {
    hide Codec.Encode, Parse, ValueOf;
    var b, h, payload := CodecTheorems.EncodePieces(cx.platform, cx.limits.maxValueBytes, spec);
    CodecTheorems.MadeFrameParses(cx.platform, spec, b, h, payload);
    CodecTheorems.ValueOfPayload(cx.platform, spec, payload);
  }

  lemma SourceOfEncoded(cx: Context, spec: Spec)
    requires Lawful(cx.platform) && EncodeIn(cx, spec).Ok?
    ensures SourceIn(cx, Raw(EncodeIn(cx, spec).value)) == Some(spec.source)
  {
    hide Codec.Encode, Parse;
    var b, h, payload := CodecTheorems.EncodePieces(cx.platform, cx.limits.maxValueBytes, spec);
    CodecTheorems.MadeFrameParses(cx.platform, spec, b, h, payload);
  }

  /** Corruption of `k` that the parser would take for a real frame. */
  ghost predicate Forges(cx: Context, st: Step, k: Key) {
    st.cmd.Corrupt? && st.cmd.key == k && st.cmd.garbage.Raw? && Parse(cx.platform, st.cmd.garbage.bytes).Ok?
  }

  predicate Corrupts(st: Step, k: Key) {
    st.cmd.Corrupt? && st.cmd.key == k
  }

  /** Step `w` is the last before `n` to store under `k`. */
  predicate LastStore(run: seq<Step>, w: int, n: int, k: Key) {
    0 <= w < n <= |run| && StoresUnder(run[w], k) && forall m :: w < m < n ==> !StoresUnder(run[m], k)
  }

  /** What lies under `k` before step `n` did not get there by corruption. */
  ghost predicate SoundAt(run: seq<Step>, n: int, k: Key) {
    forall w :: LastStore(run, w, n, k) ==> !Corrupts(run[w], k)
  }

  /** Or at least not by corruption that forges a well-formed frame. */
  ghost predicate UnforgedAt(cx: Context, run: seq<Step>, n: int, k: Key) {
    forall w :: LastStore(run, w, n, k) ==> !Forges(cx, run[w], k)
  }

  /** No read of `k` before step `n` met a forged frame. */
  ghost predicate ReadsUnforged(cx: Context, run: seq<Step>, n: int, k: Key) {
    forall g :: 0 <= g < n <= |run| && run[g].cmd == Get(k) ==> UnforgedAt(cx, run, g, k)
  }
}
