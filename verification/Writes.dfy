/** The pure side of cache writes: what an operation seals into an envelope, and what
    its own steps in a run look like. */
module Writes {
  import opened Primitives
  import opened Json
  import opened Codec
  import opened Server
  import opened Runs
  import opened Protocol
  import opened Reads
  import opened Client
  import opened Atomic
  import CodecTheorems
  import Freshness
  import Keys
  import Settings
  import Swaps

  datatype PutResult = Stored(envelope: Envelope) | PutUnavailable | PutRaised

  datatype InsertResult = Inserted(stored: bool, envelope: Envelope) | InsertUnavailable | InsertRaised

  datatype CasResult =
    | CasDone(swapped: bool, missing: bool, corrupt: bool, entry: Option<Envelope>)
    | CasFailed
    | CasRaised

  datatype Sealed = Sealed(spec: Spec, bytes: Bytes)

  /** Effective TTL and encoding at time `now`; None where either raises. */
  function SealAt(
    cx: Context, k: Key, value: CacheValue, requested: Option<int>, source: SourceVersion, negative: bool, now: int
  ): Option<Sealed> {
    var policy := cx.policyOf(k);
    match Settings.EffectiveTtl(cx.ttl, policy, requested, negative)
    case None => None
    case Some(ttl) =>
      var spec := Spec(value, policy.serializer, policy.schema, ttl, source, now);
      match EncodeIn(cx, spec)
      case Err(_) => None
      case Ok(bytes) => Some(Sealed(spec, bytes))
  }

  predicate IsNegative(cx: Context, k: Key, value: CacheValue) {
    IsNull(value) && cx.policyOf(k).negativeCaching
  }

  /** Sealing succeeds exactly when there is an effective TTL and the value can be
      encoded with it under the key's policy, and seals exactly that. */
  lemma SealExactly(
    cx: Context, k: Key, value: CacheValue, requested: Option<int>, source: SourceVersion, negative: bool, now: int, spec: Spec,
    bytes: Bytes)
    ensures SealAt(cx, k, value, requested, source, negative, now) == Some(Sealed(spec, bytes)) <==>
            && spec.value == value && spec.source == source && spec.created == now
            && spec.schema == cx.policyOf(k).schema && spec.serializer == cx.policyOf(k).serializer
            && Settings.EffectiveTtl(cx.ttl, cx.policyOf(k), requested, negative) == Some(spec.ttl)
            && EncodeIn(cx, spec) == Ok(bytes)
  {
    hide EncodeIn, Settings.EffectiveTtl;
  }

  /** The TTL a write of this value must have. */
  ghost predicate TtlFor(cx: Context, k: Key, value: CacheValue, requested: Option<int>, px: int) {
    if value == JsonValue(Null) && cx.policyOf(k).negativeCaching
    then Settings.Longest(cx.ttl, cx.policyOf(k), cx.ttl.negativeMs, Some(px))
    else Settings.OrdinaryTtl(cx.ttl, cx.policyOf(k), requested, px)
  }

  lemma SealTtl(cx: Context, k: Key, value: CacheValue, requested: Option<int>, source: SourceVersion, negative: bool, now: int)
    requires ValidContext(cx) && SealAt(cx, k, value, requested, source, negative, now).Some?
    ensures var px := SealAt(cx, k, value, requested, source, negative, now).value.spec.ttl;
            && (negative == IsNegative(cx, k, value) ==> TtlFor(cx, k, value, requested, px))
            && (!negative ==> Settings.OrdinaryTtl(cx.ttl, cx.policyOf(k), requested, px))
  {
    hide EncodeIn, Settings.EffectiveTtl, Settings.Longest;
    assert Settings.ValidPolicy(cx.policyOf(k));
    Settings.TtlOf(cx.ttl, cx.policyOf(k), requested, negative);
  }

  /** A sealed value may be written at any later moment. */
  lemma SealClaims(
    cx: Context, k: Key, value: CacheValue, requested: Option<int>, source: SourceVersion, negative: bool, now: int,
    later: int)
    requires Keys.IsData(k) && now <= later
    requires SealAt(cx, k, value, requested, source, negative, now).Some?
    ensures var s := SealAt(cx, k, value, requested, source, negative, now).value;
            && WriteClaim(cx, k, s.bytes, s.spec.ttl, later, negative, Claim(s.spec, requested))
            && s.spec.value == value && s.spec.source == source && s.spec.ttl > 0
            && EncodeIn(cx, s.spec) == Ok(s.bytes)
  {
    hide PayloadOf, BaseFields, Framed, IsFingerprint, Keys.IsKey;
  }

  /** Decoding one's own envelope again gives back what was sealed, and at the time of
      sealing it succeeds. */
  lemma SealReopens(
    cx: Context, k: Key, value: CacheValue, requested: Option<int>, source: SourceVersion, negative: bool, now: int,
    later: int)
    requires Lawful(cx.platform) && ValidContext(cx)
    requires SealAt(cx, k, value, requested, source, negative, now).Some?
    ensures var s := SealAt(cx, k, value, requested, source, negative, now).value;
            && (DecodeAt(cx, k, s.bytes, later).Ok? ==>
                  CodecTheorems.SpecOf(DecodeAt(cx, k, s.bytes, later).value) == s.spec)
            && DecodeAt(cx, k, s.bytes, now).Ok?
  {
    hide Codec.Encode, Codec.Decode, PayloadOf, ExtractVersion, Lawful, IsFingerprint;
    var s := SealAt(cx, k, value, requested, source, negative, now).value;
    var policy := cx.policyOf(k);
    assert Settings.ValidPolicy(policy);
    if DecodeAt(cx, k, s.bytes, later).Ok? {
      Freshness.EncodedIsRead(cx, k, s.spec, later);
    }
    var payload, version := CodecTheorems.RoundTrip(
      cx.platform, cx.limits.maxValueBytes, s.spec, policy.schema, policy.stalenessMs, now);
  }

  /** The step writes this value, with this source version, under this key. */
  ghost predicate WritesValue(cx: Context, st: Step, k: Key, value: CacheValue, source: SourceVersion) {
    && (st.cmd.Set? || st.cmd.SetNx?) && st.cmd.key == k
    && exists c :: PutClaim(cx, k, st.cmd.value, st.cmd.px, st.pre.now, c) && c.spec.value == value && c.spec.source == source
  }

  /** From `from` on, the actor's only step, if any, is `at`. */
  predicate OnlyOwn(run: seq<Step>, from: int, me: nat, at: int) {
    && 0 <= from <= |run| && (at == -1 || (from <= at < |run| && run[at].actor == me))
    && (forall i :: from <= i < |run| && run[i].actor == me ==> i == at)
  }

  lemma WriteIsDisciplined(cx: Context, run: seq<Step>, from: int, me: nat, at: int, k: Key, value: CacheValue, source: SourceVersion)
    requires OnlyOwn(run, from, me, at) && (at >= 0 ==> WritesValue(cx, run[at], k, value, source))
    ensures OwnDisciplined(cx, run, from, me)
  {
    hide PutClaim, Keys.IsKey;
  }

  /** The step of a sealed put writes its value. */
  lemma PutWrites(cx: Context, st: Step, k: Key, s: Sealed, requested: Option<int>)
    requires st.cmd == Set(k, s.bytes, s.spec.ttl) || st.cmd == SetNx(k, s.bytes, s.spec.ttl)
    requires WriteClaim(cx, k, s.bytes, s.spec.ttl, st.pre.now, IsNegative(cx, k, s.spec.value), Claim(s.spec, requested))
    ensures WritesValue(cx, st, k, s.spec.value, s.spec.source)
  {
    hide WriteClaim;
    assert PutClaim(cx, k, st.cmd.value, st.cmd.px, st.pre.now, Claim(s.spec, requested));
  }

  lemma SetContents(st: Step)
    requires st.cmd.Set? && st.cmd.px > 0
    ensures Contents(Post(st)) == Contents(st.pre)[st.cmd.key := Entry(Raw(st.cmd.value), st.pre.now + st.cmd.px)]
    ensures Post(st).now == st.pre.now
  {
  }

  /** An insertion: stored exactly when the key was absent, otherwise nothing changes. */
  lemma InsertContents(st: Step)
    requires st.cmd.SetNx? && st.cmd.px > 0
    ensures ReplyTo(st) == Done <==> st.cmd.key !in Contents(st.pre)
    ensures ReplyTo(st) == Done <==> StoresUnder(st, st.cmd.key)
    ensures ReplyTo(st) == Done ==>
              Contents(Post(st)) == Contents(st.pre)[st.cmd.key := Entry(Raw(st.cmd.value), st.pre.now + st.cmd.px)]
    ensures ReplyTo(st) != Done ==> Post(st) == st.pre
    ensures Post(st).now == st.pre.now
  {
  }

  function WriteCommand(k: Key, s: Sealed, insert: bool): Command {
    if insert then SetNx(k, s.bytes, s.spec.ttl) else Set(k, s.bytes, s.spec.ttl)
  }

  /** The envelope holds this value and source version, and encodes to these bytes. */
  predicate EnvelopeFor(cx: Context, e: Envelope, value: CacheValue, source: SourceVersion, bytes: Bytes) {
    e.value == value && e.source == source && EncodeIn(cx, CodecTheorems.SpecOf(e)) == Ok(bytes)
  }

  /** Sealing, sending and decoding again, in one. */
  lemma SealFits(
    cx: Context, k: Key, value: CacheValue, requested: Option<int>, source: SourceVersion, negative: bool, now: int,
    later: int)
    requires Lawful(cx.platform) && ValidContext(cx)
    requires SealAt(cx, k, value, requested, source, negative, now).Some?
    ensures var s := SealAt(cx, k, value, requested, source, negative, now).value;
            && (DecodeAt(cx, k, s.bytes, later).Ok? ==>
                  EnvelopeFor(cx, DecodeAt(cx, k, s.bytes, later).value, value, source, s.bytes))
            && DecodeAt(cx, k, s.bytes, now).Ok?
            && s.spec.ttl > 0
  {
    hide EncodeIn, DecodeAt, Lawful, ValidContext;
    SealReopens(cx, k, value, requested, source, negative, now, later);
    SealIsPositive(cx, k, value, requested, source, negative, now);
  }

  lemma SealIsPositive(
    cx: Context, k: Key, value: CacheValue, requested: Option<int>, source: SourceVersion, negative: bool, now: int)
    requires SealAt(cx, k, value, requested, source, negative, now).Some?
    ensures SealAt(cx, k, value, requested, source, negative, now).value.spec.ttl > 0
  {
    hide PayloadOf, BaseFields, Framed, IsFingerprint;
  }

  lemma SealTime(
    cx: Context, k: Key, value: CacheValue, requested: Option<int>, source: SourceVersion, negative: bool, now: int)
    requires SealAt(cx, k, value, requested, source, negative, now).Some?
    ensures SealAt(cx, k, value, requested, source, negative, now).value.spec.created == now
  {
    hide EncodeIn;
  }

  /** A put with nobody else around: it raises exactly where sealing does, and
      otherwise its key, and no other, holds what a lookup now returns. */
  ghost predicate PutAlone(
    cx: Context, k: Key, s: Option<Sealed>, r: PutResult, before: map<Key, Entry>, after: map<Key, Entry>, now: int
  ) {
    match s
    case None => r.PutRaised? && after == before
    case Some(sealed) =>
      && after == before[k := Entry(Raw(sealed.bytes), now + sealed.spec.ttl)]
      && r.Stored? && Judge(cx, k, ValueIn(after, k), now) == Fresh(r.envelope)
  }

  lemma RaisedAlone(cx: Context, k: Key, s: Option<Sealed>, m: map<Key, Entry>, now: int)
    requires s.None?
    ensures PutAlone(cx, k, s, PutRaised, m, m, now)
  {
  }

  lemma StoredAlone(cx: Context, st: Step, k: Key, s: Sealed)
    requires st.cmd == WriteCommand(k, s, false) && s.spec.ttl > 0
    requires DecodeAt(cx, k, s.bytes, st.pre.now).Ok?
    ensures PutAlone(cx, k, Some(s), Stored(DecodeAt(cx, k, s.bytes, st.pre.now).value),
              Contents(st.pre), Contents(Post(st)), st.pre.now)
    ensures Post(st).now == st.pre.now
  {
    hide DecodeAt, Contents, Post;
    SetContents(st);
  }

  /** A put_if_absent with nobody else around. */
  ghost predicate InsertAlone(
    cx: Context, k: Key, s: Option<Sealed>, r: InsertResult, before: map<Key, Entry>, after: map<Key, Entry>
  ) {
    match s
    case None => r.InsertRaised? && after == before
    case Some(sealed) =>
      && r.Inserted? && (r.stored <==> k !in before)
      && (k in before ==> after == before)
      && (r.stored ==> k in after && after[k].value == Raw(sealed.bytes) && after - {k} == before)
  }

  // --------------------------------------------------------------- compare and set

  /** A caller may name the envelope version or the source version. */
  predicate Matches(expected: SourceVersion, e: Envelope) {
    expected == TextVersion(e.version) || expected == e.source
  }

  /** What a compare-and-set found to swap, or why there is nothing. */
  datatype Current = Current(envelope: Envelope) | Missing | Discard | Unreadable | Unreachable

  /** What it makes of a verdict; unlike lookup it counts a stale entry as corrupt. */
  function CurrentOf(v: Verdict): Current {
    match v
    case Absent => Missing
    case Fresh(e) => Current(e)
    case StaleEntry => Discard
    case BadEntry => Discard
    case Crashed => Unreadable
  }

  /** The actor read these bytes under the key and decoded them to this envelope. */
  ghost predicate Sighted(cx: Context, run: seq<Step>, from: int, me: nat, g: int, k: Key, r: Reading, e: Envelope) {
    && 0 <= from <= g < |run| && run[g].actor == me
    && run[g].cmd == Get(k) && ReplyTo(run[g]) == Found(Raw(r.raw))
    && DecodeAt(cx, k, r.raw, r.at) == Ok(e) && run[g].pre.now <= r.at
  }

  /** The step is the swap of `e` for a new value that keeps its source version. */
  ghost predicate SwapsFor(cx: Context, st: Step, k: Key, e: Envelope, value: CacheValue) {
    && st.cmd.EvalCas? && st.cmd.key == k && st.cmd.expected == e.version
    && exists c :: WriteClaim(cx, k, st.cmd.value, st.cmd.px, st.pre.now, false, c)
         && c.spec.value == value && c.spec.source == e.source
  }

  lemma SwapIsDisciplined(
    cx: Context, run: seq<Step>, from: int, me: nat, g: int, i: int, k: Key, r: Reading, e: Envelope, value: CacheValue)
    requires 0 <= g < i < |run| && run[i].actor == me
    requires Sighted(cx, run, from, me, g, k, r, e)
    requires SwapsFor(cx, run[i], k, e, value)
    ensures Disciplined(cx, run, i)
  {
    hide WriteClaim, DecodeAt, ReplyTo;
    var c :| WriteClaim(cx, k, run[i].cmd.value, run[i].cmd.px, run[i].pre.now, false, c)
      && c.spec.value == value && c.spec.source == e.source;
    assert CasClaim(cx, run[g], run[i], c, r);
  }

  lemma SealedSwap(cx: Context, st: Step, k: Key, e: Envelope, s: Sealed, requested: Option<int>)
    requires st.cmd == EvalCas(k, e.version, s.bytes, s.spec.ttl) && s.spec.source == e.source
    requires WriteClaim(cx, k, s.bytes, s.spec.ttl, st.pre.now, false, Claim(s.spec, requested))
    ensures SwapsFor(cx, st, k, e, s.spec.value)
  {
    hide WriteClaim;
  }

  /** A compare-and-set with nobody else around, case by case. */
  ghost predicate CasAlone(
    cx: Context, k: Key, expected: SourceVersion, value: CacheValue, requested: Option<int>, r: CasResult,
    before: map<Key, Entry>, after: map<Key, Entry>, now: int
  ) {
    match Judge(cx, k, ValueIn(before, k), now)
    case Absent => r == CasDone(false, true, false, None) && after == before
    case Crashed => r == CasRaised && after == before
    case Fresh(e) =>
      if expected != TextVersion(e.version) && expected != e.source
      then r == CasDone(false, false, false, Some(e)) && after == before
      else SwapAlone(cx, k, SealAt(cx, k, value, requested, e.source, false, now), r, before, after, now)
    case _ => r == CasDone(false, false, true, None) && after == before - {k}
  }

  ghost predicate SwapAlone(
    cx: Context, k: Key, s: Option<Sealed>, r: CasResult, before: map<Key, Entry>, after: map<Key, Entry>, now: int
  ) {
    match s
    case None => r == CasRaised && after == before
    case Some(sealed) =>
      && after == before[k := Entry(Raw(sealed.bytes), now + sealed.spec.ttl)]
      && r.CasDone? && r.swapped && !r.missing && !r.corrupt && r.entry.Some?
      && Judge(cx, k, ValueIn(after, k), now) == Fresh(r.entry.value)
  }

  /** The answer where nothing is swapped. */
  function Unswapped(found: Current): CasResult {
    match found
    case Missing => CasDone(false, true, false, None)
    case Discard => CasDone(false, false, true, None)
    case Current(e) => CasDone(false, false, false, Some(e))
    case Unreadable => CasRaised
    case Unreachable => CasFailed
  }

  lemma UnswappedAlone(
    cx: Context, k: Key, expected: SourceVersion, value: CacheValue, requested: Option<int>, found: Current,
    before: map<Key, Entry>, after: map<Key, Entry>, now: int)
    requires found == CurrentOf(Judge(cx, k, ValueIn(before, k), now))
    requires found.Current? ==> !Matches(expected, found.envelope)
    requires after == if found.Discard? then before - {k} else before
    ensures CasAlone(cx, k, expected, value, requested, Unswapped(found), before, after, now)
  {
    hide Judge, SwapAlone;
  }

  /** The live value decodes to an envelope of the expected envelope or source version,
      and the new value can be sealed under that source version. */
  predicate Swappable(
    cx: Context, k: Key, expected: SourceVersion, value: CacheValue, requested: Option<int>, m: map<Key, Entry>, now: int
  ) {
    && k in m && m[k].value.Raw? && DecodeAt(cx, k, m[k].value.bytes, now).Ok?
    && var e := DecodeAt(cx, k, m[k].value.bytes, now).value;
       && (expected == TextVersion(e.version) || expected == e.source)
       && SealAt(cx, k, value, requested, e.source, false, now).Some?
  }

  /** With nobody else around: exactly when it swaps. */
  lemma SwapsAlone(
    cx: Context, k: Key, expected: SourceVersion, value: CacheValue, requested: Option<int>, r: CasResult,
    before: map<Key, Entry>, after: map<Key, Entry>, now: int)
    requires CasAlone(cx, k, expected, value, requested, r, before, after, now)
    ensures r.CasDone? && r.swapped <==> Swappable(cx, k, expected, value, requested, before, now)
  {
    hide DecodeAt, SealAt;
  }

  lemma MatchedAlone(
    cx: Context, k: Key, expected: SourceVersion, value: CacheValue, requested: Option<int>, e: Envelope, r: CasResult,
    before: map<Key, Entry>, after: map<Key, Entry>, now: int)
    requires Current(e) == CurrentOf(Judge(cx, k, ValueIn(before, k), now)) && Matches(expected, e)
    requires SwapAlone(cx, k, SealAt(cx, k, value, requested, e.source, false, now), r, before, after, now)
    ensures CasAlone(cx, k, expected, value, requested, r, before, after, now)
  {
    hide Judge, SwapAlone, SealAt;
  }

  /** With the value it read still in place, the script swaps. */
  lemma SwapHappens(cx: Context, st: Step, k: Key, raw: Bytes, e: Envelope, at: int, s: Sealed)
    requires st.cmd == EvalCas(k, e.version, s.bytes, s.spec.ttl) && s.spec.ttl > 0 && ReplyTo(st) != NoScript
    requires ValueIn(Contents(st.pre), k) == Some(Raw(raw)) && DecodeAt(cx, k, raw, at) == Ok(e)
    ensures ReplyTo(st) == Code(1) && Post(st).now == st.pre.now
    ensures Contents(Post(st)) == Contents(st.pre)[k := Entry(Raw(s.bytes), st.pre.now + s.spec.ttl)]
  {
    hide DecodeAt, LuaSub, ExtractVersion;
    Swaps.DecodedVersion(cx, k, raw, at);
    CodecTheorems.LuaSliceIsVersion(raw);
    assert LiveValue(st.pre, k) == Some(Raw(raw));
    assert CasCode(LiveValue(st.pre, k), e.version) == 1;
  }

  lemma SightedLater(
    cx: Context, before: seq<Step>, after: seq<Step>, from: int, me: nat, g: int, k: Key, r: Reading, e: Envelope)
    requires before <= after && Sighted(cx, before, from, me, g, k, r, e)
    ensures Sighted(cx, after, from, me, g, k, r, e)
  {
    hide DecodeAt, ReplyTo;
  }

  /** The actor's steps are swaps of `e`, and script loads. */
  ghost predicate SwapSteps(cx: Context, run: seq<Step>, from: int, me: nat, k: Key, e: Envelope, value: CacheValue) {
    0 <= from <= |run| && forall i :: from <= i < |run| && run[i].actor == me ==>
      run[i].cmd == ScriptLoad(CasScript) || SwapsFor(cx, run[i], k, e, value)
  }

  /** None of the actor's steps stores under the key. */
  predicate StoresNothing(run: seq<Step>, from: int, me: nat, k: Key) {
    0 <= from <= |run| && forall i :: from <= i < |run| && run[i].actor == me ==> !StoresUnder(run[i], k)
  }

  lemma NothingStored(run: seq<Step>, from: int, me: nat, k: Key)
    requires 0 <= from <= |run| && forall i :: from <= i < |run| && run[i].actor == me ==> !StoresUnder(run[i], k)
    ensures StoresNothing(run, from, me, k)
  {
  }

  lemma StoresNothingSince(before: seq<Step>, after: seq<Step>, from: int, me: nat, k: Key)
    requires 0 <= from <= |before| && before <= after && StoresNothing(after, |before|, me, k)
    requires forall i :: from <= i < |before| ==> before[i].actor != me
    ensures StoresNothing(after, from, me, k)
  {
    hide StoresUnder;
  }

  lemma StoresNothingJoins(before: seq<Step>, after: seq<Step>, from: int, me: nat, k: Key)
    requires before <= after && StoresNothing(before, from, me, k) && StoresNothing(after, |before|, me, k)
    ensures StoresNothing(after, from, me, k)
  {
    hide StoresUnder;
  }

  lemma ReadsStoreNothing(run: seq<Step>, from: int, me: nat, k: Key)
    requires 0 <= from <= |run|
    requires forall i :: from <= i < |run| && run[i].actor == me ==> run[i].cmd == Get(k) || run[i].cmd == Del(k)
    ensures StoresNothing(run, from, me, k)
  {
  }

  function SwapCommand(k: Key, e: Envelope, s: Sealed): Command {
    EvalCas(k, e.version, s.bytes, s.spec.ttl)
  }

  lemma NoSwapSteps(cx: Context, run: seq<Step>, from: int, me: nat, k: Key, e: Envelope, value: CacheValue)
    requires 0 <= from <= |run| && forall i :: from <= i < |run| ==> run[i].actor != me
    ensures SwapSteps(cx, run, from, me, k, e, value) && OwnDisciplined(cx, run, from, me)
  {
  }

  lemma SwapStepsMade(
    cx: Context, run: seq<Step>, from: int, start: int, me: nat, g: int, k: Key, r: Reading, e: Envelope,
    value: CacheValue, requested: Option<int>, created: int, s: Sealed)
    requires Keys.IsData(k) && Sighted(cx, run, from, me, g, k, r, e) && g < start <= |run|
    requires SealAt(cx, k, value, requested, e.source, false, created) == Some(s)
    requires forall i :: start <= i < |run| && run[i].actor == me ==>
               && (run[i].cmd == EvalCas(k, e.version, s.bytes, s.spec.ttl) || run[i].cmd == ScriptLoad(CasScript))
               && created <= run[i].pre.now
    ensures SwapSteps(cx, run, start, me, k, e, value) && OwnDisciplined(cx, run, start, me)
  {
    hide SealAt, SwapsFor, Disciplined, Keys.IsKey, WriteClaim;
    forall i | start <= i < |run| && run[i].actor == me
      ensures Disciplined(cx, run, i) && (run[i].cmd == ScriptLoad(CasScript) || SwapsFor(cx, run[i], k, e, value))
    {
      if run[i].cmd == ScriptLoad(CasScript) {
        HarmlessIsDisciplined(cx, run, i);
      } else {
        SealClaims(cx, k, value, requested, e.source, false, created, run[i].pre.now);
        SealedSwap(cx, run[i], k, e, s, requested);
        SwapIsDisciplined(cx, run, from, me, g, i, k, r, e, value);
      }
    }
  }

  lemma SealFailsAlone(cx: Context, k: Key, m: map<Key, Entry>, now: int)
    ensures SwapAlone(cx, k, None, CasRaised, m, m, now)
  {
  }

  /** The swap of a call that had the server to itself. */
  lemma SwappedAlone(
    cx: Context, run: seq<Step>, from: int, me: nat, g: int, st: Step, before: State, k: Key, r: Reading, e: Envelope,
    s: Sealed)
    requires st.cmd == EvalCas(k, e.version, s.bytes, s.spec.ttl) && s.spec.ttl > 0 && ReplyTo(st) != NoScript
    requires st.pre.entries == before.entries && st.pre.now == before.now
    requires Sighted(cx, run, from, me, g, k, r, e) && ValueIn(Contents(before), k) == Some(Raw(r.raw))
    requires DecodeAt(cx, k, s.bytes, before.now).Ok?
    ensures ReplyTo(st) == Code(1) && Post(st).now == before.now
    ensures SwapAlone(cx, k, Some(s), CasDone(true, false, false, Some(DecodeAt(cx, k, s.bytes, before.now).value)),
              Contents(before), Contents(Post(st)), before.now)
  {
    hide DecodeAt, Post, ReplyTo;
    assert Contents(st.pre) == Contents(before);
    SwapHappens(cx, st, k, r.raw, e, r.at, s);
  }

  lemma SwapStepAt(cx: Context, run: seq<Step>, from: int, me: nat, k: Key, e: Envelope, value: CacheValue, at: int)
    requires SwapSteps(cx, run, from, me, k, e, value)
    requires from <= at < |run| && run[at].actor == me && run[at].cmd.EvalCas?
    ensures SwapsFor(cx, run[at], k, e, value)
  {
    hide SwapsFor;
  }

  // ------------------------------------------------------------- what a writer heard

  /** Sealing at one reading of the clock and, if that succeeds, one command. */
  predicate SendHeard(
    cx: Context, k: Key, value: CacheValue, requested: Option<int>, source: SourceVersion, insert: bool, t: seq<Event>,
    s: Option<Sealed>, o: Outcome
  ) {
    && |t| >= 1 && t[0].Timed?
    && s == SealAt(cx, k, value, requested, source, IsNegative(cx, k, value), t[0].now)
    && match s
       case None => |t| == 1
       case Some(sealed) => |t| == 2 && t[1] == Called(WriteCommand(k, sealed, insert), o)
  }

  lemma WasSent(
    cx: Context, k: Key, value: CacheValue, requested: Option<int>, source: SourceVersion, insert: bool, now: int, o: Outcome)
    ensures var s := SealAt(cx, k, value, requested, source, IsNegative(cx, k, value), now);
            && (s.None? ==> SendHeard(cx, k, value, requested, source, insert, [Timed(now)], s, o))
            && (s.Some? ==>
                  SendHeard(cx, k, value, requested, source, insert,
                    [Timed(now), Called(WriteCommand(k, s.value, insert), o)], s, o))
  {
    hide SealAt, IsNegative;
  }

  /** At a later reading of the clock the sealed value can no longer be read back. */
  predicate TooLate(s: Sealed, now: int) {
    s.spec.created + s.spec.ttl <= now
  }

  /** A put raises exactly where sealing fails or, once the write was answered, where
      its own envelope has expired by the time it is read back. */
  predicate PutHeard(
    cx: Context, k: Key, value: CacheValue, requested: Option<int>, source: SourceVersion, t: seq<Event>, r: PutResult
  ) {
    && |t| >= 1 && t[0].Timed?
    && match SealAt(cx, k, value, requested, source, IsNegative(cx, k, value), t[0].now)
       case None => |t| == 1 && r == PutRaised
       case Some(s) =>
         && |t| >= 2 && t[1].Called? && t[1].cmd == WriteCommand(k, s, false)
         && match t[1].o
            case Unavailable => |t| == 2 && r == PutUnavailable
            case Answered(_) =>
              && |t| == 3 && t[2].Timed?
              && if TooLate(s, t[2].now) then r == PutRaised
                 else r.Stored? && EnvelopeFor(cx, r.envelope, value, source, s.bytes)
  }

  predicate InsertHeard(
    cx: Context, k: Key, value: CacheValue, requested: Option<int>, source: SourceVersion, t: seq<Event>, r: InsertResult
  ) {
    && |t| >= 1 && t[0].Timed?
    && match SealAt(cx, k, value, requested, source, IsNegative(cx, k, value), t[0].now)
       case None => |t| == 1 && r == InsertRaised
       case Some(s) =>
         && |t| >= 2 && t[1].Called? && t[1].cmd == WriteCommand(k, s, true)
         && match t[1].o
            case Unavailable => |t| == 2 && r == InsertUnavailable
            case Answered(reply) =>
              && |t| == 3 && t[2].Timed?
              && if TooLate(s, t[2].now) then r == InsertRaised
                 else r.Inserted? && r.stored == (reply == Done) && EnvelopeFor(cx, r.envelope, value, source, s.bytes)
  }

  /** Reading back one's own envelope fails exactly when it is too late. */
  lemma RereadExactly(
    cx: Context, k: Key, value: CacheValue, requested: Option<int>, source: SourceVersion, negative: bool, now: int,
    later: int)
    requires Lawful(cx.platform) && ValidContext(cx)
    requires SealAt(cx, k, value, requested, source, negative, now).Some?
    ensures var s := SealAt(cx, k, value, requested, source, negative, now).value;
            DecodeAt(cx, k, s.bytes, later).Ok? <==> !TooLate(s, later)
  {
    hide Codec.Encode, Codec.Decode, PayloadOf, ExtractVersion, Lawful, IsFingerprint;
    var s := SealAt(cx, k, value, requested, source, negative, now).value;
    var policy := cx.policyOf(k);
    assert Settings.ValidPolicy(policy);
    var payload, version := CodecTheorems.RoundTrip(
      cx.platform, cx.limits.maxValueBytes, s.spec, policy.schema, policy.stalenessMs, later);
  }

  lemma PutWasHeard(
    cx: Context, k: Key, value: CacheValue, requested: Option<int>, source: SourceVersion, t: seq<Event>,
    s: Option<Sealed>, o: Outcome)
    requires Lawful(cx.platform) && ValidContext(cx)
    requires SendHeard(cx, k, value, requested, source, false, t, s, o)
    ensures s.None? ==> PutHeard(cx, k, value, requested, source, t, PutRaised)
    ensures s.Some? && o.Unavailable? ==> PutHeard(cx, k, value, requested, source, t, PutUnavailable)
    ensures s.Some? && o.Answered? ==> forall later ::
              PutHeard(cx, k, value, requested, source, t + [Timed(later)], Reread(DecodeAt(cx, k, s.value.bytes, later)))
  {
    hide DecodeAt, SealAt, IsNegative, EnvelopeFor, Lawful, ValidContext;
    if s.Some? && o.Answered? {
      forall later ensures
        PutHeard(cx, k, value, requested, source, t + [Timed(later)], Reread(DecodeAt(cx, k, s.value.bytes, later)))
      {
        RereadExactly(cx, k, value, requested, source, IsNegative(cx, k, value), t[0].now, later);
        SealFits(cx, k, value, requested, source, IsNegative(cx, k, value), t[0].now, later);
      }
    }
  }

  /** What put makes of decoding its own envelope. */
  function Reread(r: Result<Envelope, CodecError>): PutResult {
    if r.Ok? then Stored(r.value) else PutRaised
  }

  lemma InsertWasHeard(
    cx: Context, k: Key, value: CacheValue, requested: Option<int>, source: SourceVersion, t: seq<Event>,
    s: Option<Sealed>, o: Outcome)
    requires Lawful(cx.platform) && ValidContext(cx)
    requires SendHeard(cx, k, value, requested, source, true, t, s, o)
    ensures s.None? ==> InsertHeard(cx, k, value, requested, source, t, InsertRaised)
    ensures s.Some? && o.Unavailable? ==> InsertHeard(cx, k, value, requested, source, t, InsertUnavailable)
    ensures s.Some? && o.Answered? ==> forall later ::
              InsertHeard(cx, k, value, requested, source, t + [Timed(later)],
                InsertReread(o.reply == Done, DecodeAt(cx, k, s.value.bytes, later)))
  {
    hide DecodeAt, SealAt, IsNegative, EnvelopeFor, Lawful, ValidContext;
    if s.Some? && o.Answered? {
      forall later ensures
        InsertHeard(cx, k, value, requested, source, t + [Timed(later)],
          InsertReread(o.reply == Done, DecodeAt(cx, k, s.value.bytes, later)))
      {
        RereadExactly(cx, k, value, requested, source, IsNegative(cx, k, value), t[0].now, later);
        SealFits(cx, k, value, requested, source, IsNegative(cx, k, value), t[0].now, later);
      }
    }
  }

  function InsertReread(stored: bool, r: Result<Envelope, CodecError>): InsertResult {
    if r.Ok? then Inserted(stored, r.value) else InsertRaised
  }

  /** A swap raises exactly where sealing fails or, once the script has swapped, where
      the new envelope has expired by the time it is read back; otherwise the answer is
      the script's. */
  ghost predicate SwapHeard(
    cx: Context, k: Key, e: Envelope, value: CacheValue, requested: Option<int>, t: seq<Event>, r: CasResult
  ) {
    && |t| >= 1 && t[0].Timed?
    && match SealAt(cx, k, value, requested, e.source, false, t[0].now)
       case None => |t| == 1 && r == CasRaised
       case Some(s) => TrySwapHeard(cx, k, e, s, value, t[1..], r)
  }

  ghost predicate TrySwapHeard(cx: Context, k: Key, e: Envelope, s: Sealed, value: CacheValue, t: seq<Event>, r: CasResult) {
    exists m :: 0 <= m <= |t| && ScriptHeard(CasScript, SwapCommand(k, e, s), t[..m])
      && match CasReplyOf(LastHeard(t[..m]))
         case CasUnavailable => m == |t| && r == CasFailed
         case CasReply(swapped, missing, corrupt) =>
           if !swapped then m == |t| && r == CasDone(false, missing, corrupt, Some(e))
           else
             && |t| == m + 1 && t[m].Timed?
             && if TooLate(s, t[m].now) then r == CasRaised
                else r.CasDone? && r.swapped && !r.missing && !r.corrupt && r.entry.Some?
                     && EnvelopeFor(cx, r.entry.value, value, e.source, s.bytes)
  }

  /** A compare-and-set: its GET, the verdict on the answer, and the swap if the verdict
      is a valid envelope of the expected version. */
  ghost predicate CasHeard(
    cx: Context, k: Key, expected: SourceVersion, value: CacheValue, requested: Option<int>, t: seq<Event>, r: CasResult
  ) {
    && |t| >= 1 && t[0].Called? && t[0].cmd == Get(k)
    && match t[0].o
       case Unavailable => |t| == 1 && r == Unswapped(Unreachable)
       case Answered(reply) =>
         if !reply.Found? then |t| == 1 && r == Unswapped(Missing)
         else
           && |t| >= 2 && t[1].Timed?
           && var found := CurrentOf(Judge(cx, k, Some(reply.value), t[1].now));
              if found.Current? && (expected == TextVersion(found.envelope.version) || expected == found.envelope.source)
              then SwapHeard(cx, k, found.envelope, value, requested, t[2..], r)
              else r == Unswapped(found) && CleanupHeard(k, found.Discard?, t[2..])
  }

  /** The part before the swap. */
  predicate FindHeard(cx: Context, k: Key, t: seq<Event>, found: Current) {
    && |t| >= 1 && t[0].Called? && t[0].cmd == Get(k)
    && match t[0].o
       case Unavailable => |t| == 1 && found == Unreachable
       case Answered(reply) =>
         if !reply.Found? then |t| == 1 && found == Missing
         else
           && |t| >= 2 && t[1].Timed? && found == CurrentOf(Judge(cx, k, Some(reply.value), t[1].now))
           && CleanupHeard(k, found.Discard?, t[2..])
  }

  lemma FindWasHeard(cx: Context, k: Key, v: Value, now: int, t: seq<Event>)
    requires CleanupHeard(k, CurrentOf(Judge(cx, k, Some(v), now)).Discard?, t)
    ensures FindHeard(cx, k, [Called(Get(k), Answered(Found(v))), Timed(now)] + t, CurrentOf(Judge(cx, k, Some(v), now)))
  {
    hide Judge, CleanupHeard;
    assert ([Called(Get(k), Answered(Found(v))), Timed(now)] + t)[2..] == t;
  }

  lemma NothingFound(cx: Context, k: Key, o: Outcome)
    ensures o.Unavailable? ==> FindHeard(cx, k, [Called(Get(k), o)], Unreachable)
    ensures o.Answered? && !o.reply.Found? ==> FindHeard(cx, k, [Called(Get(k), o)], Missing)
  {
    hide Judge;
  }

  lemma SightedNow(
    cx: Context, read: seq<Step>, run: seq<Step>, from: int, me: nat, g: int, k: Key, v: Value, now: int)
    requires 0 <= from <= g < |read| && read <= run && read[g].actor == me && read[g].cmd == Get(k)
    requires ReplyTo(read[g]) == Found(v) && read[g].pre.now <= now && CurrentOf(Judge(cx, k, Some(v), now)).Current?
    ensures v.Raw?
    ensures Sighted(cx, run, from, me, g, k, Reading(v.bytes, now), CurrentOf(Judge(cx, k, Some(v), now)).envelope)
  {
    hide ReplyTo, Judge, DecodeAt;
    FreshMeans(cx, k, Some(v), now);
  }

  lemma UnswappedWasHeard(
    cx: Context, k: Key, expected: SourceVersion, value: CacheValue, requested: Option<int>, t: seq<Event>, found: Current)
    requires FindHeard(cx, k, t, found) && (found.Current? ==> !Matches(expected, found.envelope))
    ensures CasHeard(cx, k, expected, value, requested, t, Unswapped(found))
  {
    hide Judge, CleanupHeard, SwapHeard;
  }

  lemma CasWasHeard(
    cx: Context, k: Key, expected: SourceVersion, value: CacheValue, requested: Option<int>, t: seq<Event>, e: Envelope,
    u: seq<Event>, r: CasResult)
    requires FindHeard(cx, k, t, Current(e)) && Matches(expected, e) && SwapHeard(cx, k, e, value, requested, u, r)
    ensures CasHeard(cx, k, expected, value, requested, t + u, r)
  {
    hide Judge, SwapHeard;
    FoundInTwo(cx, k, t, e);
    assert (t + u)[2..] == u;
  }

  lemma FoundInTwo(cx: Context, k: Key, t: seq<Event>, e: Envelope)
    requires FindHeard(cx, k, t, Current(e))
    ensures |t| == 2
  {
    hide Judge;
  }

  lemma SwapWasHeard(
    cx: Context, k: Key, e: Envelope, value: CacheValue, requested: Option<int>, now: int, t: seq<Event>, r: CasResult)
    requires match SealAt(cx, k, value, requested, e.source, false, now)
             case None => t == [] && r == CasRaised
             case Some(s) => TrySwapHeard(cx, k, e, s, value, t, r)
    ensures SwapHeard(cx, k, e, value, requested, [Timed(now)] + t, r)
  {
    hide SealAt, TrySwapHeard;
    assert ([Timed(now)] + t)[1..] == t;
  }

  lemma TrialWasHeard(
    cx: Context, k: Key, e: Envelope, s: Sealed, value: CacheValue, t: seq<Event>, r: CasResult)
    requires ScriptHeard(CasScript, SwapCommand(k, e, s), t)
    requires match CasReplyOf(LastHeard(t))
             case CasUnavailable => r == CasFailed
             case CasReply(swapped, missing, corrupt) => !swapped && r == CasDone(false, missing, corrupt, Some(e))
    ensures TrySwapHeard(cx, k, e, s, value, t, r)
  {
    hide ScriptHeard, LastHeard;
    assert t[..|t|] == t;
  }

  lemma SwappedWasHeard(
    cx: Context, k: Key, e: Envelope, s: Sealed, value: CacheValue, t: seq<Event>, now: int, r: CasResult)
    requires ScriptHeard(CasScript, SwapCommand(k, e, s), t) && CasReplyOf(LastHeard(t)) == CasReply(true, false, false)
    requires if TooLate(s, now) then r == CasRaised
             else r.CasDone? && r.swapped && !r.missing && !r.corrupt && r.entry.Some?
                  && EnvelopeFor(cx, r.entry.value, value, e.source, s.bytes)
    ensures TrySwapHeard(cx, k, e, s, value, t + [Timed(now)], r)
  {
    hide ScriptHeard, LastHeard, EnvelopeFor, TooLate;
    var all := t + [Timed(now)];
    assert all[..|t|] == t && all[|t|] == Timed(now);
  }
}
