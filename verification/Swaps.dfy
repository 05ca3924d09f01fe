/** Compare-and-set and set-if-absent over whole runs. */
module Swaps {
  import opened Primitives
  import opened Json
  import opened Codec
  import opened Server
  import opened Runs
  import opened Protocol
  import CodecTheorems
  import Counters
  import Keys

  predicate Swapped(st: Step, k: Key, version: Bytes) {
    st.cmd.EvalCas? && st.cmd.key == k && st.cmd.expected == version && StoresUnder(st, k)
  }

  /** A swap happens exactly when the live value carries the expected version. */
  lemma SwapMeaning(st: Step, k: Key, version: Bytes)
    requires st.cmd.EvalCas? && st.cmd.key == k && st.cmd.expected == version
    ensures Swapped(st, k, version) <==> ReplyTo(st) == Code(1)
    ensures Swapped(st, k, version) ==>
              LiveValue(st.pre, k).Some? && Carries(LiveValue(st.pre, k).value, version)
    ensures !Swapped(st, k, version) ==> LiveValue(Post(st), k) == LiveValue(st.pre, k)
  {
  }

  /** The script's answers, by what lies under the key. */
  lemma CasCodesExactly(st: Step)
    requires st.cmd.EvalCas? && CasScript in st.pre.scripts
    ensures match LiveValue(st.pre, st.cmd.key)
            case None => ReplyTo(st) == Code(-1)
            case Some(Alien) => ReplyTo(st) == Code(-2)
            case Some(Raw(b)) =>
              if |b| < 6 || b[..6] != [77, 82, 86, 75, 49, 124] then ReplyTo(st) == Code(-2)
              else if b[6..if |b| < 77 then |b| else 77] == st.cmd.expected
              then ReplyTo(st) == Code(1) && LiveValue(Put(st.pre, st.cmd.key, Raw(st.cmd.value), st.cmd.px), st.cmd.key)
                                             == LiveValue(Post(st), st.cmd.key)
              else ReplyTo(st) == Code(0)
  {
  }

  /** The bytes the script compares. */
  predicate Carries(v: Value, version: Bytes) {
    v.Raw? && LuaSub(v.bytes, 1, 6) == MAGIC && LuaSub(v.bytes, 7, 77) == version
  }

  /** An encode call behind a value stored in the run. */
  ghost predicate WrittenAt(cx: Context, run: seq<Step>, w: nat, s: Spec) {
    w < |run| && ByAdapter(run[w].cmd) && EncodeIn(cx, s) == Ok(run[w].cmd.value)
  }

  /** SHA-256 does not collide on what this run wrote. */
  ghost predicate CollisionFree(cx: Context, run: seq<Step>) {
    forall v, w, s, t :: WrittenAt(cx, run, v, s) && WrittenAt(cx, run, w, t) ==>
      !CodecTheorems.Collide(cx.platform, s, t)
  }

  /** What lies under a data key was encoded by some step, if it was not corrupted last. */
  lemma LiveIsWritten(cx: Context, run: seq<Step>, n: nat, k: Key) returns (w: nat, spec: Spec)
    requires AdapterRun(cx, run) && n < |run| && Keys.IsData(k) && k in run[n].pre.entries && SoundAt(run, n, k)
    ensures WrittenAt(cx, run, w, spec)
    ensures EncodeIn(cx, spec).Ok? && run[n].pre.entries[k].value == Raw(EncodeIn(cx, spec).value)
  {
    hide Disciplined, Keys.IsKey, Post, EncodeIn;
    w := Provenance(run, n, k);
    assert LastStore(run, w, n, k);
    assert ByAdapter(run[w].cmd);
    spec := StoredIsEncoded(cx, run, w, k);
  }

  /** A value that decodes was encoded by some step, unless it was forged last. */
  lemma ReadIsWritten(cx: Context, run: seq<Step>, n: nat, k: Key, raw: Bytes, at: int) returns (w: nat, spec: Spec)
    requires AdapterRun(cx, run) && n < |run| && Keys.IsData(k) && UnforgedAt(cx, run, n, k)
    requires LiveValue(run[n].pre, k) == Some(Raw(raw)) && DecodeAt(cx, k, raw, at).Ok?
    ensures WrittenAt(cx, run, w, spec) && EncodeIn(cx, spec) == Ok(raw)
  {
    hide Disciplined, Keys.IsKey, Post, EncodeIn, Parse, ValueOf, IsFingerprint;
    w := Provenance(run, n, k);
    assert LastStore(run, w, n, k);
    var st := run[w];
    assert st.cmd.Corrupt? ==> Forges(cx, st, k);
    spec := StoredIsEncoded(cx, run, w, k);
  }

  /** Swaps and increments keep a sound entry sound. */
  lemma StaysSound(run: seq<Step>, i: nat, n: nat, k: Key)
    requires i <= n <= |run| && SoundAt(run, i, k)
    requires forall m :: i <= m < n && StoresUnder(run[m], k) ==> run[m].cmd.EvalCas? || run[m].cmd.Exec?
    ensures SoundAt(run, n, k)
  {
    hide StoresUnder;
    forall w | LastStore(run, w, n, k) ensures !Corrupts(run[w], k) {
      if w < i { assert LastStore(run, w, i, k); }
    }
  }

  lemma EncodedCarries(cx: Context, spec: Spec, version: Bytes)
    requires Lawful(cx.platform) && EncodeIn(cx, spec).Ok?
    ensures ExtractVersion(EncodeIn(cx, spec).value).Some?
    ensures Carries(Raw(EncodeIn(cx, spec).value), version) <==> ExtractVersion(EncodeIn(cx, spec).value) == Some(version)
  {
    hide Codec.Encode, Codec.Decode, ExtractVersion, LuaSub;
    var payload, v := CodecTheorems.RoundTrip(
      cx.platform, cx.limits.maxValueBytes, spec, spec.schema, None, 0);
    CodecTheorems.LuaSliceIsVersion(EncodeIn(cx, spec).value);
  }

  lemma DecodedVersion(cx: Context, k: Key, raw: Bytes, now: int)
    requires DecodeAt(cx, k, raw, now).Ok?
    ensures ExtractVersion(raw) == Some(DecodeAt(cx, k, raw, now).value.version)
  {
    hide PythonHexInt, ReadHeader, Fingerprint, ValueOf, IsFingerprint;
  }

  /** A successful swap against the version of a value read earlier finds those very
      bytes still in place. */
  lemma SwapFindsReading(cx: Context, run: seq<Step>, g: nat, i: nat, k: Key, raw: Bytes, at: int)
    requires Lawful(cx.platform) && AdapterRun(cx, run) && CollisionFree(cx, run) && Keys.IsData(k)
    requires g < i < |run| && run[g].cmd == Get(k) && ReplyTo(run[g]) == Found(Raw(raw)) && DecodeAt(cx, k, raw, at).Ok?
    requires run[i].cmd.EvalCas? && run[i].cmd.key == k && ReplyTo(run[i]) == Code(1)
    requires run[i].cmd.expected == DecodeAt(cx, k, raw, at).value.version
    requires UnforgedAt(cx, run, g, k) && SoundAt(run, i, k)
    ensures LiveValue(run[i].pre, k) == Some(Raw(raw))
    ensures SourceIn(cx, Raw(raw)) == Some(DecodeAt(cx, k, raw, at).value.source)
  {
    hide Keys.IsKey, Post, EncodeIn, DecodeAt, Parse, LuaSub, ExtractVersion, NumberIn, ByAdapter, Disciplined;
    var e := DecodeAt(cx, k, raw, at).value;
    SwapMeaning(run[i], k, run[i].cmd.expected);
    var w1, read := ReadIsWritten(cx, run, g, k, raw, at);
    var w2, live := LiveIsWritten(cx, run, i, k);
    DecodedVersion(cx, k, raw, at);
    EncodedCarries(cx, live, e.version);
    CodecTheorems.SameVersionSameFrame(cx.platform, cx.limits.maxValueBytes, read, live) by {
      EncodeInMeaning(cx, read);
      EncodeInMeaning(cx, live);
    }
    ReadSource(cx, k, read, at);
    SourceOfEncoded(cx, read);
  }

  /** In every interleaving, a successful compare-and-set replaces exactly the bytes
      its own caller read and decoded, and keeps their source version, so a swap
      keyed by source version never overwrites an entry of another source version. */
  lemma SwapReplacesWhatWasRead(cx: Context, run: seq<Step>, i: nat, k: Key)
    returns (g: nat, raw: Bytes, at: int)
    requires Lawful(cx.platform) && AdapterRun(cx, run) && CollisionFree(cx, run) && Keys.IsData(k)
    requires i < |run| && run[i].cmd.EvalCas? && run[i].cmd.key == k && ReplyTo(run[i]) == Code(1)
    requires ReadsUnforged(cx, run, i, k) && SoundAt(run, i, k)
    ensures g < i && run[g].actor == run[i].actor && run[g].cmd == Get(k) && ReplyTo(run[g]) == Found(Raw(raw))
    ensures DecodeAt(cx, k, raw, at).Ok?
    ensures LiveValue(run[i].pre, k) == Some(Raw(raw))
    ensures SourceIn(cx, Raw(raw)) == Some(DecodeAt(cx, k, raw, at).value.source)
    ensures SourceIn(cx, Raw(run[i].cmd.value)) == SourceIn(cx, Raw(raw))
  {
    hide Keys.IsKey, Post, EncodeIn, DecodeAt, Parse, LuaSub, ExtractVersion, NumberIn, SourceIn, LiveValue, CollisionFree;
    assert Disciplined(cx, run, i);
    var h, c, r :| 0 <= h < i && CasClaim(cx, run[h], run[i], c, r);
    g, raw, at := h, r.raw, r.at;
    SwapFindsReading(cx, run, g, i, k, raw, at);
    SourceOfEncoded(cx, c.spec);
  }

  lemma EncodeInMeaning(cx: Context, s: Spec)
    ensures EncodeIn(cx, s) == Codec.Encode(cx.platform, cx.limits.maxValueBytes, s)
  {
  }

  lemma ReadSource(cx: Context, k: Key, spec: Spec, at: int)
    requires Lawful(cx.platform) && EncodeIn(cx, spec).Ok? && DecodeAt(cx, k, EncodeIn(cx, spec).value, at).Ok?
    ensures DecodeAt(cx, k, EncodeIn(cx, spec).value, at).value.source == spec.source
  {
    hide Codec.Encode, Codec.Decode, PayloadOf, ExtractVersion;
    var payload, version := CodecTheorems.RoundTrip(
      cx.platform, cx.limits.maxValueBytes, spec, cx.policyOf(k).schema, cx.policyOf(k).stalenessMs, at);
  }

  /** Any chain of swaps and increments keeps the source version of the entry it
      started from. */
  lemma {:induction false} SwapsKeepSource(cx: Context, run: seq<Step>, i: nat, j: nat, k: Key)
    requires Lawful(cx.platform) && AdapterRun(cx, run) && CollisionFree(cx, run) && Keys.IsData(k)
    requires i <= j < |run| && k in run[i].pre.entries && SoundAt(run, i, k) && ReadsUnforged(cx, run, j, k)
    requires forall m :: i <= m < j && StoresUnder(run[m], k) ==> run[m].cmd.EvalCas? || run[m].cmd.Exec?
    ensures k in run[j].pre.entries ==>
              SourceIn(cx, run[j].pre.entries[k].value) == SourceIn(cx, run[i].pre.entries[k].value)
    decreases j - i
  {
    hide Keys.IsKey, Post, EncodeIn, SourceIn, CollisionFree, Disciplined, DecodeAt, Carries, NumberIn, Swept, SoundAt, UnforgedAt;
    if i < j {
      SwapsKeepSource(cx, run, i, j - 1, k);
      Effect(run[j - 1], k);
      Counters.CommitStores(run[j - 1], k);
      if StoresUnder(run[j - 1], k) && run[j - 1].cmd.Exec? {
        Counters.CommitAdds(cx, run, j - 1, k);
      } else if StoresUnder(run[j - 1], k) {
        StaysSound(run, i, j - 1, k);
        SwapMeaning(run[j - 1], k, run[j - 1].cmd.expected);
        var g, raw, at := SwapReplacesWhatWasRead(cx, run, j - 1, k);
      }
    }
  }

  // ------------------------------------------------------------------- contenders

  predicate StoresVersion(st: Step, k: Key, version: Bytes) {
    StoresUnder(st, k) && Carries(Stores(st.pre, st.cmd).value.1, version)
  }

  /** Unless some step stores the version again, it stays gone. */
  lemma {:induction false} VersionStaysGone(run: seq<Step>, i: nat, j: nat, k: Key, version: Bytes)
    requires Chained(run) && i <= j < |run|
    requires k in run[i].pre.entries ==> !Carries(run[i].pre.entries[k].value, version)
    requires forall m :: i <= m < j ==> !StoresVersion(run[m], k, version)
    ensures k in run[j].pre.entries ==> !Carries(run[j].pre.entries[k].value, version)
    decreases j - i
  {
    hide Post, Stores, Carries;
    if i < j {
      VersionStaysGone(run, i, j - 1, k, version);
      Effect(run[j - 1], k);
    }
  }

  /** Between two successful swaps against one envelope version, some step stored
      that version again. */
  lemma SwapsNeedRewrite(run: seq<Step>, i: nat, j: nat, k: Key, version: Bytes)
    requires Chained(run) && i < j < |run|
    requires Swapped(run[i], k, version) && Swapped(run[j], k, version)
    ensures exists m :: i <= m < j && StoresVersion(run[m], k, version)
  {
    hide Post, Carries, LuaSub;
    if forall m :: i <= m < j ==> !StoresVersion(run[m], k, version) {
      Effect(run[i], k);
      VersionStaysGone(run, i + 1, j, k, version);
      SwapMeaning(run[j], k, version);
    }
  }

  /** So of any number of contenders holding one version, at most one wins if nobody
      stores that version again. */
  lemma AtMostOneSwapWins(run: seq<Step>, from: nat, k: Key, version: Bytes, i: nat, j: nat)
    requires Chained(run) && from <= i < |run| && from <= j < |run|
    requires forall m :: from <= m < |run| ==> !StoresVersion(run[m], k, version)
    requires Swapped(run[i], k, version) && Swapped(run[j], k, version)
    ensures i == j
  {
    hide Swapped, StoresVersion;
    if i < j {
      SwapsNeedRewrite(run, i, j, k, version);
    } else if j < i {
      SwapsNeedRewrite(run, j, i, k, version);
    }
  }

  // ---------------------------------------------------------------- set-if-absent

  /** Between two successful inserts the first entry expired or was dropped. */
  lemma InsertsNeedAbsence(run: seq<Step>, i: nat, j: nat, k: Key)
    requires Chained(run) && i < j < |run| && Inserts(run[i], k) && Inserts(run[j], k)
    ensures !IsLive(run[j].pre, k)
    ensures (exists m :: i < m < j && (Drops(run[m], k) || StoresUnder(run[m], k)))
         || run[j].pre.now >= run[i].pre.now + run[i].cmd.px
  {
    hide Post, Drops;
    Effect(run[i], k);
    if forall m :: i < m < j ==> !Drops(run[m], k) && !StoresUnder(run[m], k) {
      Persists(run, i + 1, j, k);
    }
  }

  /** Starting absent, with no one dropping the key, no other writer and no expiry,
      the first contender inserts and every later one loses. */
  lemma {:induction false} FirstInsertWins(run: seq<Step>, first: nat, j: nat, k: Key)
    requires Chained(run) && first <= j < |run|
    requires k !in run[0].pre.entries
    requires forall m :: 0 <= m < |run| && StoresUnder(run[m], k) ==> run[m].cmd.SetNx?
    requires forall m :: 0 <= m < |run| ==> !Drops(run[m], k)
    requires run[first].cmd.SetNx? && run[first].cmd.key == k
    requires forall m :: 0 <= m < first && run[m].cmd.SetNx? ==> run[m].cmd.key != k
    requires run[j].cmd.SetNx? && run[j].cmd.key == k
    requires run[j].pre.now < run[first].pre.now + run[first].cmd.px
    ensures Inserts(run[j], k) <==> j == first
  {
    hide Post, Drops;
    Persists(run, 0, first, k);
    assert Inserts(run[first], k);
    if first < j {
      Effect(run[first], k);
      StillFirst(run, first, j, k);
    }
  }

  /** The first insert's entry is still there. */
  lemma {:induction false} StillFirst(run: seq<Step>, first: nat, j: nat, k: Key)
    requires Chained(run) && first < j < |run| && Inserts(run[first], k)
    requires forall m :: 0 <= m < |run| && StoresUnder(run[m], k) ==> run[m].cmd.SetNx?
    requires forall m :: 0 <= m < |run| ==> !Drops(run[m], k)
    requires run[j].pre.now < run[first].pre.now + run[first].cmd.px
    ensures EntryAt(run[j].pre, k) == Some(Entry(Raw(run[first].cmd.value), run[first].pre.now + run[first].cmd.px))
    decreases j - first
  {
    hide Post, Drops;
    Effect(run[j - 1], k);
    if first + 1 == j {
    } else {
      StillFirst(run, first, j - 1, k);
    }
  }
}
