/** Hits and lifetimes over whole runs. */
module Freshness {
  import opened Primitives
  import opened Json
  import opened Codec
  import opened Server
  import opened Runs
  import opened Protocol
  import CodecTheorems
  import Keys
  import Settings
  import Client
  import Reads

  /** What a validated read means: the envelope's schema is the policy's and both
      expiry bounds lie ahead. */
  lemma DecodedIsFresh(cx: Context, k: Key, raw: Bytes, now: int)
    requires DecodeAt(cx, k, raw, now).Ok?
    ensures var e, policy := DecodeAt(cx, k, raw, now).value, cx.policyOf(k);
            && e.schema == policy.schema && now < e.expires
            && (policy.stalenessMs.Some? ==> now < e.created + policy.stalenessMs.value)
  {
    hide Parse, ValueOf, IsFingerprint;
  }

  lemma EncodedIsRead(cx: Context, k: Key, spec: Spec, now: int)
    requires Lawful(cx.platform) && EncodeIn(cx, spec).Ok?
    requires DecodeAt(cx, k, EncodeIn(cx, spec).value, now).Ok?
    ensures CodecTheorems.SpecOf(DecodeAt(cx, k, EncodeIn(cx, spec).value, now).value) == spec
  {
    hide Codec.Encode, Codec.Decode, PayloadOf, ExtractVersion;
    var payload, version := CodecTheorems.RoundTrip(
      cx.platform, cx.limits.maxValueBytes, spec, cx.policyOf(k).schema, cx.policyOf(k).stalenessMs, now);
  }

  /** Every hit of every run returns exactly what some earlier operation encoded
      and stored under the same physical key, unless corruption has forged a well-formed
      frame there last. */
  lemma EveryHitWasWritten(cx: Context, run: seq<Step>, g: nat, k: Key, raw: Bytes, now: int)
    returns (w: nat, spec: Spec)
    requires Lawful(cx.platform) && AdapterRun(cx, run) && g < |run| && Keys.IsData(k)
    requires UnforgedAt(cx, run, g, k)
    requires LiveValue(run[g].pre, k) == Some(Raw(raw)) && DecodeAt(cx, k, raw, now).Ok?
    ensures w < g && ByAdapter(run[w].cmd) && Stores(run[w].pre, run[w].cmd) == Some((k, Raw(raw)))
    ensures forall m :: w < m < g ==> !StoresUnder(run[m], k)
    ensures EncodeIn(cx, spec) == Ok(raw)
    ensures CodecTheorems.SpecOf(DecodeAt(cx, k, raw, now).value) == spec
    ensures spec.schema == cx.policyOf(k).schema && now < spec.created + spec.ttl
    ensures cx.policyOf(k).stalenessMs.Some? ==> now < spec.created + cx.policyOf(k).stalenessMs.value
  {
    hide Parse, Disciplined, Keys.IsKey, Post, Codec.Encode, ValueOf, IsFingerprint;
    w := Provenance(run, g, k);
    var st := run[w];
    assert LastStore(run, w, g, k);
    assert st.cmd.Corrupt? ==> Forges(cx, st, k);
    spec := StoredIsEncoded(cx, run, w, k);
    EncodedIsRead(cx, k, spec, now);
    DecodedIsFresh(cx, k, raw, now);
  }

  // -------------------------------------------------------------------- lifetimes

  /** Whatever step stored under `k` last, it was put, put_if_absent or compare_and_set. */
  predicate CacheWroteLast(run: seq<Step>, n: nat, k: Key)
    requires n <= |run|
  {
    forall i :: 0 <= i < n && StoresUnder(run[i], k) && (forall m :: i < m < n ==> !StoresUnder(run[m], k)) ==>
      run[i].cmd.Set? || run[i].cmd.SetNx? || run[i].cmd.EvalCas?
  }

  lemma ClaimOfCacheWrite(cx: Context, run: seq<Step>, w: nat, k: Key) returns (c: Claim, negative: bool)
    requires w < |run| && Disciplined(cx, run, w) && StoresUnder(run[w], k) && Keys.IsData(k)
    requires run[w].cmd.Set? || run[w].cmd.SetNx? || run[w].cmd.EvalCas?
    ensures WriteClaim(cx, k, run[w].cmd.value, run[w].cmd.px, run[w].pre.now, negative, c)
    ensures run[w].cmd.EvalCas? ==> !negative
    ensures !run[w].cmd.EvalCas? ==> negative == (c.spec.value == JsonValue(Null) && cx.policyOf(k).negativeCaching)
  {
    hide DecodeAt, EncodeIn, NumberIn, Keys.Read, Keys.Render, Keys.WellFormed, ReplyTo, WriteClaim;
    var st := run[w];
    match st.cmd {
      case Set(_, _, _) =>
        c :| PutClaim(cx, k, st.cmd.value, st.cmd.px, st.pre.now, c);
        negative := c.spec.value == JsonValue(Null) && cx.policyOf(k).negativeCaching;
      case SetNx(_, _, _) =>
        c :| PutClaim(cx, k, st.cmd.value, st.cmd.px, st.pre.now, c);
        negative := c.spec.value == JsonValue(Null) && cx.policyOf(k).negativeCaching;
      case EvalCas(_, _, _, _) =>
        var g, d, r :| 0 <= g < w && CasClaim(cx, run[g], st, d, r);
        c, negative := d, false;
      case _ =>
    }
  }

  /** Every entry the cache operations leave behind, in every reachable state: its
      lifetime is within the deployment and staleness bounds, it decodes exactly
      until its own expiry (the staleness bound never strikes first), and the server
      never drops it while it would still decode.  A null written by put or
      put_if_absent under negative caching has the longest TTL the negative bound
      admits; everything else the ordinary TTL of what its writer requested. */
  lemma StoredLifetime(cx: Context, run: seq<Step>, n: nat, k: Key) returns (spec: Spec, requested: Option<int>, w: nat)
    requires Lawful(cx.platform) && ValidContext(cx) && AdapterRun(cx, run) && n < |run| && Keys.IsData(k)
    requires k in run[n].pre.entries && CacheWroteLast(run, n, k)
    ensures EncodeIn(cx, spec).Ok? && run[n].pre.entries[k].value == Raw(EncodeIn(cx, spec).value)
    ensures cx.ttl.minimumMs <= spec.ttl <= cx.ttl.maximumMs
    ensures cx.policyOf(k).stalenessMs.Some? ==> spec.ttl <= cx.policyOf(k).stalenessMs.value
    ensures forall now :: DecodeAt(cx, k, EncodeIn(cx, spec).value, now).Ok? <==> now < spec.created + spec.ttl
    ensures spec.created + spec.ttl <= run[n].pre.entries[k].expires
    ensures w < n && StoresUnder(run[w], k)
    ensures if !run[w].cmd.EvalCas? && spec.value == JsonValue(Null) && cx.policyOf(k).negativeCaching
            then spec.ttl <= cx.ttl.negativeMs && Settings.Longest(cx.ttl, cx.policyOf(k), cx.ttl.negativeMs, Some(spec.ttl))
            else Settings.OrdinaryTtl(cx.ttl, cx.policyOf(k), requested, spec.ttl)
  {
    hide Disciplined, Keys.IsKey, Post, Codec.Encode, Codec.Decode;
    w := Provenance(run, n, k);
    Effect(run[w], k);
    var c, negative := ClaimOfCacheWrite(cx, run, w, k);
    spec, requested := c.spec, c.requested;
    var policy := cx.policyOf(k);
    assert Settings.ValidPolicy(policy);
    Settings.TtlOf(cx.ttl, policy, c.requested, negative);
    assert Settings.Admissible(cx.ttl, policy, spec.ttl, spec.ttl);
    forall now ensures DecodeAt(cx, k, EncodeIn(cx, spec).value, now).Ok? <==> now < spec.created + spec.ttl {
      var payload, version := CodecTheorems.RoundTrip(
        cx.platform, cx.limits.maxValueBytes, spec, policy.schema, policy.stalenessMs, now);
    }
  }

  // ------------------------------------------------------------------- isolation

  /** Lease traffic never changes a data entry. */
  lemma LeaseTrafficLeavesData(st: Step, k: Key)
    requires Keys.IsData(k)
    requires forall x :: x in Touched(st.cmd) ==> Keys.IsLease(x)
    ensures EntryAt(Post(st), k) == EntryAt(st.pre, k)
  {
    hide Post, Keys.Read, Keys.Render, Keys.WellFormed;
    UntouchedKey(st, k);
  }

  /** A data or lease key that an encoder of some other generation builds. */
  ghost predicate OtherGeneration(p: Platform, x: Key, generation: nat) {
    exists f, n :: Keys.ValidEncoder(f) && f.generation != generation && Keys.Encode(p, f, n).Some?
      && (Keys.Encode(p, f, n) == Some(x) || Keys.LeaseKey(p, f, Keys.Encode(p, f, n).value) == Some(x))
  }

  /** After a generation bump no key of the new generation finds anything, whatever was
      stored under the data and lease keys of all the others: reads of the data key and
      of its lease key come back empty. */
  lemma OldGenerationsUnreachable(p: Platform, e: Keys.Encoder, m: Keys.Material, run: seq<Step>, g: nat)
    requires Keys.ValidEncoder(e) && Keys.Encode(p, e, m).Some?
    requires FromEmpty(run) && g < |run|
    requires forall i, x :: 0 <= i < g && StoresUnder(run[i], x) ==> OtherGeneration(p, x, e.generation)
    ensures LiveValue(run[g].pre, Keys.Encode(p, e, m).value) == None
    ensures Keys.LeaseKey(p, e, Keys.Encode(p, e, m).value).Some?
    ensures LiveValue(run[g].pre, Keys.LeaseKey(p, e, Keys.Encode(p, e, m).value).value) == None
  {
    hide Keys.Encode, Keys.LeaseKey, Post, Keys.ValidEncoder;
    Keys.LeaseKeyAlwaysFits(p, e, m) by { hide Keys.IsKey; }
    var key := Keys.Encode(p, e, m).value;
    var lease := Keys.LeaseKey(p, e, key).value;
    forall k | k == key || k == lease ensures k !in run[g].pre.entries {
      if k in run[g].pre.entries {
        var w := Provenance(run, g, k);
        NotOfOthers(p, e, m, k);
      }
    }
  }

  lemma NotOfOthers(p: Platform, e: Keys.Encoder, m: Keys.Material, k: Key)
    requires Keys.ValidEncoder(e) && Keys.Encode(p, e, m).Some?
    requires k == Keys.Encode(p, e, m).value || Keys.LeaseKey(p, e, Keys.Encode(p, e, m).value) == Some(k)
    ensures !OtherGeneration(p, k, e.generation)
  {
    hide Keys.Encode, Keys.LeaseKey, Keys.ValidEncoder;
    forall f, n | Keys.ValidEncoder(f) && f.generation != e.generation && Keys.Encode(p, f, n).Some?
      ensures Keys.Encode(p, f, n) != Some(k) && Keys.LeaseKey(p, f, Keys.Encode(p, f, n).value) != Some(k)
    {
      Keys.LayoutDisjoint(p, e, f, m, n);
      Keys.LayoutDisjoint(p, f, e, n, m);
    }
  }

  // --------------------------------------------------------------------- cleanup

  /** Where an entry present at `d` comes from: it is the one of step `g`, untouched, or
      the last store since. */
  lemma {:induction false} SinceStep(run: seq<Step>, g: nat, d: nat, k: Key) returns (w: int)
    requires Chained(run) && g <= d < |run| && k in run[d].pre.entries
    ensures w == -1 || (g <= w < d && StoresUnder(run[w], k) && EntryAt(Post(run[w]), k) == EntryAt(run[d].pre, k))
    ensures w == -1 ==> EntryAt(run[d].pre, k) == EntryAt(run[g].pre, k) && forall m :: g <= m < d ==> !StoresUnder(run[m], k)
    decreases d - g
  {
    hide Post, Stores, StoresUnder, Drops;
    if g == d { return -1; }
    Effect(run[d - 1], k);
    DropsMeaning(run[d - 1], k);
    if StoresUnder(run[d - 1], k) { return d - 1; }
    w := SinceStep(run, g, d - 1, k);
  }

  /** What the unconditional DEL of a cleanup takes away: the very entry its GET had
      found, unless some step stored under the key in between, and then a newer one. */
  lemma CleanupExactly(run: seq<Step>, g: nat, d: nat, k: Key)
    requires Chained(run) && g < d < |run| && run[g].cmd == Get(k) && run[d].cmd == Del(k) && k in run[d].pre.entries
    ensures Drops(run[d], k)
    ensures (exists m :: g < m < d && StoresUnder(run[m], k)) <==>
            (exists w :: g < w < d && StoresUnder(run[w], k) && EntryAt(run[d].pre, k) == EntryAt(Post(run[w]), k))
    ensures (forall m :: g < m < d ==> !StoresUnder(run[m], k)) ==> EntryAt(run[d].pre, k) == EntryAt(run[g].pre, k)
  {
    hide Post, EntryAt, StoresUnder;
    DeletesIt(run[d], k);
    ReadStoresNothing(run[g], k);
    var w := SinceStep(run, g, d, k);
  }

  lemma ReadStoresNothing(st: Step, k: Key)
    requires st.cmd == Get(k)
    ensures !StoresUnder(st, k)
  {
  }

  lemma DeletesIt(st: Step, k: Key)
    requires st.cmd == Del(k) && k in st.pre.entries
    ensures Drops(st, k)
  {
  }

  /** And that happens: a lookup reads a value it discards, another client puts a new
      one, and the lookup's cleanup removes it.  All three steps are the adapter's, and
      what the reader hears is a lookup that misses. */
  lemma CleanupRemovesNewer(
    cx: Context, s: State, k: Key, bad: Value, newer: Bytes, px: int, c: Claim, reader: nat, writer: nat
  ) returns (run: seq<Step>)
    requires ValidContext(cx) && Keys.IsData(k) && reader != writer
    requires LiveValue(s, k) == Some(bad) && Reads.Discarded(Reads.Judge(cx, k, Some(bad), s.now))
    requires PutClaim(cx, k, newer, px, s.now, c)
    ensures |run| == 3 && Chained(run) && run[0].pre == s && forall i :: 0 <= i < 3 ==> Disciplined(cx, run, i)
    ensures run[0].actor == run[2].actor == reader && run[0].cmd == Get(k) && ReplyTo(run[0]) == Found(bad)
    ensures run[1] == Step(writer, Set(k, newer, px), Post(run[0])) && run[2].cmd == Del(k)
    ensures LiveValue(run[2].pre, k) == Some(Raw(newer)) && k !in Post(run[2]).entries
    ensures Reads.LookupHeard(cx, k,
              [Client.Called(Get(k), Client.Answered(ReplyTo(run[0]))), Client.Timed(s.now),
               Client.Called(Del(k), Client.Answered(ReplyTo(run[2])))], Reads.Miss)
  {
    hide PutClaim, Keys.IsKey, Reads.Judge;
    ClaimIsPositive(cx, k, newer, px, s.now, c);
    run := [Step(reader, Get(k), s)];
    run := run + [Step(writer, Set(k, newer, px), Post(run[0]))];
    run := run + [Step(reader, Del(k), Post(run[1]))];
    assert run[1].pre == s;
    var t := [Client.Timed(s.now), Client.Called(Del(k), Client.Answered(ReplyTo(run[2])))];
    assert t[1..] == [Client.Called(Del(k), Client.Answered(ReplyTo(run[2])))];
    Reads.ResolveWasHeard(cx, k, Some(bad), s.now, t[1..]);
    assert [Client.Timed(s.now)] + t[1..] == t;
    Reads.LookupWasHeard(cx, k, Client.Answered(Found(bad)), t, Reads.Miss);
    assert [Client.Called(Get(k), Client.Answered(Found(bad)))] + t
        == [Client.Called(Get(k), Client.Answered(ReplyTo(run[0]))), Client.Timed(s.now),
            Client.Called(Del(k), Client.Answered(ReplyTo(run[2])))];
  }
}
