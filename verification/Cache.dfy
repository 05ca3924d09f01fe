/** The cache operations of one actor, under every interleaving with the others and
    every pattern of engine failures. */
module Cache {
  import opened Primitives
  import opened Json
  import opened Codec
  import opened Server
  import opened Runs
  import opened Protocol
  import opened Client
  import opened Atomic
  import opened Reads
  import opened Writes
  import opened Loading
  import CodecTheorems
  import Freshness
  import Keys
  import Settings
  import Swaps

  datatype BatchResult =
    | BatchResults(results: seq<LookupResult>)
    | BatchRefused
    | BatchUnavailable
    | BatchRaised(done: seq<LookupResult>)

  /** The actor read `raw` from the live entry of `k` in this step, and it decoded to
      `e` no earlier than that. */
  ghost predicate Sighting(cx: Context, st: Step, k: Key, r: Reading, e: Envelope) {
    && k in Touched(st.cmd) && LiveValue(st.pre, k) == Some(Raw(r.raw))
    && DecodeAt(cx, k, r.raw, r.at) == Ok(e) && st.pre.now <= r.at
  }

  ghost predicate Seen(cx: Context, run: seq<Step>, from: int, me: nat, k: Key, e: Envelope) {
    exists g, r :: 0 <= from <= g < |run| && run[g].actor == me && Sighting(cx, run[g], k, r, e)
  }

  lemma SeenLater(cx: Context, before: seq<Step>, after: seq<Step>, from: int, me: nat, k: Key, e: Envelope)
    requires before <= after && Seen(cx, before, from, me, k, e)
    ensures Seen(cx, after, from, me, k, e)
  {
    hide Sighting;
    var g, r :| 0 <= from <= g < |before| && before[g].actor == me && Sighting(cx, before[g], k, r, e);
    assert Sighting(cx, after[g], k, r, e);
  }

  /** What `lookup`, `batch_lookup`, `compare_and_set` and `get_or_load` report as seen
      is, in every run of the adapter, exactly what some earlier write stored under the
      same physical key, under the policy's schema and within both expiry bounds. */
  lemma SeenWasWritten(cx: Context, run: seq<Step>, from: int, me: nat, k: Key, e: Envelope)
    returns (w: nat, g: nat, at: int)
    requires Lawful(cx.platform) && AdapterRun(cx, run) && Keys.IsData(k) && Seen(cx, run, from, me, k, e)
    requires forall n :: 0 <= n < |run| && k in Touched(run[n].cmd) ==> UnforgedAt(cx, run, n, k)
    ensures w < g < |run| && from <= g && run[g].actor == me && run[g].pre.now <= at
    ensures ByAdapter(run[w].cmd) && StoresUnder(run[w], k) && EncodeIn(cx, CodecTheorems.SpecOf(e)) == Ok(run[w].cmd.value)
    ensures forall m :: w < m < g ==> !StoresUnder(run[m], k)
    ensures e.schema == cx.policyOf(k).schema && at < e.expires
    ensures cx.policyOf(k).stalenessMs.Some? ==> at < e.created + cx.policyOf(k).stalenessMs.value
  {
    hide DecodeAt, EncodeIn, Disciplined, Keys.IsKey, Post, LiveValue, Stores, Forges;
    var x, r :| 0 <= from <= x < |run| && run[x].actor == me && Sighting(cx, run[x], k, r, e);
    g, at := x, r.at;
    var spec;
    w, spec := Freshness.EveryHitWasWritten(cx, run, g, k, r.raw, at);
    Freshness.DecodedIsFresh(cx, k, r.raw, at);
    StoredBytes(run[w], k, r.raw);
  }

  /** A swap of `compare_and_set` in any run of the adapter: the bytes it replaces are
      those the GET of the same call returned, so what goes is what was judged, and the
      source version stays.  What the caller expected is the source version of those
      bytes, or else their envelope version. */
  lemma CallSwapsItsReading(
    cx: Context, run: seq<Step>, from: int, me: nat, g: int, at: int, k: Key, r: Reading, cur: Envelope, value: CacheValue,
    expected: SourceVersion)
    requires Lawful(cx.platform) && FromEmpty(run) && (forall a: nat :: OwnDisciplined(cx, run, 0, a))
    requires Swaps.CollisionFree(cx, run) && Keys.IsData(k)
    requires Sighted(cx, run, from, me, g, k, r, cur) && 0 <= g < at < |run|
    requires SwapsFor(cx, run[at], k, cur, value) && StoresUnder(run[at], k)
    requires UnforgedAt(cx, run, g, k) && SoundAt(run, at, k)
    requires expected == TextVersion(cur.version) || expected == cur.source
    ensures LiveValue(run[at].pre, k) == Some(Raw(r.raw)) && SourceIn(cx, Raw(r.raw)) == Some(cur.source)
    ensures SourceIn(cx, Raw(run[at].cmd.value)) == Some(cur.source)
    ensures SourceIn(cx, LiveValue(run[at].pre, k).value) == Some(expected)
         || (expected.TextVersion? && ExtractVersion(LiveValue(run[at].pre, k).value.bytes) == Some(expected.utf8))
    ensures !expected.TextVersion? ==> SourceIn(cx, LiveValue(run[at].pre, k).value) == Some(expected)
  {
    hide OwnDisciplined, Keys.IsKey, DecodeAt, EncodeIn, SourceIn, Post, LiveValue, StoresUnder, Swaps.CollisionFree, ExtractVersion;
    Swaps.DecodedVersion(cx, k, r.raw, r.at);
    EveryActorDisciplined(cx, run);
    Swaps.SwapMeaning(run[at], k, cur.version);
    Swaps.SwapFindsReading(cx, run, g, at, k, r.raw, r.at);
    var c :| WriteClaim(cx, k, run[at].cmd.value, run[at].cmd.px, run[at].pre.now, false, c)
      && c.spec.value == value && c.spec.source == cur.source;
    SourceOfEncoded(cx, c.spec);
  }

  lemma StoredBytes(st: Step, k: Key, raw: Bytes)
    requires ByAdapter(st.cmd) && Stores(st.pre, st.cmd) == Some((k, Raw(raw)))
    ensures StoresUnder(st, k) && st.cmd.value == raw
  {
  }

  class ValkeyCache {
    const cx: Context
    const encoder: Keys.Encoder
    const client: Engine
    const atomic: AtomicExecutor
    var metrics: Metrics
    ghost var lookups: nat      // lookups that returned a hit or a miss
    ghost var slots: nat        // batch slots that did
    ghost var discards: nat     // entries compare_and_set threw away

    ghost predicate Ready()
      reads this, client
    {
      && atomic.client == client && client.Valid()
      && Lawful(cx.platform) && ValidContext(cx) && Keys.ValidEncoder(encoder)
    }

    /** Conservation of the read counters. */
    ghost predicate Valid()
      reads this, client
    {
      Ready() && Judged(metrics) == lookups + slots + discards
    }

    constructor (cx: Context, encoder: Keys.Encoder, client: Engine)
      requires client.Valid() && Lawful(cx.platform) && ValidContext(cx) && Keys.ValidEncoder(encoder)
      ensures Valid() && this.cx == cx && this.encoder == encoder && this.client == client
      ensures metrics == map[] && lookups == slots == discards == 0
    {
      this.cx, this.encoder, this.client := cx, encoder, client;
      this.atomic := new AtomicExecutor(client);
      this.metrics := map[];
      this.lookups, this.slots, this.discards := 0, 0, 0;
    }

    /** Counters that are not about reading. */
    method Count(c: Counter)
      requires !IsReadCounter(c)
      modifies this`metrics
      ensures Judged(metrics) == Judged(old(metrics)) && Tallied(old(metrics), metrics, None)
      ensures metrics == Counted(old(metrics), c) && CountOf(metrics, c) == CountOf(old(metrics), c) + 1
    {
      CountedJudged(metrics, c);
      CountedTallied(metrics, c);
      metrics := Counted(metrics, c);
    }

    // ------------------------------------------------------------------- reading

    /** Deletes if it can; a failure is only counted. */
    method BestEffortDelete(key: Key)
      requires Ready()
      modifies this`metrics, client
      ensures Ready() && old(client.run) <= client.run && Judged(metrics) == Judged(old(metrics))
      ensures old(client.state.now) <= client.state.now
      ensures metrics == old(metrics) || metrics == Counted(old(metrics), CleanupFailure)
      ensures Tallied(old(metrics), metrics, None)
      ensures forall i :: |old(client.run)| <= i < |client.run| && client.run[i].actor == client.me ==>
                client.run[i].cmd == Del(key)
      ensures old(client.schedule) == [] ==>
                && client.schedule == [] && client.state.now == old(client.state.now)
                && Contents(client.state) == Contents(old(client.state)) - {key}
      ensures old(client.log) <= client.log && CleanupHeard(key, true, Since(old(client.log), client.log))
    {
      hide Apply, Judged, Contents, Lawful, ValidContext, CountOf, Tallied;
      CountedTallied(metrics, CleanupFailure);
      var o := client.Call(Del(key));
      if old(client.schedule) == [] { DelContents(client.run[|client.run| - 1]); StepMeaning(client.run[|client.run| - 1]); }
      if o.Unavailable? {
        CountedJudged(metrics, CleanupFailure);
        metrics := Counted(metrics, CleanupFailure);
      }
    }

    /** Settles one value a read returned: counts it, throws it away if it is stale or
        corrupt, and reports a hit only for an envelope that validates now. */
    method Resolve(key: Key, v: Option<Value>) returns (r: LookupResult)
      requires Ready()
      modifies this`metrics, client
      ensures Ready() && old(client.run) <= client.run && old(client.state.now) <= client.state.now
      ensures r.Hit? || r.Miss? || r.LookupRaised?
      ensures Judged(metrics) == Judged(old(metrics)) + (if r.LookupRaised? then 0 else 1)
      ensures forall i :: |old(client.run)| <= i < |client.run| && client.run[i].actor == client.me ==>
                client.run[i].cmd == Del(key) && !r.Hit?
      ensures r.Hit? ==>
                && v.Some? && v.value.Raw?
                && (exists at :: old(client.state.now) <= at && DecodeAt(cx, key, v.value.bytes, at) == Ok(r.envelope))
      ensures old(client.schedule) == [] ==>
                && client.schedule == [] && client.state.now == old(client.state.now)
                && r == ResultOf(Judge(cx, key, v, client.state.now))
                && Contents(client.state) ==
                     if Discarded(Judge(cx, key, v, client.state.now)) then Contents(old(client.state)) - {key}
                     else Contents(old(client.state))
      ensures old(client.log) <= client.log && ResolveHeard(cx, key, v, Since(old(client.log), client.log), r)
      ensures v.None? ==> r == Miss && client.state == old(client.state) && client.schedule == old(client.schedule)
      ensures CountHeard(cx, key, v, Since(old(client.log), client.log), old(metrics), metrics)
    {
      hide DecodeAt, Judged, Contents, Lawful, ValidContext, Post, Since, CleanupHeard, ResolveHeard, Judge, CountOf, Counted,
        Chained, Foreign, Tallied;
      SinceNone(client.log);
      if v.None? {
        AbsentIsMiss(cx, key, client.state.now);
        CountedTallied(metrics, MissCount);
        CountedJudged(metrics, MissCount);
        metrics := Counted(metrics, MissCount);
        return Miss;
      }
      var now := client.Clock();
      ghost var heard := client.log;
      var verdict := Judge(cx, key, v, now);
      FreshMeans(cx, key, v, now);
      var counter := ReadCounter(verdict);
      CountedTallied(metrics, if counter.Some? then counter.value else LoadCount);
      if counter.Some? {
        CountedJudged(metrics, counter.value);
        metrics := Counted(metrics, counter.value);
      }
      ghost var counted := metrics;
      CountedTallied(counted, LoadCount);
      NoCleanup(key);
      SinceNone(heard);
      if Discarded(verdict) { BestEffortDelete(key); }
      TalliedThen(old(metrics), counted, metrics, counter);
      SinceOne(old(client.log), Timed(now));
      SinceJoins(old(client.log), heard, client.log);
      ResolveWasHeard(cx, key, v, now, Since(heard, client.log));
      r := ResultOf(verdict);
    }

    /** GET, in step `g` if it was answered. */
    method Fetch(key: Key) returns (o: Outcome, ghost g: int)
      requires Ready()
      modifies client
      ensures Ready() && old(client.run) <= client.run && old(client.state.now) <= client.state.now
      ensures forall i :: |old(client.run)| <= i < |client.run| && client.run[i].actor == client.me ==>
                client.run[i].cmd == Get(key)
      ensures client.log == old(client.log) + [Called(Get(key), o)]
      ensures o.Answered? ==>
                && |old(client.run)| <= g < |client.run| && client.run[g].actor == client.me && client.run[g].cmd == Get(key)
                && o.reply == ReplyTo(client.run[g]) && Heard(o.reply) == LiveValue(client.run[g].pre, key)
                && (!o.reply.Found? ==> o.reply == Nil) && client.run[g].pre.now <= client.state.now
      ensures old(client.schedule) == [] ==>
                && client.schedule == [] && client.state.now == old(client.state.now) && o.Answered?
                && Contents(client.state) == Contents(old(client.state))
                && Heard(o.reply) == ValueIn(Contents(old(client.state)), key)
      ensures Head(old(client.schedule)) == CALM && key !in old(client.state.entries) ==>
                o == Answered(Nil) && client.state == old(client.state) && client.schedule == Rest(old(client.schedule))
    {
      hide Contents, Lawful, ValidContext, Apply, Post, ReplyTo, LiveValue, Chained, Foreign, Keys.ValidEncoder;
      o := client.Call(Get(key));
      g := |client.run| - 1;
      if o.Unavailable? { return; }
      GetContents(client.run[g]);
      GetReplies(client.run[g]);
      StepMeaning(client.run[g]);
      if key !in client.run[g].pre.entries { AbsentRead(client.run[g]); }
    }

    /** The result is the verdict, at one reading of the clock, on the value this call
        found live under the key in step `g`: a hit if it validates, an exception if
        decoding it leaks one, a miss otherwise; no answer at all is reported as such.
        With nobody else around it is exactly one lookup in turn. */
    method Lookup(key: Key) returns (r: LookupResult, ghost g: int)
      requires Valid() && Keys.IsData(key)
      modifies this, client
      ensures Valid() && old(client.run) <= client.run
      ensures OwnDisciplined(cx, client.run, |old(client.run)|, client.me)
      ensures forall i :: |old(client.run)| <= i < |client.run| && client.run[i].actor == client.me ==>
                client.run[i].cmd == Get(key) || (client.run[i].cmd == Del(key) && !r.Hit?)
      ensures r.Hit? ==> Seen(cx, client.run, |old(client.run)|, client.me, key, r.envelope)
      ensures lookups == old(lookups) + (if r.Hit? || r.Miss? then 1 else 0)
      ensures slots == old(slots) && discards == old(discards)
      ensures old(client.schedule) == [] ==>
                var s := LookupsInTurn(cx, Contents(old(client.state)), old(client.state.now), [key]);
                && client.schedule == [] && client.state.now == old(client.state.now)
                && Contents(client.state) == s.contents
                && (if s.raised then r == LookupRaised else s.results == [r])
      ensures old(client.log) < client.log && LookupHeard(cx, key, Since(old(client.log), client.log), r)
      ensures client.log[|old(client.log)|].Called?
      ensures match client.log[|old(client.log)|].o
              case Unavailable => metrics == old(metrics)
              case Answered(reply) =>
                CountHeard(cx, key, Heard(reply), Since(old(client.log), client.log)[1..], old(metrics), metrics)
      ensures !r.LookupUnavailable? ==>
                && |old(client.run)| <= g < |client.run| && client.run[g].actor == client.me
                && client.log[|old(client.log)|] == Called(Get(key), Answered(ReplyTo(client.run[g])))
                && Heard(ReplyTo(client.run[g])) == LiveValue(client.run[g].pre, key)
      ensures Head(old(client.schedule)) == CALM && key !in old(client.state.entries) ==>
                r == Miss && client.state == old(client.state) && client.schedule == Rest(old(client.schedule))
    {
      hide DecodeAt, Judged, Contents, Lawful, ValidContext, Apply, Post, ReplyTo, OwnDisciplined, Keys.IsKey, Judge, LiveValue,
        LookupsInTurn, Chained, Foreign, Counted, CountOf, Disciplined, Seen, Sighting, Since, LookupHeard, ResolveHeard,
        Keys.ValidEncoder, CountHeard;
      var o;
      o, g := Fetch(key);
      ghost var read, heard := client.run, client.log;
      SinceOne(old(client.log), Called(Get(key), o));
      if o.Unavailable? {
        PlainIsDisciplined(cx, client.run, |old(client.run)|, client.me);
        LookupWasHeard(cx, key, o, [], LookupUnavailable);
        assert [Called(Get(key), o)] + [] == [Called(Get(key), o)];
        return LookupUnavailable, g;
      }
      var v := Heard(o.reply);
      r := Resolve(key, v);
      SinceJoins(old(client.log), heard, client.log);
      LookupWasHeard(cx, key, o, Since(heard, client.log), r);
      assert Since(old(client.log), client.log)[1..] == Since(heard, client.log);
      PlainIsDisciplined(cx, client.run, |old(client.run)|, client.me);
      if r.Hit? {
        HitIsSeen(cx, read, client.run, |old(client.run)|, client.me, g, key, v.value.bytes, r.envelope);
      }
      if !r.LookupRaised? { lookups := lookups + 1; }
      if old(client.schedule) == [] {
        OneLookup(cx, Contents(old(client.state)), old(client.state.now), key);
      }
    }

    /** One MGET, then each value settled in order: every slot is the verdict on the value
        it got, and a hit was live.  With nobody else around, results and contents are
        those of single lookups done one after another, duplicates included. */
    method BatchLookup(keys: seq<Key>) returns (r: BatchResult, ghost g: int)
      requires Valid() && forall k :: k in keys ==> Keys.IsData(k)
      modifies this, client
      ensures Valid() && old(client.run) <= client.run
      ensures OwnDisciplined(cx, client.run, |old(client.run)|, client.me)
      ensures r.BatchRefused? <==> keys == [] || |keys| > cx.limits.maxBatchSize
      ensures r.BatchRefused? || r.BatchUnavailable? ==> metrics == old(metrics)
      ensures r.BatchResults? ==> |r.results| == |keys|
      ensures r.BatchRaised? ==> |r.done| < |keys|
      ensures slots == old(slots) + |Completed(r)|
      ensures lookups == old(lookups) && discards == old(discards)
      ensures SlotsSeen(cx, client.run, |old(client.run)|, client.me, keys, Completed(r))
      ensures old(client.schedule) == [] && !r.BatchRefused? ==>
                var s := LookupsInTurn(cx, Contents(old(client.state)), old(client.state.now), keys);
                && client.schedule == [] && client.state.now == old(client.state.now)
                && Contents(client.state) == s.contents
                && r == if s.raised then BatchRaised(s.results) else BatchResults(s.results)
      ensures old(client.log) <= client.log && BatchHeard(cx, keys, Since(old(client.log), client.log), r)
      ensures r.BatchResults? || r.BatchRaised? ==>
                && |old(client.run)| <= g < |client.run| && client.run[g].actor == client.me && |old(client.log)| < |client.log|
                && client.log[|old(client.log)|] == Called(MGet(keys), Answered(ReplyTo(client.run[g])))
    {
      hide Judged, Contents, Lawful, ValidContext, Apply, Post, ReplyTo, OwnDisciplined, Keys.IsKey, LiveValue,
        LookupsInTurn, Chained, Foreign, Disciplined, SlotsSeen, Since, SettleHeard, RaiseHeard;
      SinceNone(client.log);
      NoSlots(cx, client.run, |old(client.run)|, client.me, keys);
      if keys == [] || |keys| > cx.limits.maxBatchSize {
        PlainIsDisciplined(cx, client.run, |old(client.run)|, client.me);
        return BatchRefused, -1;
      }
      var o := client.Call(MGet(keys));
      ghost var read, heard := client.run, client.log;
      SinceOne(old(client.log), Called(MGet(keys), o));
      PlainIsDisciplined(cx, client.run, |old(client.run)|, client.me);
      if o.Unavailable? {
        NoSlots(cx, client.run, |old(client.run)|, client.me, keys);
        return BatchUnavailable, -1;
      }
      g := |client.run| - 1;
      MGetContents(read[g]);
      StepMeaning(read[g]);
      var results, raised := SettleAll(keys, o.reply.values, |old(client.run)|, g);
      slots := slots + |results|;
      FinishBatch(cx, read, client.run, |old(client.run)|, client.me);
      SinceJoins(old(client.log), heard, client.log);
      ghost var t := Since(heard, client.log);
      assert ([Called(MGet(keys), o)] + t)[1..] == t;
      r := if raised then BatchRaised(results) else BatchResults(results);
    }

    /** Settles the values of an MGET in order, until one raises. */
    method SettleAll(keys: seq<Key>, values: seq<Option<Value>>, ghost from: int, ghost g: int)
      returns (results: seq<LookupResult>, raised: bool)
      requires Ready() && |values| == |keys| && forall k :: k in keys ==> Keys.IsData(k)
      requires 0 <= from <= g < |client.run| && MGetAt(client.run[g], client.me, keys, values)
      requires client.run[g].pre.now <= client.state.now
      modifies this`metrics, client
      ensures Ready() && old(client.run) <= client.run
      ensures forall i :: |old(client.run)| <= i < |client.run| && client.run[i].actor == client.me ==>
                client.run[i].cmd.Del? && Keys.IsData(client.run[i].cmd.key)
      ensures if raised then |results| < |keys| else |results| == |keys|
      ensures Judged(metrics) == Judged(old(metrics)) + |results|
      ensures SlotsSeen(cx, client.run, from, client.me, keys, results)
      ensures old(client.schedule) == [] && ValuesOf(Contents(old(client.state)), keys, values) ==>
                && client.schedule == [] && client.state.now == old(client.state.now)
                && LookupsInTurn(cx, Contents(old(client.state)), old(client.state.now), keys)
                   == Sequence(results, Contents(client.state), raised)
      ensures old(client.log) <= client.log
      ensures if raised then RaiseHeard(cx, keys, values, Since(old(client.log), client.log), results)
              else SettleHeard(cx, keys, values, Since(old(client.log), client.log), results)
    {
      hide DecodeAt, Judged, Contents, Lawful, ValidContext, Apply, Post, Keys.IsKey, Judge, MGetAt,
        LookupsInTurn, Chained, Foreign, Counted, CountOf, SlotsSeen, Since, SettleHeard, RaiseHeard, ResolveHeard;
      SinceNone(client.log);
      NothingSettled(cx, keys, values);
      ghost var m, now := Contents(client.state), client.state.now;
      ghost var quiet := client.schedule == [] && ValuesOf(m, keys, values);
      ghost var st := client.run[g];
      EmptyInTurn(cx, m, now, keys);
      NoSlots(cx, client.run, from, client.me, keys);
      results := [];
      for n := 0 to |keys|
        invariant Ready() && old(client.run) <= client.run && now <= client.state.now && |results| == n
        invariant Judged(metrics) == Judged(old(metrics)) + n
        invariant forall i :: |old(client.run)| <= i < |client.run| && client.run[i].actor == client.me ==>
                    client.run[i].cmd.Del? && Keys.IsData(client.run[i].cmd.key)
        invariant SlotsSeen(cx, client.run, from, client.me, keys, results)
        invariant old(client.log) <= client.log && SettleHeard(cx, keys, values, Since(old(client.log), client.log), results)
        invariant quiet ==>
                    && client.schedule == [] && client.state.now == now
                    && LookupsInTurn(cx, m, now, keys[..n]) == Sequence(results, Contents(client.state), false)
      {
        ghost var before, heard := client.run, client.log;
        var x := Resolve(keys[n], values[n]);
        SinceJoins(old(client.log), heard, client.log);
        if quiet { InTurnNext(cx, m, now, keys, n); }
        KeepSeen(cx, before, client.run, from, client.me, keys, results);
        if x.LookupRaised? {
          if quiet { InTurnRaised(cx, m, now, keys, n + 1); }
          RaisesNext(cx, keys, values, Since(old(client.log), heard), results, Since(heard, client.log));
          return results, true;
        }
        assert client.run[g] == st;
        AddSlot(cx, client.run, from, g, client.me, keys, values, results, x);
        SettlesNext(cx, keys, values, Since(old(client.log), heard), results, Since(heard, client.log), x);
        results := results + [x];
      }
      assert keys[..|keys|] == keys;
      return results, false;
    }

    // ------------------------------------------------------------------- writing

    /** Seals a value and sends it, as SET or as SET NX. */
    method Send(key: Key, value: CacheValue, requested: Option<int>, source: SourceVersion, insert: bool)
      returns (s: Option<Sealed>, o: Outcome, ghost at: int, ghost created: int)
      requires Ready() && Keys.IsData(key)
      modifies client
      ensures Ready() && old(client.run) <= client.run && old(client.state.now) <= client.state.now
      ensures s == SealAt(cx, key, value, requested, source, IsNegative(cx, key, value), created)
      ensures OnlyOwn(client.run, |old(client.run)|, client.me, at)
      ensures at >= 0 ==>
                && s.Some? && client.run[at].cmd == WriteCommand(key, s.value, insert)
                && WritesValue(cx, client.run[at], key, value, source) && TtlFor(cx, key, value, requested, client.run[at].cmd.px)
      ensures o.Answered? ==> at >= 0 && at == |client.run| - 1 && o.reply == ReplyTo(client.run[at])
      ensures old(client.schedule) == [] ==> client.schedule == []
      ensures CalmTwice(old(client.schedule)) ==>
                && created == old(client.state.now)
                && (s.None? ==> client.state == old(client.state))
                && (s.Some? ==>
                      && client.schedule == Rest(Rest(old(client.schedule))) && o.Answered?
                      && client.run[at].pre == old(client.state) && client.state == Post(client.run[at]))
      ensures old(client.log) <= client.log
      ensures SendHeard(cx, key, value, requested, source, insert, Since(old(client.log), client.log), s, o)
    {
      hide EncodeIn, Lawful, ValidContext, Apply, Post, ReplyTo, Keys.IsKey, Chained, Foreign, WritesValue, SealAt,
        WriteClaim, StoresUnder, IsNegative, Since, SendHeard, TtlFor;
      at := -1;
      var negative := IsNegative(cx, key, value);
      var now := client.Clock();
      SinceOne(old(client.log), Timed(now));
      created := now;
      s := SealAt(cx, key, value, requested, source, negative, now);
      WasSent(cx, key, value, requested, source, insert, now, Unavailable);
      if s.None? { return s, Unavailable, at, created; }
      var cmd := WriteCommand(key, s.value, insert);
      o := client.Call(cmd);
      SinceTwo(old(client.log), Timed(now), Called(cmd, o));
      WasSent(cx, key, value, requested, source, insert, now, o);
      ghost var last := |client.run| - 1;
      if |old(client.run)| <= last && client.run[last].actor == client.me {
        at := last;
        SealClaims(cx, key, value, requested, source, negative, created, client.run[at].pre.now);
        PutWrites(cx, client.run[at], key, s.value, requested);
        SealTtl(cx, key, value, requested, source, negative, created);
        StepMeaning(client.run[at]);
      }
    }

    /** SET with the effective TTL, then the stored envelope read back.  At most one
        step of its own, which writes exactly the value given; a result is the envelope
        of those very bytes.  It raises exactly where sealing fails or, after an answered
        write, where the envelope has expired before it is read back.  With nobody else
        around it fails only where sealing does, and the next lookup hits what was put. */
    method Put(key: Key, value: CacheValue, requested: Option<int>, source: SourceVersion)
      returns (r: PutResult, ghost at: int)
      requires Valid() && Keys.IsData(key)
      modifies this`metrics, client
      ensures Valid() && old(client.run) <= client.run && old(client.state.now) <= client.state.now
      ensures OwnDisciplined(cx, client.run, |old(client.run)|, client.me)
      ensures OnlyOwn(client.run, |old(client.run)|, client.me, at)
      ensures at >= 0 ==> client.run[at].cmd.Set? && WritesValue(cx, client.run[at], key, value, source)
      ensures at >= 0 ==> TtlFor(cx, key, value, requested, client.run[at].cmd.px)
      ensures r.Stored? ==> at >= 0 && EnvelopeFor(cx, r.envelope, value, source, client.run[at].cmd.value)
      ensures old(client.schedule) == [] ==>
                && client.schedule == [] && client.state.now == old(client.state.now) && !r.PutUnavailable?
                && PutAlone(cx, key, SealAt(cx, key, value, requested, source, IsNegative(cx, key, value), client.state.now), r,
                     Contents(old(client.state)), Contents(client.state), client.state.now)
      ensures old(client.log) <= client.log
      ensures PutHeard(cx, key, value, requested, source, Since(old(client.log), client.log), r)
      ensures r.Stored? ==> metrics == Counted(old(metrics), PutCount)
      ensures r.PutUnavailable? ==> metrics == old(metrics)
      // two calm moments, and whatever comes after them
      ensures CalmTwice(old(client.schedule)) ==>
                var s := SealAt(cx, key, value, requested, source, IsNegative(cx, key, value), old(client.state.now));
                s.Some? ==>
                  && at >= 0 && client.run[at].cmd == WriteCommand(key, s.value, false)
                  && client.state == After(Apply(old(client.state), WriteCommand(key, s.value, false)).0,
                       Head(Rest(Rest(old(client.schedule)))).burst)
                  && (r.PutRaised? <==> TooLate(s.value, client.state.now))
    {
      hide DecodeAt, EncodeIn, Judged, Contents, Lawful, ValidContext, Apply, Post, ReplyTo, OwnDisciplined, Keys.IsKey,
        Chained, Foreign, Disciplined, WritesValue, SealAt, IsNegative, CountOf, PutAlone, EnvelopeFor, SendHeard, PutHeard, Since,
        After, TooLate, TtlFor;
      var s, o;
      ghost var created;
      s, o, at, created := Send(key, value, requested, source, false);
      ghost var sent, heard := client.run, client.log;
      PutWasHeard(cx, key, value, requested, source, Since(old(client.log), heard), s, o);
      WriteIsDisciplined(cx, client.run, |old(client.run)|, client.me, at, key, value, source);
      if s.None? {
        if old(client.schedule) == [] { RaisedAlone(cx, key, s, Contents(client.state), client.state.now); }
        return PutRaised, at;
      }
      if o.Unavailable? { return PutUnavailable, at; }
      Count(PutCount);
      var now := client.Clock();
      SinceJoins(old(client.log), heard, client.log);
      SinceOne(heard, Timed(now));
      RereadExactly(cx, key, value, requested, source, IsNegative(cx, key, value), created, now);
      StepMeaning(sent[at]);
      WriteIsDisciplined(cx, client.run, |old(client.run)|, client.me, at, key, value, source);
      SealFits(cx, key, value, requested, source, IsNegative(cx, key, value), created, now);
      if old(client.schedule) == [] {
        StoredAlone(cx, client.run[at], key, s.value);
      }
      r := Reread(DecodeAt(cx, key, s.value.bytes, now));
    }

    /** SET NX: stored exactly when the server found the key absent; a call that loses
        changes nothing.  It raises exactly where put does. */
    method PutIfAbsent(key: Key, value: CacheValue, requested: Option<int>, source: SourceVersion)
      returns (r: InsertResult, ghost at: int)
      requires Valid() && Keys.IsData(key)
      modifies this`metrics, client
      ensures Valid() && old(client.run) <= client.run && old(client.state.now) <= client.state.now
      ensures OwnDisciplined(cx, client.run, |old(client.run)|, client.me)
      ensures OnlyOwn(client.run, |old(client.run)|, client.me, at)
      ensures at >= 0 ==> client.run[at].cmd.SetNx? && WritesValue(cx, client.run[at], key, value, source)
      ensures at >= 0 ==> TtlFor(cx, key, value, requested, client.run[at].cmd.px)
      ensures r.Inserted? ==>
                && at >= 0 && EnvelopeFor(cx, r.envelope, value, source, client.run[at].cmd.value)
                && (r.stored <==> key !in Contents(client.run[at].pre))
                && (r.stored <==> StoresUnder(client.run[at], key))
                && (!r.stored ==> Post(client.run[at]) == client.run[at].pre)
      ensures old(client.schedule) == [] ==>
                && client.schedule == [] && client.state.now == old(client.state.now)
                && InsertAlone(cx, key, SealAt(cx, key, value, requested, source, IsNegative(cx, key, value), client.state.now), r,
                     Contents(old(client.state)), Contents(client.state))
      ensures old(client.log) <= client.log
      ensures InsertHeard(cx, key, value, requested, source, Since(old(client.log), client.log), r)
      ensures r.Inserted? ==> metrics == Counted(old(metrics), if r.stored then InsertStored else InsertConflict)
    {
      hide DecodeAt, EncodeIn, Judged, Contents, Lawful, ValidContext, Apply, Post, ReplyTo, OwnDisciplined, Keys.IsKey,
        Chained, Foreign, Disciplined, WritesValue, SealAt, IsNegative, CountOf, EnvelopeFor, StoresUnder, SendHeard, InsertHeard,
        Since, TtlFor;
      var s, o;
      ghost var created;
      s, o, at, created := Send(key, value, requested, source, true);
      ghost var heard := client.log;
      InsertWasHeard(cx, key, value, requested, source, Since(old(client.log), heard), s, o);
      WriteIsDisciplined(cx, client.run, |old(client.run)|, client.me, at, key, value, source);
      if s.None? { return InsertRaised, at; }
      if o.Unavailable? { return InsertUnavailable, at; }
      var stored := o.reply == Done;
      Count(if stored then InsertStored else InsertConflict);
      var now := client.Clock();
      SinceJoins(old(client.log), heard, client.log);
      SinceOne(heard, Timed(now));
      WriteIsDisciplined(cx, client.run, |old(client.run)|, client.me, at, key, value, source);
      SealFits(cx, key, value, requested, source, IsNegative(cx, key, value), created, now);
      InsertContents(client.run[at]);
      r := InsertReread(stored, DecodeAt(cx, key, s.value.bytes, now));
    }

    /** The value to swap, if there is a valid one; anything invalid is thrown away and
        counted as corruption. */
    method ReadForSwap(key: Key) returns (r: Current, ghost g: int, ghost reading: Reading)
      requires Ready() && Keys.IsData(key)
      modifies this`metrics, client
      ensures Ready() && old(client.run) <= client.run && old(client.state.now) <= client.state.now
      ensures Judged(metrics) == Judged(old(metrics)) + (if r.Discard? then 1 else 0)
      ensures Tallied(old(metrics), metrics, if r.Discard? then Some(CorruptionCount) else None)
      ensures !r.Discard? ==> metrics == old(metrics)
      ensures forall i :: |old(client.run)| <= i < |client.run| && client.run[i].actor == client.me ==>
                client.run[i].cmd == Get(key) || (client.run[i].cmd == Del(key) && r.Discard?)
      ensures r.Current? ==> Sighted(cx, client.run, |old(client.run)|, client.me, g, key, reading, r.envelope)
      ensures old(client.schedule) == [] ==>
                && client.schedule == [] && client.state.now == old(client.state.now)
                && r == CurrentOf(Judge(cx, key, ValueIn(Contents(old(client.state)), key), client.state.now))
                && Contents(client.state) ==
                     (if r.Discard? then Contents(old(client.state)) - {key} else Contents(old(client.state)))
                && (r.Current? ==> ValueIn(Contents(client.state), key) == Some(Raw(reading.raw)))
      ensures old(client.log) <= client.log && FindHeard(cx, key, Since(old(client.log), client.log), r)
    {
      hide DecodeAt, Judged, Contents, Lawful, ValidContext, Apply, Post, ReplyTo, Keys.IsKey, Chained, Foreign, CountOf,
        Counted, LiveValue, Since, CleanupHeard, Judge, FindHeard, Sighted, Tallied, Keys.ValidEncoder, Head, Rest;
      CountedTallied(metrics, CorruptionCount);
      reading := Reading([], 0);
      var o;
      o, g := Fetch(key);
      ghost var read := client.run;
      SinceOne(old(client.log), Called(Get(key), o));
      NothingFound(cx, key, o);
      if o.Unavailable? { return Unreachable, g, reading; }
      AbsentIsMiss(cx, key, client.state.now);
      if !o.reply.Found? { return Missing, g, reading; }
      var v := o.reply.value;
      var now := client.Clock();
      ghost var heard := client.log;
      SinceTwo(old(client.log), Called(Get(key), o), Timed(now));
      SinceNone(heard);
      NoCleanup(key);
      r := CurrentOf(Judge(cx, key, Some(v), now));
      if r.Current? {
        SightedNow(cx, read, client.run, |old(client.run)|, client.me, g, key, v, now);
        reading := Reading(v.bytes, now);
      }
      if r.Discard? {
        CountedJudged(metrics, CorruptionCount);
        metrics := Counted(metrics, CorruptionCount);
        ghost var counted := metrics;
        BestEffortDelete(key);
        TalliedThen(old(metrics), counted, metrics, Some(CorruptionCount));
      }
      SinceJoins(old(client.log), heard, client.log);
      FindWasHeard(cx, key, v, now, Since(heard, client.log));
    }

    /** Lets the script decide, and on success reads the new envelope back. */
    method TrySwap(key: Key, cur: Envelope, s: Sealed, ghost value: CacheValue, ghost requested: Option<int>, ghost created: int)
      returns (r: CasResult, ghost at: int, ghost reread: int)
      requires Ready() && SealAt(cx, key, value, requested, cur.source, false, created) == Some(s)
      modifies this`metrics, client
      ensures Ready() && old(client.run) <= client.run && old(client.state.now) <= client.state.now
      ensures Judged(metrics) == Judged(old(metrics)) && Tallied(old(metrics), metrics, None)
      ensures r.CasDone? ==> metrics == Counted(old(metrics), if r.swapped then CasSwapped else CasConflict)
      ensures forall i :: |old(client.run)| <= i < |client.run| && client.run[i].actor == client.me ==>
                && (client.run[i].cmd == SwapCommand(key, cur, s) || client.run[i].cmd == ScriptLoad(CasScript))
                && old(client.state.now) <= client.run[i].pre.now
      ensures r.CasDone? && r.swapped ==>
                && |old(client.run)| <= at < |client.run| && client.run[at].actor == client.me
                && client.run[at].cmd == SwapCommand(key, cur, s) && StoresUnder(client.run[at], key)
                && r.entry.Some? && DecodeAt(cx, key, s.bytes, reread) == Ok(r.entry.value)
      ensures r.CasDone? && !r.swapped ==>
                r.entry == Some(cur) && StoresNothing(client.run, |old(client.run)|, client.me, key)
      ensures old(client.schedule) == [] ==>
                && client.schedule == [] && |old(client.run)| <= at == |client.run| - 1
                && client.run[at].cmd == SwapCommand(key, cur, s) && ReplyTo(client.run[at]) != NoScript
                && SameContents(client.run[at].pre, old(client.state)) && client.state == Post(client.run[at])
                && (ReplyTo(client.run[at]) == Code(1) && DecodeAt(cx, key, s.bytes, client.state.now).Ok? ==>
                      r == CasDone(true, false, false, Some(DecodeAt(cx, key, s.bytes, client.state.now).value)))
      ensures old(client.log) <= client.log && TrySwapHeard(cx, key, cur, s, value, Since(old(client.log), client.log), r)
    {
      hide DecodeAt, Judged, Lawful, ValidContext, Apply, Post, ReplyTo, Chained, Foreign, CountOf, StoresUnder, SameContents,
        StoresNothing, Since, TrySwapHeard, ScriptHeard, LastHeard, SealAt, EnvelopeFor, TooLate, Tallied;
      CountedTallied(metrics, CasConflict);
      at, reread := -1, 0;
      var answer := atomic.CompareAndSet(key, cur.version, s.bytes, s.spec.ttl);
      ghost var sent, heard := client.run, client.log;
      if answer.CasUnavailable? {
        TrialWasHeard(cx, key, cur, s, value, Since(old(client.log), heard), CasFailed);
        return CasFailed, at, reread;
      }
      at := |sent| - 1;
      if !answer.swapped {
        TrialWasHeard(cx, key, cur, s, value, Since(old(client.log), heard),
          CasDone(false, answer.missing, answer.corrupt, Some(cur)));
        NothingStored(sent, |old(client.run)|, client.me, key);
        Count(CasConflict);
        return CasDone(false, answer.missing, answer.corrupt, Some(cur)), at, reread;
      }
      CasReplies(sent[at]);
      Count(CasSwapped);
      var now := client.Clock();
      reread := now;
      var again := DecodeAt(cx, key, s.bytes, now);
      r := if again.Ok? then CasDone(true, answer.missing, answer.corrupt, Some(again.value)) else CasRaised;
      SinceJoins(old(client.log), heard, client.log);
      SinceOne(heard, Timed(now));
      RereadExactly(cx, key, value, requested, cur.source, false, created, now);
      SealFits(cx, key, value, requested, cur.source, false, created, now);
      SwappedWasHeard(cx, key, cur, s, value, Since(old(client.log), heard), now, r);
    }

    /** Seals the new value with the current source version and tries the swap. */
    method Swap(key: Key, cur: Envelope, value: CacheValue, requested: Option<int>,
                ghost from: int, ghost g: int, ghost reading: Reading)
      returns (r: CasResult, ghost at: int)
      requires Ready() && Keys.IsData(key) && g < |client.run|
      requires Sighted(cx, client.run, from, client.me, g, key, reading, cur)
      modifies this`metrics, client
      ensures Ready() && old(client.run) <= client.run && old(client.state.now) <= client.state.now
      ensures Judged(metrics) == Judged(old(metrics)) && Tallied(old(metrics), metrics, None)
      ensures r.CasDone? ==> metrics == Counted(old(metrics), if r.swapped then CasSwapped else CasConflict)
      ensures SwapSteps(cx, client.run, |old(client.run)|, client.me, key, cur, value)
      ensures OwnDisciplined(cx, client.run, |old(client.run)|, client.me)
      ensures r.CasDone? && r.swapped ==>
                && |old(client.run)| <= at < |client.run| && client.run[at].actor == client.me
                && SwapsFor(cx, client.run[at], key, cur, value) && StoresUnder(client.run[at], key)
                && Settings.OrdinaryTtl(cx.ttl, cx.policyOf(key), requested, client.run[at].cmd.px)
                && r.entry.Some? && EnvelopeFor(cx, r.entry.value, value, cur.source, client.run[at].cmd.value)
      ensures r.CasDone? && !r.swapped ==>
                r.entry == Some(cur) && StoresNothing(client.run, |old(client.run)|, client.me, key)
      ensures old(client.schedule) == [] && ValueIn(Contents(old(client.state)), key) == Some(Raw(reading.raw)) ==>
                && client.schedule == [] && client.state.now == old(client.state.now)
                && SwapAlone(cx, key, SealAt(cx, key, value, requested, cur.source, false, client.state.now), r,
                     Contents(old(client.state)), Contents(client.state), client.state.now)
      ensures old(client.log) <= client.log && SwapHeard(cx, key, cur, value, requested, Since(old(client.log), client.log), r)
    {
      hide DecodeAt, EncodeIn, Judged, Contents, Lawful, ValidContext, Apply, Post, ReplyTo, OwnDisciplined, Keys.IsKey,
        Chained, Foreign, Disciplined, SealAt, CountOf, EnvelopeFor, StoresUnder, WriteClaim, Sighted, SwapsFor,
        SwapSteps, StoresNothing, SwapAlone, Since, SwapHeard, TrySwapHeard, Settings.OrdinaryTtl, Tallied;
      CountedTallied(metrics, CasConflict);
      at := -1;
      ghost var read := client.run;
      var created := client.Clock();
      ghost var heard := client.log;
      SinceOne(old(client.log), Timed(created));
      var sealing := SealAt(cx, key, value, requested, cur.source, false, created);
      if sealing.None? {
        NoSwapSteps(cx, client.run, |read|, client.me, key, cur, value);
        if old(client.schedule) == [] { SealFailsAlone(cx, key, Contents(client.state), client.state.now); }
        SwapWasHeard(cx, key, cur, value, requested, created, [], CasRaised);
        assert [Timed(created)] + [] == [Timed(created)];
        return CasRaised, at;
      }
      var s := sealing.value;
      ghost var reread;
      ghost var before := client.run;
      r, at, reread := TrySwap(key, cur, s, value, requested, created);
      SinceJoins(old(client.log), heard, client.log);
      SwapWasHeard(cx, key, cur, value, requested, created, Since(heard, client.log), r);
      SightedLater(cx, read, client.run, from, client.me, g, key, reading, cur);
      SwapStepsMade(cx, client.run, from, |read|, client.me, g, key, reading, cur, value, requested, created, s);
      SealFits(cx, key, value, requested, cur.source, false, created, reread);
      if r.CasDone? && r.swapped {
        SealTtl(cx, key, value, requested, cur.source, false, created);
        SwapStepAt(cx, client.run, |read|, client.me, key, cur, value, at);
      }
      if r.CasDone? && !r.swapped {
        StoresNothingSince(before, client.run, |read|, client.me, key);
      }
      if old(client.schedule) == [] && ValueIn(Contents(old(client.state)), key) == Some(Raw(reading.raw)) {
        SwappedAlone(cx, client.run, from, client.me, g, client.run[at], old(client.state), key, reading, cur, s);
      }
    }

    /** Compare-and-set.  It swaps only an envelope this very call read live and whose
        envelope or source version was the expected one, for the given value under the
        same source version; without a swap nothing of its own is stored.  It raises
        exactly where decoding leaks, sealing fails or, after a swap, the new envelope has
        expired before it is read back.  With nobody else around it swaps exactly when
        the versions match. */
    method CompareAndSet(key: Key, expected: SourceVersion, value: CacheValue, requested: Option<int>)
      returns (r: CasResult, ghost cur: Option<Envelope>, ghost g: int, ghost reading: Reading, ghost at: int)
      requires Valid() && Keys.IsData(key)
      modifies this, client
      ensures Valid() && old(client.run) <= client.run && old(client.state.now) <= client.state.now
      ensures OwnDisciplined(cx, client.run, |old(client.run)|, client.me)
      ensures lookups == old(lookups) && slots == old(slots)
      ensures discards == old(discards) + (if r.CasDone? && r.corrupt && r.entry.None? then 1 else 0)
      ensures Tallied(old(metrics), metrics, if discards > old(discards) then Some(CorruptionCount) else None)
      ensures r.CasDone? && r.entry.Some? ==> metrics == Counted(old(metrics), if r.swapped then CasSwapped else CasConflict)
      ensures cur.Some? ==>
                && Seen(cx, client.run, |old(client.run)|, client.me, key, cur.value)
                && Sighted(cx, client.run, |old(client.run)|, client.me, g, key, reading, cur.value)
      ensures old(client.log) <= client.log
      ensures CasHeard(cx, key, expected, value, requested, Since(old(client.log), client.log), r)
      ensures r.CasDone? && r.swapped ==>
                && cur.Some? && (expected == TextVersion(cur.value.version) || expected == cur.value.source)
                && |old(client.run)| <= g < at < |client.run| && client.run[at].actor == client.me
                && SwapsFor(cx, client.run[at], key, cur.value, value) && StoresUnder(client.run[at], key)
                && Settings.OrdinaryTtl(cx.ttl, cx.policyOf(key), requested, client.run[at].cmd.px)
                && r.entry.Some? && EnvelopeFor(cx, r.entry.value, value, cur.value.source, client.run[at].cmd.value)
      ensures r.CasDone? && !r.swapped ==>
                r.entry == cur && StoresNothing(client.run, |old(client.run)|, client.me, key)
      ensures cur.Some? && expected != TextVersion(cur.value.version) && expected != cur.value.source ==>
                r == CasDone(false, false, false, cur)
      // with nobody else around: exactly when it swaps
      ensures old(client.schedule) == [] ==>
                (r.CasDone? && r.swapped <==>
                  Swappable(cx, key, expected, value, requested, Contents(old(client.state)), client.state.now))
      ensures old(client.schedule) == [] ==>
                && client.schedule == [] && client.state.now == old(client.state.now)
                && CasAlone(cx, key, expected, value, requested, r,
                     Contents(old(client.state)), Contents(client.state), client.state.now)
    {
      hide DecodeAt, EncodeIn, Judged, Contents, Lawful, ValidContext, Apply, Post, ReplyTo, OwnDisciplined, Keys.IsKey,
        Chained, Foreign, Disciplined, SealAt, CountOf, EnvelopeFor, StoresUnder, Sighted, SwapsFor,
        SwapSteps, StoresNothing, SwapAlone, Seen, Judge, Sighting, WriteClaim, CasAlone, Since, FindHeard, SwapHeard, CasHeard,
        Settings.OrdinaryTtl, Swappable, Tallied, Keys.ValidEncoder, Head, Rest, LiveValue, Heard;
      cur, at := None, -1;
      var found;
      found, g, reading := ReadForSwap(key);
      ghost var read, heard, counted := client.run, client.log, metrics;
      PlainIsDisciplined(cx, read, |old(client.run)|, client.me);
      ReadsStoreNothing(read, |old(client.run)|, client.me, key);
      if found.Discard? { discards := discards + 1; }
      if found.Current? {
        cur := Some(found.envelope);
        SightedIsSeen(cx, read, |old(client.run)|, client.me, g, key, reading, found.envelope);
      }
      if !(found.Current? && Matches(expected, found.envelope)) {
        if found.Current? {
          Count(CasConflict);
          TalliedThen(old(metrics), counted, metrics, None);
        }
        if old(client.schedule) == [] {
          UnswappedAlone(cx, key, expected, value, requested, found, Contents(old(client.state)), Contents(client.state), client.state.now);
        }
        UnswappedWasHeard(cx, key, expected, value, requested, Since(old(client.log), heard), found);
        if old(client.schedule) == [] {
          SwapsAlone(cx, key, expected, value, requested, Unswapped(found), Contents(old(client.state)), Contents(client.state),
            client.state.now);
        }
        return Unswapped(found), cur, g, reading, at;
      }
      r, at := SwapFound(key, expected, found.envelope, value, requested, |old(client.run)|, g, reading, old(client.log));
      TalliedThen(old(metrics), counted, metrics, None);
      if old(client.schedule) == [] {
        MatchedAlone(cx, key, expected, value, requested, found.envelope, r, Contents(old(client.state)), Contents(client.state),
          client.state.now);
        SwapsAlone(cx, key, expected, value, requested, r, Contents(old(client.state)), Contents(client.state), client.state.now);
      }
    }

    /** The swap of a call that began at `from` and has found an expected envelope. */
    method SwapFound(
      key: Key, expected: SourceVersion, e: Envelope, value: CacheValue, requested: Option<int>,
      ghost from: int, ghost g: int, ghost reading: Reading, ghost log: seq<Event>
    ) returns (r: CasResult, ghost at: int)
      requires Ready() && Keys.IsData(key) && 0 <= from <= g < |client.run| && Matches(expected, e)
      requires Sighted(cx, client.run, from, client.me, g, key, reading, e) && Seen(cx, client.run, from, client.me, key, e)
      requires OwnDisciplined(cx, client.run, from, client.me) && StoresNothing(client.run, from, client.me, key)
      requires log <= client.log && FindHeard(cx, key, Since(log, client.log), Current(e))
      modifies this`metrics, client
      ensures Ready() && old(client.run) <= client.run && old(client.state.now) <= client.state.now
      ensures Judged(metrics) == Judged(old(metrics)) && Tallied(old(metrics), metrics, None)
      ensures r.CasDone? ==> metrics == Counted(old(metrics), if r.swapped then CasSwapped else CasConflict)
      ensures OwnDisciplined(cx, client.run, from, client.me)
      ensures Sighted(cx, client.run, from, client.me, g, key, reading, e) && Seen(cx, client.run, from, client.me, key, e)
      ensures r.CasDone? && r.swapped ==>
                && |old(client.run)| <= at < |client.run| && client.run[at].actor == client.me
                && SwapsFor(cx, client.run[at], key, e, value) && StoresUnder(client.run[at], key)
                && Settings.OrdinaryTtl(cx.ttl, cx.policyOf(key), requested, client.run[at].cmd.px)
                && r.entry.Some? && EnvelopeFor(cx, r.entry.value, value, e.source, client.run[at].cmd.value)
      ensures r.CasDone? && !r.swapped ==> r.entry == Some(e) && StoresNothing(client.run, from, client.me, key)
      ensures old(client.schedule) == [] && ValueIn(Contents(old(client.state)), key) == Some(Raw(reading.raw)) ==>
                && client.schedule == [] && client.state.now == old(client.state.now)
                && SwapAlone(cx, key, SealAt(cx, key, value, requested, e.source, false, client.state.now), r,
                     Contents(old(client.state)), Contents(client.state), client.state.now)
      ensures log <= client.log && CasHeard(cx, key, expected, value, requested, Since(log, client.log), r)
    {
      hide DecodeAt, EncodeIn, Judged, Contents, Lawful, ValidContext, Apply, Post, ReplyTo, OwnDisciplined, Keys.IsKey,
        Chained, Foreign, Disciplined, SealAt, CountOf, Counted, EnvelopeFor, StoresUnder, Sighted, SwapsFor, SwapSteps,
        StoresNothing, SwapAlone, Seen, Since, FindHeard, SwapHeard, CasHeard, Settings.OrdinaryTtl, Tallied, Keys.ValidEncoder;
      ghost var read, heard := client.run, client.log;
      r, at := Swap(key, e, value, requested, from, g, reading);
      OwnDisciplinedJoins(cx, read, client.run, from, client.me);
      SeenLater(cx, read, client.run, from, client.me, key, e);
      SightedLater(cx, read, client.run, from, client.me, g, key, reading, e);
      SinceJoins(log, heard, client.log);
      CasWasHeard(cx, key, expected, value, requested, Since(log, heard), e, Since(heard, client.log), r);
      if r.CasDone? && !r.swapped {
        StoresNothingJoins(read, client.run, from, client.me, key);
      }
    }

    /** DEL: true exactly when there was a live entry. */
    method Delete(key: Key) returns (r: Option<bool>, ghost at: int)
      requires Valid() && Keys.IsData(key)
      modifies this`metrics, client
      ensures Valid() && old(client.run) <= client.run && old(client.state.now) <= client.state.now
      ensures OwnDisciplined(cx, client.run, |old(client.run)|, client.me)
      ensures OnlyOwn(client.run, |old(client.run)|, client.me, at)
      ensures at >= 0 ==> client.run[at].cmd == Del(key)
      ensures r.Some? ==>
                && at >= 0 && (r.value <==> key in Contents(client.run[at].pre))
                && Contents(Post(client.run[at])) == Contents(client.run[at].pre) - {key}
      ensures old(client.schedule) == [] ==>
                && client.schedule == [] && client.state.now == old(client.state.now)
                && r == Some(key in Contents(old(client.state)))
                && Contents(client.state) == Contents(old(client.state)) - {key}
      ensures |client.log| == |old(client.log)| + 1 && old(client.log) <= client.log
      ensures client.log[|old(client.log)|].Called? && client.log[|old(client.log)|].cmd == Del(key)
      ensures r.None? <==> client.log[|old(client.log)|].o.Unavailable?
      ensures metrics == if r.None? then old(metrics) else Counted(old(metrics), DeleteCount)
    {
      hide Judged, Contents, Lawful, ValidContext, Apply, Post, ReplyTo, OwnDisciplined, Keys.IsKey, Chained, Foreign,
        Disciplined, CountOf;
      var o := client.Call(Del(key));
      ghost var last := |client.run| - 1;
      at := if |old(client.run)| <= last && client.run[last].actor == client.me then last else -1;
      PlainIsDisciplined(cx, client.run, |old(client.run)|, client.me);
      if o.Unavailable? { return None, at; }
      DelContents(client.run[at]);
      StepMeaning(client.run[at]);
      Count(DeleteCount);
      return Some(o.reply != Code(0)), at;
    }

    // ------------------------------------------------------------------- loading

    /** Asks the loader once and puts what it returned, if it may be cached. */
    method LoadAndPopulate(key: Key, loader: Loader, requested: Option<int>, source: SourceVersion, leased: bool)
      returns (r: Served, ghost at: int)
      requires Valid() && Keys.IsData(key)
      modifies this`metrics, client, loader
      ensures Valid() && old(client.run) <= client.run && loader.calls == old(loader.calls) + 1
      ensures OwnDisciplined(cx, client.run, |old(client.run)|, client.me)
      ensures OnlyOwn(client.run, |old(client.run)|, client.me, at) && (at >= 0 ==> client.run[at].cmd.Set?)
      ensures Populates(cx, client.run, |old(client.run)|, client.me, key, source, Some(loader.outcomes(old(loader.calls))), at)
      ensures Reports(cx, key, source, loader.outcomes(old(loader.calls)), r, client.run, at)
      ensures !r.ServedHit?
      ensures old(client.schedule) == [] ==>
                && client.schedule == [] && client.state.now == old(client.state.now)
                && LoadAlone(cx, key, requested, source, loader.outcomes(old(loader.calls)), r,
                     Contents(old(client.state)), Contents(client.state), client.state.now)
      ensures old(client.log) <= client.log
      ensures LoadHeard(cx, key, requested, source, loader.outcomes(old(loader.calls)), Since(old(client.log), client.log), r)
    {
      hide Judged, Contents, Lawful, ValidContext, OwnDisciplined, Keys.IsKey, Chained, Foreign, Disciplined, WritesValue,
        SealAt, EnvelopeFor, CountOf, PutAlone, Judge, DecodeAt, EncodeIn, Post, Apply, LoadAlone, Populates, Reports, OnlyOwn,
        Since, PutHeard, LoadHeard;
      SinceNone(client.log);
      var o := loader.Load();
      if o.LoadFailed? || (IsNull(o.value) && !cx.policyOf(key).negativeCaching) {
        NoPutWasLoad(cx, key, requested, source, o);
        UnputReports(cx, client.run, client.me, key, source, o);
        NothingToPut(cx, key, requested, source, o, Contents(client.state), client.state.now);
        if !o.LoadFailed? { Count(if leased then LoadCount else DuplicateLoad); }
        return Unput(o), -1;
      }
      Count(if leased then LoadCount else DuplicateLoad);
      var p;
      p, at := Put(key, o.value, requested, source);
      PutWasLoad(cx, key, requested, source, o.value, Since(old(client.log), client.log), p);
      PutReports(cx, client.run, |old(client.run)|, client.me, key, source, o.value, p, at);
      if old(client.schedule) == [] {
        PutIsLoadAlone(cx, key, o.value, requested, source, p, Contents(old(client.state)), Contents(client.state), client.state.now);
      }
      if p.PutUnavailable? && leased { Count(PopulationFailure); }
      return AfterPut(o.value, p), at;
    }

    /** Polls until a peer has populated the key or the wait is over.  Sleeping at least
        the polling interval each time, it looks at most that many times. */
    method AwaitPeer(key: Key, watch: Stopwatch) returns (peer: LookupResult, ghost polls: nat)
      requires Valid() && Keys.IsData(key)
      modifies this, client, watch
      ensures Valid() && old(client.run) <= client.run && slots == old(slots) && discards == old(discards)
      ensures OwnDisciplined(cx, client.run, |old(client.run)|, client.me)
      ensures ReadSteps(client.run, |old(client.run)|, client.me, key)
      ensures peer.Hit? ==> Seen(cx, client.run, |old(client.run)|, client.me, key, peer.envelope)
      ensures cx.flight.pollMs > 0 && polls <= PollBound(cx.flight.waitMs, cx.flight.pollMs)
      ensures PollsWithin(polls, cx.flight.waitMs, cx.flight.pollMs)
      ensures lookups == old(lookups) + polls - (if peer.LookupUnavailable? || peer.LookupRaised? then 1 else 0)
      ensures old(client.schedule) == [] && key !in Contents(old(client.state)) ==>
                && client.schedule == [] && peer.Miss? && client.state.now == old(client.state.now)
                && Contents(client.state) == Contents(old(client.state))
      ensures old(client.log) <= client.log && WaitHeard(cx, key, Since(old(client.log), client.log), polls, peer)
      ensures peer.Miss? ==> old(watch.now) + cx.flight.waitMs <= watch.now
    {
      hide Judged, Contents, Lawful, ValidContext, OwnDisciplined, Keys.IsKey, Chained, Foreign, Disciplined, Seen, CountOf,
        LookupsInTurn, ReadSteps, PollBound, Since, LookupHeard, WaitHeard, Head, Rest, LiveValue, Heard, ReplyTo, Keys.ValidEncoder,
        CountHeard, Apply, Post;
      SinceNone(client.log);
      WaitBegins(cx, key);
      FlightBounds(cx);
      ghost var from := |client.run|;
      PlainIsDisciplined(cx, client.run, from, client.me);
      NoReadSteps(client.run, from, client.me, key);
      peer, polls := Miss, 0;
      ghost var slept := 0;
      var start := watch.Read();
      var deadline := start + cx.flight.waitMs;
      PollsFit(0, cx.flight.waitMs, cx.flight.pollMs);
      var now := watch.Read();
      while now < deadline
        invariant Valid() && old(client.run) <= client.run && slots == old(slots) && discards == old(discards)
        invariant OwnDisciplined(cx, client.run, from, client.me) && ReadSteps(client.run, from, client.me, key)
        invariant peer.Miss? && lookups == old(lookups) + polls
        invariant now == watch.now && slept == polls * cx.flight.pollMs && start + slept <= now
        invariant polls <= PollBound(cx.flight.waitMs, cx.flight.pollMs)
        invariant PollsWithin(polls, cx.flight.waitMs, cx.flight.pollMs)
        invariant old(client.log) <= client.log && WaitHeard(cx, key, Since(old(client.log), client.log), polls, Miss)
        invariant old(client.schedule) == [] && key !in Contents(old(client.state)) ==>
                    && client.schedule == [] && client.state.now == old(client.state.now)
                    && Contents(client.state) == Contents(old(client.state))
        decreases deadline - now
      {
        watch.Sleep(cx.flight.pollMs);
        ghost var before, heard := client.run, client.log;
        if key !in Contents(client.state) { AbsentMisses(cx, Contents(client.state), client.state.now, key); }
        ghost var step;
        peer, step := Lookup(key);
        SinceJoins(old(client.log), heard, client.log);
        WaitGoesOn(cx, key, Since(old(client.log), heard), polls, Since(heard, client.log), peer);
        NextPoll(polls, slept, cx.flight.waitMs, cx.flight.pollMs);
        polls, slept := polls + 1, slept + cx.flight.pollMs;
        PollsFit(polls, cx.flight.waitMs, cx.flight.pollMs);
        OwnDisciplinedJoins(cx, before, client.run, from, client.me);
        ReadStepsJoin(before, client.run, from, client.me, key);
        if peer.Hit? {
          SeenSince(cx, client.run, |before|, from, client.me, key, peer.envelope);
        }
        if !peer.Miss? { return; }
        now := watch.Read();
      }
    }

    /** Loading as the holder of the lease: however the load ends, the release is
        attempted exactly once. */
    method LoadUnderLease(f: Flight, loader: Loader, requested: Option<int>, ghost from: int, ghost grant: int)
      returns (r: Served, ghost t: Trace)
      requires Valid() && Keys.IsData(f.key) && Keys.IsLease(f.lease)
      requires GrantedAt(cx, client.run, from, client.me, f, grant)
      modifies this`metrics, client, loader, atomic`releases
      ensures Valid() && old(client.run) <= client.run && loader.calls == old(loader.calls) + 1
      ensures t == Trace(0, grant, -1, t.at)
      ensures OwnDisciplined(cx, client.run, |old(client.run)|, client.me)
      ensures FlightSteps(cx, client.run, |old(client.run)|, |client.run|, client.me, f, Some(loader.outcomes(old(loader.calls))), t)
      ensures Reports(cx, f.key, f.source, loader.outcomes(old(loader.calls)), r, client.run, t.at)
      ensures atomic.releases == old(atomic.releases) + [(f.lease, f.token)]
      ensures !r.ServedHit?
      ensures old(client.schedule) == [] && ValueIn(Contents(old(client.state)), f.lease) == Some(Raw(f.token)) ==>
                && client.schedule == [] && client.state.now == old(client.state.now)
                && LoadAlone(cx, f.key, requested, f.source, loader.outcomes(old(loader.calls)), r,
                     Contents(old(client.state)) - {f.lease}, Contents(client.state), client.state.now)
      ensures old(client.log) <= client.log
      ensures LeasedHeard(cx, f, requested, loader.outcomes(old(loader.calls)), Since(old(client.log), client.log), r)
    {
      hide Judged, Lawful, ValidContext, OwnDisciplined, Keys.IsKey, Chained, Foreign, Disciplined, CountOf, ReplyTo,
        Reports, Populates, FlightSteps, OnlyOwn, Contents, LoadAlone, Since, LoadHeard, ScriptHeard, LastHeard, LeasedHeard;
      ghost var o, held := loader.outcomes(loader.calls), client.run;
      ghost var at;
      r, at := LoadAndPopulate(f.key, loader, requested, f.source, true);
      if old(client.schedule) == [] && ValueIn(Contents(old(client.state)), f.lease) == Some(Raw(f.token)) {
        DataIsNoLease(f.key, f.lease);
        LoadKeepsOthers(cx, f.key, requested, f.source, o, r, Contents(old(client.state)), Contents(client.state), client.state.now, f.lease);
        LoadWithout(cx, f.key, requested, f.source, o, r, Contents(old(client.state)), Contents(client.state), client.state.now, f.lease);
      }
      t := Trace(0, grant, -1, at);
      ghost var loaded, heard := client.run, client.log;
      PutFlight(cx, loaded, |held|, client.me, f, o, t);
      assert loaded[grant] == held[grant];
      var released := atomic.ReleaseLease(cx, f.lease, f.token, grant);
      if released.Unavailable? { Count(ReleaseFailure); }
      SinceJoins(old(client.log), heard, client.log);
      LeasedWasHeard(cx, f, requested, o, Since(old(client.log), heard), Since(heard, client.log), r);
      OwnDisciplinedJoins(cx, loaded, client.run, |held|, client.me);
      FlightLater(cx, loaded, client.run, |held|, |loaded|, client.me, f, Some(o), t);
      ReleaseFlight(cx, client.run, |loaded|, client.me, f, Some(o), t);
      FlightJoins(cx, client.run, |held|, |loaded|, |client.run|, client.me, f, Some(o), t);
      ReportsLater(cx, f.key, f.source, o, r, loaded, client.run, at);
    }

    /** Asks the loader without touching the cache. */
    method LoadOnly(key: Key, loader: Loader, ghost source: SourceVersion) returns (r: Served)
      modifies loader
      ensures loader.calls == old(loader.calls) + 1
      ensures Reports(cx, key, source, loader.outcomes(old(loader.calls)), r, client.run, -1)
      ensures r == Degraded(loader.outcomes(old(loader.calls)))
    {
      var o := loader.Load();
      r := Degraded(o);
    }

    /** Answers without coordination: the hit, an exception, or a degraded load. */
    method AnswerLookup(
      f: Flight, first: LookupResult, leasable: bool, loader: Loader, ghost requested: Option<int>, ghost from: int
    ) returns (r: Served, ghost t: Trace)
      requires Ready() && (first.Miss? ==> !leasable) && ReadSteps(client.run, from, client.me, f.key)
      modifies this`metrics, loader
      ensures Judged(metrics) == Judged(old(metrics)) && NoTraffic(t, None) && t.grant == -1
      ensures old(loader.calls) <= loader.calls <= old(loader.calls) + 1
      ensures Since(client.log, client.log) == []
      ensures if first.LookupUnavailable?
              then loader.calls == old(loader.calls) + 1 && r == Degraded(loader.outcomes(old(loader.calls)))
              else loader.calls == old(loader.calls) && r == if first.Hit? then ServedHit(first.envelope) else ServeRaised
      ensures FlightReport(cx, client.run, from, client.me, f, Asked(loader, old(loader.calls)), r, t)
      ensures LookupDecides(cx, f, leasable, requested, Asked(loader, old(loader.calls)), first, [], r, t, None)
    {
      hide Reports, Judged, CountOf, FlightReport, ReadSteps, CoordinateHeard;
      t := Trace(0, -1, -1, -1);
      FlightBounds(cx);
      if first.LookupUnavailable? {
        Count(UnavailableMiss);
        r := LoadOnly(f.key, loader, f.source);
      } else {
        r := if first.Hit? then ServedHit(first.envelope) else ServeRaised;
      }
      LookedOnly(cx, client.run, from, client.me, f, Asked(loader, old(loader.calls)), r);
    }

    /** Coordination by a call that began at `from` and has missed. */
    method AfterMiss(f: Flight, loader: Loader, watch: Stopwatch, requested: Option<int>, ghost from: int)
      returns (r: Served, ghost t: Trace, ghost put: Option<int>)
      requires Valid() && Keys.IsData(f.key) && Keys.IsLease(f.lease)
      requires ReadSteps(client.run, from, client.me, f.key) && OwnDisciplined(cx, client.run, from, client.me)
      modifies this, client, loader, watch, atomic`releases
      ensures Valid() && old(client.run) <= client.run && slots == old(slots) && discards == old(discards)
      ensures OwnDisciplined(cx, client.run, from, client.me)
      ensures FlightReport(cx, client.run, from, client.me, f, Asked(loader, old(loader.calls)), r, t)
      ensures r.ServedHit? ==> Seen(cx, client.run, from, client.me, f.key, r.envelope)
      ensures old(loader.calls) <= loader.calls <= old(loader.calls) + 1
      ensures atomic.releases == old(atomic.releases) + (if t.grant >= 0 then [(f.lease, f.token)] else [])
      ensures old(client.schedule) == [] && f.key !in Contents(old(client.state)) ==>
                && client.schedule == [] && client.state.now == old(client.state.now) && loader.calls == old(loader.calls) + 1
                && LoadAlone(cx, f.key, requested, f.source, loader.outcomes(old(loader.calls)), r,
                     Contents(old(client.state)), Contents(client.state), client.state.now)
      ensures old(client.log) <= client.log
      ensures LookupDecides(cx, f, true, requested, Asked(loader, old(loader.calls)), Miss, Since(old(client.log), client.log), r, t, put)
      ensures Head(old(client.schedule)).fault == Healthy
              && f.lease !in After(old(client.state), Head(old(client.schedule)).burst).entries ==>
                && loader.calls == old(loader.calls) + 1 && 0 <= t.grant < |client.run|
                && client.run[t.grant].pre == After(old(client.state), Head(old(client.schedule)).burst)
    {
      hide Judged, Lawful, ValidContext, OwnDisciplined, Keys.IsKey, Chained, Foreign, Disciplined, ReplyTo, Post, Reports,
        FlightSteps, Seen, FlightReport, Contents, LoadAlone, Since, CoordinateHeard, Keys.ValidEncoder;
      ghost var looked := client.run;
      r, t, put := Coordinate(f, loader, watch, requested);
      OwnDisciplinedJoins(cx, looked, client.run, from, client.me);
      LookedFirst(cx, looked, client.run, from, client.me, f, Asked(loader, old(loader.calls)), r, t);
      if r.ServedHit? {
        ReadStepsFrom(looked, from, client.me, f.key);
        SeenSince(cx, client.run, |looked|, from, client.me, f.key, r.envelope);
      }
    }

    /** After a miss: load as the lease holder, or wait for the holder and then load
        anyway, or load without the cache if the engine does not answer. */
    method Coordinate(f: Flight, loader: Loader, watch: Stopwatch, requested: Option<int>)
      returns (r: Served, ghost t: Trace, ghost put: Option<int>)
      requires Valid() && Keys.IsData(f.key) && Keys.IsLease(f.lease)
      modifies this, client, loader, watch, atomic`releases
      ensures Valid() && old(client.run) <= client.run && slots == old(slots) && discards == old(discards)
      ensures OwnDisciplined(cx, client.run, |old(client.run)|, client.me)
      ensures FlightReport(cx, client.run, |old(client.run)|, client.me, f, Asked(loader, old(loader.calls)), r, t)
      ensures r.ServedHit? ==> Seen(cx, client.run, |old(client.run)|, client.me, f.key, r.envelope)
      ensures old(loader.calls) <= loader.calls <= old(loader.calls) + 1
      ensures atomic.releases == old(atomic.releases) + (if t.grant >= 0 then [(f.lease, f.token)] else [])
      ensures old(client.schedule) == [] && f.key !in Contents(old(client.state)) ==>
                && client.schedule == [] && client.state.now == old(client.state.now) && loader.calls == old(loader.calls) + 1
                && LoadAlone(cx, f.key, requested, f.source, loader.outcomes(old(loader.calls)), r,
                     Contents(old(client.state)), Contents(client.state), client.state.now)
      ensures old(client.log) <= client.log
      ensures CoordinateHeard(cx, f, requested, Asked(loader, old(loader.calls)), Since(old(client.log), client.log), r, t, put)
      ensures Head(old(client.schedule)).fault == Healthy
              && f.lease !in After(old(client.state), Head(old(client.schedule)).burst).entries ==>
                && loader.calls == old(loader.calls) + 1 && 0 <= t.grant < |client.run|
                && client.run[t.grant].pre == After(old(client.state), Head(old(client.schedule)).burst)
    {
      hide Judged, Lawful, ValidContext, OwnDisciplined, Keys.IsKey, Chained, Foreign, Disciplined, CountOf, ReplyTo, Post,
        Reports, FlightSteps, Seen, StoresUnder, FlightReport, Contents, LoadAlone, Since, CoordinateHeard, LeasedHeard,
        ContendedHeard, After, Keys.ValidEncoder, Apply;
      FlightBounds(cx);
      ghost var start, o := client.run, loader.outcomes(loader.calls);
      var lease := atomic.AcquireLease(f.lease, f.token, cx.flight.leaseMs);
      ghost var asked, heard := client.run, client.log;
      ghost var last := |asked| - 1;
      SinceOne(old(client.log), Called(SetNx(f.lease, f.token, cx.flight.leaseMs), lease));
      SinceNone(heard);
      LeaseIsDisciplined(cx, asked, |start|, client.me, f);
      DataIsNoLease(f.key, f.lease);
      if old(client.schedule) == [] { LeaseAlone(asked[last], f.lease, f.token); }
      if lease.Unavailable? {
        Count(UnavailableMiss);
        r := LoadOnly(f.key, loader, f.source);
        t := AskedInVain(cx, asked, |start|, client.me, f, o, r);
        put := None;
      } else if lease.reply == Done {
        r, t := LoadUnderLease(f, loader, requested, |start|, last);
        OwnDisciplinedJoins(cx, asked, client.run, |start|, client.me);
        assert client.run[last] == asked[last];
        GrantedFirst(cx, asked, client.run, |start|, client.me, f, o, r, t);
        put := Some(1);
      } else {
        Count(Contention);
        r, t, put := WaitAndLoad(f, loader, watch, requested);
        put := Forth(put, 1);
        OwnDisciplinedJoins(cx, asked, client.run, |start|, client.me);
        RefusedFirst(cx, asked, client.run, |start|, client.me, f, Asked(loader, old(loader.calls)), r, t);
        if r.ServedHit? { SeenSince(cx, client.run, |asked|, |start|, client.me, f.key, r.envelope); }
      }
      SinceJoins(old(client.log), heard, client.log);
      CoordinateWasHeard(cx, f, requested, Asked(loader, old(loader.calls)), lease, Since(heard, client.log), r, t, put);
    }

    /** Somebody else holds the lease. */
    method WaitAndLoad(f: Flight, loader: Loader, watch: Stopwatch, requested: Option<int>)
      returns (r: Served, ghost t: Trace, ghost put: Option<int>)
      requires Valid() && Keys.IsData(f.key)
      modifies this, client, loader, watch
      ensures Valid() && old(client.run) <= client.run && slots == old(slots) && discards == old(discards)
      ensures OwnDisciplined(cx, client.run, |old(client.run)|, client.me)
      ensures FlightReport(cx, client.run, |old(client.run)|, client.me, f, Asked(loader, old(loader.calls)), r, t)
      ensures t.grant == t.lost == -1
      ensures r.ServedHit? ==> Seen(cx, client.run, |old(client.run)|, client.me, f.key, r.envelope)
      ensures old(loader.calls) <= loader.calls <= old(loader.calls) + 1
      ensures old(client.schedule) == [] && f.key !in Contents(old(client.state)) ==>
                && client.schedule == [] && client.state.now == old(client.state.now) && loader.calls == old(loader.calls) + 1
                && LoadAlone(cx, f.key, requested, f.source, loader.outcomes(old(loader.calls)), r,
                     Contents(old(client.state)), Contents(client.state), client.state.now)
      ensures old(client.log) <= client.log
      ensures ContendedHeard(cx, f, requested, Asked(loader, old(loader.calls)), Since(old(client.log), client.log), r, t, put)
    {
      hide Judged, Lawful, ValidContext, OwnDisciplined, Keys.IsKey, Chained, Foreign, Disciplined, CountOf, ReplyTo, Post,
        Reports, Populates, FlightSteps, OnlyOwn, Seen, ReadSteps, PollBound, Contents, LoadAlone, Since, WaitHeard, LoadHeard,
        ContendedHeard;
      ghost var start, o := client.run, loader.outcomes(loader.calls);
      var peer;
      ghost var polls, at;
      peer, polls := AwaitPeer(f.key, watch);
      ghost var waited, heard := client.run, client.log;
      t := Trace(polls, -1, -1, -1);
      LookupFlight(cx, waited, waited, |start|, client.me, f, None, t);
      if peer.Hit? || peer.LookupRaised? {
        r := if peer.Hit? then ServedHit(peer.envelope) else ServeRaised;
        ContendedWasHeard(cx, f, requested, None, Since(old(client.log), heard), peer, [], r, t);
        assert Since(old(client.log), heard) + [] == Since(old(client.log), heard);
        put := None;
        return;
      }
      r, at := LoadAndPopulate(f.key, loader, requested, f.source, false);
      t := Trace(polls, -1, -1, at);
      OwnDisciplinedJoins(cx, waited, client.run, |start|, client.me);
      LookupFlight(cx, waited, client.run, |start|, client.me, f, Some(o), t);
      PutFlight(cx, client.run, |waited|, client.me, f, o, t);
      FlightJoins(cx, client.run, |start|, |waited|, |client.run|, client.me, f, Some(o), t);
      SinceJoins(old(client.log), heard, client.log);
      ContendedWasHeard(cx, f, requested, Some(o), Since(old(client.log), heard), peer, Since(heard, client.log), r, t);
      put := Some(|Since(old(client.log), heard)|);
    }

    /** Read-through loading, under every interleaving and every pattern of engine
        failures.  A hit is one this call saw live and costs no load; otherwise the
        loader is called exactly once and its answer returned, degraded if the engine
        failed; only exceptions that are no engine errors escape.  An acknowledged
        lease is released by exactly one attempt, and the waiting is bounded. */
    method GetOrLoad(
      key: Key, loader: Loader, watch: Stopwatch, requested: Option<int>, source: SourceVersion, token: Bytes
    ) returns (r: Served, ghost t: Trace, ghost put: Option<int>)
      requires Valid() && Keys.IsData(key)
      modifies this, client, loader, watch, atomic`releases
      ensures Valid() && old(client.run) <= client.run && slots == old(slots) && discards == old(discards)
      ensures OwnDisciplined(cx, client.run, |old(client.run)|, client.me)
      ensures FlightReport(cx, client.run, |old(client.run)|, client.me, Flight(key, LeaseOf(key), token, source),
                Asked(loader, old(loader.calls)), r, t)
      ensures r.ServedHit? ==> Seen(cx, client.run, |old(client.run)|, client.me, key, r.envelope)
      ensures old(loader.calls) <= loader.calls <= old(loader.calls) + 1
      ensures atomic.releases == old(atomic.releases) + (if t.grant >= 0 then [(LeaseOf(key), token)] else [])
      ensures old(client.schedule) == [] ==>
                && client.schedule == [] && client.state.now == old(client.state.now)
                && FlightAlone(cx, key, requested, source, Keys.LeaseKey(cx.platform, encoder, key).Some?,
                     Asked(loader, old(loader.calls)), r, Contents(old(client.state)), Contents(client.state), client.state.now)
      ensures old(client.log) <= client.log
      ensures FlightHeard(cx, Flight(key, LeaseOf(key), token, source), Keys.LeaseKey(cx.platform, encoder, key).Some?, requested,
                Asked(loader, old(loader.calls)), Since(old(client.log), client.log), r, t, put)
      // one calm moment for the first lookup, and whatever comes before the lease request
      ensures Head(old(client.schedule)) == CALM && Head(Rest(old(client.schedule))).fault == Healthy
              && key !in old(client.state.entries) && Keys.LeaseKey(cx.platform, encoder, key).Some?
              && LeaseOf(key) !in After(old(client.state), Head(Rest(old(client.schedule))).burst).entries ==>
                && loader.calls == old(loader.calls) + 1 && 0 <= t.grant < |client.run|
                && client.run[t.grant].pre == After(old(client.state), Head(Rest(old(client.schedule))).burst)
    {
      hide Judged, Lawful, ValidContext, OwnDisciplined, Keys.IsKey, Chained, Foreign, Disciplined, CountOf, ReplyTo, Post,
        Reports, FlightSteps, Seen, Keys.LeaseKey, FlightReport, Contents, LookupsInTurn, Judge, ReadSteps, LoadAlone,
        Since, LookupHeard, LookupDecides, NoTraffic, FlightHeard, FlightAlone, LiveValue, Heard, Keys.ValidEncoder, Apply, Head, Rest;
      ghost var start := client.run;
      var f := Flight(key, LeaseOf(key), token, source);
      var first;
      ghost var look;
      first, look := Lookup(key);
      ghost var looked, heard := client.run, client.log;
      LookupReads(looked, |start|, client.me, key);
      var leasable := Keys.LeaseKey(cx.platform, encoder, key).Some?;
      if first.Miss? && leasable {
        Keys.LeaseOfData(cx.platform, encoder, key);
        if old(client.schedule) == [] { MissLeavesNothing(cx, Contents(old(client.state)), old(client.state.now), key); }
        r, t, put := AfterMiss(f, loader, watch, requested, |start|);
        SinceJoins(old(client.log), heard, client.log);
        FlightWasHeard(cx, f, leasable, requested, Asked(loader, old(loader.calls)), Since(old(client.log), heard), first,
          Since(heard, client.log), r, t, put);
        put := Forth(put, |Since(old(client.log), heard)|);
        if old(client.schedule) == [] {
          MissedAlone(cx, key, requested, source, loader.outcomes(old(loader.calls)), r,
            Contents(old(client.state)), Contents(client.state), client.state.now);
        }
      } else {
        r, t := AnswerLookup(f, first, leasable, loader, requested, |start|);
        put := None;
        SinceJoins(old(client.log), heard, client.log);
        FlightWasHeard(cx, f, leasable, requested, Asked(loader, old(loader.calls)), Since(old(client.log), heard), first,
          Since(heard, client.log), r, t, put);
        put := Forth(put, |Since(old(client.log), heard)|);
        if old(client.schedule) == [] {
          NeverUnavailable(cx, Contents(old(client.state)), old(client.state.now), key, first);
          LookedAlone(cx, key, requested, source, leasable, first, r, Contents(old(client.state)), Contents(client.state),
            client.state.now);
        }
      }
    }

    /** The lease key of a data key, or nothing if it would be too long. */
    function LeaseOf(key: Key): Key {
      match Keys.LeaseKey(cx.platform, encoder, key)
      case Some(lease) => lease
      case None => []
    }
  }

  /** The failing case of put, at a concrete schedule: the clock jumps past the TTL
      between the write and the reading back, so the call raises although its step
      stored the value. */
  method StoredYetRaised(
    cx: Context, encoder: Keys.Encoder, state: State, me: nat, other: nat, key: Key, value: CacheValue, requested: Option<int>,
    source: SourceVersion
  ) returns (r: PutResult, client: Engine, ghost at: int)
    requires Lawful(cx.platform) && ValidContext(cx) && Keys.ValidEncoder(encoder) && Keys.IsData(key) && me != other
    requires SealAt(cx, key, value, requested, source, IsNegative(cx, key, value), state.now).Some?
    ensures r == PutRaised
    ensures 0 <= at < |client.run| && client.run[at].actor == me && StoresUnder(client.run[at], key)
    ensures Stores(client.run[at].pre, client.run[at].cmd) == Some((key,
              Raw(SealAt(cx, key, value, requested, source, IsNegative(cx, key, value), state.now).value.bytes)))
  {
    hide Lawful, ValidContext, Keys.ValidEncoder, Keys.IsKey, SealAt, IsNegative, OwnDisciplined, PutAlone, PutHeard, WritesValue,
      EnvelopeFor, Contents, Judge, Chained, Judged;
    var s := SealAt(cx, key, value, requested, source, IsNegative(cx, key, value), state.now).value;
    SealIsPositive(cx, key, value, requested, source, IsNegative(cx, key, value), state.now);
    SealTime(cx, key, value, requested, source, IsNegative(cx, key, value), state.now);
    var jump := [Action(other, Advance(s.spec.ttl))];
    var schedule := [CALM, CALM, Slot(jump, Healthy)];
    client := new Engine(me, state, schedule);
    var cache := new ValkeyCache(cx, encoder, client);
    assert Rest(schedule) == [CALM, Slot(jump, Healthy)] && Rest(Rest(schedule)) == [Slot(jump, Healthy)];
    r, at := cache.Put(key, value, requested, source);
    JumpTakes(Apply(state, WriteCommand(key, s, false)).0, jump, s.spec.ttl);
  }

  /** All that a peer's `get_or_load` does after a miss: lease, put, release. */
  function PeerFlight(peer: nat, k: Key, lease: Key, token: Bytes, value: Bytes, px: int, leaseMs: int): seq<Action> {
    [Action(peer, SetNx(lease, token, leaseMs))] + [Action(peer, Set(k, value, px))] + [Action(peer, EvalRelease(lease, token))]
  }

  lemma PeerFlightLeaves(s: State, peer: nat, k: Key, lease: Key, token: Bytes, value: Bytes, px: int, leaseMs: int)
    requires k !in s.entries && lease !in s.entries && k != lease && px > 0 && leaseMs > 0 && ReleaseScript in s.scripts
    ensures var t := After(s, PeerFlight(peer, k, lease, token, value, px, leaseMs));
            LiveValue(t, k) == Some(Raw(value)) && lease !in t.entries
  {
    var a, b, c := Action(peer, SetNx(lease, token, leaseMs)), Action(peer, Set(k, value, px)), Action(peer, EvalRelease(lease, token));
    AfterMore(s, [], a);
    AfterMore(s, [a], b);
    AfterMore(s, [a] + [b], c);
    assert After(s, []) == s && [] + [a] == [a];
    var s1 := After(s, [a]);
    var s2 := After(s, [a] + [b]);
    assert s1.entries == s.entries[lease := Entry(Raw(token), s.now + leaseMs)];
    assert s2.entries == s1.entries[k := Entry(Raw(value), s.now + px)];
  }

  /** The stampede in the code: a peer that has missed too takes the lease, puts its
      value and releases the lease between this call's lookup and its lease request; the
      call is granted the lease all the same and asks its loader, over a live entry. */
  method StampedeLoadsTwice(
    cx: Context, encoder: Keys.Encoder, state: State, me: nat, peer: nat, key: Key, loader: Loader, watch: Stopwatch,
    requested: Option<int>, source: SourceVersion, mine: Bytes, theirs: Bytes, value: Bytes, px: int, ghost c: Claim
  ) returns (r: Served, client: Engine, ghost grant: int)
    requires Lawful(cx.platform) && ValidContext(cx) && Keys.ValidEncoder(encoder) && Keys.IsData(key) && me != peer
    requires Keys.LeaseKey(cx.platform, encoder, key).Some? && PutClaim(cx, key, value, px, state.now, c)
    requires key !in state.entries && Keys.LeaseKey(cx.platform, encoder, key).value !in state.entries
    requires ReleaseScript in state.scripts
    modifies loader, watch
    ensures loader.calls == old(loader.calls) + 1
    ensures 0 <= grant < |client.run| && client.run[grant].actor == me
    ensures Inserts(client.run[grant], Keys.LeaseKey(cx.platform, encoder, key).value)
    ensures LiveValue(client.run[grant].pre, key) == Some(Raw(value))
  {
    hide Lawful, ValidContext, Keys.ValidEncoder, Keys.IsKey, Keys.LeaseKey, OwnDisciplined, Contents, Judge, Chained, Judged,
      FlightHeard, FlightAlone, After, LiveValue, PutClaim, FlightSteps, Reports, Seen;
    var lease := Keys.LeaseKey(cx.platform, encoder, key).value;
    Keys.LeaseOfData(cx.platform, encoder, key);
    DataIsNoLease(key, lease);
    ClaimIsPositive(cx, key, value, px, state.now, c);
    var flight := PeerFlight(peer, key, lease, theirs, value, px, cx.flight.leaseMs);
    PeerFlightLeaves(state, peer, key, lease, theirs, value, px, cx.flight.leaseMs);
    var schedule := [CALM, Slot(flight, Healthy)];
    client := new Engine(me, state, schedule);
    var cache := new ValkeyCache(cx, encoder, client);
    assert Rest(schedule) == [Slot(flight, Healthy)];
    ghost var t, put;
    r, t, put := cache.GetOrLoad(key, loader, watch, requested, source, mine);
    grant := t.grant;
  }

  lemma JumpTakes(s: State, burst: seq<Action>, ms: nat)
    requires |burst| == 1 && burst[0].cmd == Advance(ms)
    ensures After(s, burst).now == s.now + ms
  {
    assert burst[..0] == [];
    assert After(s, []) == s;
  }

  function Completed(r: BatchResult): seq<LookupResult> {
    match r
    case BatchResults(results) => results
    case BatchRaised(done) => done
    case _ => []
  }

  /** The events of a batch: its MGET, and the settling of what it answered. */
  ghost predicate BatchHeard(cx: Context, keys: seq<Key>, t: seq<Event>, r: BatchResult) {
    if r.BatchRefused? then t == []
    else
      && |t| >= 1 && t[0].Called? && t[0].cmd == MGet(keys)
      && match t[0].o
         case Unavailable => |t| == 1 && r == BatchUnavailable
         case Answered(reply) =>
           && reply.Many?
           && match r
              case BatchResults(results) => |results| == |keys| && SettleHeard(cx, keys, reply.values, t[1..], results)
              case BatchRaised(done) => RaiseHeard(cx, keys, reply.values, t[1..], done)
              case _ => false
  }

  lemma EmptyInTurn(cx: Context, m: map<Key, Entry>, now: int, keys: seq<Key>)
    ensures LookupsInTurn(cx, m, now, keys[..0]) == Sequence([], m, false)
  {
  }

  /** Each completed slot is a miss or a hit on something seen live under its key. */
  ghost predicate SlotsSeen(cx: Context, run: seq<Step>, from: int, me: nat, keys: seq<Key>, results: seq<LookupResult>) {
    && |results| <= |keys|
    && (forall i :: 0 <= i < |results| ==>
          results[i].Miss? || (results[i].Hit? && Seen(cx, run, from, me, keys[i], results[i].envelope)))
  }

  /** The step read these values under these keys. */
  predicate MGetAt(st: Step, me: nat, keys: seq<Key>, values: seq<Option<Value>>) {
    && st.actor == me && st.cmd == MGet(keys) && |values| == |keys|
    && (forall i :: 0 <= i < |keys| ==> LiveValue(st.pre, keys[i]) == values[i])
  }

  predicate ValuesOf(m: map<Key, Entry>, keys: seq<Key>, values: seq<Option<Value>>) {
    |values| == |keys| && forall i :: 0 <= i < |keys| ==> values[i] == ValueIn(m, keys[i])
  }

  lemma NoSlots(cx: Context, run: seq<Step>, from: int, me: nat, keys: seq<Key>)
    ensures SlotsSeen(cx, run, from, me, keys, [])
  {
  }

  lemma KeepSeen(cx: Context, before: seq<Step>, after: seq<Step>, from: int, me: nat, keys: seq<Key>, results: seq<LookupResult>)
    requires before <= after && SlotsSeen(cx, before, from, me, keys, results)
    ensures SlotsSeen(cx, after, from, me, keys, results)
  {
    hide Seen;
    forall i | 0 <= i < |results| && results[i].Hit? ensures Seen(cx, after, from, me, keys[i], results[i].envelope) {
      SeenLater(cx, before, after, from, me, keys[i], results[i].envelope);
    }
  }

  lemma AddSlot(cx: Context, run: seq<Step>, from: int, g: int, me: nat, keys: seq<Key>, values: seq<Option<Value>>,
                results: seq<LookupResult>, x: LookupResult)
    requires 0 <= from <= g < |run| && MGetAt(run[g], me, keys, values)
    requires SlotsSeen(cx, run, from, me, keys, results) && |results| < |keys|
    requires x.Hit? || x.Miss?
    requires x.Hit? ==>
               var v := values[|results|];
               && v.Some? && v.value.Raw?
               && (exists at :: run[g].pre.now <= at && DecodeAt(cx, keys[|results|], v.value.bytes, at) == Ok(x.envelope))
    ensures SlotsSeen(cx, run, from, me, keys, results + [x])
  {
    hide DecodeAt;
    if x.Hit? {
      var k, v := keys[|results|], values[|results|];
      var at :| run[g].pre.now <= at && DecodeAt(cx, k, v.value.bytes, at) == Ok(x.envelope);
      assert Sighting(cx, run[g], k, Reading(v.value.bytes, at), x.envelope);
    }
  }

  /** A disciplined prefix followed by deletions of data keys. */
  lemma FinishBatch(cx: Context, read: seq<Step>, after: seq<Step>, from: int, me: nat)
    requires read <= after && OwnDisciplined(cx, read, from, me)
    requires forall i :: |read| <= i < |after| && after[i].actor == me ==>
               after[i].cmd.Del? && Keys.IsData(after[i].cmd.key)
    ensures OwnDisciplined(cx, after, from, me)
  {
    hide OwnDisciplined, Keys.IsKey;
    PlainIsDisciplined(cx, after, |read|, me);
    OwnDisciplinedJoins(cx, read, after, from, me);
  }

  lemma HitIsSeen(cx: Context, read: seq<Step>, run: seq<Step>, from: int, me: nat, g: int, k: Key, raw: Bytes, e: Envelope)
    requires 0 <= from <= g < |read| && read <= run && read[g].actor == me && read[g].cmd == Get(k)
    requires LiveValue(read[g].pre, k) == Some(Raw(raw))
    requires exists at :: read[g].pre.now <= at && DecodeAt(cx, k, raw, at) == Ok(e)
    ensures Seen(cx, run, from, me, k, e)
  {
    hide DecodeAt, LiveValue;
    var at :| read[g].pre.now <= at && DecodeAt(cx, k, raw, at) == Ok(e);
    assert Sighting(cx, run[g], k, Reading(raw, at), e);
  }

  lemma SightedIsSeen(cx: Context, run: seq<Step>, from: int, me: nat, g: int, k: Key, r: Reading, e: Envelope)
    requires Sighted(cx, run, from, me, g, k, r, e)
    ensures 0 <= from <= g < |run| && Seen(cx, run, from, me, k, e)
  {
    hide DecodeAt, ReplyTo, LiveValue, Post;
    GetReplies(run[g]);
    assert Sighting(cx, run[g], k, r, e);
  }

  lemma SeenSince(cx: Context, run: seq<Step>, later: int, from: int, me: nat, k: Key, e: Envelope)
    requires 0 <= from <= later && Seen(cx, run, later, me, k, e)
    ensures Seen(cx, run, from, me, k, e)
  {
    hide Sighting;
  }

  lemma FlightBounds(cx: Context)
    requires ValidContext(cx)
    ensures cx.flight.waitMs >= 0 && cx.flight.pollMs > 0 && cx.flight.leaseMs > 0
  {
  }

  lemma AbsentRead(st: Step)
    requires st.cmd.Get? && st.cmd.key !in st.pre.entries
    ensures ReplyTo(st) == Nil && Post(st) == st.pre
  {
  }

  lemma GetReplies(st: Step)
    requires st.cmd.Get?
    ensures ReplyTo(st) == match LiveValue(st.pre, st.cmd.key) case None => Nil case Some(v) => Found(v)
    ensures Post(st).now == st.pre.now
  {
  }
}
