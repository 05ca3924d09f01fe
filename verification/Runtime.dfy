/** The session's value transport and its invalidate operation. */
module Runtime {
  import opened Primitives
  import opened Json
  import opened Codec
  import opened Server
  import opened Runs
  import opened Protocol
  import opened Client
  import opened Reads
  import opened Writes
  import opened Cache
  import Base64Url
  import Keys
  import Settings

  // ------------------------------------------------------------------- transport

  /** `_operation_value`: what a caller's JSON value stands for; None where it raises. */
  function OperationValue(policy: Settings.Policy, j: Json): Option<CacheValue> {
    if policy.serializer != RawBytes then Some(JsonValue(j))
    else if !j.Str? then None
    else
      match Base64Url.OperationBytes(j.utf8)
      case None => None
      case Some(b) => Some(ByteValue(b))
  }

  /** The `value` member `_entry` shows for a cached value. */
  function EntryValue(v: CacheValue): Json {
    match v
    case JsonValue(j) => j
    case ByteValue(b) => Str(Base64Url.Encode(b))
  }

  /** Decoding and showing are inverse to each other: a caller's JSON is accepted as a
      value exactly when showing that value gives back the very same JSON. */
  lemma TransportExact(policy: Settings.Policy, j: Json, v: CacheValue)
    ensures OperationValue(policy, j) == Some(v)
       <==> (v.ByteValue? <==> policy.serializer == RawBytes) && EntryValue(v) == j
  {
    hide Base64Url.Encode, Base64Url.OperationBytes, Base64Url.Canonical;
    if j.Str? { Base64Url.OperationBytesExact(j.utf8); }
  }

  /** An envelope that any lookup returns can be sent back unchanged. */
  lemma EntryRoundTrip(cx: Context, k: Key, raw: Bytes, now: int)
    requires DecodeAt(cx, k, raw, now).Ok?
    ensures var e := DecodeAt(cx, k, raw, now).value;
            forall policy: Settings.Policy :: policy.serializer == e.serializer ==>
              OperationValue(policy, EntryValue(e.value)) == Some(e.value)
  {
    hide Parse, IsFingerprint, OperationValue, EntryValue;
    var e := DecodeAt(cx, k, raw, now).value;
    forall policy: Settings.Policy | policy.serializer == e.serializer
      ensures OperationValue(policy, EntryValue(e.value)) == Some(e.value)
    {
      TransportExact(policy, EntryValue(e.value), e.value);
    }
  }

  // ---------------------------------------------------------------- invalidation

  const KEY: Name := OtherName([107, 101, 121])              // key
  const KEYS: Name := OtherName([107, 101, 121, 115])        // keys

  /** `_invalidation_keys`: one key, or a bounded array of them; None where it raises. */
  function InvalidationKeys(selector: Json, maximum: nat): Option<seq<Json>> {
    if !selector.Obj? then None
    else if selector.fields.Keys == {KEY} then Some([selector.fields[KEY]])
    else if selector.fields.Keys == {KEYS} then
      var raw := selector.fields[KEYS];
      if !raw.Arr? || raw.items == [] || |raw.items| > maximum then None else Some(raw.items)
    else None
  }

  /** Exactly which selectors are accepted, and for which keys. */
  lemma InvalidationKeysExactly(selector: Json, maximum: nat, keys: seq<Json>)
    ensures InvalidationKeys(selector, maximum) == Some(keys) <==>
            || (|keys| == 1 && selector == Obj(map[OtherName([107, 101, 121]) := keys[0]]))
            || (1 <= |keys| <= maximum && selector == Obj(map[OtherName([107, 101, 121, 115]) := Arr(keys)]))
  {
    if |keys| == 1 { assert keys == [keys[0]]; }
    if selector.Obj? {
      var fields := selector.fields;
      if fields.Keys == {KEY} { assert fields == map[KEY := fields[KEY]]; }
      if fields.Keys == {KEYS} { assert fields == map[KEYS := fields[KEYS]]; }
      assert KEY != KEYS by { assert |KEY.utf8| != |KEYS.utf8|; }
    }
  }

  datatype Invalidation =
    | Invalidated(invalidated: nat, requested: nat)
    | SelectorRefused
    | EngineFailed
    | KeyRaised

  /** Where a session's keys live: everything of the key material but the key. */
  datatype Place = Place(scope: Json, resource: Json, schema: Bytes)

  function PhysicalKey(p: Platform, e: Keys.Encoder, at: Place, key: Json): Option<Key> {
    Keys.Encode(p, e, Keys.Material(at.scope, at.resource, key, at.schema, None))
  }

  /** Different logical keys have different physical ones, barring a collision. */
  lemma PhysicalKeysSeparate(p: Platform, e: Keys.Encoder, at: Place, a: Json, b: Json)
    requires Lawful(p) && Keys.ValidEncoder(e) && PhysicalKey(p, e, at, a).Some? && PhysicalKey(p, e, at, b).Some?
    requires var m, k := Keys.Material(at.scope, at.resource, a, at.schema, None), Keys.Material(at.scope, at.resource, b, at.schema, None);
             var x, y := p.canonical(Obj(Keys.Body(e, m))), p.canonical(Obj(Keys.Body(e, k)));
             x.Some? && y.Some? && (p.sha256(x.value) == p.sha256(y.value) ==> x == y)
    ensures PhysicalKey(p, e, at, a) == PhysicalKey(p, e, at, b) <==> a == b
  {
    hide Keys.Encode;
    if PhysicalKey(p, e, at, a) == PhysicalKey(p, e, at, b) {
      Keys.KeyDeterminesMaterial(p, e, Keys.Material(at.scope, at.resource, a, at.schema, None),
        Keys.Material(at.scope, at.resource, b, at.schema, None));
    }
  }

  /** The distinct physical keys of some logical keys. */
  function Targets(p: Platform, e: Keys.Encoder, at: Place, keys: seq<Json>): set<Key> {
    set i | 0 <= i < |keys| && PhysicalKey(p, e, at, keys[i]).Some? :: PhysicalKey(p, e, at, keys[i]).value
  }

  /** What deleting these keys, all of them or up to the first unencodable one, must
      leave behind: exactly the other entries, and a count of those removed. */
  ghost predicate Removes(before: map<Key, Entry>, after: map<Key, Entry>, targets: set<Key>, count: nat) {
    after == before - targets && count == |targets * before.Keys| && |after| == |before| - count
  }

  lemma RemovesNothing(m: map<Key, Entry>)
    ensures Removes(m, m, {}, 0)
  {
    assert {} * m.Keys == {};
  }

  /** One more deletion counts exactly when its key is still there, so duplicates
      count once. */
  lemma RemovesOneMore(before: map<Key, Entry>, after: map<Key, Entry>, targets: set<Key>, count: nat, k: Key)
    requires Removes(before, after, targets, count)
    ensures Removes(before, after - {k}, targets + {k}, count + (if k in after then 1 else 0))
  {
    MinusOneMore(before, targets, k);
    MeetOneMore(targets, before.Keys, k);
    Without(after, k);
  }

  lemma MinusOneMore(m: map<Key, Entry>, targets: set<Key>, k: Key)
    ensures m - (targets + {k}) == (m - targets) - {k}
  {
  }

  lemma MeetOneMore(targets: set<Key>, all: set<Key>, k: Key)
    ensures |(targets + {k}) * all| == |targets * all| + (if k in all && k !in targets then 1 else 0)
  {
    if k in all && k !in targets {
      assert (targets + {k}) * all == targets * all + {k};
    } else {
      assert (targets + {k}) * all == targets * all;
    }
  }

  lemma Without(m: map<Key, Entry>, k: Key)
    ensures |m - {k}| == |m| - (if k in m then 1 else 0)
  {
    assert (m - {k}).Keys == m.Keys - {k};
    assert |m.Keys| == |m| && |(m - {k}).Keys| == |m - {k}|;
  }

  lemma TargetsNext(p: Platform, e: Keys.Encoder, at: Place, keys: seq<Json>, n: nat)
    requires n < |keys| && PhysicalKey(p, e, at, keys[n]).Some?
    ensures Targets(p, e, at, keys[..n + 1]) == Targets(p, e, at, keys[..n]) + {PhysicalKey(p, e, at, keys[n]).value}
  {
    hide PhysicalKey;
    var a, b := Targets(p, e, at, keys[..n]), Targets(p, e, at, keys[..n + 1]);
    forall k ensures k in b <==> k in a || k == PhysicalKey(p, e, at, keys[n]).value {
      if k in b {
        var i :| 0 <= i < n + 1 && PhysicalKey(p, e, at, keys[..n + 1][i]) == Some(k);
        if i < n { assert keys[..n][i] == keys[i]; }
      }
      if k in a {
        var i :| 0 <= i < n && PhysicalKey(p, e, at, keys[..n][i]) == Some(k);
        assert keys[..n + 1][i] == keys[i];
      }
      assert keys[..n + 1][n] == keys[n];
    }
  }

  /** How many of the actor's own deletions from `from` on found a live entry. */
  function Removals(run: seq<Step>, from: nat, me: nat): nat
    decreases |run|
  {
    if |run| <= from then 0
    else
      Removals(run[..|run| - 1], from, me) + (if RemovesLive(run[|run| - 1], me) then 1 else 0)
  }

  predicate RemovesLive(st: Step, me: nat) {
    st.actor == me && st.cmd.Del? && st.cmd.key in Contents(st.pre)
  }

  lemma {:induction false} RemovalsGrow(before: seq<Step>, after: seq<Step>, from: nat, me: nat, at: int)
    requires before <= after && from <= |before| && OnlyOwn(after, |before|, me, at)
    ensures Removals(after, from, me)
         == Removals(before, from, me) + (if at >= 0 && RemovesLive(after[at], me) then 1 else 0)
    decreases |after|
  {
    hide Contents;
    if |after| == |before| {
      assert after == before;
    } else {
      var shorter := after[..|after| - 1];
      RemovalsGrow(before, shorter, from, me, if at == |after| - 1 then -1 else at);
    }
  }

  /** All the actor did was to delete keys of this set. */
  predicate DeletesOnly(run: seq<Step>, from: int, me: nat, targets: set<Key>) {
    0 <= from <= |run| && forall i :: from <= i < |run| && run[i].actor == me ==>
      run[i].cmd.Del? && run[i].cmd.key in targets
  }

  lemma DeletesOneMore(before: seq<Step>, after: seq<Step>, from: int, me: nat, targets: set<Key>, at: int, k: Key)
    requires before <= after && DeletesOnly(before, from, me, targets) && OnlyOwn(after, |before|, me, at)
    requires k in targets && (at >= 0 ==> after[at].cmd == Del(k))
    ensures DeletesOnly(after, from, me, targets)
  {
  }

  lemma IsTarget(p: Platform, e: Keys.Encoder, at: Place, keys: seq<Json>, n: nat)
    requires n < |keys| && PhysicalKey(p, e, at, keys[n]).Some?
    ensures PhysicalKey(p, e, at, keys[n]).value in Targets(p, e, at, keys)
  {
    hide PhysicalKey;
  }

  /** The first `n` keys are encodable and deleted. */
  ghost predicate DeletedSoFar(
    p: Platform, e: Keys.Encoder, at: Place, keys: seq<Json>, n: nat, before: map<Key, Entry>, after: map<Key, Entry>, count: nat
  ) {
    && n <= |keys| && (forall i :: 0 <= i < n ==> PhysicalKey(p, e, at, keys[i]).Some?)
    && Removes(before, after, Targets(p, e, at, keys[..n]), count)
  }

  /** Deleting alone: all the keys are gone and counted, or it stopped at the first one
      that cannot be encoded, with exactly those before it gone. */
  ghost predicate DeletedAlone(
    p: Platform, e: Keys.Encoder, at: Place, keys: seq<Json>, r: Invalidation, before: map<Key, Entry>, after: map<Key, Entry>
  ) {
    match r
    case Invalidated(count, _) =>
      && (forall i :: 0 <= i < |keys| ==> PhysicalKey(p, e, at, keys[i]).Some?)
      && Removes(before, after, Targets(p, e, at, keys), count)
    case KeyRaised =>
      exists n, count :: 0 <= n < |keys| && count >= 0 && PhysicalKey(p, e, at, keys[n]).None?
        && DeletedSoFar(p, e, at, keys, n, before, after, count)
    case _ => false
  }

  lemma DeletedNone(p: Platform, e: Keys.Encoder, at: Place, keys: seq<Json>, m: map<Key, Entry>)
    ensures DeletedSoFar(p, e, at, keys, 0, m, m, 0)
  {
    hide PhysicalKey, Removes;
    assert Targets(p, e, at, keys[..0]) == {};
    RemovesNothing(m);
  }

  lemma DeletedNext(
    p: Platform, e: Keys.Encoder, at: Place, keys: seq<Json>, n: nat, before: map<Key, Entry>, after: map<Key, Entry>, count: nat)
    requires DeletedSoFar(p, e, at, keys, n, before, after, count)
    requires n < |keys| && PhysicalKey(p, e, at, keys[n]).Some?
    ensures var k := PhysicalKey(p, e, at, keys[n]).value;
            DeletedSoFar(p, e, at, keys, n + 1, before, after - {k}, count + (if k in after then 1 else 0))
  {
    hide PhysicalKey, Targets, Removes;
    TargetsNext(p, e, at, keys, n);
    RemovesOneMore(before, after, Targets(p, e, at, keys[..n]), count, PhysicalKey(p, e, at, keys[n]).value);
  }

  lemma Stopped(
    p: Platform, e: Keys.Encoder, at: Place, keys: seq<Json>, n: nat, before: map<Key, Entry>, after: map<Key, Entry>, count: nat)
    requires n < |keys| && PhysicalKey(p, e, at, keys[n]).None?
    requires DeletedSoFar(p, e, at, keys, n, before, after, count)
    ensures DeletedAlone(p, e, at, keys, KeyRaised, before, after)
  {
    hide PhysicalKey, DeletedSoFar;
  }

  lemma Finished(
    p: Platform, e: Keys.Encoder, at: Place, keys: seq<Json>, before: map<Key, Entry>, after: map<Key, Entry>, count: nat)
    requires DeletedSoFar(p, e, at, keys, |keys|, before, after, count)
    ensures DeletedAlone(p, e, at, keys, Invalidated(count, |keys|), before, after)
  {
    hide PhysicalKey, Targets, Removes;
    assert keys[..|keys|] == keys;
  }

  /** The last thing the actor heard is that a deletion of `k` failed. */
  predicate EngineFails(log: seq<Event>, k: Key) {
    |log| > 0 && log[|log| - 1] == Called(Del(k), Unavailable)
  }

  /** Why an invalidation ended early: the engine failed a deletion of one of the keys,
      or one of them cannot be encoded. */
  ghost predicate EndsEarly(p: Platform, e: Keys.Encoder, at: Place, keys: seq<Json>, r: Invalidation, log: seq<Event>) {
    && (r.EngineFailed? ==> exists k :: k in Targets(p, e, at, keys) && EngineFails(log, k))
    && (r.KeyRaised? ==> exists i :: 0 <= i < |keys| && PhysicalKey(p, e, at, keys[i]).None?)
  }

  /** After an invalidation every requested key misses. */
  lemma InvalidatedKeysMiss(
    cx: Context, before: map<Key, Entry>, after: map<Key, Entry>, targets: set<Key>, count: nat, k: Key, now: int)
    requires Removes(before, after, targets, count) && k in targets
    ensures LookupsInTurn(cx, after, now, [k]) == Sequence([Miss], after, false)
  {
    OneLookup(cx, after, now, k);
  }

  class Session {
    const cache: ValkeyCache

    constructor (cache: ValkeyCache)
      ensures this.cache == cache
    {
      this.cache := cache;
    }

    /** One deletion of an invalidation that began at `from`. */
    method DeleteOne(k: Key, ghost from: nat, ghost targets: set<Key>) returns (deleted: Option<bool>)
      requires cache.Valid() && Keys.IsData(k) && k in targets && from <= |cache.client.run|
      requires OwnDisciplined(cache.cx, cache.client.run, from, cache.client.me)
      requires DeletesOnly(cache.client.run, from, cache.client.me, targets)
      modifies cache`metrics, cache.client
      ensures cache.Valid() && old(cache.client.run) <= cache.client.run
      ensures OwnDisciplined(cache.cx, cache.client.run, from, cache.client.me)
      ensures DeletesOnly(cache.client.run, from, cache.client.me, targets)
      ensures deleted.Some? ==>
                Removals(cache.client.run, from, cache.client.me)
                == Removals(old(cache.client.run), from, cache.client.me) + (if deleted.value then 1 else 0)
      ensures old(cache.client.schedule) == [] ==>
                && cache.client.schedule == [] && cache.client.state.now == old(cache.client.state.now)
                && deleted == Some(k in Contents(old(cache.client.state)))
                && Contents(cache.client.state) == Contents(old(cache.client.state)) - {k}
      ensures old(cache.client.log) <= cache.client.log
      ensures deleted.None? ==> EngineFails(cache.client.log, k)
    {
      hide OwnDisciplined, Disciplined, Contents, Keys.IsKey, Lawful, ValidContext, Judged, Chained, Foreign, Post,
        Keys.ValidEncoder, CountOf, Removals, DeletesOnly;
      ghost var before, step := cache.client.run, -1;
      deleted, step := cache.Delete(k);
      OwnDisciplinedJoins(cache.cx, before, cache.client.run, from, cache.client.me);
      DeletesOneMore(before, cache.client.run, from, cache.client.me, targets, step, k);
      RemovalsGrow(before, cache.client.run, from, cache.client.me, step);
    }

    /** Deletes these keys in turn, up to an engine failure or the first key that cannot
        be encoded. */
    method DeleteAll(at: Place, keys: seq<Json>) returns (r: Invalidation)
      requires cache.Valid()
      modifies cache`metrics, cache.client
      ensures cache.Valid() && old(cache.client.run) <= cache.client.run && !r.SelectorRefused?
      ensures OwnDisciplined(cache.cx, cache.client.run, |old(cache.client.run)|, cache.client.me)
      ensures DeletesOnly(cache.client.run, |old(cache.client.run)|, cache.client.me,
                Targets(cache.cx.platform, cache.encoder, at, keys))
      ensures r.Invalidated? ==>
                && r.requested == |keys| && r.invalidated <= r.requested
                && r.invalidated == Removals(cache.client.run, |old(cache.client.run)|, cache.client.me)
      ensures EndsEarly(cache.cx.platform, cache.encoder, at, keys, r, cache.client.log)
      ensures old(cache.client.schedule) == [] ==>
                && cache.client.schedule == [] && cache.client.state.now == old(cache.client.state.now)
                && DeletedAlone(cache.cx.platform, cache.encoder, at, keys, r,
                     Contents(old(cache.client.state)), Contents(cache.client.state))
    {
      hide OwnDisciplined, Disciplined, Contents, Removes, Targets, PhysicalKey, Keys.IsKey, Lawful, ValidContext, Judged,
        Chained, Foreign, Post, Keys.ValidEncoder, CountOf, Removals, DeletesOnly, DeletedSoFar, DeletedAlone;
      ghost var start, p, e := cache.client.run, cache.cx.platform, cache.encoder;
      ghost var all, before, quiet := Targets(p, e, at, keys), Contents(cache.client.state), cache.client.schedule == [];
      PlainIsDisciplined(cache.cx, start, |start|, cache.client.me);
      NothingDeleted(start, cache.client.me, all);
      DeletedNone(p, e, at, keys, before);
      var count := 0;
      for n := 0 to |keys|
        invariant cache.Valid() && start <= cache.client.run && count <= n
        invariant OwnDisciplined(cache.cx, cache.client.run, |start|, cache.client.me)
        invariant count == Removals(cache.client.run, |start|, cache.client.me)
        invariant DeletesOnly(cache.client.run, |start|, cache.client.me, all)
        invariant quiet ==>
                    && cache.client.schedule == [] && cache.client.state.now == old(cache.client.state.now)
                    && DeletedSoFar(p, e, at, keys, n, before, Contents(cache.client.state), count)
      {
        var k := PhysicalKey(cache.cx.platform, cache.encoder, at, keys[n]);
        ghost var held := Contents(cache.client.state);
        if k.None? {
          if quiet { Stopped(p, e, at, keys, n, before, held, count); }
          return KeyRaised;
        }
        PhysicalIsData(p, e, at, keys[n]);
        IsTarget(p, e, at, keys, n);
        var deleted := DeleteOne(k.value, |start|, all);
        if deleted.None? { return EngineFailed; }
        if quiet { DeletedNext(p, e, at, keys, n, before, held, count); }
        count := count + (if deleted.value then 1 else 0);
      }
      if quiet { Finished(p, e, at, keys, before, Contents(cache.client.state), count); }
      return Invalidated(count, |keys|);
    }

    /** Deletes every selected key in turn.  The count is the number of its deletions
        that found a live entry.  With nobody else around that is the number of distinct
        requested physical keys that were present; the contents shrink by exactly those,
        and every other entry stays. */
    method Invalidate(at: Place, selector: Json) returns (r: Invalidation)
      requires cache.Valid()
      modifies cache`metrics, cache.client
      ensures cache.Valid() && old(cache.client.run) <= cache.client.run
      ensures OwnDisciplined(cache.cx, cache.client.run, |old(cache.client.run)|, cache.client.me)
      ensures match InvalidationKeys(selector, cache.cx.limits.maxBatchSize)
              case None => r.SelectorRefused? && cache.client.run == old(cache.client.run)
              case Some(keys) =>
                && !r.SelectorRefused?
                && DeletesOnly(cache.client.run, |old(cache.client.run)|, cache.client.me,
                     Targets(cache.cx.platform, cache.encoder, at, keys))
                && (r.Invalidated? ==>
                      && r.requested == |keys| && r.invalidated <= r.requested
                      && r.invalidated == Removals(cache.client.run, |old(cache.client.run)|, cache.client.me))
                && EndsEarly(cache.cx.platform, cache.encoder, at, keys, r, cache.client.log)
                && (old(cache.client.schedule) == [] ==>
                      && cache.client.schedule == [] && cache.client.state.now == old(cache.client.state.now)
                      && DeletedAlone(cache.cx.platform, cache.encoder, at, keys, r,
                           Contents(old(cache.client.state)), Contents(cache.client.state)))
    {
      hide OwnDisciplined, Disciplined, Contents, Targets, Keys.IsKey, Lawful, ValidContext, Judged,
        Chained, Foreign, Post, Keys.ValidEncoder, Removals, DeletesOnly, DeletedAlone, EndsEarly;
      PlainIsDisciplined(cache.cx, cache.client.run, |cache.client.run|, cache.client.me);
      var selected := InvalidationKeys(selector, cache.cx.limits.maxBatchSize);
      if selected.None? { return SelectorRefused; }
      r := DeleteAll(at, selected.value);
    }
  }

  lemma NothingDeleted(run: seq<Step>, me: nat, targets: set<Key>)
    ensures DeletesOnly(run, |run|, me, targets) && Removals(run, |run|, me) == 0
  {
  }

  lemma PhysicalIsData(p: Platform, e: Keys.Encoder, at: Place, key: Json)
    requires Keys.ValidEncoder(e) && PhysicalKey(p, e, at, key).Some?
    ensures Keys.IsData(PhysicalKey(p, e, at, key).value)
  {
    hide Keys.IsKey, Keys.Encode;
    Keys.EncodedShape(p, e, Keys.Material(at.scope, at.resource, key, at.schema, None));
  }
}
