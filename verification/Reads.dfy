/** The pure side of cache reads: verdicts on stored values, sequential lookups, and
    the counters. */
module Reads {
  import opened Primitives
  import opened Codec
  import opened Server
  import opened Runs
  import opened Protocol
  import opened Client
  import CodecTheorems
  import Settings

  // --------------------------------------------------------------------- counters

  datatype Counter =
    | HitCount | MissCount | StaleCount | CorruptionCount
    | CleanupFailure | PutCount | InsertStored | InsertConflict | CasSwapped | CasConflict | DeleteCount
    | UnavailableMiss | LoadCount | PopulationFailure | ReleaseFailure | Contention | DuplicateLoad

  type Metrics = map<Counter, nat>

  function CountOf(m: Metrics, c: Counter): nat {
    if c in m then m[c] else 0
  }

  function Counted(m: Metrics, c: Counter): Metrics {
    m[c := CountOf(m, c) + 1]
  }

  /** Values that were read and judged. */
  function Judged(m: Metrics): nat {
    CountOf(m, HitCount) + CountOf(m, MissCount) + CountOf(m, StaleCount) + CountOf(m, CorruptionCount)
  }

  predicate IsReadCounter(c: Counter) {
    c.HitCount? || c.MissCount? || c.StaleCount? || c.CorruptionCount?
  }

  lemma CountedJudged(m: Metrics, c: Counter)
    ensures CountOf(Counted(m, c), HitCount) == CountOf(m, HitCount) + (if c == HitCount then 1 else 0)
    ensures Judged(Counted(m, c)) == Judged(m) + (if IsReadCounter(c) then 1 else 0)
  {
  }

  /** Of the four read counters this one went up by one, or none did. */
  ghost predicate Tallied(before: Metrics, after: Metrics, c: Option<Counter>) {
    && CountOf(after, HitCount) == CountOf(before, HitCount) + (if c == Some(HitCount) then 1 else 0)
    && CountOf(after, MissCount) == CountOf(before, MissCount) + (if c == Some(MissCount) then 1 else 0)
    && CountOf(after, StaleCount) == CountOf(before, StaleCount) + (if c == Some(StaleCount) then 1 else 0)
    && CountOf(after, CorruptionCount) == CountOf(before, CorruptionCount) + (if c == Some(CorruptionCount) then 1 else 0)
  }

  lemma CountedTallied(m: Metrics, c: Counter)
    ensures Tallied(m, Counted(m, c), if IsReadCounter(c) then Some(c) else None) && Tallied(m, m, None)
  {
  }

  lemma TalliedThen(a: Metrics, b: Metrics, c: Metrics, x: Option<Counter>)
    requires Tallied(a, b, x) && Tallied(b, c, None)
    ensures Tallied(a, c, x)
  {
  }

  // --------------------------------------------------------------------- verdicts

  datatype Verdict = Absent | Fresh(envelope: Envelope) | StaleEntry | BadEntry | Crashed

  /** What a reader makes of the value found under `k` at time `now`. */
  function Judge(cx: Context, k: Key, v: Option<Value>, now: int): Verdict {
    match v
    case None => Absent
    case Some(Alien) => BadEntry
    case Some(Raw(b)) =>
      match DecodeAt(cx, k, b, now)
      case Ok(e) => Fresh(e)
      case Err(e) =>
        match e
        case Expired => StaleEntry
        case Corruption => BadEntry
        case SchemaMismatch => BadEntry
        case _ => Crashed
  }

  /** Decoding this value under the key's policy leaks an exception. */
  predicate LeaksAt(cx: Context, k: Key, b: Bytes, now: int) {
    CodecTheorems.Leaks(cx.platform, cx.limits.maxValueBytes, b, cx.policyOf(k).schema, cx.policyOf(k).stalenessMs, now)
  }

  /** The verdicts, by what decoding does. */
  lemma JudgeExactly(cx: Context, k: Key, v: Option<Value>, now: int)
    requires ValidContext(cx)
    ensures Judge(cx, k, None, now) == Absent && Judge(cx, k, Some(Alien), now) == BadEntry
    ensures v.Some? && v.value.Raw? ==>
              var d, j := DecodeAt(cx, k, v.value.bytes, now), Judge(cx, k, v, now);
              && (d.Ok? ==> j == Fresh(d.value))
              && (LeaksAt(cx, k, v.value.bytes, now) <==> j == Crashed)
              && (d == Err(Codec.Expired) <==> j == StaleEntry)
              && (d.Err? && d.error != Codec.Expired && !LeaksAt(cx, k, v.value.bytes, now) ==> j == BadEntry)
  {
    hide Codec.Decode, CodecTheorems.Leaks, IsFingerprint;
    var policy := cx.policyOf(k);
    assert Settings.ValidPolicy(policy);
    if v.Some? && v.value.Raw? {
      CodecTheorems.CrashExactly(cx.platform, cx.limits.maxValueBytes, v.value.bytes, policy.schema, policy.stalenessMs, now);
      CodecTheorems.DecodeErrors(cx.platform, cx.limits.maxValueBytes, v.value.bytes, policy.schema, policy.stalenessMs, now);
    }
  }

  datatype LookupResult = Hit(envelope: Envelope) | Miss | LookupUnavailable | LookupRaised

  function ResultOf(v: Verdict): LookupResult {
    match v
    case Fresh(e) => Hit(e)
    case Crashed => LookupRaised
    case _ => Miss
  }

  /** The counter a verdict goes to; an exception is not counted. */
  function ReadCounter(v: Verdict): (c: Option<Counter>)
    ensures c.Some? <==> !v.Crashed?
    ensures c.Some? ==> IsReadCounter(c.value) && (c.value.HitCount? <==> v.Fresh?)
  {
    match v
    case Absent => Some(MissCount)
    case Fresh(_) => Some(HitCount)
    case StaleEntry => Some(StaleCount)
    case BadEntry => Some(CorruptionCount)
    case Crashed => None
  }

  /** The counters, by what decoding does. */
  lemma ReadCounterExactly(cx: Context, k: Key, v: Value, now: int)
    requires ValidContext(cx)
    ensures ReadCounter(Judge(cx, k, Some(v), now)) ==
            match v
            case Alien => Some(CorruptionCount)
            case Raw(b) =>
              match DecodeAt(cx, k, b, now)
              case Ok(_) => Some(HitCount)
              case Err(error) =>
                if LeaksAt(cx, k, b, now) then None
                else if error == Codec.Expired then Some(StaleCount)
                else Some(CorruptionCount)
  {
    hide DecodeAt, LeaksAt, Judge, ValidContext;
    JudgeExactly(cx, k, Some(v), now);
  }

  predicate Discarded(v: Verdict) {
    v.StaleEntry? || v.BadEntry?
  }

  // ----------------------------------------------------------- one after another

  /** The entries a reader can see. */
  function Contents(s: State): map<Key, Entry> {
    map k | k in s.entries && IsLive(s, k) :: s.entries[k]
  }

  function ValueIn(m: map<Key, Entry>, k: Key): Option<Value> {
    if k in m then Some(m[k].value) else None
  }

  datatype Sequence = Sequence(results: seq<LookupResult>, contents: map<Key, Entry>, raised: bool)

  /** Single lookups of `keys`, one after another and with nobody else around; an
      exception ends the sequence. */
  function LookupsInTurn(cx: Context, m: map<Key, Entry>, now: int, keys: seq<Key>): Sequence
    decreases |keys|
  {
    if keys == [] then Sequence([], m, false)
    else
      var before := LookupsInTurn(cx, m, now, keys[..|keys| - 1]);
      if before.raised then before
      else
        var k := keys[|keys| - 1];
        var v := Judge(cx, k, ValueIn(before.contents, k), now);
        if v.Crashed? then before.(raised := true)
        else Sequence(before.results + [ResultOf(v)],
          if Discarded(v) then before.contents - {k} else before.contents, false)
  }

  /** Lookups in turn only ever discard entries that do not validate, so each of them
      answers as if it had seen the starting contents. */
  lemma {:induction false} InTurnShape(cx: Context, m: map<Key, Entry>, now: int, keys: seq<Key>)
    ensures var s := LookupsInTurn(cx, m, now, keys);
            && s.contents.Keys <= m.Keys
            && (forall k :: k in s.contents ==> s.contents[k] == m[k])
            && (forall k :: k in m && k !in s.contents ==> Discarded(Judge(cx, k, ValueIn(m, k), now)))
    decreases |keys|
  {
    hide Judge;
    if keys != [] {
      InTurnShape(cx, m, now, keys[..|keys| - 1]);
    }
  }

  /** The next lookup of a sequence, judged on the starting contents instead. */
  lemma InTurnNext(cx: Context, m: map<Key, Entry>, now: int, keys: seq<Key>, n: nat)
    requires n < |keys| && !LookupsInTurn(cx, m, now, keys[..n]).raised
    ensures var before, after := LookupsInTurn(cx, m, now, keys[..n]), LookupsInTurn(cx, m, now, keys[..n + 1]);
            var v := Judge(cx, keys[n], ValueIn(m, keys[n]), now);
            after == if v.Crashed? then before.(raised := true)
                     else Sequence(before.results + [ResultOf(v)],
                       if Discarded(v) then before.contents - {keys[n]} else before.contents, false)
  {
    hide DecodeAt;
    var k := keys[n];
    assert keys[..n + 1][..n] == keys[..n] && keys[..n + 1][n] == k;
    InTurnShape(cx, m, now, keys[..n]);
    var before := LookupsInTurn(cx, m, now, keys[..n]);
    if k in m && k !in before.contents {
      assert before.contents - {k} == before.contents;
    }
  }

  /** Once a sequence has raised, the rest of it does not happen. */
  lemma {:induction false} InTurnRaised(cx: Context, m: map<Key, Entry>, now: int, keys: seq<Key>, n: nat)
    requires n <= |keys| && LookupsInTurn(cx, m, now, keys[..n]).raised
    ensures LookupsInTurn(cx, m, now, keys) == LookupsInTurn(cx, m, now, keys[..n])
    decreases |keys|
  {
    hide Judge;
    if n == |keys| {
      assert keys[..n] == keys;
    } else {
      var shorter := keys[..|keys| - 1];
      assert shorter[..n] == keys[..n];
      InTurnRaised(cx, m, now, shorter, n);
    }
  }

  lemma OneLookup(cx: Context, m: map<Key, Entry>, now: int, k: Key)
    ensures var v := Judge(cx, k, ValueIn(m, k), now);
            LookupsInTurn(cx, m, now, [k]) ==
              if v.Crashed? then Sequence([], m, true)
              else Sequence([ResultOf(v)], if Discarded(v) then m - {k} else m, false)
  {
    hide Judge;
    assert [k][..0] == [];
    assert LookupsInTurn(cx, m, now, []) == Sequence([], m, false);
  }

  // -------------------------------------------------------- reads leave contents

  lemma DelContents(st: Step)
    requires st.cmd.Del?
    ensures Contents(Post(st)) == Contents(st.pre) - {st.cmd.key} && Post(st).now == st.pre.now
    ensures ReplyTo(st) == Code(if st.cmd.key in Contents(st.pre) then 1 else 0)
  {
  }

  lemma GetContents(st: Step)
    requires st.cmd.Get?
    ensures Contents(Post(st)) == Contents(st.pre) && Post(st).now == st.pre.now
    ensures ReplyTo(st) == match ValueIn(Contents(st.pre), st.cmd.key) case None => Nil case Some(v) => Found(v)
  {
  }

  lemma MGetContents(st: Step)
    requires st.cmd.MGet?
    ensures Contents(Post(st)) == Contents(st.pre) && Post(st).now == st.pre.now
    ensures ReplyTo(st).Many? && |ReplyTo(st).values| == |st.cmd.keys|
    ensures forall i :: 0 <= i < |st.cmd.keys| ==>
              ReplyTo(st).values[i] == ValueIn(Contents(st.pre), st.cmd.keys[i]) == LiveValue(st.pre, st.cmd.keys[i])
  {
    var s, t := st.pre, Post(st);
    SweptAllEffect(s, st.cmd.keys, []);
    forall k ensures EntryAt(t, k) == (if k in st.cmd.keys && Runs.Expired(s, k) then None else EntryAt(s, k)) {
      SweptAllEffect(s, st.cmd.keys, k);
    }
    forall k ensures k in Contents(t) <==> k in Contents(s) {
      assert EntryAt(t, k) == (if k in st.cmd.keys && Runs.Expired(s, k) then None else EntryAt(s, k));
    }
    forall k | k in Contents(s) ensures Contents(t)[k] == Contents(s)[k] {
      assert EntryAt(t, k) == (if k in st.cmd.keys && Runs.Expired(s, k) then None else EntryAt(s, k));
    }
  }

  // ------------------------------------------------------------- what a reader heard

  function Heard(reply: Reply): Option<Value> {
    if reply.Found? then Some(reply.value) else None
  }

  /** Throwing an invalid entry away, whatever comes of it. */
  predicate CleanupHeard(k: Key, discard: bool, t: seq<Event>) {
    if discard then |t| == 1 && t[0].Called? && t[0].cmd == Del(k) else t == []
  }

  /** A value settled: the result is the verdict on it at one reading of the clock. */
  predicate ResolveHeard(cx: Context, k: Key, v: Option<Value>, t: seq<Event>, r: LookupResult) {
    if v.None? then t == [] && r == Miss
    else
      && |t| >= 1 && t[0].Timed? && r == ResultOf(Judge(cx, k, v, t[0].now))
      && CleanupHeard(k, Discarded(Judge(cx, k, v, t[0].now)), t[1..])
  }

  /** Settling a value counts it once, under its verdict at that reading of the clock. */
  ghost predicate CountHeard(cx: Context, k: Key, v: Option<Value>, t: seq<Event>, before: Metrics, after: Metrics) {
    if v.None? then Tallied(before, after, Some(MissCount))
    else |t| >= 1 && t[0].Timed? && Tallied(before, after, ReadCounter(Judge(cx, k, v, t[0].now)))
  }

  lemma ResolveWasHeard(cx: Context, k: Key, v: Option<Value>, now: int, t: seq<Event>)
    requires CleanupHeard(k, Discarded(Judge(cx, k, v, now)), t) && v.Some?
    ensures ResolveHeard(cx, k, v, [Timed(now)] + t, ResultOf(Judge(cx, k, v, now)))
  {
    hide Judge;
    assert ([Timed(now)] + t)[1..] == t;
  }

  predicate LookupHeard(cx: Context, k: Key, t: seq<Event>, r: LookupResult) {
    && |t| >= 1 && t[0].Called? && t[0].cmd == Get(k)
    && match t[0].o
       case Unavailable => |t| == 1 && r == LookupUnavailable
       case Answered(reply) => ResolveHeard(cx, k, Heard(reply), t[1..], r)
  }

  /** The first values of an MGET settled one after another. */
  ghost predicate SettleHeard(
    cx: Context, keys: seq<Key>, values: seq<Option<Value>>, t: seq<Event>, results: seq<LookupResult>)
    decreases |results|
  {
    && |results| <= |keys| == |values|
    && if results == [] then t == []
       else
         var n := |results| - 1;
         exists m :: 0 <= m <= |t| && SettleHeard(cx, keys, values, t[..m], results[..n])
           && ResolveHeard(cx, keys[n], values[n], t[m..], results[n])
  }

  lemma NoCleanup(k: Key)
    ensures CleanupHeard(k, false, [])
  {
  }

  lemma AbsentIsMiss(cx: Context, k: Key, now: int)
    ensures Judge(cx, k, None, now) == Absent && ResolveHeard(cx, k, None, [], Miss)
  {
  }

  lemma FreshMeans(cx: Context, k: Key, v: Option<Value>, now: int)
    requires v.Some?
    ensures Judge(cx, k, v, now) != Absent
    ensures Judge(cx, k, v, now).Fresh? ==>
              v.value.Raw? && DecodeAt(cx, k, v.value.bytes, now) == Ok(Judge(cx, k, v, now).envelope)
  {
    hide DecodeAt;
  }

  lemma LookupWasHeard(cx: Context, k: Key, o: Outcome, t: seq<Event>, r: LookupResult)
    requires match o
             case Unavailable => t == [] && r == LookupUnavailable
             case Answered(reply) => ResolveHeard(cx, k, Heard(reply), t, r)
    ensures LookupHeard(cx, k, [Called(Get(k), o)] + t, r)
  {
    hide ResolveHeard;
    assert ([Called(Get(k), o)] + t)[1..] == t;
  }

  lemma SettlesNext(
    cx: Context, keys: seq<Key>, values: seq<Option<Value>>, t: seq<Event>, results: seq<LookupResult>, u: seq<Event>,
    r: LookupResult)
    requires SettleHeard(cx, keys, values, t, results) && |results| < |keys|
    requires ResolveHeard(cx, keys[|results|], values[|results|], u, r)
    ensures SettleHeard(cx, keys, values, t + u, results + [r])
  {
    hide ResolveHeard;
    var all := results + [r];
    assert all[..|all| - 1] == results && (t + u)[..|t|] == t && (t + u)[|t|..] == u;
  }

  lemma NothingSettled(cx: Context, keys: seq<Key>, values: seq<Option<Value>>)
    requires |values| == |keys|
    ensures SettleHeard(cx, keys, values, [], [])
  {
  }

  /** Settling ended because a value raised. */
  ghost predicate RaiseHeard(
    cx: Context, keys: seq<Key>, values: seq<Option<Value>>, t: seq<Event>, results: seq<LookupResult>)
  {
    && |results| < |keys| == |values|
    && exists m :: 0 <= m <= |t| && SettleHeard(cx, keys, values, t[..m], results)
         && ResolveHeard(cx, keys[|results|], values[|results|], t[m..], LookupRaised)
  }

  lemma RaisesNext(
    cx: Context, keys: seq<Key>, values: seq<Option<Value>>, t: seq<Event>, results: seq<LookupResult>, u: seq<Event>)
    requires SettleHeard(cx, keys, values, t, results) && |results| < |keys|
    requires ResolveHeard(cx, keys[|results|], values[|results|], u, LookupRaised)
    ensures RaiseHeard(cx, keys, values, t + u, results)
  {
    hide ResolveHeard;
    assert (t + u)[..|t|] == t && (t + u)[|t|..] == u;
  }

  // -------------------------------------------------------------- what it comes to

  /** One value settled, said without verdicts: a hit exactly if it decodes, an
      exception exactly if decoding leaks, and otherwise a miss; and exactly a miss on
      something found is followed by one DEL. */
  predicate SettledAs(cx: Context, k: Key, v: Value, now: int, cleanup: seq<Event>, r: LookupResult) {
    match v
    case Alien => r == Miss && DeletesOnce(k, cleanup)
    case Raw(b) =>
      var d := DecodeAt(cx, k, b, now);
      && (d.Ok? ==> r == Hit(d.value) && cleanup == [])
      && (LeaksAt(cx, k, b, now) ==> r == LookupRaised && cleanup == [])
      && (d.Err? && !LeaksAt(cx, k, b, now) ==> r == Miss && DeletesOnce(k, cleanup))
      && !(d.Ok? && LeaksAt(cx, k, b, now))
  }

  predicate DeletesOnce(k: Key, t: seq<Event>) {
    |t| == 1 && t[0].Called? && t[0].cmd == Del(k)
  }

  lemma ResolveExactly(cx: Context, k: Key, v: Option<Value>, t: seq<Event>, r: LookupResult)
    requires ValidContext(cx) && ResolveHeard(cx, k, v, t, r)
    ensures v.None? ==> r == Miss && t == []
    ensures v.Some? ==> |t| >= 1 && t[0].Timed? && SettledAs(cx, k, v.value, t[0].now, t[1..], r)
  {
    hide DecodeAt, LeaksAt, Judge, ValidContext;
    if v.Some? { JudgeExactly(cx, k, v, t[0].now); }
  }

  /** A lookup, said without verdicts. */
  lemma LookupExactly(cx: Context, k: Key, t: seq<Event>, r: LookupResult)
    requires ValidContext(cx) && LookupHeard(cx, k, t, r)
    ensures |t| >= 1 && t[0].Called? && t[0].cmd == Get(k)
    ensures match t[0].o
            case Unavailable => r == LookupUnavailable && |t| == 1
            case Answered(Found(v)) => |t| >= 2 && t[1].Timed? && SettledAs(cx, k, v, t[1].now, t[2..], r)
            case Answered(_) => r == Miss && |t| == 1
  {
    hide ResolveHeard, SettledAs, ValidContext;
    if t[0].o.Answered? {
      ResolveExactly(cx, k, Heard(t[0].o.reply), t[1..], r);
      if t[0].o.reply.Found? { assert t[1..][1..] == t[2..] && t[1..][0] == t[1]; }
    }
  }

  /** A batch slot, said without verdicts, at one of the batch's clock readings. */
  predicate SlotIs(cx: Context, k: Key, v: Option<Value>, now: int, r: LookupResult) {
    match v
    case None => r == Miss
    case Some(Alien) => r == Miss
    case Some(Raw(b)) =>
      var d := DecodeAt(cx, k, b, now);
      if d.Ok? then r == Hit(d.value) else if LeaksAt(cx, k, b, now) then r == LookupRaised else r == Miss
  }

  ghost predicate SlotHeard(cx: Context, k: Key, v: Option<Value>, t: seq<Event>, r: LookupResult) {
    (v.None? && r == Miss) || exists i :: 0 <= i < |t| && t[i].Timed? && SlotIs(cx, k, v, t[i].now, r)
  }

  lemma ResolveSlot(cx: Context, k: Key, v: Option<Value>, all: seq<Event>, m: int, r: LookupResult)
    requires ValidContext(cx) && 0 <= m <= |all| && ResolveHeard(cx, k, v, all[m..], r)
    ensures SlotHeard(cx, k, v, all, r)
  {
    hide ResolveHeard, DecodeAt, LeaksAt, ValidContext;
    ResolveExactly(cx, k, v, all[m..], r);
    if v.Some? {
      assert all[m] == all[m..][0];
      assert SlotIs(cx, k, v, all[m].now, r);
    }
  }

  lemma SlotLater(cx: Context, k: Key, v: Option<Value>, all: seq<Event>, m: int, r: LookupResult)
    requires 0 <= m <= |all| && SlotHeard(cx, k, v, all[..m], r)
    ensures SlotHeard(cx, k, v, all, r)
  {
    hide SlotIs;
    if !(v.None? && r == Miss) {
      var i :| 0 <= i < |all[..m]| && all[..m][i].Timed? && SlotIs(cx, k, v, all[..m][i].now, r);
      assert all[i] == all[..m][i];
    }
  }

  /** Every slot a batch has settled. */
  lemma {:induction false} SlotsExactly(
    cx: Context, keys: seq<Key>, values: seq<Option<Value>>, t: seq<Event>, results: seq<LookupResult>)
    requires ValidContext(cx) && SettleHeard(cx, keys, values, t, results)
    ensures forall i :: 0 <= i < |results| ==> SlotHeard(cx, keys[i], values[i], t, results[i])
    decreases |results|
  {
    hide ResolveHeard, SlotHeard, ValidContext;
    if results != [] {
      var n := |results| - 1;
      var m :| 0 <= m <= |t| && SettleHeard(cx, keys, values, t[..m], results[..n])
        && ResolveHeard(cx, keys[n], values[n], t[m..], results[n]);
      SlotsExactly(cx, keys, values, t[..m], results[..n]);
      ResolveSlot(cx, keys[n], values[n], t, m, results[n]);
      forall i | 0 <= i < n ensures SlotHeard(cx, keys[i], values[i], t, results[i]) {
        assert results[..n][i] == results[i];
        SlotLater(cx, keys[i], values[i], t, m, results[i]);
      }
    }
  }

  /** And the slot at which it raised, where there is one: decoding leaked there. */
  lemma RaiseExactly(cx: Context, keys: seq<Key>, values: seq<Option<Value>>, t: seq<Event>, results: seq<LookupResult>)
    requires ValidContext(cx) && RaiseHeard(cx, keys, values, t, results)
    ensures forall i :: 0 <= i < |results| ==> SlotHeard(cx, keys[i], values[i], t, results[i])
    ensures SlotHeard(cx, keys[|results|], values[|results|], t, LookupRaised)
  {
    hide ResolveHeard, SlotHeard, ValidContext, SettleHeard;
    var m :| 0 <= m <= |t| && SettleHeard(cx, keys, values, t[..m], results)
      && ResolveHeard(cx, keys[|results|], values[|results|], t[m..], LookupRaised);
    SlotsExactly(cx, keys, values, t[..m], results);
    ResolveSlot(cx, keys[|results|], values[|results|], t, m, LookupRaised);
    forall i | 0 <= i < |results| ensures SlotHeard(cx, keys[i], values[i], t, results[i]) {
      SlotLater(cx, keys[i], values[i], t, m, results[i]);
    }
  }
}
