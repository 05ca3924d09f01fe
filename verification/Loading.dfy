/** Read-through loading: the authority behind the cache, the monotonic clock, and
    what a call that coordinated a load has to show for itself. */
module Loading {
  import opened Primitives
  import opened Json
  import opened Codec
  import opened Server
  import opened Runs
  import opened Protocol
  import opened Client
  import opened Atomic
  import opened Reads
  import opened Writes
  import CodecTheorems
  import Keys
  import Settings

  datatype LoadOutcome = LoadedValue(value: CacheValue) | LoadFailed

  /** The authority.  Each call may answer differently or raise. */
  class Loader {
    const outcomes: nat -> LoadOutcome
    var calls: nat

    constructor (outcomes: nat -> LoadOutcome)
      ensures this.outcomes == outcomes && calls == 0
    {
      this.outcomes, this.calls := outcomes, 0;
    }

    method Load() returns (o: LoadOutcome)
      modifies this
      ensures calls == old(calls) + 1 && o == outcomes(old(calls))
    {
      o := outcomes(calls);
      calls := calls + 1;
    }
  }

  /** The monotonic clock in milliseconds.  Everything may take longer than it
      should, and sleeping takes at least as long as asked. */
  class Stopwatch {
    const delays: nat -> nat
    var ticks: nat
    var now: int

    constructor (now: int, delays: nat -> nat)
      ensures this.now == now && this.delays == delays
    {
      this.delays, this.ticks, this.now := delays, 0, now;
    }

    method Read() returns (t: int)
      modifies this
      ensures old(now) <= now == t
    {
      now, ticks := now + delays(ticks), ticks + 1;
      t := now;
    }

    method Sleep(ms: nat)
      modifies this
      ensures old(now) + ms <= now
    {
      now, ticks := now + ms + delays(ticks), ticks + 1;
    }
  }

  /** ServeRaised is an exception that is not an engine error. */
  datatype Served =
    | ServedHit(envelope: Envelope)
    | Loaded(value: CacheValue, stored: Option<Envelope>, degraded: bool)
    | LoaderRaised
    | ServeRaised

  /** What a call reports once the loader has answered: the loader's own value or
      exception, and the envelope exactly as stored by step `at`.  A value comes back
      without an envelope only when the engine failed or the value is not cacheable. */
  ghost predicate Reports(
    cx: Context, k: Key, source: SourceVersion, o: LoadOutcome, r: Served, run: seq<Step>, at: int
  ) {
    match r
    case ServedHit(_) => false
    case LoaderRaised => o.LoadFailed?
    case ServeRaised => o.LoadedValue?
    case Loaded(value, stored, degraded) =>
      && o == LoadedValue(value)
      && (stored.Some? ==> !degraded && 0 <= at < |run| && run[at].cmd.Set? && EnvelopeFor(cx, stored.value, value, source, run[at].cmd.value))
      && (stored.None? ==> degraded || (value == JsonValue(Null) && !cx.policyOf(k).negativeCaching))
  }

  lemma ReportsLater(
    cx: Context, k: Key, source: SourceVersion, o: LoadOutcome, r: Served, before: seq<Step>, after: seq<Step>, at: int)
    requires before <= after && Reports(cx, k, source, o, r, before, at)
    ensures Reports(cx, k, source, o, r, after, at)
  {
    hide EnvelopeFor;
  }

  /** All the actor stores under data keys is the loader's value, in step `at`. */
  ghost predicate Populates(
    cx: Context, run: seq<Step>, from: int, me: nat, k: Key, source: SourceVersion, o: Option<LoadOutcome>, at: int
  ) {
    0 <= from <= |run| && forall i :: from <= i < |run| && run[i].actor == me && run[i].cmd.Set? ==>
      i == at && o.Some? && o.value.LoadedValue? && WritesValue(cx, run[i], k, o.value.value, source)
  }

  /** What coordinating one load left in the run: the steps of the acknowledged lease
      grant, of a grant whose answer was lost, and of the put (-1 for none). */
  datatype Trace = Trace(polls: nat, grant: int, lost: int, at: int)

  datatype Flight = Flight(key: Key, lease: Key, token: Bytes, source: SourceVersion)

  /** All the traffic a coordinated load may cause: lookups of its key, one put of the
      loader's value, one lease, and the release of that lease if it was granted. */
  ghost predicate FlightStep(cx: Context, st: Step, i: int, f: Flight, o: Option<LoadOutcome>, t: Trace) {
    match st.cmd
    case Get(k) => k == f.key
    case Del(k) => k == f.key
    case Set(_, _, _) => i == t.at && o.Some? && o.value.LoadedValue? && WritesValue(cx, st, f.key, o.value.value, f.source)
    case SetNx(_, _, _) =>
      st.cmd == SetNx(f.lease, f.token, cx.flight.leaseMs) && (ReplyTo(st) == Done ==> i == t.grant || i == t.lost)
    case EvalRelease(_, _) => st.cmd == EvalRelease(f.lease, f.token) && t.grant >= 0
    case ScriptLoad(script) => script == ReleaseScript
    case _ => false
  }

  ghost predicate FlightSteps(
    cx: Context, run: seq<Step>, from: int, to: int, me: nat, f: Flight, o: Option<LoadOutcome>, t: Trace
  ) {
    0 <= from <= to <= |run| && forall i :: from <= i < to && run[i].actor == me ==> FlightStep(cx, run[i], i, f, o, t)
  }

  predicate LastOwn(run: seq<Step>, i: int, me: nat) {
    forall j :: i < j < |run| && 0 <= j ==> run[j].actor != me
  }

  lemma FlightJoins(
    cx: Context, run: seq<Step>, from: int, mid: int, to: int, me: nat, f: Flight, o: Option<LoadOutcome>, t: Trace)
    requires FlightSteps(cx, run, from, mid, me, f, o, t) && FlightSteps(cx, run, mid, to, me, f, o, t)
    ensures FlightSteps(cx, run, from, to, me, f, o, t)
  {
    hide FlightStep;
  }

  lemma FlightLater(
    cx: Context, before: seq<Step>, after: seq<Step>, from: int, to: int, me: nat, f: Flight, o: Option<LoadOutcome>, t: Trace)
    requires before <= after && FlightSteps(cx, before, from, to, me, f, o, t)
    ensures FlightSteps(cx, after, from, to, me, f, o, t)
  {
    hide FlightStep;
  }

  lemma LookupFlight(
    cx: Context, before: seq<Step>, after: seq<Step>, from: int, me: nat, f: Flight, o: Option<LoadOutcome>, t: Trace)
    requires before <= after && ReadSteps(before, from, me, f.key)
    ensures FlightSteps(cx, after, from, |before|, me, f, o, t)
  {
    hide ReplyTo, WritesValue;
  }

  lemma PutFlight(cx: Context, run: seq<Step>, from: int, me: nat, f: Flight, o: LoadOutcome, t: Trace)
    requires OnlyOwn(run, from, me, t.at) && (t.at >= 0 ==> run[t.at].cmd.Set?)
    requires Populates(cx, run, from, me, f.key, f.source, Some(o), t.at)
    ensures FlightSteps(cx, run, from, |run|, me, f, Some(o), t)
  {
    hide ReplyTo, WritesValue;
  }

  lemma LeaseFlight(
    cx: Context, before: seq<Step>, after: seq<Step>, from: int, me: nat, f: Flight, o: Option<LoadOutcome>, t: Trace)
    requires before <= after && 0 <= from <= |before|
    requires forall i :: from <= i < |before| && before[i].actor == me ==>
               && before[i].cmd == SetNx(f.lease, f.token, cx.flight.leaseMs)
               && (ReplyTo(before[i]) == Done ==> i == t.grant || i == t.lost)
    ensures FlightSteps(cx, after, from, |before|, me, f, o, t)
  {
    hide ReplyTo;
  }

  lemma ReleaseFlight(cx: Context, run: seq<Step>, from: int, me: nat, f: Flight, o: Option<LoadOutcome>, t: Trace)
    requires 0 <= from <= |run| && t.grant >= 0
    requires forall i :: from <= i < |run| && run[i].actor == me ==>
               run[i].cmd == EvalRelease(f.lease, f.token) || run[i].cmd == ScriptLoad(ReleaseScript)
    ensures FlightSteps(cx, run, from, |run|, me, f, o, t)
  {
    hide ReplyTo, WritesValue;
  }

  /** An acknowledged or lost grant is what it says. */
  ghost predicate GrantedAt(cx: Context, run: seq<Step>, from: int, me: nat, f: Flight, i: int) {
    && 0 <= from <= i < |run| && run[i].actor == me
    && run[i].cmd == SetNx(f.lease, f.token, cx.flight.leaseMs) && ReplyTo(run[i]) == Done
  }

  /** The actor only looked the key up, deleting it where it was invalid. */
  predicate ReadSteps(run: seq<Step>, from: int, me: nat, k: Key) {
    0 <= from <= |run| && forall i :: from <= i < |run| && run[i].actor == me ==>
      run[i].cmd == Get(k) || run[i].cmd == Del(k)
  }

  lemma NoReadSteps(run: seq<Step>, from: int, me: nat, k: Key)
    requires from == |run|
    ensures ReadSteps(run, from, me, k)
  {
  }

  lemma ReadStepsFrom(run: seq<Step>, from: int, me: nat, k: Key)
    requires ReadSteps(run, from, me, k)
    ensures 0 <= from <= |run|
  {
  }

  lemma LookupReads(run: seq<Step>, from: int, me: nat, k: Key)
    requires 0 <= from <= |run|
    requires forall i :: from <= i < |run| && run[i].actor == me ==> run[i].cmd == Get(k) || run[i].cmd == Del(k)
    ensures ReadSteps(run, from, me, k)
  {
  }

  lemma ReadStepsJoin(before: seq<Step>, after: seq<Step>, from: int, me: nat, k: Key)
    requires before <= after && ReadSteps(before, from, me, k)
    requires forall i :: |before| <= i < |after| && after[i].actor == me ==> after[i].cmd == Get(k) || after[i].cmd == Del(k)
    ensures ReadSteps(after, from, me, k)
  {
  }

  /** With a sleep of at least `poll` between them, this many polls fit into `wait`. */
  function PollBound(wait: int, poll: int): int
    requires poll > 0
  {
    (wait + poll - 1) / poll
  }

  /** All polls but the last began before the wait was over. */
  predicate PollsWithin(polls: nat, wait: int, poll: int) {
    poll > 0 && (polls > 0 ==> (polls - 1) * poll < wait)
  }

  lemma NextPoll(polls: nat, slept: int, wait: int, poll: int)
    requires poll > 0 && slept == polls * poll && slept < wait
    ensures PollsWithin(polls + 1, wait, poll) && (polls + 1) * poll == slept + poll
  {
  }

  lemma PollsFit(polls: nat, wait: int, poll: int)
    requires wait >= 0 && PollsWithin(polls, wait, poll)
    ensures polls <= PollBound(wait, poll)
  {
    assert polls > 0 ==> polls * poll == (polls - 1) * poll + poll;
    QuotientBound(polls, wait + poll - 1, poll);
  }

  lemma QuotientBound(a: nat, n: nat, p: nat)
    requires p > 0 && a * p <= n
    ensures a <= n / p
  {
    var q := n / p;
    assert n < q * p + p == (q + 1) * p;
    if a > q { MulMonotone(q + 1, a, p); }
  }

  /** The loader's answer, if this call asked for one. */
  ghost function Asked(loader: Loader, before: nat): Option<LoadOutcome>
    reads loader
  {
    if loader.calls == before then None else Some(loader.outcomes(before))
  }

  /** Everything a coordinated load promises about its result and its own steps. */
  ghost predicate FlightReport(
    cx: Context, run: seq<Step>, from: int, me: nat, f: Flight, o: Option<LoadOutcome>, r: Served, t: Trace
  ) {
    && FlightSteps(cx, run, from, |run|, me, f, o, t)
    && (if o.Some? then Reports(cx, f.key, f.source, o.value, r, run, t.at) else r.ServedHit? || r.ServeRaised?)
    && (t.grant != -1 ==> GrantedAt(cx, run, from, me, f, t.grant))
    && (t.lost != -1 ==> GrantedAt(cx, run, from, me, f, t.lost) && LastOwn(run, t.lost, me) && t.grant == -1)
    && cx.flight.pollMs > 0 && t.polls <= PollBound(cx.flight.waitMs, cx.flight.pollMs)
  }

  lemma LeaseIsDisciplined(cx: Context, run: seq<Step>, from: int, me: nat, f: Flight)
    requires 0 <= from <= |run| && Keys.IsLease(f.lease)
    requires forall i :: from <= i < |run| && run[i].actor == me ==>
               i == |run| - 1 && run[i].cmd == SetNx(f.lease, f.token, cx.flight.leaseMs)
    ensures LeaseSteps(cx, run, from, me, f) && OwnDisciplined(cx, run, from, me)
  {
    hide Keys.IsKey;
  }

  /** A call that only looked its key up, and perhaps asked the loader. */
  lemma LookedOnly(
    cx: Context, run: seq<Step>, from: int, me: nat, f: Flight, o: Option<LoadOutcome>, r: Served)
    requires ReadSteps(run, from, me, f.key) && cx.flight.waitMs >= 0 && cx.flight.pollMs > 0
    requires if o.Some? then Reports(cx, f.key, f.source, o.value, r, run, -1) else r.ServedHit? || r.ServeRaised?
    ensures FlightReport(cx, run, from, me, f, o, r, Trace(0, -1, -1, -1))
  {
    hide Reports, FlightSteps, ReadSteps, PollBound;
    LookupFlight(cx, run, run, from, me, f, o, Trace(0, -1, -1, -1));
    PollsFit(0, cx.flight.waitMs, cx.flight.pollMs);
  }

  lemma LookedFirst(
    cx: Context, before: seq<Step>, run: seq<Step>, from: int, me: nat, f: Flight, o: Option<LoadOutcome>, r: Served, t: Trace)
    requires before <= run && ReadSteps(before, from, me, f.key)
    requires FlightReport(cx, run, |before|, me, f, o, r, t)
    ensures FlightReport(cx, run, from, me, f, o, r, t)
  {
    hide Reports, FlightSteps, PollBound, ReplyTo;
    LookupFlight(cx, before, run, from, me, f, o, t);
    FlightJoins(cx, run, from, |before|, |run|, me, f, o, t);
  }

  /** The actor's steps are attempts to take the lease. */
  predicate LeaseSteps(cx: Context, run: seq<Step>, from: int, me: nat, f: Flight) {
    0 <= from <= |run| && forall i :: from <= i < |run| && run[i].actor == me ==>
      i == |run| - 1 && run[i].cmd == SetNx(f.lease, f.token, cx.flight.leaseMs)
  }

  /** The engine did not answer, so the loader was asked and nothing else happened. */
  lemma AskedInVain(cx: Context, run: seq<Step>, from: int, me: nat, f: Flight, o: LoadOutcome, r: Served) returns (t: Trace)
    requires LeaseSteps(cx, run, from, me, f) && cx.flight.waitMs >= 0 && cx.flight.pollMs > 0
    requires Reports(cx, f.key, f.source, o, r, run, -1)
    ensures FlightReport(cx, run, from, me, f, Some(o), r, t) && t.grant == -1
  {
    hide Reports, FlightSteps, PollBound, ReplyTo;
    var last := |run| - 1;
    t := Trace(0, -1, if from <= last && run[last].actor == me && ReplyTo(run[last]) == Done then last else -1, -1);
    LeaseFlight(cx, run, run, from, me, f, Some(o), t);
    PollsFit(0, cx.flight.waitMs, cx.flight.pollMs);
  }

  lemma GrantedFirst(
    cx: Context, asked: seq<Step>, run: seq<Step>, from: int, me: nat, f: Flight, o: LoadOutcome, r: Served, t: Trace)
    requires asked <= run && LeaseSteps(cx, asked, from, me, f) && cx.flight.waitMs >= 0 && cx.flight.pollMs > 0
    requires GrantedAt(cx, asked, from, me, f, |asked| - 1) && t == Trace(0, |asked| - 1, -1, t.at)
    requires FlightSteps(cx, run, |asked|, |run|, me, f, Some(o), t)
    requires Reports(cx, f.key, f.source, o, r, run, t.at)
    ensures FlightReport(cx, run, from, me, f, Some(o), r, t)
  {
    hide Reports, FlightSteps, PollBound, ReplyTo;
    LeaseFlight(cx, asked, run, from, me, f, Some(o), t);
    FlightJoins(cx, run, from, |asked|, |run|, me, f, Some(o), t);
    PollsFit(0, cx.flight.waitMs, cx.flight.pollMs);
  }

  lemma RefusedFirst(
    cx: Context, asked: seq<Step>, run: seq<Step>, from: int, me: nat, f: Flight, o: Option<LoadOutcome>, r: Served, t: Trace)
    requires asked <= run && LeaseSteps(cx, asked, from, me, f) && from < |asked|
    requires ReplyTo(asked[|asked| - 1]) != Done
    requires FlightReport(cx, run, |asked|, me, f, o, r, t) && t.grant == t.lost == -1
    ensures FlightReport(cx, run, from, me, f, o, r, t)
  {
    hide Reports, FlightSteps, PollBound, ReplyTo;
    LeaseFlight(cx, asked, run, from, me, f, o, t);
    FlightJoins(cx, run, from, |asked|, |run|, me, f, o, t);
  }

  // -------------------------------------------------------------- nobody else around

  /** Loading and populating alone: the loader's exception or value, and the contents
      that putting that value leaves, which the next lookup hits. */
  ghost predicate LoadAlone(
    cx: Context, k: Key, requested: Option<int>, source: SourceVersion, o: LoadOutcome, r: Served,
    before: map<Key, Entry>, after: map<Key, Entry>, now: int
  ) {
    match o
    case LoadFailed => r == LoaderRaised && after == before
    case LoadedValue(v) =>
      if v == JsonValue(Null) && !cx.policyOf(k).negativeCaching then r == Loaded(v, None, false) && after == before
      else
        match SealAt(cx, k, v, requested, source, IsNegative(cx, k, v), now)
        case None => r == ServeRaised && after == before
        case Some(s) =>
          && after == before[k := Entry(Raw(s.bytes), now + s.spec.ttl)]
          && r.Loaded? && r.value == v && !r.degraded && r.stored.Some?
          && Judge(cx, k, ValueIn(after, k), now) == Fresh(r.stored.value)
  }

  /** Read-through loading alone: the hit there is, or else a load from contents without
      the key; whatever was invalid under it is gone. */
  ghost predicate FlightAlone(
    cx: Context, k: Key, requested: Option<int>, source: SourceVersion, leasable: bool, o: Option<LoadOutcome>, r: Served,
    before: map<Key, Entry>, after: map<Key, Entry>, now: int
  ) {
    match Judge(cx, k, ValueIn(before, k), now)
    case Fresh(e) => o == None && r == ServedHit(e) && after == before
    case Crashed => o == None && r == ServeRaised && after == before
    case _ =>
      if !leasable then o == None && r == ServeRaised && after == before - {k}
      else o.Some? && LoadAlone(cx, k, requested, source, o.value, r, before - {k}, after, now)
  }

  /** What a call answers that asked the loader and did not put. */
  function Unput(o: LoadOutcome): Served {
    if o.LoadFailed? then LoaderRaised else Loaded(o.value, None, false)
  }

  lemma UnputReports(cx: Context, run: seq<Step>, me: nat, k: Key, source: SourceVersion, o: LoadOutcome)
    requires o.LoadFailed? || (o.value == JsonValue(Null) && !cx.policyOf(k).negativeCaching)
    ensures OnlyOwn(run, |run|, me, -1) && OwnDisciplined(cx, run, |run|, me)
    ensures Populates(cx, run, |run|, me, k, source, Some(o), -1) && Reports(cx, k, source, o, Unput(o), run, -1)
  {
    hide Disciplined, WritesValue;
  }

  /** What it answers after a put. */
  function AfterPut(v: CacheValue, p: PutResult): Served {
    match p
    case Stored(e) => Loaded(v, Some(e), false)
    case PutRaised => ServeRaised
    case PutUnavailable => Loaded(v, None, true)
  }

  lemma PutReports(
    cx: Context, run: seq<Step>, from: int, me: nat, k: Key, source: SourceVersion, v: CacheValue, p: PutResult, at: int)
    requires OnlyOwn(run, from, me, at)
    requires at >= 0 ==> run[at].cmd.Set? && WritesValue(cx, run[at], k, v, source)
    requires p.Stored? ==> at >= 0 && EnvelopeFor(cx, p.envelope, v, source, run[at].cmd.value)
    ensures Populates(cx, run, from, me, k, source, Some(LoadedValue(v)), at)
    ensures Reports(cx, k, source, LoadedValue(v), AfterPut(v, p), run, at)
  {
    hide WritesValue, EnvelopeFor;
  }

  lemma NothingToPut(
    cx: Context, k: Key, requested: Option<int>, source: SourceVersion, o: LoadOutcome, m: map<Key, Entry>, now: int)
    requires o.LoadFailed? || (o.value == JsonValue(Null) && !cx.policyOf(k).negativeCaching)
    ensures LoadAlone(cx, k, requested, source, o, Unput(o), m, m, now)
  {
    hide SealAt, Judge;
  }

  lemma PutIsLoadAlone(
    cx: Context, k: Key, v: CacheValue, requested: Option<int>, source: SourceVersion, p: PutResult,
    before: map<Key, Entry>, after: map<Key, Entry>, now: int)
    requires PutAlone(cx, k, SealAt(cx, k, v, requested, source, IsNegative(cx, k, v), now), p, before, after, now)
    requires !(v == JsonValue(Null) && !cx.policyOf(k).negativeCaching)
    ensures LoadAlone(cx, k, requested, source, LoadedValue(v), AfterPut(v, p), before, after, now)
  {
    hide SealAt, Judge;
  }

  /** Which loaded values end up in the cache, said on the values themselves: with nobody
      else around and after a miss, every value other than null that can be sealed does,
      and null does exactly under a policy that caches negatives. */
  lemma LoadedIsCached(
    cx: Context, k: Key, requested: Option<int>, source: SourceVersion, v: CacheValue, r: Served,
    before: map<Key, Entry>, after: map<Key, Entry>, now: int)
    requires Lawful(cx.platform) && ValidContext(cx)
    requires FlightAlone(cx, k, requested, source, true, Some(LoadedValue(v)), r, before, after, now)
    ensures after - {k} == before - {k}
    ensures var policy := cx.policyOf(k);
            var ttl := Settings.EffectiveTtl(cx.ttl, policy, requested, v == JsonValue(Null));
            var sealable := ttl.Some? && EncodeIn(cx, Spec(v, policy.serializer, policy.schema, ttl.value, source, now)).Ok?;
            && (v != JsonValue(Null) && sealable ==> HoldsLoaded(cx, k, v, source, r, after))
            && (v == JsonValue(Null) && policy.negativeCaching && sealable ==> HoldsLoaded(cx, k, v, source, r, after))
            && (v == JsonValue(Null) && !policy.negativeCaching ==> r == Loaded(v, None, false) && k !in after)
  {
    hide Settings.EffectiveTtl, EncodeIn, DecodeAt, Lawful, ValidContext, CodecTheorems.Leaks;
    if !(v == JsonValue(Null) && !cx.policyOf(k).negativeCaching) && SealAt(cx, k, v, requested, source, IsNegative(cx, k, v), now).Some? {
      SealFits(cx, k, v, requested, source, IsNegative(cx, k, v), now, now);
    }
  }

  /** The key holds an envelope of this value and source version, and it was returned. */
  predicate HoldsLoaded(cx: Context, k: Key, v: CacheValue, source: SourceVersion, r: Served, after: map<Key, Entry>) {
    && r.Loaded? && r.value == v && !r.degraded && r.stored.Some?
    && r.stored.value.value == v && r.stored.value.source == source
    && k in after && after[k].value.Raw? && EncodeIn(cx, CodecTheorems.SpecOf(r.stored.value)) == Ok(after[k].value.bytes)
  }

  /** Taking another key out before or after makes no difference. */
  lemma LoadWithout(
    cx: Context, k: Key, requested: Option<int>, source: SourceVersion, o: LoadOutcome, r: Served,
    before: map<Key, Entry>, after: map<Key, Entry>, now: int, lease: Key)
    requires k != lease && LoadAlone(cx, k, requested, source, o, r, before, after, now)
    ensures LoadAlone(cx, k, requested, source, o, r, before - {lease}, after - {lease}, now)
  {
    hide SealAt, Judge;
    if k in after {
      assert before[k := after[k]] - {lease} == (before - {lease})[k := after[k]];
    }
    assert ValueIn(after - {lease}, k) == ValueIn(after, k);
  }

  lemma LoadKeepsOthers(
    cx: Context, k: Key, requested: Option<int>, source: SourceVersion, o: LoadOutcome, r: Served,
    before: map<Key, Entry>, after: map<Key, Entry>, now: int, other: Key)
    requires k != other && LoadAlone(cx, k, requested, source, o, r, before, after, now)
    ensures ValueIn(after, other) == ValueIn(before, other)
  {
    hide SealAt, Judge;
  }

  /** What asking for a lease alone does to the contents. */
  lemma LeaseAlone(st: Step, lease: Key, token: Bytes)
    requires st.cmd.SetNx? && st.cmd.key == lease && st.cmd.value == token && st.cmd.px > 0
    ensures Post(st).now == st.pre.now
    ensures ReplyTo(st) == Done ==>
              && ValueIn(Contents(Post(st)), lease) == Some(Raw(token))
              && Contents(Post(st)) - {lease} == Contents(st.pre)
    ensures ReplyTo(st) != Done ==> Post(st) == st.pre
    ensures forall k :: k != lease ==> (k in Contents(Post(st)) <==> k in Contents(st.pre))
  {
    hide Contents, Post, ReplyTo;
    InsertContents(st);
  }

  /** After a lookup that misses, the key is gone and nothing else has changed. */
  lemma MissLeavesNothing(cx: Context, m: map<Key, Entry>, now: int, k: Key)
    requires LookupsInTurn(cx, m, now, [k]).results == [Miss]
    ensures LookupsInTurn(cx, m, now, [k]).contents == m - {k} && !Judge(cx, k, ValueIn(m, k), now).Fresh?
    ensures !Judge(cx, k, ValueIn(m, k), now).Crashed?
  {
    hide DecodeAt, LookupsInTurn;
    OneLookup(cx, m, now, k);
    if k !in m { assert m - {k} == m; }
  }

  lemma NeverUnavailable(cx: Context, m: map<Key, Entry>, now: int, k: Key, first: LookupResult)
    requires var s := LookupsInTurn(cx, m, now, [k]); if s.raised then first == LookupRaised else s.results == [first]
    ensures !first.LookupUnavailable?
  {
    hide Judge, LookupsInTurn;
    OneLookup(cx, m, now, k);
  }

  /** A call that had the server to itself and did not get as far as the lease. */
  lemma LookedAlone(
    cx: Context, k: Key, requested: Option<int>, source: SourceVersion, leasable: bool, first: LookupResult, r: Served,
    before: map<Key, Entry>, after: map<Key, Entry>, now: int)
    requires var s := LookupsInTurn(cx, before, now, [k]);
             after == s.contents && (if s.raised then first == LookupRaised else s.results == [first])
    requires first.Miss? ==> !leasable
    requires r == if first.Hit? then ServedHit(first.envelope) else ServeRaised
    ensures FlightAlone(cx, k, requested, source, leasable, None, r, before, after, now)
  {
    hide Judge, LookupsInTurn, LoadAlone;
    OneLookup(cx, before, now, k);
    if first.Miss? { MissLeavesNothing(cx, before, now, k); }
  }

  lemma MissedAlone(
    cx: Context, k: Key, requested: Option<int>, source: SourceVersion, o: LoadOutcome, r: Served,
    before: map<Key, Entry>, after: map<Key, Entry>, now: int)
    requires LookupsInTurn(cx, before, now, [k]).results == [Miss]
    requires LoadAlone(cx, k, requested, source, o, r, LookupsInTurn(cx, before, now, [k]).contents, after, now)
    ensures FlightAlone(cx, k, requested, source, true, Some(o), r, before, after, now)
  {
    hide Judge, LookupsInTurn, LoadAlone;
    MissLeavesNothing(cx, before, now, k);
  }

  lemma AbsentMisses(cx: Context, m: map<Key, Entry>, now: int, k: Key)
    requires k !in m
    ensures LookupsInTurn(cx, m, now, [k]) == Sequence([Miss], m, false)
  {
    hide LookupsInTurn;
    OneLookup(cx, m, now, k);
  }

  lemma DataIsNoLease(a: Key, b: Key)
    requires Keys.IsData(a) && Keys.IsLease(b)
    ensures a != b
  {
    hide Keys.Read, Keys.Render, Keys.WellFormed;
  }

  // ------------------------------------------------------- what a coordinated load heard

  /** What a call answers that asked the loader because the engine had failed. */
  function Degraded(o: LoadOutcome): Served {
    if o.LoadFailed? then LoaderRaised else Loaded(o.value, None, true)
  }

  predicate Uncached(cx: Context, k: Key, o: LoadOutcome) {
    o.LoadFailed? || (o.value == JsonValue(Null) && !cx.policyOf(k).negativeCaching)
  }

  /** Loading and, if the value may be cached, one put. */
  ghost predicate LoadHeard(
    cx: Context, k: Key, requested: Option<int>, source: SourceVersion, o: LoadOutcome, t: seq<Event>, r: Served
  ) {
    if Uncached(cx, k, o) then t == [] && r == Unput(o)
    else exists p :: PutHeard(cx, k, o.value, requested, source, t, p) && r == AfterPut(o.value, p)
  }

  /** Lookups one after another, all misses up to the last. */
  ghost predicate WaitHeard(cx: Context, k: Key, t: seq<Event>, polls: nat, peer: LookupResult)
    decreases polls
  {
    if polls == 0 then t == [] && peer == Miss
    else exists m :: 0 <= m <= |t| && WaitHeard(cx, k, t[..m], polls - 1, Miss) && LookupHeard(cx, k, t[m..], peer)
  }

  /** A position counted from `n` events later, and from `n` events earlier. */
  function Back(put: Option<int>, n: int): Option<int> {
    if put.Some? then Some(put.value - n) else None
  }

  function Forth(put: Option<int>, n: int): Option<int> {
    if put.Some? then Some(put.value + n) else None
  }

  /** Waiting for whoever holds the lease, and then loading anyway unless a peer was
      seen to populate the key. */
  ghost predicate ContendedHeard(
    cx: Context, f: Flight, requested: Option<int>, o: Option<LoadOutcome>, t: seq<Event>, r: Served, tr: Trace, put: Option<int>
  ) {
    exists m, peer :: 0 <= m <= |t| && WaitHeard(cx, f.key, t[..m], tr.polls, peer)
      && PeerDecides(cx, f, requested, o, peer, t[m..], r) && put == (if o.Some? then Some(m) else None)
  }

  ghost predicate PeerDecides(
    cx: Context, f: Flight, requested: Option<int>, o: Option<LoadOutcome>, peer: LookupResult, t: seq<Event>, r: Served
  ) {
    match peer
    case Hit(e) => t == [] && o == None && r == ServedHit(e)
    case LookupRaised => t == [] && o == None && r == ServeRaised
    case _ => o.Some? && LoadHeard(cx, f.key, requested, f.source, o.value, t, r)
  }

  /** Loading as the lease holder, and the release after it. */
  ghost predicate LeasedHeard(
    cx: Context, f: Flight, requested: Option<int>, o: LoadOutcome, t: seq<Event>, r: Served
  ) {
    exists m :: 0 <= m <= |t| && LoadHeard(cx, f.key, requested, f.source, o, t[..m], r)
      && ScriptHeard(ReleaseScript, EvalRelease(f.lease, f.token), t[m..])
  }

  /** The lease request decides: no answer, granted, or held by somebody else. */
  ghost predicate CoordinateHeard(
    cx: Context, f: Flight, requested: Option<int>, o: Option<LoadOutcome>, t: seq<Event>, r: Served, tr: Trace, put: Option<int>
  ) {
    && |t| >= 1 && t[0].Called? && t[0].cmd == SetNx(f.lease, f.token, cx.flight.leaseMs)
    && match t[0].o
       case Unavailable => |t| == 1 && o.Some? && r == Degraded(o.value) && tr.grant == -1 && put == None
       case Answered(reply) =>
         && tr.lost == -1 && (tr.grant >= 0 <==> reply == Done)
         && if reply == Done then o.Some? && put == Some(1) && LeasedHeard(cx, f, requested, o.value, t[1..], r)
            else ContendedHeard(cx, f, requested, o, t[1..], r, tr, Back(put, 1))
  }

  /** The first lookup decides.  `put` is where the events of populating begin. */
  ghost predicate FlightHeard(
    cx: Context, f: Flight, leasable: bool, requested: Option<int>, o: Option<LoadOutcome>, t: seq<Event>, r: Served, tr: Trace, put: Option<int>
  ) {
    exists m, first :: 0 <= m <= |t| && LookupHeard(cx, f.key, t[..m], first)
      && LookupDecides(cx, f, leasable, requested, o, first, t[m..], r, tr, Back(put, m))
  }

  ghost predicate LookupDecides(
    cx: Context, f: Flight, leasable: bool, requested: Option<int>, o: Option<LoadOutcome>, first: LookupResult, t: seq<Event>,
    r: Served, tr: Trace, put: Option<int>
  ) {
    match first
    case Hit(e) => t == [] && o == None && r == ServedHit(e) && NoTraffic(tr, put)
    case LookupRaised => t == [] && o == None && r == ServeRaised && NoTraffic(tr, put)
    case LookupUnavailable => t == [] && o.Some? && r == Degraded(o.value) && NoTraffic(tr, put)
    case Miss =>
      if !leasable then t == [] && o == None && r == ServeRaised && NoTraffic(tr, put)
      else CoordinateHeard(cx, f, requested, o, t, r, tr, put)
  }

  predicate NoTraffic(tr: Trace, put: Option<int>) {
    tr == Trace(0, -1, -1, -1) && put == None
  }

  // -- how the methods put it together

  lemma PutWasLoad(
    cx: Context, k: Key, requested: Option<int>, source: SourceVersion, v: CacheValue, t: seq<Event>, p: PutResult)
    requires !Uncached(cx, k, LoadedValue(v)) && PutHeard(cx, k, v, requested, source, t, p)
    ensures LoadHeard(cx, k, requested, source, LoadedValue(v), t, AfterPut(v, p))
  {
    hide PutHeard;
  }

  lemma NoPutWasLoad(cx: Context, k: Key, requested: Option<int>, source: SourceVersion, o: LoadOutcome)
    requires Uncached(cx, k, o)
    ensures LoadHeard(cx, k, requested, source, o, [], Unput(o))
  {
    hide PutHeard;
  }

  lemma WaitBegins(cx: Context, k: Key)
    ensures WaitHeard(cx, k, [], 0, Miss)
  {
  }

  lemma WaitGoesOn(cx: Context, k: Key, t: seq<Event>, polls: nat, u: seq<Event>, peer: LookupResult)
    requires WaitHeard(cx, k, t, polls, Miss) && LookupHeard(cx, k, u, peer)
    ensures WaitHeard(cx, k, t + u, polls + 1, peer)
  {
    hide LookupHeard;
    assert (t + u)[..|t|] == t && (t + u)[|t|..] == u;
  }

  lemma ContendedWasHeard(
    cx: Context, f: Flight, requested: Option<int>, o: Option<LoadOutcome>, t: seq<Event>, peer: LookupResult, u: seq<Event>,
    r: Served, tr: Trace)
    requires WaitHeard(cx, f.key, t, tr.polls, peer)
    requires PeerDecides(cx, f, requested, o, peer, u, r)
    ensures ContendedHeard(cx, f, requested, o, t + u, r, tr, if o.Some? then Some(|t|) else None)
  {
    hide WaitHeard, PeerDecides;
    assert (t + u)[..|t|] == t && (t + u)[|t|..] == u;
  }

  lemma LeasedWasHeard(
    cx: Context, f: Flight, requested: Option<int>, o: LoadOutcome, t: seq<Event>, u: seq<Event>, r: Served)
    requires LoadHeard(cx, f.key, requested, f.source, o, t, r)
    requires ScriptHeard(ReleaseScript, EvalRelease(f.lease, f.token), u)
    ensures LeasedHeard(cx, f, requested, o, t + u, r)
  {
    hide LoadHeard, ScriptHeard;
    assert (t + u)[..|t|] == t && (t + u)[|t|..] == u;
  }

  lemma CoordinateWasHeard(
    cx: Context, f: Flight, requested: Option<int>, o: Option<LoadOutcome>, lease: Outcome, t: seq<Event>, r: Served, tr: Trace, put: Option<int>)
    requires match lease
             case Unavailable => t == [] && o.Some? && r == Degraded(o.value) && tr.grant == -1 && put == None
             case Answered(reply) =>
               && tr.lost == -1 && (tr.grant >= 0 <==> reply == Done)
               && if reply == Done then o.Some? && put == Some(1) && LeasedHeard(cx, f, requested, o.value, t, r)
                  else ContendedHeard(cx, f, requested, o, t, r, tr, Back(put, 1))
    ensures CoordinateHeard(cx, f, requested, o, [Called(SetNx(f.lease, f.token, cx.flight.leaseMs), lease)] + t, r, tr, put)
  {
    hide LeasedHeard, ContendedHeard;
    assert ([Called(SetNx(f.lease, f.token, cx.flight.leaseMs), lease)] + t)[1..] == t;
  }

  lemma FlightWasHeard(
    cx: Context, f: Flight, leasable: bool, requested: Option<int>, o: Option<LoadOutcome>, t: seq<Event>,
    first: LookupResult, u: seq<Event>, r: Served, tr: Trace, put: Option<int>)
    requires LookupHeard(cx, f.key, t, first)
    requires LookupDecides(cx, f, leasable, requested, o, first, u, r, tr, put)
    ensures FlightHeard(cx, f, leasable, requested, o, t + u, r, tr, Forth(put, |t|))
  {
    hide LookupHeard, LookupDecides;
    assert Back(Forth(put, |t|), |t|) == put;
    assert (t + u)[..|t|] == t && (t + u)[|t|..] == u;
  }
}
