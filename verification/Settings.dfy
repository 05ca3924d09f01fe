/** Deployment settings: the numeric bounds configuration establishes, and the
    effective TTL they give a write. */
module Settings {
  import opened Primitives
  import Codec

  const MAX_MS: int := 2_147_483_647

  datatype TtlPolicy = TtlPolicy(defaultMs: int, minimumMs: int, maximumMs: int, negativeMs: int)

  predicate ValidTtl(t: TtlPolicy) {
    && 1 <= t.minimumMs <= t.defaultMs <= t.maximumMs <= MAX_MS
    && t.minimumMs <= t.negativeMs <= t.maximumMs
  }

  datatype SingleFlight = SingleFlight(leaseMs: int, waitMs: int, pollMs: int)

  predicate ValidSingleFlight(f: SingleFlight) {
    10 <= f.leaseMs <= 600_000 && 0 <= f.waitMs <= f.leaseMs && 1 <= f.pollMs <= 60_000
  }

  datatype Limits = Limits(maxKeyBytes: nat, maxValueBytes: nat, maxBatchSize: nat)

  predicate ValidLimits(l: Limits) {
    && 96 <= l.maxKeyBytes <= 4096
    && 1 <= l.maxValueBytes <= 64 * 1024 * 1024
    && 1 <= l.maxBatchSize <= 10_000
  }

  datatype Policy = Policy(
    schema: Bytes,
    serializer: Codec.Serializer,
    defaultMs: Option<int>,
    stalenessMs: Option<int>,
    negativeCaching: bool)

  predicate ValidPolicy(r: Policy) {
    && Codec.IsFingerprint(r.schema)
    && (r.defaultMs.Some? ==> 1 <= r.defaultMs.value <= MAX_MS)
    && (r.stalenessMs.Some? ==> 1 <= r.stalenessMs.value <= MAX_MS)
  }

  function Selected(t: TtlPolicy, r: Policy, requested: Option<int>, negative: bool): int {
    if negative then t.negativeMs
    else if requested.Some? then requested.value
    else if r.defaultMs.Some? then r.defaultMs.value
    else t.defaultMs
  }

  function Min(a: int, b: int): int {
    if a <= b then a else b
  }

  /** `effective_ttl_ms`; None where it raises a configuration error. */
  function EffectiveTtl(t: TtlPolicy, r: Policy, requested: Option<int>, negative: bool): Option<int> {
    var selected := Selected(t, r, requested, negative);
    if selected <= 0 then None
    else
      var capped := Min(selected, t.maximumMs);
      var result := if r.stalenessMs.Some? then Min(capped, r.stalenessMs.value) else capped;
      if result < t.minimumMs then None else Some(result)
  }

  /** A TTL within the deployment bounds, the staleness bound and the selection. */
  predicate Admissible(t: TtlPolicy, r: Policy, selected: int, ms: int) {
    && t.minimumMs <= ms <= t.maximumMs
    && ms <= selected
    && (r.stalenessMs.Some? ==> ms <= r.stalenessMs.value)
  }

  /** The longest admissible TTL under a bound, or none because there is none. */
  ghost predicate Longest(t: TtlPolicy, r: Policy, bound: int, ms: Option<int>) {
    match ms
    case Some(m) => m > 0 && Admissible(t, r, bound, m) && forall other :: Admissible(t, r, bound, other) ==> other <= m
    case None => forall other :: !Admissible(t, r, bound, other)
  }

  /** The effective TTL is the longest admissible one, and the call raises exactly when
      there is none.  What bounds it is the negative TTL for a negative write, whatever
      was requested; otherwise the request; without one the Resource's default; and
      without that the deployment's. */
  lemma EffectiveTtlIsLongest(t: TtlPolicy, r: Policy, requested: Option<int>)
    requires ValidTtl(t) && ValidPolicy(r)
    ensures Longest(t, r, t.negativeMs, EffectiveTtl(t, r, requested, true))
    ensures requested.Some? ==> Longest(t, r, requested.value, EffectiveTtl(t, r, requested, false))
    ensures requested.None? && r.defaultMs.Some? ==> Longest(t, r, r.defaultMs.value, EffectiveTtl(t, r, requested, false))
    ensures requested.None? && r.defaultMs.None? ==> Longest(t, r, t.defaultMs, EffectiveTtl(t, r, requested, false))
  {
  }

  /** The TTL of an ordinary write. */
  ghost predicate OrdinaryTtl(t: TtlPolicy, r: Policy, requested: Option<int>, ms: int) {
    && (requested.Some? ==> ms <= requested.value && Longest(t, r, requested.value, Some(ms)))
    && (requested.None? && r.defaultMs.Some? ==> Longest(t, r, r.defaultMs.value, Some(ms)))
    && (requested.None? && r.defaultMs.None? ==> Longest(t, r, t.defaultMs, Some(ms)))
  }

  lemma TtlOf(t: TtlPolicy, r: Policy, requested: Option<int>, negative: bool)
    requires ValidTtl(t) && ValidPolicy(r) && EffectiveTtl(t, r, requested, negative).Some?
    ensures var ms := EffectiveTtl(t, r, requested, negative).value;
            if negative then Longest(t, r, t.negativeMs, Some(ms)) else OrdinaryTtl(t, r, requested, ms)
  {
    hide EffectiveTtl;
    EffectiveTtlIsLongest(t, r, requested);
  }

  /** Negative entries never outlive the negative bound, and only a staleness bound
      under the deployment minimum can refuse them. */
  lemma NegativeTtl(t: TtlPolicy, r: Policy, requested: Option<int>)
    requires ValidTtl(t) && ValidPolicy(r)
    ensures EffectiveTtl(t, r, requested, true).Some? ==> EffectiveTtl(t, r, requested, true).value <= t.negativeMs
    ensures EffectiveTtl(t, r, requested, true).None? <==> r.stalenessMs.Some? && r.stalenessMs.value < t.minimumMs
  {
  }
}
