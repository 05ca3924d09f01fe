# A verified model of the Meridian Valkey cache adapter

The adapter keeps disposable cache entries on a shared Valkey server.  Any number of
clients read, write, swap, increment and invalidate entries, and coordinate loads with
short leases; meanwhile the clock advances, entries expire or are evicted, bytes rot and
the script cache is flushed.  This project models that protocol together with the byte
formats its safety rests on, and proves what it keeps in every run.

## How it is put together

- `Primitives`, `Base64Url`, `Json`, `Codec`, `CodecTheorems`: the envelope format and its
  round-trip, inverse and version theorems.  SHA-256, CRC-16, `canonical_json_bytes` and
  `json.loads` are members of a `Platform` value; what the adapter relies on is the
  hypothesis `Lawful` (parsing undoes canonical printing, object texts contain no zero
  byte).  SHA-256 is never assumed injective: where it matters, a hypothesis speaks of the
  preimages actually written.
- `Keys`, `Settings`: key layout and TTL arithmetic.
- `Server`, `Runs`: the server as a map of expiring entries with a revision per key, one
  atomic step per command, and runs as arbitrary interleavings of such steps.
- `Protocol`: `Disciplined`, what an operation promises about each command it sends, for
  example that a swap names the version of a value its own caller read and validated.
- `Freshness`, `Swaps`, `Leases`, `Counters`: theorems over all runs whose steps are
  disciplined or done by the environment.
- `Client`, `Atomic`, `Reads`, `Writes`, `Loading`, `Cache`, `Runtime`: the operations as
  methods of classes.  `Client.Engine` executes an arbitrary schedule: before every command
  and clock reading the other actors may take any steps, and any command may be refused or
  its answer lost.  Each operation is proved `OwnDisciplined` under every schedule, and by
  `EveryActorDisciplined` runs of such operations are the runs the theorems are about.  The
  engine also keeps a ghost log of what the actor heard: every command with its outcome and
  every reading of the clock.  The `…Heard` predicates tie each result to that transcript,
  whatever the others do.  An empty schedule means that nobody else is around; there each
  operation is also tied to an exact change of the contents.
- `Flights`: what the transcript of a coordinated load says about its result.

Conservation of the read counters (hit + miss + stale + corruption equals completed lookups
plus completed batch slots plus entries thrown away by compare-and-set) is the class
invariant `ValkeyCache.Valid`, kept by every operation.

## What does not hold, and exactly when

- Accepted frames are canonical only outside the eight length characters, because the
  length is read with Python's `int(text, 16)`.  `Reencode` gives the exact condition,
  `LengthFieldAlias` an alias of every frame shorter than 256 MiB (four times the largest
  configurable limit).
- A stored frame can make a lookup raise instead of missing: `json.loads` raises more than
  decode errors on a header (an integer of too many digits, too deep nesting), a source
  version that canonical printing refuses (NaN, for instance) reaches line 265 of the codec
  unconverted, and a JSON payload may be nested too deep.  `CrashExactly` says exactly when,
  over all byte strings; `LookupRaised`, `BatchRaised`, `CasRaised` and `ServeRaised` carry
  the case through the operations.
- `put`, `put_if_absent`, `compare_and_set` and `increment` decode what they just stored and
  raise if and only if it can no longer be read; then the value was stored although the call
  failed.  For the first three that means that its own expiry was reached: the contracts say
  so, and `StoredYetRaised` is a schedule that brings it about.  For `increment` the caller's
  staleness bound may strike first: `RereadFailsExactly`.
- `get_or_load` falls back to the loader on engine errors only.  Codec and configuration
  errors while populating reach the caller, after the lease was released.  `RaisedAfterLoad`
  and `RaisedWithoutLoad` are equivalences.
- A lease whose grant was applied but whose answer was lost is not released and runs out by
  itself; `GetOrLoad` shows that it is then the call's last step.
- The cleanup of an invalid entry is an unconditional DEL.  It removes what its read found
  unless some step stored under the key in between, and then the newer entry:
  `CleanupExactly`, with `CleanupRemovesNewer` for a run in which that happens.
- The lease does not give one load per stampede: whoever is granted it loads without looking
  again (`GrantMeansLoad`), and the next request is granted if and only if the last grant was
  released or evicted or has run out (`GrantedExactly`).  `StampedeGrantsTwice` is a run of
  the adapter, and `StampedeLoadsTwice` a schedule for `get_or_load`, in which two callers
  that both missed both load, the second over a live entry.

## Model

| member | source | states |
|---|---|---|
| CodecTheorems.RoundTrip | src/meridian_storage/adapters/valkey/codec/__init__.py:77-189 | decoding what `encode` produced, at any time and under any schema and staleness bound, gives exactly the result of the expiry table: the same value and every header field from creation up to both expiry bounds, the matching error otherwise; the frame is within the size limit and `extract_version` finds its version |
| CodecTheorems.EncodeExactly | src/meridian_storage/adapters/valkey/codec/__init__.py:87-138 | exactly what can be encoded: a value of the serializer's kind that prints, a fingerprint, a positive TTL, a time that is not negative, and a frame that prints and fits |
| CodecTheorems.FingerprintExactly | src/meridian_storage/adapters/valkey/_canonical.py:15 | a fingerprint is exactly the text of some digest |
| CodecTheorems.ExtractVersionExactly | src/meridian_storage/adapters/valkey/codec/__init__.py:191-203 | exactly which byte strings carry a version, and which |
| CodecTheorems.Reencode | src/meridian_storage/adapters/valkey/codec/__init__.py:205-275 | the inverse: every accepted byte string equals, outside the eight length characters, the re-encoding of its decoded value with `expires - created` as TTL; it equals it entirely if and only if those characters are the `%08x` spelling |
| CodecTheorems.SameFrameSameBytes | src/meridian_storage/adapters/valkey/codec/__init__.py:205-275 | two accepted frames with equal header and payload differ at most in the length field |
| CodecTheorems.LengthFieldAlias | src/meridian_storage/adapters/valkey/codec/__init__.py:211-214 | a counterexample for every frame: the spelling of the length field with `+` for the leading zero is another byte string of the same version that decodes alike under every schema, bound and time |
| Primitives.HexSpellings | src/meridian_storage/adapters/valkey/codec/__init__.py:212 | the other spellings of a length that are read alike: white space, minus, prefix and underscores |
| CodecTheorems.PreimageSplits | src/meridian_storage/adapters/valkey/codec/__init__.py:122 | the hashed bytes split in one way only into canonical header and payload |
| CodecTheorems.SameVersionSameFrame | src/meridian_storage/adapters/valkey/codec/__init__.py:112-138 | if SHA-256 does not collide on the two written preimages, equal versions mean equal frames |
| CodecTheorems.ScriptAgreesWithDecode | src/meridian_storage/adapters/valkey/atomic/__init__.py:21-22 | on encoder-made values the script's prefix comparison says exactly what decoding and comparing versions says |
| CodecTheorems.CrashExactly | src/meridian_storage/adapters/valkey/codec/__init__.py:140-275 | over all byte strings, `decode` leaks a library exception if and only if the bytes fit and are framed and either the JSON parser raises on the header something other than a decode error, or the header passes the field checks and canonical printing refuses it, or the frame is accepted and its JSON payload is nested too deep |
| CodecTheorems.LoudHeaderCrashes | src/meridian_storage/adapters/valkey/codec/__init__.py:221-274 | every such header makes a frame that leaks under every schema, bound and time; where the JSON parser raises no digest has to match |
| CodecTheorems.OnlySourceRefused | src/meridian_storage/adapters/valkey/codec/__init__.py:263-274 | of a header that passed the field checks, printing refuses it if and only if it refuses the source version alone, or the header is nested just too deep with it |
| Base64Url.DecodeEncode | src/meridian_storage/adapters/valkey/runtime.py:398-400 | decoding the unpadded base64url text of any byte string gives it back |
| Base64Url.EncodeDecode | src/meridian_storage/adapters/valkey/runtime.py:427-435 | re-encoding what a canonical text (section 3.5 of RFC 4648) decodes to gives the text back |
| Base64Url.EncodeIsCanonical | src/meridian_storage/adapters/valkey/runtime.py:398-400 | the encoder produces only texts that are canonical by a definition naming neither coder |
| Base64Url.OperationBytesExact | src/meridian_storage/adapters/valkey/runtime.py:425-435 | a text is accepted if and only if it is canonical, and yields the bytes b if and only if it is the encoding of b |
| Base64Url.NonCanonicalSpellingsRejected | src/meridian_storage/adapters/valkey/runtime.py:428-434 | padding, `+` or `/`, length 1 modulo 4 and nonzero trailing bits are each refused |
| Runtime.TransportExact | src/meridian_storage/adapters/valkey/runtime.py:395-435 | JSON is accepted as a cache value if and only if showing that value gives back the same JSON, for both serializers |
| Runtime.EntryRoundTrip | src/meridian_storage/adapters/valkey/runtime.py:395-435 | what any decoded entry shows can be sent back and means the same value |
| Keys.ReadRender | src/meridian_storage/adapters/valkey/key/__init__.py:68-102 | keys read back uniquely into namespace, generation, hash tag, kind and digest |
| Keys.KeyTextExactly | src/meridian_storage/adapters/valkey/key/__init__.py:68-102 | the text of every key, byte by byte, plain and grouped |
| Keys.LeaseTextExactly | src/meridian_storage/adapters/valkey/key/__init__.py:104-109 | the text of the lease key of an untagged key, byte by byte |
| Keys.NewEncoderIsValid | src/meridian_storage/adapters/valkey/key/__init__.py:50-68 | the constructor accepts exactly bounded namespaces and positive generations, and builds an encoder the other results apply to |
| Keys.NamespacesSeparate | src/meridian_storage/adapters/valkey/key/__init__.py:67-68 | different namespaces get different prefixes, barring a collision on the characters kept |
| Keys.GroupsSeparate | src/meridian_storage/adapters/valkey/key/__init__.py:91-98 | tags are equal if and only if scope, resource and group are, barring a collision on the characters kept |
| Keys.LayoutDisjoint | src/meridian_storage/adapters/valkey/key/__init__.py:67-113 | whatever SHA-256 does, keys of different generations or namespace prefixes never coincide, and no lease key is a data key |
| Keys.LeaseKeyAlwaysFits | src/meridian_storage/adapters/valkey/key/__init__.py:104-113 | every data key within the limit has a lease key of the same length, hash tag and, if grouped, slot |
| Keys.GroupSharesSlot | src/meridian_storage/adapters/valkey/key/__init__.py:88-132 | keys of one scope, resource, group and generation, and their lease keys, share hash tag and slot |
| Keys.KeyFitsExactly | src/meridian_storage/adapters/valkey/key/__init__.py:88-102 | a key fits if and only if 72 (grouped: 97) plus the number of generation digits is within the limit; so plain keys fit every validated limit and grouped ones none under 98 |
| Keys.KeyDeterminesMaterial | src/meridian_storage/adapters/valkey/key/__init__.py:74-102 | equal keys of one encoder come from equal scope, resource, logical key and schema unless SHA-256 collides on the two bodies |
| Keys.RequireSharedHashSlot | src/meridian_storage/adapters/valkey/key/__init__.py:133-139 | the common slot, if and only if the keys are non-empty and all in one slot |
| Keys.HashTagExactly | src/meridian_storage/adapters/valkey/key/__init__.py:117-125 | the tag of any key is what stands between its first opening brace and the next closing one, if that is something |
| Keys.HashSlotExactly | src/meridian_storage/adapters/valkey/key/__init__.py:128-132 | the slot is the CRC modulo 16384 of the tag, or of the whole key without one |
| Settings.EffectiveTtlIsLongest | src/meridian_storage/adapters/valkey/configuration.py:395-422 | the effective TTL is the longest admissible one and the call raises if and only if there is none; its bound is the negative TTL for a negative write whatever was requested, otherwise the request, else the Resource's default, else the deployment's |
| Settings.NegativeTtl | src/meridian_storage/adapters/valkey/configuration.py:402-422 | a negative entry's TTL is at most `negativeTtlMs`, refused if and only if the staleness bound is under the minimum |
| Runs.Effect | tests/fakes.py:61-209 | one server step either stores the named entry under a key, or drops it by expiry, DEL, eviction or a matching release, or leaves it alone; time never goes back |
| Runs.Provenance | tests/fakes.py:87-98 | in every run whatever lies under a key was stored by some step and not touched since |
| Runs.RevisionMonotone | tests/fakes.py:25-58 | an unchanged WATCH revision means an unchanged entry over any stretch of a run |
| Protocol.EveryActorDisciplined | src/meridian_storage/adapters/valkey/cache/__init__.py:74-93 | runs in which every actor's steps keep what its operations are proved to keep are the runs all whole-run theorems speak about |
| Freshness.EveryHitWasWritten | src/meridian_storage/adapters/valkey/cache/__init__.py:116-146 | in every run every decodable live value is what some earlier operation encoded and stored under the same key, with the policy's schema and both expiry bounds ahead, unless corruption forged a frame there last |
| Cache.SeenWasWritten | src/meridian_storage/adapters/valkey/cache/__init__.py:116-146 | the same for whatever an operation of the cache reports as seen |
| Freshness.StoredLifetime | src/meridian_storage/adapters/valkey/configuration.py:395-422 | every entry whose last store was one of the three cache writes, in every reachable state, lives between the minimum and min(maximum, staleness), decodes exactly until its own expiry and is never dropped earlier by the server; JSON null under negative caching, unless swapped in, has the longest TTL under `negativeTtlMs`, everything else the longest under what was requested or defaulted |
| Freshness.LeaseTrafficLeavesData | src/meridian_storage/adapters/valkey/key/__init__.py:104-113 | a step that touches only lease keys changes no data entry |
| Freshness.OldGenerationsUnreachable | src/meridian_storage/adapters/valkey/key/__init__.py:65-113 | however much encoders of other generations stored under their data and lease keys, a key of this generation and its lease key are empty |
| Freshness.CleanupExactly | src/meridian_storage/adapters/valkey/cache/__init__.py:399-408 | a cleanup's DEL removes the very entry its GET found, and a newer one if and only if some step stored under the key in between |
| Freshness.CleanupRemovesNewer | src/meridian_storage/adapters/valkey/cache/__init__.py:399-408 | a run of the adapter in which a lookup discards an invalid value, another client puts a valid one in between, and the lookup's DEL removes that |
| Swaps.SwapReplacesWhatWasRead | src/meridian_storage/adapters/valkey/cache/__init__.py:259-301 | in every interleaving without digest collisions a successful swap replaces exactly the bytes its caller read and decoded, and keeps their source version, unless the actor read a forged frame or what the swap found was corrupted last |
| Cache.CallSwapsItsReading | src/meridian_storage/adapters/valkey/cache/__init__.py:259-301 | when every actor keeps the discipline, the bytes a swap of `compare_and_set` replaces are those the GET of the same call returned; what the caller expected is their source version or else their envelope version, and the source version stays |
| Swaps.SwapsKeepSource | src/meridian_storage/adapters/valkey/cache/__init__.py:282-301 | any chain of swaps and increments keeps the source version it started from |
| Swaps.CasCodesExactly | src/meridian_storage/adapters/valkey/atomic/__init__.py:18-25 | the script's four answers, by what lies under the key |
| Swaps.SwapsNeedRewrite | src/meridian_storage/adapters/valkey/atomic/__init__.py:56-80 | between two successful swaps against one version some step stored that version again |
| Swaps.AtMostOneSwapWins | src/meridian_storage/adapters/valkey/atomic/__init__.py:56-80 | so at most one of any number of contenders wins if nobody stores the version again |
| Swaps.InsertsNeedAbsence | src/meridian_storage/adapters/valkey/atomic/__init__.py:53-54 | a later insert finds the key absent, and between two inserts the entry was dropped, overwritten or ran out |
| Swaps.FirstInsertWins | src/meridian_storage/adapters/valkey/cache/__init__.py:218-247 | starting absent and with no removal, a contender inserts if and only if it is the first |
| Counters.CommitAdds | src/meridian_storage/adapters/valkey/atomic/__init__.py:125-151 | a committed increment found the entry it had read: it adds exactly its amount and keeps the source version |
| Counters.IncrementsConserved | src/meridian_storage/adapters/valkey/atomic/__init__.py:103-163 | at every moment of every run the stored number is the last non-increment write plus the sum of the amounts committed since |
| Leases.ReleaseDeletesOwnLease | src/meridian_storage/adapters/valkey/atomic/__init__.py:27-33 | with distinct tokens a release only ever deletes its own actor's grant, still in force and not followed by another, unless corruption wrote its token |
| Leases.GrantsAreSpaced | src/meridian_storage/adapters/valkey/atomic/__init__.py:82-83 | two grants of one lease key with no release or eviction between them are at least `lease_ms` apart |
| Leases.GrantedExactly | src/meridian_storage/adapters/valkey/cache/__init__.py:338-347 | in every run the next request for a lease is granted if and only if the last grant was released or evicted since, or its time is over |
| Leases.LeaseDropReasons | src/meridian_storage/adapters/valkey/atomic/__init__.py:82-94 | only expiry, eviction or a matching release takes a lease away |
| Leases.StampedeGrantsTwice | src/meridian_storage/adapters/valkey/cache/__init__.py:338-371 | for every data key, its own lease key and every value a put may write, a run of the adapter in which two callers that both missed are both granted the lease, the second over a live entry |
| Cache.StampedeLoadsTwice | src/meridian_storage/adapters/valkey/cache/__init__.py:338-366 | the same in the code: `get_or_load` on a schedule in which a peer takes the lease, puts and releases between its lookup and its lease request asks its loader over the peer's live entry |
| Atomic.AtomicExecutor.EvalScript | src/meridian_storage/adapters/valkey/atomic/__init__.py:165-181 | of the actor's own steps only the last can have any effect, so reloading a script never applies it twice |
| Atomic.AtomicExecutor.CompareAndSet | src/meridian_storage/adapters/valkey/atomic/__init__.py:56-80 | the result names the script's verdict, and without a swap nothing of its own was stored |
| Atomic.AtomicExecutor.AcquireLease | src/meridian_storage/adapters/valkey/atomic/__init__.py:82-83 | granted if and only if the key was absent and now holds the token; otherwise nothing changes |
| Atomic.AtomicExecutor.ReleaseLease | src/meridian_storage/adapters/valkey/atomic/__init__.py:85-94 | one logged attempt, whose steps name only a lease this actor was granted |
| Atomic.AtomicExecutor.Increment | src/meridian_storage/adapters/valkey/atomic/__init__.py:103-163 | under every interleaving at most `retries` attempts, at most one commit and that the last; contention only after all `retries` attempts lost, and any other answer is the one its last pass heard: what WATCH, GET, the clock and EXEC answered; alone, it commits at once if and only if there is a number to add to and the sum can be stored |
| Atomic.NumberAtExactly | src/meridian_storage/adapters/valkey/atomic/__init__.py:125-141 | exactly which stored values can be added to |
| Atomic.IncrementSucceeds | src/meridian_storage/adapters/valkey/atomic/__init__.py:125-155 | alone, an increment of any stored number within both bounds whose sum can be encoded returns and stores that sum, an integer for two integers, under the same schema and source version |
| Atomic.RereadFailsExactly | src/meridian_storage/adapters/valkey/atomic/__init__.py:150-155 | a committed increment cannot be read back if and only if its own expiry or the caller's staleness bound has been reached, or that bound is not positive |
| Reads.InTurnShape | src/meridian_storage/adapters/valkey/cache/__init__.py:148-185 | lookups done in turn only discard entries that do not validate |
| Cache.ValkeyCache.Lookup | src/meridian_storage/adapters/valkey/cache/__init__.py:116-146 | under every interleaving the result is the verdict, at one reading of the clock, on the value found live under the key, and exactly one counter goes up; no answer is reported as such; alone on the server it is exactly one lookup in turn |
| Reads.LookupExactly | src/meridian_storage/adapters/valkey/cache/__init__.py:123-146 | said of decoding itself: a hit if and only if the bytes decode, an exception if and only if decoding leaks, otherwise a miss, and exactly a miss on something found is followed by one DEL |
| Reads.ReadCounterExactly | src/meridian_storage/adapters/valkey/cache/__init__.py:123-146 | hit, stale and corruption are counted by what decoding does, and a leak is not counted |
| Cache.ValkeyCache.BatchLookup | src/meridian_storage/adapters/valkey/cache/__init__.py:148-185 | under every interleaving every slot is the verdict on the value its MGET got, settled in order up to the first exception; alone on the server, results and contents equal those of single lookups one after another, duplicates included |
| Reads.SlotsExactly | src/meridian_storage/adapters/valkey/cache/__init__.py:160-185 | the same for every slot of a batch |
| Reads.RaiseExactly | src/meridian_storage/adapters/valkey/cache/__init__.py:160-185 | a batch raises only at a slot where decoding leaks, with every slot before it settled |
| Cache.ValkeyCache.Put | src/meridian_storage/adapters/valkey/cache/__init__.py:187-216 | at most one step of its own, which writes exactly the value given with the longest TTL under the negative bound, the request or the default; raises if and only if sealing fails or, after an answered write, the re-read comes at or after expiry; otherwise the envelope of those bytes; alone, the next lookup hits it and no other key changed |
| Writes.SealExactly | src/meridian_storage/adapters/valkey/cache/__init__.py:198-208 | sealing succeeds if and only if there is an effective TTL and the value encodes with it under the key's policy |
| Cache.StoredYetRaised | src/meridian_storage/adapters/valkey/cache/__init__.py:209-216 | the failing case at a concrete schedule: the clock passes the TTL between write and re-read, the step stored the value and the call raises |
| Writes.RereadExactly | src/meridian_storage/adapters/valkey/cache/__init__.py:209-216 | under every policy a sealed envelope can be read back if and only if its own expiry lies ahead; the staleness bound never decides |
| Cache.ValkeyCache.PutIfAbsent | src/meridian_storage/adapters/valkey/cache/__init__.py:218-247 | stored if and only if the server found the key absent, with the TTL put would use; the loser's step changes nothing; raises if and only if sealing fails or the re-read comes at or after expiry |
| Cache.ValkeyCache.CompareAndSet | src/meridian_storage/adapters/valkey/cache/__init__.py:249-301 | swaps only an envelope this call read live whose envelope or source version is the expected one, under the same source version and the ordinary TTL; without a swap stores nothing; raises if and only if decoding leaks, sealing fails or the re-read after a swap comes at or after expiry; alone, swaps if and only if the live value decodes to such an envelope and sealing succeeds |
| Cache.ValkeyCache.Delete | src/meridian_storage/adapters/valkey/cache/__init__.py:303-313 | true if and only if an entry was live; alone, exactly that entry goes |
| Cache.ValkeyCache.AwaitPeer | src/meridian_storage/adapters/valkey/cache/__init__.py:372-381 | all polls but the last begin before waitMs are over, so at most ceil(waitMs / pollMs) lookups when every sleep takes at least pollMs; without a hit no end before waitMs are over |
| Cache.ValkeyCache.LoadUnderLease | src/meridian_storage/adapters/valkey/cache/__init__.py:347-371 | exactly one release attempt however the load ends |
| Cache.ValkeyCache.GetOrLoad | src/meridian_storage/adapters/valkey/cache/__init__.py:315-397 | under every interleaving and failure pattern the call follows one transcript: a hit seen live and no load, or exactly one load whose answer is returned; all its traffic is accounted for; alone, it is exactly a lookup followed on a miss by a put of the loaded value, and no lease remains |
| Loading.LoadedIsCached | src/meridian_storage/adapters/valkey/cache/__init__.py:351-366 | alone after a miss, every loaded value but null that can be sealed is cached and returned with its envelope, and null if and only if the policy caches negatives |
| Flights.PutsExactly | src/meridian_storage/adapters/valkey/cache/__init__.py:351-397 | under every interleaving a coordinated load tries to put unless the loader raised, or returned null under a policy that does not cache negatives |
| Flights.DegradedExactly | src/meridian_storage/adapters/valkey/cache/__init__.py:329-397 | a loaded value is marked degraded if and only if the first lookup, the lease request or the put of this call went unanswered |
| Flights.LeaseExactly | src/meridian_storage/adapters/valkey/cache/__init__.py:338-371 | the lease counts as granted if and only if the grant was acknowledged; then exactly one release is attempted, after everything else, and otherwise none |
| Flights.GrantMeansLoad | src/meridian_storage/adapters/valkey/cache/__init__.py:347-366 | whoever is granted the lease asks the loader, whatever lies under the key by then |
| Flights.RaisedWithoutLoad | src/meridian_storage/adapters/valkey/cache/__init__.py:329-346 | a call raises without having asked the loader if and only if it read bytes on which decoding leaks, or missed under a key that has no lease key; so an engine error never costs the load |
| Flights.RaisedAfterLoad | src/meridian_storage/adapters/valkey/cache/__init__.py:348-397 | a call that asked the loader raises if and only if the loader's value may be cached and, at the events of its put, could not be sealed or was read back at or after expiry |
| Runtime.Session.Invalidate | src/meridian_storage/adapters/valkey/runtime.py:311-318 | it deletes requested physical keys only and counts exactly those of its deletions that found a live entry; alone, that is the number of distinct requested keys present, exactly those entries go, and an unencodable key stops it there; the selector is refused if and only if it is not one key or one bounded array |
| Runtime.InvalidationKeysExactly | src/meridian_storage/adapters/valkey/runtime.py:467-487 | exactly which selectors are accepted, and for which keys |
| Runtime.PhysicalKeysSeparate | src/meridian_storage/adapters/valkey/runtime.py:311-316 | different logical keys have different physical ones, barring a collision |
| Runtime.InvalidatedKeysMiss | src/meridian_storage/adapters/valkey/runtime.py:311-318 | every requested key then misses |

## Left out

- Connections, TLS, Sentinel, startup probes, capability descriptors and error translation: no protocol logic of their own.
- Session and runtime lifecycle, `_validate_operation`, result-size limit, provenance, timestamps as text, event sinks: easy guards and formatting.
- Parsing settings from mappings: only the numeric bounds it establishes are kept, as validity predicates; a key's policy is a function of the physical key.
- Internals of SHA-256, SHA-1, CRC-16, canonical printing and JSON parsing; of their exceptions only the kinds the codec tells apart are modelled.
- Text is held as UTF-8 bytes, so lone surrogates are not represented.
- Floating-point rounding: JSON numbers are reals, so conservation of increments is exact for integers and ideal for fractions; `math.isfinite` guards fall away.
- Seconds as floats in the poll loop: milliseconds as integers, with a sleep that takes at least as long as asked.
- The RuntimeError after SCRIPT LOAD returns an unexpected digest: the server is assumed to hash scripts correctly.
- WATCH, MULTI and EXEC as separate connection states: EXEC is one step that compares the watched revision; `pipeline.reset` has no effect on the server.
- tests/fakes.py and the model differ in one point: the model drops an expired entry before every command that names it, as Valkey does, while the fake still counts such an entry for DEL and EXEC.
- Python's coincidences between values of different types (`True == 1`, `1 == 1.0`) in comparing expected versions.
- Atomicity of several keys: `batch_get` with `require_atomic_slot` is modelled only by its slot check.
- Swaps.SwapReplacesWhatWasRead: excludes a forged frame the actor read, and corrupted bytes as what the swap finds, since those may carry any version prefix.
- Freshness.StoredLifetime: speaks of keys written by put, put_if_absent and compare_and_set only; `increment` takes its TTL from its caller.
- Cache.ValkeyCache.GetOrLoad: its own event counters (load, duplicate_load, unavailable_miss, contention, population and release failures) are kept but not stated, since they only mirror the transcript.
- Atomic.AtomicExecutor.Increment: decode, encode and type errors are one result, `Rejected`.
