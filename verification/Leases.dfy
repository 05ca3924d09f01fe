/** Single-flight leases over whole runs. */
module Leases {
  import opened Primitives
  import opened Server
  import opened Runs
  import opened Protocol
  import Keys

  /** Under the discipline only grants store under a lease key; corruption aside. */
  lemma OnlyGrantsStore(cx: Context, run: seq<Step>, w: int, k: Key)
    requires 0 <= w < |run| && Disciplined(cx, run, w) && Keys.IsLease(k)
    requires StoresUnder(run[w], k) && !Corrupts(run[w], k)
    ensures Inserts(run[w], k) && run[w].cmd.px == cx.flight.leaseMs
    ensures Stores(run[w].pre, run[w].cmd) == Some((k, Raw(run[w].cmd.value)))
  {
    hide DecodeAt, EncodeIn, NumberIn, Keys.Read, Keys.Render, Keys.WellFormed, Swept;
  }

  /** No two grants of a lease key hand out the same token. */
  ghost predicate DistinctTokens(run: seq<Step>, k: Key) {
    forall i, j :: 0 <= i < j < |run| && Inserts(run[i], k) && Inserts(run[j], k) ==>
      run[i].cmd.value != run[j].cmd.value
  }

  /** A release that deletes something deletes the lease its own actor was granted,
      and no other grant came in between: a holder whose lease expired never
      releases its successor's. */
  lemma ReleaseDeletesOwnLease(cx: Context, run: seq<Step>, j: nat, k: Key) returns (i: nat)
    requires AdapterRun(cx, run) && Keys.IsLease(k) && DistinctTokens(run, k)
    requires j < |run| && Releases(run[j], k)
    requires forall m :: 0 <= m < j && Corrupts(run[m], k) ==> run[m].cmd.garbage != Raw(run[j].cmd.token)
    ensures i < j && Inserts(run[i], k) && run[i].actor == run[j].actor && run[i].cmd.value == run[j].cmd.token
    ensures EntryAt(run[j].pre, k) == EntryAt(Post(run[i]), k)
    ensures forall m :: i < m < j ==> !Inserts(run[m], k) && !Drops(run[m], k)
    ensures run[j].pre.now < run[i].pre.now + cx.flight.leaseMs
  {
    hide Keys.IsKey, Post, Drops;
    i := Provenance(run, j, k);
    OnlyGrantsStore(cx, run, i, k);
    Effect(run[i], k);
    assert Disciplined(cx, run, j);
    var g :| 0 <= g < j && GrantOf(cx, run[g], run[j]);
    assert Inserts(run[g], k);
    assert g == i;
    forall m | i < m < j ensures !Inserts(run[m], k) {
      GrantStores(run[m], k);
    }
  }

  lemma GrantStores(st: Step, k: Key)
    ensures Inserts(st, k) ==> StoresUnder(st, k)
  {
  }

  /** Only the holder's own release, an eviction or expiry takes a lease away. */
  lemma LeaseDropReasons(cx: Context, run: seq<Step>, m: int, k: Key)
    requires 0 <= m < |run| && Disciplined(cx, run, m) && Keys.IsLease(k) && Drops(run[m], k)
    ensures Expired(run[m].pre, k) || run[m].cmd == Evict(k) || Releases(run[m], k)
  {
    hide Keys.Read, Keys.Render, Keys.WellFormed, Post, Releases;
    Effect(run[m], k);
  }

  /** Two grants of one lease key with no release and no eviction between them are
      at least the lease time apart. */
  lemma GrantsAreSpaced(cx: Context, run: seq<Step>, i: nat, j: nat, k: Key)
    requires AdapterRun(cx, run) && Keys.IsLease(k)
    requires i < j < |run| && Inserts(run[i], k) && Inserts(run[j], k)
    requires forall m :: i < m < j ==> !Releases(run[m], k) && run[m].cmd != Evict(k)
    ensures run[j].pre.now >= run[i].pre.now + cx.flight.leaseMs
  {
    hide Keys.IsKey, Post, Releases;
    GrantStores(run[i], k);
    OnlyGrantsStore(cx, run, i, k);
    if run[j].pre.now < run[i].pre.now + cx.flight.leaseMs {
      HeldUntil(cx, run, i, j, k);
    }
  }

  lemma {:induction false} HeldUntil(cx: Context, run: seq<Step>, i: nat, j: nat, k: Key)
    requires AdapterRun(cx, run) && Keys.IsLease(k)
    requires i < j < |run| && Inserts(run[i], k) && run[i].cmd.px == cx.flight.leaseMs
    requires forall m :: i < m < j ==> !Releases(run[m], k) && run[m].cmd != Evict(k)
    requires run[j].pre.now < run[i].pre.now + cx.flight.leaseMs
    ensures k in run[j].pre.entries && run[j].pre.entries[k].expires == run[i].pre.now + cx.flight.leaseMs
    decreases j - i
  {
    hide Keys.IsKey, Post, Releases, Disciplined;
    Effect(run[j - 1], k);
    if i + 1 == j {
      GrantStores(run[i], k);
    } else {
      HeldUntil(cx, run, i, j - 1, k);
      if StoresUnder(run[j - 1], k) && !Corrupts(run[j - 1], k) {
        OnlyGrantsStore(cx, run, j - 1, k);
      }
      if Drops(run[j - 1], k) {
        LeaseDropReasons(cx, run, j - 1, k);
      }
    }
  }

  /** As long as nobody is granted the lease again, a lease that is there is the last
      grant's, with its expiry. */
  lemma {:induction false} KeepsExpiry(cx: Context, run: seq<Step>, i: nat, n: nat, k: Key)
    requires AdapterRun(cx, run) && Keys.IsLease(k)
    requires i < n < |run| && Inserts(run[i], k) && run[i].cmd.px == cx.flight.leaseMs
    requires forall m :: i < m < n ==> !Inserts(run[m], k)
    ensures k in run[n].pre.entries ==> run[n].pre.entries[k].expires == run[i].pre.now + cx.flight.leaseMs
    decreases n - i
  {
    hide Keys.IsKey, Post, Disciplined;
    Effect(run[n - 1], k);
    if i + 1 == n {
      GrantStores(run[i], k);
    } else {
      KeepsExpiry(cx, run, i, n - 1, k);
      if StoresUnder(run[n - 1], k) && !Corrupts(run[n - 1], k) {
        OnlyGrantsStore(cx, run, n - 1, k);
      }
    }
  }

  /** A lease that is gone stays gone until it is granted again. */
  lemma {:induction false} StaysGone(cx: Context, run: seq<Step>, a: nat, n: nat, k: Key)
    requires AdapterRun(cx, run) && Keys.IsLease(k) && a <= n < |run| && k !in run[a].pre.entries
    requires forall m :: a <= m < n ==> !Inserts(run[m], k)
    ensures k !in run[n].pre.entries
    decreases n - a
  {
    hide Keys.IsKey, Post, Disciplined;
    if a < n {
      StaysGone(cx, run, a, n - 1, k);
      Effect(run[n - 1], k);
      if StoresUnder(run[n - 1], k) && !Corrupts(run[n - 1], k) {
        OnlyGrantsStore(cx, run, n - 1, k);
      }
    }
  }

  lemma TakenAway(st: Step, k: Key)
    requires Releases(st, k) || st.cmd == Evict(k)
    ensures k !in Post(st).entries
  {
  }

  /** Exactly when the next request for a lease is granted: the last grant was released
      or evicted since, or its time is over. */
  lemma GrantedExactly(cx: Context, run: seq<Step>, i: nat, j: nat, k: Key)
    requires AdapterRun(cx, run) && Keys.IsLease(k)
    requires i < j < |run| && Inserts(run[i], k) && (forall m :: i < m < j ==> !Inserts(run[m], k))
    requires run[j].cmd.SetNx? && run[j].cmd.key == k
    ensures Inserts(run[j], k) <==>
            || (exists m :: i < m < j && (Releases(run[m], k) || run[m].cmd == Evict(k)))
            || run[j].pre.now >= run[i].pre.now + cx.flight.leaseMs
  {
    hide Keys.IsKey, Post, Releases, Disciplined;
    GrantStores(run[i], k);
    OnlyGrantsStore(cx, run, i, k);
    KeepsExpiry(cx, run, i, j, k);
    RequestMeets(run[j], k);
    if m :| i < m < j && (Releases(run[m], k) || run[m].cmd == Evict(k)) {
      TakenAway(run[m], k);
      StaysGone(cx, run, m + 1, j, k);
    } else if Inserts(run[j], k) {
      GrantsAreSpaced(cx, run, i, j, k);
    }
  }

  lemma RequestMeets(st: Step, k: Key)
    requires st.cmd.SetNx? && st.cmd.key == k
    ensures Inserts(st, k) <==> !IsLive(st.pre, k)
  {
  }

  // -------------------------------------------------------------------- stampedes

  /** The steps two callers of `get_or_load` take when both miss and the first is done
      before the second asks for the lease. */
  function Stampede(s: State, k: Key, lease: Key, a: Bytes, b: Bytes, value: Bytes, px: int, leaseMs: int): seq<Step> {
    var s0 := Step(0, Get(k), s);
    var s1 := Step(1, Get(k), Post(s0));
    var s2 := Step(0, SetNx(lease, a, leaseMs), Post(s1));
    var s3 := Step(0, Set(k, value, px), Post(s2));
    var s4 := Step(0, EvalRelease(lease, a), Post(s3));
    var s5 := Step(1, SetNx(lease, b, leaseMs), Post(s4));
    [s0, s1, s2, s3, s4, s5]
  }

  /** The server's side of it: both are granted the lease, the second one over a live
      entry the first has just stored. */
  lemma StampedeSteps(s: State, k: Key, lease: Key, a: Bytes, b: Bytes, value: Bytes, px: int, leaseMs: int)
    requires k !in s.entries && lease !in s.entries && k != lease && px > 0 && leaseMs > 0 && ReleaseScript in s.scripts
    ensures var run := Stampede(s, k, lease, a, b, value, px, leaseMs);
            && Chained(run) && ReplyTo(run[0]) == Nil && ReplyTo(run[1]) == Nil
            && Inserts(run[2], lease) && Releases(run[4], lease) && Inserts(run[5], lease)
            && (forall i :: 0 <= i < 6 ==> run[i].pre.now == s.now)
            && LiveValue(run[5].pre, k) == Some(Raw(value)) && lease !in run[5].pre.entries
  {
    var run := Stampede(s, k, lease, a, b, value, px, leaseMs);
    assert run[2].pre == s;
    assert run[3].pre.entries == s.entries[lease := Entry(Raw(a), s.now + leaseMs)];
    assert run[4].pre.entries == run[3].pre.entries[k := Entry(Raw(value), s.now + px)];
    assert run[5].pre.entries == run[4].pre.entries - {lease};
  }

  /** The lease does not give one load per stampede: for every data key, its own lease
      key and every value a put may write, this is a run of the adapter. */
  lemma StampedeGrantsTwice(
    cx: Context, e: Keys.Encoder, s: State, k: Key, a: Bytes, b: Bytes, value: Bytes, px: int, c: Claim)
    requires ValidContext(cx) && Keys.ValidEncoder(e) && s.entries == map[] && ReleaseScript in s.scripts
    requires Keys.IsData(k) && Keys.LeaseKey(cx.platform, e, k).Some? && PutClaim(cx, k, value, px, s.now, c)
    ensures var lease := Keys.LeaseKey(cx.platform, e, k).value;
            var run := Stampede(s, k, lease, a, b, value, px, cx.flight.leaseMs);
            && AdapterRun(cx, run) && ReplyTo(run[0]) == Nil && ReplyTo(run[1]) == Nil
            && Inserts(run[2], lease) && Releases(run[4], lease) && Inserts(run[5], lease)
            && LiveValue(run[5].pre, k) == Some(Raw(value))
  {
    hide Keys.Read, Keys.Render, Keys.WellFormed, Keys.LeaseKey, Post, ReplyTo, LiveValue, Chained, Releases, Apply;
    var lease := Keys.LeaseKey(cx.platform, e, k).value;
    Keys.LeaseOfData(cx.platform, e, k);
    ClaimIsPositive(cx, k, value, px, s.now, c);
    StampedeSteps(s, k, lease, a, b, value, px, cx.flight.leaseMs);
    var run := Stampede(s, k, lease, a, b, value, px, cx.flight.leaseMs);
    assert GrantOf(cx, run[2], run[4]);
    assert run[0].pre == s;
  }
}
