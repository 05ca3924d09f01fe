/** What the transcript of a coordinated load says about its result. */
module Flights {
  import opened Primitives
  import opened Json
  import opened Codec
  import opened Server
  import opened Protocol
  import opened Client
  import opened Atomic
  import opened Reads
  import opened Writes
  import opened Loading

  // ------------------------------------------------------------------ kinds of events

  predicate IsRead(e: Event) {
    e.Timed? || e.cmd.Get? || e.cmd.Del?
  }

  predicate IsPut(e: Event) {
    e.Timed? || e.cmd.Set?
  }

  predicate IsRelease(e: Event) {
    e.Called? && (e.cmd.EvalRelease? || e.cmd.ScriptLoad?)
  }

  predicate IsRequest(e: Event) {
    e.Called? && e.cmd.SetNx?
  }

  /** A write or a lease request that the engine did not answer. */
  predicate IsLost(e: Event) {
    e.Called? && (e.cmd.Set? || e.cmd.SetNx?) && e.o.Unavailable?
  }

  predicate Lost(t: seq<Event>) {
    exists i :: 0 <= i < |t| && IsLost(t[i])
  }

  lemma LostSplits(t: seq<Event>, m: int)
    requires 0 <= m <= |t|
    ensures Lost(t) <==> Lost(t[..m]) || Lost(t[m..])
  {
    hide IsLost;
    if i :| 0 <= i < |t| && IsLost(t[i]) {
      if i < m { assert t[..m][i] == t[i]; } else { assert t[m..][i - m] == t[i]; }
    }
    if i :| 0 <= i < m && IsLost(t[..m][i]) { assert IsLost(t[i]); }
    if i :| 0 <= i < |t| - m && IsLost(t[m..][i]) { assert IsLost(t[m + i]); }
  }

  lemma LookupEvents(cx: Context, k: Key, t: seq<Event>, r: LookupResult)
    requires LookupHeard(cx, k, t, r)
    ensures |t| >= 1 && forall i :: 0 <= i < |t| ==> IsRead(t[i])
    ensures (t[0].Called? && t[0].o.Unavailable?) <==> r == LookupUnavailable
  {
    hide Judge;
    assert forall i :: 1 <= i < |t| ==> t[i] == t[1..][i - 1];
    assert forall i :: 2 <= i < |t| ==> t[i] == t[1..][1..][i - 2];
  }

  lemma {:induction false} WaitReads(cx: Context, k: Key, t: seq<Event>, polls: nat, peer: LookupResult)
    requires WaitHeard(cx, k, t, polls, peer)
    ensures forall i :: 0 <= i < |t| ==> IsRead(t[i])
    decreases polls
  {
    hide LookupHeard, IsRead;
    if polls > 0 {
      var m :| 0 <= m <= |t| && WaitHeard(cx, k, t[..m], polls - 1, Miss) && LookupHeard(cx, k, t[m..], peer);
      WaitReads(cx, k, t[..m], polls - 1, Miss);
      LookupEvents(cx, k, t[m..], peer);
      forall i | 0 <= i < |t| ensures IsRead(t[i]) {
        if i < m { assert t[i] == t[..m][i]; } else { assert t[i] == t[m..][i - m]; }
      }
    }
  }

  lemma LoadPuts(
    cx: Context, k: Key, requested: Option<int>, source: SourceVersion, o: LoadOutcome, t: seq<Event>, r: Served)
    requires LoadHeard(cx, k, requested, source, o, t, r)
    ensures forall i :: 0 <= i < |t| ==> IsPut(t[i])
    ensures Lost(t) <==> r.Loaded? && r.degraded
    ensures !r.ServedHit?
  {
    hide SealAt, IsNegative, EnvelopeFor, TooLate;
    if !Uncached(cx, k, o) {
      var p :| PutHeard(cx, k, o.value, requested, source, t, p) && r == AfterPut(o.value, p);
      if p == PutUnavailable { assert IsLost(t[1]); }
    }
  }

  lemma ReleasesOnly(lease: Key, token: Bytes, t: seq<Event>)
    requires ScriptHeard(ReleaseScript, EvalRelease(lease, token), t)
    ensures forall i :: 0 <= i < |t| ==> IsRelease(t[i])
  {
  }

  // ------------------------------------------------------------------------- degraded

  /** A loaded value is marked degraded exactly when the first lookup, the lease request
      or the put of this very call went unanswered. */
  lemma DegradedExactly(
    cx: Context, f: Flight, leasable: bool, requested: Option<int>, o: Option<LoadOutcome>, t: seq<Event>, r: Served, tr: Trace, put: Option<int>)
    requires FlightHeard(cx, f, leasable, requested, o, t, r, tr, put) && r.Loaded?
    ensures |t| > 0 && (r.degraded <==> (t[0].Called? && t[0].o.Unavailable?) || Lost(t))
  {
    hide LookupHeard, CoordinateHeard, Lost, IsRead;
    var m, first :| 0 <= m <= |t| && LookupHeard(cx, f.key, t[..m], first)
      && LookupDecides(cx, f, leasable, requested, o, first, t[m..], r, tr, Back(put, m));
    LookupEvents(cx, f.key, t[..m], first);
    ReadsLoseNothing(t[..m]);
    LostSplits(t, m);
    if first.Miss? {
      CoordinateLoses(cx, f, requested, o, t[m..], r, tr, Back(put, m));
    } else {
      ReadsLoseNothing(t[m..]);
    }
  }

  lemma ReadsLoseNothing(t: seq<Event>)
    requires forall i :: 0 <= i < |t| ==> IsRead(t[i])
    ensures !Lost(t)
  {
  }

  lemma ReleasesLoseNothing(t: seq<Event>)
    requires forall i :: 0 <= i < |t| ==> IsRelease(t[i])
    ensures !Lost(t)
  {
  }

  lemma CoordinateLoses(
    cx: Context, f: Flight, requested: Option<int>, o: Option<LoadOutcome>, t: seq<Event>, r: Served, tr: Trace, put: Option<int>)
    requires CoordinateHeard(cx, f, requested, o, t, r, tr, put) && r.Loaded?
    ensures r.degraded <==> Lost(t)
  {
    hide LeasedHeard, ContendedHeard, Lost;
    LostSplits(t, 1);
    FirstLost(t);
    if t[0].o.Answered? {
      if t[0].o.reply == Done {
        LeasedLoses(cx, f, requested, o.value, t[1..], r);
      } else {
        ContendedLoses(cx, f, requested, o, t[1..], r, tr, Back(put, 1));
      }
    }
  }

  lemma FirstLost(t: seq<Event>)
    requires |t| >= 1
    ensures Lost(t[..1]) <==> IsLost(t[0])
  {
    assert t[..1][0] == t[0];
  }

  lemma LeasedLoses(cx: Context, f: Flight, requested: Option<int>, o: LoadOutcome, t: seq<Event>, r: Served)
    requires LeasedHeard(cx, f, requested, o, t, r) && r.Loaded?
    ensures r.degraded <==> Lost(t)
  {
    hide LoadHeard, ScriptHeard, Lost, IsRelease, IsPut;
    var m :| 0 <= m <= |t| && LoadHeard(cx, f.key, requested, f.source, o, t[..m], r)
      && ScriptHeard(ReleaseScript, EvalRelease(f.lease, f.token), t[m..]);
    LoadPuts(cx, f.key, requested, f.source, o, t[..m], r);
    ReleasesOnly(f.lease, f.token, t[m..]);
    ReleasesLoseNothing(t[m..]);
    LostSplits(t, m);
  }

  lemma ContendedLoses(
    cx: Context, f: Flight, requested: Option<int>, o: Option<LoadOutcome>, t: seq<Event>, r: Served, tr: Trace, put: Option<int>)
    requires ContendedHeard(cx, f, requested, o, t, r, tr, put) && r.Loaded?
    ensures r.degraded <==> Lost(t)
  {
    hide LoadHeard, WaitHeard, Lost, IsRead, IsPut;
    var m, peer :| 0 <= m <= |t| && WaitHeard(cx, f.key, t[..m], tr.polls, peer)
      && PeerDecides(cx, f, requested, o, peer, t[m..], r);
    WaitReads(cx, f.key, t[..m], tr.polls, peer);
    ReadsLoseNothing(t[..m]);
    LoadPuts(cx, f.key, requested, f.source, o.value, t[m..], r);
    LostSplits(t, m);
  }

  // --------------------------------------------------------------------------- leases

  predicate Granted(cx: Context, f: Flight, e: Event) {
    e == Called(SetNx(f.lease, f.token, cx.flight.leaseMs), Answered(Done))
  }

  predicate Unheard(cx: Context, f: Flight, e: Event) {
    e == Called(SetNx(f.lease, f.token, cx.flight.leaseMs), Unavailable)
  }

  /** No release is attempted, or exactly one and as the last thing done. */
  predicate NeverReleases(t: seq<Event>) {
    forall i :: 0 <= i < |t| ==> !IsRelease(t[i])
  }

  ghost predicate ReleasesLast(f: Flight, t: seq<Event>) {
    exists m :: 0 <= m <= |t| && NeverReleases(t[..m]) && ScriptHeard(ReleaseScript, EvalRelease(f.lease, f.token), t[m..])
  }

  /** The trace counts a lease as granted exactly when the grant was acknowledged, and as
      lost only when the request went unanswered; an acknowledged lease is released by
      exactly one attempt, after everything else, and no other is. */
  lemma LeaseExactly(
    cx: Context, f: Flight, leasable: bool, requested: Option<int>, o: Option<LoadOutcome>, t: seq<Event>, r: Served, tr: Trace, put: Option<int>)
    requires FlightHeard(cx, f, leasable, requested, o, t, r, tr, put)
    ensures tr.grant >= 0 <==> exists i :: 0 <= i < |t| && Granted(cx, f, t[i])
    ensures tr.lost != -1 ==> exists i :: 0 <= i < |t| && Unheard(cx, f, t[i])
    ensures if tr.grant >= 0 then ReleasesLast(f, t) else NeverReleases(t)
  {
    hide LookupHeard, CoordinateHeard, Granted, Unheard, NeverReleases, ReleasesLast, IsRead;
    var m, first :| 0 <= m <= |t| && LookupHeard(cx, f.key, t[..m], first)
      && LookupDecides(cx, f, leasable, requested, o, first, t[m..], r, tr, Back(put, m));
    LookupEvents(cx, f.key, t[..m], first);
    ReadsLeaseNothing(cx, f, t[..m]);
    if first.Miss? && leasable {
      CoordinateLeases(cx, f, requested, o, t[m..], r, tr, Back(put, m));
      assert t[m] == t[m..][0];
      LaterOnly(cx, f, t, m);
    } else {
      assert t[..m] == t;
    }
  }

  /** Whoever is granted the lease loads, without looking under the key again. */
  lemma GrantMeansLoad(
    cx: Context, f: Flight, leasable: bool, requested: Option<int>, o: Option<LoadOutcome>, t: seq<Event>, r: Served, tr: Trace, put: Option<int>)
    requires FlightHeard(cx, f, leasable, requested, o, t, r, tr, put)
    requires exists i :: 0 <= i < |t| && Granted(cx, f, t[i])
    ensures o.Some? && !r.ServedHit?
  {
    hide LookupHeard, LeasedHeard, ContendedHeard, Granted, ReleasesLast;
    LeaseExactly(cx, f, leasable, requested, o, t, r, tr, put);
    var m, first :| 0 <= m <= |t| && LookupHeard(cx, f.key, t[..m], first)
      && LookupDecides(cx, f, leasable, requested, o, first, t[m..], r, tr, Back(put, m));
    LeasedIsNoHit(cx, f, requested, o.value, t[m..][1..], r);
  }

  lemma LeasedIsNoHit(cx: Context, f: Flight, requested: Option<int>, o: LoadOutcome, t: seq<Event>, r: Served)
    requires LeasedHeard(cx, f, requested, o, t, r)
    ensures !r.ServedHit?
  {
    hide LoadHeard, ScriptHeard;
    var m :| 0 <= m <= |t| && LoadHeard(cx, f.key, requested, f.source, o, t[..m], r)
      && ScriptHeard(ReleaseScript, EvalRelease(f.lease, f.token), t[m..]);
    LoadPuts(cx, f.key, requested, f.source, o, t[..m], r);
  }

  lemma ReadsLeaseNothing(cx: Context, f: Flight, t: seq<Event>)
    requires forall i :: 0 <= i < |t| ==> IsRead(t[i])
    ensures NeverReleases(t) && forall i :: 0 <= i < |t| ==> !Granted(cx, f, t[i]) && !Unheard(cx, f, t[i])
  {
  }

  lemma PutsReleaseNothing(cx: Context, f: Flight, t: seq<Event>)
    requires forall i :: 0 <= i < |t| ==> IsPut(t[i])
    ensures NeverReleases(t) && forall i :: 0 <= i < |t| ==> !Granted(cx, f, t[i])
  {
  }

  /** A stretch that neither leases nor releases does not matter. */
  lemma LaterOnly(cx: Context, f: Flight, t: seq<Event>, m: int)
    requires 0 <= m <= |t| && NeverReleases(t[..m]) && forall i :: 0 <= i < |t[..m]| ==> !Granted(cx, f, t[..m][i])
    ensures (exists i :: 0 <= i < |t| && Granted(cx, f, t[i])) <==> (exists i :: 0 <= i < |t[m..]| && Granted(cx, f, t[m..][i]))
    ensures NeverReleases(t[m..]) ==> NeverReleases(t)
    ensures ReleasesLast(f, t[m..]) ==> ReleasesLast(f, t)
  {
    hide Granted, IsRelease, ScriptHeard;
    if i :| 0 <= i < |t[m..]| && Granted(cx, f, t[m..][i]) { assert Granted(cx, f, t[m + i]); }
    assert forall i :: 0 <= i < m ==> t[i] == t[..m][i];
    assert forall i :: m <= i < |t| ==> t[i] == t[m..][i - m];
    if ReleasesLast(f, t[m..]) { ReleasesLater(f, t, m); }
  }

  lemma ReleasesLater(f: Flight, t: seq<Event>, m: int)
    requires 0 <= m <= |t| && NeverReleases(t[..m]) && ReleasesLast(f, t[m..])
    ensures ReleasesLast(f, t)
  {
    hide IsRelease, ScriptHeard;
    var u := t[m..];
    var n :| 0 <= n <= |u| && NeverReleases(u[..n]) && ScriptHeard(ReleaseScript, EvalRelease(f.lease, f.token), u[n..]);
    assert u[n..] == t[m + n..];
    var all := t[..m + n];
    forall i | 0 <= i < |all| ensures !IsRelease(all[i]) {
      if i < m { assert all[i] == t[..m][i]; } else { assert all[i] == u[..n][i - m]; }
    }
  }

  lemma CoordinateLeases(
    cx: Context, f: Flight, requested: Option<int>, o: Option<LoadOutcome>, t: seq<Event>, r: Served, tr: Trace, put: Option<int>)
    requires CoordinateHeard(cx, f, requested, o, t, r, tr, put)
    ensures |t| >= 1 && (tr.grant >= 0 <==> exists i :: 0 <= i < |t| && Granted(cx, f, t[i]))
    ensures tr.lost != -1 ==> Unheard(cx, f, t[0])
    ensures if tr.grant >= 0 then ReleasesLast(f, t) else NeverReleases(t)
  {
    hide LeasedHeard, ContendedHeard, NeverReleases, ReleasesLast;
    assert t == t[..1] + t[1..];
    OneRequest(t);
    if t[0].o.Unavailable? {
      assert t[..1] == t;
    } else if t[0].o.reply == Done {
      assert Granted(cx, f, t[0]);
      LeasedReleases(cx, f, requested, o.value, t[1..], r);
      ReleasesLater(f, t, 1);
    } else {
      ContendedLeases(cx, f, requested, o, t[1..], r, tr, Back(put, 1));
      LaterOnly(cx, f, t, 1);
    }
  }

  lemma OneRequest(t: seq<Event>)
    requires |t| >= 1 && IsRequest(t[0])
    ensures NeverReleases(t[..1])
  {
  }

  lemma LeasedReleases(cx: Context, f: Flight, requested: Option<int>, o: LoadOutcome, t: seq<Event>, r: Served)
    requires LeasedHeard(cx, f, requested, o, t, r)
    ensures ReleasesLast(f, t)
  {
    hide LoadHeard, ScriptHeard, NeverReleases, IsPut;
    var m :| 0 <= m <= |t| && LoadHeard(cx, f.key, requested, f.source, o, t[..m], r)
      && ScriptHeard(ReleaseScript, EvalRelease(f.lease, f.token), t[m..]);
    LoadPuts(cx, f.key, requested, f.source, o, t[..m], r);
    PutsReleaseNothing(cx, f, t[..m]);
  }

  lemma ContendedLeases(
    cx: Context, f: Flight, requested: Option<int>, o: Option<LoadOutcome>, t: seq<Event>, r: Served, tr: Trace, put: Option<int>)
    requires ContendedHeard(cx, f, requested, o, t, r, tr, put)
    ensures NeverReleases(t) && forall i :: 0 <= i < |t| ==> !Granted(cx, f, t[i])
  {
    hide LoadHeard, WaitHeard, IsRead, IsPut, Granted, IsRelease;
    var m, peer :| 0 <= m <= |t| && WaitHeard(cx, f.key, t[..m], tr.polls, peer)
      && PeerDecides(cx, f, requested, o, peer, t[m..], r);
    WaitReads(cx, f.key, t[..m], tr.polls, peer);
    ReadsLeaseNothing(cx, f, t[..m]);
    if !peer.Hit? && !peer.LookupRaised? {
      LoadPuts(cx, f.key, requested, f.source, o.value, t[m..], r);
      PutsReleaseNothing(cx, f, t[m..]);
    }
    assert forall i :: 0 <= i < m ==> t[i] == t[..m][i];
    assert forall i :: m <= i < |t| ==> t[i] == t[m..][i - m];
  }

  // ------------------------------------------------------- exceptions without a load

  predicate FindsValue(e: Event) {
    e.Called? && e.cmd.Get? && e.o.Answered? && e.o.reply.Found?
  }

  /** The call read a value under its key that made decoding leak an exception. */
  predicate CrashedAt(cx: Context, k: Key, t: seq<Event>, i: int) {
    && 0 <= i < |t| - 1 && FindsValue(t[i]) && t[i].cmd == Get(k) && t[i].o.reply.value.Raw?
    && t[i + 1].Timed? && LeaksAt(cx, k, t[i].o.reply.value.bytes, t[i + 1].now)
  }

  predicate Crashes(cx: Context, k: Key, t: seq<Event>) {
    exists i :: 0 <= i < |t| && CrashedAt(cx, k, t, i)
  }

  /** Exactly when a call raises without having asked the loader: it met such a value, or
      it missed and its key has no lease key.  So no engine error ever costs the load. */
  lemma RaisedWithoutLoad(
    cx: Context, f: Flight, leasable: bool, requested: Option<int>, o: Option<LoadOutcome>, t: seq<Event>, r: Served, tr: Trace,
    put: Option<int>)
    requires ValidContext(cx) && FlightHeard(cx, f, leasable, requested, o, t, r, tr, put)
    ensures o == None && !r.ServedHit? <==>
            Crashes(cx, f.key, t) || (!leasable && LookupHeard(cx, f.key, t, Miss))
    ensures o == None && !r.ServedHit? ==> r == ServeRaised
  {
    hide LookupHeard, CoordinateHeard, Crashes, ValidContext;
    var m, first :| 0 <= m <= |t| && LookupHeard(cx, f.key, t[..m], first)
      && LookupDecides(cx, f, leasable, requested, o, first, t[m..], r, tr, Back(put, m));
    LookupCrashes(cx, f.key, t[..m], first);
    CrashSplits(cx, f.key, t, m);
    if first.Miss? && leasable {
      CoordinateCrashes(cx, f, requested, o, t[m..], r, tr, Back(put, m));
    } else {
      assert t[..m] == t;
      NothingCrashes(cx, f.key, t[m..]);
      if !leasable && LookupHeard(cx, f.key, t, Miss) { OneResult(cx, f.key, t, first, Miss); }
    }
  }

  lemma OneResult(cx: Context, k: Key, t: seq<Event>, a: LookupResult, b: LookupResult)
    requires LookupHeard(cx, k, t, a) && LookupHeard(cx, k, t, b)
    ensures a == b
  {
    hide Judge;
  }

  lemma NothingCrashes(cx: Context, k: Key, t: seq<Event>)
    requires forall i :: 0 <= i < |t| ==> !FindsValue(t[i])
    ensures !Crashes(cx, k, t)
  {
    hide LeaksAt;
  }

  /** A cut that does not fall between a value and the verdict on it. */
  lemma CrashSplits(cx: Context, k: Key, t: seq<Event>, m: int)
    requires 0 <= m <= |t| && (m > 0 ==> !FindsValue(t[m - 1]))
    ensures Crashes(cx, k, t) <==> Crashes(cx, k, t[..m]) || Crashes(cx, k, t[m..])
  {
    hide LeaksAt, FindsValue;
    if i :| 0 <= i < |t| && CrashedAt(cx, k, t, i) {
      if i < m {
        assert t[..m][i] == t[i] && i + 1 < m && t[..m][i + 1] == t[i + 1];
        assert CrashedAt(cx, k, t[..m], i);
      } else {
        assert t[m..][i - m] == t[i] && t[m..][i + 1 - m] == t[i + 1];
        assert CrashedAt(cx, k, t[m..], i - m);
      }
    }
    if i :| 0 <= i < |t[..m]| && CrashedAt(cx, k, t[..m], i) { assert CrashedAt(cx, k, t, i); }
    if i :| 0 <= i < |t[m..]| && CrashedAt(cx, k, t[m..], i) { assert CrashedAt(cx, k, t, m + i); }
  }

  lemma LookupCrashes(cx: Context, k: Key, t: seq<Event>, r: LookupResult)
    requires ValidContext(cx) && LookupHeard(cx, k, t, r)
    ensures Crashes(cx, k, t) <==> r == LookupRaised
    ensures |t| >= 1 && !FindsValue(t[|t| - 1])
  {
    hide DecodeAt, LeaksAt, LookupHeard, ValidContext;
    LookupExactly(cx, k, t, r);
    assert forall i :: 2 <= i < |t| ==> t[i] == t[2..][i - 2];
    assert forall i :: 1 <= i < |t| ==> !FindsValue(t[i]);
    if r == LookupRaised { assert CrashedAt(cx, k, t, 0); }
    if Crashes(cx, k, t) {
      var i :| 0 <= i < |t| && CrashedAt(cx, k, t, i);
      assert i == 0;
    }
  }

  lemma {:induction false} WaitCrashes(cx: Context, k: Key, t: seq<Event>, polls: nat, peer: LookupResult)
    requires ValidContext(cx) && WaitHeard(cx, k, t, polls, peer)
    ensures Crashes(cx, k, t) <==> peer == LookupRaised
    ensures |t| > 0 ==> !FindsValue(t[|t| - 1])
    decreases polls
  {
    hide LookupHeard, Crashes, FindsValue, ValidContext;
    if polls == 0 {
      NothingCrashes(cx, k, t);
    } else {
      var m :| 0 <= m <= |t| && WaitHeard(cx, k, t[..m], polls - 1, Miss) && LookupHeard(cx, k, t[m..], peer);
      WaitCrashes(cx, k, t[..m], polls - 1, Miss);
      LookupCrashes(cx, k, t[m..], peer);
      CrashSplits(cx, k, t, m);
      assert t[m..][|t| - m - 1] == t[|t| - 1];
    }
  }

  lemma CoordinateCrashes(
    cx: Context, f: Flight, requested: Option<int>, o: Option<LoadOutcome>, t: seq<Event>, r: Served, tr: Trace,
    put: Option<int>)
    requires ValidContext(cx) && CoordinateHeard(cx, f, requested, o, t, r, tr, put)
    ensures o == None && !r.ServedHit? <==> Crashes(cx, f.key, t)
    ensures o == None && !r.ServedHit? ==> r == ServeRaised
  {
    hide LeasedHeard, ContendedHeard, Crashes, ValidContext;
    CrashSplits(cx, f.key, t, 1);
    NothingCrashes(cx, f.key, t[..1]);
    if t[0].o.Unavailable? {
      NothingCrashes(cx, f.key, t[1..]);
    } else if t[0].o.reply == Done {
      LeasedCrashes(cx, f, requested, o.value, t[1..], r);
    } else {
      ContendedCrashes(cx, f, requested, o, t[1..], r, tr, Back(put, 1));
    }
  }

  lemma LeasedCrashes(cx: Context, f: Flight, requested: Option<int>, o: LoadOutcome, t: seq<Event>, r: Served)
    requires LeasedHeard(cx, f, requested, o, t, r)
    ensures !Crashes(cx, f.key, t)
  {
    hide LoadHeard, ScriptHeard;
    var m :| 0 <= m <= |t| && LoadHeard(cx, f.key, requested, f.source, o, t[..m], r)
      && ScriptHeard(ReleaseScript, EvalRelease(f.lease, f.token), t[m..]);
    LoadPuts(cx, f.key, requested, f.source, o, t[..m], r);
    ReleasesOnly(f.lease, f.token, t[m..]);
    forall i | 0 <= i < |t| ensures !FindsValue(t[i]) {
      if i < m { assert t[i] == t[..m][i]; } else { assert t[i] == t[m..][i - m]; }
    }
    NothingCrashes(cx, f.key, t);
  }

  lemma ContendedCrashes(
    cx: Context, f: Flight, requested: Option<int>, o: Option<LoadOutcome>, t: seq<Event>, r: Served, tr: Trace,
    put: Option<int>)
    requires ValidContext(cx) && ContendedHeard(cx, f, requested, o, t, r, tr, put)
    ensures o == None && !r.ServedHit? <==> Crashes(cx, f.key, t)
    ensures o == None && !r.ServedHit? ==> r == ServeRaised
  {
    hide WaitHeard, LoadHeard, Crashes, ValidContext;
    var m, peer :| 0 <= m <= |t| && WaitHeard(cx, f.key, t[..m], tr.polls, peer)
      && PeerDecides(cx, f, requested, o, peer, t[m..], r) && put == (if o.Some? then Some(m) else None);
    WaitCrashes(cx, f.key, t[..m], tr.polls, peer);
    if m > 0 { assert t[..m][m - 1] == t[m - 1]; }
    CrashSplits(cx, f.key, t, m);
    if !peer.Hit? && !peer.LookupRaised? {
      LoadPuts(cx, f.key, requested, f.source, o.value, t[m..], r);
    }
    NothingCrashes(cx, f.key, t[m..]);
  }

  // --------------------------------------------------------- exceptions after a load

  /** From event `i` on the loader's value was sealed in vain, or stored and read back
      too late. */
  predicate PutFailsAt(
    cx: Context, k: Key, requested: Option<int>, source: SourceVersion, v: CacheValue, t: seq<Event>, i: int
  ) {
    && 0 <= i < |t| && t[i].Timed?
    && match SealAt(cx, k, v, requested, source, IsNegative(cx, k, v), t[i].now)
       case None => true
       case Some(s) =>
         && i + 2 < |t| && t[i + 1].Called? && t[i + 1].cmd == WriteCommand(k, s, false) && t[i + 1].o.Answered?
         && t[i + 2].Timed? && TooLate(s, t[i + 2].now)
  }

  /** The loader's value may be cached, and putting it failed at event `put`. */
  ghost predicate PopulationFails(
    cx: Context, f: Flight, requested: Option<int>, o: LoadOutcome, t: seq<Event>, put: Option<int>
  ) {
    put.Some? && !Uncached(cx, f.key, o) && PutFailsAt(cx, f.key, requested, f.source, o.value, t, put.value)
  }

  /** Exactly when a call that asked the loader still raises: the loader's value could
      not be sealed, or it was stored and had expired before it was read back. */
  lemma RaisedAfterLoad(
    cx: Context, f: Flight, leasable: bool, requested: Option<int>, o: LoadOutcome, t: seq<Event>, r: Served, tr: Trace,
    put: Option<int>)
    requires FlightHeard(cx, f, leasable, requested, Some(o), t, r, tr, put)
    ensures r == ServeRaised <==> PopulationFails(cx, f, requested, o, t, put)
  {
    hide LoadHeard, PutFailsAt, Uncached, FlightHeard;
    var n := LoadSegment(cx, f, leasable, requested, o, t, r, tr, put);
    if put.Some? { LoadFails(cx, f.key, requested, f.source, o, t, put.value, n, r); }
  }

  /** Where a load was coordinated, its events lie between `put` and the release. */
  lemma LoadSegment(
    cx: Context, f: Flight, leasable: bool, requested: Option<int>, o: LoadOutcome, t: seq<Event>, r: Served, tr: Trace,
    put: Option<int>) returns (n: int)
    requires FlightHeard(cx, f, leasable, requested, Some(o), t, r, tr, put)
    ensures put.None? ==> r == Degraded(o)
    ensures put.Some? ==>
              && 0 <= put.value <= n <= |t| && LoadHeard(cx, f.key, requested, f.source, o, t[put.value..n], r)
              && (n < |t| ==> IsRelease(t[n]))
  {
    hide LookupHeard, LoadHeard, CoordinateHeard;
    n := 0;
    var m, first :| 0 <= m <= |t| && LookupHeard(cx, f.key, t[..m], first)
      && LookupDecides(cx, f, leasable, requested, Some(o), first, t[m..], r, tr, Back(put, m));
    if first.Miss? {
      var i := CoordinateSegment(cx, f, requested, o, t[m..], r, tr, Back(put, m));
      n := m + i;
      if put.Some? {
        assert t[m..][put.value - m..i] == t[put.value..n];
        if n < |t| { assert t[m..][i] == t[n]; }
      }
    }
  }

  lemma CoordinateSegment(
    cx: Context, f: Flight, requested: Option<int>, o: LoadOutcome, t: seq<Event>, r: Served, tr: Trace, put: Option<int>)
    returns (n: int)
    requires CoordinateHeard(cx, f, requested, Some(o), t, r, tr, put)
    ensures put.None? ==> r == Degraded(o)
    ensures put.Some? ==>
              && 0 <= put.value <= n <= |t| && LoadHeard(cx, f.key, requested, f.source, o, t[put.value..n], r)
              && (n < |t| ==> IsRelease(t[n]))
  {
    hide LoadHeard, LeasedHeard, ContendedHeard, IsRelease;
    n := |t|;
    if t[0].o.Answered? && t[0].o.reply == Done {
      var i := LeasedSegment(cx, f, requested, o, t[1..], r);
      n := 1 + i;
      assert t[1..][..i] == t[1..n];
      if n < |t| { assert t[1..][i] == t[n]; }
    } else if t[0].o.Answered? {
      var i := ContendedSegment(cx, f, requested, o, t[1..], r, tr, Back(put, 1));
      assert t[1..][i..] == t[1 + i..n];
    }
  }

  lemma LeasedSegment(cx: Context, f: Flight, requested: Option<int>, o: LoadOutcome, t: seq<Event>, r: Served) returns (i: int)
    requires LeasedHeard(cx, f, requested, o, t, r)
    ensures 0 <= i <= |t| && LoadHeard(cx, f.key, requested, f.source, o, t[..i], r) && (i < |t| ==> IsRelease(t[i]))
  {
    hide LoadHeard, ScriptHeard, IsRelease;
    i :| 0 <= i <= |t| && LoadHeard(cx, f.key, requested, f.source, o, t[..i], r)
      && ScriptHeard(ReleaseScript, EvalRelease(f.lease, f.token), t[i..]);
    ReleasesOnly(f.lease, f.token, t[i..]);
    if i < |t| { assert t[i..][0] == t[i]; }
  }

  lemma ContendedSegment(
    cx: Context, f: Flight, requested: Option<int>, o: LoadOutcome, t: seq<Event>, r: Served, tr: Trace, put: Option<int>)
    returns (i: int)
    requires ContendedHeard(cx, f, requested, Some(o), t, r, tr, put)
    ensures 0 <= i <= |t| && put == Some(i) && LoadHeard(cx, f.key, requested, f.source, o, t[i..], r)
  {
    hide LoadHeard, WaitHeard;
    var m, peer :| 0 <= m <= |t| && WaitHeard(cx, f.key, t[..m], tr.polls, peer)
      && PeerDecides(cx, f, requested, Some(o), peer, t[m..], r) && put == Some(m);
    i := m;
  }

  lemma LoadFails(
    cx: Context, k: Key, requested: Option<int>, source: SourceVersion, o: LoadOutcome, t: seq<Event>, m: int, n: int, r: Served)
    requires 0 <= m <= n <= |t| && LoadHeard(cx, k, requested, source, o, t[m..n], r)
    ensures r == ServeRaised <==> !Uncached(cx, k, o) && PutFailsAt(cx, k, requested, source, o.value, t, m)
  {
    hide SealAt, IsNegative, EnvelopeFor, TooLate;
    if !Uncached(cx, k, o) {
      var p :| PutHeard(cx, k, o.value, requested, source, t[m..n], p) && r == AfterPut(o.value, p);
      assert t[m] == t[m..n][0];
      if |t[m..n]| > 1 { assert t[m + 1] == t[m..n][1]; }
      if |t[m..n]| > 2 { assert t[m + 2] == t[m..n][2]; }
    }
  }

  /** Whatever the others do, a coordinated load tries to seal and put what the loader
      returned unless the loader raised, or returned null under a policy that does not
      cache negatives. */
  lemma PutsExactly(
    cx: Context, f: Flight, leasable: bool, requested: Option<int>, o: LoadOutcome, t: seq<Event>, r: Served, tr: Trace,
    put: Option<int>)
    requires FlightHeard(cx, f, leasable, requested, Some(o), t, r, tr, put) && put.Some?
    ensures 0 <= put.value <= |t|
    ensures put.value < |t| && t[put.value].Timed? <==>
            o != LoadFailed && (o != LoadedValue(JsonValue(Null)) || cx.policyOf(f.key).negativeCaching)
  {
    hide LoadHeard, FlightHeard;
    var n := LoadSegment(cx, f, leasable, requested, o, t, r, tr, put);
    LoadBegins(cx, f.key, requested, f.source, o, t, put.value, n, r);
  }

  lemma LoadBegins(
    cx: Context, k: Key, requested: Option<int>, source: SourceVersion, o: LoadOutcome, t: seq<Event>, m: int, n: int, r: Served)
    requires 0 <= m <= n <= |t| && LoadHeard(cx, k, requested, source, o, t[m..n], r)
    requires n < |t| ==> !t[n].Timed?
    ensures m < |t| && t[m].Timed? <==> o != LoadFailed && (o != LoadedValue(JsonValue(Null)) || cx.policyOf(k).negativeCaching)
  {
    hide SealAt, IsNegative, EnvelopeFor, TooLate;
    if !Uncached(cx, k, o) {
      var p :| PutHeard(cx, k, o.value, requested, source, t[m..n], p) && r == AfterPut(o.value, p);
      assert t[m] == t[m..n][0];
    }
  }
}
