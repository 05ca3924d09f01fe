/** Scripts, leases and the optimistic increment. */
module Atomic {
  import opened Primitives
  import opened Json
  import opened Codec
  import opened Server
  import opened Runs
  import opened Protocol
  import opened Client
  import opened Reads
  import CodecTheorems
  import Counters
  import Keys

  datatype CasReply = CasReply(swapped: bool, missing: bool, corrupt: bool) | CasUnavailable

  datatype IncrementResult =
    | Incremented(envelope: Envelope)
    | Contended                      // the retry bound is exhausted
    | Rejected                       // no number to add to, or nothing to add
    | CommittedButUnreadable         // stored, then no longer decodable
    | IncrementUnavailable

  predicate IsScriptCall(script: Script, cmd: Command) {
    (script == CasScript && cmd.EvalCas?) || (script == ReleaseScript && cmd.EvalRelease?)
  }

  /** A step that leaves every entry as it is. */
  predicate Inert(st: Step) {
    Stores(st.pre, st.cmd).None? && SameContents(Post(st), st.pre)
  }

  lemma NoScriptIsInert(st: Step)
    requires ReplyTo(st) == NoScript || st.cmd.ScriptLoad?
    ensures Inert(st) && SameContents(Post(st), st.pre)
  {
  }

  lemma Alike(s: State, t: State)
    requires s == t
    ensures SameContents(s, t)
  {
  }

  lemma AlikeTwice(s: State, t: State, u: State)
    requires SameContents(s, t) && SameContents(t, u)
    ensures SameContents(s, u)
  {
  }

  lemma DecodedNumber(
    cx: Context, raw: Bytes, schema: Bytes, staleness: Option<int>, now: int)
    requires Decode(cx.platform, cx.limits.maxValueBytes, raw, schema, staleness, now).Ok?
    requires var e := Decode(cx.platform, cx.limits.maxValueBytes, raw, schema, staleness, now).value;
             e.serializer == CanonicalJson
    ensures NumberIn(cx, Raw(raw))
         == NumberOf(Decode(cx.platform, cx.limits.maxValueBytes, raw, schema, staleness, now).value.value)
    ensures SourceIn(cx, Raw(raw))
         == Some(Decode(cx.platform, cx.limits.maxValueBytes, raw, schema, staleness, now).value.source)
  {
    hide Parse, ValueOf, IsFingerprint;
  }

  /** The two states differ at most in their scripts and revisions. */
  predicate SameContents(s: State, t: State) {
    s.entries == t.entries && s.now == t.now
  }

  /** The calls behind one script: EVALSHA; after NOSCRIPT a reload; and if that was
      answered EVALSHA again. */
  predicate ScriptHeard(script: Script, cmd: Command, t: seq<Event>) {
    && 1 <= |t| <= 3 && (forall i :: 0 <= i < |t| ==> t[i].Called?)
    && t[0].cmd == cmd && (|t| == 1 <==> t[0].o != Answered(NoScript))
    && (|t| > 1 ==> t[1].cmd == ScriptLoad(script) && (|t| == 2 <==> t[1].o.Unavailable?))
    && (|t| > 2 ==> t[2].cmd == cmd)
  }

  predicate ReloadHeard(script: Script, cmd: Command, t: seq<Event>, o: Outcome) {
    && 1 <= |t| <= 2 && (forall i :: 0 <= i < |t| ==> t[i].Called?)
    && t[0].cmd == ScriptLoad(script) && (|t| == 1 <==> t[0].o.Unavailable?)
    && (|t| > 1 ==> t[1].cmd == cmd) && o == LastHeard(t)
  }

  lemma Reloads(script: Script, cmd: Command, load: Outcome, o: Outcome)
    ensures load.Unavailable? ==> ReloadHeard(script, cmd, [Called(ScriptLoad(script), load)], Unavailable)
    ensures load.Answered? ==>
              ReloadHeard(script, cmd, [Called(ScriptLoad(script), load), Called(cmd, o)],
                if o == Answered(NoScript) then Unavailable else o)
  {
  }

  /** EVALSHA, and the reload if it was needed. */
  lemma ScriptCalls(script: Script, cmd: Command, o: Outcome, t: seq<Event>, final: Outcome)
    requires if o != Answered(NoScript) then t == [] && final == o else ReloadHeard(script, cmd, t, final)
    ensures ScriptHeard(script, cmd, [Called(cmd, o)] + t) && LastHeard([Called(cmd, o)] + t) == final
  {
  }

  /** What they come to: the last answer, where a second NOSCRIPT is an engine error. */
  function LastHeard(t: seq<Event>): Outcome {
    if t == [] || !t[|t| - 1].Called? || t[|t| - 1].o == Answered(NoScript) then Unavailable else t[|t| - 1].o
  }

  function CasReplyOf(o: Outcome): CasReply {
    match o
    case Unavailable => CasUnavailable
    case Answered(reply) => CasReply(reply == Code(1), reply == Code(-1), reply == Code(-2))
  }

  lemma ReleaseContents(st: Step, before: State)
    requires st.cmd.EvalRelease? && ReplyTo(st) != NoScript && SameContents(st.pre, before)
    ensures Post(st).now == before.now
    ensures ValueIn(Contents(before), st.cmd.key) == Some(Raw(st.cmd.token)) ==>
              Contents(Post(st)) == Contents(before) - {st.cmd.key}
  {
  }

  class AtomicExecutor {
    const client: Engine
    ghost var releases: seq<(Key, Bytes)>      // every release attempt: lease key and token

    constructor (client: Engine)
      ensures this.client == client && releases == []
    {
      this.client, this.releases := client, [];
    }

    /** EVALSHA, and once more after reloading the script if the server had lost it.
        Of this actor's steps only the last can have an effect, so a reload never
        applies a script twice. */
    method EvalScript(script: Script, cmd: Command) returns (o: Outcome)
      requires client.Valid() && IsScriptCall(script, cmd)
      modifies client
      ensures client.Valid() && old(client.run) <= client.run && old(client.state.now) <= client.state.now
      ensures forall i :: |old(client.run)| <= i < |client.run| && client.run[i].actor == client.me ==>
                && (client.run[i].cmd == cmd || client.run[i].cmd == ScriptLoad(script))
                && old(client.state.now) <= client.run[i].pre.now
      ensures forall i :: |old(client.run)| <= i < |client.run| - 1 && client.run[i].actor == client.me ==>
                Inert(client.run[i])
      ensures o.Answered? ==>
                && |old(client.run)| < |client.run|
                && client.run[|client.run| - 1].actor == client.me && client.run[|client.run| - 1].cmd == cmd
                && o.reply == ReplyTo(client.run[|client.run| - 1]) && o.reply != NoScript
      ensures old(client.schedule) == [] ==>
                && client.schedule == [] && o.Answered?
                && SameContents(client.run[|client.run| - 1].pre, old(client.state))
                && client.state == Post(client.run[|client.run| - 1])
      ensures old(client.log) <= client.log
      ensures ScriptHeard(script, cmd, Since(old(client.log), client.log)) && o == LastHeard(Since(old(client.log), client.log))
    {
      hide Apply, Stores, Chained, Foreign, Inert, Post, ReplyTo, SameContents, ReloadHeard, Since, LastHeard, ScriptHeard;
      o := client.Call(cmd);
      ghost var called, heard, first := client.run, client.log, o;
      SinceOne(old(client.log), Called(cmd, o));
      if old(client.schedule) == [] {
        StepMeaning(called[|called| - 1]);
        Alike(called[|called| - 1].pre, old(client.state));
      }
      if o != Answered(NoScript) {
        ScriptCalls(script, cmd, o, [], o);
        assert [Called(cmd, o)] + [] == [Called(cmd, o)];
        return;
      }
      NoScriptIsInert(called[|called| - 1]);
      o := ReloadAndCall(script, cmd);
      SinceJoins(old(client.log), heard, client.log);
      ScriptCalls(script, cmd, first, Since(heard, client.log), o);
      assert forall i :: 0 <= i < |called| ==> client.run[i] == called[i];
      if old(client.schedule) == [] {
        AlikeTwice(client.run[|client.run| - 1].pre, Post(called[|called| - 1]), old(client.state));
      }
    }

    /** SCRIPT LOAD, then EVALSHA again. */
    method ReloadAndCall(script: Script, cmd: Command) returns (o: Outcome)
      requires client.Valid() && IsScriptCall(script, cmd)
      modifies client
      ensures client.Valid() && old(client.run) <= client.run && old(client.state.now) <= client.state.now
      ensures forall i :: |old(client.run)| <= i < |client.run| && client.run[i].actor == client.me ==>
                && (client.run[i].cmd == cmd || client.run[i].cmd == ScriptLoad(script))
                && old(client.state.now) <= client.run[i].pre.now
      ensures forall i :: |old(client.run)| <= i < |client.run| - 1 && client.run[i].actor == client.me ==>
                Inert(client.run[i])
      ensures o.Answered? ==>
                && |old(client.run)| < |client.run|
                && client.run[|client.run| - 1].actor == client.me && client.run[|client.run| - 1].cmd == cmd
                && o.reply == ReplyTo(client.run[|client.run| - 1]) && o.reply != NoScript
      ensures old(client.schedule) == [] ==>
                && client.schedule == [] && o.Answered?
                && SameContents(client.run[|client.run| - 1].pre, old(client.state))
                && client.state == Post(client.run[|client.run| - 1])
      ensures old(client.log) < client.log && ReloadHeard(script, cmd, Since(old(client.log), client.log), o)
    {
      hide Apply, Stores, Chained, Foreign, Inert, Post, ReplyTo, SameContents, ReloadHeard, Since, LastHeard;
      var load := client.Call(ScriptLoad(script));
      SinceOne(old(client.log), Called(ScriptLoad(script), load));
      if load.Unavailable? {
        Reloads(script, cmd, load, load);
        return load;
      }
      ghost var loaded := client.run;
      ghost var second := loaded[|loaded| - 1];
      NoScriptIsInert(second);
      o := client.Call(cmd);
      SinceTwo(old(client.log), Called(ScriptLoad(script), load), Called(cmd, o));
      Reloads(script, cmd, load, o);
      assert client.run[|loaded| - 1] == second;
      if old(client.schedule) == [] {
        StepMeaning(second);
        StepMeaning(client.run[|client.run| - 1]);
        LoadedRuns(second, client.run[|client.run| - 1], script, cmd);
      }
      if o == Answered(NoScript) { return Unavailable; }
    }

    method CompareAndSet(key: Key, expected: Bytes, envelope: Bytes, ttl: int) returns (r: CasReply)
      requires client.Valid()
      modifies client
      ensures client.Valid() && old(client.run) <= client.run && old(client.state.now) <= client.state.now
      ensures forall i :: |old(client.run)| <= i < |client.run| && client.run[i].actor == client.me ==>
                && (client.run[i].cmd == EvalCas(key, expected, envelope, ttl) || client.run[i].cmd == ScriptLoad(CasScript))
                && old(client.state.now) <= client.run[i].pre.now
      ensures r.CasReply? && !r.swapped ==>
                forall i :: |old(client.run)| <= i < |client.run| && client.run[i].actor == client.me ==>
                  !StoresUnder(client.run[i], key)
      ensures r.CasReply? ==>
                && |old(client.run)| < |client.run|
                && client.run[|client.run| - 1].actor == client.me
                && client.run[|client.run| - 1].cmd == EvalCas(key, expected, envelope, ttl)
                && ReplyTo(client.run[|client.run| - 1]) != NoScript
                && (r.swapped <==> ReplyTo(client.run[|client.run| - 1]) == Code(1))
                && (r.missing <==> ReplyTo(client.run[|client.run| - 1]) == Code(-1))
                && (r.corrupt <==> ReplyTo(client.run[|client.run| - 1]) == Code(-2))
      ensures old(client.schedule) == [] ==>
                && client.schedule == [] && r.CasReply?
                && SameContents(client.run[|client.run| - 1].pre, old(client.state))
                && client.state == Post(client.run[|client.run| - 1])
      ensures old(client.log) <= client.log && ScriptHeard(CasScript, EvalCas(key, expected, envelope, ttl), Since(old(client.log), client.log))
      ensures r == CasReplyOf(LastHeard(Since(old(client.log), client.log)))
    {
      hide Apply, Stores, Chained, Foreign, SameContents, ScriptHeard, LastHeard;
      var o := EvalScript(CasScript, EvalCas(key, expected, envelope, ttl));
      if o.Unavailable? { return CasUnavailable; }
      CasReplies(client.run[|client.run| - 1]);
      return CasReplyOf(o);
    }

    /** Asks the server to drop a lease this actor was granted; logged in `releases`
        whatever comes of it. */
    method ReleaseLease(cx: Context, key: Key, token: Bytes, ghost grant: int) returns (o: Outcome)
      requires client.Valid() && Keys.IsLease(key)
      requires 0 <= grant < |client.run| && client.run[grant].actor == client.me
      requires client.run[grant].cmd == SetNx(key, token, cx.flight.leaseMs) && ReplyTo(client.run[grant]) == Done
      modifies this`releases, client
      ensures client.Valid() && old(client.run) <= client.run && old(client.state.now) <= client.state.now
      ensures releases == old(releases) + [(key, token)]
      ensures forall i :: |old(client.run)| <= i < |client.run| && client.run[i].actor == client.me ==>
                client.run[i].cmd == EvalRelease(key, token) || client.run[i].cmd == ScriptLoad(ReleaseScript)
      ensures OwnDisciplined(cx, client.run, |old(client.run)|, client.me)
      ensures old(client.schedule) == [] ==>
                && client.schedule == [] && o.Answered? && client.state.now == old(client.state.now)
                && (ValueIn(Contents(old(client.state)), key) == Some(Raw(token)) ==>
                      Contents(client.state) == Contents(old(client.state)) - {key})
      ensures old(client.log) <= client.log
      ensures ScriptHeard(ReleaseScript, EvalRelease(key, token), Since(old(client.log), client.log))
      ensures o == LastHeard(Since(old(client.log), client.log))
    {
      hide Apply, Stores, Chained, Foreign, Post, ReplyTo, Keys.IsKey, Disciplined, StoresUnder, Contents, SameContents, ScriptHeard, LastHeard;
      releases := releases + [(key, token)];
      ghost var granted := client.run[grant];
      o := EvalScript(ReleaseScript, EvalRelease(key, token));
      assert client.run[grant] == granted;
      forall i | |old(client.run)| <= i < |client.run| && client.run[i].actor == client.me
        ensures Disciplined(cx, client.run, i)
      {
        ReleaseIsDisciplined(cx, client.run, grant, i, key, token);
      }
      if old(client.schedule) == [] {
        ReleaseContents(client.run[|client.run| - 1], old(client.state));
      }
    }

    /** SET NX PX: granted exactly when the key was absent and now holds the token. */
    method AcquireLease(key: Key, token: Bytes, leaseMs: int) returns (o: Outcome)
      requires client.Valid()
      modifies client
      ensures client.Valid() && old(client.run) <= client.run && old(client.state.now) <= client.state.now
      ensures forall i :: |old(client.run)| <= i < |client.run| && client.run[i].actor == client.me ==>
                && i == |client.run| - 1 && client.run[i].cmd == SetNx(key, token, leaseMs)
                && old(client.state.now) <= client.run[i].pre.now
      ensures o.Answered? ==>
                && |old(client.run)| < |client.run| && client.run[|client.run| - 1].actor == client.me
                && o.reply == ReplyTo(client.run[|client.run| - 1])
                && (o.reply == Done <==> StoresUnder(client.run[|client.run| - 1], key))
                && (o.reply != Done ==> Post(client.run[|client.run| - 1]) == client.run[|client.run| - 1].pre)
      ensures old(client.schedule) == [] ==>
                && client.schedule == [] && o.Answered?
                && client.run[|client.run| - 1].pre == old(client.state) && client.state == Post(client.run[|client.run| - 1])
      ensures client.log == old(client.log) + [Called(SetNx(key, token, leaseMs), o)]
      ensures Head(old(client.schedule)).fault == Healthy
              && key !in After(old(client.state), Head(old(client.schedule)).burst).entries ==>
                && o == Answered(Done)
                && client.run[|client.run| - 1].pre == After(old(client.state), Head(old(client.schedule)).burst)
    {
      o := client.Call(SetNx(key, token, leaseMs));
    }

    /** The bounded WATCH, GET, MULTI, SET, EXEC loop.  Whatever the interleaving,
        a call commits at most once and after at most `retries` attempts; it reports
        contention only when it has written nothing. */
    method Increment(
      cx: Context, key: Key, amount: Json, schema: Bytes, ttl: int, staleness: Option<int>, retries: nat
    ) returns (r: IncrementResult, ghost attempts: seq<nat>, ghost pass: nat)
      requires client.Valid() && Keys.IsData(key)
      modifies client
      ensures client.Valid() && old(client.run) <= client.run
      ensures forall i :: |old(client.run)| <= i < |client.run| && client.run[i].actor == client.me ==>
                Disciplined(cx, client.run, i)
      // attempts lists this actor's EXEC steps in order
      ensures |attempts| <= retries
      ensures forall i :: |old(client.run)| <= i < |client.run| && client.run[i].actor == client.me ==>
                (client.run[i].cmd.Watch? || client.run[i].cmd.Get? || (client.run[i].cmd.Exec? && i in attempts))
      ensures forall n :: 0 <= n < |attempts| ==>
                && |old(client.run)| <= attempts[n] < |client.run|
                && IncrementCommand(client.run[attempts[n]].cmd, key, amount, ttl)
                && (n < |attempts| - 1 ==> !Counters.Commits(client.run[attempts[n]], key))
      ensures r.Incremented? || r.CommittedButUnreadable? ==>
                attempts != [] && Counters.Commits(client.run[attempts[|attempts| - 1]], key)
      ensures r.Incremented? ==>
                ReadsAs(cx, client.run[attempts[|attempts| - 1]].cmd.value, schema, staleness, r.envelope)
      ensures r.Contended? || r.Rejected? ==>
                forall n :: 0 <= n < |attempts| ==> !Counters.Commits(client.run[attempts[n]], key)
      ensures !IsNumber(amount) ==> r.Rejected?
      // contention means that the retries are used up, and any other answer is that of
      // the last pass, whose events begin at `pass`
      ensures r.Contended? ==> |attempts| == retries
      ensures old(client.log) <= client.log
      ensures IsNumber(amount) && !r.Contended? ==>
                |old(client.log)| <= pass <= |client.log|
                && PassHeard(cx, key, amount, schema, ttl, staleness, client.log[pass..], Some(r))
      ensures old(client.schedule) == [] && retries > 0 && IsNumber(amount) ==>
                && client.schedule == [] && client.state.now == old(client.state.now)
                && IncrementAlone(cx, key, amount, schema, ttl, staleness, r,
                     Contents(old(client.state)), Contents(client.state), client.state.now)
    {
      hide Apply, Post, ReplyTo, Stores, DecodeAt, EncodeIn, NumberIn, NumberOf, Keys.IsKey, Codec.Encode, Codec.Decode, Disciplined,
        IncrementCommand, IncrementAlone, Contents, PassHeard;
      attempts, pass := [], 0;
      if !IsNumber(amount) { return Rejected, attempts, pass; }
      for n := 0 to retries
        invariant client.Valid() && old(client.run) <= client.run
        invariant |attempts| == n && old(client.log) <= client.log && (n > 0 ==> old(client.schedule) != [])
        invariant n == 0 ==> client.state == old(client.state) && client.schedule == old(client.schedule)
        invariant forall i :: |old(client.run)| <= i < |client.run| && client.run[i].actor == client.me ==>
                    Disciplined(cx, client.run, i)
        invariant forall i :: |old(client.run)| <= i < |client.run| && client.run[i].actor == client.me ==>
                    (client.run[i].cmd.Watch? || client.run[i].cmd.Get? || (client.run[i].cmd.Exec? && i in attempts))
        invariant forall m :: 0 <= m < |attempts| ==>
                    && |old(client.run)| <= attempts[m] < |client.run|
                    && IncrementCommand(client.run[attempts[m]].cmd, key, amount, ttl)
                    && !Counters.Commits(client.run[attempts[m]], key)
      {
        ghost var before, heard := client.run, client.log;
        var a, ok := IncrementOnce(cx, key, amount, schema, ttl, staleness);
        forall i | 0 <= i < |before| && i >= |old(client.run)| && before[i].actor == client.me
          ensures Disciplined(cx, client.run, i)
        {
          DisciplinedPrefix(cx, before, client.run, i);
        }
        if ok >= 0 {
          attempts := attempts + [ok];
        }
        if a.Some? {
          pass := |heard|;
          return a.value, attempts, pass;
        }
      }
      return Contended, attempts, pass;
    }

    /** One pass of the loop: None when EXEC lost the race, otherwise the call's result. */
    method IncrementOnce(
      cx: Context, key: Key, amount: Json, schema: Bytes, ttl: int, staleness: Option<int>
    ) returns (r: Option<IncrementResult>, ghost exec: int)
      requires client.Valid() && Keys.IsData(key) && IsNumber(amount)
      modifies client
      ensures client.Valid() && old(client.run) <= client.run
      ensures OneAttempt(cx, client.run, |old(client.run)|, client.me, exec)
      ensures exec >= 0 ==> IncrementCommand(client.run[exec].cmd, key, amount, ttl)
      ensures r == None ==> exec >= 0 && !Counters.Commits(client.run[exec], key)
      ensures r.Some? && (r.value.Incremented? || r.value.CommittedButUnreadable?) ==>
                exec >= 0 && Counters.Commits(client.run[exec], key)
      ensures r.Some? && r.value.Incremented? ==>
                ReadsAs(cx, client.run[exec].cmd.value, schema, staleness, r.value.envelope)
      ensures r.Some? && r.value.Rejected? ==> exec == -1
      ensures r.Some? ==> !r.value.Contended?
      ensures old(client.log) <= client.log
      ensures PassHeard(cx, key, amount, schema, ttl, staleness, Since(old(client.log), client.log), r)
      ensures old(client.schedule) == [] ==>
                && client.schedule == [] && client.state.now == old(client.state.now) && r.Some?
                && IncrementAlone(cx, key, amount, schema, ttl, staleness, r.value,
                     Contents(old(client.state)), Contents(client.state), client.state.now)
    {
      hide Apply, Post, ReplyTo, EncodeIn, Keys.IsKey, Codec.Decode, Disciplined, OneAttempt, ReadyToCommit, Chained, Foreign,
        Contents, RevisionOf, ReadAlone, SumAt, Counters.Commits, NumberOf, IncrementAlone, Since, PrepareHeard, PassHeard;
      exec := -1;
      var p, w, g := Prepare(cx, key, amount, schema, ttl, staleness);
      ghost var ready, heard := client.run, client.log;
      if p.Failed? {
        NoPassWasHeard(cx, key, amount, schema, ttl, staleness, Since(old(client.log), heard), p.result);
        ReadsAreDisciplined(cx, client.run, |old(client.run)|, client.me, -1);
        if old(client.schedule) == [] {
          RejectedAlone(cx, old(client.state), client.state, key, amount, schema, ttl, staleness);
        }
        return Some(p.result), exec;
      }
      r, exec := Commit(cx, p.cmd, schema, staleness);
      SinceJoins(old(client.log), heard, client.log);
      PassWasHeard(cx, key, amount, schema, ttl, staleness, Since(old(client.log), heard), p, Since(heard, client.log), r);
      if exec >= 0 {
        assert client.run[w] == ready[w] && client.run[g] == ready[g];
        CommitIsDisciplined(cx, client.run, w, g, exec, p.spec, p.raw);
      }
      ReadsAreDisciplined(cx, client.run, |old(client.run)|, client.me, exec);
      if old(client.schedule) == [] {
        CommittedAlone(cx, old(client.state), client.run[exec], key, amount, schema, ttl, staleness);
      }
    }

    /** EXEC, and what it stored read back. */
    method Commit(cx: Context, cmd: Command, schema: Bytes, staleness: Option<int>)
      returns (r: Option<IncrementResult>, ghost exec: int)
      requires client.Valid() && cmd.Exec?
      modifies client
      ensures client.Valid() && old(client.run) <= client.run
      ensures exec == -1 || (|old(client.run)| <= exec < |client.run| && client.run[exec].actor == client.me
                             && client.run[exec].cmd == cmd && old(client.state.now) <= client.run[exec].pre.now)
      ensures forall i :: |old(client.run)| <= i < |client.run| && client.run[i].actor == client.me ==> i == exec
      ensures r == None ==> exec >= 0 && !Counters.Commits(client.run[exec], cmd.key)
      ensures r.Some? && !r.value.IncrementUnavailable? ==>
                && exec >= 0 && Counters.Commits(client.run[exec], cmd.key)
                && (r.value.Incremented? || r.value.CommittedButUnreadable?)
                && (r.value.Incremented? ==> ReadsAs(cx, cmd.value, schema, staleness, r.value.envelope))
      ensures old(client.log) <= client.log && CommitHeard(cx, cmd, schema, staleness, Since(old(client.log), client.log), r)
      ensures old(client.schedule) == [] ==>
                && client.schedule == [] && exec >= 0 && client.run[exec].pre == old(client.state)
                && client.state == Post(client.run[exec])
                && (ReplyTo(client.run[exec]) == Done ==> r == Some(RereadAt(cx, cmd.value, schema, staleness, client.state.now)))
    {
      hide Apply, Post, ReplyTo, Codec.Decode, Chained, Foreign, Counters.Commits, Since;
      var o := client.Call(cmd);
      ghost var sent, last := client.log, |client.run| - 1;
      exec := if last >= |old(client.run)| && client.run[last].actor == client.me then last else -1;
      SinceOne(old(client.log), Called(cmd, o));
      if o.Answered? {
        ExecReplies(client.run[last]);
        StepMeaning(client.run[last]);
      }
      if o != Answered(Done) { return if o.Unavailable? then Some(IncrementUnavailable) else None, exec; }
      var now := client.Clock();
      SinceTwo(old(client.log), Called(cmd, o), Timed(now));
      r := Some(RereadAt(cx, cmd.value, schema, staleness, now));
    }

    /** Reads the number and encodes the sum that EXEC is to store. */
    method Prepare(
      cx: Context, key: Key, amount: Json, schema: Bytes, ttl: int, staleness: Option<int>
    ) returns (r: Prepared, ghost w: int, ghost g: int)
      requires client.Valid() && Keys.IsData(key) && IsNumber(amount)
      modifies client
      ensures client.Valid() && old(client.run) <= client.run
      ensures forall i :: |old(client.run)| <= i < |client.run| && client.run[i].actor == client.me ==>
                client.run[i].cmd.Watch? || client.run[i].cmd.Get?
      ensures r.Failed? ==> r.result == Rejected || r.result == IncrementUnavailable
      ensures r.Prepared? ==>
                && |old(client.run)| <= w < g < |client.run|
                && client.run[w].actor == client.run[g].actor == client.me
                && r.cmd.Exec? && r.cmd.key == key && r.cmd.px == ttl
                && Some(r.cmd.amount) == NumberOf(JsonValue(amount)) && r.spec.created <= client.state.now
                && ReadyToCommit(cx, client.run[w], client.run[g], r.cmd, r.spec, r.raw)
      ensures old(client.schedule) == [] ==>
                && client.schedule == [] && ReadAlone(old(client.state), client.state, key)
                && (r.Failed? ==> r.result == Rejected)
                && (match SumAt(cx, ValueIn(Contents(old(client.state)), key), amount, schema, ttl, staleness, client.state.now)
                    case None => r.Failed?
                    case Some(bytes) => r.Prepared? && r.cmd.value == bytes && r.cmd.revision == RevisionOf(client.state, key))
      ensures old(client.log) <= client.log
      ensures PrepareHeard(cx, key, amount, schema, ttl, staleness, Since(old(client.log), client.log), r)
    {
      hide Apply, Post, ReplyTo, EncodeIn, NumberIn, SourceIn, Keys.IsKey, Plus, NumberOf, Chained, Foreign, Contents, ReadAlone,
        RevisionOf, NumberAt, Since, ReadHeard, PrepareHeard;
      var watched;
      watched, w, g := ReadWatched(cx, key, schema, staleness);
      ghost var heard := client.log;
      if watched.NotWatched? {
        NoSumWasHeard(cx, key, amount, schema, ttl, staleness, Since(old(client.log), heard), watched.result);
        return Failed(watched.result), w, g;
      }
      ghost var reading := client.run;
      var created := client.Clock();
      assert client.run[w] == reading[w] && client.run[g] == reading[g];
      var spec := Spec(JsonValue(Plus(watched.number, amount)), CanonicalJson, schema, ttl, watched.source, created);
      var envelope := EncodeIn(cx, spec);
      SinceJoins(old(client.log), heard, client.log);
      SinceOne(heard, Timed(created));
      if envelope.Err? {
        SumWasHeard(cx, key, amount, schema, ttl, staleness, Since(old(client.log), heard), watched, created, Failed(Rejected));
        return Failed(Rejected), w, g;
      }
      PlusAdds(watched.number, amount);
      NumbersHaveValues(watched.number);
      NumbersHaveValues(amount);
      var cmd := Exec(key, watched.revision, envelope.value, ttl, NumberOf(JsonValue(amount)).value);
      r := Prepared(cmd, spec, watched.raw);
      SumWasHeard(cx, key, amount, schema, ttl, staleness, Since(old(client.log), heard), watched, created, r);
    }

    /** WATCH, then GET and decode the number. */
    method ReadWatched(cx: Context, key: Key, schema: Bytes, staleness: Option<int>)
      returns (r: Watched, ghost w: int, ghost g: int)
      requires client.Valid()
      modifies client
      ensures client.Valid() && old(client.run) <= client.run
      ensures forall i :: |old(client.run)| <= i < |client.run| && client.run[i].actor == client.me ==>
                client.run[i].cmd.Watch? || client.run[i].cmd.Get?
      ensures r.NotWatched? ==> r.result == Rejected || r.result == IncrementUnavailable
      ensures r.Watched? ==>
                && |old(client.run)| <= w < g < |client.run|
                && client.run[w].actor == client.run[g].actor == client.me
                && ReadNumber(cx, client.run[w], client.run[g], key, r)
      ensures old(client.schedule) == [] ==>
                && client.schedule == [] && ReadAlone(old(client.state), client.state, key)
                && (match NumberAt(cx, ValueIn(Contents(old(client.state)), key), schema, staleness, client.state.now)
                    case None => r == NotWatched(Rejected)
                    case Some(e) => r.Watched? && r.number == e.value.json && r.source == e.source
                                    && r.revision == RevisionOf(client.state, key))
      ensures old(client.log) <= client.log && ReadHeard(cx, key, schema, staleness, Since(old(client.log), client.log), r)
    {
      hide Apply, Post, ReplyTo, NumberIn, SourceIn, NumberOf, Codec.Decode, Chained, Foreign, Contents, ReadAlone, RevisionOf,
        Since, WatchHeard, ReadHeard;
      var seen;
      seen, w, g := WatchAndGet(key);
      ghost var heard := client.log;
      if !(seen.Some? && seen.value.reply.Found? && seen.value.reply.value.Raw?) {
        NoNumberWasHeard(cx, key, schema, staleness, Since(old(client.log), heard), seen);
      }
      if seen.None? { return NotWatched(IncrementUnavailable), w, g; }
      ghost var read := client.run;
      var reply := seen.value.reply;
      if !(reply.Found? && reply.value.Raw?) { return NotWatched(Rejected), w, g; }
      var raw := reply.value.bytes;
      var now := client.Clock();
      assert client.run[w] == read[w] && client.run[g] == read[g];
      WatchAnswers(key, Since(old(client.log), heard), seen.value);
      SinceJoins(old(client.log), heard, client.log);
      SinceOne(heard, Timed(now));
      var number := NumberAt(cx, Some(reply.value), schema, staleness, now);
      r := if number.None? then NotWatched(Rejected)
           else Watched(seen.value.revision, raw, number.value.value.json, number.value.source);
      NumberWasHeard(cx, key, schema, staleness, seen.value, now, r);
      if number.Some? { DecodedNumber(cx, raw, schema, staleness, now); }
    }

    method WatchAndGet(key: Key) returns (r: Option<Watching>, ghost w: int, ghost g: int)
      requires client.Valid()
      modifies client
      ensures client.Valid() && old(client.run) <= client.run
      ensures forall i :: |old(client.run)| <= i < |client.run| && client.run[i].actor == client.me ==>
                client.run[i].cmd.Watch? || client.run[i].cmd.Get?
      ensures r.Some? ==>
                && |old(client.run)| <= w < g < |client.run|
                && client.run[w].actor == client.run[g].actor == client.me
                && client.run[w].cmd == Watch(key) && ReplyTo(client.run[w]) == Revision(r.value.revision)
                && client.run[g].cmd == Get(key) && ReplyTo(client.run[g]) == r.value.reply
      ensures old(client.schedule) == [] ==>
                && client.schedule == [] && ReadAlone(old(client.state), client.state, key)
                && r == Some(Watching(RevisionOf(client.state, key),
                     match ValueIn(Contents(old(client.state)), key) case None => Nil case Some(v) => Found(v)))
      ensures old(client.log) <= client.log && WatchHeard(key, Since(old(client.log), client.log), r)
    {
      hide Apply, Post, ReplyTo, Chained, Foreign, Contents, ReadAlone, RevisionOf, Since;
      w, g := -1, -1;
      var o := client.Call(Watch(key));
      SinceOne(old(client.log), Called(Watch(key), o));
      if o.Unavailable? { return None, w, g; }
      w := |client.run| - 1;
      ghost var watch := client.run[w];
      WatchReplies(watch);
      var revision := o.reply.revision;
      ghost var first := o;
      o := client.Call(Get(key));
      SinceTwo(old(client.log), Called(Watch(key), first), Called(Get(key), o));
      if o.Unavailable? { return None, w, g; }
      g := |client.run| - 1;
      assert client.run[w] == watch;
      if old(client.schedule) == [] {
        StepMeaning(watch);
        StepMeaning(client.run[g]);
        WatchThenGet(watch, client.run[g], key);
      }
      return Some(Watching(revision, o.reply)), w, g;
    }
  }

  /** The answers to WATCH and GET. */
  datatype Watching = Watching(revision: nat, reply: Reply)

  /** What an increment knows after reading. */
  datatype Watched =
    | Watched(revision: nat, raw: Bytes, number: Json, source: SourceVersion)
    | NotWatched(result: IncrementResult)

  datatype Prepared = Prepared(cmd: Command, spec: Spec, raw: Bytes) | Failed(result: IncrementResult)

  /** The envelope an increment can add to, if the value is one. */
  function NumberAt(cx: Context, v: Option<Value>, schema: Bytes, staleness: Option<int>, now: int): (r: Option<Envelope>)
    ensures r.Some? ==> r.value.value.JsonValue? && IsNumber(r.value.value.json)
  {
    if v.None? || v.value.Alien? then None
    else
      match Codec.Decode(cx.platform, cx.limits.maxValueBytes, v.value.bytes, schema, staleness, now)
      case Err(_) => None
      case Ok(e) => if e.serializer != CanonicalJson || NumberOf(e.value).None? then None else Some(e)
  }

  /** Exactly which stored values can be added to: bytes that decode under the caller's
      schema and bound to a canonical JSON integer or fraction. */
  lemma NumberAtExactly(cx: Context, v: Option<Value>, schema: Bytes, staleness: Option<int>, now: int, e: Envelope)
    ensures NumberAt(cx, v, schema, staleness, now) == Some(e) <==>
            && v.Some? && v.value.Raw?
            && Codec.Decode(cx.platform, cx.limits.maxValueBytes, v.value.bytes, schema, staleness, now) == Ok(e)
            && e.serializer == CanonicalJson && e.value.JsonValue? && (e.value.json.Int? || e.value.json.Real?)
  {
    hide Codec.Decode;
  }

  /** Two integers add up to an integer, and a fraction makes the sum one. */
  predicate AddsUp(a: Json, b: Json, sum: Json) {
    && (a.Int? && b.Int? ==> sum == Int(a.n + b.n))
    && (a.Int? && b.Real? ==> sum == Real(a.n as real + b.r))
    && (a.Real? && b.Int? ==> sum == Real(a.r + b.n as real))
    && (a.Real? && b.Real? ==> sum == Real(a.r + b.r))
  }

  /** The bytes an increment of that value stores; None where it raises. */
  function SumAt(cx: Context, v: Option<Value>, amount: Json, schema: Bytes, ttl: int, staleness: Option<int>, now: int): Option<Bytes>
    requires IsNumber(amount)
  {
    match NumberAt(cx, v, schema, staleness, now)
    case None => None
    case Some(e) =>
      match EncodeIn(cx, Spec(JsonValue(Plus(e.value.json, amount)), CanonicalJson, schema, ttl, e.source, now))
      case Err(_) => None
      case Ok(bytes) => Some(bytes)
  }

  /** An increment with nobody else around: it commits on the first attempt exactly when
      there is a number to add to and the sum can be stored, and changes no other key. */
  ghost predicate IncrementAlone(
    cx: Context, k: Key, amount: Json, schema: Bytes, ttl: int, staleness: Option<int>, r: IncrementResult,
    before: map<Key, Entry>, after: map<Key, Entry>, now: int)
    requires IsNumber(amount)
  {
    match SumAt(cx, ValueIn(before, k), amount, schema, ttl, staleness, now)
    case None => r == Rejected && after == before
    case Some(bytes) =>
      && after == before[k := Entry(Raw(bytes), now + ttl)]
      && r == RereadAt(cx, bytes, schema, staleness, now)
  }

  /** So with nobody else around, an increment of any stored number that is within both
      bounds succeeds whenever the sum can be encoded: it stores and returns the sum,
      under the schema and source version of what was there. */
  lemma IncrementSucceeds(
    cx: Context, k: Key, spec: Spec, amount: Json, sum: Json, ttl: int, staleness: Option<int>, r: IncrementResult,
    before: map<Key, Entry>, after: map<Key, Entry>, now: int)
    requires Lawful(cx.platform) && EncodeIn(cx, spec).Ok? && spec.serializer == CanonicalJson
    requires spec.value.JsonValue? && (spec.value.json.Int? || spec.value.json.Real?) && (amount.Int? || amount.Real?)
    requires AddsUp(spec.value.json, amount, sum)
    requires k in before && before[k].value == Raw(EncodeIn(cx, spec).value) && now < spec.created + spec.ttl
    requires staleness.Some? ==> 0 < staleness.value && now < spec.created + staleness.value
    requires EncodeIn(cx, Spec(JsonValue(sum), CanonicalJson, spec.schema, ttl, spec.source, now)).Ok?
    requires IncrementAlone(cx, k, amount, spec.schema, ttl, staleness, r, before, after, now)
    ensures r.Incremented? && r.envelope.value == JsonValue(sum) && r.envelope.source == spec.source
    ensures r.envelope.created == now && r.envelope.expires == now + ttl && r.envelope.schema == spec.schema
    ensures EncodeIn(cx, CodecTheorems.SpecOf(r.envelope)).Ok?
    ensures k in after && after[k].value == Raw(EncodeIn(cx, CodecTheorems.SpecOf(r.envelope)).value) && after - {k} == before - {k}
  {
    hide Codec.Encode, Codec.Decode, PayloadOf, ExtractVersion, Lawful, IsFingerprint;
    var raw, next := EncodeIn(cx, spec).value, Spec(JsonValue(sum), CanonicalJson, spec.schema, ttl, spec.source, now);
    var payload, version := CodecTheorems.RoundTrip(cx.platform, cx.limits.maxValueBytes, spec, spec.schema, staleness, now);
    CodecTheorems.EncodedSchema(cx.platform, cx.limits.maxValueBytes, spec);
    CodecTheorems.EncodedSchema(cx.platform, cx.limits.maxValueBytes, next);
    var e := Codec.Decode(cx.platform, cx.limits.maxValueBytes, raw, spec.schema, staleness, now).value;
    NumberAtExactly(cx, Some(Raw(raw)), spec.schema, staleness, now, e);
    var payload2, version2 := CodecTheorems.RoundTrip(cx.platform, cx.limits.maxValueBytes, next, spec.schema, staleness, now);
  }

  /** Reading alone changes nothing a reader can see, and leaves no expired entry. */
  predicate ReadAlone(s: State, t: State, k: Key) {
    t.now == s.now && Contents(t) == Contents(s) && Swept(t, k) == t
  }

  /** WATCH and GET with nobody in between. */
  lemma WatchThenGet(watch: Step, read: Step, k: Key)
    requires watch.cmd == Watch(k) && read.cmd == Get(k) && read.pre == Post(watch)
    ensures ReadAlone(watch.pre, Post(read), k) && ReplyTo(watch) == Revision(RevisionOf(Post(read), k))
    ensures ReplyTo(read) == match ValueIn(Contents(watch.pre), k) case None => Nil case Some(v) => Found(v)
  {
  }

  lemma SumIsPositive(
    cx: Context, v: Option<Value>, amount: Json, schema: Bytes, ttl: int, staleness: Option<int>, now: int)
    requires IsNumber(amount) && SumAt(cx, v, amount, schema, ttl, staleness, now).Some?
    ensures ttl > 0
  {
    hide NumberAt, PayloadOf, BaseFields, Framed, IsFingerprint;
  }

  /** EXEC against the revision of its own state commits. */
  lemma ExecAlone(st: Step, k: Key)
    requires st.cmd.Exec? && st.cmd.key == k && Swept(st.pre, k) == st.pre && st.cmd.px > 0
    requires st.cmd.revision == RevisionOf(st.pre, k)
    ensures ReplyTo(st) == Done && Post(st).now == st.pre.now
    ensures Contents(Post(st)) == Contents(st.pre)[k := Entry(Raw(st.cmd.value), st.pre.now + st.cmd.px)]
  {
  }

  lemma CommittedAlone(
    cx: Context, before: State, st: Step, k: Key, amount: Json, schema: Bytes, ttl: int, staleness: Option<int>)
    requires IsNumber(amount) && ReadAlone(before, st.pre, k)
    requires st.cmd.Exec? && st.cmd.key == k && st.cmd.px == ttl && st.cmd.revision == RevisionOf(st.pre, k)
    requires SumAt(cx, ValueIn(Contents(before), k), amount, schema, ttl, staleness, st.pre.now) == Some(st.cmd.value)
    ensures ReplyTo(st) == Done && Post(st).now == before.now
    ensures IncrementAlone(cx, k, amount, schema, ttl, staleness, RereadAt(cx, st.cmd.value, schema, staleness, before.now),
              Contents(before), Contents(Post(st)), before.now)
  {
    hide Post, ReplyTo, Contents, SumAt, Codec.Decode;
    SumIsPositive(cx, ValueIn(Contents(before), k), amount, schema, ttl, staleness, st.pre.now);
    ExecAlone(st, k);
  }

  lemma RejectedAlone(
    cx: Context, before: State, after: State, k: Key, amount: Json, schema: Bytes, ttl: int, staleness: Option<int>)
    requires IsNumber(amount) && ReadAlone(before, after, k)
    requires SumAt(cx, ValueIn(Contents(before), k), amount, schema, ttl, staleness, after.now).None?
    ensures after.now == before.now
    ensures IncrementAlone(cx, k, amount, schema, ttl, staleness, Rejected, Contents(before), Contents(after), after.now)
  {
    hide Contents, SumAt, Codec.Decode;
  }

  predicate ReadNumber(cx: Context, watch: Step, read: Step, key: Key, r: Watched)
    requires r.Watched?
  {
    && watch.cmd == Watch(key) && ReplyTo(watch) == Revision(r.revision)
    && read.cmd == Get(key) && ReplyTo(read) == Found(Raw(r.raw))
    && IsNumber(r.number) && NumberIn(cx, Raw(r.raw)) == NumberOf(JsonValue(r.number))
    && SourceIn(cx, Raw(r.raw)) == Some(r.source)
  }

  /** Everything of ExecClaim that is known before the EXEC itself. */
  predicate ReadyToCommit(cx: Context, watch: Step, read: Step, cmd: Command, spec: Spec, raw: Bytes)
    requires cmd.Exec?
  {
    && spec.ttl == cmd.px && SourceIn(cx, Raw(raw)) == Some(spec.source)
    && Keys.IsData(cmd.key)
    && watch.cmd == Watch(cmd.key) && ReplyTo(watch) == Revision(cmd.revision)
    && read.cmd == Get(cmd.key) && ReplyTo(read) == Found(Raw(raw))
    && NumberIn(cx, Raw(raw)).Some? && EncodeIn(cx, spec) == Ok(cmd.value) && spec.serializer == CanonicalJson
    && NumberOf(spec.value) == Some(NumberIn(cx, Raw(raw)).value + cmd.amount)
  }

  // ------------------------------------------------------ what an increment heard

  predicate WatchHeard(k: Key, t: seq<Event>, w: Option<Watching>) {
    match w
    case None =>
      || t == [Called(Watch(k), Unavailable)]
      || (|t| == 2 && t[0].Called? && t[0].cmd == Watch(k) && t[0].o.Answered? && t[1] == Called(Get(k), Unavailable))
    case Some(Watching(revision, reply)) =>
      t == [Called(Watch(k), Answered(Revision(revision))), Called(Get(k), Answered(reply))]
  }

  /** Nothing readable, or the number that one clock reading found in the answer. */
  predicate ReadHeard(cx: Context, k: Key, schema: Bytes, staleness: Option<int>, t: seq<Event>, r: Watched) {
    if |t| == 3 then
      && t[0].Called? && t[0].o.Answered? && t[0].o.reply.Revision?
      && t[1].Called? && t[1].o.Answered? && t[1].o.reply.Found? && t[1].o.reply.value.Raw?
      && t[2].Timed? && WatchHeard(k, t[..2], Some(Watching(t[0].o.reply.revision, t[1].o.reply)))
      && r == match NumberAt(cx, Some(t[1].o.reply.value), schema, staleness, t[2].now)
              case None => NotWatched(Rejected)
              case Some(e) => Watched(t[0].o.reply.revision, t[1].o.reply.value.bytes, e.value.json, e.source)
    else if WatchHeard(k, t, None) then r == NotWatched(IncrementUnavailable)
    else
      && |t| == 2 && t[0].Called? && t[0].o.Answered? && t[0].o.reply.Revision? && t[1].Called? && t[1].o.Answered?
      && WatchHeard(k, t, Some(Watching(t[0].o.reply.revision, t[1].o.reply)))
      && !(t[1].o.reply.Found? && t[1].o.reply.value.Raw?) && r == NotWatched(Rejected)
  }

  /** Nothing to add to, or a sum stamped with the next clock reading that can be
      encoded or not. */
  ghost predicate PrepareHeard(
    cx: Context, k: Key, amount: Json, schema: Bytes, ttl: int, staleness: Option<int>, t: seq<Event>, r: Prepared)
    requires IsNumber(amount)
  {
    if |t| == 4 then
      t[3].Timed? && exists w: Watched ::
        && w.Watched? && IsNumber(w.number) && ReadHeard(cx, k, schema, staleness, t[..3], w)
        && match EncodeIn(cx, Spec(JsonValue(Plus(w.number, amount)), CanonicalJson, schema, ttl, w.source, t[3].now))
           case Err(_) => r == Failed(Rejected)
           case Ok(bytes) =>
             r.Prepared? && r.cmd == Exec(k, w.revision, bytes, ttl, NumberOf(JsonValue(amount)).value)
    else r.Failed? && ReadHeard(cx, k, schema, staleness, t, NotWatched(r.result))
  }

  /** EXEC refused, unanswered, or acknowledged and read back. */
  predicate CommitHeard(
    cx: Context, cmd: Command, schema: Bytes, staleness: Option<int>, t: seq<Event>, r: Option<IncrementResult>)
    requires cmd.Exec?
  {
    && 1 <= |t| <= 2 && t[0].Called? && t[0].cmd == cmd
    && (match t[0].o
        case Unavailable => |t| == 1 && r == Some(IncrementUnavailable)
        case Answered(reply) =>
          if reply != Done then |t| == 1 && r == None
          else |t| == 2 && t[1].Timed? && r == Some(RereadAt(cx, cmd.value, schema, staleness, t[1].now)))
  }

  /** One pass of the loop: why it ended where it did. */
  ghost predicate PassHeard(
    cx: Context, k: Key, amount: Json, schema: Bytes, ttl: int, staleness: Option<int>, t: seq<Event>,
    r: Option<IncrementResult>)
    requires IsNumber(amount)
  {
    if |t| <= 4 then r.Some? && PrepareHeard(cx, k, amount, schema, ttl, staleness, t, Failed(r.value))
    else exists p: Prepared ::
      && p.Prepared? && p.cmd.Exec? && PrepareHeard(cx, k, amount, schema, ttl, staleness, t[..4], p)
      && CommitHeard(cx, p.cmd, schema, staleness, t[4..], r)
  }

  /** A committed increment decodes what it stored. */
  function RereadAt(cx: Context, bytes: Bytes, schema: Bytes, staleness: Option<int>, now: int): IncrementResult {
    match Codec.Decode(cx.platform, cx.limits.maxValueBytes, bytes, schema, staleness, now)
    case Ok(e) => Incremented(e)
    case Err(_) => CommittedButUnreadable
  }

  /** Exactly when a committed increment can no longer be read back: its own expiry or the
      caller's staleness bound has been reached, or that bound is not positive. */
  lemma RereadFailsExactly(cx: Context, spec: Spec, staleness: Option<int>, now: int)
    requires Lawful(cx.platform) && EncodeIn(cx, spec).Ok?
    ensures RereadAt(cx, EncodeIn(cx, spec).value, spec.schema, staleness, now) == CommittedButUnreadable <==>
            || spec.created + spec.ttl <= now
            || (staleness.Some? && (staleness.value <= 0 || spec.created + staleness.value <= now))
  {
    hide Codec.Decode, PayloadOf, ExtractVersion, BaseFields, Framed, Lawful;
    var payload, version := CodecTheorems.RoundTrip(
      cx.platform, cx.limits.maxValueBytes, spec, spec.schema, staleness, now);
  }

  lemma WatchAnswers(k: Key, t: seq<Event>, w: Watching)
    requires WatchHeard(k, t, Some(w))
    ensures t == [Called(Watch(k), Answered(Revision(w.revision))), Called(Get(k), Answered(w.reply))]
  {
  }

  lemma NumberWasHeard(cx: Context, k: Key, schema: Bytes, staleness: Option<int>, w: Watching, now: int, r: Watched)
    requires w.reply.Found? && w.reply.value.Raw?
    requires r == match NumberAt(cx, Some(w.reply.value), schema, staleness, now)
                  case None => NotWatched(Rejected)
                  case Some(e) => Watched(w.revision, w.reply.value.bytes, e.value.json, e.source)
    ensures ReadHeard(cx, k, schema, staleness,
              [Called(Watch(k), Answered(Revision(w.revision))), Called(Get(k), Answered(w.reply))] + [Timed(now)], r)
  {
    hide NumberAt;
    var t := [Called(Watch(k), Answered(Revision(w.revision))), Called(Get(k), Answered(w.reply))];
    assert (t + [Timed(now)])[..2] == t;
  }

  lemma NoNumberWasHeard(cx: Context, k: Key, schema: Bytes, staleness: Option<int>, t: seq<Event>, w: Option<Watching>)
    requires WatchHeard(k, t, w) && (w.Some? ==> !(w.value.reply.Found? && w.value.reply.value.Raw?))
    ensures ReadHeard(cx, k, schema, staleness, t, NotWatched(if w.None? then IncrementUnavailable else Rejected))
  {
    hide NumberAt;
  }

  lemma SumWasHeard(
    cx: Context, k: Key, amount: Json, schema: Bytes, ttl: int, staleness: Option<int>, t: seq<Event>, w: Watched, now: int,
    r: Prepared)
    requires IsNumber(amount) && w.Watched? && IsNumber(w.number) && ReadHeard(cx, k, schema, staleness, t, w)
    requires match EncodeIn(cx, Spec(JsonValue(Plus(w.number, amount)), CanonicalJson, schema, ttl, w.source, now))
             case Err(_) => r == Failed(Rejected)
             case Ok(bytes) => r.Prepared? && r.cmd == Exec(k, w.revision, bytes, ttl, NumberOf(JsonValue(amount)).value)
    ensures |t| == 3 && PrepareHeard(cx, k, amount, schema, ttl, staleness, t + [Timed(now)], r)
  {
    hide EncodeIn, NumberAt;
    assert (t + [Timed(now)])[..3] == t;
  }

  lemma NoSumWasHeard(
    cx: Context, k: Key, amount: Json, schema: Bytes, ttl: int, staleness: Option<int>, t: seq<Event>, r: IncrementResult)
    requires IsNumber(amount) && ReadHeard(cx, k, schema, staleness, t, NotWatched(r))
    ensures PrepareHeard(cx, k, amount, schema, ttl, staleness, t, Failed(r))
  {
    hide NumberAt;
  }

  lemma NoPassWasHeard(
    cx: Context, k: Key, amount: Json, schema: Bytes, ttl: int, staleness: Option<int>, t: seq<Event>, r: IncrementResult)
    requires IsNumber(amount) && PrepareHeard(cx, k, amount, schema, ttl, staleness, t, Failed(r))
    ensures PassHeard(cx, k, amount, schema, ttl, staleness, t, Some(r))
  {
    hide NumberAt, EncodeIn;
  }

  lemma PassWasHeard(
    cx: Context, k: Key, amount: Json, schema: Bytes, ttl: int, staleness: Option<int>, t: seq<Event>, p: Prepared,
    u: seq<Event>, r: Option<IncrementResult>)
    requires IsNumber(amount) && p.Prepared? && p.cmd.Exec? && PrepareHeard(cx, k, amount, schema, ttl, staleness, t, p)
    requires CommitHeard(cx, p.cmd, schema, staleness, u, r)
    ensures PassHeard(cx, k, amount, schema, ttl, staleness, t + u, r)
  {
    hide NumberAt, EncodeIn, RereadAt, ReadHeard;
    assert (t + u)[..4] == t && (t + u)[4..] == u;
  }

  /** The bytes decode, at some time, to the envelope. */
  ghost predicate ReadsAs(cx: Context, raw: Bytes, schema: Bytes, staleness: Option<int>, e: Envelope) {
    exists now :: Decode(cx.platform, cx.limits.maxValueBytes, raw, schema, staleness, now) == Ok(e)
  }

  predicate IncrementCommand(cmd: Command, key: Key, amount: Json, ttl: int) {
    cmd.Exec? && cmd.key == key && cmd.px == ttl && Some(cmd.amount) == NumberOf(JsonValue(amount))
  }

  /** From `from` on, the actor only read and at most once tried to commit. */
  ghost predicate OneAttempt(cx: Context, run: seq<Step>, from: int, me: nat, exec: int)
  {
    && 0 <= from <= |run| && (exec == -1 || from <= exec < |run|)
    && (forall i :: from <= i < |run| && run[i].actor == me ==>
          && Disciplined(cx, run, i)
          && (run[i].cmd.Watch? || run[i].cmd.Get? || (run[i].cmd.Exec? && i == exec)))
  }

  lemma CommitIsDisciplined(cx: Context, run: seq<Step>, w: int, g: int, i: int, spec: Spec, raw: Bytes)
    requires 0 <= w < g < i < |run| && run[i].cmd.Exec?
    requires run[w].actor == run[g].actor == run[i].actor
    requires ReadyToCommit(cx, run[w], run[g], run[i].cmd, spec, raw) && spec.created <= run[i].pre.now
    ensures Disciplined(cx, run, i)
  {
    hide NumberIn, SourceIn, EncodeIn, ReplyTo, NumberOf, Keys.IsKey;
    assert ExecClaim(cx, run[w], run[g], run[i], Claim(spec, None), Reading(raw, 0));
  }

  /** Apart from one step already known to be, all of an actor's reads are disciplined. */
  lemma ReadsAreDisciplined(cx: Context, run: seq<Step>, from: int, me: nat, except: int)
    requires 0 <= from <= |run|
    requires from <= except < |run| ==> Disciplined(cx, run, except)
    requires except == -1 || from <= except < |run|
    requires except != -1 ==> run[except].cmd.Exec?
    requires forall i :: from <= i < |run| && run[i].actor == me && i != except ==> run[i].cmd.Watch? || run[i].cmd.Get?
    ensures OneAttempt(cx, run, from, me, except)
  {
    hide Disciplined;
    forall i | from <= i < |run| && run[i].actor == me ensures Disciplined(cx, run, i) {
      if i != except { HarmlessIsDisciplined(cx, run, i); }
    }
  }

  lemma ReleaseIsDisciplined(cx: Context, run: seq<Step>, grant: int, i: int, key: Key, token: Bytes)
    requires 0 <= grant < i < |run| && run[grant].actor == run[i].actor && Keys.IsLease(key)
    requires run[grant].cmd == SetNx(key, token, cx.flight.leaseMs) && ReplyTo(run[grant]) == Done
    requires run[i].cmd == EvalRelease(key, token) || run[i].cmd == ScriptLoad(ReleaseScript)
    ensures Disciplined(cx, run, i)
  {
    hide ReplyTo, Keys.IsKey;
    if run[i].cmd.EvalRelease? { assert GrantOf(cx, run[grant], run[i]); }
  }

  lemma NumbersHaveValues(j: Json)
    requires IsNumber(j)
    ensures NumberOf(JsonValue(j)).Some?
  {
  }

  lemma LoadedRuns(load: Step, call: Step, script: Script, cmd: Command)
    requires IsScriptCall(script, cmd)
    requires load.cmd == ScriptLoad(script) && call.cmd == cmd && call.pre == Post(load)
    ensures ReplyTo(call) != NoScript && SameContents(call.pre, load.pre)
  {
  }

  lemma CasReplies(st: Step)
    requires st.cmd.EvalCas? && ReplyTo(st) != NoScript
    ensures ReplyTo(st) in {Code(1), Code(0), Code(-1), Code(-2)}
    ensures ReplyTo(st) == Code(1) <==> StoresUnder(st, st.cmd.key)
  {
  }

  lemma WatchReplies(st: Step)
    requires st.cmd.Watch?
    ensures ReplyTo(st).Revision?
  {
  }

  lemma ExecReplies(st: Step)
    requires st.cmd.Exec?
    ensures ReplyTo(st) == Done || ReplyTo(st) == Conflict
    ensures ReplyTo(st) == Done <==> Counters.Commits(st, st.cmd.key)
  {
  }
}
