/** Conservation of numeric increments over whole runs. */
module Counters {
  import opened Primitives
  import opened Json
  import opened Codec
  import opened Server
  import opened Runs
  import opened Protocol
  import Keys

  predicate Commits(st: Step, k: Key) {
    st.cmd.Exec? && st.cmd.key == k && ReplyTo(st) == Done
  }

  /** Sum of the amounts committed under `k` by the steps from `m` up to `n`. */
  function Committed(run: seq<Step>, m: nat, n: nat, k: Key): real
    requires n <= |run|
    decreases n
  {
    if n <= m then 0.0
    else Committed(run, m, n - 1, k) + (if Commits(run[n - 1], k) then run[n - 1].cmd.amount else 0.0)
  }

  /** A committed increment found the very entry it had read, so it adds exactly its
      amount to the number that was there and keeps its source version. */
  lemma CommitAdds(cx: Context, run: seq<Step>, i: nat, k: Key)
    requires Lawful(cx.platform) && AdapterRun(cx, run) && i < |run| && Commits(run[i], k)
    ensures k in run[i].pre.entries && NumberIn(cx, run[i].pre.entries[k].value).Some?
    ensures NumberIn(cx, Raw(run[i].cmd.value))
         == Some(NumberIn(cx, run[i].pre.entries[k].value).value + run[i].cmd.amount)
    ensures SourceIn(cx, Raw(run[i].cmd.value)) == SourceIn(cx, run[i].pre.entries[k].value)
  {
    hide Keys.IsKey, Post, Apply, EncodeIn, NumberIn, SourceIn, NumberOf, CasClaim, PutClaim, GrantOf;
    assert Disciplined(cx, run, i);
    var w, g, c, r :| 0 <= w < g < i && ExecClaim(cx, run[w], run[g], run[i], c, r);
    WatchedUnchanged(run, w, g, i, k);
    NumberOfEncoded(cx, c.spec);
    SourceOfEncoded(cx, c.spec);
  }

  /** Between the WATCH and a successful EXEC nothing happened to the key. */
  lemma WatchedUnchanged(run: seq<Step>, w: nat, g: nat, i: nat, k: Key)
    requires Chained(run) && w < g < i < |run|
    requires Commits(run[i], k)
    requires run[w].cmd == Watch(k) && ReplyTo(run[w]) == Revision(run[i].cmd.revision)
    requires run[g].cmd == Get(k) && ReplyTo(run[g]).Found?
    ensures k in run[i].pre.entries
    ensures EntryAt(run[i].pre, k) == EntryAt(run[g].pre, k)
    ensures ReplyTo(run[g]) == Found(run[i].pre.entries[k].value)
  {
    var revision := run[i].cmd.revision;
    assert RevisionOf(Post(run[w]), k) == revision;
    RevisionMonotone(run, w + 1, g, k);
    RevisionMonotone(run, g, i, k);
    assert RevisionOf(run[i].pre, k) <= RevisionOf(Swept(run[i].pre, k), k);
  }

  /** Conservation: if `base` is the last store under `k` that is not an increment,
      the number stored at any later moment is the number it left plus the sum of the
      amounts committed since. */
  lemma {:induction false} IncrementsConserved(cx: Context, run: seq<Step>, base: nat, n: nat, k: Key)
    requires Lawful(cx.platform) && AdapterRun(cx, run) && base < n < |run|
    requires StoresUnder(run[base], k)
    requires forall m :: base < m < n && StoresUnder(run[m], k) ==> run[m].cmd.Exec?
    requires k in run[n].pre.entries
    ensures var start := NumberIn(cx, Stores(run[base].pre, run[base].cmd).value.1);
            start.Some? ==>
              NumberIn(cx, run[n].pre.entries[k].value) == Some(start.value + Committed(run, base + 1, n, k))
    ensures NumberIn(cx, Stores(run[base].pre, run[base].cmd).value.1).None? ==>
              NumberIn(cx, run[n].pre.entries[k].value).None?
    decreases n
  {
    hide Keys.IsKey, Post, NumberIn, Disciplined;
    Effect(run[n - 1], k);
    CommitStores(run[n - 1], k);
    if base + 1 == n {
    } else {
      if StoresUnder(run[n - 1], k) {
        CommitAdds(cx, run, n - 1, k);
      }
      IncrementsConserved(cx, run, base, n - 1, k);
    }
  }

  lemma CommitStores(st: Step, k: Key)
    ensures Commits(st, k) <==> st.cmd.Exec? && StoresUnder(st, k)
  {
  }

}
