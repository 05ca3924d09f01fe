/** Runs: any interleaving of server steps by any number of actors. */
module Runs {
  import opened Primitives
  import opened Server

  /** One atomic step, with the state it was taken in. */
  datatype Step = Step(actor: nat, cmd: Command, pre: State)

  function Post(st: Step): State {
    Apply(st.pre, st.cmd).0
  }

  function ReplyTo(st: Step): Reply {
    Apply(st.pre, st.cmd).1
  }

  /** For proofs that hide the three. */
  lemma StepMeaning(st: Step)
    ensures Apply(st.pre, st.cmd) == (Post(st), ReplyTo(st))
  {
  }

  /** Each step starts where the previous one ended. */
  ghost predicate Chained(run: seq<Step>) {
    forall i, j :: 0 <= i && j == i + 1 && j < |run| ==> run[j].pre == Post(run[i])
  }

  /** A run of a server that started empty. */
  ghost predicate FromEmpty(run: seq<Step>) {
    Chained(run) && (run != [] ==> run[0].pre.entries == map[])
  }

  function EntryAt(s: State, k: Key): Option<Entry> {
    if k in s.entries then Some(s.entries[k]) else None
  }

  predicate StoresUnder(st: Step, k: Key) {
    Stores(st.pre, st.cmd).Some? && Stores(st.pre, st.cmd).value.0 == k
  }

  predicate Drops(st: Step, k: Key) {
    k in st.pre.entries && k !in Post(st).entries
  }

  predicate Expired(s: State, k: Key) {
    k in s.entries && s.entries[k].expires <= s.now
  }

  predicate Releases(st: Step, k: Key) {
    && st.cmd.EvalRelease? && st.cmd.key == k
    && ReleaseScript in st.pre.scripts
    && LiveValue(st.pre, k) == Some(Raw(st.cmd.token))
  }

  /** A successful SET NX: of put_if_absent, or the grant of a lease. */
  predicate Inserts(st: Step, k: Key) {
    st.cmd.SetNx? && st.cmd.key == k && ReplyTo(st) == Done
  }

  /** The milliseconds a storing command asks for. */
  function PxOf(c: Command): Option<int> {
    match c
    case Set(_, _, px) => Some(px)
    case SetNx(_, _, px) => Some(px)
    case EvalCas(_, _, _, px) => Some(px)
    case Exec(_, _, _, px, _) => Some(px)
    case _ => None
  }

  lemma {:induction false} SweptAllEffect(s: State, keys: seq<Key>, k: Key)
    ensures var t := SweptAll(s, keys);
            && t.now == s.now && t.scripts == s.scripts
            && EntryAt(t, k) == (if k in keys && Expired(s, k) then None else EntryAt(s, k))
            && RevisionOf(t, k) >= RevisionOf(s, k)
            && (RevisionOf(t, k) == RevisionOf(s, k) ==> EntryAt(t, k) == EntryAt(s, k))
    decreases |keys|
  {
    if keys != [] {
      SweptAllEffect(Swept(s, keys[0]), keys[1..], k);
    }
  }

  /** What one step does to one key: it stores the entry named by Stores, or drops
      the entry for one of four reasons, or leaves it alone; an unchanged revision
      means an unchanged entry; and time never goes back. */
  lemma Effect(st: Step, k: Key)
    ensures var s, t := st.pre, Post(st);
            && t.now == s.now + (if st.cmd.Advance? then st.cmd.ms else 0)
            && (StoresUnder(st, k) ==> k in t.entries && t.entries[k].value == Stores(s, st.cmd).value.1)
            && (StoresUnder(st, k) && PxOf(st.cmd).Some? ==> t.entries[k].expires == s.now + PxOf(st.cmd).value)
            && (StoresUnder(st, k) && st.cmd.Corrupt? ==> k in s.entries && t.entries[k].expires == s.entries[k].expires)
            && (!StoresUnder(st, k) ==> EntryAt(t, k) == EntryAt(s, k) || Drops(st, k))
            && (Drops(st, k) ==> Expired(s, k) || st.cmd == Del(k) || st.cmd == Evict(k) || Releases(st, k))
  {
    match st.cmd {
      case MGet(keys) => SweptAllEffect(st.pre, keys, k);
      case _ =>
    }
  }

  lemma RevisionEffect(st: Step, k: Key)
    ensures var s, t := st.pre, Post(st);
            && RevisionOf(t, k) >= RevisionOf(s, k)
            && (RevisionOf(t, k) == RevisionOf(s, k) ==> EntryAt(t, k) == EntryAt(s, k))
  {
    match st.cmd {
      case MGet(keys) => SweptAllEffect(st.pre, keys, k);
      case _ =>
    }
  }

  /** A command touches no other key. */
  lemma UntouchedKey(st: Step, k: Key)
    requires k !in Touched(st.cmd)
    ensures EntryAt(Post(st), k) == EntryAt(st.pre, k)
  {
    match st.cmd {
      case MGet(keys) => SweptAllEffect(st.pre, keys, k);
      case _ =>
    }
  }

  // ------------------------------------------------------------- whole-run tools

  lemma {:induction false} ClockMonotone(run: seq<Step>, i: nat, j: nat)
    requires Chained(run) && i <= j < |run|
    ensures run[i].pre.now <= run[j].pre.now
    decreases j - i
  {
    hide Post;
    if i < j {
      ClockMonotone(run, i, j - 1);
      Effect(run[j - 1], []);
    }
  }

  lemma {:induction false} RevisionMonotone(run: seq<Step>, i: nat, j: nat, k: Key)
    requires Chained(run) && i <= j < |run|
    ensures RevisionOf(run[i].pre, k) <= RevisionOf(run[j].pre, k)
    ensures RevisionOf(run[i].pre, k) == RevisionOf(run[j].pre, k) ==> EntryAt(run[i].pre, k) == EntryAt(run[j].pre, k)
    decreases j - i
  {
    hide Post, RevisionOf, EntryAt;
    if i < j {
      RevisionMonotone(run, i, j - 1, k);
      RevisionEffect(run[j - 1], k);
    }
  }

  /** Whatever lies under a key was put there by some step and not touched since. */
  lemma {:induction false} Provenance(run: seq<Step>, n: nat, k: Key) returns (w: nat)
    requires FromEmpty(run) && n < |run| && k in run[n].pre.entries
    ensures w < n && StoresUnder(run[w], k)
    ensures EntryAt(Post(run[w]), k) == EntryAt(run[n].pre, k)
    ensures Stores(run[w].pre, run[w].cmd).value.1 == run[n].pre.entries[k].value
    ensures forall m :: w < m < n ==> !StoresUnder(run[m], k) && !Drops(run[m], k)
    ensures forall m :: w < m < n ==> EntryAt(run[m].pre, k) == EntryAt(run[n].pre, k)
  {
    hide Post, Stores, StoresUnder, Drops;
    assert n > 0;
    Effect(run[n - 1], k);
    if StoresUnder(run[n - 1], k) {
      w := n - 1;
    } else {
      DropsMeaning(run[n - 1], k);
      w := Provenance(run, n - 1, k);
    }
  }

  lemma DropsMeaning(st: Step, k: Key)
    ensures Drops(st, k) <==> k in st.pre.entries && k !in Post(st).entries
  {
  }

  /** An entry survives every stretch in which no step stores or drops its key. */
  lemma {:induction false} Persists(run: seq<Step>, i: nat, j: nat, k: Key)
    requires Chained(run) && i <= j < |run|
    requires forall m :: i <= m < j ==> !StoresUnder(run[m], k) && !Drops(run[m], k)
    ensures EntryAt(run[j].pre, k) == EntryAt(run[i].pre, k)
    decreases j - i
  {
    hide Post, StoresUnder, Drops, EntryAt;
    if i < j {
      Persists(run, i, j - 1, k);
      Effect(run[j - 1], k);
    }
  }
}
