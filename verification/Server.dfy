/** The shared Valkey server: one map of expiring entries, a revision a key for
    WATCH, and the loaded scripts.  Every command is one atomic step. */
module Server {
  import opened Primitives
  import Codec

  type Key = Bytes

  /** Alien is anything that is not a byte string. */
  datatype Value = Raw(bytes: Bytes) | Alien

  datatype Entry = Entry(value: Value, expires: int)

  datatype Script = CasScript | ReleaseScript

  datatype State = State(now: int, entries: map<Key, Entry>, revisions: map<Key, nat>, scripts: set<Script>)

  datatype Command =
    // issued by the adapter
    | Get(key: Key)
    | MGet(keys: seq<Key>)
    | Set(key: Key, value: Bytes, px: int)
    | SetNx(key: Key, value: Bytes, px: int)
    | Del(key: Key)
    | EvalCas(key: Key, expected: Bytes, value: Bytes, px: int)
    | EvalRelease(key: Key, token: Bytes)
    | ScriptLoad(script: Script)
    | Watch(key: Key)
    | Exec(key: Key, revision: nat, value: Bytes, px: int, amount: real)   // amount: a note, not sent
    // done by the environment
    | Advance(ms: nat)
    | Sweep(key: Key)
    | Evict(key: Key)
    | Corrupt(key: Key, garbage: Value)
    | FlushScripts

  datatype Reply =
    | Nil
    | Found(value: Value)
    | Many(values: seq<Option<Value>>)
    | Done
    | Code(n: int)
    | NoScript
    | Revision(revision: nat)
    | Conflict

  // -------------------------------------------------------------------- storage

  function RevisionOf(s: State, k: Key): nat {
    if k in s.revisions then s.revisions[k] else 0
  }

  function Bumped(s: State, k: Key): map<Key, nat> {
    s.revisions[k := RevisionOf(s, k) + 1]
  }

  predicate IsLive(s: State, k: Key) {
    k in s.entries && s.now < s.entries[k].expires
  }

  function LiveValue(s: State, k: Key): Option<Value> {
    if IsLive(s, k) then Some(s.entries[k].value) else None
  }

  function Removed(s: State, k: Key): State {
    s.(entries := s.entries - {k}, revisions := Bumped(s, k))
  }

  /** Every access first drops the key if it has expired. */
  function Swept(s: State, k: Key): State {
    if k in s.entries && s.entries[k].expires <= s.now then Removed(s, k) else s
  }

  function Put(s: State, k: Key, v: Value, px: int): State {
    s.(entries := s.entries[k := Entry(v, s.now + px)], revisions := Bumped(s, k))
  }

  function SweptAll(s: State, keys: seq<Key>): State
    decreases |keys|
  {
    if keys == [] then s else SweptAll(Swept(s, keys[0]), keys[1..])
  }

  // ------------------------------------------------------------------- commands

  /** The compare-and-set script's verdict on the current value. */
  function CasCode(v: Option<Value>, expected: Bytes): int {
    match v
    case None => -1
    case Some(Alien) => -2
    case Some(Raw(b)) =>
      if Codec.LuaSub(b, 1, 6) != Codec.MAGIC then -2
      else if Codec.LuaSub(b, 7, 77) != expected then 0
      else 1
  }

  /** The entry a command leaves under a key, if it stores one. */
  function Stores(s: State, c: Command): Option<(Key, Value)> {
    match c
    case Set(k, v, _) => Some((k, Raw(v)))
    case SetNx(k, v, _) => if IsLive(s, k) then None else Some((k, Raw(v)))
    case EvalCas(k, expected, v, _) =>
      if CasScript in s.scripts && CasCode(LiveValue(s, k), expected) == 1 then Some((k, Raw(v))) else None
    case Exec(k, revision, v, _, _) =>
      if RevisionOf(Swept(s, k), k) == revision then Some((k, Raw(v))) else None
    case Corrupt(k, v) => if IsLive(s, k) then Some((k, v)) else None
    case _ => None
  }

  function Apply(s: State, c: Command): (State, Reply) {
    match c
    case Get(k) =>
      (Swept(s, k), if IsLive(s, k) then Found(s.entries[k].value) else Nil)
    case MGet(keys) =>
      (SweptAll(s, keys), Many(seq(|keys|, i requires 0 <= i < |keys| => LiveValue(s, keys[i]))))
    case Set(k, v, px) =>
      (Put(Swept(s, k), k, Raw(v), px), Done)
    case SetNx(k, v, px) =>
      if IsLive(s, k) then (s, Nil) else (Put(Swept(s, k), k, Raw(v), px), Done)
    case Del(k) =>
      (Removed(Swept(s, k), k), Code(if IsLive(s, k) then 1 else 0))
    case EvalCas(k, expected, v, px) =>
      if CasScript !in s.scripts then (s, NoScript)
      else
        var code := CasCode(LiveValue(s, k), expected);
        (if code == 1 then Put(Swept(s, k), k, Raw(v), px) else Swept(s, k), Code(code))
    case EvalRelease(k, token) =>
      if ReleaseScript !in s.scripts then (s, NoScript)
      else if LiveValue(s, k) == Some(Raw(token)) then (Removed(s, k), Code(1))
      else (Swept(s, k), Code(0))
    case ScriptLoad(script) =>
      (s.(scripts := s.scripts + {script}), Done)
    case Watch(k) =>
      (Swept(s, k), Revision(RevisionOf(Swept(s, k), k)))
    case Exec(k, revision, v, px, _) =>
      var t := Swept(s, k);
      if RevisionOf(t, k) == revision then (Put(t, k, Raw(v), px), Done) else (t, Conflict)
    case Advance(ms) =>
      (s.(now := s.now + ms), Done)
    case Sweep(k) =>
      (Swept(s, k), Done)
    case Evict(k) =>
      (Removed(s, k), Done)
    case Corrupt(k, v) =>
      (if IsLive(s, k) then s.(entries := s.entries[k := Entry(v, s.entries[k].expires)], revisions := Bumped(s, k))
       else Swept(s, k), Done)
    case FlushScripts =>
      (s.(scripts := {}), Done)
  }

  /** Keys whose entry a command may change. */
  function Touched(c: Command): set<Key> {
    match c
    case MGet(keys) => set k | k in keys
    case ScriptLoad(_) => {}
    case Advance(_) => {}
    case FlushScripts => {}
    case _ => {c.key}
  }
}
