/** One actor's connection to the shared server.  Before each command and each clock
    reading, the other actors and the environment may take any steps they like, and
    the command itself may be refused or its answer lost; a schedule, arbitrary and
    fixed beforehand, says which. */
module Client {
  import opened Primitives
  import opened Server
  import opened Runs

  datatype Action = Action(actor: nat, cmd: Command)

  datatype Fault = Healthy | Refused | AnswerLost

  datatype Slot = Slot(burst: seq<Action>, fault: Fault)

  /** Unavailable is any `ValkeyError`. */
  datatype Outcome = Answered(reply: Reply) | Unavailable

  /** What an actor can tell about its own past: each command it sent with its
      outcome, and each reading of the clock. */
  datatype Event = Called(cmd: Command, o: Outcome) | Timed(now: int)

  /** The events since an earlier moment. */
  function Since(before: seq<Event>, after: seq<Event>): seq<Event>
    requires |before| <= |after|
  {
    after[|before|..]
  }

  lemma SinceNone(log: seq<Event>)
    ensures Since(log, log) == []
  {
  }

  lemma SinceOne(log: seq<Event>, a: Event)
    ensures Since(log, log + [a]) == [a]
  {
  }

  lemma SinceTwo(log: seq<Event>, a: Event, b: Event)
    ensures Since(log, log + [a] + [b]) == [a, b]
  {
  }

  lemma SinceJoins(a: seq<Event>, b: seq<Event>, c: seq<Event>)
    requires a <= b <= c
    ensures a <= c && Since(a, c) == Since(a, b) + Since(b, c)
  {
  }

  /** A slot in which nothing happens, and what follows it. */
  const CALM: Slot := Slot([], Healthy)

  function Head(schedule: seq<Slot>): Slot {
    if schedule == [] then CALM else schedule[0]
  }

  function Rest(schedule: seq<Slot>): seq<Slot> {
    if schedule == [] then [] else schedule[1..]
  }

  /** Nothing happens before either of the next two actions. */
  predicate CalmTwice(schedule: seq<Slot>) {
    Head(schedule) == CALM && Head(Rest(schedule)) == CALM
  }

  /** The state some actions lead to. */
  function After(s: State, burst: seq<Action>): State
    decreases |burst|
  {
    if burst == [] then s else Apply(After(s, burst[..|burst| - 1]), burst[|burst| - 1].cmd).0
  }

  lemma AfterMore(s: State, burst: seq<Action>, a: Action)
    ensures After(s, burst + [a]) == Apply(After(s, burst), a.cmd).0
  {
    assert (burst + [a])[..|burst|] == burst;
  }

  predicate Foreign(schedule: seq<Slot>, me: nat) {
    forall i, j :: 0 <= i < |schedule| && 0 <= j < |schedule[i].burst| ==> schedule[i].burst[j].actor != me
  }

  class Engine {
    const me: nat
    var state: State
    var schedule: seq<Slot>
    ghost var run: seq<Step>
    ghost var log: seq<Event>

    /** The run so far is a real run and ends in the current state. */
    ghost predicate Valid()
      reads this
    {
      && Chained(run)
      && (run != [] ==> state == Post(run[|run| - 1]))
      && Foreign(schedule, me)
    }

    constructor (me: nat, state: State, schedule: seq<Slot>)
      requires Foreign(schedule, me)
      ensures Valid() && this.me == me && this.state == state && this.schedule == schedule
      ensures run == [] && log == []
    {
      this.me, this.state, this.schedule, this.run, this.log := me, state, schedule, [], [];
    }

    /** Takes one step as `actor`. */
    method Take(actor: nat, cmd: Command) returns (reply: Reply)
      requires Valid()
      modifies this`state, this`run
      ensures Valid()
      ensures run == old(run) + [Step(actor, cmd, old(state))]
      ensures state == Apply(old(state), cmd).0 && reply == Apply(old(state), cmd).1
      ensures old(state.now) <= state.now
    {
      hide Apply;
      ghost var st := Step(actor, cmd, state);
      Effect(st, []);
      var next := Apply(state, cmd);
      run := run + [st];
      state := next.0;
      reply := next.1;
    }

    /** Everything the others do before this actor's next action. */
    method Interfere() returns (fault: Fault)
      requires Valid()
      modifies this`state, this`schedule, this`run
      ensures Valid() && old(run) <= run && old(state.now) <= state.now
      ensures forall i :: |old(run)| <= i < |run| ==> run[i].actor != me
      ensures schedule == Rest(old(schedule)) && fault == Head(old(schedule)).fault
      ensures state == After(old(state), Head(old(schedule)).burst)
      ensures Head(old(schedule)) == CALM ==> run == old(run)
    {
      hide Post, Apply;
      if schedule == [] { return Healthy; }
      var slot := schedule[0];
      schedule := schedule[1..];
      for n := 0 to |slot.burst|
        invariant Valid() && old(run) <= run && old(state.now) <= state.now
        invariant forall i :: |old(run)| <= i < |run| ==> run[i].actor != me
        invariant schedule == old(schedule)[1..] && (n == 0 ==> run == old(run))
        invariant state == After(old(state), slot.burst[..n])
      {
        assert slot.burst[..n + 1][..n] == slot.burst[..n];
        var _ := Take(slot.burst[n].actor, slot.burst[n].cmd);
      }
      assert slot.burst[..|slot.burst|] == slot.burst;
      return slot.fault;
    }

    /** Reads the clock. */
    method Clock() returns (now: int)
      requires Valid()
      modifies this
      ensures Valid() && old(run) <= run && old(state.now) <= now == state.now
      ensures forall i :: |old(run)| <= i < |run| ==> run[i].actor != me
      ensures log == old(log) + [Timed(now)]
      ensures schedule == Rest(old(schedule)) && state == After(old(state), Head(old(schedule)).burst)
      ensures Head(old(schedule)) == CALM ==> run == old(run) && state == old(state)
      ensures old(schedule) == [] ==> schedule == [] && run == old(run) && state == old(state)
    {
      var _ := Interfere();
      now := state.now;
      log := log + [Timed(now)];
    }

    /** Sends one command.  At most the last step taken is this actor's, and it is
        that command; an answer is the server's reply to it. */
    method Call(cmd: Command) returns (o: Outcome)
      requires Valid()
      modifies this
      ensures Valid() && old(run) <= run && old(state.now) <= state.now
      ensures forall i :: |old(run)| <= i < |run| && run[i].actor == me ==>
                i == |run| - 1 && run[i].cmd == cmd && old(state.now) <= run[i].pre.now
      ensures o.Answered? ==> |old(run)| < |run| && run[|run| - 1].actor == me && o.reply == ReplyTo(run[|run| - 1])
      ensures log == old(log) + [Called(cmd, o)]
      ensures schedule == Rest(old(schedule))
      ensures Head(old(schedule)).fault == Healthy ==>
                o.Answered? && run[|run| - 1].pre == After(old(state), Head(old(schedule)).burst)
      ensures Head(old(schedule)) == CALM ==>
                && run == old(run) + [Step(me, cmd, old(state))]
                && state == Apply(old(state), cmd).0 && o == Answered(Apply(old(state), cmd).1)
      ensures old(schedule) == [] ==>
                && schedule == [] && run == old(run) + [Step(me, cmd, old(state))]
                && state == Apply(old(state), cmd).0 && o == Answered(Apply(old(state), cmd).1)
    {
      hide Post, Apply;
      var fault := Interfere();
      if fault == Refused {
        o := Unavailable;
      } else {
        var reply := Take(me, cmd);
        StepMeaning(run[|run| - 1]);
        o := if fault == AnswerLost then Unavailable else Answered(reply);
      }
      log := log + [Called(cmd, o)];
    }
  }
}
