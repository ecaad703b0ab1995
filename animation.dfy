/** The animation state machine: an Animator walks a fixed sequence of animation states, entering
    each one, running it every frame with the time since it was entered, and moving on once its exit
    condition holds. The states' callbacks are code the engine does not see; they are modelled by the
    events they are called for, appended to a trace, and the exit condition's answer and the frame
    time are parameters. */
module Animation {
  /** One callback invocation. */
  datatype Event = Entered(state: nat) | Ran(state: nat, elapsed: real) | Exited(state: nat)

  /** The callbacks invoked so far, in order. */
  class Trace {
    var events: seq<Event>

    constructor ()
      ensures events == []
    {
      events := [];
    }
  }

  /** The events of one run: onRun with the elapsed time, then onExiting if the exit condition
      holds. */
  function RunEvents(state: nat, elapsed: real, exit: bool): seq<Event>
  {
    [Ran(state, elapsed)] + (if exit then [Exited(state)] else [])
  }

  function CountEntered(es: seq<Event>): nat
  {
    if es == [] then 0 else CountEntered(es[..|es| - 1]) + (if es[|es| - 1].Entered? then 1 else 0)
  }

  function CountExited(es: seq<Event>): nat
  {
    if es == [] then 0 else CountExited(es[..|es| - 1]) + (if es[|es| - 1].Exited? then 1 else 0)
  }

  /** Counting distributes over concatenation. */
  lemma {:induction false} CountAppend(a: seq<Event>, b: seq<Event>)
    ensures CountEntered(a + b) == CountEntered(a) + CountEntered(b)
    ensures CountExited(a + b) == CountExited(a) + CountExited(b)
    decreases |b|
  {
    if b != [] {
      var b' := b[..|b| - 1];
      assert (a + b)[..|a + b| - 1] == a + b';
      assert (a + b)[|a + b| - 1] == b[|b| - 1];
      CountAppend(a, b');
    } else {
      assert a + b == a;
    }
  }

  /** A run enters nothing and exits once exactly when the exit condition holds. */
  lemma RunEventsCounts(state: nat, elapsed: real, exit: bool)
    ensures CountEntered(RunEvents(state, elapsed, exit)) == 0
    ensures CountExited(RunEvents(state, elapsed, exit)) == (if exit then 1 else 0)
  {
    var ran := [Ran(state, elapsed)];
    assert ran[..0] == [];
    assert CountEntered(ran) == 0 && CountExited(ran) == 0;
    if exit {
      var r := [Ran(state, elapsed), Exited(state)];
      assert RunEvents(state, elapsed, exit) == r;
      assert r[..1] == ran;
    } else {
      assert RunEvents(state, elapsed, exit) == ran;
    }
  }

  /** Appending a run to a trace adds its counts. */
  lemma RunAppendCounts(es: seq<Event>, state: nat, elapsed: real, exit: bool)
    ensures CountEntered(es + RunEvents(state, elapsed, exit)) == CountEntered(es)
    ensures CountExited(es + RunEvents(state, elapsed, exit)) == CountExited(es) + (if exit then 1 else 0)
  {
    CountAppend(es, RunEvents(state, elapsed, exit));
    RunEventsCounts(state, elapsed, exit);
  }

  /** Appending an entry adds one entry and no exit. */
  lemma EnterAppendCounts(es: seq<Event>, state: nat)
    ensures CountEntered(es + [Entered(state)]) == CountEntered(es) + 1
    ensures CountExited(es + [Entered(state)]) == CountExited(es)
  {
    assert (es + [Entered(state)])[..|es|] == es;
  }

  lemma SumSnoc(ts: seq<real>, t: real)
    ensures Sum(ts + [t]) == Sum(ts) + t
  {
    assert (ts + [t])[..|ts|] == ts;
  }

  /** The frame times added since the current state was entered. */
  function Sum(ts: seq<real>): real
  {
    if ts == [] then 0.0 else Sum(ts[..|ts| - 1]) + ts[|ts| - 1]
  }

  class AnimState {
    const id: nat

    constructor (id: nat)
      ensures this.id == id
    {
      this.id := id;
    }

    /** onEnter only invokes onEntering. */
    method OnEnter(trace: Trace)
      modifies trace
      ensures trace.events == old(trace.events) + [Entered(id)]
    {
      trace.events := trace.events + [Entered(id)];
    }

    /** run: onRun(elapsedTime) first, then the exit condition is asked, onExiting is invoked iff it
        holds, and its answer is returned. */
    method Run(elapsedTime: real, exitCondition: bool, trace: Trace) returns (exit: bool)
      modifies trace
      ensures exit == exitCondition
      ensures trace.events == old(trace.events) + RunEvents(id, elapsedTime, exitCondition)
    {
      trace.events := trace.events + [Ran(id, elapsedTime)];
      exit := exitCondition;
      if exit {
        trace.events := trace.events + [Exited(id)];
      }
    }
  }

  class Animator {
    const states: seq<AnimState>
    const trace: Trace
    var currentState: nat
    var elapsedTime: real
    var newState: bool
    /** The frame times since the current state was entered. */
    ghost var ticks: seq<real>

    /** Every state exited so far has been entered once; the current state has been entered unless
        it is still to be entered at the next Update; the elapsed time is the sum of the frame times
        since the last entry. */
    ghost predicate Valid()
      reads this, trace
    {
      && CountExited(trace.events) == currentState
      && CountEntered(trace.events) == currentState + (if newState then 0 else 1)
      && elapsedTime == Sum(ticks)
    }

    constructor (animStates: seq<AnimState>, trace: Trace)
      requires trace.events == []
      ensures Valid() && states == animStates && this.trace == trace
      ensures currentState == 0 && elapsedTime == 0.0 && newState && trace.events == []
    {
      states := animStates;
      this.trace := trace;
      currentState := 0;
      elapsedTime := 0.0;
      newState := true;
      ticks := [];
    }

    /** Update: a newly reached state is entered, with the elapsed time reset; the state is run
        with the time since its entry; an exit moves on to the next state, to be entered at the next
        Update; the frame time is added last. There is no bounds check, so a state must remain. */
    method Update(deltaTime: real, exitCondition: bool)
      requires Valid() && currentState < |states|
      modifies this, trace
      ensures Valid()
      ensures trace.events == old(trace.events) + (if old(newState) then [Entered(old(states[currentState].id))] else [])
                              + RunEvents(old(states[currentState].id), if old(newState) then 0.0 else old(elapsedTime), exitCondition)
      ensures currentState == old(currentState) + (if exitCondition then 1 else 0)
      ensures newState == exitCondition
      ensures elapsedTime == (if old(newState) then 0.0 else old(elapsedTime)) + deltaTime
      ensures ticks == (if old(newState) then [] else old(ticks)) + [deltaTime]
    {
      var activeState := states[currentState];
      ghost var entered, exited := CountEntered(trace.events), CountExited(trace.events);
      if newState {
        EnterAppendCounts(trace.events, activeState.id);
        activeState.OnEnter(trace);
        entered := entered + 1;
        elapsedTime := 0.0;
        ticks := [];
        newState := false;
      }
      assert CountEntered(trace.events) == entered && CountExited(trace.events) == exited;
      RunAppendCounts(trace.events, activeState.id, elapsedTime, exitCondition);
      var exit := activeState.Run(elapsedTime, exitCondition, trace);
      assert CountEntered(trace.events) == entered;
      assert CountExited(trace.events) == exited + (if exit then 1 else 0);
      if exit {
        newState := true;
        currentState := currentState + 1;
      }
      SumSnoc(ticks, deltaTime);
      elapsedTime := elapsedTime + deltaTime;
      ticks := ticks + [deltaTime];
    }
  }
}
