/**
 * The type-keyed dispatcher, PureStateMachine: a registry from a state's
 * runtime class to its instance, a nullable current state, the tickable state
 * cached for the frame loop, and a latch that launches that loop once.
 */
module PureMachine {
  import opened StateModel

  /** The byte range of TickDilationInFrames. */
  type Byte = x: int | 0 <= x < 256

  class PureStateMachine {
    var name: string
    var states: map<StateType, StateObject>
    var currentState: StateObject?
    var currentTickable: StateObject?
    var isRunning: bool
    var printLogs: bool
    var isTickEnabled: bool
    var tickDilationInFrames: Byte
    ghost var tickLoopStarts: nat          // how often SafeAsync.RepeatWhile was launched
    ghost var trace: seq<Event>            // every Start, Stop and Tick the machine has called
    ghost var log: seq<LogEntry>           // every message written to the console

    /** Every state is registered under its own class. */
    ghost predicate KeyedByClass()
      reads this
    {
      forall t :: t in states ==> states[t].stateType == t
    }

    /**
     * Every state is registered under its own class, the tick cache holds
     * the current state or nothing, the lifecycle calls so far obey the
     * discipline and leave the current state running, and the tick loop was
     * launched exactly when the latch is set.
     */
    ghost predicate Valid()
      reads this
    {
      && KeyedByClass()
      && (currentTickable != null ==> currentTickable == currentState && currentTickable.stateType.isTickable)
      && Replay(trace, null) == Some(currentState)
      && tickLoopStarts == (if isRunning then 1 else 0)
    }

    /** PureStateMachine(name): the default name stays unless `name` is usable. */
    constructor (name: Option<string>)
      ensures Valid()
      ensures this.name == if IsNullOrWhiteSpace(name) then DefaultName else name.value
      ensures states == map[] && currentState == null && currentTickable == null
      ensures !isRunning && printLogs && isTickEnabled && tickDilationInFrames == 0
      ensures trace == [] && log == []
    {
      this.name := DefaultName;
      states := map[];
      currentState, currentTickable := null, null;
      isRunning := false;
      printLogs, isTickEnabled := true, true;
      tickDilationInFrames := 0;
      tickLoopStarts := 0;
      trace, log := [], [];
      new;
      SetName(name);
    }

    /** PureStateMachine(name, tickDilationInFrames). */
    constructor WithTickDilation(name: Option<string>, tickDilationInFrames: Byte)
      ensures Valid()
      ensures this.name == if IsNullOrWhiteSpace(name) then DefaultName else name.value
      ensures states == map[] && currentState == null && currentTickable == null
      ensures !isRunning && printLogs && isTickEnabled && this.tickDilationInFrames == tickDilationInFrames
      ensures trace == [] && log == []
    {
      this.name := DefaultName;
      states := map[];
      currentState, currentTickable := null, null;
      isRunning := false;
      printLogs, isTickEnabled := true, true;
      this.tickDilationInFrames := 0;
      tickLoopStarts := 0;
      trace, log := [], [];
      new;
      SetName(name);
      isTickEnabled := true;
      this.tickDilationInFrames := tickDilationInFrames;
    }

    /** The Name setter: null or blank is ignored, so the previous name stays. */
    method SetName(value: Option<string>)
      modifies this`name
      ensures name == if IsNullOrWhiteSpace(value) then old(name) else value.value
    {
      var blank := IsNullOrWhiteSpaceString(value);
      if blank {
        return;
      }
      name := value.value;
    }

    /**
     * AddState: null is refused with an error on the console and no
     * exception; a state is stored under its class, and Dictionary.Add
     * throws when that class is already registered.
     */
    method AddState(state: StateObject?) returns (outcome: Outcome)
      requires Valid()
      modifies this`states, this`log
      ensures Valid()
      ensures state == null ==> outcome == Done && states == old(states) && log == old(log) + [Error]
      ensures state != null && state.stateType in old(states) ==>
                outcome == Threw(DuplicateKey) && states == old(states) && log == old(log)
      ensures state != null && state.stateType !in old(states) ==>
                outcome == Done && states == old(states)[state.stateType := state] && log == old(log)
    {
      if state == null {
        log := log + [Error];
        return Done;
      }
      if state.stateType in states {
        return Threw(DuplicateKey);
      }
      states := states[state.stateType := state];
      return Done;
    }

    /**
     * RemoveState: removes whatever is registered under the state's class,
     * whether or not it is this very instance; null throws on GetType().
     */
    method RemoveState(state: StateObject?) returns (outcome: Outcome)
      requires Valid()
      modifies this`states
      ensures Valid()
      ensures state == null ==> outcome == Threw(NullReference) && states == old(states)
      ensures state != null ==> outcome == Done && states == old(states) - {state.stateType}
    {
      if state == null {
        return Threw(NullReference);
      }
      states := states - {state.stateType};
      return Done;
    }

    /** RemoveAllStates: the registry is emptied; the current state is left alone. */
    method RemoveAllStates()
      requires Valid()
      modifies this`states
      ensures Valid()
      ensures states == map[]
    {
      states := map[];
    }

    /**
     * GetState<TState>: the instance registered under class `t`, or null.
     * The `as TState` cast cannot fail, because an instance is only ever
     * registered under its own class.
     */
    function GetState(t: StateType): (s: StateObject?)
      requires KeyedByClass()
      reads this
      ensures s != null <==> t in states
      ensures s != null ==> s == states[t] && s.stateType == t
    {
      if t !in states then null else states[t]
    }

    /** The console error GetState writes for a class that is not registered. */
    ghost method ReportIfMissing(t: StateType)
      modifies this`log
      ensures log == old(log) + (if t in states then [] else [Error])
    {
      if t !in states {
        log := log + [Error];
      }
    }

    /** StartTickIfNeed: the first call sets the latch and launches the tick loop; later calls do nothing. */
    method StartTickIfNeed()
      modifies this`isRunning, this`tickLoopStarts
      ensures isRunning
      ensures tickLoopStarts == if old(isRunning) then old(tickLoopStarts) else old(tickLoopStarts) + 1
    {
      if isRunning {
        return;
      }
      isRunning := true;
      tickLoopStarts := tickLoopStarts + 1;
    }

    /** TryToCacheAsTickableState: clear the cache, then keep `state` if it is tickable. */
    method TryToCacheAsTickableState(state: StateObject?)
      modifies this`currentTickable
      ensures currentTickable == if state != null && state.stateType.isTickable then state else null
    {
      currentTickable := null;
      if state != null && state.stateType.isTickable {
        currentTickable := state;
      }
    }

    /**
     * The four SwitchState<TState, ...> overloads: `t` is TState and `args`
     * the 0 to 3 arguments for Start; the generic constraint makes the
     * compiler demand that TState implements the matching Start. The latch
     * is set, the current state (if any) is stopped, the registered instance
     * of `t` (or null) becomes current, the cache is refreshed, and Start is
     * called last, which throws on null.
     */
    method SwitchState(t: StateType, args: seq<Arg>) returns (outcome: Outcome)
      requires Valid()
      requires |args| <= 3 && SignatureOf(args) in t.startSignatures
      modifies this`isRunning, this`tickLoopStarts, this`currentState, this`currentTickable, this`trace, this`log
      ensures Valid()
      ensures states == old(states)
      ensures isRunning && tickLoopStarts == 1
      ensures currentState == (if t in states then states[t] else null)
      ensures currentTickable == (if t in states && states[t].stateType.isTickable then states[t] else null)
      ensures outcome == (if t in states then Done else Threw(NullReference))
      ensures trace == old(trace)
                       + (if old(currentState) != null then [Stopped(old(currentState))] else [])
                       + (if t in states then [Started(states[t], args)] else [])
      ensures log == old(log) + (if t in states then [] else [Error]) + (if printLogs then [Info] else [])
    {
      StartTickIfNeed();

      ghost var before := trace;
      var previousState := currentState;
      StopCurrentState();

      var newState := GetState(t);
      ReportIfMissing(t);
      currentState := newState;
      TryToCacheAsTickableState(newState);
      PrintStateChangedLog();
      outcome := StartState(newState, args);

      assert trace == before + HandOver(previousState, newState, args);
      HandOverKeepsDiscipline(previousState, newState, args);
      ReplayAppend(before, HandOver(previousState, newState, args), null);
    }

    /** `CurrentState?.Stop()`. */
    method StopCurrentState()
      modifies this`trace
      ensures trace == old(trace) + (if currentState != null then [Stopped(currentState)] else [])
    {
      if currentState != null {
        trace := trace + [Stopped(currentState)];
      }
    }

    /** `newState.Start(...)`: a null state throws. */
    method StartState(state: StateObject?, args: seq<Arg>) returns (outcome: Outcome)
      modifies this`trace
      ensures outcome == (if state != null then Done else Threw(NullReference))
      ensures trace == old(trace) + (if state != null then [Started(state, args)] else [])
    {
      if state == null {
        return Threw(NullReference);
      }
      trace := trace + [Started(state, args)];
      return Done;
    }

    /** PrintStateChangedLog: the change is written to the console when logs are on. */
    ghost method PrintStateChangedLog()
      modifies this`log
      ensures log == old(log) + (if printLogs then [Info] else [])
    {
      if printLogs {
        log := log + [Info];
      }
    }

    /** One step of the tick loop: tick the cached tickable state, if any. */
    method Tick()
      requires Valid()
      modifies this`trace
      ensures Valid()
      ensures trace == old(trace) + (if currentTickable != null then [Ticked(currentTickable)] else [])
    {
      if currentTickable != null {
        ghost var before := trace;
        trace := trace + [Ticked(currentTickable)];
        ReplayAppend(before, [Ticked(currentTickable)], null);
      }
    }
  }
}
