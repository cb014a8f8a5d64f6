/**
 * The enumeration-keyed dispatcher, BaseStateMachine<TEnum>: a registry from
 * enumeration values to state instances, the current and previous keys, and
 * the tickable state cached for the frame loop.
 */
module EnumMachine {
  import opened StateModel

  /** An enumeration value, by its underlying integer; 0 is default(TEnum). */
  type Key = int

  /** A logger the machine can hold: the built-in console logger or a caller's own. */
  datatype Logger = DefaultLogger | CustomLogger(id: nat)

  class BaseStateMachine {
    var name: Option<string>               // the constructor taking a name stores it unchecked, so it may be null
    var logger: Option<Logger>
    var printLogs: bool
    var states: map<Key, StateObject?>     // AddState stores whatever it is given, null included
    var currentStateKey: Key
    var previousStateKey: Key
    var currentTickable: StateObject?
    var tickLoopStarted: bool               // StartTickAsync has been launched
    ghost var trace: seq<Event>             // every Start, Stop and Tick the machine has called
    ghost var log: seq<LogEntry>            // every message handed to the logger

    /** What the registry holds under `key`, null when nothing is registered. */
    function Lookup(key: Key): StateObject?
      reads this
    {
      if key in states then states[key] else null
    }

    /**
     * The lifecycle calls so far obey the discipline, the state they left
     * running is the one registered under CurrentStateKey, and the tick
     * cache holds nothing else.
     */
    ghost predicate Coherent()
      reads this
    {
      && Replay(trace, null) == Some(Lookup(currentStateKey))
      && (currentTickable != null ==> currentTickable == Lookup(currentStateKey))
    }

    /** Both checks of SwitchState pass: the key holds a state whose Start takes these arguments. */
    predicate CanEnter(key: Key, args: seq<Arg>)
      reads this
    {
      key in states && states[key] != null && Accepts(states[key], args)
    }

    /** The parameterless constructor, the one the factory uses. */
    constructor ()
      ensures name == Some(DefaultName) && logger == Some(DefaultLogger) && printLogs
      ensures states == map[] && currentStateKey == 0 && previousStateKey == 0 && currentTickable == null
      ensures tickLoopStarted && trace == [] && log == []
      ensures Coherent()
    {
      name := Some(DefaultName);
      logger := Some(DefaultLogger);
      printLogs := true;
      states := map[];
      currentStateKey, previousStateKey := 0, 0;
      currentTickable := null;
      trace, log := [], [];
      tickLoopStarted := true;
    }

    /** The constructor taking a name stores it as given, blank or null included. */
    constructor Named(name: Option<string>)
      ensures this.name == name && logger == Some(DefaultLogger) && printLogs
      ensures states == map[] && currentStateKey == 0 && previousStateKey == 0 && currentTickable == null
      ensures tickLoopStarted && trace == [] && log == []
      ensures Coherent()
    {
      this.name := name;
      logger := Some(DefaultLogger);
      printLogs := true;
      states := map[];
      currentStateKey, previousStateKey := 0, 0;
      currentTickable := null;
      trace, log := [], [];
      tickLoopStarted := true;
    }

    /**
     * The constructor taking a logger and a name goes through both setters;
     * a null logger is ignored, which leaves the machine without one.
     */
    constructor WithLogger(customLogger: Option<Logger>, name: Option<string>)
      ensures logger == customLogger && printLogs
      ensures this.name == if IsNullOrWhiteSpace(name) then Some(DefaultName) else name
      ensures states == map[] && currentStateKey == 0 && previousStateKey == 0 && currentTickable == null
      ensures tickLoopStarted && trace == [] && log == []
      ensures Coherent()
    {
      this.name := None;
      logger := None;
      printLogs := true;
      states := map[];
      currentStateKey, previousStateKey := 0, 0;
      currentTickable := null;
      trace, log := [], [];
      new;
      SetLogger(customLogger);
      SetName(name);
      tickLoopStarted := true;
    }

    /** PrintInfoIfPossible and PrintWarningIfPossible: a message reaches the logger only if logs are on and a logger is set. */
    ghost method PrintIfPossible(entry: LogEntry)
      modifies this`log
      ensures log == old(log) + (if printLogs && logger.Some? then [entry] else [])
    {
      if printLogs && logger.Some? {
        log := log + [entry];
      }
    }

    /** The Name setter: null or blank stores the default name, anything else is stored as given. */
    method SetName(value: Option<string>)
      modifies this`name
      ensures name == if IsNullOrWhiteSpace(value) then Some(DefaultName) else value
      ensures !IsNullOrWhiteSpace(name)
    {
      var blank := IsNullOrWhiteSpaceString(value);
      if blank {
        name := Some(DefaultName);
        DefaultNameIsNotBlank();
        return;
      }
      name := value;
    }

    /** The Logger setter: null is refused with a warning (through the old logger), anything else replaces the logger. */
    method SetLogger(value: Option<Logger>)
      modifies this`logger, this`log
      ensures logger == if value.None? then old(logger) else value
      ensures log == old(log) + (if value.None? && printLogs && old(logger).Some? then [Warning] else [])
    {
      if value.None? {
        PrintIfPossible(Warning);
        return;
      }
      logger := value;
    }

    /** AddState: a new key is added with its state; a present key leaves the registry as it was, with a warning. */
    method AddState(key: Key, state: StateObject?)
      modifies this`states, this`log
      ensures key in old(states) ==> states == old(states) && log == old(log) + (if printLogs && logger.Some? then [Warning] else [])
      ensures key !in old(states) ==> states == old(states)[key := state] && log == old(log) + (if printLogs && logger.Some? then [Info] else [])
      ensures key != currentStateKey ==> (Coherent() <==> old(Coherent()))
    {
      if key in states {
        PrintIfPossible(Warning);
        return;
      }
      states := states[key := state];
      PrintIfPossible(Info);
    }

    /** RemoveState: a present key is removed and nothing else; a missing key leaves the registry as it was, with a warning. */
    method RemoveState(key: Key)
      modifies this`states, this`log
      ensures states == old(states) - {key}
      ensures log == old(log) + (if printLogs && logger.Some? then [if key in old(states) then Info else Warning] else [])
      ensures key != currentStateKey ==> (Coherent() <==> old(Coherent()))
    {
      if key !in states {
        PrintIfPossible(Warning);
        return;
      }
      states := states - {key};
      PrintIfPossible(Info);
    }

    /** ValidateStateExist: the key must be registered with a non-null state. */
    method ValidateStateExist(key: Key) returns (outcome: Outcome)
      ensures outcome.Done? <==> key in states && states[key] != null
      ensures outcome.Threw? ==> outcome.exception == NullReference
    {
      if key !in states || states[key] == null {
        return Threw(NullReference);
      }
      return Done;
    }

    /** ValidateStateType: the state must implement the Start interface the arguments select. */
    method ValidateStateType(key: Key, target: StateObject, args: seq<Arg>) returns (outcome: Outcome)
      ensures outcome.Done? <==> SignatureOf(args) in target.stateType.startSignatures
      ensures outcome.Threw? ==> outcome.exception == InvalidCast
    {
      if !Accepts(target, args) {
        return Threw(InvalidCast);
      }
      return Done;
    }

    /**
     * StopPreviousState: if CurrentStateKey is registered, stop what is
     * registered under PreviousStateKey (SwitchState has just made the two
     * keys equal).
     */
    method StopPreviousState() returns (outcome: Outcome)
      modifies this`trace
      ensures currentStateKey !in states ==> outcome == Done && trace == old(trace)
      ensures currentStateKey in states && previousStateKey !in states ==>
                outcome == Threw(KeyNotFound) && trace == old(trace)
      ensures currentStateKey in states && previousStateKey in states && states[previousStateKey] == null ==>
                outcome == Threw(NullReference) && trace == old(trace)
      ensures currentStateKey in states && previousStateKey in states && states[previousStateKey] != null ==>
                outcome == Done && trace == old(trace) + [Stopped(states[previousStateKey])]
    {
      if currentStateKey !in states {
        return Done;
      }
      if previousStateKey !in states {
        return Threw(KeyNotFound);
      }
      var previousState := states[previousStateKey];
      if previousState == null {
        return Threw(NullReference);
      }
      trace := trace + [Stopped(previousState)];
      return Done;
    }

    /** TryCacheCurrentStateAsTickable: cache the current state if it is tickable, otherwise clear the cache. */
    method TryCacheCurrentStateAsTickable() returns (outcome: Outcome)
      modifies this`currentTickable
      ensures currentStateKey !in states ==> outcome == Threw(KeyNotFound) && currentTickable == old(currentTickable)
      ensures currentStateKey in states ==> outcome == Done
      ensures currentStateKey in states ==>
                currentTickable == (if states[currentStateKey] != null && states[currentStateKey].stateType.isTickable
                                    then states[currentStateKey] else null)
    {
      if currentStateKey !in states {
        return Threw(KeyNotFound);
      }
      var current := states[currentStateKey];
      if current == null || !current.stateType.isTickable {
        currentTickable := null;
        return Done;
      }
      currentTickable := current;
      return Done;
    }

    /**
     * The four SwitchState overloads: `args` holds the 0 to 3 arguments passed
     * on to Start. Both checks run before anything changes; then the old key
     * becomes the previous key, the state registered under it is stopped,
     * the new key becomes current, the tick cache is refreshed and the new
     * state is started, last. Only the parameterless overload logs the change.
     */
    method SwitchState(key: Key, args: seq<Arg>) returns (outcome: Outcome)
      requires |args| <= 3
      modifies this`previousStateKey, this`currentStateKey, this`currentTickable, this`trace, this`log
      ensures states == old(states)
      // ValidateStateExist: an unknown key, or one registered with null, changes nothing
      ensures key !in states || states[key] == null ==>
                outcome == Threw(NullReference) && unchanged(this)
      // ValidateStateType: a state without a matching Start changes nothing
      ensures key in states && states[key] != null && !Accepts(states[key], args) ==>
                outcome == Threw(InvalidCast) && unchanged(this)
      // StopPreviousState dereferences the null registered under the old key
      ensures CanEnter(key, args) && old(currentStateKey) in states && states[old(currentStateKey)] == null ==>
                && outcome == Threw(NullReference)
                && previousStateKey == currentStateKey == old(currentStateKey)
                && currentTickable == old(currentTickable) && trace == old(trace) && log == old(log)
      ensures outcome.Done? <==> CanEnter(key, args) && (old(currentStateKey) in states ==> states[old(currentStateKey)] != null)
      ensures outcome.Done? ==>
                && previousStateKey == old(currentStateKey)
                && currentStateKey == key
                && currentTickable == (if states[key].stateType.isTickable then states[key] else null)
                && trace == old(trace)
                            + (if old(currentStateKey) in states then [Stopped(states[old(currentStateKey)])] else [])
                            + [Started(states[key], args)]
                && log == old(log) + (if |args| == 0 && printLogs && logger.Some? then [Info] else [])
      ensures old(Coherent()) ==> Coherent()
    {
      outcome := ValidateStateExist(key);
      if outcome.Threw? {
        return;
      }
      var state := states[key];
      outcome := ValidateStateType(key, state, args);
      if outcome.Threw? {
        return;
      }
      ghost var before := trace;

      previousStateKey := currentStateKey;
      outcome := StopPreviousState();
      if outcome.Threw? {
        return;
      }

      currentStateKey := key;
      if |args| == 0 {
        PrintIfPossible(Info);
      }
      outcome := TryCacheCurrentStateAsTickable();
      trace := trace + [Started(state, args)];

      if old(Coherent()) {
        ghost var running := old(Lookup(currentStateKey));
        assert trace == before + HandOver(running, state, args);
        HandOverKeepsDiscipline(running, state, args);
        ReplayAppend(before, HandOver(running, state, args), null);
      }
    }

    /** One step of the frame loop: tick the cached tickable state, if any. */
    method Tick()
      modifies this`trace
      ensures trace == old(trace) + (if currentTickable != null then [Ticked(currentTickable)] else [])
      ensures old(Coherent()) ==> Coherent()
    {
      if currentTickable != null {
        ghost var before := trace;
        trace := trace + [Ticked(currentTickable)];
        ReplayAppend(before, [Ticked(currentTickable)], null);
      }
    }
  }
}
