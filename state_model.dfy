/**
 * Vocabulary shared by both dispatchers and the factory: the state classes a
 * registry can hold, state instances, the arguments handed to Start, the
 * lifecycle calls a dispatcher makes on its states, the exceptions the runtime
 * raises, and the name rules both machines apply.
 */
module StateModel {

  datatype Option<T> = None | Some(value: T)

  /** The .NET exceptions the modelled code raises, by class. */
  datatype Exception =
    | NullReference     // NullReferenceException
    | InvalidCast       // InvalidCastException
    | KeyNotFound       // KeyNotFoundException, from a dictionary indexer
    | DuplicateKey      // ArgumentException, from Dictionary.Add with a present key
    | InvalidProgram    // InvalidProgramException
    | MissingMethod     // MissingMethodException, from Activator.CreateInstance

  /** The kind of a message handed to a logger or the console. */
  datatype LogEntry = Info | Warning | Error

  /** A call that returns normally or throws. */
  datatype Outcome = Done | Threw(exception: Exception)

  /** A call that returns a value or throws. */
  datatype Result<T> = Ok(value: T) | Err(error: Exception)

  /** Name of a runtime type: a state class, or the static type of a Start argument. */
  type TypeName = string

  /**
   * One Start overload a state class implements, as the type arguments of its
   * interface: [] for IState, [T0] for IStateOneParam<T0>, [T0, T1] for
   * IStateTwoParams<T0, T1>, [T0, T1, T2] for IStateThreeParams<T0, T1, T2>.
   */
  type Signature = seq<TypeName>

  /** What type tests and reflection can learn about a state class. */
  datatype StateType = StateType(
    name: TypeName,
    isBaseState: bool,                 // implements IBaseState
    startSignatures: set<Signature>,   // the Start interfaces it implements
    isTickable: bool,                  // implements ITickable
    constructorParamCounts: seq<nat>,  // parameter count of each public constructor
    isValueType: bool)                 // a struct: no constructor metadata, yet Activator.CreateInstance boxes a default value

  /** A state instance. Its identity is the object's; its class never changes. */
  class StateObject {
    const stateType: StateType

    constructor (t: StateType)
      ensures stateType == t
    {
      stateType := t;
    }
  }

  /** One argument passed to Start: the static type the compiler infers, and an opaque value. */
  datatype Arg = Arg(staticType: TypeName, value: int)

  /** The Start interface a call with these arguments resolves to. */
  function SignatureOf(args: seq<Arg>): Signature
  {
    seq(|args|, i requires 0 <= i < |args| => args[i].staticType)
  }

  /** The type test `state is IStateXxx<...>` for the overload `args` selects. */
  predicate Accepts(s: StateObject, args: seq<Arg>)
  {
    SignatureOf(args) in s.stateType.startSignatures
  }

  /** A lifecycle call a dispatcher makes on one of its states. */
  datatype Event =
    | Started(state: StateObject, args: seq<Arg>)
    | Stopped(state: StateObject)
    | Ticked(state: StateObject)

  /**
   * The effect of one lifecycle call on the running state (null: none runs),
   * or None when the call breaks the discipline: Start while another state
   * runs, Stop or Tick of a state that is not the running one.
   */
  function LifecycleStep(e: Event, running: StateObject?): Option<StateObject?>
  {
    match e
    case Started(s, _) => if running == null then Some(s) else None
    case Stopped(s) => if running == s then Some(null) else None
    case Ticked(s) => if running == s then Some(running) else None
  }

  /**
   * Replays lifecycle calls from a moment when `running` ran: the state
   * running afterwards, or None if some call broke the discipline.
   */
  function Replay(events: seq<Event>, running: StateObject?): Option<StateObject?>
    decreases |events|
  {
    if events == [] then Some(running)
    else
      match LifecycleStep(events[0], running)
      case None => None
      case Some(next) => Replay(events[1..], next)
  }

  /** Replaying two stretches of calls one after the other is replaying their concatenation. */
  lemma {:induction false} ReplayAppend(a: seq<Event>, b: seq<Event>, running: StateObject?)
    ensures Replay(a + b, running) ==
              match Replay(a, running)
              case None => None
              case Some(r) => Replay(b, r)
    decreases |a|
  {
    if a == [] {
      assert a + b == b;
    } else {
      assert (a + b)[0] == a[0];
      assert (a + b)[1..] == a[1..] + b;
      match LifecycleStep(a[0], running)
      case None =>
      case Some(next) => ReplayAppend(a[1..], b, next);
    }
  }

  /** The calls of one switch: stop the running state, if any, then start the next one, if any. */
  function HandOver(running: StateObject?, next: StateObject?, args: seq<Arg>): seq<Event>
  {
    (if running != null then [Stopped(running)] else []) + (if next != null then [Started(next, args)] else [])
  }

  /** A switch keeps the discipline and leaves the next state running, whatever ran before. */
  lemma HandOverKeepsDiscipline(running: StateObject?, next: StateObject?, args: seq<Arg>)
    ensures Replay(HandOver(running, next, args), running) == Some(next)
  {
    var events := HandOver(running, next, args);
    if running != null {
      assert events[1..] == if next != null then [Started(next, args)] else [];
      assert Replay(events[1..], null) == Some(next);
    } else if next != null {
      assert events[1..] == [];
    }
  }

  /** The name both machines start with. */
  const DefaultName: string := "Unnamed state machine"

  /** char.IsWhiteSpace: the Unicode space, line and paragraph separators, U+0009..U+000D and U+0085. */
  predicate IsWhiteSpaceChar(c: char)
  {
    || c == ' '
    || ('\t' <= c <= '\r')
    || c == '\U{0085}'
    || c == '\U{00A0}'
    || c == '\U{1680}'
    || ('\U{2000}' <= c <= '\U{200A}')
    || c == '\U{2028}'
    || c == '\U{2029}'
    || c == '\U{202F}'
    || c == '\U{205F}'
    || c == '\U{3000}'
  }

  /** string.IsNullOrWhiteSpace, with None standing for null. */
  predicate IsNullOrWhiteSpace(s: Option<string>)
  {
    match s
    case None => true
    case Some(str) => forall i :: 0 <= i < |str| ==> IsWhiteSpaceChar(str[i])
  }

  /** string.IsNullOrWhiteSpace, computed. */
  method IsNullOrWhiteSpaceString(value: Option<string>) returns (blank: bool)
    ensures blank == IsNullOrWhiteSpace(value)
  {
    if value.None? {
      return true;
    }
    var s := value.value;
    for i := 0 to |s|
      invariant forall j :: 0 <= j < i ==> IsWhiteSpaceChar(s[j])
    {
      if !IsWhiteSpaceChar(s[i]) {
        return false;
      }
    }
    return true;
  }

  /** The default name is itself a usable name. */
  lemma DefaultNameIsNotBlank()
    ensures !IsNullOrWhiteSpace(Some(DefaultName))
  {
    assert !IsWhiteSpaceChar(DefaultName[0]);
  }
}
