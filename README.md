# State machine dispatcher, modelled in Dafny

This project models the runtime core of a small finite-state-machine library for a game engine. The core has three parts:

- **`BaseStateMachine<TEnum>`** (`EnumMachine.BaseStateMachine`). A registry maps enumeration values to state instances. The machine holds a current key and a previous key, and it caches the current state when that state is tickable.
- **`PureStateMachine`** (`PureMachine.PureStateMachine`). A registry maps each state's runtime class to its instance. The machine holds a nullable current state, the cached tickable state, and an `IsRunning` latch that launches the tick loop once.
- **`BaseStateMachineFactory`** (module `MachineFactory`). It checks that the state enumeration starts with `None`. It reads the `[Bind]` annotations on the enumeration's members and creates one state per bound member. It then adds these states to a freshly built machine and calls its hooks in a fixed order.

Shared vocabulary lives in `StateModel`. It covers state classes, state instances, Start arguments, lifecycle calls and the .NET exceptions raised.

How the source maps onto Dafny:

- **States** are objects (`StateObject`), so identity and freshness are real. A state class is a `StateType` value. It records which Start interfaces the class implements, each written as the list of its type arguments (`[]` for `IState`, `[T0]` for `IStateOneParam<T0>`, and so on). It also records whether the class is `ITickable`, whether it is an `IBaseState`, the parameter counts of its public constructors, and whether it is a struct. These stand in for `is`/`as` type tests and for reflection.
- **Start arguments.** The four `SwitchState` overloads of each machine are one method. It takes `args`, the 0 to 3 arguments handed to `Start`. Each argument carries the static type that C# overload resolution would see.
- **Exceptions** are `Outcome`/`Result` values. Fields that were already assigned before the throw stay assigned, as in the source.
- **Lifecycle trace.** Each machine keeps a ghost trace of the `Start`, `Stop` and `Tick` calls it makes on its states. `Replay` checks that trace against the lifecycle discipline:
  - `Start` only when no state is running;
  - `Stop` and `Tick` only of the running state.
- **Pure machine invariant.** `PureStateMachine.Valid()` says the trace always obeys the discipline and leaves `CurrentState` running.
- **Enum machine invariant.** For `BaseStateMachine` this holds only while the machine is `Coherent()`, meaning the state registered under `CurrentStateKey` is the running one.
  - `SwitchState` and `Tick` keep coherence.
  - `AddState` and `RemoveState` keep it when they leave the current key alone.
  - A machine built by `Create` is coherent exactly when nothing is bound to key 0, which is `default(TEnum)`.
  - Otherwise the first switch stops a state that was never started, because `StopPreviousState` stops whatever is registered under the old key (`MachineFactory.CreateAndSwitch`).
- **Console and logger output** is recorded only as a ghost list of message kinds (`Info`, `Warning`, `Error`).

## Model

| member | source | states |
|---|---|---|
| `StateModel.HandOverKeepsDiscipline` | Runtime/PureStateMachine.cs:130-145 | a switch stops the running state (if any) before it starts the next one; replaying those calls keeps the lifecycle discipline and leaves the next state running |
| `StateModel.IsNullOrWhiteSpaceString` | Runtime/BaseStateMachine.cs:69 | computes string.IsNullOrWhiteSpace: true exactly for null or a string of char.IsWhiteSpace characters |
| `StateModel.DefaultNameIsNotBlank` | Runtime/BaseStateMachine.cs:15 | "Unnamed state machine" is itself a non-blank name |
| `StateModel.StateObject.constructor` | Runtime/BaseStateMachineFactory.cs:50 | a created instance belongs to the class it was created from |
| `EnumMachine.BaseStateMachine.constructor` | Runtime/BaseStateMachine.cs:22-27 | default name, default logger, empty registry, both keys default(TEnum) (0), nothing cached, tick loop launched; the machine is coherent |
| `EnumMachine.BaseStateMachine.Named` | Runtime/BaseStateMachine.cs:29-34 | the name is stored unchecked (null or blank included); otherwise as the parameterless constructor |
| `EnumMachine.BaseStateMachine.WithLogger` | Runtime/BaseStateMachine.cs:36-43 | goes through both setters: a null logger leaves the machine without one, a blank name becomes the default |
| `EnumMachine.BaseStateMachine.PrintIfPossible` | Runtime/BaseStateMachine.cs:175-195 | a message reaches the logger only when PrintLogs is on and a logger is set |
| `EnumMachine.BaseStateMachine.SetName` | Runtime/BaseStateMachine.cs:64-77 | null or whitespace stores "Unnamed state machine", any other value is stored as given; the stored name is never blank |
| `EnumMachine.BaseStateMachine.SetLogger` | Runtime/BaseStateMachine.cs:47-63 | null is ignored (a warning goes to the old logger if possible); any other logger replaces it |
| `EnumMachine.BaseStateMachine.AddState` | Runtime/BaseStateMachine.cs:83-99 | a new key is added with exactly that state (null included); a present key leaves the registry unchanged with a warning; coherence is unaffected unless the key is the current one |
| `EnumMachine.BaseStateMachine.RemoveState` | Runtime/BaseStateMachine.cs:101-116 | only the given key is deleted; a missing key is a no-op with a warning; coherence is unaffected unless the key is the current one |
| `EnumMachine.BaseStateMachine.ValidateStateExist` | Runtime/BaseStateMachine.cs:204-211 | passes iff the key is registered with a non-null state, otherwise NullReferenceException |
| `EnumMachine.BaseStateMachine.ValidateStateType` | Runtime/BaseStateMachine.cs:213-221 | passes iff the state implements the Start interface the arguments select, otherwise InvalidCastException |
| `EnumMachine.BaseStateMachine.StopPreviousState` | Runtime/BaseStateMachine.cs:234-241 | stops what is registered under PreviousStateKey only when CurrentStateKey is registered; a null there throws |
| `EnumMachine.BaseStateMachine.TryCacheCurrentStateAsTickable` | Runtime/BaseStateMachine.cs:223-232 | caches the current key's state if it is tickable, otherwise clears the cache |
| `EnumMachine.BaseStateMachine.SwitchState` | Runtime/BaseStateMachine.cs:118-173 | an absent or null key, or a Start arity/type mismatch, throws before any key changes or Stop; on success the previous key is the old current key, the current key is the requested one, Stop of the old key's state (only if that key is registered) precedes Start of the new state with the given arguments, Start is last, the cache is the new state iff it is tickable, only the parameterless overload logs; a coherent machine stays coherent, also when switching to the same key |
| `EnumMachine.BaseStateMachine.Tick` | Runtime/BaseStateMachine.cs:243-250 | one frame of the tick loop ticks the cached state, if any, and keeps coherence |
| `PureMachine.PureStateMachine.constructor` | Runtime/PureStateMachine.cs:75-78 | "Unnamed state machine" stays unless the given name is usable; empty registry, no current state, latch off |
| `PureMachine.PureStateMachine.WithTickDilation` | Runtime/PureStateMachine.cs:80-87 | as the one-argument constructor, with the given tick dilation |
| `PureMachine.PureStateMachine.SetName` | Runtime/PureStateMachine.cs:47-56 | null or whitespace is ignored and the previous name kept; any other value is stored |
| `PureMachine.PureStateMachine.AddState` | Runtime/PureStateMachine.cs:93-105 | null leaves the registry unchanged with a console error and no exception; a state is stored under its own class; a second state of a registered class throws from Dictionary.Add and changes nothing |
| `PureMachine.PureStateMachine.RemoveState` | Runtime/PureStateMachine.cs:111-114 | removes only the entry keyed by the state's class (whichever instance it holds), no-op if absent; null throws |
| `PureMachine.PureStateMachine.RemoveAllStates` | Runtime/PureStateMachine.cs:119-122 | the registry is empty afterwards |
| `PureMachine.PureStateMachine.GetState` | Runtime/PureStateMachine.cs:245-256 | non-null iff the class is registered, and then it is the registered instance and of that very class, so the `as` cast never fails |
| `PureMachine.PureStateMachine.ReportIfMissing` | Runtime/PureStateMachine.cs:247-253 | a console error is written exactly when the class is not registered |
| `PureMachine.PureStateMachine.StartTickIfNeed` | Runtime/PureStateMachine.cs:237-243 | sets the latch; launches the tick loop only if the latch was off, so across all switches it is launched exactly once |
| `PureMachine.PureStateMachine.TryToCacheAsTickableState` | Runtime/PureStateMachine.cs:270-276 | resets the cache and keeps the state only if it is tickable |
| `PureMachine.PureStateMachine.StopCurrentState` | Runtime/PureStateMachine.cs:133 | the current state, if any, receives Stop |
| `PureMachine.PureStateMachine.StartState` | Runtime/PureStateMachine.cs:145 | Start with the given arguments on a state; on null it throws NullReferenceException |
| `PureMachine.PureStateMachine.PrintStateChangedLog` | Runtime/PureStateMachine.cs:258-268 | the change is written only when PrintLogs is on |
| `PureMachine.PureStateMachine.SwitchState` | Runtime/PureStateMachine.cs:128-230 | sets the latch, stops the old current state if any, makes the registered instance of the class (or null) current, caches it iff tickable, and calls Start last; an unregistered class leaves CurrentState null and Start throws; the lifecycle discipline and the other invariants are kept |
| `PureMachine.PureStateMachine.Tick` | Runtime/PureStateMachine.cs:232-235 | ticks the cached state, if any, which is always the current state |
| `MachineFactory.ValidateEnumHasNoneValue` | Runtime/BaseStateMachineFactory.cs:138-146 | passes iff the enumeration has values and the first is named None, otherwise InvalidProgramException |
| `MachineFactory.TryGetBindedType` | Runtime/BaseStateMachineFactory.cs:98-112 | yields a type iff the member has member info and a [Bind], and then the type it names, which is null for `[Bind(null)]` |
| `MachineFactory.ValidateStateHasNotParams` | Runtime/BaseStateMachineFactory.cs:124-136 | a null type throws NullReferenceException; otherwise passes iff every public constructor is parameterless, else InvalidProgramException |
| `MachineFactory.BoundMap` | Runtime/BaseStateMachineFactory.cs:84-96 | the bound-state dictionary has exactly the keys of the members carrying [Bind], each mapped to its bound type; other members add nothing |
| `MachineFactory.GetBindedStates` | Runtime/BaseStateMachineFactory.cs:84-96 | the bound entries in enumeration order; throws from Dictionary.Add exactly when two bound values share a key |
| `MachineFactory.CreateState` | Runtime/BaseStateMachineFactory.cs:47-51 | a fresh instance of the bound class, or the exception of ValidateStateHasNotParams (NullReferenceException for a null type), of a missing parameterless constructor (a class without public constructors; a struct is created from its default value), or of the cast to IBaseState; the class's constructor is taken to return normally |
| `MachineFactory.InstantiatedKeys` | Runtime/BaseStateMachineFactory.cs:70-82 | creating one state per bound entry keeps the key set, and each key's state is of the class bound to it |
| `MachineFactory.CreateStates` | Runtime/BaseStateMachineFactory.cs:70-82 | exactly one fresh, distinct state per bound key, in order; otherwise the dictionary's exception or that of the first state that cannot be created |
| `MachineFactory.CreateStatesIn` | Runtime/BaseStateMachineFactory.cs:114-122 | every created state is offered to AddState under its key, so the registry becomes the created map under the entries already there |
| `MachineFactory.FreshMachineCoherence` | Runtime/BaseStateMachine.cs:234-241 | a machine that has not switched yet and holds only non-null states is coherent exactly when nothing is registered under its current key, default(TEnum) |
| `MachineFactory.ValueTypeStateIsCreated` | Runtime/BaseStateMachineFactory.cs:47-51 | with no public constructors, a struct is created (or fails only the cast to IBaseState), while a class fails with MissingMethodException |
| `MachineFactory.CreateEach` | Runtime/BaseStateMachineFactory.cs:75-79 | one fresh, distinct instance per entry, same keys and order, or the exception of the first entry whose class cannot be created |
| `MachineFactory.AddEach` | Runtime/BaseStateMachineFactory.cs:116-119 | offering entries with distinct keys to AddState one by one leaves the registry as the entries' map under the entries already there |
| `MachineFactory.BuildMachine` | Runtime/BaseStateMachineFactory.cs:25-26 | a fresh machine is created with an empty registry and recorded at once; the states are added next, and that step is recorded with the registry it leaves only when every state could be created; a failure throws the dictionary's or the first creation's exception |
| `MachineFactory.Create` | Runtime/BaseStateMachineFactory.cs:21-29 | validation runs first, and its failure throws before any hook or machine; then BeforeStateMachineCreated, machine creation (registry empty), adding the states, and AfterStateMachineCreated receiving the populated registry, in that order, each recorded where it happens; the returned machine is the created one, and its registry equals the created map with the bound key set |
| `MachineFactory.CreateAndSwitch` | Runtime/BaseStateMachine.cs:118-131 | after Create, the first successful switch stops the state bound to default(TEnum), if any, and then starts the new one; the lifecycle calls obey the discipline exactly when nothing is bound to default(TEnum), so a state bound there is stopped without ever having been started |

## Left out

- The per-frame loops. `StartTickAsync` and `SafeAsync.RepeatWhile` repeat engine-driven async work. They are a launched-loop flag plus one `Tick` step; `IsTickEnabled` and `TickDilationInFrames` are stored but never read.
- Message texts and the logger and console implementations. `DefaultLogger`, `PrintToConsole` and `Debug.Log` are I/O; only the kind of each message is recorded.
- The bodies of `Start`, `Stop` and `Tick`. They are user callbacks, including the re-entrant `SwitchState` calls that demo states make. The model assumes each returns normally.
- The virtual hooks `BeforeStateMachineCreated`, `CreateState` and `AfterStateMachineCreated`. Only their default behaviour is modelled; a subclass override is not.
- `MachineFactory.BuildMachine` takes `new TStateMachine()` to run the parameterless base constructor and to register nothing. `BaseStateMachine` is abstract, so this is really a user subclass's constructor. That constructor may chain to another base constructor, as the demo's `ExampleStateMachine` chains to the named one, and it may call `AddState` itself. Overrides of `CreateStateMachine` are not modelled either. The empty registry that `Create` records at machine creation rests on these assumptions.
- Reflection itself. `Enum.GetValues`, `GetMember`, `GetCustomAttribute`, `GetConstructors` and `Activator.CreateInstance` become the `EnumValue` sequence and `StateType` fields.
  - The order of `Enum.GetValues` is taken as given. .NET sorts the values by the unsigned magnitude of the underlying value, so a negative member comes after every non-negative one.
  - For an aliased value, `ToString` picks one of the names. The model instead gives each entry its own binding.
  - `Activator.CreateInstance` also fails for abstract classes. That is not modelled.
- `MachineFactory.CreateState` takes a state's parameterless constructor, which is user code, to return normally. A constructor that throws would make `Activator.CreateInstance` throw TargetInvocationException; the model reports success instead. A struct state (`StateType.isValueType`) is modelled: it has no public constructors and is created from its default value.
- Generic variance. Type arguments must match exactly, which suits the invariant interfaces.
- Dictionary enumeration order is taken to be insertion order, which is what .NET does for a dictionary that never had a removal.
- `EnumMachine.BaseStateMachine.TryCacheCurrentStateAsTickable` treats the `CurrentStateKey.NotExist()` test as always false. A boxed enumeration value is never null, and the helper's own source (an extension in SimpleMan.Utilities) is not part of this model.
- `MachineFactory.CreateStatesIn` does not state what it adds to the machine's ghost log: one `Info` per state added, if logging is possible.
- The `PrintLogs` and `IsTickEnabled` properties are plain auto-properties with public setters. They are fields here, and no setter method is modelled.
- Demo scenes and the interface-only files. They are engine glue, or declarations used only as shapes for the model.
