/**
 * BaseStateMachineFactory: validates the state enumeration, reads the [Bind]
 * annotations on its members, creates one state per bound member and adds
 * them to a freshly created machine, calling its hooks in a fixed order.
 *
 * Reflection is replaced by its answers: the enumeration is the sequence of
 * values Enum.GetValues yields, each with what GetMember and
 * GetCustomAttribute report for it, and a state class is described by its
 * StateType.
 */
module MachineFactory {
  import opened StateModel
  import opened EnumMachine

  /** The System.Type a [Bind] names: None for `[Bind(null)]`, which the attribute accepts. */
  type BoundType = Option<StateType>

  /** What reflection finds for one enumeration value. */
  datatype Binding =
    | NoMemberInfo               // GetMember found no member
    | NotBound                   // a member without [Bind]
    | BoundTo(bindedType: BoundType)

  /** One value of the state enumeration, in the order Enum.GetValues yields it. */
  datatype EnumValue = EnumValue(name: string, key: Key, binding: Binding)

  /**
   * The steps of Create, in the order they are taken; each step after
   * machine creation carries the machine's registry at that moment.
   */
  datatype FactoryStep =
    | BeforeCreated
    | MachineCreated(registry: map<Key, StateObject?>)
    | StatesAdded(registry: map<Key, StateObject?>)
    | AfterCreated(registry: map<Key, StateObject?>)

  // ---------------------------------------------------------------------
  // Dictionaries filled in insertion order, as sequences of entries

  /** The map view of a dictionary filled by adding `entries` in order. */
  function AsMap<V>(entries: seq<(Key, V)>): map<Key, V>
  {
    if entries == [] then map[]
    else
      var last := entries[|entries| - 1];
      AsMap(entries[..|entries| - 1])[last.0 := last.1]
  }

  /** No key is added twice, so Dictionary.Add never throws. */
  predicate DistinctKeys<V>(entries: seq<(Key, V)>)
  {
    forall i, j :: 0 <= i < j < |entries| ==> entries[i].0 != entries[j].0
  }

  /** The dictionary holds exactly the keys of its entries. */
  lemma {:induction false} AsMapKeys<V>(entries: seq<(Key, V)>)
    ensures forall k :: k in AsMap(entries) <==> exists j :: 0 <= j < |entries| && entries[j].0 == k
    decreases |entries|
  {
    if entries != [] {
      var init := entries[..|entries| - 1];
      AsMapKeys(init);
      forall k | k in AsMap(entries)
        ensures exists j :: 0 <= j < |entries| && entries[j].0 == k
      {
        if k != entries[|entries| - 1].0 {
          assert k in AsMap(init);
          var j :| 0 <= j < |init| && init[j].0 == k;
          assert entries[j].0 == k;
        }
      }
      forall k | exists j :: 0 <= j < |entries| && entries[j].0 == k
        ensures k in AsMap(entries)
      {
        var j :| 0 <= j < |entries| && entries[j].0 == k;
        if j < |init| {
          assert init[j].0 == k;
        }
      }
    }
  }

  /** Adding one more entry to the dictionary. */
  lemma AsMapSnoc<V>(entries: seq<(Key, V)>, key: Key, value: V)
    ensures AsMap(entries + [(key, value)]) == AsMap(entries)[key := value]
  {
    assert (entries + [(key, value)])[..|entries|] == entries;
  }

  /**
   * Offering a key the created map does not hold yet to AddState: the
   * registry is again the created map, now with that entry, under the old
   * entries.
   */
  lemma OfferEntry(created: map<Key, StateObject?>, original: map<Key, StateObject?>, key: Key, state: StateObject?)
    requires key !in created
    ensures key in original ==> created[key := state] + original == created + original
    ensures key !in original ==> created[key := state] + original == (created + original)[key := state]
  {
  }

  // ---------------------------------------------------------------------
  // Checks over the inputs

  /** ValidateEnumHasNoneValue: the enumeration must have values, and the first must be named None. */
  function ValidateEnumHasNoneValue(values: seq<EnumValue>): (outcome: Outcome)
    ensures outcome.Done? <==> |values| > 0 && values[0].name == "None"
    ensures outcome.Threw? ==> outcome.exception == InvalidProgram
  {
    if |values| == 0 || values[0].name != "None" then Threw(InvalidProgram) else Done
  }

  /** TryGetBindedType: the type a member's [Bind] names; nothing without member info or without the annotation. */
  function TryGetBindedType(value: EnumValue): (bound: Option<BoundType>)
    ensures bound.Some? <==> value.binding.BoundTo?
    ensures bound.Some? ==> bound.value == value.binding.bindedType
  {
    match value.binding
    case NoMemberInfo => None
    case NotBound => None
    case BoundTo(t) => Some(t)
  }

  /**
   * ValidateStateHasNotParams: every public constructor of the class must be
   * parameterless; a null type throws on GetConstructors().
   */
  method ValidateStateHasNotParams(bound: BoundType) returns (outcome: Outcome)
    ensures bound.None? ==> outcome == Threw(NullReference)
    ensures bound.Some? ==>
              (outcome.Done? <==> forall i :: 0 <= i < |bound.value.constructorParamCounts| ==> bound.value.constructorParamCounts[i] == 0)
    ensures bound.Some? && outcome.Threw? ==> outcome.exception == InvalidProgram
  {
    if bound.None? {
      return Threw(NullReference);
    }
    var constructors := bound.value.constructorParamCounts;
    for i := 0 to |constructors|
      invariant forall j :: 0 <= j < i ==> constructors[j] == 0
    {
      if constructors[i] > 0 {
        return Threw(InvalidProgram);
      }
    }
    return Done;
  }

  // ---------------------------------------------------------------------
  // The bound-state dictionary

  /** The entries GetBindedStates adds, in enumeration order: one per value whose member carries [Bind]. */
  function BoundEntries(values: seq<EnumValue>): seq<(Key, BoundType)>
  {
    if values == [] then []
    else
      var last := values[|values| - 1];
      BoundEntries(values[..|values| - 1])
        + match TryGetBindedType(last)
          case None => []
          case Some(t) => [(last.key, t)]
  }

  /** No two values with a [Bind] share a key (only aliased enumeration values can). */
  predicate NoSharedBoundKey(values: seq<EnumValue>)
  {
    forall i, j :: 0 <= i < j < |values| && values[i].binding.BoundTo? && values[j].binding.BoundTo? ==>
      values[i].key != values[j].key
  }

  /**
   * The bound-state dictionary holds exactly the keys of the values that
   * carry [Bind], each mapped to the type it names; values without member
   * info or without the annotation contribute nothing.
   */
  lemma BoundMap(values: seq<EnumValue>)
    requires NoSharedBoundKey(values)
    ensures forall k :: k in AsMap(BoundEntries(values)) <==>
              exists i :: 0 <= i < |values| && values[i].key == k && values[i].binding.BoundTo?
    ensures forall i :: 0 <= i < |values| && values[i].binding.BoundTo? ==>
              values[i].key in AsMap(BoundEntries(values)) &&
              AsMap(BoundEntries(values))[values[i].key] == values[i].binding.bindedType
  {
    BoundKeys(values);
    BoundValues(values);
  }

  /** The entries of BoundEntries, split at its last value. */
  lemma BoundEntriesSnoc(values: seq<EnumValue>)
    requires values != []
    ensures var n := |values| - 1;
            AsMap(BoundEntries(values)) ==
              if values[n].binding.BoundTo?
              then AsMap(BoundEntries(values[..n]))[values[n].key := values[n].binding.bindedType]
              else AsMap(BoundEntries(values[..n]))
  {
    var n := |values| - 1;
    var before := BoundEntries(values[..n]);
    if values[n].binding.BoundTo? {
      assert BoundEntries(values) == before + [(values[n].key, values[n].binding.bindedType)];
      AsMapSnoc(before, values[n].key, values[n].binding.bindedType);
    } else {
      assert BoundEntries(values) == before;
    }
  }

  /** The keys of the bound-state dictionary are the keys of the values carrying [Bind]. */
  lemma {:induction false} BoundKeys(values: seq<EnumValue>)
    ensures forall k :: k in AsMap(BoundEntries(values)) <==>
              exists i :: 0 <= i < |values| && values[i].key == k && values[i].binding.BoundTo?
    decreases |values|
  {
    if values != [] {
      var n := |values| - 1;
      var init, last := values[..n], values[n];
      BoundKeys(init);
      BoundEntriesSnoc(values);
      forall k | k in AsMap(BoundEntries(values))
        ensures exists i :: 0 <= i < |values| && values[i].key == k && values[i].binding.BoundTo?
      {
        if !(last.binding.BoundTo? && k == last.key) {
          assert k in AsMap(BoundEntries(init));
          var i :| 0 <= i < n && init[i].key == k && init[i].binding.BoundTo?;
          assert values[i] == init[i];
        }
      }
      forall k | exists i :: 0 <= i < |values| && values[i].key == k && values[i].binding.BoundTo?
        ensures k in AsMap(BoundEntries(values))
      {
        var i :| 0 <= i < |values| && values[i].key == k && values[i].binding.BoundTo?;
        if i < n {
          assert init[i] == values[i];
          assert k in AsMap(BoundEntries(init));
        }
      }
    }
  }

  /** With no key bound twice, each bound value's key maps to the type it names. */
  lemma {:induction false} BoundValues(values: seq<EnumValue>)
    requires NoSharedBoundKey(values)
    ensures forall i :: 0 <= i < |values| && values[i].binding.BoundTo? ==>
              values[i].key in AsMap(BoundEntries(values)) &&
              AsMap(BoundEntries(values))[values[i].key] == values[i].binding.bindedType
    decreases |values|
  {
    if values != [] {
      var n := |values| - 1;
      var init := values[..n];
      assert forall i :: 0 <= i < n ==> init[i] == values[i];
      BoundValues(init);
      BoundEntriesSnoc(values);
      var last := values[n];
      forall i | 0 <= i < n && values[i].binding.BoundTo?
        ensures values[i].key in AsMap(BoundEntries(values))
        ensures AsMap(BoundEntries(values))[values[i].key] == values[i].binding.bindedType
      {
        assert init[i] == values[i];
        assert last.binding.BoundTo? ==> values[i].key != last.key;
      }
    }
  }

  /**
   * GetBindedStates: the entries for every value whose member carries
   * [Bind], in enumeration order; Dictionary.Add throws on a key added twice.
   */
  method GetBindedStates(values: seq<EnumValue>) returns (r: Result<seq<(Key, BoundType)>>)
    ensures r.Ok? <==> NoSharedBoundKey(values)
    ensures r.Ok? ==> r.value == BoundEntries(values) && DistinctKeys(r.value)
    ensures r.Err? ==> r.error == DuplicateKey
  {
    var result: seq<(Key, BoundType)> := [];
    for i := 0 to |values|
      invariant result == BoundEntries(values[..i])
      invariant NoSharedBoundKey(values[..i])
      invariant DistinctKeys(result)
    {
      var value := values[i];
      assert values[..i + 1][..i] == values[..i];
      assert values[..i + 1][i] == value;
      var bound := TryGetBindedType(value);
      if bound.Some? {
        BoundKeys(values[..i]);
        AsMapKeys(result);
        if value.key in AsMap(result) {
          var j :| 0 <= j < i && values[..i][j].key == value.key && values[..i][j].binding.BoundTo?;
          assert values[j].key == values[i].key;
          return Err(DuplicateKey);
        }
        assert forall j :: 0 <= j < |result| ==> result[j].0 != value.key;
        forall j | 0 <= j < i && values[j].binding.BoundTo?
          ensures values[j].key != value.key
        {
          assert values[..i][j] == values[j];
        }
        result := result + [(value.key, bound.value)];
      }
      assert BoundEntries(values[..i + 1]) == result;
    }
    assert values[..|values|] == values;
    return Ok(result);
  }

  // ---------------------------------------------------------------------
  // Creating the states

  /** The exception default state creation raises for a bound type, if any. */
  function CreationError(bound: BoundType): Option<Exception>
  {
    if bound.None? then Some(NullReference)                           // GetConstructors() on null
    else
    var t := bound.value;
    if exists i :: 0 <= i < |t.constructorParamCounts| && t.constructorParamCounts[i] > 0 then Some(InvalidProgram)
    else if |t.constructorParamCounts| == 0 && !t.isValueType then Some(MissingMethod)   // no public parameterless constructor
    else if !t.isBaseState then Some(InvalidCast)                     // the cast to IBaseState
    else None
  }

  /** The exception of the first entry whose state cannot be created, if any. */
  function FirstCreationError(entries: seq<(Key, BoundType)>): Option<Exception>
  {
    if entries == [] then None
    else
      match FirstCreationError(entries[..|entries| - 1])
      case Some(e) => Some(e)
      case None => CreationError(entries[|entries| - 1].1)
  }

  /** Once a prefix of the entries fails, the whole sequence fails with the same exception. */
  lemma {:induction false} FirstErrorPersists(entries: seq<(Key, BoundType)>, i: nat)
    requires i <= |entries|
    requires FirstCreationError(entries[..i]).Some?
    ensures FirstCreationError(entries) == FirstCreationError(entries[..i])
    decreases |entries| - i
  {
    if i < |entries| {
      var init := entries[..|entries| - 1];
      assert init[..i] == entries[..i];
      FirstErrorPersists(init, i);
    } else {
      assert entries[..i] == entries;
    }
  }

  /**
   * CreateState: default state creation, ValidateStateHasNotParams and then
   * Activator.CreateInstance with the cast to IBaseState.
   */
  method CreateState(bound: BoundType) returns (r: Result<StateObject>)
    ensures r.Ok? <==> CreationError(bound).None?
    ensures r.Err? ==> CreationError(bound) == Some(r.error)
    ensures r.Ok? ==> fresh(r.value) && bound == Some(r.value.stateType)
  {
    var valid := ValidateStateHasNotParams(bound);
    if valid.Threw? {
      return Err(valid.exception);
    }
    var t := bound.value;
    if |t.constructorParamCounts| == 0 && !t.isValueType {
      return Err(MissingMethod);
    }
    if !t.isBaseState {
      return Err(InvalidCast);
    }
    var state := new StateObject(t);
    return Ok(state);
  }

  /** `created` holds one state for each entry of `bound`: same keys in the same order, each an instance of its bound class. */
  ghost predicate Instantiates(created: seq<(Key, StateObject)>, bound: seq<(Key, BoundType)>)
  {
    && |created| == |bound|
    && forall i :: 0 <= i < |created| ==> created[i].0 == bound[i].0 && bound[i].1 == Some(created[i].1.stateType)
  }

  /** Instantiating entries keeps the key set, and each key's state is of the class bound to it. */
  lemma {:induction false} InstantiatedKeys(created: seq<(Key, StateObject)>, bound: seq<(Key, BoundType)>)
    requires Instantiates(created, bound)
    ensures AsMap(created).Keys == AsMap(bound).Keys
    ensures forall k :: k in AsMap(created) ==> AsMap(bound)[k] == Some(AsMap(created)[k].stateType)
    decreases |created|
  {
    if created != [] {
      var n := |created| - 1;
      InstantiatedKeys(created[..n], bound[..n]);
    }
  }

  /**
   * CreateStates(): one new state per bound entry, in order; fails with the
   * dictionary's exception or with the first state that cannot be created.
   */
  method CreateStates(values: seq<EnumValue>) returns (r: Result<seq<(Key, StateObject)>>)
    ensures !NoSharedBoundKey(values) ==> r == Err(DuplicateKey)
    ensures NoSharedBoundKey(values) && FirstCreationError(BoundEntries(values)).Some? ==>
              r == Err(FirstCreationError(BoundEntries(values)).value)
    ensures r.Ok? <==> NoSharedBoundKey(values) && FirstCreationError(BoundEntries(values)).None?
    ensures r.Ok? ==> Instantiates(r.value, BoundEntries(values)) && DistinctKeys(r.value)
    ensures r.Ok? ==> forall i :: 0 <= i < |r.value| ==> fresh(r.value[i].1)
    ensures r.Ok? ==> forall i, j :: 0 <= i < j < |r.value| ==> r.value[i].1 != r.value[j].1
  {
    var bound := GetBindedStates(values);
    if bound.Err? {
      return Err(bound.error);
    }
    r := CreateEach(bound.value);
    if r.Ok? {
      InstantiatedDistinct(r.value, bound.value);
    }
  }

  /** The loop of CreateStates(): one new state per entry, stopping at the first that cannot be created. */
  method CreateEach(entries: seq<(Key, BoundType)>) returns (r: Result<seq<(Key, StateObject)>>)
    ensures r.Ok? <==> FirstCreationError(entries).None?
    ensures r.Err? ==> Some(r.error) == FirstCreationError(entries)
    ensures r.Ok? ==> Instantiates(r.value, entries)
    ensures r.Ok? ==> forall i :: 0 <= i < |r.value| ==> fresh(r.value[i].1)
    ensures r.Ok? ==> forall i, j :: 0 <= i < j < |r.value| ==> r.value[i].1 != r.value[j].1
  {
    var result: seq<(Key, StateObject)> := [];
    for i := 0 to |entries|
      invariant Instantiates(result, entries[..i])
      invariant forall j :: 0 <= j < i ==> fresh(result[j].1)
      invariant forall j, k :: 0 <= j < k < i ==> result[j].1 != result[k].1
      invariant FirstCreationError(entries[..i]).None?
    {
      assert entries[..i + 1][..i] == entries[..i];
      var state := CreateState(entries[i].1);
      if state.Err? {
        FirstErrorPersists(entries, i + 1);
        return Err(state.error);
      }
      result := result + [(entries[i].0, state.value)];
    }
    assert entries[..|entries|] == entries;
    return Ok(result);
  }

  /** States created for entries with distinct keys have distinct keys. */
  lemma InstantiatedDistinct(created: seq<(Key, StateObject)>, bound: seq<(Key, BoundType)>)
    requires Instantiates(created, bound) && DistinctKeys(bound)
    ensures DistinctKeys(created)
  {
    forall i, j | 0 <= i < j < |created|
      ensures created[i].0 != created[j].0
    {
      assert created[i].0 == bound[i].0 && created[j].0 == bound[j].0;
    }
  }

  /**
   * CreateStates(stateMachine): every created state is offered to the
   * machine's AddState under its key. AddState keeps an entry already
   * present, so the registry becomes the created map with the old entries
   * taking precedence.
   */
  method CreateStatesIn(values: seq<EnumValue>, machine: BaseStateMachine)
    returns (outcome: Outcome, ghost created: seq<(Key, StateObject)>)
    modifies machine`states, machine`log
    ensures outcome.Done? <==> NoSharedBoundKey(values) && FirstCreationError(BoundEntries(values)).None?
    ensures outcome.Threw? ==> machine.states == old(machine.states)
    ensures outcome.Threw? && !NoSharedBoundKey(values) ==> outcome.exception == DuplicateKey
    ensures outcome.Threw? && NoSharedBoundKey(values) ==> Some(outcome.exception) == FirstCreationError(BoundEntries(values))
    ensures outcome.Done? ==> Instantiates(created, BoundEntries(values)) && DistinctKeys(created)
    ensures outcome.Done? ==> forall i :: 0 <= i < |created| ==> fresh(created[i].1)
    ensures outcome.Done? ==> forall i, j :: 0 <= i < j < |created| ==> created[i].1 != created[j].1
    ensures outcome.Done? ==> machine.states == AsMap(created) + old(machine.states)
  {
    var r := CreateStates(values);
    if r.Err? {
      return Threw(r.error), [];
    }
    created := r.value;
    AddEach(r.value, machine);
    return Done, created;
  }

  /** The loop of CreateStates(stateMachine): each entry offered to AddState in turn. */
  method AddEach(entries: seq<(Key, StateObject)>, machine: BaseStateMachine)
    requires DistinctKeys(entries)
    modifies machine`states, machine`log
    ensures machine.states == AsMap(entries) + old(machine.states)
  {
    for i := 0 to |entries|
      invariant machine.states == AsMap(entries[..i]) + old(machine.states)
    {
      var key, state := entries[i].0, entries[i].1;
      assert entries[..i + 1] == entries[..i] + [(key, state)];
      AsMapSnoc(entries[..i], key, state);
      AsMapKeys(entries[..i]);
      assert key !in AsMap(entries[..i]);
      OfferEntry(AsMap(entries[..i]), old(machine.states), key, state);
      machine.AddState(key, state);
    }
    assert entries[..|entries|] == entries;
  }

  /**
   * Create: validate the enumeration, call BeforeStateMachineCreated,
   * create the machine with its parameterless constructor, add the created
   * states, call AfterStateMachineCreated with the populated machine and
   * return that machine. An exception ends the sequence where it is raised.
   */
  method Create(values: seq<EnumValue>)
    returns (outcome: Outcome, machine: BaseStateMachine?, ghost steps: seq<FactoryStep>, ghost created: seq<(Key, StateObject)>)
    ensures ValidateEnumHasNoneValue(values).Threw? ==> outcome == ValidateEnumHasNoneValue(values) && steps == []
    ensures outcome.Done? <==>
              ValidateEnumHasNoneValue(values).Done? && NoSharedBoundKey(values) && FirstCreationError(BoundEntries(values)).None?
    ensures outcome.Threw? ==> machine == null
    ensures outcome.Threw? && ValidateEnumHasNoneValue(values).Done? ==> steps == [BeforeCreated, MachineCreated(map[])]
    ensures outcome.Done? ==>
              && machine != null && fresh(machine)
              && steps == [BeforeCreated, MachineCreated(map[]), StatesAdded(machine.states), AfterCreated(machine.states)]
              && (forall i :: 0 <= i < |created| ==> fresh(created[i].1))
              && (forall i, j :: 0 <= i < j < |created| ==> created[i].1 != created[j].1)
              && Populated(machine, created, values)
  {
    steps, created := [], [];
    machine := null;
    outcome := ValidateEnumHasNoneValue(values);
    if outcome.Threw? {
      return;
    }
    steps := steps + [BeforeCreated];
    var newMachine;
    ghost var built;
    outcome, newMachine, created, built := BuildMachine(values);
    steps := steps + built;
    if outcome.Threw? {
      return;
    }
    steps := steps + [AfterCreated(newMachine.states)];
    machine := newMachine;
  }

  /**
   * What Create hands back: a machine that has not switched yet, whose
   * registry holds exactly one created state per bound key, each of the
   * class bound to it, and which is coherent exactly when nothing is bound
   * to default(TEnum).
   */
  ghost predicate Populated(machine: BaseStateMachine, created: seq<(Key, StateObject)>, values: seq<EnumValue>)
    reads machine
  {
    && Instantiates(created, BoundEntries(values))
    && machine.states == AsMap(created)
    && machine.states.Keys == AsMap(BoundEntries(values)).Keys
    && machine.currentStateKey == 0 && machine.previousStateKey == 0 && machine.currentTickable == null
    && machine.trace == []
    && (machine.Coherent() <==> 0 !in machine.states)
  }

  /** CreateStateMachine followed by CreateStates(stateMachine), recording each step with the registry it leaves. */
  method BuildMachine(values: seq<EnumValue>)
    returns (outcome: Outcome, machine: BaseStateMachine, ghost created: seq<(Key, StateObject)>, ghost steps: seq<FactoryStep>)
    ensures fresh(machine)
    ensures outcome.Done? <==> NoSharedBoundKey(values) && FirstCreationError(BoundEntries(values)).None?
    ensures outcome.Threw? && !NoSharedBoundKey(values) ==> outcome.exception == DuplicateKey
    ensures outcome.Threw? && NoSharedBoundKey(values) ==> Some(outcome.exception) == FirstCreationError(BoundEntries(values))
    ensures outcome.Threw? ==> steps == [MachineCreated(map[])]
    ensures outcome.Done? ==>
              && steps == [MachineCreated(map[]), StatesAdded(machine.states)]
              && (forall i :: 0 <= i < |created| ==> fresh(created[i].1))
              && (forall i, j :: 0 <= i < j < |created| ==> created[i].1 != created[j].1)
              && Populated(machine, created, values)
  {
    machine := new BaseStateMachine();
    steps := [MachineCreated(machine.states)];
    outcome, created := CreateStatesIn(values, machine);
    if outcome.Done? {
      steps := steps + [StatesAdded(machine.states)];
      PopulatedMachine(machine, created, values);
    }
  }

  /** A machine that has not switched yet, whose registry is the map of states created for the bound entries, is Populated. */
  lemma PopulatedMachine(machine: BaseStateMachine, created: seq<(Key, StateObject)>, values: seq<EnumValue>)
    requires Instantiates(created, BoundEntries(values))
    requires machine.states == AsMap(created) + map[]
    requires machine.currentStateKey == 0 && machine.previousStateKey == 0 && machine.currentTickable == null
    requires machine.trace == []
    ensures Populated(machine, created, values)
  {
    assert machine.states == AsMap(created);
    InstantiatedKeys(created, BoundEntries(values));
    FreshMachineCoherence(machine, created);
  }

  /**
   * A machine that has called nothing yet and whose registry holds only
   * non-null states is coherent exactly when nothing is registered under
   * its current key, default(TEnum).
   */
  lemma FreshMachineCoherence(machine: BaseStateMachine, created: seq<(Key, StateObject)>)
    requires machine.states == AsMap(created) && machine.trace == [] && machine.currentTickable == null
    ensures machine.Coherent() <==> machine.currentStateKey !in machine.states
  {
    if machine.currentStateKey in machine.states {
      assert machine.Lookup(machine.currentStateKey) != null;
    }
  }

  /**
   * Create followed by a first SwitchState: the first switch stops whatever
   * is bound to default(TEnum) before starting the new state, so when a
   * state is bound to key 0 it receives Stop without ever having been
   * started, and the lifecycle calls break the discipline.
   */
  method CreateAndSwitch(values: seq<EnumValue>, key: Key, args: seq<Arg>)
    returns (outcome: Outcome, machine: BaseStateMachine?, switched: Outcome)
    requires |args| <= 3
    ensures outcome.Done? <==>
              ValidateEnumHasNoneValue(values).Done? && NoSharedBoundKey(values) && FirstCreationError(BoundEntries(values)).None?
    ensures outcome.Threw? ==> machine == null && switched == outcome
    ensures outcome.Done? ==> machine != null && (forall k :: k in machine.states ==> machine.states[k] != null)
    ensures outcome.Done? ==> (switched.Done? <==> machine.CanEnter(key, args))
    ensures outcome.Done? && switched.Done? ==>
              && machine.previousStateKey == 0 && machine.currentStateKey == key
              && machine.trace == (if 0 in machine.states then [Stopped(machine.states[0])] else [])
                                  + [Started(machine.states[key], args)]
              && (Replay(machine.trace, null).Some? <==> 0 !in machine.states)
  {
    ghost var steps, created;
    outcome, machine, steps, created := Create(values);
    if outcome.Threw? {
      switched := outcome;
      return;
    }
    assert machine.trace == [] && machine.currentStateKey == 0;
    assert forall k :: k in machine.states ==> machine.states[k] != null;
    switched := machine.SwitchState(key, args);
    if switched.Done? && 0 in machine.states {
      assert LifecycleStep(machine.trace[0], null).None?;
    }
  }

  /**
   * A struct bound to a key has no public constructors, so it passes
   * ValidateStateHasNotParams, and Activator.CreateInstance boxes its
   * default value: creation fails only through the cast to IBaseState. A
   * class without a public constructor fails with MissingMethodException.
   */
  lemma ValueTypeStateIsCreated(t: StateType)
    requires t.constructorParamCounts == []
    ensures t.isValueType ==> (CreationError(Some(t)).None? <==> t.isBaseState)
    ensures t.isValueType && !t.isBaseState ==> CreationError(Some(t)) == Some(InvalidCast)
    ensures !t.isValueType ==> CreationError(Some(t)) == Some(MissingMethod)
  {
  }
}
