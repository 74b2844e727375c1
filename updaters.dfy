/** The example application's to-do updaters (example/src/updaters.js): plain
    functions on the key-indexed to-do collection and on the loading status,
    bound to the `toDos` and `loadingStatus` parts of the state by partial
    updaters. */
module ToDoUpdaters {
  import opened JsValues
  import opened Utils
  import opened Stores

  /** The argument in position `i` of `(...rest)`; `undefined` when the
      caller left it out. */
  function ArgAt(args: seq<Value>, i: nat): Value
  {
    if i < |args| then args[i] else Undef
  }

  function ToDoRecord(description: string, isFinished: bool, key: int): Value
  {
    Obj(map["description" := Str(description), "isFinished" := Bool(isFinished), "key" := Num(key)])
  }

  /** The four to-dos `retrieveToDos` resolves with, keyed by their `key`. */
  const FixedToDos: Value := Obj(map[
    "1" := ToDoRecord("todo1", false, 1),
    "2" := ToDoRecord("todo2", false, 2),
    "3" := ToDoRecord("todo3", true, 3),
    "4" := ToDoRecord("todo4", false, 4)])

  // ---------------------------------------------------------------------
  // The updaters on sub-states
  // ---------------------------------------------------------------------

  /** `removeToDo(key)(toDosState)`: a copy without `key`. */
  function RemoveToDo(key: Value, toDos: Value): (r: Value)
    ensures r.Obj?
    ensures r.fields.Keys == Spread(toDos).Keys - {PropertyKey(key)}
    ensures forall k :: k in r.fields ==> r.fields[k] == Spread(toDos)[k]
  {
    Obj(Spread(toDos) - {PropertyKey(key)})
  }

  /** `addToDo(newToDo)(toDosState)`: a copy where `newToDo.key` holds
      `newToDo`; reading `.key` of `undefined` or `null` throws. */
  function AddToDo(newToDo: Value, toDos: Value): (r: Result<Value>)
    ensures r.Err? <==> newToDo == Undef || newToDo == Null
    ensures r.Ok? ==>
      var k := PropertyKey(Member(newToDo, "key").value);
      && r.value.Obj?
      && r.value.fields.Keys == Spread(toDos).Keys + {k}
      && r.value.fields[k] == newToDo
      && forall j :: j in Spread(toDos) && j != k ==> r.value.fields[j] == Spread(toDos)[j]
  {
    var m := Spread(toDos);
    match Member(newToDo, "key")
    case Err(e) => Err(e)
    case Ok(key) => Ok(Obj(m[PropertyKey(key) := newToDo]))
  }

  /** `toggleToDo(key, isFinished)(toDosState)`: a copy whose entry at `key`
      is a copy of the old entry (none if absent) with `isFinished` set. */
  function ToggleToDo(key: Value, isFinished: Value, toDos: Value): (r: Value)
    ensures var k, m := PropertyKey(key), Spread(toDos);
      && r.Obj?
      && r.fields.Keys == m.Keys + {k}
      && (forall j :: j in m && j != k ==> r.fields[j] == m[j])
      && r.fields[k].Obj?
      && r.fields[k].fields.Keys == Spread(Field(m, k)).Keys + {"isFinished"}
      && r.fields[k].fields["isFinished"] == isFinished
      && (forall f :: f in Spread(Field(m, k)) && f != "isFinished" ==>
            r.fields[k].fields[f] == Spread(Field(m, k))[f])
      && (k !in m ==> r.fields[k] == Obj(map["isFinished" := isFinished]))
  {
    var m := Spread(toDos);
    var k := PropertyKey(key);
    Obj(m[k := Obj(Spread(Field(m, k))["isFinished" := isFinished])])
  }

  /** The inner function of `updateIsLoadingToDos`: a copy of the loading
      status with `isLoadingToDos` set. */
  function SetIsLoadingToDos(isLoadingToDos: Value, status: Value): (r: Value)
    ensures r.Obj?
    ensures r.fields.Keys == Spread(status).Keys + {"isLoadingToDos"}
    ensures r.fields["isLoadingToDos"] == isLoadingToDos
    ensures forall f :: f in Spread(status) && f != "isLoadingToDos" ==> r.fields[f] == Spread(status)[f]
  {
    Obj(Spread(status)["isLoadingToDos" := isLoadingToDos])
  }

  // ---------------------------------------------------------------------
  // The parameterised updaters and their bindings
  // ---------------------------------------------------------------------

  const RemoveToDoUpdater: UpdaterFactory := args => toDos => Ok(RemoveToDo(ArgAt(args, 0), toDos))
  const AddToDoUpdater: UpdaterFactory := args => toDos => AddToDo(ArgAt(args, 0), toDos)
  const ToggleToDoUpdater: UpdaterFactory := args => toDos => Ok(ToggleToDo(ArgAt(args, 0), ArgAt(args, 1), toDos))
  const RetrieveToDosUpdater: UpdaterFactory := args => toDos => Ok(FixedToDos)
  const IsLoadingToDosUpdater: UpdaterFactory := args => status => Ok(SetIsLoadingToDos(ArgAt(args, 0), status))

  /** `createPartialUpdater('toDos')`: each wrapped updater works on the
      root key `toDos` and leaves the rest of the state as it was. */
  function UpdateTodos(updaters: seq<UpdaterArg>): (w: Wrapped)
    ensures w.Single? <==> |updaters| == 1 && updaters[0].FnArg?
    ensures w.Keyed? <==> |updaters| >= 1 && updaters[0].ObjArg?
    ensures w.Keyed? ==> w.table.Keys == updaters[0].table.Keys
    ensures w.Single? ==> forall args, s ::
      w.factory(args)(s) == AtRootKey("toDos", updaters[0].factory(args), s)
    ensures w.Keyed? ==> forall k, args, s :: k in w.table ==>
      w.table[k](args)(s) == AtRootKey("toDos", updaters[0].table[k](args), s)
  {
    CreateRootKeyUpdater("toDos", updaters)
  }

  /** `createPartialUpdater('loadingStatus')`: each wrapped updater works
      on the root key `loadingStatus` and leaves the rest of the state as it
      was. */
  function UpdateLoadingStatus(updaters: seq<UpdaterArg>): (w: Wrapped)
    ensures w.Single? <==> |updaters| == 1 && updaters[0].FnArg?
    ensures w.Keyed? <==> |updaters| >= 1 && updaters[0].ObjArg?
    ensures w.Keyed? ==> w.table.Keys == updaters[0].table.Keys
    ensures w.Single? ==> forall args, s ::
      w.factory(args)(s) == AtRootKey("loadingStatus", updaters[0].factory(args), s)
    ensures w.Keyed? ==> forall k, args, s :: k in w.table ==>
      w.table[k](args)(s) == AtRootKey("loadingStatus", updaters[0].table[k](args), s)
  {
    CreateRootKeyUpdater("loadingStatus", updaters)
  }

  /** `updateIsLoadingToDos`. */
  const UpdateIsLoadingToDos: UpdaterFactory := UpdateLoadingStatus([FnArg(IsLoadingToDosUpdater)]).factory

  /** The object of updaters handed to `updateTodos`. */
  const ToDoTable: map<string, UpdaterFactory> := map[
    "removeToDo" := RemoveToDoUpdater,
    "addToDo" := AddToDoUpdater,
    "toggleToDo" := ToggleToDoUpdater,
    "retrieveToDos" := RetrieveToDosUpdater]

  /** `toDoUpdaters`. */
  const ToDoUpdaters: Wrapped := UpdateTodos([ObjArg(ToDoTable)])

  /** `startRetrievingToDos()`: loading on, retrieve, loading off. */
  function StartRetrievingToDos(): (steps: seq<Updater>)
    ensures |steps| == 3
    ensures forall s :: steps[0](s) == AtRootKey("loadingStatus", IsLoadingToDosUpdater([Bool(true)]), s)
    ensures forall s :: steps[1](s) == AtRootKey("toDos", RetrieveToDosUpdater([]), s)
    ensures forall s :: steps[2](s) == AtRootKey("loadingStatus", IsLoadingToDosUpdater([Bool(false)]), s)
  {
    UpdateInSequence([
      UpdateIsLoadingToDos([Bool(true)]),
      ToDoUpdaters.table["retrieveToDos"]([]),
      UpdateIsLoadingToDos([Bool(false)])])
  }

  // ---------------------------------------------------------------------
  // What the bindings guarantee
  // ---------------------------------------------------------------------

  /** Every key of the fixed collection is the property key of its entry's
      `key` field, as `addToDo` would have stored it. */
  lemma FixedToDosKeyed()
    ensures FixedToDos.fields.Keys == {"1", "2", "3", "4"}
    ensures forall k :: k in FixedToDos.fields ==>
      FixedToDos.fields[k].Obj? && PropertyKey(FixedToDos.fields[k].fields["key"]) == k
  {
    assert NatToString(1) == "1" && NatToString(2) == "2";
    assert NatToString(3) == "3" && NatToString(4) == "4";
  }

  /** `toDoUpdaters` has exactly the four named updaters, and each one
      writes only the root key `toDos`: it runs the plain updater on the
      current to-dos and stores the result there. */
  lemma ToDoUpdatersOnlyTouchToDos(name: string, args: seq<Value>, s: Value)
    requires s.Obj?
    ensures ToDoUpdaters.Keyed?
    ensures ToDoUpdaters.table.Keys == {"removeToDo", "addToDo", "toggleToDo", "retrieveToDos"}
    ensures name in ToDoUpdaters.table ==>
      ToDoUpdaters.table[name](args)(s) ==
        match ToDoTable[name](args)(Field(s.fields, "toDos"))
        case Ok(toDos) => Ok(Obj(s.fields["toDos" := toDos]))
        case Err(e) => Err(e)
  {
    if name in ToDoUpdaters.table {
      PartialUpdaterAtRootKey("toDos", ToDoTable[name], args, s);
    }
  }

  /** `retrieveToDos` ignores the current to-dos and stores the fixed
      collection under `toDos`. */
  lemma RetrieveToDosIgnoresInput(args: seq<Value>, s: Value)
    requires s.Obj?
    ensures ToDoUpdaters.Keyed? && "retrieveToDos" in ToDoUpdaters.table
    ensures ToDoUpdaters.table["retrieveToDos"](args)(s) == Ok(Obj(s.fields["toDos" := FixedToDos]))
  {
    ToDoUpdatersOnlyTouchToDos("retrieveToDos", args, s);
  }

  /** `updateIsLoadingToDos(b)` sets `loadingStatus.isLoadingToDos` to `b`,
      keeps the other loading-status fields, and leaves every other root
      key (`toDos` among them) as it was. */
  lemma UpdateIsLoadingToDosEffect(flag: Value, s: Value)
    requires s.Obj?
    ensures var out := UpdateIsLoadingToDos([flag])(s);
      && out.Ok?
      && out.value == Obj(s.fields["loadingStatus" := SetIsLoadingToDos(flag, Field(s.fields, "loadingStatus"))])
      && Lookup(out.value, ["loadingStatus", "isLoadingToDos"]) == Ok(flag)
  {
    var status := SetIsLoadingToDos(flag, Field(s.fields, "loadingStatus"));
    var expected := Obj(s.fields["loadingStatus" := status]);
    assert UpdateIsLoadingToDos([flag])(s) == Ok(expected) by {
      IsLoadingToDosBinding(flag, s);
      assert IsLoadingToDosUpdater([flag])(Field(s.fields, "loadingStatus")) == Ok(status);
      PartialUpdaterAtRootKey("loadingStatus", IsLoadingToDosUpdater, [flag], s);
    }
    LookupTwoLevels(expected, "loadingStatus", "isLoadingToDos", flag);
  }

  lemma IsLoadingToDosBinding(flag: Value, s: Value)
    ensures UpdateIsLoadingToDos([flag])(s) ==
      ApplyPartial(PathReader("loadingStatus"), PathWriter("loadingStatus"), IsLoadingToDosUpdater, [flag], s)
  {
  }

  lemma MergeThreeSteps(us: seq<Updater>, s: Value, s1: Value, s2: Value, s3: Value)
    requires |us| == 3
    requires us[0](s) == Ok(s1) && us[1](s1) == Ok(s2) && us[2](s2) == Ok(s3)
    ensures MergeUpdaters(us)(s) == Ok(s3)
  {
    assert Reduce(us, Ok(s)) == Reduce(us[1..], Ok(s1));
    assert Reduce(us[1..], Ok(s1)) == Reduce(us[2..], Ok(s2));
    assert Reduce(us[2..], Ok(s2)) == Reduce(us[3..], Ok(s3));
    assert us[3..] == [];
  }

  lemma LookupTwoLevels(v: Value, a: string, b: string, leaf: Value)
    requires v.Obj? && a in v.fields && v.fields[a].Obj?
    requires b in v.fields[a].fields && v.fields[a].fields[b] == leaf
    ensures Lookup(v, [a, b]) == Ok(leaf)
  {
    assert [a, b][1..] == [b];
    assert Lookup(v.fields[a], [b]) == Ok(leaf) by {
      assert [b][1..] == [];
    }
  }

  /** The state after loading on, retrieving and loading off. */
  function RetrievedState(s: Value): Value
    requires s.Obj?
  {
    var s1 := Obj(s.fields["loadingStatus" := SetIsLoadingToDos(Bool(true), Field(s.fields, "loadingStatus"))]);
    var s2 := Obj(s1.fields["toDos" := FixedToDos]);
    Obj(s2.fields["loadingStatus" := SetIsLoadingToDos(Bool(false), Field(s2.fields, "loadingStatus"))])
  }

  lemma RetrievedStateContents(s: Value)
    requires s.Obj?
    ensures var r := RetrievedState(s);
      && r.Obj?
      && Lookup(r, ["loadingStatus", "isLoadingToDos"]) == Ok(Bool(false))
      && Lookup(r, ["toDos"]) == Ok(FixedToDos)
      && r.fields.Keys == s.fields.Keys + {"toDos", "loadingStatus"}
      && forall k :: k in s.fields && k != "toDos" && k != "loadingStatus" ==> r.fields[k] == s.fields[k]
  {
    var r := RetrievedState(s);
    LookupTwoLevels(r, "loadingStatus", "isLoadingToDos", Bool(false));
    assert Member(r, "toDos") == Ok(FixedToDos);
  }

  /** Run from any object state, `startRetrievingToDos()` succeeds and
      ends with `isLoadingToDos` false, the fixed to-dos under `toDos`, and
      every other root key as it was. */
  lemma StartRetrievingToDosOutcome(s: Value)
    requires s.Obj?
    ensures var out := MergeUpdaters(StartRetrievingToDos())(s);
      && out == Ok(RetrievedState(s))
      && out.value.Obj?
      && Lookup(out.value, ["loadingStatus", "isLoadingToDos"]) == Ok(Bool(false))
      && Lookup(out.value, ["toDos"]) == Ok(FixedToDos)
      && out.value.fields.Keys == s.fields.Keys + {"toDos", "loadingStatus"}
      && forall k :: k in s.fields && k != "toDos" && k != "loadingStatus" ==> out.value.fields[k] == s.fields[k]
  {
    var us := StartRetrievingToDos();
    var s1 := Obj(s.fields["loadingStatus" := SetIsLoadingToDos(Bool(true), Field(s.fields, "loadingStatus"))]);
    var s2 := Obj(s1.fields["toDos" := FixedToDos]);
    var s3 := RetrievedState(s);
    assert us[0](s) == Ok(s1) by {
      UpdateIsLoadingToDosEffect(Bool(true), s);
    }
    assert us[1](s1) == Ok(s2) by {
      RetrieveToDosIgnoresInput([], s1);
    }
    assert us[2](s2) == Ok(s3) by {
      UpdateIsLoadingToDosEffect(Bool(false), s2);
    }
    MergeThreeSteps(us, s, s1, s2, s3);
    RetrievedStateContents(s);
  }

  /** The example application's initial state (example/src/App.js):
      `{ toDos: {}, loadingStatus: { isLoadingToDos: true } }`. */
  const InitialState: Value := Obj(map[
    "toDos" := Obj(map[]),
    "loadingStatus" := Obj(map["isLoadingToDos" := Bool(true)])])

  /** The start-up state gains no root keys. */
  lemma StartupKeys()
    ensures RetrievedState(InitialState).fields.Keys == {"toDos", "loadingStatus"}
  {
    RetrievedStateContents(InitialState);
    assert InitialState.fields.Keys == {"toDos", "loadingStatus"};
  }

  /** Run on the initial state, `startRetrievingToDos()` ends with the
      fixed to-dos, loading off, and no other root keys. */
  lemma StartupOutcome()
    ensures var out := MergeUpdaters(StartRetrievingToDos())(InitialState);
      && out.Ok? && out.value.Obj?
      && out.value.fields.Keys == {"toDos", "loadingStatus"}
      && Lookup(out.value, ["toDos"]) == Ok(FixedToDos)
      && Lookup(out.value, ["loadingStatus", "isLoadingToDos"]) == Ok(Bool(false))
  {
    StartRetrievingToDosOutcome(InitialState);
    StartupKeys();
  }

  /** A store created with the initial state and handed
      `startRetrievingToDos()` through `update`: afterwards
      the store holds the fixed to-dos with loading off, and `update`
      resolved with that state. */
  method RetrieveOnStartup() returns (resolved: Result<Value>, current: Value)
    ensures resolved == Ok(current)
    ensures current.Obj? && current.fields.Keys == {"toDos", "loadingStatus"}
    ensures Lookup(current, ["toDos"]) == Ok(FixedToDos)
    ensures Lookup(current, ["loadingStatus", "isLoadingToDos"]) == Ok(Bool(false))
  {
    var store := CreateStore(InitialState);
    var steps := StartRetrievingToDos();
    resolved := store.Update(InOrder(steps));
    assert resolved == MergeUpdaters(steps)(InitialState);
    StartupOutcome();
    current := store.GetState();
  }
}
