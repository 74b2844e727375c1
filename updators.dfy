/** The earlier generation of the example's updaters
    (example/src/updators.js): the same plain updaters, each bound to the
    `toDos` part of the state on its own instead of through one object of
    updaters. The plain functions and `updateIsLoadingToDos`, written the
    same way in both files, are shared with `ToDoUpdaters`. */
module ToDoUpdators {
  import opened JsValues
  import opened Utils
  import U = ToDoUpdaters

  /** `retrieveToDos`. */
  const RetrieveToDos: Wrapped := U.UpdateTodos([FnArg(U.RetrieveToDosUpdater)])

  /** `removeToDo`. */
  const RemoveToDo: Wrapped := U.UpdateTodos([FnArg(U.RemoveToDoUpdater)])

  /** `addToDo`. */
  const AddToDo: Wrapped := U.UpdateTodos([FnArg(U.AddToDoUpdater)])

  /** `toggleToDo`. */
  const ToggleToDo: Wrapped := U.UpdateTodos([FnArg(U.ToggleToDoUpdater)])

  /** `startRetrievingToDos()`: loading on, retrieve, loading off. */
  function StartRetrievingToDos(): (steps: seq<Updater>)
    ensures |steps| == 3
    ensures forall s :: steps[0](s) == AtRootKey("loadingStatus", U.IsLoadingToDosUpdater([Bool(true)]), s)
    ensures forall s :: steps[1](s) == AtRootKey("toDos", U.RetrieveToDosUpdater([]), s)
    ensures forall s :: steps[2](s) == AtRootKey("loadingStatus", U.IsLoadingToDosUpdater([Bool(false)]), s)
  {
    UpdateInSequence([
      U.UpdateIsLoadingToDos([Bool(true)]),
      RetrieveToDos.factory([]),
      U.UpdateIsLoadingToDos([Bool(false)])])
  }

  /** Each export wraps one updater, and runs it exactly as the entry of the
      same name in `ToDoUpdaters` does. */
  lemma SameAsToDoUpdaters(args: seq<Value>, s: Value)
    ensures RetrieveToDos.Single? && RemoveToDo.Single? && AddToDo.Single? && ToggleToDo.Single?
    ensures U.ToDoUpdaters.Keyed?
    ensures U.ToDoUpdaters.table.Keys == {"removeToDo", "addToDo", "toggleToDo", "retrieveToDos"}
    ensures RetrieveToDos.factory(args)(s) == U.ToDoUpdaters.table["retrieveToDos"](args)(s)
    ensures RemoveToDo.factory(args)(s) == U.ToDoUpdaters.table["removeToDo"](args)(s)
    ensures AddToDo.factory(args)(s) == U.ToDoUpdaters.table["addToDo"](args)(s)
    ensures ToggleToDo.factory(args)(s) == U.ToDoUpdaters.table["toggleToDo"](args)(s)
  {
  }

  /** `removeToDo(key)` deletes `key` from the to-dos, keeps the other
      to-dos, and touches no other part of the state. */
  lemma RemoveToDoEffect(key: Value, s: Value)
    requires s.Obj?
    ensures var out, toDos := RemoveToDo.factory([key])(s), Spread(Field(s.fields, "toDos"));
      && out.Ok? && out.value.Obj?
      && out.value.fields.Keys == s.fields.Keys + {"toDos"}
      && (forall k :: k in s.fields && k != "toDos" ==> out.value.fields[k] == s.fields[k])
      && out.value.fields["toDos"].Obj?
      && out.value.fields["toDos"].fields.Keys == toDos.Keys - {PropertyKey(key)}
      && forall j :: j in out.value.fields["toDos"].fields ==> out.value.fields["toDos"].fields[j] == toDos[j]
  {
    PartialUpdaterAtRootKey("toDos", U.RemoveToDoUpdater, [key], s);
  }

  /** `addToDo(t)` stores `t` under its `key` among the to-dos, keeps the
      other to-dos, and touches no other part of the state; it fails exactly when `t` is `undefined` or
      `null`. */
  lemma AddToDoEffect(newToDo: Value, s: Value)
    requires s.Obj?
    ensures var out := AddToDo.factory([newToDo])(s);
      && (out.Err? <==> newToDo == Undef || newToDo == Null)
      && (out.Ok? ==>
        var k := PropertyKey(Member(newToDo, "key").value);
        && out.value.Obj?
        && out.value.fields.Keys == s.fields.Keys + {"toDos"}
        && (forall j :: j in s.fields && j != "toDos" ==> out.value.fields[j] == s.fields[j])
        && out.value.fields["toDos"].Obj?
        && var toDos, before := out.value.fields["toDos"].fields, Spread(Field(s.fields, "toDos"));
        && toDos.Keys == before.Keys + {k}
        && toDos[k] == newToDo
        && forall j :: j in before && j != k ==> toDos[j] == before[j])
  {
    PartialUpdaterAtRootKey("toDos", U.AddToDoUpdater, [newToDo], s);
  }

  /** `toggleToDo(key, b)` sets `isFinished` of the to-do at `key` to `b`,
      keeps that to-do's other fields and the other to-dos, and touches no
      other part of the state. */
  lemma ToggleToDoEffect(key: Value, isFinished: Value, s: Value)
    requires s.Obj?
    ensures var out := ToggleToDo.factory([key, isFinished])(s);
      && out.Ok? && out.value.Obj?
      && out.value.fields.Keys == s.fields.Keys + {"toDos"}
      && (forall j :: j in s.fields && j != "toDos" ==> out.value.fields[j] == s.fields[j])
      && out.value.fields["toDos"].Obj?
      && var toDos, before, k := out.value.fields["toDos"].fields, Spread(Field(s.fields, "toDos")), PropertyKey(key);
      && toDos.Keys == before.Keys + {k}
      && (forall j :: j in before && j != k ==> toDos[j] == before[j])
      && toDos[k].Obj?
      && toDos[k].fields.Keys == Spread(Field(before, k)).Keys + {"isFinished"}
      && toDos[k].fields["isFinished"] == isFinished
      && forall f :: f in Spread(Field(before, k)) && f != "isFinished" ==>
        toDos[k].fields[f] == Spread(Field(before, k))[f]
  {
    PartialUpdaterAtRootKey("toDos", U.ToggleToDoUpdater, [key, isFinished], s);
  }

  /** `retrieveToDos()` replaces the to-dos with the fixed collection,
      whatever they were. */
  lemma RetrieveToDosEffect(s: Value)
    requires s.Obj?
    ensures RetrieveToDos.factory([])(s) == Ok(Obj(s.fields["toDos" := U.FixedToDos]))
  {
    PartialUpdaterAtRootKey("toDos", U.RetrieveToDosUpdater, [], s);
  }

  /** Both generations of `startRetrievingToDos()` take every state to the
      same outcome. */
  lemma StartRetrievingToDosAgrees(s: Value)
    ensures MergeUpdaters(StartRetrievingToDos())(s) == MergeUpdaters(U.StartRetrievingToDos())(s)
  {
    var us, vs := StartRetrievingToDos(), U.StartRetrievingToDos();
    forall i, t | 0 <= i < |us|
      ensures us[i](t) == vs[i](t)
    {
      SameAsToDoUpdaters([], t);
    }
    ReduceAgrees(us, vs, Ok(s));
  }
}
