# remic: the store, the path lens and the to-do updaters, in Dafny

remic is a small state container for React applications. This project
models its core:

- the path lens and updater combinators of `src/utils.js`: `set`, `get`,
  `mergeUpdaters`, `updateInSequence`, `createCustomPartialUpdater` and
  `createPartialUpdater`;
- the store of `src/store.js`: `getState`, `select`, `subscribe` and the
  unsubscribe function it returns, `updateOnce`, `update` and `createStore`;
- the example application's updaters in `example/src/updaters.js` and in
  the older `example/src/updators.js`.

JavaScript values are a datatype (`JsValues.Value`). Objects are maps from
property names to values. Because values are immutable, "the input is not
mutated" holds by construction. What the model proves is that the copies
`set` and the updaters make differ from their inputs only where the source
writes.

`set` and `get` are loops in the source, so they are methods with loops here
(`Utils.Set`, `Utils.Get`). Each is proved equal to a recursive specification
function (`Utils.Write`, `Utils.Lookup`). The lens laws are proved about
those functions.

An updater is a function from a state to a result, either the next state or
an error. Every `await` is one step in this model. A rejected promise and a
thrown exception are both an `Err`.

The store is a class with the same two variables the source's closure keeps:
`state` and `subscribers`. Subscribers are identified by number. A ghost log
records every call `subscriber(newState, previousState)`, in order.
`Stores.Store.Update` is proved against `Commits`, which lists the states
committed by a run of updaters. The lemmas about `Commits` give the
commit-ordering and failure behaviour.

The modules are:

| file | module |
|---|---|
| `values.dfy` | `JsValues` |
| `utils.dfy` | `Utils` |
| `store.dfy` | `Stores` |
| `updaters.dfy` | `ToDoUpdaters` |
| `updators.dfy` | `ToDoUpdators` |

Three facts about the program shape what the model claims:

- src/store.js keeps no queue. Two concurrent `update` calls can interleave
  at their `await` points. The model covers one call at a time and claims
  no order between calls.
- The function `subscribe` returns does not unsubscribe anything (see
  Findings).
- The library has no throttle: src/StoreProvider.js:13-15 calls `setState`
  on every notification.

## Model

| member | source | states |
|---|---|---|
| `JsValues.Member` | src/utils.js:26-29 | Property access throws exactly on `undefined` and `null`, and reads the field of an object (`undefined` when the field is missing). |
| `JsValues.Split` | src/utils.js:2 | Splitting a path on `.` yields at least one segment, and no segment contains a dot. |
| `JsValues.JoinSplit` | src/utils.js:22 | Joining the segments of a split path with `.` gives back the path. |
| `JsValues.SplitJoin` | src/utils.js:22 | Splitting the join of dot-free segments gives back the segments. |
| `JsValues.SplitDotFree` | src/utils.js:2 | A path without dots splits into that single segment. |
| `Utils.Set` | src/utils.js:1-19 | The copying loop and the leaf write yield exactly `Write(object, path.split("."), value)`. |
| `Utils.Get` | src/utils.js:21-33 | The walking loop yields exactly `Lookup(obj, path.split("."))`: it stops with `undefined` at the first missing segment and throws when it reads through `null`. |
| `Utils.GetAfterSet` | src/utils.js:1-33 | Reading the written segments back yields the written value. |
| `Utils.GetAfterSetPath` | src/utils.js:1-33 | `get(set(s, p, v), p)` is `v` for every state, dotted path and value. |
| `Utils.SetCopiesEachLevel` | src/utils.js:3-16 | At every level of the path, the written copy is an object with the original node's keys plus the next segment, and every other key keeps its original value. |
| `Utils.MissingSegmentCreated` | src/utils.js:8-12 | A missing or non-object intermediate becomes a new object holding only the next segment. |
| `Utils.SingleSegmentSet` | src/utils.js:6-16 | A one-segment path replaces only that root key of a copy. |
| `Utils.GetOffPathUnchanged` | src/utils.js:1-33 | A read along any path that leaves the written path, and that succeeded before, reads the same value after `set`. |
| `Utils.MergeUpdaters` | src/utils.js:35-39 | `mergeUpdaters(u1, …, un)(s)` is `un(… u1(s))`, the reference composition; with no updaters it is `s`. |
| `Utils.ReduceComposes` | src/utils.js:36-38 | The left-to-right `reduce` over `then` equals the reference composition `un(… u1(s))`. |
| `Utils.MergeUpdatersConcat` | src/utils.js:35-39 | Merging a concatenation runs the first merge, then feeds its result to the second. |
| `Utils.ReduceRejected` | src/utils.js:36-38 | Once the chain is rejected, later updaters are skipped and the same error comes out. |
| `Utils.ReduceAgrees` | src/utils.js:35-39 | Updater lists that agree step by step merge into updaters with the same outcome on every state. |
| `Utils.UpdateInSequence` | src/utils.js:41 | The updaters come back as a list of the same length, in the order given. |
| `Utils.CreateCustomPartialUpdater` | src/utils.js:43-62 | The result's shape follows the first argument. One function gives one wrapped updater. Several give an array of the same length. An object gives an object with the same keys. Anything else gives `undefined`. Each wrapped updater writes back the wrapped updater's result on the read sub-state, and fails with the reader's or the updater's error. |
| `Utils.CreatePartialUpdater` | src/utils.js:64-68 | The same shapes as `createCustomPartialUpdater`. Every wrapped updater gets the sub-state at `path`, runs its updater on it and sets the result back at `path`, failing with the first error. |
| `Utils.AtPathRootKey` | src/utils.js:64-68 | At a dot-free path, getting and setting back throws on an `undefined` or `null` state and otherwise changes only that root key of a copy. |
| `Utils.CreateRootKeyUpdater` | src/utils.js:64-68 | Bound to a dot-free key, each wrapped updater, single or keyed, runs its updater on that root key's value and stores the result there, changing nothing else. |
| `Utils.PartialUpdaterStaysOnPath` | src/utils.js:64-68 | A path-bound partial updater fails exactly when reading the sub-state or the wrapped updater fails. Otherwise `get` at the path yields the wrapped updater's output, and every root key other than the first segment is unchanged. |
| `Utils.PartialUpdaterAtRootKey` | src/utils.js:44-48 | Bound to a dot-free key of an object state, the partial updater stores the wrapped updater's output under that key and nowhere else. |
| `Stores.Store.constructor` | src/store.js:1-3 | A new store holds the initial state and no subscribers. |
| `Stores.CreateStore` | src/store.js:38 | `createStore(s)` gives a fresh store whose state is `s`, with no subscribers. |
| `Stores.Store.GetState` | src/store.js:20 | `getState()` returns the current state. |
| `Stores.Store.Select` | src/store.js:22-24 | `select(f)` returns `f(state)` and changes nothing. |
| `Stores.Store.Subscribe` | src/store.js:15-16 | `subscribe` appends the callback after the existing subscribers and keeps their order. |
| `Stores.Without` | src/store.js:17 | The filtered list holds exactly the subscribers other than the callback, each as many times as before, and is no longer than the original. |
| `Stores.WithoutAppend` | src/store.js:17 | Filtering a concatenation concatenates the filtered parts, so the kept subscribers stay in order. |
| `Stores.WithoutSingle` | src/store.js:17 | A single subscriber is dropped exactly when it is the callback. |
| `Stores.Store.Unsubscribe` | src/store.js:17 | As written: the returned list lacks the callback, and the store's subscribers are not changed. |
| `Stores.Store.RemoveSubscriber` | src/store.js:17 | As intended: the store's subscribers become the filtered list, so the callback is no longer among them. |
| `Stores.Store.UpdateOnce` | src/store.js:5-13 | The result is `updater(previousState)`. On success, the state becomes the new state, and every subscriber is called in registration order with `(newState, previousState)`. On failure, nothing changes. |
| `Stores.Store.Update` | src/store.js:26-35 | The updaters commit strictly in order. Each commit notifies every subscriber. On failure the earlier commits stay in place. The result is the outcome `mergeUpdaters` gives, and on success it is the state `getState()` returns afterwards. |
| `Stores.NotifyTraceAppend` | src/store.js:8-11 | One more commit appends one round of notifications, carrying the state it replaced as the previous state. |
| `Stores.CommitsMatchMerge` | src/store.js:26-35 | `update` succeeds exactly when every updater commits. The last committed state is the merged result. On failure, the error is the one the first uncommitted updater raised on the last committed state. |
| `Stores.CommitsChain` | src/store.js:28-30 | The j-th commit is the j-th updater applied to the state committed just before it. |
| `Stores.CommitsIgnoreLaterUpdaters` | src/store.js:28-30 | Updaters after the first failing one make no difference to what is committed. |
| `Stores.LaterUpdatersNeverRun` | src/store.js:7-8 | After a failure, appending any updaters leaves the commits and the error unchanged. |
| `Stores.NotifyTraceAt` | src/store.js:9-11 | Notification j·n+i calls subscriber i with commit j and the state that commit replaced. |
| `Stores.NotifyTraceLength` | src/store.js:27-30 | k commits to n subscribers make exactly k·n calls. An empty list makes none. |
| `Stores.UnsubscribedCallbackStillCalled` | src/store.js:15-17 | Subscribing, unsubscribing as written, then updating: the callback is still subscribed, and the update calls it once with the new and previous state. |
| `Stores.RemovedCallbackNotCalled` | src/store.js:15-17 | With the corrected unsubscribe, the same scenario leaves no subscribers and makes no calls. |
| `ToDoUpdaters.RemoveToDo` | example/src/updaters.js:18-23 | The result has the old keys minus `key`. Every remaining key keeps its value. |
| `ToDoUpdaters.AddToDo` | example/src/updaters.js:25-28 | The call fails exactly when the new to-do is `undefined` or `null`. Otherwise the to-do is stored under its `key`, and every other key keeps its value. |
| `ToDoUpdaters.ToggleToDo` | example/src/updaters.js:30-35 | The entry at `key` gets the given `isFinished`, and its other fields keep their values. Other keys are unchanged. An absent key yields `{ isFinished }`. |
| `ToDoUpdaters.SetIsLoadingToDos` | example/src/updaters.js:37-42 | The loading status gets the given `isLoadingToDos`, and its other fields keep their values. |
| `ToDoUpdaters.UpdateTodos` | example/src/updaters.js:3 | `updateTodos` wraps one updater or an object of updaters; each wrapped updater runs on the root key `toDos` alone. |
| `ToDoUpdaters.UpdateLoadingStatus` | example/src/updaters.js:4 | `updateLoadingStatus` wraps one updater or an object of updaters; each wrapped updater runs on the root key `loadingStatus` alone. |
| `ToDoUpdaters.StartRetrievingToDos` | example/src/updaters.js:51-55 | Three steps in order: set the loading flag on `loadingStatus` to true, replace `toDos` with the fixed collection, set the flag to false. |
| `ToDoUpdaters.FixedToDosKeyed` | example/src/updaters.js:6-16 | The fixed collection has keys 1 to 4, and each entry sits under the key its own `key` field names. |
| `ToDoUpdaters.RetrieveToDosIgnoresInput` | example/src/updaters.js:6-16 | From any object state, `retrieveToDos` stores the fixed collection under `toDos`, whatever was there. |
| `ToDoUpdaters.UpdateIsLoadingToDosEffect` | example/src/updaters.js:37-42 | From any object state, `updateIsLoadingToDos(b)` succeeds and sets `loadingStatus.isLoadingToDos` to `b`. Every other root key, `toDos` included, is unchanged. |
| `ToDoUpdaters.ToDoUpdatersOnlyTouchToDos` | example/src/updaters.js:44-49 | `toDoUpdaters` has exactly the four named keys. From any object state, each entry runs its plain updater on `toDos` and stores the result there, and no other root key changes. |
| `ToDoUpdaters.RetrievedStateContents` | example/src/updaters.js:51-55 | The state after the three steps has loading off, the fixed to-dos, and the original root keys plus `toDos` and `loadingStatus`. Other keys keep their values. |
| `ToDoUpdaters.StartRetrievingToDosOutcome` | example/src/updaters.js:51-55 | From any object state, the sequence succeeds. It ends with `isLoadingToDos` false, `toDos` equal to the fixed collection, and every other root key unchanged. |
| `ToDoUpdaters.StartupOutcome` | example/src/App.js:7-10 | From the application's initial state, the sequence ends with the fixed to-dos, loading off, and no other root keys. |
| `ToDoUpdaters.RetrieveOnStartup` | example/src/App.js:7-10 | A store created with the initial state and given the sequence through `update` resolves with the state it then holds: the fixed to-dos with loading off. |
| `ToDoUpdators.SameAsToDoUpdaters` | example/src/updators.js:6-35 | Each individually wrapped updater is a single wrapped function, and it behaves exactly as the entry of the same name in `toDoUpdaters`. |
| `ToDoUpdators.RemoveToDoEffect` | example/src/updators.js:18-23 | From any object state, `removeToDo(key)` removes `key` from `toDos` and keeps the other to-dos. `loadingStatus` and every other root key are unchanged. |
| `ToDoUpdators.AddToDoEffect` | example/src/updators.js:25-28 | From any object state, `addToDo(t)` fails exactly when `t` is `undefined` or `null`. Otherwise it sets `toDos[t.key]` to `t` and keeps the other to-dos, and no other root key changes. |
| `ToDoUpdators.ToggleToDoEffect` | example/src/updators.js:30-35 | From any object state, `toggleToDo(key, f)` succeeds and sets `isFinished` of `toDos[key]` to `f`. That to-do's other fields, the other to-dos and the other root keys are unchanged. |
| `ToDoUpdators.RetrieveToDosEffect` | example/src/updators.js:6-16 | From any object state, `retrieveToDos()` replaces `toDos` with the fixed collection, whatever it held. |
| `ToDoUpdators.StartRetrievingToDos` | example/src/updators.js:44-48 | Three steps in order: loading flag true, replace `toDos` with the fixed collection, loading flag false. |
| `ToDoUpdators.StartRetrievingToDosAgrees` | example/src/updators.js:44-48 | The older three-step sequence has the same outcome as the newer one on every state. |

## Left out

- Asynchrony: every `await` is one step and every promise is settled at once. An updater that never settles, so stalls the store, is not modelled.
- Concurrent `update` calls and their interleaving at `await` points are not modelled; the store is modelled one call at a time.
- Subscriber callbacks are identified by number and are modelled as the calls made to them. What a subscriber does, and a subscriber that throws or rejects, is not modelled (`Promise.all` is taken as calling each subscriber in order).
- `wait` (src/utils.js:70) is a timer. The two-second `setTimeout` inside `retrieveToDos` is dropped: the promise resolves with the fixed collection.
- The React binding layer, the example components and `window.store` are not part of this model.
- Reference identity: objects are values, so aliasing between the copies `set` makes cannot be expressed. `Utils.Set` is proved equal to the copy-on-write result `Utils.Write`.
- Strings and other primitives have no properties here, so reading a property of one yields `undefined`; `"abc".length` and similar are not modelled. Spreading a string is taken to copy no keys.
- Numbers are unbounded integers. Fractions, `NaN` and infinities are not modelled. A number's property key always spells out every digit: JavaScript writes `1e+21` from 10^21 upwards and loses precision beyond 2^53, and neither is modelled.
- `Value` has no arrays. Spreading an array intermediate in `set` copies its index keys, and `get` can read `length` from an array; neither is modelled.
- `in` sees only own properties; inherited keys such as `toString` are not modelled.
- Functions are not values. An argument to `createCustomPartialUpdater` is a function, an object of functions, or anything else. An object of updaters whose entries are not functions is not modelled.
- Every element of a list given to `update` or `mergeUpdaters` is an updater function. In the source the two differ on a non-function element: `update([undefined])` rejects with a TypeError when it calls it (src/store.js:7), while `mergeUpdaters(undefined)(s)` resolves with `s`, because `then` passes the value through a non-function (src/utils.js:37). Neither case is modelled.
- `example/src/updators.js` imports `createPartialUpdator` from the package `react-state-store`, whose code is not modelled here. It is taken to behave as `createPartialUpdater` of src/utils.js.
- Key order (`Object.keys`) is not modelled, since maps are unordered.

## Findings

| source | as written | input that shows it | evidently intended | confidence | as-written member | corrected member |
|---|---|---|---|---|---|---|
| src/store.js:17 | The function `subscribe` returns computes `subscribers.filter(…)` and returns the filtered list, but never assigns it back. | `subscribe(cb)`, then call the returned function, then `update(s => s)`: `cb` is still subscribed and is still called. | `subscribers = subscribers.filter(subscriber => subscriber !== callback)`, so that the callback is no longer called. | high; not executed | `Stores.Store.Unsubscribe`, `Stores.UnsubscribedCallbackStillCalled` | `Stores.Store.RemoveSubscriber`, `Stores.RemovedCallbackNotCalled` |
